/**
  The prepare/execute protocol over one output path, as interleaved steps of any number of
  sessions: `_run_service.py`, `_session_service.py` and `locking.py` of `ssat/application`.
 */
module SessionProtocol {
  import opened Prelude

  // ------------------------------------------------------------- the output

  datatype Mode = Create | Resume

  /** The output path; `files` stands for the names, sizes and times of a dump's files. */
  datatype Disk = Missing | NotADirectory | EmptyDir | Foreign | BadManifest | Dump(files: nat)

  /** `output_mode`; `None` when it raises. */
  function OutputMode(disk: Disk): Option<Mode> {
    match disk
    case Missing => Some(Create)
    case EmptyDir => Some(Create)
    case Dump(_) => Some(Resume)
    case _ => None
  }

  /** `(current_mode, output_snapshot)`: all a fingerprint sees of the output. */
  datatype View = CreateView | ResumeView(files: nat)

  function ViewOf(disk: Disk): Option<View> {
    match OutputMode(disk)
    case None => None
    case Some(Create) => Some(CreateView)
    case Some(Resume) => Some(ResumeView(disk.files))
  }

  // -------------------------------------------------------- the fingerprint

  /** Hashes recorded when the configuration was loaded; the rest of the payload is `identity`. */
  datatype Context = Context(sourceHash: nat, configHash: Option<nat>, identity: nat)

  /** The outside world: the output, and the input files' current hashes (`None` when unreadable). */
  datatype World = World(disk: Disk, source: Option<nat>, config: Option<nat>)

  /** Two constant strings, or the hash of the payload (taken as injective). */
  datatype Fingerprint = SourceChanged | ConfigChanged | Digest(expected: Mode, view: View, context: Context)

  predicate Sentinel(f: Fingerprint) { f.SourceChanged? || f.ConfigChanged? }

  /** `preflight_fingerprint`; `None` when it raises. */
  function PreflightFingerprint(context: Context, expected: Mode, world: World): Option<Fingerprint> {
    if world.source == None then None
    else if world.source.value != context.sourceHash then Some(SourceChanged)
    else if context.configHash.Some? && world.config == None then None
    else if context.configHash.Some? && world.config != context.configHash then Some(ConfigChanged)
    else
      match ViewOf(world.disk)
      case None => None
      case Some(view) => Some(Digest(expected, view, context))
  }

  /** The stale check guards the output exactly when the recorded fingerprint is not a sentinel. */
  lemma RecheckGuardsOutput(context: Context, mode: Mode, before: World)
    requires PreflightFingerprint(context, mode, before).Some?
    ensures var f := PreflightFingerprint(context, mode, before);
            (forall after: World :: PreflightFingerprint(context, mode, after) == f ==>
             ViewOf(after.disk) == ViewOf(before.disk))
            <==> !Sentinel(f.value)
  {
    var f := PreflightFingerprint(context, mode, before);
    if Sentinel(f.value) {
      var other := if ViewOf(before.disk) == Some(CreateView) then Dump(0) else Missing;
      var after := before.(disk := other);
      assert PreflightFingerprint(context, mode, after) == f;
      assert ViewOf(after.disk) != ViewOf(before.disk);
    }
  }

  /** The input files can be read and hash as they did when the configuration was loaded. */
  predicate InputsUnchanged(context: Context, world: World) {
    && world.source == Some(context.sourceHash)
    && (context.configHash.Some? ==> world.config == context.configHash)
  }

  /** When the answer is either constant, when it is a digest and of what, and, in all other worlds, when it raises. */
  lemma FingerprintMeaning(context: Context, mode: Mode, world: World)
    ensures var f := PreflightFingerprint(context, mode, world);
            && (f == Some(SourceChanged) <==> world.source.Some? && world.source.value != context.sourceHash)
            && (f == Some(ConfigChanged) <==>
                world.source == Some(context.sourceHash) && context.configHash.Some?
                && world.config.Some? && world.config.value != context.configHash.value)
            && (f.Some? && f.value.Digest? <==> InputsUnchanged(context, world) && ViewOf(world.disk).Some?)
            && (f.Some? && f.value.Digest? ==> f == Some(Digest(mode, ViewOf(world.disk).value, context)))
  {
  }

  predicate NothingThere(disk: Disk) { disk.Missing? || disk.EmptyDir? }

  /** Two outputs look alike exactly when there is nothing at either path, or both are one dump. */
  lemma SameViewIff(a: Disk, b: Disk)
    ensures ViewOf(a).Some? <==> NothingThere(a) || a.Dump?
    ensures ViewOf(a).Some? ==>
            (ViewOf(b) == ViewOf(a) <==> (NothingThere(a) && NothingThere(b)) || (a.Dump? && b == a))
    ensures OutputMode(a) == Some(Create) <==> NothingThere(a)
    ensures OutputMode(a) == Some(Resume) <==> a.Dump?
  {
  }

  /** The stale check passes exactly when the same input is still changed, or no input is and the output looks alike. */
  lemma RecheckPassesIff(context: Context, mode: Mode, before: World, after: World)
    requires PreflightFingerprint(context, mode, before).Some?
    ensures PreflightFingerprint(context, mode, after) == PreflightFingerprint(context, mode, before)
            <==> if before.source != Some(context.sourceHash)
                 then after.source.Some? && after.source.value != context.sourceHash
                 else if !InputsUnchanged(context, before)
                 then after.source == Some(context.sourceHash)
                      && after.config.Some? && after.config != context.configHash
                 else InputsUnchanged(context, after) && ViewOf(after.disk) == ViewOf(before.disk)
  {
    FingerprintMeaning(context, mode, before);
    FingerprintMeaning(context, mode, after);
  }

  // ------------------------------------------------------------- the system

  datatype Phase =
    | Idle          // before prepare_run
    | ModeRead      // output_mode answered
    | Ready         // prepare_run returned a PreparedRun
    | Holding       // inside output_lock
    | Checked       // the recomputed fingerprint matched
    | Writing       // a DumpWriter is open
    | WriterClosed  // still inside output_lock
    | Over

  datatype Session = Session(phase: Phase, context: Context, mode: Mode,
                             fingerprint: Option<Fingerprint>, recorded: Option<View>, consumed: bool)

  /**
    `lock` is the holder of the lock on the file now at the lock path.
    `recorded`, `openedOn` and `seen` are history, not program state.
   */
  datatype Sys = Sys(
    world: World, lock: Option<nat>, sessions: map<nat, Session>,
    openedOn: map<nat, View>,  // the output each session's writer was opened on
    seen: set<View>)           // every view the output has had

  predicate InLock(phase: Phase) {
    phase.Holding? || phase.Checked? || phase.Writing? || phase.WriterClosed?
  }

  datatype Step =
    | ReadMode(p: nat) | TakeFingerprint(p: nat) | Acquire(p: nat) | Refuse(p: nat) | Accept(p: nat)
    | OpenWriter(p: nat) | OpenFails(p: nat) | Write(p: nat) | CloseWriter(p: nat) | Release(p: nat)
    | CancelEarly(p: nat) | Crash(p: nat) | InputsChange | OutsideChange | LockFileRemoved

  function Put(s: Sys, p: nat, session: Session): Sys { s.(sessions := s.sessions[p := session]) }

  /** Unlocking frees the path only if the file locked is still the one there. */
  function Freed(s: Sys, p: nat): Option<nat> { if s.lock == Some(p) then None else s.lock }

  function WithDisk(s: Sys, disk: Disk): Sys {
    var view := ViewOf(disk);
    s.(world := s.world.(disk := disk), seen := if view.Some? then s.seen + {view.value} else s.seen)
  }

  /** A dump writer leaves a dump whose files were never seen in that state before. */
  ghost predicate FreshDump(s: Sys, disk: Disk) {
    disk.Dump? && ResumeView(disk.files) !in s.seen
  }

  /** What one session does; `disk` is the output after the step. */
  ghost predicate SessionStep(s: Sys, s': Sys, step: Step, p: nat, disk: Disk) {
    && p in s.sessions
    && var me := s.sessions[p];
       match step
       case ReadMode(_) =>
         && me.phase.Idle? && OutputMode(s.world.disk).Some?
         && s' == Put(s, p, me.(phase := ModeRead, mode := OutputMode(s.world.disk).value))
       case TakeFingerprint(_) =>
         var f := PreflightFingerprint(me.context, me.mode, s.world);
         && me.phase.ModeRead? && f.Some?
         && s' == Put(s, p, me.(phase := Ready, fingerprint := f, recorded := ViewOf(s.world.disk)))
       case Acquire(_) =>
         && me.phase.Ready? && !me.consumed && s.lock == None
         && s' == Put(s, p, me.(phase := Holding)).(lock := Some(p))
       case Refuse(_) =>
         && me.phase.Holding? && PreflightFingerprint(me.context, me.mode, s.world) != me.fingerprint
         && s' == Put(s, p, me.(phase := Ready)).(lock := Freed(s, p))
       case Accept(_) =>
         && me.phase.Holding? && PreflightFingerprint(me.context, me.mode, s.world) == me.fingerprint
         && s' == Put(s, p, me.(phase := Checked, consumed := true))
       case OpenWriter(_) =>
         && me.phase.Checked? && OutputMode(s.world.disk) == Some(me.mode) && FreshDump(s, disk)
         && s' == WithDisk(Put(s, p, me.(phase := Writing)), disk)
                  .(openedOn := s.openedOn[p := ViewOf(s.world.disk).value])
       case OpenFails(_) =>
         && me.phase.Checked? && (ViewOf(disk) == ViewOf(s.world.disk) || ViewOf(disk) == None || FreshDump(s, disk))
         && s' == WithDisk(Put(s, p, me.(phase := Over)), disk).(lock := Freed(s, p))
       case Write(_) =>
         me.phase.Writing? && FreshDump(s, disk) && s' == WithDisk(s, disk)
       case CloseWriter(_) =>
         me.phase.Writing? && FreshDump(s, disk) && s' == WithDisk(Put(s, p, me.(phase := WriterClosed)), disk)
       case Release(_) =>
         me.phase.WriterClosed? && s' == Put(s, p, me.(phase := Over)).(lock := Freed(s, p))
       case CancelEarly(_) =>
         me.phase.Ready? && s' == Put(s, p, me.(phase := Over, consumed := true))
       case Crash(_) =>
         s' == Put(s, p, me.(phase := Over)).(lock := Freed(s, p))
       case _ => false
  }

  ghost predicate Next(s: Sys, s': Sys, step: Step) {
    match step
    case InputsChange => exists source, config :: s' == s.(world := s.world.(source := source, config := config))
    case OutsideChange => exists disk :: s' == WithDisk(s, disk)
    case LockFileRemoved => s' == s.(lock := None)
    case _ => exists disk :: SessionStep(s, s', step, step.p, disk)
  }

  /**
    What other programs may do: remove the lock file while it is held; anything to the output; changes of the
    output only while the lock is free; and those only without bringing back an output a writer was opened on.
   */
  datatype Manners = RemoveLock | Anyhow | RespectLock | NeverRestore

  predicate KeepsOut(manners: Manners) { manners.RespectLock? || manners.NeverRestore? }

  ghost predicate Behaved(s: Sys, s': Sys, step: Step, manners: Manners) {
    && (step.LockFileRemoved? ==> manners.RemoveLock?)
    && (step.OutsideChange? && KeepsOut(manners) ==>
        && s.lock == None
        && var view := ViewOf(s'.world.disk);
           manners.NeverRestore? && view.Some? ==> view.value !in s.openedOn.Values)
  }

  ghost predicate Init(s: Sys) {
    && s.lock == None && s.openedOn == map[]
    && (ViewOf(s.world.disk).Some? ==> ViewOf(s.world.disk).value in s.seen)
    && forall p :: p in s.sessions ==>
         s.sessions[p].phase.Idle? && !s.sessions[p].consumed && s.sessions[p].fingerprint == None
  }

  /** Any interleaving in which other programs keep to `manners`. */
  ghost predicate IsRun(trace: seq<Sys>, steps: seq<Step>, manners: Manners) {
    && |trace| == |steps| + 1 && Init(trace[0])
    && forall i :: 0 <= i < |steps| ==>
         Next(trace[i], trace[i + 1], steps[i]) && Behaved(trace[i], trace[i + 1], steps[i], manners)
  }

  // ---------------------------------------------------------- mutual exclusion

  function ModeOf(view: View): Mode { if view.CreateView? then Create else Resume }

  ghost predicate OwnerInside(s: Sys) {
    && (forall p :: p in s.sessions ==> (InLock(s.sessions[p].phase) <==> s.lock == Some(p)))
    && (s.lock.Some? ==> s.lock.value in s.sessions)
  }

  ghost predicate OpenersKnown(s: Sys) {
    forall p :: p in s.openedOn ==>
      && p in s.sessions && ModeOf(s.openedOn[p]) == s.sessions[p].mode
      && (s.sessions[p].phase.Writing? || s.sessions[p].phase.WriterClosed? || s.sessions[p].phase.Over?)
  }

  ghost predicate LockOwned(s: Sys) { OwnerInside(s) && OpenersKnown(s) }

  lemma StepKeepsOwner(s: Sys, s': Sys, step: Step)
    requires OwnerInside(s) && Next(s, s', step) && !step.LockFileRemoved?
    ensures OwnerInside(s')
  {
  }

  lemma StepKeepsOpeners(s: Sys, s': Sys, step: Step)
    requires OpenersKnown(s) && Next(s, s', step)
    ensures OpenersKnown(s')
  {
  }

  lemma {:induction false} RunKeepsOpeners(trace: seq<Sys>, steps: seq<Step>, manners: Manners, i: nat)
    requires IsRun(trace, steps, manners) && i < |trace|
    ensures OpenersKnown(trace[i])
  {
    if i > 0 {
      RunKeepsOpeners(trace, steps, manners, i - 1);
      assert Next(trace[i - 1], trace[i], steps[i - 1]);
      StepKeepsOpeners(trace[i - 1], trace[i], steps[i - 1]);
    }
  }

  lemma {:induction false} RunKeepsOwner(trace: seq<Sys>, steps: seq<Step>, manners: Manners, i: nat)
    requires IsRun(trace, steps, manners) && !manners.RemoveLock? && i < |trace|
    ensures OwnerInside(trace[i])
  {
    if i > 0 {
      RunKeepsOwner(trace, steps, manners, i - 1);
      assert Next(trace[i - 1], trace[i], steps[i - 1]) && Behaved(trace[i - 1], trace[i], steps[i - 1], manners);
      StepKeepsOwner(trace[i - 1], trace[i], steps[i - 1]);
    }
  }

  /** In every interleaving, whatever other programs do to the output, at most one writer is open. */
  lemma AtMostOneWriter(trace: seq<Sys>, steps: seq<Step>, manners: Manners, i: nat, p: nat, q: nat)
    requires IsRun(trace, steps, manners) && !manners.RemoveLock? && i < |trace|
    requires p in trace[i].sessions && trace[i].sessions[p].phase.Writing?
    requires q in trace[i].sessions && trace[i].sessions[q].phase.Writing?
    ensures p == q
  {
    RunKeepsOwner(trace, steps, manners, i);
  }

  /** A session opens at most one writer, and only in the mode of the output it is opened on. */
  lemma SessionOpensOnce(trace: seq<Sys>, steps: seq<Step>, manners: Manners, i: nat, j: nat, p: nat)
    requires IsRun(trace, steps, manners) && i < j < |steps| && steps[i] == OpenWriter(p)
    ensures steps[j] != OpenWriter(p)
    ensures p in trace[j].openedOn && p in trace[j].sessions
    ensures ModeOf(trace[j].openedOn[p]) == trace[j].sessions[p].mode
  {
    OpenedStaysRecorded(trace, steps, manners, i, j, p);
    RunKeepsOpeners(trace, steps, manners, j);
    assert Next(trace[j], trace[j + 1], steps[j]);
  }

  lemma {:induction false} OpenedStaysRecorded(trace: seq<Sys>, steps: seq<Step>, manners: Manners, i: nat, j: nat,
                                               p: nat)
    requires IsRun(trace, steps, manners) && i < j <= |steps| && steps[i] == OpenWriter(p)
    ensures p in trace[j].openedOn
    decreases j
  {
    assert Next(trace[j - 1], trace[j], steps[j - 1]);
    if i < j - 1 { OpenedStaysRecorded(trace, steps, manners, i, j - 1, p); }
  }

  // ------------------------------------------------- writers open on what was seen

  ghost predicate FingerprintFaithful(me: Session) {
    && (me.phase.Idle? || me.phase.ModeRead? ==> !me.consumed && me.fingerprint == None)
    && (me.phase.Ready? || InLock(me.phase) ==> me.fingerprint.Some?)
    && (me.fingerprint.Some? && !Sentinel(me.fingerprint.value) ==>
        me.recorded.Some? && me.fingerprint == Some(Digest(me.mode, me.recorded.value, me.context)))
  }

  ghost predicate Trusted(s: Sys, p: nat)
  {
    p in s.sessions && s.sessions[p].fingerprint.Some? && !Sentinel(s.sessions[p].fingerprint.value)
  }

  ghost predicate FingerprintsFaithful(s: Sys) {
    forall p :: p in s.sessions ==> FingerprintFaithful(s.sessions[p])
  }

  lemma StepKeepsFingerprints(s: Sys, s': Sys, step: Step)
    requires FingerprintsFaithful(s) && Next(s, s', step)
    ensures FingerprintsFaithful(s')
  {
  }

  lemma {:induction false} RunKeepsFingerprints(trace: seq<Sys>, steps: seq<Step>, manners: Manners, i: nat)
    requires IsRun(trace, steps, manners) && i < |trace|
    ensures FingerprintsFaithful(trace[i])
  {
    if i > 0 {
      RunKeepsFingerprints(trace, steps, manners, i - 1);
      assert Next(trace[i - 1], trace[i], steps[i - 1]);
      StepKeepsFingerprints(trace[i - 1], trace[i], steps[i - 1]);
    }
  }

  /**
    In every interleaving, whatever other programs do: a trusted session passes its stale check only while both
    input files hash as they did at load time and the output looks as it was recorded.
   */
  lemma AcceptedInputsUnchanged(trace: seq<Sys>, steps: seq<Step>, manners: Manners, i: nat, p: nat)
    requires IsRun(trace, steps, manners) && i < |steps| && steps[i] == Accept(p) && Trusted(trace[i], p)
    ensures var context, world := trace[i].sessions[p].context, trace[i].world;
            && world.source == Some(context.sourceHash)
            && (context.configHash.Some? ==> world.config == context.configHash)
            && ViewOf(world.disk) == trace[i].sessions[p].recorded
  {
    var me := trace[i].sessions[p];
    RunKeepsFingerprints(trace, steps, manners, i);
    assert Next(trace[i], trace[i + 1], steps[i]);
    FingerprintMeaning(me.context, me.mode, trace[i].world);
  }

  /**
    Inside the lock exactly one of the two answers is possible: a match consumes the session, a
    mismatch leaves it ready.
   */
  lemma RecheckDecides(s: Sys, s': Sys, p: nat)
    requires p in s.sessions && s.sessions[p].phase.Holding? && s.lock == Some(p)
    ensures var me := s.sessions[p];
            var passes := PreflightFingerprint(me.context, me.mode, s.world) == me.fingerprint;
            && (Next(s, s', Accept(p)) <==> passes && s' == Put(s, p, me.(phase := Checked, consumed := true)))
            && (Next(s, s', Refuse(p)) <==> !passes && s' == Put(s, p, me.(phase := Ready)).(lock := None))
  {
    var disk := s.world.disk;
    assert SessionStep(s, s', Accept(p), p, disk) ==> Next(s, s', Accept(p));
    assert SessionStep(s, s', Refuse(p), p, disk) ==> Next(s, s', Refuse(p));
  }

  /**
    A session past its check may fail to open, leaving the output as it looked, unusable, or a dump
    never seen before.
   */
  lemma OpenCanFail(s: Sys, p: nat, disk: Disk)
    requires p in s.sessions && s.sessions[p].phase.Checked?
    requires ViewOf(disk) == ViewOf(s.world.disk) || ViewOf(disk) == None
             || (disk.Dump? && ResumeView(disk.files) !in s.seen)
    ensures Next(s, WithDisk(Put(s, p, s.sessions[p].(phase := Over)), disk).(lock := Freed(s, p)), OpenFails(p))
  {
    var s' := WithDisk(Put(s, p, s.sessions[p].(phase := Over)), disk).(lock := Freed(s, p));
    assert SessionStep(s, s', OpenFails(p), p, disk);
  }

  ghost predicate SessionOk(s: Sys, p: nat)
    requires p in s.sessions
  {
    var me := s.sessions[p];
    && FingerprintFaithful(me)
    && (me.phase.Checked? ==> me.consumed && (Trusted(s, p) ==> ViewOf(s.world.disk) == me.recorded))
    && (p in s.openedOn ==> me.consumed && (me.phase.Writing? || me.phase.WriterClosed? || me.phase.Over?))
    && (p in s.openedOn && Trusted(s, p) ==> me.recorded == Some(s.openedOn[p]))
  }

  ghost predicate OpenersDistinct(s: Sys) {
    forall p, q :: p in s.openedOn && q in s.openedOn && s.openedOn[p] == s.openedOn[q] ==> p == q
  }

  ghost predicate HistorySeen(s: Sys) {
    && (forall p :: p in s.openedOn ==> p in s.sessions && s.openedOn[p] in s.seen)
    && (ViewOf(s.world.disk).Some? ==>
        ViewOf(s.world.disk).value in s.seen && forall p :: p in s.openedOn ==>
          s.openedOn[p] != ViewOf(s.world.disk).value)
  }

  ghost predicate HistoryOk(s: Sys) { OpenersDistinct(s) && HistorySeen(s) }

  ghost predicate SessionsOk(s: Sys) {
    LockOwned(s) && forall p :: p in s.sessions ==> SessionOk(s, p)
  }

  lemma StepKeepsOpenersDistinct(s: Sys, s': Sys, step: Step)
    requires HistoryOk(s) && OpenersKnown(s) && Next(s, s', step)
    ensures OpenersDistinct(s')
  {
  }

  lemma StepKeepsHistorySeen(s: Sys, s': Sys, step: Step)
    requires HistorySeen(s) && Next(s, s', step) && Behaved(s, s', step, NeverRestore)
    ensures HistorySeen(s')
  {
  }

  lemma OwnStepKeepsSession(s: Sys, s': Sys, step: Step, p: nat, disk: Disk)
    requires SessionsOk(s) && SessionStep(s, s', step, p, disk)
    ensures SessionOk(s', p)
  {
    assert SessionOk(s, p);
  }

  lemma OtherStepKeepsSession(s: Sys, s': Sys, step: Step, p: nat, disk: Disk, q: nat)
    requires SessionsOk(s) && SessionStep(s, s', step, p, disk) && q in s'.sessions && q != p
    ensures SessionOk(s', q)
  {
    assert SessionOk(s, q);
  }

  lemma StepKeepsSessions(s: Sys, s': Sys, step: Step, manners: Manners, q: nat)
    requires SessionsOk(s) && Next(s, s', step) && Behaved(s, s', step, manners) && KeepsOut(manners)
             && q in s'.sessions
    ensures SessionOk(s', q)
  {
    if step.InputsChange? || step.OutsideChange? {
      assert SessionOk(s, q);
    } else {
      var disk :| SessionStep(s, s', step, step.p, disk);
      if q == step.p { OwnStepKeepsSession(s, s', step, q, disk); }
      else { OtherStepKeepsSession(s, s', step, step.p, disk, q); }
    }
  }

  /** While the lock is respected: checked sessions still see the output they recorded. */
  lemma {:induction false} RunKeepsSessions(trace: seq<Sys>, steps: seq<Step>, manners: Manners, i: nat)
    requires IsRun(trace, steps, manners) && KeepsOut(manners) && i < |trace|
    ensures SessionsOk(trace[i])
  {
    if i > 0 {
      RunKeepsSessions(trace, steps, manners, i - 1);
      var s, s', step := trace[i - 1], trace[i], steps[i - 1];
      assert Next(s, s', step) && Behaved(s, s', step, manners);
      StepKeepsOwner(s, s', step);
      StepKeepsOpeners(s, s', step);
      forall p | p in s'.sessions ensures SessionOk(s', p) { StepKeepsSessions(s, s', step, manners, p); }
    }
  }

  /** While nothing is brought back: no output a writer was opened on ever recurs. */
  lemma {:induction false} RunKeepsHistory(trace: seq<Sys>, steps: seq<Step>, i: nat)
    requires IsRun(trace, steps, NeverRestore) && i < |trace|
    ensures HistoryOk(trace[i])
  {
    if i > 0 {
      RunKeepsHistory(trace, steps, i - 1);
      RunKeepsOpeners(trace, steps, NeverRestore, i - 1);
      var s, s', step := trace[i - 1], trace[i], steps[i - 1];
      assert Next(s, s', step) && Behaved(s, s', step, NeverRestore);
      StepKeepsOpenersDistinct(s, s', step);
      StepKeepsHistorySeen(s, s', step);
    }
  }

  /**
    A writer opens only on the output its (non-sentinel) fingerprint recorded, if only other
    programs respect the lock.
   */
  lemma WriterOpensOnRecordedOutput(trace: seq<Sys>, steps: seq<Step>, manners: Manners, i: nat, p: nat)
    requires IsRun(trace, steps, manners) && KeepsOut(manners)
    requires i < |trace| && p in trace[i].openedOn && Trusted(trace[i], p)
    ensures trace[i].sessions[p].recorded == Some(trace[i].openedOn[p])
  {
    RunKeepsSessions(trace, steps, manners, i);
    assert SessionOk(trace[i], p);
  }

  /** Of the sessions fingerprinted on one output state, at most one ever opens a writer, if nothing is brought back. */
  lemma AtMostOneOpenerPerOutput(trace: seq<Sys>, steps: seq<Step>, i: nat, p: nat, q: nat)
    requires IsRun(trace, steps, NeverRestore) && i < |trace|
    requires p in trace[i].openedOn && Trusted(trace[i], p) && q in trace[i].openedOn && Trusted(trace[i], q)
    requires trace[i].sessions[p].recorded == trace[i].sessions[q].recorded
    ensures p == q
  {
    WriterOpensOnRecordedOutput(trace, steps, NeverRestore, i, p);
    WriterOpensOnRecordedOutput(trace, steps, NeverRestore, i, q);
    RunKeepsHistory(trace, steps, i);
  }

  // ------------------------------------------------------ runs outside the guards

  ghost predicate Reachable(s: Sys, manners: Manners) {
    exists trace: seq<Sys>, steps: seq<Step> :: IsRun(trace, steps, manners) && trace[|steps|] == s
  }

  lemma ReachInit(s: Sys, manners: Manners)
    requires Init(s)
    ensures Reachable(s, manners)
  {
    assert IsRun([s], [], manners);
  }

  lemma ReachNext(s: Sys, s': Sys, step: Step, manners: Manners)
    requires Reachable(s, manners) && Next(s, s', step) && Behaved(s, s', step, manners)
    ensures Reachable(s', manners)
  {
    var trace: seq<Sys>, steps: seq<Step> :| IsRun(trace, steps, manners) && trace[|steps|] == s;
    var trace', steps' := trace + [s'], steps + [step];
    forall i | 0 <= i < |steps'|
      ensures Next(trace'[i], trace'[i + 1], steps'[i])
      ensures Behaved(trace'[i], trace'[i + 1], steps'[i], manners)
    {
      if i < |steps| { assert trace'[i] == trace[i] && trace'[i + 1] == trace[i + 1] && steps'[i] == steps[i]; }
    }
    assert IsRun(trace', steps', manners) && trace'[|steps'|] == s';
  }

  lemma ReachStep(s: Sys, s': Sys, step: Step, p: nat, disk: Disk, manners: Manners)
    requires Reachable(s, manners) && SessionStep(s, s', step, p, disk) && step.p == p
    ensures Reachable(s', manners)
  {
    assert Next(s, s', step);
    ReachNext(s, s', step, manners);
  }

  /** `prepare_run`, run without interruption. */
  function AfterPrepare(s: Sys, p: nat): Sys
    requires p in s.sessions && OutputMode(s.world.disk).Some?
  {
    var me, mode := s.sessions[p], OutputMode(s.world.disk).value;
    Put(s, p, me.(phase := Ready, mode := mode, recorded := ViewOf(s.world.disk),
                  fingerprint := PreflightFingerprint(me.context, mode, s.world)))
  }

  lemma PrepareReaches(s: Sys, p: nat, manners: Manners)
    requires Reachable(s, manners) && p in s.sessions && s.sessions[p].phase.Idle?
    requires OutputMode(s.world.disk).Some?
    requires PreflightFingerprint(s.sessions[p].context, OutputMode(s.world.disk).value, s.world).Some?
    ensures Reachable(AfterPrepare(s, p), manners)
  {
    var me, mode := s.sessions[p], OutputMode(s.world.disk).value;
    var read := Put(s, p, me.(phase := ModeRead, mode := mode));
    ReachStep(s, read, ReadMode(p), p, s.world.disk, manners);
    ReachStep(read, AfterPrepare(s, p), TakeFingerprint(p), p, s.world.disk, manners);
  }

  /** `execute_run` up to its passed stale check, run without interruption. */
  function AfterCheck(s: Sys, p: nat): Sys
    requires p in s.sessions
  {
    Put(s, p, s.sessions[p].(phase := Checked, consumed := true)).(lock := Some(p))
  }

  lemma CheckReaches(s: Sys, p: nat, manners: Manners)
    requires Reachable(s, manners) && p in s.sessions && s.lock == None
    requires s.sessions[p].phase.Ready? && !s.sessions[p].consumed
    requires PreflightFingerprint(s.sessions[p].context, s.sessions[p].mode, s.world) == s.sessions[p].fingerprint
    ensures Reachable(AfterCheck(s, p), manners)
  {
    var held := Put(s, p, s.sessions[p].(phase := Holding)).(lock := Some(p));
    ReachStep(s, held, Acquire(p), p, s.world.disk, manners);
    ReachStep(held, AfterCheck(s, p), Accept(p), p, s.world.disk, manners);
  }

  /** The writer opened on the output as it is now, which it leaves as `disk`. */
  function AfterOpen(s: Sys, p: nat, disk: Disk): Sys
    requires p in s.sessions && ViewOf(s.world.disk).Some?
  {
    WithDisk(Put(s, p, s.sessions[p].(phase := Writing, consumed := true)), disk)
    .(lock := Some(p), openedOn := s.openedOn[p := ViewOf(s.world.disk).value])
  }

  lemma OpenReaches(s: Sys, p: nat, disk: Disk, manners: Manners)
    requires Reachable(s, manners) && p in s.sessions && s.lock == Some(p) && s.sessions[p].phase.Checked?
             && s.sessions[p].consumed
    requires OutputMode(s.world.disk) == Some(s.sessions[p].mode) && FreshDump(s, disk)
    ensures Reachable(AfterOpen(s, p, disk), manners)
  {
    ReachStep(s, AfterOpen(s, p, disk), OpenWriter(p), p, disk, manners);
  }

  /** A prepared session whose fingerprint still matches can always go on to open its writer. */
  lemma MatchingSessionCanOpen(s: Sys, p: nat, disk: Disk, manners: Manners)
    requires Reachable(s, manners) && p in s.sessions && s.lock == None
    requires s.sessions[p].phase.Ready? && !s.sessions[p].consumed
    requires PreflightFingerprint(s.sessions[p].context, s.sessions[p].mode, s.world) == s.sessions[p].fingerprint
    requires OutputMode(s.world.disk) == Some(s.sessions[p].mode) && FreshDump(s, disk)
    ensures Reachable(AfterOpen(s, p, disk), manners)
  {
    CheckReaches(s, p, manners);
    OpenReaches(AfterCheck(s, p), p, disk, manners);
    assert AfterOpen(AfterCheck(s, p), p, disk) == AfterOpen(s, p, disk);
  }

  function Unprepared(context: Context): Session {
    Session(Idle, context, Create, None, None, false)
  }

  /** A session whose source manifest had changed before it was prepared, with the output as it is now. */
  function SentinelPrepared(files: nat): Sys {
    var context := Context(1, None, 0);
    Sys(World(Dump(files), Some(2), None), None,
        map[0 := Session(Ready, context, Resume, Some(SourceChanged), Some(ResumeView(0)), false)],
        map[], {ResumeView(0), ResumeView(files)})
  }

  lemma SentinelPreparedReached()
    ensures Reachable(SentinelPrepared(0), NeverRestore)
  {
    var s := Sys(World(Dump(0), Some(2), None), None, map[0 := Unprepared(Context(1, None, 0))], map[],
                 {ResumeView(0)});
    ReachInit(s, NeverRestore);
    PrepareReaches(s, 0, NeverRestore);
    assert AfterPrepare(s, 0) == SentinelPrepared(0);
  }

  lemma SentinelOutputChanges()
    ensures Reachable(SentinelPrepared(1), NeverRestore)
  {
    SentinelPreparedReached();
    var s := SentinelPrepared(0);
    assert WithDisk(s, Dump(1)) == SentinelPrepared(1);
    assert Next(s, SentinelPrepared(1), OutsideChange);
    ReachNext(s, SentinelPrepared(1), OutsideChange, NeverRestore);
  }

  /**
    A session prepared after its source manifest changed holds a sentinel, so it goes on to open
    a writer on an output that changed after its preflight.
   */
  lemma SentinelSessionOpensOnChangedOutput() returns (end: Sys)
    ensures Reachable(end, NeverRestore)
    ensures 0 in end.openedOn && 0 in end.sessions && end.sessions[0].recorded != Some(end.openedOn[0])
  {
    SentinelOutputChanges();
    MatchingSessionCanOpen(SentinelPrepared(1), 0, Dump(2), NeverRestore);
    end := AfterOpen(SentinelPrepared(1), 0, Dump(2));
  }

  /** A session that passed its stale check on the dump it recorded. */
  function CheckedOnDump(context: Context): Sys {
    Sys(World(Dump(0), Some(context.sourceHash), None), Some(0),
        map[0 := Session(Checked, context, Resume, Some(Digest(Resume, ResumeView(0), context)), Some(ResumeView(0)),
                         true)],
        map[], {ResumeView(0)})
  }

  lemma CheckedOnDumpReached(context: Context)
    requires context.configHash == None
    ensures Reachable(CheckedOnDump(context), Anyhow)
  {
    var s := Sys(World(Dump(0), Some(context.sourceHash), None), None, map[0 := Unprepared(context)], map[],
                 {ResumeView(0)});
    ReachInit(s, Anyhow);
    PrepareReaches(s, 0, Anyhow);
    CheckReaches(AfterPrepare(s, 0), 0, Anyhow);
    assert AfterCheck(AfterPrepare(s, 0), 0) == CheckedOnDump(context);
  }

  /** The same session after another program changed the output under its lock. */
  lemma ChangedUnderLock(context: Context)
    requires context.configHash == None
    ensures Reachable(WithDisk(CheckedOnDump(context), Dump(1)), Anyhow)
  {
    var s := CheckedOnDump(context);
    CheckedOnDumpReached(context);
    assert Next(s, WithDisk(s, Dump(1)), OutsideChange);
    ReachNext(s, WithDisk(s, Dump(1)), OutsideChange, Anyhow);
  }

  /** A program that ignores the lock can slip a change in between the stale check and the open. */
  lemma IgnoredLockOpensOnChangedOutput() returns (end: Sys)
    ensures Reachable(end, Anyhow)
    ensures 0 in end.openedOn && Trusted(end, 0) && end.sessions[0].recorded != Some(end.openedOn[0])
  {
    var context := Context(1, None, 0);
    var changed := WithDisk(CheckedOnDump(context), Dump(1));
    ChangedUnderLock(context);
    OpenReaches(changed, 0, Dump(2), Anyhow);
    end := AfterOpen(changed, 0, Dump(2));
  }

  /** One session writing on the dump it created; a second one waits, unprepared. */
  function WritingBesideIdle(context: Context): Sys {
    Sys(World(Dump(0), Some(context.sourceHash), None), Some(0),
        map[0 := ReadyToCreate(context).(phase := Writing, consumed := true), 1 := Unprepared(context)],
        map[0 := CreateView], {CreateView, ResumeView(0)})
  }

  lemma WritingBesideIdleReached(context: Context)
    requires context.configHash == None
    ensures Reachable(WritingBesideIdle(context), RemoveLock)
  {
    var idle := Unprepared(context);
    var s := Sys(World(Missing, Some(context.sourceHash), None), None, map[0 := idle, 1 := idle], map[], {CreateView});
    ReachInit(s, RemoveLock);
    PrepareReaches(s, 0, RemoveLock);
    MatchingSessionCanOpen(AfterPrepare(s, 0), 0, Dump(0), RemoveLock);
    assert AfterOpen(AfterPrepare(s, 0), 0, Dump(0)) == WritingBesideIdle(context);
  }

  /** The second session prepared on that dump, after the lock file of the first was removed. */
  function WritingBesideReady(context: Context): Sys {
    var s := WritingBesideIdle(context);
    var second := Session(Ready, context, Resume, Some(Digest(Resume, ResumeView(0), context)), Some(ResumeView(0)),
                          false);
    Put(s, 1, second).(lock := None)
  }

  lemma WritingBesideReadyReached(context: Context)
    requires context.configHash == None
    ensures Reachable(WritingBesideReady(context), RemoveLock)
  {
    var s := WritingBesideIdle(context);
    WritingBesideIdleReached(context);
    PrepareReaches(s, 1, RemoveLock);
    ReachNext(AfterPrepare(s, 1), AfterPrepare(s, 1).(lock := None), LockFileRemoved, RemoveLock);
    assert AfterPrepare(s, 1).(lock := None) == WritingBesideReady(context);
  }

  /** Once another program removes the lock file while it is held, a second writer can open beside the first. */
  lemma RemovedLockAdmitsTwoWriters() returns (end: Sys)
    ensures Reachable(end, RemoveLock)
    ensures 0 in end.sessions && end.sessions[0].phase.Writing? && 1 in end.sessions && end.sessions[1].phase.Writing?
  {
    var s := WritingBesideReady(Context(1, None, 0));
    WritingBesideReadyReached(Context(1, None, 0));
    MatchingSessionCanOpen(s, 1, Dump(1), RemoveLock);
    end := AfterOpen(s, 1, Dump(1));
  }

  /** A session prepared on a missing output. */
  function ReadyToCreate(context: Context): Session {
    Session(Ready, context, Create, Some(Digest(Create, CreateView, context)), Some(CreateView), false)
  }

  lemma TwoPreparedOnMissing(context: Context) returns (s: Sys)
    requires context.configHash == None
    ensures Reachable(s, RespectLock)
    ensures s == Sys(World(Missing, Some(context.sourceHash), None), None,
                     map[0 := ReadyToCreate(context), 1 := ReadyToCreate(context)], map[], {CreateView})
  {
    var idle := Unprepared(context);
    s := Sys(World(Missing, Some(context.sourceHash), None), None, map[0 := idle, 1 := idle], map[], {CreateView});
    ReachInit(s, RespectLock);
    PrepareReaches(s, 0, RespectLock);
    s := AfterPrepare(s, 0);
    PrepareReaches(s, 1, RespectLock);
    s := AfterPrepare(s, 1);
  }

  /** Deleting an output lets a second session, fingerprinted on the same state, open a writer too. */
  lemma DeletionAdmitsSecondOpener() returns (end: Sys)
    ensures Reachable(end, RespectLock)
    ensures 0 in end.openedOn && 1 in end.openedOn && Trusted(end, 0) && Trusted(end, 1)
    ensures end.sessions[0].recorded == end.sessions[1].recorded
  {
    var s := TwoPreparedOnMissing(Context(1, None, 0));
    MatchingSessionCanOpen(s, 0, Dump(0), RespectLock);
    var writing := AfterOpen(s, 0, Dump(0));
    DeadWritersOutputCanGo(writing, 0, Missing);
    var deleted := AfterDeath(writing, 0, Missing);
    MatchingSessionCanOpen(deleted, 1, Dump(1), RespectLock);
    end := AfterOpen(deleted, 1, Dump(1));
  }

  /** The writer's process dies and another program replaces the output. */
  function AfterDeath(s: Sys, p: nat, disk: Disk): Sys
    requires p in s.sessions
  {
    WithDisk(Put(s, p, s.sessions[p].(phase := Over)).(lock := None), disk)
  }

  lemma DeadWritersOutputCanGo(s: Sys, p: nat, disk: Disk)
    requires Reachable(s, RespectLock) && p in s.sessions && s.lock == Some(p)
    ensures Reachable(AfterDeath(s, p, disk), RespectLock)
  {
    var crashed := Put(s, p, s.sessions[p].(phase := Over)).(lock := None);
    ReachStep(s, crashed, Crash(p), p, disk, RespectLock);
    assert Next(crashed, AfterDeath(s, p, disk), OutsideChange);
    ReachNext(crashed, AfterDeath(s, p, disk), OutsideChange, RespectLock);
  }
}
