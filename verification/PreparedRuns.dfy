/**
  One prepared session and its `execute_run`/`close` calls: `PreparedRun` of
  `ssat/application/application.py`, `execute_run` of `_run_service.py`, `output_lock` of `locking.py`.
 */
module PreparedRuns {
  import opened Prelude

  type Fingerprint = nat

  datatype LockAttempt = Acquired | Busy | LockError
  /** How `ResumeIndex.open` and `run_audit` end. */
  datatype Audit = Finished | CancelledInRun | Failed

  /** What one `execute_run` call meets; `current` is `None` when recomputing the fingerprint raises. */
  datatype Attempt = Attempt(
    sameApplication: bool, confirmed: bool, cancelled: bool,
    lock: LockAttempt, current: Option<Fingerprint>, writerOpens: bool, audit: Audit)

  datatype Call = Execute(attempt: Attempt) | Close(cleanupRaises: bool)

  datatype ErrorCode = Execution | ConfirmationRequired | Locked | StalePreflight
  datatype Outcome = Completed | Cancelled | Raised(code: ErrorCode) | Closed | CleanupRaised

  datatype Event = LockTaken | LockFreed | WriterOpened | WriterClosed(success: bool)

  /** What `prepare_run` fixed. */
  datatype Prepared = Prepared(confirmationRequired: bool, fingerprint: Fingerprint)

  datatype State = State(hasContext: bool, closed: bool, consumed: bool)

  const FRESH := State(true, false, false)

  /** The state, outcome and events of one call. */
  datatype Effect = Effect(state: State, outcome: Outcome, events: seq<Event>)

  /** The block inside `with output_lock(output)`. */
  function LockedEffect(prepared: Prepared, s: State, a: Attempt): Effect {
    if !s.hasContext || a.current != Some(prepared.fingerprint) then Effect(s, Raised(StalePreflight), [])
    else
      var s' := s.(consumed := true);
      if !a.writerOpens then Effect(s', Raised(Execution), [])
      else
        match a.audit
        case Finished => Effect(s', Completed, [WriterOpened, WriterClosed(true)])
        case CancelledInRun => Effect(s', Cancelled, [WriterOpened, WriterClosed(false)])
        case Failed => Effect(s', Raised(Execution), [WriterOpened, WriterClosed(false)])
  }

  function CallEffect(prepared: Prepared, s: State, call: Call): Effect {
    match call
    case Close(raises) =>
      if s.hasContext && raises then Effect(s.(hasContext := false), CleanupRaised, [])
      else Effect(s.(hasContext := false, closed := true), Closed, [])
    case Execute(a) =>
      if !a.sameApplication || s.closed || s.consumed then Effect(s, Raised(Execution), [])
      else if prepared.confirmationRequired && !a.confirmed then Effect(s, Raised(ConfirmationRequired), [])
      else if a.cancelled then Effect(s.(consumed := true), Cancelled, [])
      else
        match a.lock
        case Busy => Effect(s, Raised(Locked), [])
        case LockError => Effect(s, Raised(Execution), [])
        case Acquired =>
          var inner := LockedEffect(prepared, s, a);
          inner.(events := [LockTaken] + inner.events + [LockFreed])
  }

  // ---------------------------------------------------------- the program

  class Host {
    var lockHeld: bool
    var openWriters: nat
    var events: seq<Event>

    constructor ()
      ensures !lockHeld && openWriters == 0 && events == []
    {
      lockHeld, openWriters, events := false, 0, [];
    }

    method OpenWriter()
      modifies this
      ensures lockHeld == old(lockHeld) && openWriters == old(openWriters) + 1
      ensures events == old(events) + [WriterOpened]
    {
      openWriters := openWriters + 1;
      events := events + [WriterOpened];
    }

    method CloseWriter(success: bool)
      requires openWriters > 0
      modifies this
      ensures lockHeld == old(lockHeld) && openWriters == old(openWriters) - 1
      ensures events == old(events) + [WriterClosed(success)]
    {
      openWriters := openWriters - 1;
      events := events + [WriterClosed(success)];
    }
  }

  class PreparedRun {
    const prepared: Prepared
    var hasContext: bool
    var closed: bool
    var consumed: bool

    function Current(): State
      reads this
    {
      State(hasContext, closed, consumed)
    }

    constructor (prepared: Prepared)
      ensures this.prepared == prepared && Current() == FRESH
    {
      this.prepared := prepared;
      hasContext, closed, consumed := true, false, false;
    }

    /** `PreparedRun.close`: the context is dropped before the cleanup that may raise. */
    method CloseSession(cleanupRaises: bool) returns (outcome: Outcome)
      modifies this
      ensures var e := CallEffect(prepared, old(Current()), Close(cleanupRaises));
              Current() == e.state && outcome == e.outcome
    {
      var held := hasContext;
      hasContext := false;
      if held && cleanupRaises { return CleanupRaised; }
      closed := true;
      outcome := Closed;
    }

    /** Under the lock: stale check, consume, open, run, and close on every path. */
    method RunLocked(host: Host, a: Attempt) returns (outcome: Outcome)
      requires host.lockHeld
      modifies this, host
      ensures var e := LockedEffect(prepared, old(Current()), a);
              Current() == e.state && outcome == e.outcome && host.events == old(host.events) + e.events
      ensures host.lockHeld && host.openWriters == old(host.openWriters)
    {
      var current := if hasContext then a.current else None;
      if current == None || current.value != prepared.fingerprint { return Raised(StalePreflight); }
      consumed := true;
      if !a.writerOpens { return Raised(Execution); }
      host.OpenWriter();
      match a.audit {
        case CancelledInRun =>
          host.CloseWriter(false);
          outcome := Cancelled;
        case Failed =>
          host.CloseWriter(false);
          outcome := Raised(Execution);
        case Finished =>
          host.CloseWriter(true);
          outcome := Completed;
      }
    }

    /** `execute_run`; the lock is released and no writer stays open, however the call ends. */
    method ExecuteRun(host: Host, a: Attempt) returns (outcome: Outcome)
      requires !host.lockHeld && host.openWriters == 0
      modifies this, host
      ensures var e := CallEffect(prepared, old(Current()), Execute(a));
              Current() == e.state && outcome == e.outcome && host.events == old(host.events) + e.events
      ensures !host.lockHeld && host.openWriters == 0
    {
      if !a.sameApplication || closed || consumed { return Raised(Execution); }
      if prepared.confirmationRequired && !a.confirmed { return Raised(ConfirmationRequired); }
      if a.cancelled {
        consumed := true;
        return Cancelled;
      }
      if a.lock == Busy { return Raised(Locked); }
      if a.lock == LockError { return Raised(Execution); }
      host.lockHeld := true;
      host.events := host.events + [LockTaken];
      outcome := RunLocked(host, a);
      host.lockHeld := false;
      host.events := host.events + [LockFreed];
    }
  }

  // ------------------------------------------------------ sequences of calls

  /** One more call: its state and outcome, and all events so far. */
  function Then(prepared: Prepared, before: Effect, call: Call): Effect {
    var e := CallEffect(prepared, before.state, call);
    e.(events := before.events + e.events)
  }

  /** The session after the first `i` calls, with everything the host saw. */
  function After(prepared: Prepared, calls: seq<Call>, i: nat): Effect
    requires i <= |calls|
  {
    if i == 0 then Effect(FRESH, Closed, []) else Then(prepared, After(prepared, calls, i - 1), calls[i - 1])
  }

  function StateAt(prepared: Prepared, calls: seq<Call>, i: nat): State
    requires i <= |calls|
  {
    After(prepared, calls, i).state
  }

  function EffectAt(prepared: Prepared, calls: seq<Call>, i: nat): Effect
    requires i < |calls|
  {
    CallEffect(prepared, StateAt(prepared, calls, i), calls[i])
  }

  predicate Opens(e: Effect) { WriterOpened in e.events }

  /** Allowed by the caller, the lock and the recomputed fingerprint. */
  predicate Admitted(prepared: Prepared, s: State, a: Attempt) {
    && a.sameApplication && (prepared.confirmationRequired ==> a.confirmed) && !a.cancelled
    && a.lock == Acquired && a.current == Some(prepared.fingerprint)
    && s.hasContext && !s.closed && !s.consumed
  }

  /** One call's events: nothing, a bare lock, or a lock around one writer that is closed as its audit ended. */
  lemma CallEvents(prepared: Prepared, s: State, call: Call)
    ensures var e := CallEffect(prepared, s, call);
            && (e.events == [] || e.events == [LockTaken, LockFreed]
                || (call.Execute? && e.events
                    == [LockTaken, WriterOpened, WriterClosed(call.attempt.audit == Finished), LockFreed]))
            && (Opens(e) <==> call.Execute? && Admitted(prepared, s, call.attempt) && call.attempt.writerOpens)
            && (e.outcome == Completed <==> Opens(e) && call.attempt.audit == Finished)
            && (Opens(e) ==> e.state.consumed)
            && (s.consumed ==> e.state.consumed)
  {
  }

  /** Not yet used or closed, and called by its own application with the confirmation it needs. */
  predicate Callable(prepared: Prepared, s: State, a: Attempt) {
    a.sameApplication && !s.closed && !s.consumed && (prepared.confirmationRequired ==> a.confirmed)
  }

  /** Which calls end how; every other `execute_run` raises an execution error. */
  lemma OutcomeMeaning(prepared: Prepared, s: State, a: Attempt)
    ensures var e := CallEffect(prepared, s, Execute(a));
            var callable := Callable(prepared, s, a);
            var locked := callable && !a.cancelled && a.lock == Acquired;
            && (e.outcome == Raised(ConfirmationRequired)
                <==> a.sameApplication && !s.closed && !s.consumed && prepared.confirmationRequired && !a.confirmed)
            && (e.outcome == Raised(Locked) <==> callable && !a.cancelled && a.lock == Busy)
            && (e.outcome == Raised(StalePreflight)
                <==> locked && (!s.hasContext || a.current != Some(prepared.fingerprint)))
            && (e.outcome == Cancelled <==> (callable && a.cancelled) || (Opens(e) && a.audit == CancelledInRun))
            && (e.outcome == Completed <==> Opens(e) && a.audit == Finished)
            && (e.outcome.Completed? || e.outcome.Cancelled? || e.outcome.Raised?)
            && (LockTaken in e.events <==> locked)
  {
  }

  /**
    A call uses the session up exactly when it cancels it early or is let through to the writer; it
    changes nothing else.
   */
  lemma ConsumedIff(prepared: Prepared, s: State, a: Attempt)
    ensures var after := CallEffect(prepared, s, Execute(a)).state;
            && (after.consumed
                <==> s.consumed || (Callable(prepared, s, a) && a.cancelled) || Admitted(prepared, s, a))
            && after.hasContext == s.hasContext && after.closed == s.closed
  {
  }

  /** A session that completed, was cancelled or opened a writer raises on every later call. */
  lemma SpentSessionRaises(prepared: Prepared, calls: seq<Call>, i: nat, j: nat)
    requires i < j < |calls| && calls[i].Execute? && calls[j].Execute?
    requires var e := EffectAt(prepared, calls, i); e.outcome.Completed? || e.outcome.Cancelled? || Opens(e)
    ensures EffectAt(prepared, calls, j).outcome == Raised(Execution) && EffectAt(prepared, calls, j).events == []
  {
    OutcomeMeaning(prepared, StateAt(prepared, calls, i), calls[i].attempt);
    CallEvents(prepared, StateAt(prepared, calls, i), calls[i]);
    ConsumedIff(prepared, StateAt(prepared, calls, i), calls[i].attempt);
    assert StateAt(prepared, calls, i + 1) == EffectAt(prepared, calls, i).state;
    ConsumedStays(prepared, calls, i + 1, j);
  }

  lemma {:induction false} ConsumedStays(prepared: Prepared, calls: seq<Call>, i: nat, j: nat)
    requires i <= j <= |calls| && StateAt(prepared, calls, i).consumed
    ensures StateAt(prepared, calls, j).consumed
    decreases j
  {
    if i < j { ConsumedStays(prepared, calls, i, j - 1); }
  }

  /** Over any sequence of calls, at most one opens a writer, and it was confirmed when required. */
  lemma OneWriterPerSession(prepared: Prepared, calls: seq<Call>, i: nat, j: nat)
    requires i < |calls| && j < |calls|
    requires Opens(EffectAt(prepared, calls, i)) && Opens(EffectAt(prepared, calls, j))
    ensures i == j
    ensures calls[i].Execute? && (prepared.confirmationRequired ==> calls[i].attempt.confirmed)
  {
    CallEvents(prepared, StateAt(prepared, calls, i), calls[i]);
    CallEvents(prepared, StateAt(prepared, calls, j), calls[j]);
    if i < j {
      ConsumedStays(prepared, calls, i + 1, j);
    } else if j < i {
      ConsumedStays(prepared, calls, j + 1, i);
    }
  }

  /** Calls that were refused: unconfirmed, locked out, or stale. */
  predicate Refused(outcome: Outcome) {
    outcome.Raised? && outcome.code != Execution
  }

  predicate RefusedAt(prepared: Prepared, calls: seq<Call>, k: nat)
    requires k < |calls|
  {
    calls[k].Execute? && Refused(EffectAt(prepared, calls, k).outcome)
  }

  lemma RefusalKeepsState(prepared: Prepared, s: State, a: Attempt)
    requires Refused(CallEffect(prepared, s, Execute(a)).outcome)
    ensures CallEffect(prepared, s, Execute(a)).state == s
  {
  }

  lemma {:induction false} RefusalsKeepState(prepared: Prepared, calls: seq<Call>, i: nat)
    requires i <= |calls|
    requires forall k {:trigger RefusedAt(prepared, calls, k)} :: 0 <= k < i ==> RefusedAt(prepared, calls, k)
    ensures StateAt(prepared, calls, i) == FRESH
  {
    if i > 0 {
      RefusalsKeepState(prepared, calls, i - 1);
      assert RefusedAt(prepared, calls, i - 1);
      RefusalKeepsState(prepared, FRESH, calls[i - 1].attempt);
    }
  }

  /** After any number of refusals the session still runs as if it were the first attempt. */
  lemma RefusedSessionRetryable(prepared: Prepared, calls: seq<Call>, a: Attempt)
    requires forall k {:trigger RefusedAt(prepared, calls, k)} :: 0 <= k < |calls| ==> RefusedAt(prepared, calls, k)
    requires a.sameApplication && (prepared.confirmationRequired ==> a.confirmed) && !a.cancelled
    requires a.lock == Acquired && a.current == Some(prepared.fingerprint) && a.writerOpens
    ensures Opens(CallEffect(prepared, StateAt(prepared, calls, |calls|), Execute(a)))
  {
    RefusalsKeepState(prepared, calls, |calls|);
    CallEvents(prepared, FRESH, Execute(a));
  }

  /** After `close` a session never writes, even if the cleanup raised and left it marked open. */
  lemma ClosedNeverWrites(prepared: Prepared, calls: seq<Call>, i: nat, j: nat)
    requires i < j < |calls| && calls[i].Close?
    ensures !Opens(EffectAt(prepared, calls, j))
  {
    ContextStaysGone(prepared, calls, i + 1, j);
    CallEvents(prepared, StateAt(prepared, calls, j), calls[j]);
  }

  /**
    A cleanup that raises leaves the session unmarked: the next call is refused as stale, after a
    clean one as closed.
   */
  lemma RaisingCleanupLeavesUnmarked(prepared: Prepared, a: Attempt)
    requires a.sameApplication && (prepared.confirmationRequired ==> a.confirmed) && !a.cancelled && a.lock == Acquired
    ensures var calls := [Close(true), Execute(a)];
            && EffectAt(prepared, calls, 0).outcome == CleanupRaised
               && StateAt(prepared, calls, 1) == State(false, false, false)
            && EffectAt(prepared, calls, 1).outcome == Raised(StalePreflight)
    ensures var calls := [Close(false), Execute(a)];
            && EffectAt(prepared, calls, 0).outcome == Closed
               && StateAt(prepared, calls, 1) == State(false, true, false)
            && EffectAt(prepared, calls, 1).outcome == Raised(Execution)
  {
    assert StateAt(prepared, [Close(true), Execute(a)], 0) == FRESH;
    assert StateAt(prepared, [Close(false), Execute(a)], 0) == FRESH;
  }

  lemma {:induction false} ContextStaysGone(prepared: Prepared, calls: seq<Call>, i: nat, j: nat)
    requires i <= j <= |calls| && !StateAt(prepared, calls, i).hasContext
    ensures !StateAt(prepared, calls, j).hasContext
    decreases j
  {
    if i < j { ContextStaysGone(prepared, calls, i, j - 1); }
  }

  /** Any sequence of `execute`/`close` calls on one session, driven through the objects. */
  method Drive(host: Host, prepared: Prepared, calls: seq<Call>) returns (run: PreparedRun)
    requires !host.lockHeld && host.openWriters == 0 && host.events == []
    modifies host
    ensures fresh(run) && run.Current() == StateAt(prepared, calls, |calls|)
    ensures host.events == After(prepared, calls, |calls|).events
    ensures !host.lockHeld && host.openWriters == 0
  {
    run := new PreparedRun(prepared);
    for i := 0 to |calls|
      invariant fresh(run) && run.prepared == prepared && run.Current() == StateAt(prepared, calls, i)
      invariant host.events == After(prepared, calls, i).events
      invariant !host.lockHeld && host.openWriters == 0
    {
      match calls[i] {
        case Execute(a) => var outcome := run.ExecuteRun(host, a);
        case Close(raises) => var outcome := run.CloseSession(raises);
      }
    }
  }

  /** A call's events come right after those of the calls before it, and stay there. */
  lemma {:induction false} EventsInOrder(prepared: Prepared, calls: seq<Call>, i: nat, j: nat)
    requires i < j <= |calls|
    ensures var before, own := After(prepared, calls, i).events, EffectAt(prepared, calls, i).events;
            var seen := After(prepared, calls, j).events;
            && before + own <= seen
            && (j == i + 1 ==> seen == before + own)
    decreases j
  {
    if i + 1 < j { EventsInOrder(prepared, calls, i, j - 1); }
  }

  /** Every writer the host saw opened was opened by a call, ... */
  lemma {:induction false} OpenerOf(prepared: Prepared, calls: seq<Call>, i: nat) returns (k: nat)
    requires i <= |calls| && Opens(After(prepared, calls, i))
    ensures k < i && Opens(EffectAt(prepared, calls, k))
  {
    assert i > 0;
    EventsInOrder(prepared, calls, i - 1, i);
    k := i - 1;
    if !Opens(EffectAt(prepared, calls, i - 1)) { k := OpenerOf(prepared, calls, i - 1); }
  }

  /** ... and what a call does is never lost. */
  lemma CallSeen(prepared: Prepared, calls: seq<Call>, k: nat, i: nat)
    requires k < i <= |calls|
    ensures forall event :: event in EffectAt(prepared, calls, k).events ==> event in After(prepared, calls, i).events
  {
    EventsInOrder(prepared, calls, k, i);
  }

  lemma CallCounts(prepared: Prepared, s: State, call: Call)
    ensures var e := CallEffect(prepared, s, call);
            var n := multiset(e.events);
            && n[WriterOpened] + (if s.consumed then 1 else 0) <= (if e.state.consumed then 1 else 0)
            && n[WriterClosed(true)] + n[WriterClosed(false)] == n[WriterOpened]
            && n[LockTaken] == n[LockFreed]
  {
    CallEvents(prepared, s, call);
    var e := CallEffect(prepared, s, call);
    if Opens(e) {
      var success := call.attempt.audit == Finished;
      assert e.events == [LockTaken, WriterOpened, WriterClosed(success), LockFreed];
      assert multiset(e.events) == multiset{LockTaken, WriterOpened, WriterClosed(success), LockFreed};
    } else if e.events != [] {
      assert e.events == [LockTaken, LockFreed];
      assert multiset(e.events) == multiset{LockTaken, LockFreed};
    }
  }

  ghost predicate Balanced(e: Effect) {
    var n := multiset(e.events);
    && n[WriterOpened] <= (if e.state.consumed then 1 else 0)
    && n[WriterClosed(true)] + n[WriterClosed(false)] == n[WriterOpened]
    && n[LockTaken] == n[LockFreed]
  }

  lemma NothingIsBalanced()
    ensures Balanced(Effect(FRESH, Closed, []))
  {
  }

  lemma BalancedThen(prepared: Prepared, before: Effect, call: Call)
    requires Balanced(before)
    ensures Balanced(Then(prepared, before, call))
  {
    CallCounts(prepared, before.state, call);
    var e := CallEffect(prepared, before.state, call);
    assert multiset(before.events + e.events) == multiset(before.events) + multiset(e.events);
  }

  /** Over the whole sequence: one writer at most, as many closes as opens, as many releases as locks. */
  lemma {:induction false} EventsBalanced(prepared: Prepared, calls: seq<Call>, i: nat)
    requires i <= |calls|
    ensures Balanced(After(prepared, calls, i))
  {
    if i == 0 {
      NothingIsBalanced();
    } else {
      EventsBalanced(prepared, calls, i - 1);
      BalancedThen(prepared, After(prepared, calls, i - 1), calls[i - 1]);
    }
  }
}
