/** Risk labels, from memory or from the exported table: `ssat/report/labels.py`, `ssat/report/exporter.py`. */
module Labels {
  import opened Prelude
  import opened Ordering
  import opened Sums
  import opened Grouping
  import opened Cells

  /** The fields of a sample the labels read. */
  datatype LabelSample = LabelSample(sample: string, gtLabel: Option<int>, cleanCorrect: Option<bool>)

  datatype SampleGroup = SampleGroup(sample: string, group: string)

  /** `(sample_id, semantic_group) -> degradation`. */
  type Semantic = map<SampleGroup, real>

  type Degradations = map<string, real>

  /** What the labels are built from: the report in memory, or its reconstruction. */
  datatype Assembled = Assembled(samples: seq<LabelSample>, semantic: Semantic)

  // ------------------------------------------------------------ grouping

  /** `by_sample.get(sample, {})`. */
  function GroupsIn(bySample: map<string, Degradations>, sample: string): Degradations {
    if sample in bySample then bySample[sample] else map[]
  }

  /** One sample's share of the mapping. */
  function PerSample(semantic: Semantic, sample: string): Degradations {
    map key | key in semantic && key.sample == sample :: key.group := semantic[key]
  }

  ghost predicate Grouped(bySample: map<string, Degradations>, semantic: Semantic) {
    forall s {:trigger GroupsIn(bySample, s)} :: GroupsIn(bySample, s) == PerSample(semantic, s)
  }

  lemma PerSampleUpdate(semantic: Semantic, key: SampleGroup, value: real, s: string)
    ensures PerSample(semantic[key := value], s)
            == if s == key.sample then PerSample(semantic, s)[key.group := value] else PerSample(semantic, s)
  {
    var updated := semantic[key := value];
    var left := PerSample(updated, s);
    var right := if s == key.sample then PerSample(semantic, s)[key.group := value] else PerSample(semantic, s);
    forall g ensures g in left <==> g in right {
      var k := SampleGroup(s, g);
      assert g in left <==> k in updated;
      assert g in PerSample(semantic, s) <==> k in semantic;
    }
    forall g | g in left ensures left[g] == right[g] {
      var k := SampleGroup(s, g);
      assert left[g] == updated[k];
    }
  }

  /** `grouped[sample_id][semantic_group] = value` over the whole mapping, in any order. */
  method GroupBySample(semantic: Semantic) returns (bySample: map<string, Degradations>)
    ensures Grouped(bySample, semantic)
  {
    bySample := map[];
    var todo := semantic.Keys;
    ghost var done: Semantic := map[];
    while todo != {}
      invariant todo <= semantic.Keys && done.Keys == semantic.Keys - todo
      invariant forall k :: k in done ==> done[k] == semantic[k]
      invariant Grouped(bySample, done)
      decreases |todo|
    {
      var key :| key in todo;
      bySample := AddEntry(bySample, key, semantic[key], done);
      done := done[key := semantic[key]];
      todo := todo - {key};
    }
    assert done == semantic;
  }

  lemma GroupsUpdate(bySample: map<string, Degradations>, sample: string, groups: Degradations, s: string)
    ensures GroupsIn(bySample[sample := groups], s) == if s == sample then groups else GroupsIn(bySample, s)
  {
  }

  method AddEntry(bySample: map<string, Degradations>, key: SampleGroup, value: real, ghost done: Semantic)
    returns (result: map<string, Degradations>)
    requires Grouped(bySample, done)
    ensures Grouped(result, done[key := value])
  {
    var groups := GroupsIn(bySample, key.sample)[key.group := value];
    result := bySample[key.sample := groups];
    forall s ensures GroupsIn(result, s) == PerSample(done[key := value], s) {
      PerSampleUpdate(done, key, value, s);
      assert GroupsIn(bySample, s) == PerSample(done, s);
      GroupsUpdate(bySample, key.sample, groups, s);
    }
  }

  // -------------------------------------------------------------- label rows

  datatype LabelRow = LabelRow(sample: string, gtLabel: Option<int>, group: string, degradation: real,
                               risk: Option<bool>)

  datatype Choice = Choice(onlyCleanCorrect: bool, isBinary: bool)

  function LabelOf(card: LabelSample, groups: Degradations, isBinary: bool): string -> LabelRow {
    group =>
      var degradation := if group in groups then groups[group] else 0.0;
      LabelRow(card.sample, card.gtLabel, group, degradation, if isBinary then Some(degradation > 0.0) else None)
  }

  /** The group names in order. */
  ghost function NamesOf(groups: Degradations): (names: seq<string>)
    ensures forall g :: g in names <==> g in groups
  {
    StrLeIsTotalOrder();
    Listed(groups.Keys, StrLe)
  }

  method SortedNames(groups: Degradations) returns (names: seq<string>)
    ensures names == NamesOf(groups)
  {
    StrLeIsTotalOrder();
    names := SortedSet(groups.Keys, StrLe);
  }

  /** The rows of one sample, by group name. */
  ghost function CardLabels(card: LabelSample, groups: Degradations, choice: Choice): seq<LabelRow> {
    if choice.onlyCleanCorrect && card.cleanCorrect != Some(true) then []
    else MapSeq(NamesOf(groups), LabelOf(card, groups, choice.isBinary))
  }

  ghost function LabelRows(samples: seq<LabelSample>, semantic: Semantic, choice: Choice): seq<LabelRow> {
    if samples == [] then []
    else
      var n := |samples| - 1;
      LabelRows(samples[..n], semantic, choice) + CardLabels(samples[n], PerSample(semantic, samples[n].sample), choice)
  }

  datatype Manifest = Manifest(isBinary: bool, nLabels: int, nPositive: int, nNegative: int, positiveRate: Option<real>)

  /** The manifest constructor's checks. */
  predicate ManifestAccepted(m: Manifest) {
    && m.nLabels >= 0 && m.nPositive >= 0 && m.nNegative >= 0
    && m.nPositive + m.nNegative <= m.nLabels
    && (!m.isBinary ==> m.nPositive == 0 && m.nNegative == 0 && m.positiveRate == None)
  }

  function CountRisk(rows: seq<LabelRow>, risk: bool): nat {
    if rows == [] then 0 else (if rows[0].risk == Some(risk) then 1 else 0) + CountRisk(rows[1..], risk)
  }

  function ManifestOf(rows: seq<LabelRow>, isBinary: bool): Manifest {
    var positive := if isBinary then CountRisk(rows, true) else 0;
    Manifest(isBinary, |rows|, positive, if isBinary then CountRisk(rows, false) else 0,
             if isBinary && rows != [] then Some((positive as real) / (|rows| as real)) else None)
  }

  method LabelsOfCard(card: LabelSample, groups: Degradations, choice: Choice) returns (rows: seq<LabelRow>)
    ensures rows == CardLabels(card, groups, choice)
  {
    if choice.onlyCleanCorrect && card.cleanCorrect != Some(true) { return []; }
    var order := SortedNames(groups);
    rows := LabelsInOrder(card, groups, choice.isBinary, order);
  }

  method LabelsInOrder(card: LabelSample, groups: Degradations, isBinary: bool, order: seq<string>)
    returns (rows: seq<LabelRow>)
    requires forall g :: g in order ==> g in groups
    ensures rows == MapSeq(order, LabelOf(card, groups, isBinary))
  {
    var rowOf := LabelOf(card, groups, isBinary);
    rows := [];
    for i := 0 to |order|
      invariant |rows| == i && forall j :: 0 <= j < i ==> rows[j] == rowOf(order[j])
    {
      var group := order[i];
      var degradation := groups[group];
      var risk := if isBinary then Some(degradation > 0.0) else None;
      var row := LabelRow(card.sample, card.gtLabel, group, degradation, risk);
      assert row == rowOf(group);
      rows := rows + [row];
    }
  }

  /** `export_risk_labels`, up to the file writes. */
  method ExportRiskLabels(assembled: Assembled, choice: Choice) returns (rows: seq<LabelRow>, manifest: Manifest)
    ensures rows == LabelRows(assembled.samples, assembled.semantic, choice)
    ensures manifest == ManifestOf(rows, choice.isBinary) && ManifestAccepted(manifest)
    ensures choice.isBinary ==> manifest.nPositive + manifest.nNegative == manifest.nLabels
  {
    var bySample := GroupBySample(assembled.semantic);
    var samples := assembled.samples;
    rows := [];
    for i := 0 to |samples|
      invariant rows == LabelRows(samples[..i], assembled.semantic, choice)
    {
      var labels := LabelsOfCard(samples[i], GroupsIn(bySample, samples[i].sample), choice);
      assert samples[..i + 1][..i] == samples[..i];
      rows := rows + labels;
    }
    assert samples[..|samples|] == samples;
    manifest := ManifestOf(rows, choice.isBinary);
    RiskKeyPresent(samples, assembled.semantic, choice);
    ManifestCounts(rows, choice.isBinary);
  }

  predicate RiskKey(row: LabelRow, isBinary: bool) { row.risk.Some? == isBinary }

  lemma CardRiskKey(card: LabelSample, groups: Degradations, choice: Choice)
    ensures forall row :: row in CardLabels(card, groups, choice) ==> RiskKey(row, choice.isBinary)
  {
    var labels := CardLabels(card, groups, choice);
    forall row | row in labels ensures RiskKey(row, choice.isBinary) {
      var j :| 0 <= j < |labels| && labels[j] == row;
    }
  }

  lemma {:induction false} RiskKeyPresent(samples: seq<LabelSample>, semantic: Semantic, choice: Choice)
    ensures forall row :: row in LabelRows(samples, semantic, choice) ==> RiskKey(row, choice.isBinary)
  {
    if samples != [] {
      var n := |samples| - 1;
      RiskKeyPresent(samples[..n], semantic, choice);
      var groups := PerSample(semantic, samples[n].sample);
      CardRiskKey(samples[n], groups, choice);
      var front, last := LabelRows(samples[..n], semantic, choice), CardLabels(samples[n], groups, choice);
      assert LabelRows(samples, semantic, choice) == front + last;
      forall row | row in front + last ensures RiskKey(row, choice.isBinary) {
        assert row in front || row in last;
      }
    }
  }

  lemma {:induction false} CountsAddUp(rows: seq<LabelRow>)
    requires forall row :: row in rows ==> RiskKey(row, true)
    ensures CountRisk(rows, true) + CountRisk(rows, false) == |rows|
  {
    if rows != [] {
      assert rows[0] in rows && RiskKey(rows[0], true);
      forall row | row in rows[1..] ensures row in rows { assert rows == [rows[0]] + rows[1..]; }
      CountsAddUp(rows[1..]);
      var risk := rows[0].risk;
      assert risk == Some(risk.value);
      if risk.value { assert risk == Some(true); } else { assert risk == Some(false); }
    }
  }

  /** The manifest constructor never raises; with a binary metric the two counts add up to all rows. */
  lemma ManifestCounts(rows: seq<LabelRow>, isBinary: bool)
    requires forall row :: row in rows ==> RiskKey(row, isBinary)
    ensures var m := ManifestOf(rows, isBinary);
            ManifestAccepted(m) && (isBinary ==> m.nPositive + m.nNegative == m.nLabels)
  {
    if isBinary { CountsAddUp(rows); }
  }

  // ------------------------------------------------------------ what is exported

  /** A row for an entry of the mapping: of a listed sample, correct on clean input when that is asked. */
  ghost predicate LabelsEntry(row: LabelRow, card: LabelSample, semantic: Semantic, choice: Choice) {
    var key := SampleGroup(card.sample, row.group);
    && row.sample == card.sample && row.gtLabel == card.gtLabel
    && (choice.onlyCleanCorrect ==> card.cleanCorrect == Some(true))
    && key in semantic && row.degradation == semantic[key]
    && (if choice.isBinary then row.risk.Some? && (row.risk.value <==> row.degradation > 0.0) else row.risk.None?)
  }

  lemma LabelOfEntry(card: LabelSample, semantic: Semantic, choice: Choice, group: string)
    requires choice.onlyCleanCorrect ==> card.cleanCorrect == Some(true)
    requires group in PerSample(semantic, card.sample)
    ensures LabelsEntry(LabelOf(card, PerSample(semantic, card.sample), choice.isBinary)(group), card, semantic, choice)
  {
    PerSampleLookup(semantic, SampleGroup(card.sample, group));
  }

  lemma EntryIsLabel(row: LabelRow, card: LabelSample, semantic: Semantic, choice: Choice)
    requires LabelsEntry(row, card, semantic, choice)
    ensures row.group in PerSample(semantic, card.sample)
    ensures row == LabelOf(card, PerSample(semantic, card.sample), choice.isBinary)(row.group)
  {
    PerSampleLookup(semantic, SampleGroup(card.sample, row.group));
    if choice.isBinary { assert row.risk == Some(row.risk.value); }
  }

  /** One sample's rows are its entries, by group name. */
  lemma InCardLabels(card: LabelSample, groups: Degradations, choice: Choice, row: LabelRow)
    ensures row in CardLabels(card, groups, choice)
            <==> (choice.onlyCleanCorrect ==> card.cleanCorrect == Some(true))
                 && exists group :: group in groups && row == LabelOf(card, groups, choice.isBinary)(group)
  {
    var labels, names := MapSeq(NamesOf(groups), LabelOf(card, groups, choice.isBinary)), NamesOf(groups);
    if row in labels {
      var i :| 0 <= i < |labels| && labels[i] == row;
      assert names[i] in names;
    }
    forall group | group in groups ensures LabelOf(card, groups, choice.isBinary)(group) in labels {
      assert group in names;
      var i :| 0 <= i < |names| && names[i] == group;
      assert labels[i] == LabelOf(card, groups, choice.isBinary)(group);
    }
  }

  lemma CardLabelsMeaning(card: LabelSample, semantic: Semantic, choice: Choice, row: LabelRow)
    ensures row in CardLabels(card, PerSample(semantic, card.sample), choice)
            <==> LabelsEntry(row, card, semantic, choice)
  {
    var groups := PerSample(semantic, card.sample);
    InCardLabels(card, groups, choice, row);
    if row in CardLabels(card, groups, choice) {
      var group :| group in groups && row == LabelOf(card, groups, choice.isBinary)(group);
      LabelOfEntry(card, semantic, choice, group);
    }
    if LabelsEntry(row, card, semantic, choice) { EntryIsLabel(row, card, semantic, choice); }
  }

  lemma CardLabelsOrdered(card: LabelSample, semantic: Semantic, choice: Choice)
    ensures var labels := CardLabels(card, PerSample(semantic, card.sample), choice);
            forall i, j :: 0 <= i < j < |labels| ==> StrLt(labels[i].group, labels[j].group)
  {
    NamesOrdered(PerSample(semantic, card.sample));
  }

  lemma NamesOrdered(groups: Degradations)
    ensures var names := NamesOf(groups); forall i, j :: 0 <= i < j < |names| ==> StrLt(names[i], names[j])
  {
    StrLeIsTotalOrder();
    assert IsSortedSet(NamesOf(groups), groups.Keys, StrLe);
  }

  /** Exactly the entries of the listed samples are exported. */
  lemma {:induction false} LabelRowsMeaning(samples: seq<LabelSample>, semantic: Semantic, choice: Choice,
                                            row: LabelRow)
    ensures row in LabelRows(samples, semantic, choice)
            <==> exists card :: card in samples && LabelsEntry(row, card, semantic, choice)
  {
    if samples != [] {
      var n := |samples| - 1;
      LabelRowsMeaning(samples[..n], semantic, choice, row);
      CardLabelsMeaning(samples[n], semantic, choice, row);
      assert samples == samples[..n] + [samples[n]];
    }
  }

  /** Sample after sample: in their order, each with its rows in name order (`CardLabelsOrdered`). */
  lemma LabelRowsLast(samples: seq<LabelSample>, front: seq<LabelSample>, card: LabelSample, semantic: Semantic,
                      choice: Choice)
    requires samples == front + [card]
    ensures LabelRows(samples, semantic, choice)
            == LabelRows(front, semantic, choice) + CardLabels(card, PerSample(semantic, card.sample), choice)
  {
    assert samples[..|samples| - 1] == front;
  }

  predicate IsPositive(row: LabelRow) { row.degradation > 0.0 }

  predicate IsNotPositive(row: LabelRow) { row.degradation <= 0.0 }

  lemma {:induction false} RiskCounts(rows: seq<LabelRow>)
    requires forall i :: 0 <= i < |rows| ==> rows[i].risk == Some(rows[i].degradation > 0.0)
    ensures CountRisk(rows, true) == |Filter(rows, IsPositive)|
    ensures CountRisk(rows, false) == |Filter(rows, IsNotPositive)|
  {
    if rows != [] {
      assert rows[0].risk == Some(rows[0].degradation > 0.0);
      RiskCounts(rows[1..]);
    }
  }

  ghost predicate CountsRows(m: Manifest, rows: seq<LabelRow>, isBinary: bool) {
    && m.isBinary == isBinary && m.nLabels == |rows|
    && m.nPositive == (if isBinary then |Filter(rows, IsPositive)| else 0)
    && m.nNegative == (if isBinary then |Filter(rows, IsNotPositive)| else 0)
    && (m.positiveRate.Some? <==> isBinary && rows != [])
    && (m.positiveRate.Some? ==> Repeat(m.positiveRate.value, |rows|) == m.nPositive as real)
  }

  lemma ManifestCountsRows(rows: seq<LabelRow>, isBinary: bool)
    requires isBinary ==> forall i :: 0 <= i < |rows| ==> rows[i].risk == Some(rows[i].degradation > 0.0)
    ensures CountsRows(ManifestOf(rows, isBinary), rows, isBinary)
  {
    if isBinary {
      RiskCounts(rows);
      if rows != [] { RepeatIsProduct(ManifestOf(rows, isBinary).positiveRate.value, |rows|); }
    }
  }

  /**
    The manifest counts the rows and, for a binary metric, those with a positive value, those
    without, and their rate.
   */
  lemma ManifestMeaning(samples: seq<LabelSample>, semantic: Semantic, choice: Choice)
    ensures var rows := LabelRows(samples, semantic, choice);
            CountsRows(ManifestOf(rows, choice.isBinary), rows, choice.isBinary)
  {
    var rows := LabelRows(samples, semantic, choice);
    forall i | 0 <= i < |rows| && choice.isBinary ensures rows[i].risk == Some(rows[i].degradation > 0.0) {
      assert rows[i] in rows;
      LabelRowsMeaning(samples, semantic, choice, rows[i]);
    }
    ManifestCountsRows(rows, choice.isBinary);
  }

  // ---------------------------------------------------------------- the table

  /** One member of a JSON object. */
  datatype Member = Member(name: string, value: real)

  /** A line of `sample_rankings.csv`, as text cells; the JSON cell holds its members in written order. */
  datatype Record = Record(sampleId: string, gtLabel: string, cleanCorrect: string, semantic: seq<Member>)

  function MemberOf(groups: Degradations): string -> Member {
    name => Member(name, if name in groups then groups[name] else 0.0)
  }

  /** `json.dumps(groups, sort_keys=True)`. */
  ghost function Members(groups: Degradations): seq<Member> {
    MapSeq(NamesOf(groups), MemberOf(groups))
  }

  ghost function RecordOf(card: LabelSample, semantic: Semantic): Record {
    Record(card.sample, IntCell(card.gtLabel), BoolCell(card.cleanCorrect), Members(PerSample(semantic, card.sample)))
  }

  method DumpMembers(groups: Degradations) returns (members: seq<Member>)
    ensures members == Members(groups)
  {
    var names := SortedNames(groups);
    members := [];
    for i := 0 to |names|
      invariant |members| == i && forall j :: 0 <= j < i ==> members[j] == MemberOf(groups)(names[j])
    {
      assert names[i] in groups;
      members := members + [Member(names[i], groups[names[i]])];
    }
  }

  /** The sample table of `export`. */
  method ExportSampleRankings(assembled: Assembled) returns (records: seq<Record>)
    ensures |records| == |assembled.samples|
    ensures forall i :: 0 <= i < |records| ==> records[i] == RecordOf(assembled.samples[i], assembled.semantic)
  {
    var bySample := GroupBySample(assembled.semantic);
    records := [];
    for i := 0 to |assembled.samples|
      invariant |records| == i
      invariant forall j :: 0 <= j < i ==> records[j] == RecordOf(assembled.samples[j], assembled.semantic)
    {
      var card := assembled.samples[i];
      var members := DumpMembers(GroupsIn(bySample, card.sample));
      records := records + [Record(card.sample, IntCell(card.gtLabel), BoolCell(card.cleanCorrect), members)];
    }
  }

  // --------------------------------------------------------------- reading back

  function AddMembers(semantic: Semantic, sample: string, members: seq<Member>): Semantic {
    if members == [] then semantic
    else
      var n := |members| - 1;
      AddMembers(semantic, sample, members[..n])[SampleGroup(sample, members[n].name) := members[n].value]
  }

  function ParseSample(record: Record): Result<LabelSample, CellError> {
    match ParseOptionalInt(record.gtLabel)
    case Err(e) => Err(e)
    case Ok(gt) =>
      match ParseOptionalBool(record.cleanCorrect)
      case Err(e) => Err(e)
      case Ok(clean) => Ok(LabelSample(record.sampleId, gt, clean))
  }

  /** The table read so far, or the first malformed cell. */
  function ReadRecords(records: seq<Record>): Result<Assembled, CellError> {
    if records == [] then Ok(Assembled([], map[]))
    else
      var n := |records| - 1;
      match ReadRecords(records[..n])
      case Err(e) => Err(e)
      case Ok(table) =>
        match ParseSample(records[n])
        case Err(e) => Err(e)
        case Ok(sample) =>
          Ok(Assembled(table.samples + [sample], AddMembers(table.semantic, sample.sample, records[n].semantic)))
  }

  lemma {:induction false} ErrorsStay(records: seq<Record>, i: nat)
    requires i <= |records| && ReadRecords(records[..i]).Err?
    ensures ReadRecords(records) == ReadRecords(records[..i])
  {
    var n := |records| - 1;
    if i == |records| {
      assert records[..i] == records;
    } else {
      assert records[..n][..i] == records[..i];
      ErrorsStay(records[..n], i);
    }
  }

  /** Reading fails exactly when some line has a malformed label or correctness cell. */
  lemma {:induction false} ReadingFailsIff(records: seq<Record>)
    ensures ReadRecords(records).Ok?
            <==> forall i :: 0 <= i < |records| ==>
                 ParseOptionalInt(records[i].gtLabel).Ok? && ParseOptionalBool(records[i].cleanCorrect).Ok?
  {
    if records != [] {
      var n := |records| - 1;
      ReadingFailsIff(records[..n]);
      assert forall i :: 0 <= i < n ==> records[..n][i] == records[i];
    }
  }

  method LoadMembers(semantic: Semantic, sample: string, members: seq<Member>) returns (result: Semantic)
    ensures result == AddMembers(semantic, sample, members)
  {
    result := semantic;
    for i := 0 to |members|
      invariant result == AddMembers(semantic, sample, members[..i])
    {
      assert members[..i + 1][..i] == members[..i];
      result := result[SampleGroup(sample, members[i].name) := members[i].value];
    }
    assert members[..|members|] == members;
  }

  /** `_read_sample_rankings_csv`. */
  method ReadSampleRankings(records: seq<Record>) returns (result: Result<Assembled, CellError>)
    ensures result == ReadRecords(records)
  {
    var table := Assembled([], map[]);
    for i := 0 to |records|
      invariant ReadRecords(records[..i]) == Ok(table)
    {
      assert records[..i + 1][..i] == records[..i];
      match ParseSample(records[i]) {
        case Err(e) =>
          ErrorsStay(records, i + 1);
          return Err(e);
        case Ok(sample) =>
          var semantic := LoadMembers(table.semantic, sample.sample, records[i].semantic);
          table := Assembled(table.samples + [sample], semantic);
      }
    }
    assert records[..|records|] == records;
    result := Ok(table);
  }

  // ---------------------------------------------------------------- round trip

  predicate HasSample(samples: seq<LabelSample>, s: string) {
    exists i :: 0 <= i < |samples| && samples[i].sample == s
  }

  /** What the table keeps of the mapping: the entries of samples it lists. */
  function OfSamples(semantic: Semantic, samples: seq<LabelSample>): Semantic {
    map key | key in semantic && HasSample(samples, key.sample) :: semantic[key]
  }

  ghost predicate Writes(records: seq<Record>, assembled: Assembled) {
    && |records| == |assembled.samples|
    && forall i :: 0 <= i < |records| ==> records[i] == RecordOf(assembled.samples[i], assembled.semantic)
  }

  function Lookup(semantic: Semantic, key: SampleGroup): Option<real> {
    if key in semantic then Some(semantic[key]) else None
  }

  lemma SameLookups(a: Semantic, b: Semantic)
    requires forall key :: Lookup(a, key) == Lookup(b, key)
    ensures a == b
  {
    forall key ensures key in a <==> key in b { assert Lookup(a, key) == Lookup(b, key); }
    forall key | key in a ensures a[key] == b[key] { assert Lookup(a, key) == Lookup(b, key); }
  }

  lemma PerSampleLookup(semantic: Semantic, key: SampleGroup)
    ensures var groups := PerSample(semantic, key.sample);
            Lookup(semantic, key) == if key.group in groups then Some(groups[key.group]) else None
  {
    var groups := PerSample(semantic, key.sample);
    if key.group in groups {
      var k :| k in semantic && k.sample == key.sample && k.group == key.group;
      assert k == key;
    }
    if key in semantic {
      assert key.group in groups;
      assert groups[key.group] == semantic[key];
    }
  }

  lemma OfSamplesLookup(semantic: Semantic, samples: seq<LabelSample>, key: SampleGroup)
    ensures Lookup(OfSamples(semantic, samples), key) == if HasSample(samples, key.sample) then Lookup(semantic, key)
            else None
  {
  }

  ghost predicate AddsAt(result: Semantic, semantic: Semantic, sample: string, members: seq<Member>,
                         groups: Degradations, key: SampleGroup)
  {
    Lookup(result, key) == if key.sample == sample && Names(members, key.group)
      && key.group in groups then Some(groups[key.group])
                           else Lookup(semantic, key)
  }

  ghost predicate Adds(result: Semantic, semantic: Semantic, sample: string, members: seq<Member>, groups: Degradations)
  {
    forall key :: AddsAt(result, semantic, sample, members, groups, key)
  }

  /** Adding members sets exactly the named entries of the sample. */
  lemma {:induction false} AddMembersMeaning(semantic: Semantic, sample: string, members: seq<Member>,
                                             groups: Degradations)
    requires forall i :: 0 <= i < |members| ==> members[i].name in groups && members[i].value == groups[members[i].name]
    ensures Adds(AddMembers(semantic, sample, members), semantic, sample, members, groups)
  {
    if members != [] {
      var n := |members| - 1;
      var before, result := AddMembers(semantic, sample, members[..n]), AddMembers(semantic, sample, members);
      AddMembersMeaning(semantic, sample, members[..n], groups);
      forall key ensures AddsAt(result, semantic, sample, members, groups, key) {
        OneMoreName(members, key.group);
        assert AddsAt(before, semantic, sample, members[..n], groups, key);
        assert key == SampleGroup(key.sample, key.group);
        AddOneMember(before, SampleGroup(sample, members[n].name), members[n].value, key);
      }
    }
  }

  lemma AddOneMember(semantic: Semantic, k: SampleGroup, value: real, key: SampleGroup)
    ensures Lookup(semantic[k := value], key) == if key == k then Some(value) else Lookup(semantic, key)
  {
  }

  lemma OneMoreName(members: seq<Member>, g: string)
    requires members != []
    ensures var n := |members| - 1;
            Names(members, g) <==> Names(members[..n], g) || g == members[n].name
  {
    var n := |members| - 1;
    if Names(members, g) && g != members[n].name {
      var i :| 0 <= i < |members| && members[i].name == g;
      assert members[..n][i].name == g;
    }
    if Names(members[..n], g) {
      var i :| 0 <= i < n && members[..n][i].name == g;
      assert members[i].name == g;
    }
  }

  predicate Names(members: seq<Member>, g: string) {
    exists i :: 0 <= i < |members| && members[i].name == g
  }

  lemma MembersMeaning(groups: Degradations)
    ensures var members := Members(groups);
            && (forall i :: 0 <= i < |members| ==>
                members[i].name in groups && members[i].value == groups[members[i].name])
            && (forall g :: Names(members, g) <==> g in groups)
  {
    var names, members := NamesOf(groups), Members(groups);
    forall i | 0 <= i < |members| ensures members[i].name in groups && members[i].value == groups[members[i].name] {
      assert names[i] in names;
    }
    forall g ensures Names(members, g) <==> g in groups {
      if g in groups {
        assert g in names;
        var i :| 0 <= i < |names| && names[i] == g;
        assert members[i].name == g;
      }
    }
  }

  /** Reading a sample's line adds exactly that sample's entries. */
  lemma AddSample(semantic: Semantic, samples: seq<LabelSample>, card: LabelSample)
    ensures AddMembers(OfSamples(semantic, samples), card.sample, Members(PerSample(semantic, card.sample)))
            == OfSamples(semantic, samples + [card])
  {
    var result := AddMembers(OfSamples(semantic, samples), card.sample, Members(PerSample(semantic, card.sample)));
    var want := OfSamples(semantic, samples + [card]);
    forall key ensures Lookup(result, key) == Lookup(want, key) {
      AddSampleAt(semantic, samples, card, key);
    }
    SameLookups(result, want);
  }

  lemma AddSampleAt(semantic: Semantic, samples: seq<LabelSample>, card: LabelSample, key: SampleGroup)
    ensures var result := AddMembers(OfSamples(semantic, samples), card.sample,
                                     Members(PerSample(semantic, card.sample)));
            Lookup(result, key) == Lookup(OfSamples(semantic, samples + [card]), key)
  {
    var groups := PerSample(semantic, card.sample);
    MembersMeaning(groups);
    AddMembersMeaning(OfSamples(semantic, samples), card.sample, Members(groups), groups);
    assert AddsAt(AddMembers(OfSamples(semantic, samples), card.sample, Members(groups)), OfSamples(semantic, samples),
                  card.sample, Members(groups), groups, key);
    OneMoreSample(samples, card, key.sample);
    OfSamplesLookup(semantic, samples, key);
    OfSamplesLookup(semantic, samples + [card], key);
    if key.sample == card.sample { PerSampleLookup(semantic, key); }
  }

  lemma OneMoreSample(samples: seq<LabelSample>, card: LabelSample, s: string)
    ensures HasSample(samples + [card], s) <==> HasSample(samples, s) || s == card.sample
  {
    var more := samples + [card];
    if HasSample(samples, s) {
      var i :| 0 <= i < |samples| && samples[i].sample == s;
      assert more[i].sample == s;
    }
    assert more[|samples|] == card;
  }

  /** The table reads back as the same samples and every entry that belongs to one of them. */
  lemma {:induction false} TableRoundTrip(records: seq<Record>, assembled: Assembled)
    requires Writes(records, assembled)
    ensures ReadRecords(records) == Ok(Assembled(assembled.samples, OfSamples(assembled.semantic, assembled.samples)))
  {
    var samples := assembled.samples;
    if records == [] {
      assert OfSamples(assembled.semantic, samples) == map[];
    } else {
      var n := |records| - 1;
      var card := samples[n];
      TableRoundTrip(records[..n], Assembled(samples[..n], assembled.semantic));
      IntCellRoundTrip(card.gtLabel);
      BoolCellsExactly(BoolCell(card.cleanCorrect), card.cleanCorrect);
      AddSample(assembled.semantic, samples[..n], card);
      assert samples == samples[..n] + [card];
    }
  }

  lemma {:induction false} LabelsUseListedSamples(samples: seq<LabelSample>, a: Semantic, b: Semantic, choice: Choice)
    requires forall i :: 0 <= i < |samples| ==> PerSample(a, samples[i].sample) == PerSample(b, samples[i].sample)
    ensures LabelRows(samples, a, choice) == LabelRows(samples, b, choice)
  {
    if samples != [] { LabelsUseListedSamples(samples[..|samples| - 1], a, b, choice); }
  }

  lemma KeptEntries(assembled: Assembled, i: nat)
    requires i < |assembled.samples|
    ensures var s := assembled.samples[i].sample;
            PerSample(OfSamples(assembled.semantic, assembled.samples), s) == PerSample(assembled.semantic, s)
  {
    var s := assembled.samples[i].sample;
    var kept := OfSamples(assembled.semantic, assembled.samples);
    assert HasSample(assembled.samples, s);
    forall g ensures g in PerSample(kept, s) <==> g in PerSample(assembled.semantic, s) {
      assert SampleGroup(s, g) in kept <==> SampleGroup(s, g) in assembled.semantic;
      assert g in PerSample(kept, s) <==> SampleGroup(s, g) in kept;
    }
  }

  /** Labels built from the exported table equal labels built from the report in memory, row for row. */
  lemma DiskLabelsEqualMemoryLabels(records: seq<Record>, assembled: Assembled, choice: Choice)
    requires Writes(records, assembled)
    ensures ReadRecords(records).Ok?
    ensures var disk := ReadRecords(records).value;
            LabelRows(disk.samples, disk.semantic, choice) == LabelRows(assembled.samples, assembled.semantic, choice)
  {
    TableRoundTrip(records, assembled);
    var disk := ReadRecords(records).value;
    forall i | 0 <= i < |assembled.samples|
      ensures PerSample(disk.semantic, assembled.samples[i].sample)
              == PerSample(assembled.semantic, assembled.samples[i].sample)
    {
      KeptEntries(assembled, i);
    }
    LabelsUseListedSamples(assembled.samples, disk.semantic, assembled.semantic, choice);
  }

  /** Both entry points, run one after the other, give the same rows and the same manifest. */
  method ExportBothWays(assembled: Assembled, choice: Choice)
    returns (memory: seq<LabelRow>, disk: Result<seq<LabelRow>, CellError>)
    ensures disk == Ok(memory)
  {
    var manifest;
    memory, manifest := ExportRiskLabels(assembled, choice);
    var records := ExportSampleRankings(assembled);
    var table := ReadSampleRankings(records);
    DiskLabelsEqualMemoryLabels(records, assembled, choice);
    var rows;
    rows, manifest := ExportRiskLabels(table.value, choice);
    disk := Ok(rows);
  }
}
