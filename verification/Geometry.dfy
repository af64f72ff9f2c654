/**
  The geometry consistency check both `ssat/analysis/indexer.py` and `ssat/metrics/aggregate.py`
  fold over their rows; `N` are sample and region names, `K` region kinds.
 */
module Geometry {
  import opened Prelude

  type Area = Option<int>

  datatype GeoRow<N, K> = GeoRow(sample: N, region: N, kind: K, intended: Area, effective: Area)

  datatype Areas = Areas(intended: Area, effective: Area)

  predicate Conflict(a: Area, b: Area) { a.Some? && b.Some? && a != b }

  function Merge(a: Area, b: Area): Area { if a.Some? then a else b }

  // ----------------------------------------------------------- what is required

  /** One kind per region; within one sample, no two known areas differ, random regions aside. */
  predicate Agree<N(==), K(==)>(x: GeoRow<N, K>, y: GeoRow<N, K>, random: K) {
    x.region == y.region ==>
      && x.kind == y.kind
      && (x.sample == y.sample && x.kind != random ==>
          !Conflict(x.intended, y.intended) && !Conflict(x.effective, y.effective))
  }

  ghost predicate Compatible<N(!new), K(!new)>(rows: seq<GeoRow<N, K>>, random: K) {
    forall x, y :: x in rows && y in rows ==> Agree(x, y, random)
  }

  ghost predicate KindsRecorded<N(!new), K(!new)>(rows: seq<GeoRow<N, K>>, kinds: map<N, K>) {
    && (forall x :: x in rows ==> x.region in kinds && kinds[x.region] == x.kind)
    && (forall r :: r in kinds ==> HasRegion(rows, r))
  }

  ghost predicate AreaRecorded<N(!new), K>(x: GeoRow<N, K>, areas: map<(N, N), Areas>) {
    && (x.sample, x.region) in areas
    && (x.intended.Some? ==> areas[(x.sample, x.region)].intended == x.intended)
    && (x.effective.Some? ==> areas[(x.sample, x.region)].effective == x.effective)
  }

  ghost predicate AreasComplete<N(!new), K(!new)>(rows: seq<GeoRow<N, K>>, random: K, areas: map<(N, N), Areas>) {
    forall x {:trigger AreaRecorded(x, areas)} :: x in rows && x.kind != random ==> AreaRecorded(x, areas)
  }

  /** The maps hold each region's kind and each non-random (sample, region)'s known areas, nothing else. */
  ghost predicate Describes<N(!new), K(!new)>(rows: seq<GeoRow<N, K>>, random: K, kinds: map<N, K>,
                                              areas: map<(N, N), Areas>)
  {
    && KindsRecorded(rows, kinds) && AreasComplete(rows, random, areas)
    && forall key :: key in areas ==> HasArea(rows, random, key, areas[key])
  }

  ghost predicate HasRegion<N(!new), K(!new)>(rows: seq<GeoRow<N, K>>, region: N) {
    exists x :: x in rows && x.region == region
  }

  /** Every recorded area was reported by some non-random row of that sample and region. */
  ghost predicate HasArea<N(!new), K(!new)>(rows: seq<GeoRow<N, K>>, random: K, key: (N, N), areas: Areas) {
    && (exists x :: x in rows && x.kind != random && (x.sample, x.region) == key)
    && (areas.intended.Some? ==>
        exists x :: x in rows && x.kind != random && (x.sample, x.region) == key && x.intended == areas.intended)
    && (areas.effective.Some? ==>
        exists x :: x in rows && x.kind != random && (x.sample, x.region) == key && x.effective == areas.effective)
  }

  // ------------------------------------------------------------------ one step

  datatype State<N(==), K> = State(kinds: map<N, K>, areas: map<(N, N), Areas>)

  /** `_check_region_geometry`; `None` when it raises. */
  function Step<N(==), K(==)>(s: State<N, K>, row: GeoRow<N, K>, random: K): Option<State<N, K>> {
    var kinds := if row.region in s.kinds then s.kinds else s.kinds[row.region := row.kind];
    var key := (row.sample, row.region);
    if kinds[row.region] != row.kind then None
    else if row.kind == random then Some(State(kinds, s.areas))
    else if key !in s.areas then Some(State(kinds, s.areas[key := Areas(row.intended, row.effective)]))
    else
      var old' := s.areas[key];
      if Conflict(old'.intended, row.intended) || Conflict(old'.effective, row.effective) then None
      else Some(State(kinds, s.areas[key :=
                                     Areas(Merge(old'.intended, row.intended), Merge(old'.effective, row.effective))]))
  }

  ghost predicate Tracks<N(!new), K(!new)>(rows: seq<GeoRow<N, K>>, random: K, s: State<N, K>) {
    Compatible(rows, random) && Describes(rows, random, s.kinds, s.areas)
  }

  /** A step raises exactly when the new row disagrees with an earlier one. */
  lemma StepDecides<N(!new), K(!new)>(rows: seq<GeoRow<N, K>>, random: K, s: State<N, K>, row: GeoRow<N, K>)
    requires Tracks(rows, random, s)
    ensures Step(s, row, random).Some? <==> forall x :: x in rows ==> Agree(x, row, random)
  {
    var key := (row.sample, row.region);
    forall x | x in rows && x.kind != random ensures AreaRecorded(x, s.areas) {}
    if row.region in s.kinds { assert HasRegion(rows, row.region); }
    if row.region in s.kinds && s.kinds[row.region] == row.kind && row.kind != random && key in s.areas {
      assert HasArea(rows, random, key, s.areas[key]);
    }
  }

  lemma StepKinds<N(!new), K(!new)>(rows: seq<GeoRow<N, K>>, random: K, s: State<N, K>, row: GeoRow<N, K>)
    requires Tracks(rows, random, s) && Step(s, row, random).Some?
    ensures KindsRecorded(rows + [row], Step(s, row, random).value.kinds)
  {
    var rows', kinds := rows + [row], Step(s, row, random).value.kinds;
    assert row in rows';
    forall x | x in rows' ensures x.region in kinds && kinds[x.region] == x.kind { assert x in rows || x == row; }
    forall r | r in kinds ensures HasRegion(rows', r) {
      if r in s.kinds {
        assert HasRegion(rows, r);
        var x :| x in rows && x.region == r;
        assert x in rows';
      }
    }
  }

  lemma StepAreas<N(!new), K(!new)>(rows: seq<GeoRow<N, K>>, random: K, s: State<N, K>, row: GeoRow<N, K>)
    requires Tracks(rows, random, s) && Step(s, row, random).Some?
    ensures AreasComplete(rows + [row], random, Step(s, row, random).value.areas)
  {
    StepDecides(rows, random, s, row);
    var rows', areas := rows + [row], Step(s, row, random).value.areas;
    forall x | x in rows' && x.kind != random ensures AreaRecorded(x, areas) {
      assert x in rows || x == row;
      if x in rows { assert AreaRecorded(x, s.areas); }
    }
  }

  lemma StepSources<N(!new), K(!new)>(rows: seq<GeoRow<N, K>>, random: K, s: State<N, K>, row: GeoRow<N, K>)
    requires Tracks(rows, random, s) && Step(s, row, random).Some?
    ensures var areas := Step(s, row, random).value.areas;
            forall key :: key in areas ==> HasArea(rows + [row], random, key, areas[key])
  {
    var rows', areas := rows + [row], Step(s, row, random).value.areas;
    assert row in rows';
    forall key | key in areas ensures HasArea(rows', random, key, areas[key]) {
      if key in s.areas {
        assert HasArea(rows, random, key, s.areas[key]);
        AreaSurvives(rows, random, row, key, s.areas[key]);
      }
    }
  }

  lemma StepTracks<N(!new), K(!new)>(rows: seq<GeoRow<N, K>>, random: K, s: State<N, K>, row: GeoRow<N, K>)
    requires Tracks(rows, random, s) && Step(s, row, random).Some?
    ensures Tracks(rows + [row], random, Step(s, row, random).value)
  {
    StepKinds(rows, random, s, row);
    StepAreas(rows, random, s, row);
    StepSources(rows, random, s, row);
    StepDecides(rows, random, s, row);
    var rows' := rows + [row];
    forall x, y | x in rows' && y in rows' ensures Agree(x, y, random) {
      assert x in rows || x == row;
      assert y in rows || y == row;
    }
  }

  lemma AreaSurvives<N(!new), K(!new)>(rows: seq<GeoRow<N, K>>, random: K, row: GeoRow<N, K>, key: (N, N), areas: Areas)
    requires HasArea(rows, random, key, areas)
    ensures HasArea(rows + [row], random, key, areas)
  {
    forall x | x in rows ensures x in rows + [row] {}
  }

  // ------------------------------------------------------------------ the fold

  class GeometryCheck<N(==, !new), K(==, !new)> {
    const random: K
    var kindByRegion: map<N, K>
    var areaByRegion: map<(N, N), Areas>
    ghost var accepted: seq<GeoRow<N, K>>

    ghost predicate Valid()
      reads this
    {
      Tracks(accepted, random, State(kindByRegion, areaByRegion))
    }

    constructor (random: K)
      ensures Valid() && accepted == [] && this.random == random
    {
      this.random := random;
      kindByRegion, areaByRegion, accepted := map[], map[], [];
    }

    /** Rejects a row exactly when it disagrees with one accepted before. */
    method Check(row: GeoRow<N, K>) returns (ok: bool)
      requires Valid()
      modifies this
      ensures ok <==> forall x :: x in old(accepted) ==> Agree(x, row, random)
      ensures ok ==> Valid() && accepted == old(accepted) + [row]
    {
      ghost var before := State(kindByRegion, areaByRegion);
      StepDecides(accepted, random, before, row);
      if row.region !in kindByRegion { kindByRegion := kindByRegion[row.region := row.kind]; }
      if kindByRegion[row.region] != row.kind { return false; }
      if row.kind != random {
        var key := (row.sample, row.region);
        if key !in areaByRegion {
          areaByRegion := areaByRegion[key := Areas(row.intended, row.effective)];
        } else {
          var existing := areaByRegion[key];
          if Conflict(existing.intended, row.intended) || Conflict(existing.effective, row.effective) { return false; }
          areaByRegion := areaByRegion[key :=
                                       Areas(Merge(existing.intended, row.intended),
                                             Merge(existing.effective, row.effective))];
        }
      }
      StepTracks(accepted, random, before, row);
      assert Step(before, row, random) == Some(State(kindByRegion, areaByRegion));
      accepted := accepted + [row];
      ok := true;
    }
  }

  /** The row loop: accepts exactly the pairwise compatible row sequences. */
  method CheckAll<N(==, !new), K(==, !new)>(rows: seq<GeoRow<N, K>>, random: K)
    returns (ok: bool, kinds: map<N, K>, areas: map<(N, N), Areas>)
    ensures ok <==> Compatible(rows, random)
    ensures ok ==> Describes(rows, random, kinds, areas)
  {
    var check := new GeometryCheck(random);
    for i := 0 to |rows|
      invariant check.Valid() && check.accepted == rows[..i] && check.random == random
    {
      var fine := check.Check(rows[i]);
      if !fine {
        assert exists x :: x in rows[..i] && !Agree(x, rows[i], random);
        assert rows[i] in rows;
        return false, map[], map[];
      }
      assert rows[..i + 1] == rows[..i] + [rows[i]];
    }
    assert rows[..|rows|] == rows;
    return true, check.kindByRegion, check.areaByRegion;
  }

  /** Neither acceptance nor the final maps depend on the order of the rows. */
  lemma OrderIrrelevant<N(!new), K(!new)>(rows: seq<GeoRow<N, K>>, rows': seq<GeoRow<N, K>>, random: K, s: State<N, K>,
                                          s': State<N, K>)
    requires multiset(rows) == multiset(rows')
    ensures Compatible(rows, random) <==> Compatible(rows', random)
    ensures Tracks(rows, random, s) && Tracks(rows', random, s') ==> s == s'
  {
    forall x ensures x in rows <==> x in rows' {
      assert x in rows <==> x in multiset(rows);
    }
    if Tracks(rows, random, s) && Tracks(rows', random, s') {
      assert Tracks(rows, random, s') by { TracksSameRows(rows', rows, random, s'); }
      TrackedStateUnique(rows, random, s, s');
    }
  }

  lemma TracksSameRows<N(!new), K(!new)>(rows: seq<GeoRow<N, K>>, rows': seq<GeoRow<N, K>>, random: K, s: State<N, K>)
    requires Tracks(rows, random, s) && forall x :: x in rows <==> x in rows'
    ensures Tracks(rows', random, s)
  {
    forall x | x in rows' && x.kind != random ensures AreaRecorded(x, s.areas) { assert x in rows; }
    forall r | r in s.kinds ensures HasRegion(rows', r) { assert HasRegion(rows, r); }
    forall key | key in s.areas ensures HasArea(rows', random, key, s.areas[key]) {
      assert HasArea(rows, random, key, s.areas[key]);
    }
  }

  lemma TrackedStateUnique<N(!new), K(!new)>(rows: seq<GeoRow<N, K>>, random: K, s: State<N, K>, s': State<N, K>)
    requires Tracks(rows, random, s) && Tracks(rows, random, s')
    ensures s == s'
  {
    forall r ensures r in s.kinds <==> r in s'.kinds {
      if r in s.kinds { assert HasRegion(rows, r); }
      if r in s'.kinds { assert HasRegion(rows, r); }
    }
    forall r | r in s.kinds ensures s.kinds[r] == s'.kinds[r] { assert HasRegion(rows, r); }
    forall x | x in rows && x.kind != random ensures AreaRecorded(x, s.areas) && AreaRecorded(x, s'.areas) {}
    forall key ensures key in s.areas <==> key in s'.areas {
      if key in s.areas { assert HasArea(rows, random, key, s.areas[key]); }
      if key in s'.areas { assert HasArea(rows, random, key, s'.areas[key]); }
    }
    forall key | key in s.areas ensures s.areas[key] == s'.areas[key] {
      assert HasArea(rows, random, key, s.areas[key]) && HasArea(rows, random, key, s'.areas[key]);
    }
  }
}
