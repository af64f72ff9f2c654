/** Region identities (`ssat/analysis/types.py`) and their recovery (`ssat/report/assembler.py`). */
module RegionKeys {

  /** `f"{region_id}::{region_instance_id}"`. */
  function RegionKey(regionId: string, instanceId: string): string {
    regionId + "::" + instanceId
  }

  predicate SeparatorAt(s: string, i: nat) {
    i + 1 < |s| && s[i] == ':' && s[i + 1] == ':'
  }

  /** `key.split("::", 1)[0]`: everything before the first separator, or the whole key. */
  function RegionIdOf(key: string): string {
    if key == "" || SeparatorAt(key, 0) then "" else [key[0]] + RegionIdOf(key[1..])
  }

  /** Where the split cuts: the first separator, and only there. */
  lemma {:induction false} SplitCutsAtFirstSeparator(key: string)
    ensures var id := RegionIdOf(key);
            && id <= key
            && (forall i: nat :: i < |id| ==> !SeparatorAt(key, i))
            && (id == key || SeparatorAt(key, |id|))
  {
    if key != "" && !SeparatorAt(key, 0) {
      SplitCutsAtFirstSeparator(key[1..]);
      var id := RegionIdOf(key);
      assert RegionIdOf(key[1..]) == id[1..];
      assert key == [key[0]] + key[1..];
      forall i: nat | i < |id| ensures !SeparatorAt(key, i) {
        if i > 0 { assert SeparatorAt(key, i) == SeparatorAt(key[1..], i - 1); }
      }
    }
  }

  /** The guard a caller can test: the id holds no separator and does not end in a colon. */
  predicate Splittable(id: string) {
    (forall i: nat :: i < |id| ==> !SeparatorAt(id, i)) && (id == "" || id[|id| - 1] != ':')
  }

  /** Splitting a region key gives its region id back exactly for the splittable ids, whatever the instance. */
  lemma SplitRecoversRegionId(id: string, instanceId: string)
    ensures RegionIdOf(RegionKey(id, instanceId)) == id <==> Splittable(id)
  {
    var key := RegionKey(id, instanceId);
    var r := RegionIdOf(key);
    SplitCutsAtFirstSeparator(key);
    assert SeparatorAt(key, |id|);
    assert forall i: nat :: i + 1 < |id| ==> SeparatorAt(key, i) == SeparatorAt(id, i);
    if Splittable(id) {
      forall i: nat | i < |id| ensures !SeparatorAt(key, i) {
        if i + 1 < |id| { assert !SeparatorAt(id, i); }
      }
      assert |r| == |id|;
      assert r == key[..|id|] == id;
    } else {
      var cut: nat :| cut < |id| && (SeparatorAt(id, cut) || (cut == |id| - 1 && id[cut] == ':'));
      assert SeparatorAt(key, cut);
    }
  }

  /** Distinct regions get distinct keys, for splittable ids and any instance strings. */
  lemma RegionKeyInjective(id1: string, instance1: string, id2: string, instance2: string)
    requires Splittable(id1) && Splittable(id2)
    requires RegionKey(id1, instance1) == RegionKey(id2, instance2)
    ensures id1 == id2 && instance1 == instance2
  {
    SplitRecoversRegionId(id1, instance1);
    SplitRecoversRegionId(id2, instance2);
    var key := RegionKey(id1, instance1);
    assert instance1 == key[|id1| + 2..] == instance2;
  }

  /** Outside the guard keys collide: every id and its colon-extended twin share a key. */
  lemma ColonIdsCollide(id: string, instanceId: string)
    ensures RegionKey(id, ":" + instanceId) == RegionKey(id + ":", instanceId)
    ensures !Splittable(id + ":")
  {
    assert RegionKey(id, ":" + instanceId) == id + ":::" + instanceId;
    assert RegionKey(id + ":", instanceId) == id + ":::" + instanceId;
  }

  predicate Alphanumeric(c: char) {
    'A' <= c <= 'Z' || 'a' <= c <= 'z' || '0' <= c <= '9'
  }

  /** The configuration pattern `^[A-Za-z0-9][A-Za-z0-9_.-]*$` for a region family's id. */
  predicate ConfiguredId(id: string) {
    id != "" && Alphanumeric(id[0]) && forall i :: 0 <= i < |id| ==> Alphanumeric(id[i]) || id[i] in "_.-"
  }

  lemma ConfiguredIdsRecover(id: string, instanceId: string)
    requires ConfiguredId(id)
    ensures RegionIdOf(RegionKey(id, instanceId)) == id
  {
    forall i | 0 <= i < |id| ensures id[i] != ':' {
      assert Alphanumeric(id[i]) || id[i] in "_.-";
    }
    SplitRecoversRegionId(id, instanceId);
  }
}
