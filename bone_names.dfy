/** assign_mmd_bone_names: the dictionary from MMD bone name to pose-bone name, and the
    rewriting of the pose bones' MMD name tags from it. */
module BoneNames {
  import opened Wrappers
  import opened Catalog
  import opened PoseUtil

  /** A Python dictionary as its item sequence: each key once, in first-insertion order, with
      its latest value. */
  type Mapping = seq<(string, Option<string>)>

  type Bones = map<string, PoseBone>

  ghost predicate DistinctKeys(m: Mapping) {
    forall i, j :: 0 <= i < j < |m| ==> m[i].0 != m[j].0
  }

  function KeySet(m: Mapping): set<string> {
    set i | 0 <= i < |m| :: m[i].0
  }

  /** `d[k]`, or None when `k` is not a key. */
  function Lookup(m: Mapping, k: string): (r: Option<Option<string>>)
    ensures r.Some? <==> k in KeySet(m)
  {
    if m == [] then None
    else if m[0].0 == k then Some(m[0].1)
    else
      assert KeySet(m) == {m[0].0} + KeySet(m[1..]);
      Lookup(m[1..], k)
  }

  /** A key that is found is found with the value of one of its items. */
  lemma {:induction false} LookupFindsItem(m: Mapping, k: string)
    ensures Lookup(m, k).Some? ==> exists i :: 0 <= i < |m| && m[i] == (k, Lookup(m, k).value)
  {
    if m != [] {
      if m[0].0 == k {
        assert m[0] == (k, Lookup(m, k).value);
      } else {
        LookupFindsItem(m[1..], k);
        if Lookup(m, k).Some? {
          var i :| 0 <= i < |m[1..]| && m[1..][i] == (k, Lookup(m, k).value);
          assert m[i + 1] == m[1..][i];
        }
      }
    }
  }

  lemma KeySetCons(x: (string, Option<string>), m: Mapping)
    ensures KeySet([x] + m) == {x.0} + KeySet(m)
  {
    var xm := [x] + m;
    forall k | k in KeySet(xm) ensures k in {x.0} + KeySet(m) {
      var i :| 0 <= i < |xm| && xm[i].0 == k;
      if i > 0 {
        assert m[i - 1].0 == k;
      }
    }
    forall k | k in KeySet(m) ensures k in KeySet(xm) {
      var i :| 0 <= i < |m| && m[i].0 == k;
      assert xm[i + 1].0 == k;
    }
    assert xm[0].0 == x.0;
  }

  /** `d[k] = v`: afterwards `k` maps to `v`, every other key as before. */
  function Put(m: Mapping, k: string, v: Option<string>): (r: Mapping)
    ensures Lookup(r, k) == Some(v)
    ensures forall k' :: k' != k ==> Lookup(r, k') == Lookup(m, k')
    ensures KeySet(r) == KeySet(m) + {k}
    ensures |m| <= |r| <= |m| + 1
  {
    if m == [] then [(k, v)]
    else
      KeySetCons(m[0], m[1..]);
      assert m == [m[0]] + m[1..];
      if m[0].0 == k then
        KeySetCons((k, v), m[1..]);
        [(k, v)] + m[1..]
      else
        var rest := Put(m[1..], k, v);
        KeySetCons(m[0], rest);
        [m[0]] + rest
  }

  /** An existing key keeps its place, a new key goes last, and keys stay distinct. */
  lemma PutKeepsOrder(m: Mapping, k: string, v: Option<string>)
    ensures |Put(m, k, v)| == if k in KeySet(m) then |m| else |m| + 1
    ensures forall i :: 0 <= i < |m| ==> Put(m, k, v)[i].0 == m[i].0
    ensures DistinctKeys(m) ==> DistinctKeys(Put(m, k, v))
  {
    PutLength(m, k, v);
    PutKeepsPlaces(m, k, v);
    if DistinctKeys(m) {
      PutKeepsDistinct(m, k, v);
    }
  }

  lemma {:induction false} PutLength(m: Mapping, k: string, v: Option<string>)
    ensures |Put(m, k, v)| == if k in KeySet(m) then |m| else |m| + 1
  {
    if m != [] {
      KeySetCons(m[0], m[1..]);
      assert m == [m[0]] + m[1..];
      if m[0].0 != k {
        PutLength(m[1..], k, v);
      }
    }
  }

  lemma {:induction false} PutKeepsPlaces(m: Mapping, k: string, v: Option<string>)
    ensures forall i :: 0 <= i < |m| ==> Put(m, k, v)[i].0 == m[i].0
  {
    if m != [] && m[0].0 != k {
      var rest := Put(m[1..], k, v);
      assert Put(m, k, v) == [m[0]] + rest;
      PutKeepsPlaces(m[1..], k, v);
      forall i | 0 <= i < |m| ensures Put(m, k, v)[i].0 == m[i].0 {
        if i > 0 {
          assert Put(m, k, v)[i] == rest[i - 1];
        }
      }
    }
  }

  lemma {:induction false} PutKeepsDistinct(m: Mapping, k: string, v: Option<string>)
    requires DistinctKeys(m)
    ensures DistinctKeys(Put(m, k, v))
  {
    if m != [] {
      assert m == [m[0]] + m[1..];
      DistinctCons(m[0], m[1..]);
      if m[0].0 == k {
        DistinctCons((k, v), m[1..]);
      } else {
        var rest := Put(m[1..], k, v);
        PutKeepsDistinct(m[1..], k, v);
        DistinctCons(m[0], rest);
      }
    }
  }

  /** Consing a fresh key onto a mapping with distinct keys keeps them distinct, and a mapping
      with distinct keys has a head key that is not among its tail's. */
  lemma DistinctCons(x: (string, Option<string>), m: Mapping)
    ensures DistinctKeys([x] + m) <==> DistinctKeys(m) && x.0 !in KeySet(m)
  {
    var xm := [x] + m;
    assert xm[0] == x;
    if DistinctKeys(xm) {
      forall i, j | 0 <= i < j < |m| ensures m[i].0 != m[j].0 {
        assert xm[i + 1] == m[i] && xm[j + 1] == m[j];
      }
      forall i | 0 <= i < |m| ensures m[i].0 != x.0 {
        assert xm[i + 1] == m[i];
      }
    }
    if DistinctKeys(m) && x.0 !in KeySet(m) {
      forall i, j | 0 <= i < j < |xm| ensures xm[i].0 != xm[j].0 {
        assert xm[j] == m[j - 1];
        if i > 0 {
          assert xm[i] == m[i - 1];
        }
      }
    }
  }

  /** The dictionary comprehension over the bind descriptors: later descriptors win. */
  function MappingOf(infos: seq<MMDBindInfo>): (r: Mapping)
    ensures DistinctKeys(r)
  {
    if infos == [] then []
    else
      var last := infos[|infos| - 1];
      PutKeepsOrder(MappingOf(infos[..|infos| - 1]), last.boneInfo.MmdBoneName(), last.poseBoneName);
      Put(MappingOf(infos[..|infos| - 1]), last.boneInfo.MmdBoneName(), last.poseBoneName)
  }

  /** `dict.update` with the caller's overrides, in their order. */
  function WithOverrides(d: Mapping, overrides: seq<(string, string)>): (r: Mapping)
    ensures DistinctKeys(d) ==> DistinctKeys(r)
  {
    if overrides == [] then d
    else
      var last := overrides[|overrides| - 1];
      PutKeepsOrder(WithOverrides(d, overrides[..|overrides| - 1]), last.0, Some(last.1));
      Put(WithOverrides(d, overrides[..|overrides| - 1]), last.0, Some(last.1))
  }

  /** The mapping assign_mmd_bone_names works from. */
  function BindMapping(infos: seq<MMDBindInfo>, overrides: Option<seq<(string, string)>>): (r: Mapping)
    ensures DistinctKeys(r)
  {
    if overrides.None? then MappingOf(infos) else WithOverrides(MappingOf(infos), overrides.value)
  }

  /** A name maps to the pose bone of the last descriptor that carries it. */
  lemma {:induction false} MappingLastInfoWins(infos: seq<MMDBindInfo>, i: int)
    requires 0 <= i < |infos|
    requires forall j :: i < j < |infos| ==> infos[j].boneInfo.MmdBoneName() != infos[i].boneInfo.MmdBoneName()
    ensures Lookup(MappingOf(infos), infos[i].boneInfo.MmdBoneName()) == Some(infos[i].poseBoneName)
  {
    if i < |infos| - 1 {
      var init := infos[..|infos| - 1];
      assert init[i] == infos[i];
      forall j | i < j < |init|
        ensures init[j].boneInfo.MmdBoneName() != init[i].boneInfo.MmdBoneName()
      {
        assert init[j] == infos[j];
      }
      MappingLastInfoWins(init, i);
    }
  }

  /** Names that no descriptor carries are not keys. */
  lemma {:induction false} MappingOnlyInfoNames(infos: seq<MMDBindInfo>, k: string)
    requires forall j :: 0 <= j < |infos| ==> infos[j].boneInfo.MmdBoneName() != k
    ensures Lookup(MappingOf(infos), k) == None
  {
    if infos != [] {
      var init := infos[..|infos| - 1];
      forall j | 0 <= j < |init|
        ensures init[j].boneInfo.MmdBoneName() != k
      {
        assert init[j] == infos[j];
      }
      MappingOnlyInfoNames(init, k);
    }
  }

  /** An override replaces whatever the descriptors map its name to; the last one for a name wins. */
  lemma {:induction false} OverrideWins(d: Mapping, overrides: seq<(string, string)>, i: int)
    requires 0 <= i < |overrides|
    requires forall j :: i < j < |overrides| ==> overrides[j].0 != overrides[i].0
    ensures Lookup(WithOverrides(d, overrides), overrides[i].0) == Some(Some(overrides[i].1))
  {
    if i < |overrides| - 1 {
      var init := overrides[..|overrides| - 1];
      assert init[i] == overrides[i];
      forall j | i < j < |init|
        ensures init[j].0 != init[i].0
      {
        assert init[j] == overrides[j];
      }
      OverrideWins(d, init, i);
    }
  }

  /** Names the overrides do not mention keep the descriptors' mapping. */
  lemma {:induction false} OverridesKeepOthers(d: Mapping, overrides: seq<(string, string)>, k: string)
    requires forall j :: 0 <= j < |overrides| ==> overrides[j].0 != k
    ensures Lookup(WithOverrides(d, overrides), k) == Lookup(d, k)
  {
    if overrides != [] {
      var init := overrides[..|overrides| - 1];
      forall j | 0 <= j < |init|
        ensures init[j].0 != k
      {
        assert init[j] == overrides[j];
      }
      OverridesKeepOthers(d, init, k);
    }
  }

  // ---------------------------------------------------------------- tags

  /** The first loop: every pose bone whose tag is a key of the mapping gets the empty tag. */
  function ClearedTags(bones: Bones, managed: set<string>): (r: Bones)
    ensures r.Keys == bones.Keys
    ensures forall b :: b in r ==> r[b].constraints == bones[b].constraints && r[b].props == bones[b].props
    ensures forall b :: b in r ==> r[b].nameJ == if bones[b].nameJ in managed then "" else bones[b].nameJ
  {
    map b | b in bones :: if bones[b].nameJ in managed then bones[b].(nameJ := "") else bones[b]
  }

  /** One step of the second loop: an entry with an existing pose bone writes its name there. */
  function WriteTag(bones: Bones, entry: (string, Option<string>)): Bones {
    if entry.1.Some? && entry.1.value in bones then
      bones[entry.1.value := bones[entry.1.value].(nameJ := entry.0)]
    else
      bones
  }

  /** The second loop over the entries of `m`, in order. */
  function WrittenTags(bones: Bones, m: Mapping): (r: Bones)
    ensures r.Keys == bones.Keys
    ensures forall b :: b in r ==> r[b].constraints == bones[b].constraints && r[b].props == bones[b].props
    ensures forall b :: b in r ==> r[b].nameJ == bones[b].nameJ || r[b].nameJ in KeySet(m)
  {
    if m == [] then bones
    else
      var init := m[..|m| - 1];
      assert KeySet(init) <= KeySet(m) by {
        forall k | k in KeySet(init) ensures k in KeySet(m) {
          var i :| 0 <= i < |init| && init[i].0 == k;
          assert m[i].0 == k;
        }
      }
      assert m[|m| - 1].0 in KeySet(m);
      WriteTag(WrittenTags(bones, init), m[|m| - 1])
  }

  /** The tags after assign_mmd_bone_names with mapping `m`. */
  function AssignedTags(bones: Bones, m: Mapping): (r: Bones)
    ensures r.Keys == bones.Keys
    ensures forall b :: b in r ==> r[b].constraints == bones[b].constraints && r[b].props == bones[b].props
  {
    WrittenTags(ClearedTags(bones, KeySet(m)), m)
  }

  /** Every key is written to at most one bone, and only by its own entry. */
  lemma {:induction false} WrittenTagsUnique(bones: Bones, m: Mapping, n: string)
    requires DistinctKeys(m)
    requires forall b :: b in bones ==> bones[b].nameJ !in KeySet(m)
    requires n in KeySet(m)
    ensures forall b1, b2 ::
              (b1 in bones && b2 in bones && WrittenTags(bones, m)[b1].nameJ == n && WrittenTags(bones, m)[b2].nameJ == n)
              ==> b1 == b2
  {
    var init, last := m[..|m| - 1], m[|m| - 1];
    var before := WrittenTags(bones, init);
    assert KeySet(m) == KeySet(init) + {last.0} by {
      assert forall i :: 0 <= i < |init| ==> init[i] == m[i];
    }
    forall i | 0 <= i < |init|
      ensures init[i].0 != last.0
    {
      assert init[i] == m[i];
    }
    assert last.0 !in KeySet(init);
    assert DistinctKeys(init) by {
      assert forall i :: 0 <= i < |init| ==> init[i] == m[i];
    }
    if n == last.0 {
      // No bone carries the last key before its own entry writes it.
      assert forall b :: b in before ==> before[b].nameJ != n;
    } else {
      WrittenTagsUnique(bones, init, n);
    }
  }

  /** After assign_mmd_bone_names every managed name is the tag of at most one pose bone. */
  lemma AssignedAtMostOneBonePerName(bones: Bones, m: Mapping, n: string)
    requires DistinctKeys(m)
    requires "" !in KeySet(m)
    requires n in KeySet(m)
    ensures forall b1, b2 ::
              (b1 in bones && b2 in bones && AssignedTags(bones, m)[b1].nameJ == n && AssignedTags(bones, m)[b2].nameJ == n)
              ==> b1 == b2
  {
    WrittenTagsUnique(ClearedTags(bones, KeySet(m)), m, n);
  }

  /** Every key the bind descriptors give is a non-empty MMD name. */
  lemma {:induction false} MappingNamesNonEmpty(infos: seq<MMDBindInfo>)
    ensures "" !in KeySet(MappingOf(infos))
  {
    if infos != [] {
      MappingNamesNonEmpty(infos[..|infos| - 1]);
      assert |infos[|infos| - 1].boneInfo.MmdBoneName()| >= 1;
    }
  }

  /** Overrides with non-empty keys add no empty key. */
  lemma {:induction false} OverridesKeepNonEmpty(d: Mapping, overrides: seq<(string, string)>)
    requires "" !in KeySet(d)
    requires forall j :: 0 <= j < |overrides| ==> overrides[j].0 != ""
    ensures "" !in KeySet(WithOverrides(d, overrides))
  {
    if overrides != [] {
      OverridesKeepNonEmpty(d, overrides[..|overrides| - 1]);
    }
  }

  /** assign_mmd_bone_names as the method runs it: when no override key is empty, each MMD
      name of the mapping it builds ends on at most one pose bone. */
  lemma BindAtMostOneBonePerName(bones: Bones, infos: seq<MMDBindInfo>, overrides: Option<seq<(string, string)>>, n: string)
    requires overrides.Some? ==> forall j :: 0 <= j < |overrides.value| ==> overrides.value[j].0 != ""
    requires n in KeySet(BindMapping(infos, overrides))
    ensures forall b1, b2 ::
              (b1 in bones && b2 in bones
               && AssignedTags(bones, BindMapping(infos, overrides))[b1].nameJ == n
               && AssignedTags(bones, BindMapping(infos, overrides))[b2].nameJ == n)
              ==> b1 == b2
  {
    MappingNamesNonEmpty(infos);
    if overrides.Some? {
      OverridesKeepNonEmpty(MappingOf(infos), overrides.value);
    }
    AssignedAtMostOneBonePerName(bones, BindMapping(infos, overrides), n);
  }

  /** A bone keeps its tag through later entries that target other bones. */
  lemma {:induction false} WrittenUntouched(bones: Bones, m: Mapping, b: string)
    requires b in bones
    requires forall j :: 0 <= j < |m| ==> m[j].1 != Some(b)
    ensures WrittenTags(bones, m)[b].nameJ == bones[b].nameJ
  {
    if m != [] {
      var init := m[..|m| - 1];
      forall j | 0 <= j < |init|
        ensures init[j].1 != Some(b)
      {
        assert init[j] == m[j];
      }
      WrittenUntouched(bones, init, b);
    }
  }

  /** A mapped, existing target bone carries the name of the last entry that targets it. */
  lemma {:induction false} WrittenLastTargetWins(bones: Bones, m: Mapping, i: int)
    requires 0 <= i < |m| && m[i].1.Some? && m[i].1.value in bones
    requires forall j :: i < j < |m| ==> m[j].1 != m[i].1
    ensures WrittenTags(bones, m)[m[i].1.value].nameJ == m[i].0
  {
    var init := m[..|m| - 1];
    if i < |m| - 1 {
      assert init[i] == m[i];
      forall j | i < j < |init|
        ensures init[j].1 != init[i].1
      {
        assert init[j] == m[j];
      }
      WrittenLastTargetWins(bones, init, i);
    }
  }

  lemma AssignedLastTargetWins(bones: Bones, m: Mapping, i: int)
    requires 0 <= i < |m| && m[i].1.Some? && m[i].1.value in bones
    requires forall j :: i < j < |m| ==> m[j].1 != m[i].1
    ensures AssignedTags(bones, m)[m[i].1.value].nameJ == m[i].0
  {
    WrittenLastTargetWins(ClearedTags(bones, KeySet(m)), m, i);
  }

  /** A bone no entry targets ends with the empty tag if its tag was managed, and keeps it
      otherwise. Entries without a pose bone, or naming a missing one, change nothing. */
  lemma AssignedUntargeted(bones: Bones, m: Mapping, b: string)
    requires b in bones
    requires forall j :: 0 <= j < |m| ==> m[j].1 != Some(b)
    ensures AssignedTags(bones, m)[b].nameJ == if bones[b].nameJ in KeySet(m) then "" else bones[b].nameJ
  {
    WrittenUntouched(ClearedTags(bones, KeySet(m)), m, b);
  }
}
