/** The edit-bone tree an armature is re-parented in: each edit bone names its parent. */
module EditBones {
  import opened Wrappers

  datatype EditBone = EditBone(parent: Option<string>)

  type EditBoneMap = map<string, EditBone>

  /** A bone as edit_bones.new creates it: without a parent. */
  const NewEditBone := EditBone(None)

  /** The bones whose parent is `x`, as EditBone.children lists them. */
  function Children(bones: EditBoneMap, x: string): set<string> {
    set y | y in bones && bones[y].parent == Some(x)
  }

  /** get_or_create_bone on the bone store: unchanged when the name is present, else one new bone. */
  function GotOrCreated(bones: EditBoneMap, name: string): (r: EditBoneMap)
    ensures name in r && r.Keys == bones.Keys + {name}
    ensures name in bones ==> r == bones
    ensures name !in bones ==> r[name] == NewEditBone && |r.Keys| == |bones.Keys| + 1
    ensures forall x :: x in bones ==> r[x] == bones[x]
  {
    if name in bones then bones else bones[name := NewEditBone]
  }

  /** insert_edit_bone(e, p): every child of `p` is moved under `e`, then `e` goes under `p`. */
  function Inserted(bones: EditBoneMap, e: string, p: string): (r: EditBoneMap)
    requires e in bones && p in bones
    ensures r.Keys == bones.Keys
  {
    map x | x in bones :: if x == e then EditBone(Some(p)) else if bones[x].parent == Some(p) then EditBone(Some(e)) else bones[x]
  }

  /** `e` ends under `p`; the former children of `p` other than `e` end under `e`; every other
      bone keeps its parent. */
  lemma InsertedParents(bones: EditBoneMap, e: string, p: string, x: string)
    requires e in bones && p in bones && x in bones
    ensures Inserted(bones, e, p)[e].parent == Some(p)
    ensures x != e && x in Children(bones, p) ==> Inserted(bones, e, p)[x].parent == Some(e)
    ensures x != e && x !in Children(bones, p) ==> Inserted(bones, e, p)[x] == bones[x]
  {
  }

  /** The same change seen from the parents: `p` keeps `e` as its only child, `e` gains the
      former children of `p`, and every other bone loses at most `e`. */
  lemma InsertedChildren(bones: EditBoneMap, e: string, p: string, x: string)
    requires e in bones && p in bones && e != p
    ensures Children(Inserted(bones, e, p), p) == {e}
    ensures Children(Inserted(bones, e, p), e) == (Children(bones, e) + Children(bones, p)) - {e}
    ensures x != e && x != p ==> Children(Inserted(bones, e, p), x) == Children(bones, x) - {e}
  {
    var r := Inserted(bones, e, p);
    assert e in Children(r, p);
    forall y | y in Children(bones, p) && y != e ensures y in Children(r, e) {
      assert r[y] == EditBone(Some(e));
    }
    forall y | y in Children(bones, e) && y != e ensures y in Children(r, e) {
      assert bones[y].parent == Some(e);
    }
  }
}
