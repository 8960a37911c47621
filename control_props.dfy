/** The rig variant's control properties: where each control lives (its data path), reading and
    writing it, creating the backing properties, and the eye constraint chain driven by one. */
module ControlProps {
  import opened Wrappers
  import opened Catalog
  import opened Errors
  import opened DataPaths
  import opened PoseUtil

  /** The rig variant's `datapaths` table; a missing control is a feature the variant lacks. */
  type ControlPaths = map<ControlType, DataPath>

  type Bones = map<string, PoseBone>

  /** `datapaths.get(control)`. */
  function Resolve(datapaths: ControlPaths, c: ControlType): (r: Option<DataPath>)
    ensures r.Some? <==> c in datapaths
    ensures r.Some? ==> r.value == datapaths[c]
  {
    if c in datapaths then Some(datapaths[c]) else None
  }

  /** _get_property: None for an absent control, else the property value; indexing a missing
      bone or property raises KeyError. */
  function PropertyOf(bones: Bones, datapaths: ControlPaths, c: ControlType): (r: Result<Option<real>, Error>)
    ensures c !in datapaths ==> r == Ok(None)
    ensures r.Err? ==> c in datapaths && (r.error == MissingBone(datapaths[c].boneName) || r.error == MissingProperty(datapaths[c].propName))
    ensures r == Ok(None) ==> c !in datapaths
    ensures c in datapaths && datapaths[c].boneName !in bones ==> r == Err(MissingBone(datapaths[c].boneName))
    ensures (c in datapaths && datapaths[c].boneName in bones && datapaths[c].propName !in bones[datapaths[c].boneName].props)
              ==> r == Err(MissingProperty(datapaths[c].propName))
    ensures (c in datapaths && datapaths[c].boneName in bones && datapaths[c].propName in bones[datapaths[c].boneName].props)
              ==> r == Ok(Some(bones[datapaths[c].boneName].props[datapaths[c].propName].value))
  {
    match Resolve(datapaths, c)
    case None => Ok(None)
    case Some(dp) =>
      if dp.boneName !in bones then Err(MissingBone(dp.boneName))
      else if dp.propName !in bones[dp.boneName].props then Err(MissingProperty(dp.propName))
      else Ok(Some(bones[dp.boneName].props[dp.propName].value))
  }

  /** `pose_bone[prop] = value`: the value changes, an existing UI range stays. */
  function WithValue(b: PoseBone, prop: string, value: real): (r: PoseBone)
    ensures r.nameJ == b.nameJ && r.constraints == b.constraints
    ensures r.props.Keys == b.props.Keys + {prop}
    ensures r.props[prop].value == value
    ensures prop in b.props ==> r.props[prop].ui == b.props[prop].ui
    ensures prop !in b.props ==> r.props[prop].ui == None
    ensures forall n :: n in b.props && n != prop ==> r.props[n] == b.props[n]
  {
    var ui := if prop in b.props then b.props[prop].ui else None;
    b.(props := b.props[prop := IdProp(value, ui)])
  }

  /** _set_property: a no-op for an absent control; indexing a missing bone raises KeyError. */
  function WithProperty(bones: Bones, datapaths: ControlPaths, c: ControlType, value: real): (r: Result<Bones, Error>)
    ensures c !in datapaths ==> r == Ok(bones)
    ensures r.Err? <==> c in datapaths && datapaths[c].boneName !in bones
    ensures r.Err? ==> r.error == MissingBone(datapaths[c].boneName)
    ensures r.Ok? ==> r.value.Keys == bones.Keys
    ensures r.Ok? && c in datapaths ==>
      r.value[datapaths[c].boneName] == WithValue(bones[datapaths[c].boneName], datapaths[c].propName, value)
    ensures r.Ok? ==> forall b :: b in bones && (c !in datapaths || b != datapaths[c].boneName) ==> r.value[b] == bones[b]
  {
    match Resolve(datapaths, c)
    case None => Ok(bones)
    case Some(dp) =>
      if dp.boneName !in bones then Err(MissingBone(dp.boneName))
      else Ok(bones[dp.boneName := WithValue(bones[dp.boneName], dp.propName, value)])
  }

  /** A set followed by a get returns the value set. */
  lemma SetThenGet(bones: Bones, datapaths: ControlPaths, c: ControlType, value: real)
    requires c in datapaths && datapaths[c].boneName in bones
    ensures WithProperty(bones, datapaths, c, value).Ok?
    ensures PropertyOf(WithProperty(bones, datapaths, c, value).value, datapaths, c) == Ok(Some(value))
  {
  }

  /** A set changes no control stored elsewhere. */
  lemma SetLeavesOtherControls(bones: Bones, datapaths: ControlPaths, c: ControlType, d: ControlType, value: real)
    requires WithProperty(bones, datapaths, c, value).Ok?
    requires d in datapaths && c in datapaths ==> datapaths[d] != datapaths[c]
    ensures PropertyOf(WithProperty(bones, datapaths, c, value).value, datapaths, d) == PropertyOf(bones, datapaths, d)
  {
    if c in datapaths && d in datapaths {
      var dc, dd := datapaths[c], datapaths[d];
      if dd.boneName == dc.boneName {
        assert dd.propName != dc.propName;
      }
    }
  }

  /** A set keeps the UI range of the property it overwrites. */
  lemma SetKeepsRange(bones: Bones, datapaths: ControlPaths, c: ControlType, value: real)
    requires c in datapaths && datapaths[c].boneName in bones
    requires datapaths[c].propName in bones[datapaths[c].boneName].props
    ensures WithProperty(bones, datapaths, c, value).value[datapaths[c].boneName].props[datapaths[c].propName].ui
         == bones[datapaths[c].boneName].props[datapaths[c].propName].ui
  {
  }

  // ---------------------------------------------------------------- create_props

  /** add_prop with its defaults: value 0 in the range [0, 1]. */
  const DefaultProp := IdProp(0.0, Some(PropUi(0.0, 1.0)))

  /** The property names create_props creates for `controls`. */
  function CreatedNames(datapaths: ControlPaths, controls: seq<ControlType>): set<string> {
    set c | c in controls && c in datapaths :: datapaths[c].propName
  }

  /** create_props over `controls`, in order, on the storage bone `b`. */
  function PropsCreated(b: PoseBone, datapaths: ControlPaths, controls: seq<ControlType>): (r: PoseBone)
    ensures r.nameJ == b.nameJ && r.constraints == b.constraints
    ensures r.props.Keys == b.props.Keys + CreatedNames(datapaths, controls)
    ensures forall n :: n in CreatedNames(datapaths, controls) ==> r.props[n] == DefaultProp
    ensures forall n :: n in b.props && n !in CreatedNames(datapaths, controls) ==> r.props[n] == b.props[n]
  {
    if controls == [] then b
    else
      var init, c := controls[..|controls| - 1], controls[|controls| - 1];
      var before := PropsCreated(b, datapaths, init);
      assert controls == init + [c];
      assert CreatedNames(datapaths, controls)
          == CreatedNames(datapaths, init) + (if c in datapaths then {datapaths[c].propName} else {});
      match Resolve(datapaths, c)
      case None => before
      case Some(dp) => WithProp(before, dp.propName, DefaultProp.value, DefaultProp.ui.value.min, DefaultProp.ui.value.max)
  }

  /** One more control: its property is created when the rig variant has it. */
  lemma PropsCreatedStep(b: PoseBone, datapaths: ControlPaths, controls: seq<ControlType>, c: ControlType)
    ensures PropsCreated(b, datapaths, controls + [c])
         == if c in datapaths then WithProp(PropsCreated(b, datapaths, controls), datapaths[c].propName, 0.0, 0.0, 1.0)
            else PropsCreated(b, datapaths, controls)
  {
    assert (controls + [c])[..|controls|] == controls;
  }

  /** After create_props, each of its controls whose data path is on the storage bone reads 0. */
  lemma CreateThenGet(bones: Bones, storage: string, datapaths: ControlPaths, c: ControlType)
    requires storage in bones
    requires c in PropControls && c in datapaths && datapaths[c].boneName == storage
    ensures PropertyOf(bones[storage := PropsCreated(bones[storage], datapaths, PropControls)], datapaths, c) == Ok(Some(0.0))
  {
    assert datapaths[c].propName in CreatedNames(datapaths, PropControls);
  }

  // ---------------------------------------------------------------- eye constraints

  /** The data path the eye constraints read their influence from. */
  function EyeDataPath(dp: DataPath): string {
    "pose.bones" + dp.FullDataPath()
  }

  /** The keyword arguments of an eye constraint: the two on the control bones add their
      rotation (`mix_mode='ADD'`). */
  function EyeKwargs(mix: bool): (k: Kwargs)
    ensures HostAssignable(k) && k.Keys !! CopyHelperParams
  {
    if mix then map["mix_mode" := Text("ADD")] else map[]
  }

  /** One eye constraint: a copy-rotation in local space whose influence is the inverted eye
      control; `mix` says whether it adds its rotation. */
  function EyeConstraint(obj: ObjectRef, subtarget: string, path: string, mix: bool): (c: Constraint)
    ensures c.kind == "COPY_ROTATION" && c.name == "mmd_uuunyaa_copy_rotation" && IsManaged(c)
    ensures "target" in c.attrs && "subtarget" in c.attrs && "target_space" in c.attrs && "owner_space" in c.attrs
    ensures c.attrs["target"] == Ref(obj) && c.attrs["subtarget"] == Text(subtarget)
    ensures c.attrs["target_space"] == Text("LOCAL") && c.attrs["owner_space"] == Text("LOCAL")
    ensures "mix_mode" in c.attrs <==> mix
    ensures mix ==> c.attrs["mix_mode"] == Text("ADD")
    ensures c.drivers == map[InfluencePath := InfluenceDriver(obj, path, true)]
  {
    var c := CopyConstraint(CopyRotation, obj, subtarget, "LOCAL", path, true, EyeKwargs(mix));
    assert mix ==> "mix_mode" in EyeKwargs(mix);
    c
  }

  /** The steps of _add_eye_constraints, in order, as (bone, subtarget, adds): each target eye
      copies the rotation of its control bone, and each control bone adds the rotation of the
      shared control. */
  function EyeSteps(targetL: string, targetR: string, controlL: string, controlR: string, controlEyes: string)
    : seq<(string, string, bool)>
  {
    [(targetL, controlL, false), (targetR, controlR, false), (controlL, controlEyes, true), (controlR, controlEyes, true)]
  }

  /** _add_eye_constraints as (bone, constraint) pairs, in order; all four constraints fade out
      as the eye control property rises. */
  function EyeChain(obj: ObjectRef, dp: DataPath, targetL: string, targetR: string,
                    controlL: string, controlR: string, controlEyes: string): seq<(string, Constraint)>
  {
    var steps := EyeSteps(targetL, targetR, controlL, controlR, controlEyes);
    seq(|steps|, i requires 0 <= i < |steps| =>
      (steps[i].0, EyeConstraint(obj, steps[i].1, EyeDataPath(dp), steps[i].2)))
  }

  ghost predicate OnBones(bones: Bones, chain: seq<(string, Constraint)>) {
    forall i :: 0 <= i < |chain| ==> chain[i].0 in bones
  }

  /** Appends each constraint of the chain to its bone, in order. */
  function WithChain(bones: Bones, chain: seq<(string, Constraint)>): (r: Bones)
    requires OnBones(bones, chain)
    ensures r.Keys == bones.Keys
  {
    if chain == [] then bones
    else
      var init, last := chain[..|chain| - 1], chain[|chain| - 1];
      assert OnBones(bones, init) by {
        forall i | 0 <= i < |init| ensures init[i].0 in bones {
          assert init[i] == chain[i];
        }
      }
      var prev := WithChain(bones, init);
      prev[last.0 := AppendConstraint(prev[last.0], last.1)]
  }

  /** The constraints the chain appends to bone `b`, in order. */
  function AddedFor(chain: seq<(string, Constraint)>, b: string): seq<Constraint> {
    if chain == [] then []
    else
      var last := chain[|chain| - 1];
      AddedFor(chain[..|chain| - 1], b) + (if last.0 == b then [last.1] else [])
  }

  /** A chain only appends: each bone ends with its old stack followed by the constraints the
      chain puts on it. */
  lemma {:induction false} WithChainAppends(bones: Bones, chain: seq<(string, Constraint)>, b: string)
    requires OnBones(bones, chain) && b in bones
    ensures WithChain(bones, chain)[b] == bones[b].(constraints := bones[b].constraints + AddedFor(chain, b))
  {
    if chain == [] {
      assert bones[b].constraints + [] == bones[b].constraints;
    } else {
      var init, last := chain[..|chain| - 1], chain[|chain| - 1];
      assert OnBones(bones, init) by {
        forall i | 0 <= i < |init| ensures init[i].0 in bones {
          assert init[i] == chain[i];
        }
      }
      WithChainAppends(bones, init, b);
      if last.0 == b {
        assert bones[b].constraints + AddedFor(chain, b)
            == (bones[b].constraints + AddedFor(init, b)) + [last.1];
      } else {
        assert AddedFor(chain, b) == AddedFor(init, b);
      }
    }
  }

  /** Every constraint of the chain is one of the add-on's. */
  lemma {:induction false} AddedForManaged(chain: seq<(string, Constraint)>, b: string)
    requires forall i :: 0 <= i < |chain| ==> IsManaged(chain[i].1)
    ensures forall c :: c in AddedFor(chain, b) ==> IsManaged(c)
  {
    if chain != [] {
      var init := chain[..|chain| - 1];
      assert forall i :: 0 <= i < |init| ==> init[i] == chain[i];
      AddedForManaged(init, b);
    }
  }

  /** A step of the eye chain: an add-on constraint on `bone` copying, in local space, the
      rotation of `subtarget` (adding it when `mix`), faded out by the eye control at `path`. */
  ghost predicate EyeStep(s: (string, Constraint), bone: string, obj: ObjectRef, subtarget: string, path: string, mix: bool) {
    && s.0 == bone
    && IsManaged(s.1)
    && s.1.kind == "COPY_ROTATION"
    && "target" in s.1.attrs && s.1.attrs["target"] == Ref(obj)
    && "subtarget" in s.1.attrs && s.1.attrs["subtarget"] == Text(subtarget)
    && ("mix_mode" in s.1.attrs <==> mix)
    && s.1.drivers == map[InfluencePath := InfluenceDriver(obj, path, true)]
  }

  /** The eye chain makes four steps, each the one _add_eye_constraints makes at that place. */
  lemma EyeChainShape(obj: ObjectRef, dp: DataPath, tl: string, tr: string, cl: string, cr: string, ce: string)
    ensures |EyeChain(obj, dp, tl, tr, cl, cr, ce)| == 4
    ensures forall i :: 0 <= i < 4 ==>
              EyeStep(EyeChain(obj, dp, tl, tr, cl, cr, ce)[i], EyeSteps(tl, tr, cl, cr, ce)[i].0, obj,
                      EyeSteps(tl, tr, cl, cr, ce)[i].1, EyeDataPath(dp), EyeSteps(tl, tr, cl, cr, ce)[i].2)
  {
  }

  /** remove_constraints after a chain of add-on constraints gives back every bone's old stack,
      less the add-on's constraints it already carried. */
  lemma ChainRemovable(bones: Bones, chain: seq<(string, Constraint)>, b: string)
    requires OnBones(bones, chain) && b in bones
    requires forall i :: 0 <= i < |chain| ==> IsManaged(chain[i].1)
    ensures WithoutManaged(WithChain(bones, chain)[b].constraints) == WithoutManaged(bones[b].constraints)
  {
    WithChainAppends(bones, chain, b);
    AddedForManaged(chain, b);
    RemovalUndoesManagedAppends(bones[b].constraints, AddedFor(chain, b));
  }

  /** The eye chain only touches its four bones, and remove_constraints takes it away again. */
  lemma EyeChainRemovable(bones: Bones, obj: ObjectRef, dp: DataPath, tl: string, tr: string, cl: string, cr: string, ce: string, b: string)
    requires tl in bones && tr in bones && cl in bones && cr in bones && b in bones
    ensures OnBones(bones, EyeChain(obj, dp, tl, tr, cl, cr, ce))
    ensures WithoutManaged(WithChain(bones, EyeChain(obj, dp, tl, tr, cl, cr, ce))[b].constraints) == WithoutManaged(bones[b].constraints)
  {
    EyeChainOnBones(bones, obj, dp, tl, tr, cl, cr, ce);
    ChainRemovable(bones, EyeChain(obj, dp, tl, tr, cl, cr, ce), b);
  }

  /** The eye chain only touches its four bones. */
  lemma EyeChainOnBones(bones: Bones, obj: ObjectRef, dp: DataPath, tl: string, tr: string, cl: string, cr: string, ce: string)
    requires tl in bones && tr in bones && cl in bones && cr in bones
    ensures OnBones(bones, EyeChain(obj, dp, tl, tr, cl, cr, ce))
  {
    var chain := EyeChain(obj, dp, tl, tr, cl, cr, ce);
    forall i | 0 <= i < |chain| ensures chain[i].0 in bones {
      assert chain[i].0 == EyeSteps(tl, tr, cl, cr, ce)[i].0;
    }
  }

  /** The first `k` steps of a chain. */
  function ChainPrefix(bones: Bones, chain: seq<(string, Constraint)>, k: nat): (r: Bones)
    requires OnBones(bones, chain) && k <= |chain|
    ensures r.Keys == bones.Keys
  {
    assert OnBones(bones, chain[..k]) by {
      forall i | 0 <= i < k ensures chain[..k][i].0 in bones {
        assert chain[..k][i] == chain[i];
      }
    }
    WithChain(bones, chain[..k])
  }

  /** Running a chain one step further appends its next constraint to its bone; run to its
      end, it is the whole chain. */
  lemma ChainStep(bones: Bones, chain: seq<(string, Constraint)>, k: nat)
    requires OnBones(bones, chain) && k < |chain|
    ensures ChainPrefix(bones, chain, 0) == bones && ChainPrefix(bones, chain, |chain|) == WithChain(bones, chain)
    ensures ChainPrefix(bones, chain, k + 1)
         == ChainPrefix(bones, chain, k)[chain[k].0 := AppendConstraint(ChainPrefix(bones, chain, k)[chain[k].0], chain[k].1)]
  {
    assert chain[..0] == [] && chain[..|chain|] == chain;
    assert chain[..k + 1][..k] == chain[..k];
    assert chain[..k + 1][k] == chain[k];
    var prefix := chain[..k + 1];
    assert OnBones(bones, prefix[..|prefix| - 1]) by {
      forall i | 0 <= i < k ensures prefix[..k][i].0 in bones {
        assert prefix[..k][i] == chain[i];
      }
    }
  }
}
