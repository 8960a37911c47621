/** A rig-variant armature object: its pose bones, its edit bones, and the rig variant's tables
    (the control data paths and the bind descriptors). Every PoseUtil, ArmatureObjectABC and
    RichArmatureObjectABC operation that changes the armature is a method here, proved against
    the functions of modules PoseUtil, BoneNames, EditBones and ControlProps. A constraint is
    handed around as its bone's name and its index in that bone's stack. */
module Armatures {
  import opened Wrappers
  import opened Catalog
  import opened Errors
  import opened DataPaths
  import opened PoseUtil
  import BoneNames
  import EditBones
  import ControlProps

  class RichArmature {
    /** The armature object itself, the target of every influence driver. */
    const objectName: ObjectRef
    /** The rig variant's `datapaths` table. */
    const datapaths: ControlProps.ControlPaths
    /** The rig variant's `mmd_bind_infos` list. */
    const bindInfos: seq<MMDBindInfo>
    /** `pose.bones`, by name. */
    var poseBones: map<string, PoseBone>
    /** `data.edit_bones`, by name. */
    var editBones: EditBones.EditBoneMap

    constructor (objectName: ObjectRef, datapaths: ControlProps.ControlPaths, bindInfos: seq<MMDBindInfo>,
                 poseBones: map<string, PoseBone>, editBones: EditBones.EditBoneMap)
      ensures this.objectName == objectName && this.datapaths == datapaths && this.bindInfos == bindInfos
      ensures this.poseBones == poseBones && this.editBones == editBones
    {
      this.objectName := objectName;
      this.datapaths := datapaths;
      this.bindInfos := bindInfos;
      this.poseBones := poseBones;
      this.editBones := editBones;
    }

    /** Replaces constraint `i` of `bone`. */
    method PutConstraint(bone: string, i: nat, c: Constraint)
      requires bone in poseBones && i < |poseBones[bone].constraints|
      modifies this`poseBones
      ensures poseBones == old(poseBones)[bone := WithConstraintAt(old(poseBones)[bone], i, c)]
    {
      poseBones := poseBones[bone := WithConstraintAt(poseBones[bone], i, c)];
    }

    // ------------------------------------------------------------ drivers

    /** add_driver on constraint `i` of `bone`: each variable is appended to the driver on
        `path`, then the expression is set. */
    method AddDriver(bone: string, i: nat, path: string, expression: string, vars: seq<DriverVariable>)
      requires bone in poseBones && i < |poseBones[bone].constraints|
      modifies this`poseBones
      ensures poseBones == old(poseBones)[bone := WithConstraintAt(old(poseBones)[bone], i,
                             WithDriver(old(poseBones)[bone].constraints[i], path, expression, vars))]
    {
      var c := poseBones[bone].constraints[i];
      var driver := DriverOn(c, path);
      var variables := driver.variables;
      var k := 0;
      while k < |vars|
        invariant 0 <= k <= |vars|
        invariant variables == driver.variables + vars[..k]
      {
        variables := variables + [vars[k]];
        k := k + 1;
        assert vars[..k] == vars[..k - 1] + [vars[k - 1]];
      }
      assert vars[..k] == vars;
      PutConstraint(bone, i, c.(drivers := c.drivers[path := Driver(expression, variables)]));
    }

    /** add_influence_driver on constraint `i` of `bone`. */
    method AddInfluenceDriver(bone: string, i: nat, target: ObjectRef, dataPath: string, invert: bool)
      requires bone in poseBones && i < |poseBones[bone].constraints|
      modifies this`poseBones
      ensures poseBones == old(poseBones)[bone := WithConstraintAt(old(poseBones)[bone], i,
                             WithInfluenceDriver(old(poseBones)[bone].constraints[i], target, dataPath, invert))]
    {
      var variable := DriverVariable(InfluenceVariable, target, dataPath);
      AddDriver(bone, i, InfluencePath, InfluenceExpression(invert), [variable]);
    }

    /** update_influence_driver on constraint `i` of `bone`: driver_remove, then
        add_influence_driver. */
    method UpdateInfluenceDriver(bone: string, i: nat, target: ObjectRef, dataPath: string, invert: bool)
      requires bone in poseBones && i < |poseBones[bone].constraints|
      modifies this`poseBones
      ensures poseBones == old(poseBones)[bone := WithConstraintAt(old(poseBones)[bone], i,
                             UpdatedInfluenceDriver(old(poseBones)[bone].constraints[i], target, dataPath, invert))]
    {
      var c := poseBones[bone].constraints[i];
      PutConstraint(bone, i, WithoutDriver(c, InfluencePath));
      AddInfluenceDriver(bone, i, target, dataPath, invert);
      ReplaceTwice(old(poseBones)[bone], i, WithoutDriver(c, InfluencePath), UpdatedInfluenceDriver(c, target, dataPath, invert));
    }

    // ------------------------------------------------------------ constraints

    /** add_constraint: a new constraint of type `kind` named `name` is appended to the stack of
        `bone` and every keyword is assigned; its index is returned. A keyword that repeats one
        of the function's own parameters is Python's duplicate-keyword TypeError, and nothing
        changes. */
    method AddConstraint(bone: string, kind: string, name: string, kwargs: Kwargs) returns (r: Result<nat, Error>)
      requires bone in poseBones && "type" !in kwargs
      modifies this`poseBones
      ensures r.Ok? <==> kwargs.Keys !! AddConstraintParams
      ensures r.Err? ==> r.error == DuplicateKeyword && poseBones == old(poseBones)
      ensures r.Ok? ==> r.value == |old(poseBones)[bone].constraints|
      ensures r.Ok? ==> poseBones == old(poseBones)[bone := AppendConstraint(old(poseBones)[bone],
                                       Assigned(NewConstraint(kind, name), kwargs))]
    {
      if !(kwargs.Keys !! AddConstraintParams) {
        return Err(DuplicateKeyword);
      }
      assert HostAssignable(kwargs);
      var c := SetAttributes(NewConstraint(kind, name), kwargs);
      r := Ok(|poseBones[bone].constraints|);
      poseBones := poseBones[bone := AppendConstraint(poseBones[bone], c)];
    }

    /** edit_constraints: every keyword is assigned to each constraint of type `kind` on `bone`,
        in stack order; a keyword that repeats one of the function's parameters is the
        duplicate-keyword TypeError. */
    method EditConstraints(bone: string, kind: string, kwargs: Kwargs) returns (r: Outcome<Error>)
      requires bone in poseBones && HostAssignable(kwargs)
      modifies this`poseBones
      ensures r.Pass? <==> kwargs.Keys !! EditConstraintsParams
      ensures r.Fail? ==> r.error == DuplicateKeyword && poseBones == old(poseBones)
      ensures r.Pass? ==> poseBones == old(poseBones)[bone := old(poseBones)[bone].(
                            constraints := EditedStack(old(poseBones)[bone].constraints, kind, kwargs))]
    {
      if !(kwargs.Keys !! EditConstraintsParams) {
        return Fail(DuplicateKeyword);
      }
      var stack := poseBones[bone].constraints;
      ghost var es := EditedStack(stack, kind, kwargs);
      var i := 0;
      while i < |stack|
        invariant 0 <= i <= |stack| == |es| && poseBones == old(poseBones)
        invariant forall j :: 0 <= j < i ==> stack[j] == es[j]
        invariant forall j :: i <= j < |stack| ==> stack[j] == old(poseBones)[bone].constraints[j]
      {
        if stack[i].kind == kind {
          var edited := SetAttributes(stack[i], kwargs);
          stack := stack[i := edited];
        }
        i := i + 1;
      }
      assert stack == es;
      poseBones := poseBones[bone := poseBones[bone].(constraints := stack)];
      r := Pass;
    }

    /** The add_copy_*_constraint helpers: a constraint of the helper's type and fixed name,
        copying from `subtarget` of `target` with both spaces set to `space`, driven by the
        influence at `dataPath`. Keywords that repeat a parameter of the helper or one it passes
        on are the duplicate-keyword TypeError. */
    method AddCopyConstraint(kind: CopyKind, bone: string, target: ObjectRef, subtarget: string, space: string,
                             dataPath: string, invert: bool, kwargs: Kwargs) returns (r: Result<nat, Error>)
      requires bone in poseBones && "type" !in kwargs
      modifies this`poseBones
      ensures r.Ok? <==> kwargs.Keys !! CopyHelperParams
      ensures r.Err? ==> r.error == DuplicateKeyword && poseBones == old(poseBones)
      ensures r.Ok? ==> r.value == |old(poseBones)[bone].constraints|
      ensures r.Ok? ==> poseBones == old(poseBones)[bone := AppendConstraint(old(poseBones)[bone],
                                       CopyConstraint(kind, target, subtarget, space, dataPath, invert, kwargs))]
    {
      if !(kwargs.Keys !! CopyHelperParams) {
        return Err(DuplicateKeyword);
      }
      assert HostAssignable(kwargs);
      CopyFieldsPass(target, subtarget, space, kwargs);
      CopyConstraintBuilt(poseBones[bone], kind, target, subtarget, space, dataPath, invert, kwargs);
      r := AddConstraint(bone, kind.TypeName(), kind.ConstraintName(), CopyFields(target, subtarget, space) + kwargs);
      AddInfluenceDriver(bone, r.value, target, dataPath, invert);
    }

    /** add_ik_constraint: an IK constraint named `mmd_uuunyaa_ik_mmd` towards `subtarget` of
        `target`, driven by the influence at `dataPath`; duplicate keywords fail as above. */
    method AddIkConstraint(bone: string, target: ObjectRef, subtarget: string, dataPath: string,
                           chainCount: int, iterations: int, invert: bool, kwargs: Kwargs) returns (r: Result<nat, Error>)
      requires bone in poseBones && "type" !in kwargs
      modifies this`poseBones
      ensures r.Ok? <==> kwargs.Keys !! IkHelperParams
      ensures r.Err? ==> r.error == DuplicateKeyword && poseBones == old(poseBones)
      ensures r.Ok? ==> r.value == |old(poseBones)[bone].constraints|
      ensures r.Ok? ==> poseBones == old(poseBones)[bone := AppendConstraint(old(poseBones)[bone],
                                       IkConstraint(target, subtarget, dataPath, chainCount, iterations, invert, kwargs))]
    {
      if !(kwargs.Keys !! IkHelperParams) {
        return Err(DuplicateKeyword);
      }
      assert HostAssignable(kwargs);
      IkFieldsPass(target, subtarget, chainCount, iterations, kwargs);
      IkConstraintBuilt(poseBones[bone], target, subtarget, dataPath, chainCount, iterations, invert, kwargs);
      r := AddConstraint(bone, IkTypeName, IkConstraintName, IkFields(target, subtarget, chainCount, iterations) + kwargs);
      AddInfluenceDriver(bone, r.value, target, dataPath, invert);
    }

    /** remove_constraints over the pose bones named in `names` (the dict the caller passes): each
        of their stacks keeps exactly its constraints that are not the add-on's, in order, and
        every other bone is left alone. */
    method RemoveConstraints(names: set<string>)
      requires names <= poseBones.Keys
      modifies this`poseBones
      ensures poseBones.Keys == old(poseBones).Keys
      ensures forall b :: b in names ==>
                poseBones[b] == old(poseBones)[b].(constraints := WithoutManaged(old(poseBones)[b].constraints))
      ensures forall b :: b in poseBones && b !in names ==> poseBones[b] == old(poseBones)[b]
    {
      var todo := names;
      while todo != {}
        invariant todo <= names && poseBones.Keys == old(poseBones).Keys
        invariant forall b :: b in poseBones ==>
                    poseBones[b] == if b in names && b !in todo
                                    then old(poseBones)[b].(constraints := WithoutManaged(old(poseBones)[b].constraints))
                                    else old(poseBones)[b]
        decreases todo
      {
        var b :| b in todo;
        var survivors := Survivors(poseBones[b].constraints);
        poseBones := poseBones[b := poseBones[b].(constraints := survivors)];
        todo := todo - {b};
      }
    }

    // ------------------------------------------------------------ edit bones

    /** get_or_create_bone: the edit bone named `name`, created when missing. */
    method GetOrCreateBone(name: string) returns (b: EditBones.EditBone)
      modifies this`editBones
      ensures editBones == EditBones.GotOrCreated(old(editBones), name)
      ensures b == editBones[name]
    {
      if name !in editBones {
        editBones := editBones[name := EditBones.NewEditBone];
      }
      b := editBones[name];
    }

    /** insert_edit_bone(e, p): every child of `p` is re-parented to `e`, then `e` is parented
        to `p`. */
    method InsertEditBone(e: string, p: string)
      requires e in editBones && p in editBones
      modifies this`editBones
      ensures editBones == EditBones.Inserted(old(editBones), e, p)
    {
      var children := EditBones.Children(editBones, p);
      var todo := children;
      while todo != {}
        invariant todo <= children && editBones.Keys == old(editBones).Keys
        invariant forall x :: x in editBones ==>
                    editBones[x] == if x in children && x !in todo then EditBones.EditBone(Some(e)) else old(editBones)[x]
        decreases todo
      {
        var x :| x in todo;
        editBones := editBones[x := EditBones.EditBone(Some(e))];
        todo := todo - {x};
      }
      editBones := editBones[e := EditBones.EditBone(Some(p))];
    }

    // ------------------------------------------------------------ MMD bone names

    /** assign_mmd_bone_names: builds the MMD-name to pose-bone mapping from the bind
        descriptors and the overrides, clears every tag that is one of its names, then writes
        each name onto its pose bone when that bone exists. */
    method AssignMmdBoneNames(overrides: Option<seq<(string, string)>>)
      modifies this`poseBones
      ensures poseBones == BoneNames.AssignedTags(old(poseBones), BoneNames.BindMapping(bindInfos, overrides))
    {
      var m := BoneNames.BindMapping(bindInfos, overrides);
      ClearTags(BoneNames.KeySet(m));
      WriteTags(m);
    }

    /** The first loop of assign_mmd_bone_names: every tag in `managed` becomes empty. */
    method ClearTags(managed: set<string>)
      modifies this`poseBones
      ensures poseBones == BoneNames.ClearedTags(old(poseBones), managed)
    {
      var todo := poseBones.Keys;
      while todo != {}
        invariant todo <= poseBones.Keys && poseBones.Keys == old(poseBones).Keys
        invariant forall b :: b in poseBones ==>
                    poseBones[b] == if b in todo then old(poseBones)[b] else BoneNames.ClearedTags(old(poseBones), managed)[b]
        decreases todo
      {
        var b :| b in todo;
        if poseBones[b].nameJ in managed {
          poseBones := poseBones[b := poseBones[b].(nameJ := "")];
        }
        todo := todo - {b};
      }
    }

    /** The second loop of assign_mmd_bone_names: each entry of `m`, in order, writes its name
        onto its pose bone when it has one that exists. */
    method WriteTags(m: BoneNames.Mapping)
      modifies this`poseBones
      ensures poseBones == BoneNames.WrittenTags(old(poseBones), m)
    {
      var i := 0;
      while i < |m|
        invariant 0 <= i <= |m|
        invariant poseBones == BoneNames.WrittenTags(old(poseBones), m[..i])
      {
        var entry := m[i];
        assert m[..i + 1][..i] == m[..i];
        if entry.1.Some? && entry.1.value in poseBones {
          poseBones := poseBones[entry.1.value := poseBones[entry.1.value].(nameJ := entry.0)];
        }
        i := i + 1;
      }
      assert m[..i] == m;
    }

    // ------------------------------------------------------------ control properties

    /** add_prop on `bone`: the property is created with its default and its range. */
    method AddProp(bone: string, name: string, default: real, min: real, max: real)
      requires bone in poseBones
      modifies this`poseBones
      ensures poseBones == old(poseBones)[bone := WithProp(old(poseBones)[bone], name, default, min, max)]
    {
      poseBones := poseBones[bone := WithProp(poseBones[bone], name, default, min, max)];
    }

    /** create_props on the storage bone: one default property per bind, eye, leg and toe
        control that the rig variant has. */
    method CreateProps(storage: string)
      requires storage in poseBones
      modifies this`poseBones
      ensures poseBones == old(poseBones)[storage := ControlProps.PropsCreated(old(poseBones)[storage], datapaths, PropControls)]
    {
      var i := 0;
      while i < |PropControls|
        invariant 0 <= i <= |PropControls|
        invariant poseBones == old(poseBones)[storage := ControlProps.PropsCreated(old(poseBones)[storage], datapaths, PropControls[..i])]
      {
        var c := PropControls[i];
        assert PropControls[..i + 1] == PropControls[..i] + [c];
        ControlProps.PropsCreatedStep(old(poseBones)[storage], datapaths, PropControls[..i], c);
        var dp := ControlProps.Resolve(datapaths, c);
        if dp.Some? {
          AddProp(storage, dp.value.propName, 0.0, 0.0, 1.0);
        }
        i := i + 1;
      }
      assert PropControls[..i] == PropControls;
    }

    /** _set_property through one of the generated accessors: a no-op when the control is
        absent; a missing bone is the KeyError of the source. */
    method SetProperty(c: ControlType, value: real) returns (r: Outcome<Error>)
      modifies this`poseBones
      ensures ControlProps.WithProperty(old(poseBones), datapaths, c, value).Err? ==>
                r == Fail(ControlProps.WithProperty(old(poseBones), datapaths, c, value).error) && poseBones == old(poseBones)
      ensures ControlProps.WithProperty(old(poseBones), datapaths, c, value).Ok? ==>
                r == Pass && poseBones == ControlProps.WithProperty(old(poseBones), datapaths, c, value).value
    {
      match ControlProps.Resolve(datapaths, c)
      case None =>
        r := Pass;
      case Some(dp) =>
        if dp.boneName !in poseBones {
          r := Fail(MissingBone(dp.boneName));
        } else {
          poseBones := poseBones[dp.boneName := ControlProps.WithValue(poseBones[dp.boneName], dp.propName, value)];
          r := Pass;
        }
    }

    // ------------------------------------------------------------ eye constraints

    /** _add_eye_constraints: four copy-rotation constraints whose influence is the inverted eye
        control; without an eye control the source's indexing raises KeyError and nothing is
        added. */
    method AddEyeConstraints(targetL: string, targetR: string, controlL: string, controlR: string, controlEyes: string)
      returns (r: Outcome<Error>)
      requires targetL in poseBones && targetR in poseBones && controlL in poseBones && controlR in poseBones
      modifies this`poseBones
      ensures r.Fail? <==> EyeMmdUuunyaa !in datapaths
      ensures r.Fail? ==> r.error == MissingControl(EyeMmdUuunyaa) && poseBones == old(poseBones)
      ensures r.Pass? ==> ControlProps.OnBones(old(poseBones), ControlProps.EyeChain(objectName, datapaths[EyeMmdUuunyaa],
                            targetL, targetR, controlL, controlR, controlEyes))
      ensures r.Pass? ==> poseBones == ControlProps.WithChain(old(poseBones), ControlProps.EyeChain(objectName,
                            datapaths[EyeMmdUuunyaa], targetL, targetR, controlL, controlR, controlEyes))
    {
      if EyeMmdUuunyaa !in datapaths {
        return Fail(MissingControl(EyeMmdUuunyaa));
      }
      ghost var chain := ControlProps.EyeChain(objectName, datapaths[EyeMmdUuunyaa], targetL, targetR, controlL, controlR, controlEyes);
      ControlProps.EyeChainOnBones(poseBones, objectName, datapaths[EyeMmdUuunyaa], targetL, targetR, controlL, controlR, controlEyes);
      ControlProps.ChainStep(poseBones, chain, 0);
      // The four add_copy_rotation_constraint calls of the source, in their order.
      for k := 0 to 4
        invariant poseBones == ControlProps.ChainPrefix(old(poseBones), chain, k)
      {
        AddEyeStep(old(poseBones), chain, k, targetL, targetR, controlL, controlR, controlEyes);
      }
      ControlProps.ChainStep(old(poseBones), chain, 3);
      r := Pass;
    }

    /** Call `k` of _add_eye_constraints: add_copy_rotation_constraint on the bone of step `k`
        towards its subtarget, in local space, with the inverted eye-control influence and, for
        the control bones, `mix_mode='ADD'`. */
    method AddEyeStep(ghost start: map<string, PoseBone>, ghost chain: seq<(string, Constraint)>, k: nat,
                      targetL: string, targetR: string, controlL: string, controlR: string, controlEyes: string)
      requires EyeMmdUuunyaa in datapaths && k < 4
      requires chain == ControlProps.EyeChain(objectName, datapaths[EyeMmdUuunyaa], targetL, targetR, controlL, controlR, controlEyes)
      requires ControlProps.OnBones(start, chain) && poseBones == ControlProps.ChainPrefix(start, chain, k)
      modifies this`poseBones
      ensures poseBones == ControlProps.ChainPrefix(start, chain, k + 1)
    {
      ControlProps.ChainStep(start, chain, k);
      var step := ControlProps.EyeSteps(targetL, targetR, controlL, controlR, controlEyes)[k];
      var path := ControlProps.EyeDataPath(datapaths[EyeMmdUuunyaa]);
      var _ := AddCopyConstraint(CopyRotation, step.0, objectName, step.1, "LOCAL", path, true, ControlProps.EyeKwargs(step.2));
    }
  }
}
