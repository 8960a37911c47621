# Rig binding of MMD UuuNyaa Tools, in Dafny

This project models the rig-binding layer of the armature editor in MMD UuuNyaa Tools
(`mmd_uuunyaa_tools/editors/armatures/__init__.py`) and proves properties of it. That layer is
the code that turns a rig variant into an MMD-compatible armature:

- the catalog of standard MMD bones and the list of user-facing controls;
- the data paths of control properties;
- the `PoseUtil` constraint-stack helpers: adding, listing, editing and removing constraints,
  and their influence drivers;
- the small pure helpers of `ArmatureObjectABC`: the side suffix of a bone name, the angle of a
  vector in a plane, and getting or creating an edit bone;
- the `RichArmatureObjectABC` operations: creating control properties, re-parenting edit bones,
  reassigning MMD name tags, wiring the eye constraints, and reading and writing a control.

The Blender runtime is replaced by plain values. A pose bone is a record of its MMD name tag
(`name_j`), its constraint stack and its custom properties. A constraint is a record of its
type, its name, its keyword-set attributes and its drivers. An edit bone is its optional
parent. The armature object is the class `Armatures.RichArmature`. It holds the pose-bone map and
the edit-bone map, which its methods update in place. It also holds the rig variant's
`datapaths` and `mmd_bind_infos` tables; the source defines those in subclasses, so here they
are constructor parameters.

Each method of the class is proved against a function on values in modules `PoseUtil`,
`BoneNames`, `EditBones` and `ControlProps`. The lemmas beside those functions state what the
source promises.

Files:

- `wrappers.dfy`: Option, Result, Outcome.
- `errors.dfy`: the errors the source raises.
- `catalog.dfy`: `MMDBoneType`, `MMDBoneInfo`, `GroupType`, `MMDBindType`, `MMDBindInfo`,
  `ControlType`.
- `datapath.dfy`: `DataPath`.
- `geometry.dfy`: `to_bone_suffix`, `to_angle`.
- `pose_util.dfy`: the `PoseUtil` functions and lemmas.
- `edit_bones.dfy`: the edit-bone tree.
- `bone_names.dfy`: `assign_mmd_bone_names`.
- `control_props.dfy`: control properties and the eye chain.
- `armature.dfy`: the class.

The 左 and 右 members of the `MMDBoneInfo` enumeration are paired: each pair has the same bone
type and the same name apart from the side character. The catalog therefore has one
constructor per centre bone and a `Sided(side, part)` constructor over the forty parts. The
left/right symmetry lemmas follow from that encoding. What they add is that only names starting
with 左 or 右 are sided. `NamesUnique` is proved over the concrete names.

Each managed MMD name tags at most one pose bone after `assign_mmd_bone_names`. This holds when
no override key is the empty string. An override keyed `""` matches every tag that the first
loop cleared, so it is excluded by hypothesis (`BoneNames.BindAtMostOneBonePerName`).

Python keyword arguments are a `map<string, AttrValue>`; their keys are unique, so the order of
the `setattr` loop does not change the result. Python rejects a call when a keyword repeats a
parameter, with "got multiple values for keyword argument". The model has this as the
`DuplicateKeyword` error of `add_constraint`, `edit_constraints` and the typed helpers. Because
of that rule, a typed helper can never lose its fixed name or its equal spaces.

## Model

All source paths are in `mmd_uuunyaa_tools/editors/armatures/__init__.py`.

| member | source | states |
|---|---|---|
| Catalog.Mirror | mmd_uuunyaa_tools/editors/armatures/__init__.py:41-153 | an entry whose name starts with 左 or 右 has a mirror, and only such an entry; the mirror is its twin, with the same MMDBoneType and the same name with 左 and 右 swapped |
| Catalog.MMDBoneInfo.Info | mmd_uuunyaa_tools/editors/armatures/__init__.py:47-147 | the bone type and Japanese name of each entry: the centre entries as the table lists them, a paired entry as its side character followed by its part's name |
| Catalog.SidedPart.Info | mmd_uuunyaa_tools/editors/armatures/__init__.py:58-147 | the bone type and side-less name shared by each 左/右 pair of the table |
| Catalog.MMDBoneInfo.MmdBoneName | mmd_uuunyaa_tools/editors/armatures/__init__.py:45 | the `mmd_bone_name` field; every name is non-empty |
| Catalog.MMDBoneInfo.BoneType | mmd_uuunyaa_tools/editors/armatures/__init__.py:44 | the `bone_type` field |
| Catalog.SidedMarks | mmd_uuunyaa_tools/editors/armatures/__init__.py:41-153 | a catalog name starts with 左 or 右 exactly when the entry is sided, and that character is its side's mark |
| Catalog.MirrorInvolutive | mmd_uuunyaa_tools/editors/armatures/__init__.py:41-153 | the mirror is itself sided, and mirroring twice gives the entry back |
| Catalog.SidedEntryHasTwin | mmd_uuunyaa_tools/editors/armatures/__init__.py:41-153 | every 左… entry has a 右… entry, and every 右… entry a 左… entry, with the rest of the name equal and the same MMDBoneType |
| Catalog.BoneNamedInverts | mmd_uuunyaa_tools/editors/armatures/__init__.py:41-147 | reading an entry's MMD name (side character, then part name, or a centre name) gives that entry back |
| Catalog.NamesUnique | mmd_uuunyaa_tools/editors/armatures/__init__.py:41-147 | no two catalog entries share an MMD name |
| Catalog.ControlsPartition | mmd_uuunyaa_tools/editors/armatures/__init__.py:207-233 | each control is either one of the six create_props controls or has a generated accessor, never both |
| Catalog.PropControlsHaveNoAccessor | mmd_uuunyaa_tools/editors/armatures/__init__.py:460-465 | the bind, eye, leg and toe controls have no generated accessor |
| Catalog.OtherControlsHaveAccessor | mmd_uuunyaa_tools/editors/armatures/__init__.py:541-699 | every other control has a generated accessor |
| DataPaths.DataPath.FullDataPath | mmd_uuunyaa_tools/editors/armatures/__init__.py:194-204 | data_path is bone_data_path followed by prop_data_path |
| DataPaths.DataPath.BoneDataPath | mmd_uuunyaa_tools/editors/armatures/__init__.py:194-196 | bone_data_path: the bone name inside `["` and `"]` |
| DataPaths.DataPath.PropDataPath | mmd_uuunyaa_tools/editors/armatures/__init__.py:198-200 | prop_data_path: the property name inside `["` and `"]` |
| DataPaths.DataPathDeterminesNames | mmd_uuunyaa_tools/editors/armatures/__init__.py:194-204 | when bone names hold no quote, two data paths are equal exactly when both their bone and property names are |
| Geometry.ToBoneSuffix | mmd_uuunyaa_tools/editors/armatures/__init__.py:408-416 | None exactly when `[_.][lLrR]$` has no match; otherwise "L" for l/L and "R" for r/R at the match, counting Python's `$` before a final newline |
| Geometry.LeftSuffixIff | mmd_uuunyaa_tools/editors/armatures/__init__.py:408-416 | for a name without a final newline, the suffix is "L" exactly when the name ends in `_` or `.` and then l or L |
| Geometry.SuffixExamples | mmd_uuunyaa_tools/editors/armatures/__init__.py:408-416 | `_L` gives L, `.r` gives R, and `armL` (no separator) and `Spine` give None |
| Geometry.ToAngle | mmd_uuunyaa_tools/editors/armatures/__init__.py:442-452 | XZ uses (z, x), XY uses (y, x), YZ uses (z, y); any other plane tag is the ValueError, and only then |
| Geometry.ToAngleIgnoresNormal | mmd_uuunyaa_tools/editors/armatures/__init__.py:442-452 | the angle depends only on the two components that span the plane |
| PoseUtil.InfluenceExpression | mmd_uuunyaa_tools/editors/armatures/__init__.py:255-257 | the expression is `1-mmd_uuunyaa_influence` exactly when inverted and `+mmd_uuunyaa_influence` exactly when not |
| PoseUtil.DriverOn | mmd_uuunyaa_tools/editors/armatures/__init__.py:246 | the driver that driver_add returns: the one already on the path, or a new empty one |
| PoseUtil.WithDriver | mmd_uuunyaa_tools/editors/armatures/__init__.py:245-252 | add_driver: the driver on the path gets the variables appended and then the expression set |
| PoseUtil.WithDriverChanges | mmd_uuunyaa_tools/editors/armatures/__init__.py:245-252 | add_driver sets the expression, makes the variables those already there followed by the new ones, and keeps type, name, attributes and every other driver |
| PoseUtil.WithInfluenceDriver | mmd_uuunyaa_tools/editors/armatures/__init__.py:255-257 | add_influence_driver: add_driver on `influence` with the one `mmd_uuunyaa_influence` variable |
| PoseUtil.WithInfluenceDriverChanges | mmd_uuunyaa_tools/editors/armatures/__init__.py:255-257 | the influence driver gets the expression for the inversion flag and ends with the variable reading the data path of the target; the rest of the constraint is kept |
| PoseUtil.WithoutDriver | mmd_uuunyaa_tools/editors/armatures/__init__.py:261 | driver_remove: the driver on the path is gone, every other driver and field is kept |
| PoseUtil.UpdatedInfluenceDriver | mmd_uuunyaa_tools/editors/armatures/__init__.py:260-262 | after update the influence driver reads exactly one variable, the new one; type, name, attributes and other drivers are unchanged |
| PoseUtil.UpdateReplaces | mmd_uuunyaa_tools/editors/armatures/__init__.py:260-262 | updating twice is the same as updating once with the last arguments |
| PoseUtil.AddingTwiceStacks | mmd_uuunyaa_tools/editors/armatures/__init__.py:245-257 | adding an influence driver twice, with no remove in between, leaves two variables on the one driver |
| PoseUtil.NewInfluenceDriver | mmd_uuunyaa_tools/editors/armatures/__init__.py:245-257 | on a constraint with no drivers, add_influence_driver leaves exactly the influence driver |
| PoseUtil.Assigned | mmd_uuunyaa_tools/editors/armatures/__init__.py:287-293 | the setattr loop: `name` renames, every other keyword sets that attribute and the rest are kept; type and drivers are untouched |
| PoseUtil.NewConstraint | mmd_uuunyaa_tools/editors/armatures/__init__.py:289-290 | constraints.new then the name assignment: a constraint of that type and name with no attributes and no drivers |
| PoseUtil.AppendConstraint | mmd_uuunyaa_tools/editors/armatures/__init__.py:288-289 | the pose bone's stack with the new constraint at the end |
| PoseUtil.SetAttributes | mmd_uuunyaa_tools/editors/armatures/__init__.py:291-292 | the loop over the keywords computes Assigned |
| PoseUtil.AppendConstraintExactly | mmd_uuunyaa_tools/editors/armatures/__init__.py:287-293 | appending adds exactly one constraint, at the end; earlier constraints, the tag and the properties are unchanged |
| PoseUtil.KeptIndices | mmd_uuunyaa_tools/editors/armatures/__init__.py:296-299 | a filter is the stack read at an increasing sequence of indices that covers exactly the matching positions, so stack order is kept |
| PoseUtil.ListConstraints | mmd_uuunyaa_tools/editors/armatures/__init__.py:296-299 | list_constraints yields exactly the constraints of the given type |
| PoseUtil.ListAfterAppend | mmd_uuunyaa_tools/editors/armatures/__init__.py:287-299 | after an append, the listing gains the new constraint at its end when the types match, and is unchanged otherwise |
| PoseUtil.EditedStack | mmd_uuunyaa_tools/editors/armatures/__init__.py:302-305 | same length and types; constraints of the type get every keyword assigned and every other constraint is unchanged |
| PoseUtil.EditNoMatchIsNoop | mmd_uuunyaa_tools/editors/armatures/__init__.py:302-305 | when no constraint has the type, edit_constraints changes nothing |
| PoseUtil.ListAfterEdit | mmd_uuunyaa_tools/editors/armatures/__init__.py:296-305 | listing after edit_constraints gives the earlier listing with the keywords assigned to each |
| PoseUtil.ListOtherAfterEdit | mmd_uuunyaa_tools/editors/armatures/__init__.py:296-305 | the listing of any other type is unchanged by edit_constraints |
| PoseUtil.CopyKind.ConstraintName | mmd_uuunyaa_tools/editors/armatures/__init__.py:308-360 | every copy helper's constraint name carries the `mmd_uuunyaa_` prefix |
| PoseUtil.CopyKind.TypeName | mmd_uuunyaa_tools/editors/armatures/__init__.py:311-353 | the constraint type each copy helper creates: COPY_TRANSFORMS, COPY_ROTATION, COPY_LOCATION, COPY_SCALE |
| PoseUtil.CopyFields | mmd_uuunyaa_tools/editors/armatures/__init__.py:312-315 | the keywords a copy helper passes on: target, subtarget and one space for both target_space and owner_space |
| PoseUtil.IkFields | mmd_uuunyaa_tools/editors/armatures/__init__.py:369-372 | the keywords add_ik_constraint passes on: target, subtarget, chain_count and iterations |
| PoseUtil.CopyConstraint | mmd_uuunyaa_tools/editors/armatures/__init__.py:308-360 | the copy helper's constraint has the helper's type and prefixed name, target and subtarget, `target_space == owner_space == space`, the extra keywords, and only the influence driver |
| PoseUtil.CopyFieldsPass | mmd_uuunyaa_tools/editors/armatures/__init__.py:308-318 | the keywords a copy helper passes on are assignable and never clash with add_constraint's parameters |
| PoseUtil.CopyConstraintBuilt | mmd_uuunyaa_tools/editors/armatures/__init__.py:308-320 | add_constraint followed by add_influence_driver appends exactly CopyConstraint |
| PoseUtil.IkConstraint | mmd_uuunyaa_tools/editors/armatures/__init__.py:365-376 | the IK constraint has type IK, the name `mmd_uuunyaa_ik_mmd`, target, subtarget, chain_count, iterations, the extra keywords and only the influence driver |
| PoseUtil.IkFieldsPass | mmd_uuunyaa_tools/editors/armatures/__init__.py:365-374 | the keywords add_ik_constraint passes on are assignable and never clash with add_constraint's parameters |
| PoseUtil.IkConstraintBuilt | mmd_uuunyaa_tools/editors/armatures/__init__.py:365-376 | add_constraint followed by add_influence_driver appends exactly IkConstraint |
| PoseUtil.WithoutManaged | mmd_uuunyaa_tools/editors/armatures/__init__.py:379-384 | removal keeps exactly the constraints without the `mmd_uuunyaa_` prefix |
| PoseUtil.Survivors | mmd_uuunyaa_tools/editors/armatures/__init__.py:380-384 | the loop over one stack computes WithoutManaged |
| PoseUtil.RemovalUndoesManagedAppends | mmd_uuunyaa_tools/editors/armatures/__init__.py:379-384 | removal after appending any prefixed constraints gives the same result as removal before them |
| PoseUtil.RemovalIdempotent | mmd_uuunyaa_tools/editors/armatures/__init__.py:379-384 | removing twice is removing once |
| PoseUtil.HelperConstraintsRemovable | mmd_uuunyaa_tools/editors/armatures/__init__.py:308-384 | whatever the copy and IK helpers append, remove_constraints takes away again |
| PoseUtil.RemovedWhileWalking | mmd_uuunyaa_tools/editors/armatures/__init__.py:380-384 | the as-written loop never drops a constraint without the prefix and never adds one |
| PoseUtil.RemovalWhileWalkingSkips | mmd_uuunyaa_tools/editors/armatures/__init__.py:380-384 | with two adjacent prefixed constraints, the as-written loop leaves the second, which the filter removes |
| PoseUtil.IsManaged | mmd_uuunyaa_tools/editors/armatures/__init__.py:382 | a constraint is the add-on's exactly when its name starts with `mmd_uuunyaa_` |
| PoseUtil.WithProp | mmd_uuunyaa_tools/editors/armatures/__init__.py:265-284 | add_prop: the property gets its default and its `min`/`max` range |
| PoseUtil.WithPropChanges | mmd_uuunyaa_tools/editors/armatures/__init__.py:265-284 | add_prop adds or replaces only that property, with value `default` and range [min, max]; the tag, the constraints and the other properties are kept |
| EditBones.GotOrCreated | mmd_uuunyaa_tools/editors/armatures/__init__.py:435-439 | an existing bone leaves the store unchanged; a missing one adds exactly one bone, without a parent |
| EditBones.Inserted | mmd_uuunyaa_tools/editors/armatures/__init__.py:483-486 | insert_edit_bone as a function of the store: the same bones, re-parented as InsertedParents states |
| EditBones.InsertedParents | mmd_uuunyaa_tools/editors/armatures/__init__.py:483-486 | `e` ends with parent `p`, every former child of `p` other than `e` ends with parent `e`, and every other bone keeps its parent |
| EditBones.InsertedChildren | mmd_uuunyaa_tools/editors/armatures/__init__.py:483-486 | seen from the parents: `p` has only `e` as a child, `e` gains the former children of `p`, and any other bone loses at most `e` |
| BoneNames.Lookup | mmd_uuunyaa_tools/editors/armatures/__init__.py:490 | a key has a value exactly when it is one of the dict's keys |
| BoneNames.LookupFindsItem | mmd_uuunyaa_tools/editors/armatures/__init__.py:490 | a value that lookup finds is the value of an item with that key |
| BoneNames.Put | mmd_uuunyaa_tools/editors/armatures/__init__.py:490-493 | dict assignment: the key then maps to the value and every other key keeps its value |
| BoneNames.PutKeepsOrder | mmd_uuunyaa_tools/editors/armatures/__init__.py:490-493 | an existing key keeps its position and a new one goes at the end; keys stay distinct |
| BoneNames.BindMapping | mmd_uuunyaa_tools/editors/armatures/__init__.py:490-493 | the mapping built from the bind descriptors and the overrides has distinct keys |
| BoneNames.MappingOf | mmd_uuunyaa_tools/editors/armatures/__init__.py:490 | the dict comprehension over the bind descriptors, later ones winning; its keys are distinct |
| BoneNames.WithOverrides | mmd_uuunyaa_tools/editors/armatures/__init__.py:492-493 | `.update` with the overrides, in order; distinct keys stay distinct |
| BoneNames.AssignedTags | mmd_uuunyaa_tools/editors/armatures/__init__.py:488-508 | the clearing loop then the writing loop; the set of pose bones, their constraints and their properties are unchanged |
| BoneNames.MappingLastInfoWins | mmd_uuunyaa_tools/editors/armatures/__init__.py:490 | a standard bone name maps to the pose bone of its last bind descriptor |
| BoneNames.MappingOnlyInfoNames | mmd_uuunyaa_tools/editors/armatures/__init__.py:490 | a name that no bind descriptor has is not in the mapping |
| BoneNames.OverrideWins | mmd_uuunyaa_tools/editors/armatures/__init__.py:492-493 | the last override of a name replaces the bind descriptors' entry |
| BoneNames.OverridesKeepOthers | mmd_uuunyaa_tools/editors/armatures/__init__.py:492-493 | a name that no override mentions keeps its entry from the bind descriptors |
| BoneNames.ClearedTags | mmd_uuunyaa_tools/editors/armatures/__init__.py:495-499 | a tag that is a key of the mapping becomes empty, any other tag is kept, and constraints and properties are untouched |
| BoneNames.WrittenTags | mmd_uuunyaa_tools/editors/armatures/__init__.py:501-508 | the write loop changes only tags, and each one either keeps its value or becomes a key of the mapping |
| BoneNames.WrittenTagsUnique | mmd_uuunyaa_tools/editors/armatures/__init__.py:501-508 | when no tag starts as a managed name, the write loop leaves each managed name on at most one bone |
| BoneNames.AssignedAtMostOneBonePerName | mmd_uuunyaa_tools/editors/armatures/__init__.py:488-508 | after assign_mmd_bone_names each managed MMD name is the tag of at most one pose bone |
| BoneNames.MappingNamesNonEmpty | mmd_uuunyaa_tools/editors/armatures/__init__.py:490 | every key the bind descriptors give is a non-empty MMD name |
| BoneNames.OverridesKeepNonEmpty | mmd_uuunyaa_tools/editors/armatures/__init__.py:492-493 | overrides whose keys are non-empty add no empty key |
| BoneNames.BindAtMostOneBonePerName | mmd_uuunyaa_tools/editors/armatures/__init__.py:488-508 | with the mapping the method builds and no empty override key, each MMD name ends on at most one pose bone |
| BoneNames.WrittenUntouched | mmd_uuunyaa_tools/editors/armatures/__init__.py:501-508 | a bone that no entry targets keeps its tag through the write loop |
| BoneNames.WrittenLastTargetWins | mmd_uuunyaa_tools/editors/armatures/__init__.py:501-508 | an existing target bone carries the name of the last entry that maps to it |
| BoneNames.AssignedLastTargetWins | mmd_uuunyaa_tools/editors/armatures/__init__.py:488-508 | a mapped, existing bone carries its name unless a later entry maps another name to it; entries with None or a missing bone are skipped |
| BoneNames.AssignedUntargeted | mmd_uuunyaa_tools/editors/armatures/__init__.py:488-508 | a bone that no entry targets keeps an unmanaged tag and loses a managed one |
| ControlProps.Resolve | mmd_uuunyaa_tools/editors/armatures/__init__.py:527 | `datapaths.get` is the entry when present and None when the feature is absent |
| ControlProps.PropertyOf | mmd_uuunyaa_tools/editors/armatures/__init__.py:526-530 | _get_property gives None exactly for an absent control; otherwise a missing bone is the KeyError for the bone, a missing property the KeyError for the property, and a present property reads its stored value |
| ControlProps.WithValue | mmd_uuunyaa_tools/editors/armatures/__init__.py:536 | `pose_bone[prop] = value`: that property has the new value and keeps an existing UI range; the tag, the constraints and every other property are kept |
| ControlProps.WithProperty | mmd_uuunyaa_tools/editors/armatures/__init__.py:532-536 | _set_property is a no-op for an absent control and fails exactly when the control's bone is missing; otherwise that bone becomes WithValue of itself and every other bone is unchanged |
| ControlProps.SetThenGet | mmd_uuunyaa_tools/editors/armatures/__init__.py:526-536 | when the datapath and its bone exist, a set followed by a get returns the value set |
| ControlProps.SetLeavesOtherControls | mmd_uuunyaa_tools/editors/armatures/__init__.py:526-536 | a set changes the reading of no other control stored elsewhere |
| ControlProps.SetKeepsRange | mmd_uuunyaa_tools/editors/armatures/__init__.py:536 | a set keeps the UI range of the property it overwrites |
| ControlProps.PropsCreated | mmd_uuunyaa_tools/editors/armatures/__init__.py:460-470 | exactly one property per control that has a datapath, with default 0 and range [0, 1]; every other property, the tag and the constraints are unchanged |
| ControlProps.PropsCreatedStep | mmd_uuunyaa_tools/editors/armatures/__init__.py:466-470 | one more control adds its property when the variant has it and nothing otherwise |
| ControlProps.CreateThenGet | mmd_uuunyaa_tools/editors/armatures/__init__.py:460-470 | after create_props, each of its controls stored on the storage bone reads 0 |
| ControlProps.EyeKwargs | mmd_uuunyaa_tools/editors/armatures/__init__.py:523-524 | the eye calls' extra keyword (`mix_mode`) is assignable and never clashes with the helper's parameters |
| ControlProps.EyeConstraint | mmd_uuunyaa_tools/editors/armatures/__init__.py:520-524 | an eye constraint is a prefixed COPY_ROTATION towards its subtarget in LOCAL spaces, with `mix_mode = ADD` exactly on the control bones, and an inverted influence driver |
| ControlProps.EyeDataPath | mmd_uuunyaa_tools/editors/armatures/__init__.py:520 | the driver path of the eye control: `pose.bones` followed by its data_path |
| ControlProps.EyeSteps | mmd_uuunyaa_tools/editors/armatures/__init__.py:521-524 | the four calls' bone, subtarget and `mix_mode='ADD'` flag, in source order |
| ControlProps.EyeChain | mmd_uuunyaa_tools/editors/armatures/__init__.py:520-524 | each step's bone paired with its eye constraint on the shared data path |
| ControlProps.EyeChainShape | mmd_uuunyaa_tools/editors/armatures/__init__.py:520-524 | the chain has four steps: left and right eye under their controls, then both controls under the shared eyes control with ADD |
| ControlProps.WithChain | mmd_uuunyaa_tools/editors/armatures/__init__.py:521-524 | appending a chain of constraints keeps the set of bones |
| ControlProps.WithChainAppends | mmd_uuunyaa_tools/editors/armatures/__init__.py:521-524 | each bone's stack gains exactly the chain's constraints for it, in chain order |
| ControlProps.AddedForManaged | mmd_uuunyaa_tools/editors/armatures/__init__.py:521-524 | a chain of prefixed constraints appends only prefixed constraints to each bone |
| ControlProps.ChainRemovable | mmd_uuunyaa_tools/editors/armatures/__init__.py:379-384 | removal after a chain of prefixed constraints gives each bone's earlier result |
| ControlProps.EyeChainRemovable | mmd_uuunyaa_tools/editors/armatures/__init__.py:514-524 | remove_constraints takes away everything _add_eye_constraints adds |
| ControlProps.EyeChainOnBones | mmd_uuunyaa_tools/editors/armatures/__init__.py:514-524 | every step of the eye chain is on one of the four given pose bones |
| ControlProps.ChainPrefix | mmd_uuunyaa_tools/editors/armatures/__init__.py:521-524 | after the first k calls the set of bones is unchanged |
| ControlProps.ChainStep | mmd_uuunyaa_tools/editors/armatures/__init__.py:521-524 | no calls leave the bones as they were, all calls give the whole chain, and call k appends step k's constraint to step k's bone |
| Armatures.RichArmature.constructor | mmd_uuunyaa_tools/editors/armatures/__init__.py:391-393 | the object, its tables and its bone stores are those given |
| Armatures.RichArmature.AddDriver | mmd_uuunyaa_tools/editors/armatures/__init__.py:245-252 | the loop appends every variable to the driver on the path and sets its expression; nothing else changes |
| Armatures.RichArmature.AddInfluenceDriver | mmd_uuunyaa_tools/editors/armatures/__init__.py:255-257 | the constraint gets WithInfluenceDriver; nothing else changes |
| Armatures.RichArmature.UpdateInfluenceDriver | mmd_uuunyaa_tools/editors/armatures/__init__.py:260-262 | driver_remove, then add: the constraint becomes UpdatedInfluenceDriver |
| Armatures.RichArmature.AddConstraint | mmd_uuunyaa_tools/editors/armatures/__init__.py:287-293 | a duplicate keyword fails and changes nothing; otherwise the index returned is the old length and exactly the assigned new constraint is appended |
| Armatures.RichArmature.EditConstraints | mmd_uuunyaa_tools/editors/armatures/__init__.py:302-305 | a duplicate keyword fails and changes nothing; otherwise the bone's stack becomes EditedStack |
| Armatures.RichArmature.AddCopyConstraint | mmd_uuunyaa_tools/editors/armatures/__init__.py:308-360 | a duplicate keyword fails and changes nothing; otherwise CopyConstraint is appended at the returned index |
| Armatures.RichArmature.AddIkConstraint | mmd_uuunyaa_tools/editors/armatures/__init__.py:365-376 | a duplicate keyword fails and changes nothing; otherwise IkConstraint is appended at the returned index |
| Armatures.RichArmature.RemoveConstraints | mmd_uuunyaa_tools/editors/armatures/__init__.py:379-384 | each pose bone named in the given dict gets WithoutManaged of its stack; every other bone is unchanged |
| Armatures.RichArmature.GetOrCreateBone | mmd_uuunyaa_tools/editors/armatures/__init__.py:435-439 | the store becomes GotOrCreated and the bone returned is the one stored under the name |
| Armatures.RichArmature.InsertEditBone | mmd_uuunyaa_tools/editors/armatures/__init__.py:483-486 | the re-parenting loop and the final assignment give Inserted |
| Armatures.RichArmature.AssignMmdBoneNames | mmd_uuunyaa_tools/editors/armatures/__init__.py:488-508 | the pose bones become AssignedTags of the mapping built from the bind descriptors and overrides |
| Armatures.RichArmature.ClearTags | mmd_uuunyaa_tools/editors/armatures/__init__.py:495-499 | the clearing loop computes ClearedTags |
| Armatures.RichArmature.WriteTags | mmd_uuunyaa_tools/editors/armatures/__init__.py:501-508 | the writing loop computes WrittenTags, entry by entry in mapping order |
| Armatures.RichArmature.AddProp | mmd_uuunyaa_tools/editors/armatures/__init__.py:265-284 | the property is (re)created with its default and range on that bone only |
| Armatures.RichArmature.CreateProps | mmd_uuunyaa_tools/editors/armatures/__init__.py:460-470 | the storage bone becomes PropsCreated over the six controls in source order |
| Armatures.RichArmature.SetProperty | mmd_uuunyaa_tools/editors/armatures/__init__.py:532-536 | the result and new pose bones are those of WithProperty: a no-op when absent, the KeyError when the bone is missing |
| Armatures.RichArmature.AddEyeConstraints | mmd_uuunyaa_tools/editors/armatures/__init__.py:514-524 | without an eye control it is the KeyError and nothing changes; otherwise the pose bones become WithChain of the four-step eye chain |
| Armatures.RichArmature.AddEyeStep | mmd_uuunyaa_tools/editors/armatures/__init__.py:521-524 | call k of _add_eye_constraints takes the first k steps to the first k + 1 |

## Left out

- Blender itself (`bpy`, `rna_prop_ui`, `mathutils`): pose bones, constraints, drivers and ID
  properties are plain values. Drivers and constraints are never evaluated.
- `to_center`, `to_bone_center`, `to_bone_stretch` and `fit_edit_bone_rotation`: float vector
  and matrix geometry.
- `Geometry.ToAngle`: the numeric value of `math.atan2` is a function parameter. Only the
  choice of components and the error case are modelled.
- The `bones`, `pose_bones`, `pose_bone_groups` and `edit_bones` properties, which only return
  host collections. The class holds the pose and edit bones directly.
- `has_face_bones`, which is abstract. The concrete `datapaths` and `mmd_bind_infos` tables
  belong to subclasses that are not part of this model; they are constructor parameters.
- `PATH_BLENDS_RIGSHAPELIBRARY` and `import_mmd_tools`: a file path and an import.
- Blender's `.001` renaming of duplicate constraint names. The exact constraint names stated
  by `PoseUtil.CopyConstraint`, `PoseUtil.IkConstraint`, `ControlProps.EyeConstraint` and the
  append of `Armatures.RichArmature.AddConstraint` hold for the first constraint of that name
  on a bone. A later one is renamed by the host. The renamed name keeps the `mmd_uuunyaa_`
  prefix, so the prefix properties (`IsManaged`, removal) hold in every case.
- `ControlProps.WithValue`: assigning an existing ID property is assumed to keep its UI
  range. This is host behaviour, and `ControlProps.SetKeepsRange` rests on it.
- `PoseUtil.DriverOn`: `driver_add` on a path that already has a driver is assumed to return
  that driver with its variables. `PoseUtil.AddingTwiceStacks` rests on this host behaviour.
- Python's `__new__` of `MMDBoneInfo`. The catalog is a datatype of the centre entries plus a
  constructor over side × part for the paired entries, so it has no member-by-member
  transcription. `Info()` gives each entry's bone type and Japanese name as the table does.
- `PoseUtil.HostAssignable`: setattr of `type`, which is read-only in the host, is a host
  error. `add_constraint`, the copy helpers and `add_ik_constraint` require only that `type`
  is not a keyword. A `name` keyword there is the `DuplicateKeyword` error. `edit_constraints`
  has no `name` parameter, so it also requires that a `name` keyword is text. The model does
  not raise these host errors.
- `add_prop`'s `soft_min`, `soft_max`, `description`, `overridable` and `subtype`: ID-property
  metadata that no operation here reads. Only the value and the `min`/`max` range are kept.
- `Armatures.RichArmature.InsertEditBone`: the host refuses a parent assignment that would
  create a cycle; the model assigns the parent as written.
- The generated accessors (lines 541-699): one `SetProperty` method and one `PropertyOf`
  function, parameterised by the control, stand for all forty of them.
- `Armatures.RichArmature.AddEyeConstraints`: the four calls are one loop over a four-step
  table (`ControlProps.EyeSteps`). Their order and arguments are those of the source.
- `Armatures.RichArmature.RemoveConstraints`: it models the intended filter, not the host's
  iteration while removing; see Findings. The dict it is given is modelled as the names of the
  pose bones it holds, which the source reaches through `pose_bones.values()`.

## Findings

| source | as written | input that shows it | evidently intended | confidence | as-written member | corrected member |
|---|---|---|---|---|---|---|
| mmd_uuunyaa_tools/editors/armatures/__init__.py:380-384 | `remove_constraints` removes from `pose_bone.constraints` while iterating over it, so a list-style walk does not visit the constraint that follows a removed one | a stack of two adjacent constraints whose names both start with `mmd_uuunyaa_`: the second one is left | every constraint with the prefix is removed and the others are kept in order | low, not executed; the skip happens only if the host's collection iterator walks by position like a Python list and advances after the loop body. An iterator that moves to the next element before yielding the current one skips nothing | PoseUtil.RemovalWhileWalkingSkips | Armatures.RichArmature.RemoveConstraints |
