/** The pose-bone records of an armature and the PoseUtil operations on their constraint
    stacks, drivers and custom properties, stated as functions on values. The class in module
    Armatures performs them in place. */
module PoseUtil {
  import opened Wrappers

  /** A Blender object, by name. */
  type ObjectRef = string

  /** A value assigned to a constraint attribute through a keyword argument. */
  datatype AttrValue = Text(text: string) | Whole(number: int) | Flag(flag: bool) | Ref(obj: ObjectRef)

  /** Keyword arguments: Python keeps one value per keyword. */
  type Kwargs = map<string, AttrValue>

  datatype DriverVariable = DriverVariable(name: string, target: ObjectRef, dataPath: string)

  datatype Driver = Driver(expression: string, variables: seq<DriverVariable>)

  /** A bone constraint: its type, its name, the attributes assigned to it and the drivers on
      its properties, keyed by the driven property's path. */
  datatype Constraint = Constraint(kind: string, name: string, attrs: Kwargs, drivers: map<string, Driver>)

  /** The UI range an ID property carries once created through add_prop. */
  datatype PropUi = PropUi(min: real, max: real)

  datatype IdProp = IdProp(value: real, ui: Option<PropUi>)

  /** A pose bone: its MMD name tag `mmd_bone.name_j`, its constraint stack and its custom
      properties. */
  datatype PoseBone = PoseBone(nameJ: string, constraints: seq<Constraint>, props: map<string, IdProp>)

  /** The prefix of every constraint name this add-on authors. */
  const ManagedPrefix := "mmd_uuunyaa_"

  const InfluenceVariable := "mmd_uuunyaa_influence"

  /** The driven property of an influence driver. */
  const InfluencePath := "influence"

  predicate IsManaged(c: Constraint) {
    ManagedPrefix <= c.name
  }

  // ---------------------------------------------------------------- drivers

  /** The driver that driver_add hands back: the one already on `path`, or a new empty one. */
  function DriverOn(c: Constraint, path: string): Driver {
    if path in c.drivers then c.drivers[path] else Driver("", [])
  }

  /** add_driver: the variables are appended to the driver on `path` and its expression is set. */
  function WithDriver(c: Constraint, path: string, expression: string, vars: seq<DriverVariable>): Constraint {
    c.(drivers := c.drivers[path := Driver(expression, DriverOn(c, path).variables + vars)])
  }

  /** add_driver sets the expression, appends the variables to those already on `path`, and
      leaves the rest of the constraint alone. */
  lemma WithDriverChanges(c: Constraint, path: string, expression: string, vars: seq<DriverVariable>)
    ensures var r := WithDriver(c, path, expression, vars);
      && r.kind == c.kind && r.name == c.name && r.attrs == c.attrs
      && r.drivers.Keys == c.drivers.Keys + {path}
      && r.drivers[path].expression == expression
      && r.drivers[path].variables == (if path in c.drivers then c.drivers[path].variables else []) + vars
      && forall p :: p in c.drivers && p != path ==> r.drivers[p] == c.drivers[p]
  {
  }

  /** The expression of an influence driver. */
  function InfluenceExpression(invert: bool): (e: string)
    ensures e == "1-mmd_uuunyaa_influence" <==> invert
    ensures e == "+mmd_uuunyaa_influence" <==> !invert
  {
    (if invert then "1-" else "+") + InfluenceVariable
  }

  /** The single-variable driver that reads the influence from `dataPath` of `target`. */
  function InfluenceDriver(target: ObjectRef, dataPath: string, invert: bool): Driver {
    Driver(InfluenceExpression(invert), [DriverVariable(InfluenceVariable, target, dataPath)])
  }

  /** add_influence_driver. */
  function WithInfluenceDriver(c: Constraint, target: ObjectRef, dataPath: string, invert: bool): Constraint {
    WithDriver(c, InfluencePath, InfluenceExpression(invert), [DriverVariable(InfluenceVariable, target, dataPath)])
  }

  /** add_influence_driver gives the influence driver the expression for `invert` and makes it
      end with the variable reading `dataPath` of `target`; the rest of the constraint is kept. */
  lemma WithInfluenceDriverChanges(c: Constraint, target: ObjectRef, dataPath: string, invert: bool)
    ensures var r := WithInfluenceDriver(c, target, dataPath, invert);
      && r.kind == c.kind && r.name == c.name && r.attrs == c.attrs
      && r.drivers.Keys == c.drivers.Keys + {InfluencePath}
      && r.drivers[InfluencePath].expression == InfluenceExpression(invert)
      && |r.drivers[InfluencePath].variables| >= 1
      && r.drivers[InfluencePath].variables[|r.drivers[InfluencePath].variables| - 1]
         == DriverVariable(InfluenceVariable, target, dataPath)
      && forall p :: p in c.drivers && p != InfluencePath ==> r.drivers[p] == c.drivers[p]
  {
    WithDriverChanges(c, InfluencePath, InfluenceExpression(invert), [DriverVariable(InfluenceVariable, target, dataPath)]);
  }

  /** driver_remove: the driver on `path` is gone and everything else is kept. */
  function WithoutDriver(c: Constraint, path: string): (r: Constraint)
    ensures r.kind == c.kind && r.name == c.name && r.attrs == c.attrs
    ensures r.drivers.Keys == c.drivers.Keys - {path}
    ensures forall p :: p in r.drivers ==> r.drivers[p] == c.drivers[p]
  {
    c.(drivers := c.drivers - {path})
  }

  /** update_influence_driver: the old influence driver is removed before the new one is added,
      so exactly one influence variable remains and every other driver is left alone. */
  function UpdatedInfluenceDriver(c: Constraint, target: ObjectRef, dataPath: string, invert: bool): (r: Constraint)
    ensures r.kind == c.kind && r.name == c.name && r.attrs == c.attrs
    ensures r.drivers.Keys == c.drivers.Keys + {InfluencePath}
    ensures r.drivers[InfluencePath] == InfluenceDriver(target, dataPath, invert)
    ensures |r.drivers[InfluencePath].variables| == 1
    ensures forall p :: p in c.drivers && p != InfluencePath ==> r.drivers[p] == c.drivers[p]
  {
    WithInfluenceDriver(WithoutDriver(c, InfluencePath), target, dataPath, invert)
  }

  /** Updating twice is updating once with the last arguments. */
  lemma UpdateReplaces(c: Constraint, t1: ObjectRef, d1: string, i1: bool, t2: ObjectRef, d2: string, i2: bool)
    ensures UpdatedInfluenceDriver(UpdatedInfluenceDriver(c, t1, d1, i1), t2, d2, i2) == UpdatedInfluenceDriver(c, t2, d2, i2)
  {
    var a := UpdatedInfluenceDriver(UpdatedInfluenceDriver(c, t1, d1, i1), t2, d2, i2);
    var b := UpdatedInfluenceDriver(c, t2, d2, i2);
    assert a.drivers == b.drivers;
  }

  /** Adding an influence driver twice, unlike updating, stacks two variables on one driver. */
  lemma AddingTwiceStacks(c: Constraint, t1: ObjectRef, d1: string, i1: bool, t2: ObjectRef, d2: string, i2: bool)
    requires InfluencePath !in c.drivers
    ensures WithInfluenceDriver(WithInfluenceDriver(c, t1, d1, i1), t2, d2, i2).drivers[InfluencePath]
         == Driver(InfluenceExpression(i2), [DriverVariable(InfluenceVariable, t1, d1), DriverVariable(InfluenceVariable, t2, d2)])
  {
  }

  // ---------------------------------------------------------------- constraint creation

  /** What the host lets setattr assign: `type` is fixed at creation and `name` takes text. */
  predicate HostAssignable(kwargs: Kwargs) {
    "type" !in kwargs && ("name" in kwargs ==> kwargs["name"].Text?)
  }

  /** constraints.new(kind) followed by the assignment of its name. */
  function NewConstraint(kind: string, name: string): Constraint {
    Constraint(kind, name, map[], map[])
  }

  /** setattr of every keyword argument: `name` renames the constraint, any other key sets that
      attribute; the type and the drivers are untouched. */
  function Assigned(c: Constraint, kwargs: Kwargs): (r: Constraint)
    requires HostAssignable(kwargs)
    ensures r.kind == c.kind && r.drivers == c.drivers
    ensures r.name == (if "name" in kwargs then kwargs["name"].text else c.name)
    ensures r.attrs.Keys == c.attrs.Keys + (kwargs.Keys - {"name"})
    ensures forall k :: k in r.attrs ==> r.attrs[k] == if k in kwargs && k != "name" then kwargs[k] else c.attrs[k]
  {
    Constraint(c.kind,
               if "name" in kwargs then kwargs["name"].text else c.name,
               c.attrs + (kwargs - {"name"}),
               c.drivers)
  }

  /** The `for key, value in kwargs.items(): setattr(constraint, key, value)` loop. */
  method SetAttributes(c: Constraint, kwargs: Kwargs) returns (r: Constraint)
    requires HostAssignable(kwargs)
    ensures r == Assigned(c, kwargs)
  {
    r := c;
    var todo := kwargs.Keys;
    ghost var done: Kwargs := map[];
    while todo != {}
      invariant todo !! done.Keys && todo + done.Keys == kwargs.Keys
      invariant forall k :: k in done ==> done[k] == kwargs[k]
      invariant r.kind == c.kind && r.drivers == c.drivers
      invariant r.name == if "name" in done then kwargs["name"].text else c.name
      invariant r.attrs == c.attrs + (done - {"name"})
      decreases todo
    {
      var k :| k in todo;
      ghost var before := done;
      done := done[k := kwargs[k]];
      if k == "name" {
        r := r.(name := kwargs[k].text);
        assert done - {"name"} == before - {"name"};
      } else {
        r := r.(attrs := r.attrs[k := kwargs[k]]);
        assert done - {"name"} == (before - {"name"})[k := kwargs[k]];
      }
      todo := todo - {k};
    }
    assert done == kwargs;
  }

  function AppendConstraint(b: PoseBone, c: Constraint): PoseBone {
    b.(constraints := b.constraints + [c])
  }

  function WithConstraintAt(b: PoseBone, i: nat, c: Constraint): PoseBone
    requires i < |b.constraints|
  {
    b.(constraints := b.constraints[i := c])
  }

  /** Appending puts exactly the new constraint at the end and leaves the earlier ones and the
      rest of the bone as they were. */
  lemma AppendConstraintExactly(b: PoseBone, c: Constraint)
    ensures |AppendConstraint(b, c).constraints| == |b.constraints| + 1
    ensures AppendConstraint(b, c).constraints[|b.constraints|] == c
    ensures AppendConstraint(b, c).constraints[..|b.constraints|] == b.constraints
    ensures AppendConstraint(b, c).nameJ == b.nameJ && AppendConstraint(b, c).props == b.props
  {
    assert (b.constraints + [c])[..|b.constraints|] == b.constraints;
  }

  /** Replacing the constraint just appended is appending the replacement. */
  lemma ReplaceAppended(b: PoseBone, c: Constraint, d: Constraint)
    ensures WithConstraintAt(AppendConstraint(b, c), |b.constraints|, d) == AppendConstraint(b, d)
  {
    assert (b.constraints + [c])[|b.constraints| := d] == b.constraints + [d];
  }

  /** Replacing the same constraint twice keeps the second replacement. */
  lemma ReplaceTwice(b: PoseBone, i: nat, c: Constraint, d: Constraint)
    requires i < |b.constraints|
    ensures WithConstraintAt(WithConstraintAt(b, i, c), i, d) == WithConstraintAt(b, i, d)
  {
    assert b.constraints[i := c][i := d] == b.constraints[i := d];
  }

  // ---------------------------------------------------------------- filters

  /** The constraints of `cs` that satisfy `p`, in stack order. */
  function Keep(cs: seq<Constraint>, p: Constraint -> bool): (r: seq<Constraint>)
    ensures |r| <= |cs|
    ensures forall c :: c in r <==> c in cs && p(c)
  {
    if cs == [] then [] else (if p(cs[0]) then [cs[0]] else []) + Keep(cs[1..], p)
  }

  /** Shifts every index by one. */
  function Shifted(ix: seq<nat>): (r: seq<nat>)
    ensures |r| == |ix| && forall j :: 0 <= j < |ix| ==> r[j] == ix[j] + 1
  {
    if ix == [] then [] else [ix[0] + 1] + Shifted(ix[1..])
  }

  lemma ShiftedMembers(ix: seq<nat>, i: int)
    ensures i + 1 in Shifted(ix) <==> i in ix
    ensures 0 !in Shifted(ix)
  {
    if i + 1 in Shifted(ix) {
      var j :| 0 <= j < |ix| && Shifted(ix)[j] == i + 1;
      assert ix[j] == i;
    }
    if i in ix {
      var j :| 0 <= j < |ix| && ix[j] == i;
      assert Shifted(ix)[j] == i + 1;
    }
  }

  /** The first position, when the first constraint is kept. */
  function Lead(b: bool): seq<nat> {
    if b then [0] else []
  }

  /** The constraints at the positions `ix` of `cs` are `kept`. */
  ghost predicate PicksAt(cs: seq<Constraint>, kept: seq<Constraint>, ix: seq<nat>) {
    |ix| == |kept| && forall j :: 0 <= j < |ix| ==> ix[j] < |cs| && kept[j] == cs[ix[j]]
  }

  ghost predicate Increasing(ix: seq<nat>) {
    forall j, k :: 0 <= j < k < |ix| ==> ix[j] < ix[k]
  }

  /** `ix` holds exactly the positions of `cs` whose constraint satisfies `p`. */
  ghost predicate Covers(cs: seq<Constraint>, p: Constraint -> bool, ix: seq<nat>) {
    forall i :: 0 <= i < |cs| ==> (p(cs[i]) <==> i in ix)
  }

  /** `ix` lists, in increasing order, exactly the positions of `cs` whose constraint satisfies
      `p`, and the constraints at those positions are `kept`. */
  ghost predicate Selects(cs: seq<Constraint>, p: Constraint -> bool, kept: seq<Constraint>, ix: seq<nat>) {
    PicksAt(cs, kept, ix) && Increasing(ix) && Covers(cs, p, ix)
  }

  lemma PicksAtStep(cs: seq<Constraint>, p: Constraint -> bool, rest: seq<nat>)
    requires cs != [] && PicksAt(cs[1..], Keep(cs[1..], p), rest)
    ensures PicksAt(cs, Keep(cs, p), Lead(p(cs[0])) + Shifted(rest))
  {
    var sh := Shifted(rest);
    var tail := Keep(cs[1..], p);
    PicksAtShift(cs, tail, rest);
    if p(cs[0]) {
      PicksAtCons(cs, tail, sh);
      KeptHead(cs, p);
    } else {
      assert Keep(cs, p) == tail;
      assert Lead(false) + sh == sh;
    }
  }

  lemma KeptHead(cs: seq<Constraint>, p: Constraint -> bool)
    requires cs != [] && p(cs[0])
    ensures Keep(cs, p) == [cs[0]] + Keep(cs[1..], p)
  {
  }

  lemma PicksAtShift(cs: seq<Constraint>, kept: seq<Constraint>, rest: seq<nat>)
    requires cs != [] && PicksAt(cs[1..], kept, rest)
    ensures PicksAt(cs, kept, Shifted(rest))
  {
    forall j | 0 <= j < |rest|
      ensures Shifted(rest)[j] < |cs| && kept[j] == cs[Shifted(rest)[j]]
    {
      assert kept[j] == cs[1..][rest[j]];
    }
  }

  lemma PicksAtCons(cs: seq<Constraint>, kept: seq<Constraint>, ix: seq<nat>)
    requires cs != [] && PicksAt(cs, kept, ix)
    ensures PicksAt(cs, [cs[0]] + kept, [0] + ix)
  {
    var ix', kept' := [0] + ix, [cs[0]] + kept;
    forall j | 1 <= j < |ix'|
      ensures ix'[j] < |cs| && kept'[j] == cs[ix'[j]]
    {
      assert ix'[j] == ix[j - 1] && kept'[j] == kept[j - 1];
    }
  }

  lemma IncreasingStep(b: bool, rest: seq<nat>)
    requires Increasing(rest)
    ensures Increasing(Lead(b) + Shifted(rest))
  {
    var sh := Shifted(rest);
    var h := if b then 1 else 0;
    var ix := Lead(b) + sh;
    forall j, k | 0 <= j < k < |ix|
      ensures ix[j] < ix[k]
    {
      assert ix[k] == rest[k - h] + 1;
      if j >= h {
        assert ix[j] == rest[j - h] + 1;
      }
    }
  }

  lemma CoversStep(cs: seq<Constraint>, p: Constraint -> bool, rest: seq<nat>)
    requires cs != [] && Covers(cs[1..], p, rest)
    ensures Covers(cs, p, Lead(p(cs[0])) + Shifted(rest))
  {
    var sh := Shifted(rest);
    var ix := Lead(p(cs[0])) + sh;
    ShiftedMembers(rest, 0);
    forall i | 0 <= i < |cs|
      ensures p(cs[i]) <==> i in ix
    {
      if i > 0 {
        ShiftedMembers(rest, i - 1);
        assert cs[i] == cs[1..][i - 1];
      }
    }
  }

  lemma SelectsStep(cs: seq<Constraint>, p: Constraint -> bool, rest: seq<nat>)
    requires cs != [] && Selects(cs[1..], p, Keep(cs[1..], p), rest)
    ensures Selects(cs, p, Keep(cs, p), Lead(p(cs[0])) + Shifted(rest))
  {
    PicksAtStep(cs, p, rest);
    IncreasingStep(p(cs[0]), rest);
    CoversStep(cs, p, rest);
  }

  /** The positions of the constraints Keep retains: the survivors keep their relative order,
      and they are exactly the constraints that satisfy `p`, each as often as in `cs`. */
  ghost function KeptIndices(cs: seq<Constraint>, p: Constraint -> bool): (ix: seq<nat>)
    ensures Selects(cs, p, Keep(cs, p), ix)
  {
    if cs == [] then []
    else
      var rest := KeptIndices(cs[1..], p);
      SelectsStep(cs, p, rest);
      Lead(p(cs[0])) + Shifted(rest)
  }

  lemma {:induction false} KeepAppend(a: seq<Constraint>, b: seq<Constraint>, p: Constraint -> bool)
    ensures Keep(a + b, p) == Keep(a, p) + Keep(b, p)
  {
    if a == [] {
      assert a + b == b;
    } else {
      assert (a + b)[1..] == a[1..] + b;
      KeepAppend(a[1..], b, p);
    }
  }

  lemma {:induction false} KeepAll(cs: seq<Constraint>, p: Constraint -> bool)
    requires forall c :: c in cs ==> p(c)
    ensures Keep(cs, p) == cs
  {
    if cs != [] {
      KeepAll(cs[1..], p);
    }
  }

  lemma {:induction false} KeepNone(cs: seq<Constraint>, p: Constraint -> bool)
    requires forall c :: c in cs ==> !p(c)
    ensures Keep(cs, p) == []
  {
    if cs != [] {
      KeepNone(cs[1..], p);
    }
  }

  function KindIs(kind: string): Constraint -> bool {
    (c: Constraint) => c.kind == kind
  }

  const Unmanaged: Constraint -> bool := (c: Constraint) => !IsManaged(c)

  /** list_constraints: exactly the constraints of the given type, each as often as in the
      stack and in stack order (KeptIndices). */
  function ListConstraints(cs: seq<Constraint>, kind: string): (r: seq<Constraint>)
    ensures forall c :: c in r <==> c in cs && c.kind == kind
  {
    Keep(cs, KindIs(kind))
  }

  /** Adding a constraint extends the listing of its type by it and no other listing. */
  lemma ListAfterAppend(cs: seq<Constraint>, c: Constraint, kind: string)
    ensures ListConstraints(cs + [c], kind) == ListConstraints(cs, kind) + (if c.kind == kind then [c] else [])
  {
    KeepAppend(cs, [c], KindIs(kind));
  }

  /** remove_constraints on one stack, as the filter the source intends. */
  function WithoutManaged(cs: seq<Constraint>): (r: seq<Constraint>)
    ensures forall c :: c in r <==> c in cs && !IsManaged(c)
  {
    Keep(cs, Unmanaged)
  }

  /** The remove_constraints loop over one stack. */
  method Survivors(cs: seq<Constraint>) returns (r: seq<Constraint>)
    ensures r == WithoutManaged(cs)
  {
    r := [];
    var i := 0;
    while i < |cs|
      invariant 0 <= i <= |cs|
      invariant r == WithoutManaged(cs[..i])
    {
      WithoutManagedStep(cs, i);
      if !IsManaged(cs[i]) {
        r := r + [cs[i]];
      }
      i := i + 1;
    }
    assert cs[..i] == cs;
  }

  /** One more constraint of the stack survives exactly when it is not the add-on's. */
  lemma WithoutManagedStep(cs: seq<Constraint>, i: nat)
    requires i < |cs|
    ensures WithoutManaged(cs[..i + 1]) == WithoutManaged(cs[..i]) + (if IsManaged(cs[i]) then [] else [cs[i]])
  {
    assert cs[..i + 1] == cs[..i] + [cs[i]];
    KeepAppend(cs[..i], [cs[i]], Unmanaged);
    assert Keep([cs[i]], Unmanaged) == (if Unmanaged(cs[i]) then [cs[i]] else []) + Keep([], Unmanaged);
  }

  /** Removal undoes any run of appended add-on constraints. */
  lemma RemovalUndoesManagedAppends(cs: seq<Constraint>, added: seq<Constraint>)
    requires forall c :: c in added ==> IsManaged(c)
    ensures WithoutManaged(cs + added) == WithoutManaged(cs)
  {
    KeepAppend(cs, added, Unmanaged);
    KeepNone(added, Unmanaged);
  }

  lemma RemovalIdempotent(cs: seq<Constraint>)
    ensures WithoutManaged(WithoutManaged(cs)) == WithoutManaged(cs)
  {
    KeepAll(WithoutManaged(cs), Unmanaged);
  }

  /** remove_constraints as written: the loop removes from the stack it walks, so with a
      list-style walk the position after a removal holds the constraint that followed the removed
      one, and that constraint is never visited. */
  function RemovedWhileWalking(cs: seq<Constraint>, i: nat): (r: seq<Constraint>)
    ensures forall c :: c in cs && !IsManaged(c) ==> c in r
    ensures forall c :: c in r ==> c in cs
    decreases |cs| - i
  {
    if i >= |cs| then cs
    else if IsManaged(cs[i]) then
      var rest := cs[..i] + cs[i + 1..];
      assert forall c :: c in cs && c != cs[i] ==> c in rest by {
        forall c | c in cs && c != cs[i] ensures c in rest {
          var j :| 0 <= j < |cs| && cs[j] == c;
          if j < i { assert rest[j] == c; } else { assert rest[j - 1] == c; }
        }
      }
      RemovedWhileWalking(rest, i + 1)
    else RemovedWhileWalking(cs, i + 1)
  }

  /** Two adjacent add-on constraints: the walk removes the first and skips the second, which
      the intended filter removes. */
  lemma RemovalWhileWalkingSkips(a: Constraint, b: Constraint)
    requires IsManaged(a) && IsManaged(b)
    ensures RemovedWhileWalking([a, b], 0) == [b]
    ensures WithoutManaged([a, b]) == []
  {
    assert [a, b][..0] + [a, b][1..] == [b];
    assert WithoutManaged([a, b]) == Keep([a, b], Unmanaged);
  }

  // ---------------------------------------------------------------- edit_constraints

  function EditedOne(c: Constraint, kind: string, kwargs: Kwargs): Constraint
    requires HostAssignable(kwargs)
  {
    if c.kind == kind then Assigned(c, kwargs) else c
  }

  /** edit_constraints: the keyword arguments are assigned to every constraint of the type. */
  function EditedStack(cs: seq<Constraint>, kind: string, kwargs: Kwargs): (r: seq<Constraint>)
    requires HostAssignable(kwargs)
    ensures |r| == |cs|
    ensures forall i :: 0 <= i < |cs| ==> r[i].kind == cs[i].kind
    ensures forall i :: 0 <= i < |cs| && cs[i].kind != kind ==> r[i] == cs[i]
    ensures forall i :: 0 <= i < |cs| && cs[i].kind == kind ==> r[i] == Assigned(cs[i], kwargs)
  {
    if cs == [] then [] else [EditedOne(cs[0], kind, kwargs)] + EditedStack(cs[1..], kind, kwargs)
  }

  lemma {:induction false} EditNoMatchIsNoop(cs: seq<Constraint>, kind: string, kwargs: Kwargs)
    requires HostAssignable(kwargs)
    requires forall c :: c in cs ==> c.kind != kind
    ensures EditedStack(cs, kind, kwargs) == cs
  {
    if cs != [] {
      EditNoMatchIsNoop(cs[1..], kind, kwargs);
    }
  }

  function AssignedAll(cs: seq<Constraint>, kwargs: Kwargs): (r: seq<Constraint>)
    requires HostAssignable(kwargs)
    ensures |r| == |cs| && forall i :: 0 <= i < |cs| ==> r[i] == Assigned(cs[i], kwargs)
  {
    if cs == [] then [] else [Assigned(cs[0], kwargs)] + AssignedAll(cs[1..], kwargs)
  }

  /** After edit_constraints the listing of the edited type is the old listing with the keyword
      arguments assigned. */
  lemma {:induction false} ListAfterEdit(cs: seq<Constraint>, kind: string, kwargs: Kwargs)
    requires HostAssignable(kwargs)
    ensures ListConstraints(EditedStack(cs, kind, kwargs), kind) == AssignedAll(ListConstraints(cs, kind), kwargs)
  {
    if cs != [] {
      var es := EditedStack(cs, kind, kwargs);
      ListAfterEdit(cs[1..], kind, kwargs);
      assert es == [EditedOne(cs[0], kind, kwargs)] + EditedStack(cs[1..], kind, kwargs);
      assert es[1..] == EditedStack(cs[1..], kind, kwargs);
      assert ListConstraints(es, kind) == Keep(es, KindIs(kind));
      assert ListConstraints(cs, kind) == Keep(cs, KindIs(kind));
      if cs[0].kind == kind {
        var l := ListConstraints(cs, kind);
        assert l == [cs[0]] + ListConstraints(cs[1..], kind);
        assert AssignedAll(l, kwargs) == [Assigned(cs[0], kwargs)] + AssignedAll(l[1..], kwargs);
        assert l[1..] == ListConstraints(cs[1..], kind);
      }
    }
  }

  /** edit_constraints leaves the listing of every other type unchanged. */
  lemma {:induction false} ListOtherAfterEdit(cs: seq<Constraint>, kind: string, kwargs: Kwargs, other: string)
    requires HostAssignable(kwargs) && other != kind
    ensures ListConstraints(EditedStack(cs, kind, kwargs), other) == ListConstraints(cs, other)
  {
    if cs != [] {
      var es := EditedStack(cs, kind, kwargs);
      ListOtherAfterEdit(cs[1..], kind, kwargs, other);
      assert es[1..] == EditedStack(cs[1..], kind, kwargs);
      assert ListConstraints(es, other) == Keep(es, KindIs(other));
      assert ListConstraints(cs, other) == Keep(cs, KindIs(other));
      if cs[0].kind == other {
        assert es[0] == cs[0];
      }
    }
  }

  // ---------------------------------------------------------------- typed helpers

  /** The four copy helpers, by the constraint type each creates. */
  datatype CopyKind = CopyTransforms | CopyRotation | CopyLocation | CopyScale {

    function TypeName(): string {
      match this
      case CopyTransforms => "COPY_TRANSFORMS"
      case CopyRotation => "COPY_ROTATION"
      case CopyLocation => "COPY_LOCATION"
      case CopyScale => "COPY_SCALE"
    }

    /** The fixed constraint name of the helper; it always carries the add-on's prefix. */
    function ConstraintName(): (n: string)
      ensures ManagedPrefix <= n
    {
      match this
      case CopyTransforms => "mmd_uuunyaa_copy_transforms"
      case CopyRotation => "mmd_uuunyaa_copy_rotation"
      case CopyLocation => "mmd_uuunyaa_copy_location"
      case CopyScale => "mmd_uuunyaa_copy_scale"
    }
  }

  const IkTypeName := "IK"

  const IkConstraintName := "mmd_uuunyaa_ik_mmd"

  /** Keywords that clash with add_constraint's own parameters. */
  const AddConstraintParams: set<string> := {"pose_bone", "constraint_type", "name"}

  /** Keywords that clash with edit_constraints' own parameters. */
  const EditConstraintsParams: set<string> := {"cls", "pose_bone", "constraint_type"}

  /** Keywords that clash with a copy helper's parameters or with those it passes on. */
  const CopyHelperParams: set<string> :=
    {"cls", "pose_bone", "target_object", "subtarget", "space", "influence_data_path", "invert_influence",
     "constraint_type", "name", "target", "target_space", "owner_space"}

  /** Keywords that clash with add_ik_constraint's parameters or with those it passes on. */
  const IkHelperParams: set<string> :=
    {"cls", "pose_bone", "target_object", "subtarget", "influence_data_path", "chain_count", "iterations",
     "invert_influence", "constraint_type", "name", "target"}

  function CopyFields(target: ObjectRef, subtarget: string, space: string): Kwargs {
    map["target" := Ref(target), "subtarget" := Text(subtarget), "target_space" := Text(space), "owner_space" := Text(space)]
  }

  function IkFields(target: ObjectRef, subtarget: string, chainCount: int, iterations: int): Kwargs {
    map["target" := Ref(target), "subtarget" := Text(subtarget), "chain_count" := Whole(chainCount), "iterations" := Whole(iterations)]
  }

  /** On a constraint without drivers, add_influence_driver leaves exactly the influence driver. */
  lemma NewInfluenceDriver(c: Constraint, target: ObjectRef, dataPath: string, invert: bool)
    requires c.drivers == map[]
    ensures WithInfluenceDriver(c, target, dataPath, invert)
         == c.(drivers := map[InfluencePath := InfluenceDriver(target, dataPath, invert)])
  {
    var v := DriverVariable(InfluenceVariable, target, dataPath);
    assert DriverOn(c, InfluencePath).variables + [v] == [v];
    assert WithInfluenceDriver(c, target, dataPath, invert).drivers
        == map[InfluencePath := InfluenceDriver(target, dataPath, invert)];
  }

  /** The constraint a copy helper appends. */
  function CopyConstraint(kind: CopyKind, target: ObjectRef, subtarget: string, space: string,
                          dataPath: string, invert: bool, kwargs: Kwargs): (c: Constraint)
    requires HostAssignable(kwargs) && kwargs.Keys !! CopyHelperParams
    ensures c.kind == kind.TypeName() && c.name == kind.ConstraintName() && IsManaged(c)
    ensures c.attrs.Keys == {"target", "subtarget", "target_space", "owner_space"} + kwargs.Keys
    ensures c.attrs["target"] == Ref(target) && c.attrs["subtarget"] == Text(subtarget)
    ensures c.attrs["target_space"] == Text(space) && c.attrs["owner_space"] == Text(space)
    ensures forall k :: k in kwargs ==> c.attrs[k] == kwargs[k]
    ensures c.drivers == map[InfluencePath := InfluenceDriver(target, dataPath, invert)]
  {
    var fields := CopyFields(target, subtarget, space) + kwargs;
    assert fields.Keys == {"target", "subtarget", "target_space", "owner_space"} + kwargs.Keys;
    assert "name" !in fields && "type" !in fields;
    assert map[] + (fields - {"name"}) == fields;
    var a := Assigned(NewConstraint(kind.TypeName(), kind.ConstraintName()), fields);
    assert a.attrs == fields;
    NewInfluenceDriver(a, target, dataPath, invert);
    WithInfluenceDriver(a, target, dataPath, invert)
  }

  /** The keywords a copy helper hands to add_constraint pass its checks. */
  lemma CopyFieldsPass(target: ObjectRef, subtarget: string, space: string, kwargs: Kwargs)
    requires HostAssignable(kwargs) && kwargs.Keys !! CopyHelperParams
    ensures HostAssignable(CopyFields(target, subtarget, space) + kwargs)
    ensures (CopyFields(target, subtarget, space) + kwargs).Keys !! AddConstraintParams
  {
    var own := {"target", "subtarget", "target_space", "owner_space"};
    assert (CopyFields(target, subtarget, space) + kwargs).Keys == own + kwargs.Keys;
    assert "type" !in own && "name" !in own;
    assert own !! AddConstraintParams;
  }

  /** Appending what add_constraint builds for a copy helper and then giving it its influence
      driver appends the helper's constraint. */
  lemma CopyConstraintBuilt(b: PoseBone, kind: CopyKind, target: ObjectRef, subtarget: string, space: string,
                            dataPath: string, invert: bool, kwargs: Kwargs)
    requires HostAssignable(kwargs) && kwargs.Keys !! CopyHelperParams
    requires HostAssignable(CopyFields(target, subtarget, space) + kwargs)
    ensures var added := AppendConstraint(b, Assigned(NewConstraint(kind.TypeName(), kind.ConstraintName()),
                                                      CopyFields(target, subtarget, space) + kwargs));
            WithConstraintAt(added, |b.constraints|, WithInfluenceDriver(added.constraints[|b.constraints|], target, dataPath, invert))
              == AppendConstraint(b, CopyConstraint(kind, target, subtarget, space, dataPath, invert, kwargs))
  {
    var c := Assigned(NewConstraint(kind.TypeName(), kind.ConstraintName()), CopyFields(target, subtarget, space) + kwargs);
    AppendConstraintExactly(b, c);
    ReplaceAppended(b, c, WithInfluenceDriver(c, target, dataPath, invert));
  }

  /** The constraint add_ik_constraint appends. */
  function IkConstraint(target: ObjectRef, subtarget: string, dataPath: string, chainCount: int, iterations: int,
                        invert: bool, kwargs: Kwargs): (c: Constraint)
    requires HostAssignable(kwargs) && kwargs.Keys !! IkHelperParams
    ensures c.kind == IkTypeName && c.name == IkConstraintName && IsManaged(c)
    ensures c.attrs.Keys == {"target", "subtarget", "chain_count", "iterations"} + kwargs.Keys
    ensures c.attrs["target"] == Ref(target) && c.attrs["subtarget"] == Text(subtarget)
    ensures c.attrs["chain_count"] == Whole(chainCount) && c.attrs["iterations"] == Whole(iterations)
    ensures forall k :: k in kwargs ==> c.attrs[k] == kwargs[k]
    ensures c.drivers == map[InfluencePath := InfluenceDriver(target, dataPath, invert)]
  {
    var fields := IkFields(target, subtarget, chainCount, iterations) + kwargs;
    assert fields.Keys == {"target", "subtarget", "chain_count", "iterations"} + kwargs.Keys;
    assert "name" !in fields && "type" !in fields;
    assert map[] + (fields - {"name"}) == fields;
    var a := Assigned(NewConstraint(IkTypeName, IkConstraintName), fields);
    assert a.attrs == fields;
    NewInfluenceDriver(a, target, dataPath, invert);
    WithInfluenceDriver(a, target, dataPath, invert)
  }

  /** The keywords add_ik_constraint hands to add_constraint pass its checks. */
  lemma IkFieldsPass(target: ObjectRef, subtarget: string, chainCount: int, iterations: int, kwargs: Kwargs)
    requires HostAssignable(kwargs) && kwargs.Keys !! IkHelperParams
    ensures HostAssignable(IkFields(target, subtarget, chainCount, iterations) + kwargs)
    ensures (IkFields(target, subtarget, chainCount, iterations) + kwargs).Keys !! AddConstraintParams
  {
    var own := {"target", "subtarget", "chain_count", "iterations"};
    assert (IkFields(target, subtarget, chainCount, iterations) + kwargs).Keys == own + kwargs.Keys;
    assert "type" !in own && "name" !in own;
    assert own !! AddConstraintParams;
  }

  /** Appending what add_constraint builds for add_ik_constraint and then giving it its
      influence driver appends the IK constraint. */
  lemma IkConstraintBuilt(b: PoseBone, target: ObjectRef, subtarget: string, dataPath: string, chainCount: int,
                          iterations: int, invert: bool, kwargs: Kwargs)
    requires HostAssignable(kwargs) && kwargs.Keys !! IkHelperParams
    requires HostAssignable(IkFields(target, subtarget, chainCount, iterations) + kwargs)
    ensures var added := AppendConstraint(b, Assigned(NewConstraint(IkTypeName, IkConstraintName),
                                                      IkFields(target, subtarget, chainCount, iterations) + kwargs));
            WithConstraintAt(added, |b.constraints|, WithInfluenceDriver(added.constraints[|b.constraints|], target, dataPath, invert))
              == AppendConstraint(b, IkConstraint(target, subtarget, dataPath, chainCount, iterations, invert, kwargs))
  {
    var c := Assigned(NewConstraint(IkTypeName, IkConstraintName), IkFields(target, subtarget, chainCount, iterations) + kwargs);
    AppendConstraintExactly(b, c);
    ReplaceAppended(b, c, WithInfluenceDriver(c, target, dataPath, invert));
  }

  /** Whatever the copy and IK helpers append to a stack, remove_constraints takes away again. */
  lemma HelperConstraintsRemovable(cs: seq<Constraint>, added: seq<Constraint>)
    requires forall c :: c in added ==>
               (exists kind, target, subtarget, space, dataPath, invert, kwargs ::
                  HostAssignable(kwargs) && kwargs.Keys !! CopyHelperParams &&
                  c == CopyConstraint(kind, target, subtarget, space, dataPath, invert, kwargs))
               || (exists target, subtarget, dataPath, chainCount, iterations, invert, kwargs ::
                  HostAssignable(kwargs) && kwargs.Keys !! IkHelperParams &&
                  c == IkConstraint(target, subtarget, dataPath, chainCount, iterations, invert, kwargs))
    ensures WithoutManaged(cs + added) == WithoutManaged(cs)
  {
    RemovalUndoesManagedAppends(cs, added);
  }

  // ---------------------------------------------------------------- properties

  /** rna_idprop_ui_create: the property is (re)created with its default and UI range. */
  function WithProp(b: PoseBone, name: string, default: real, min: real, max: real): PoseBone {
    b.(props := b.props[name := IdProp(default, Some(PropUi(min, max)))])
  }

  /** rna_idprop_ui_create adds or replaces only the one property, with its default and range. */
  lemma WithPropChanges(b: PoseBone, name: string, default: real, min: real, max: real)
    ensures var r := WithProp(b, name, default, min, max);
      && r.nameJ == b.nameJ && r.constraints == b.constraints
      && r.props.Keys == b.props.Keys + {name}
      && r.props[name].value == default && r.props[name].ui == Some(PropUi(min, max))
      && forall n :: n in b.props && n != name ==> r.props[n] == b.props[n]
  {
  }
}
