/** The small pure helpers of ArmatureObjectABC: the side suffix of a bone name and the angle
    of a vector in a coordinate plane. */
module Geometry {
  import opened Wrappers
  import opened Errors

  predicate IsSeparator(c: char) {
    c == '_' || c == '.'
  }

  predicate IsSideLetter(c: char) {
    c == 'l' || c == 'L' || c == 'r' || c == 'R'
  }

  /** The normalised side of a side letter: "L" for l and L, "R" for r and R. */
  function SideOf(c: char): string {
    if c == 'l' || c == 'L' then "L" else "R"
  }

  /** The pattern `[_\.]([lLrR])$` matches `name` at index `i`. The anchor `$` of Python's `re`
      matches at the end of the string and also just before a newline that ends it. */
  ghost predicate SuffixMatchAt(name: string, i: int) {
    && 0 <= i
    && i + 2 <= |name|
    && IsSeparator(name[i])
    && IsSideLetter(name[i + 1])
    && (i + 2 == |name| || (i + 3 == |name| && name[i + 2] == '\n'))
  }

  /** to_bone_suffix: "L" or "R" when the name ends in a separator and a side letter, else None.
      A side letter without a separator, as in "armL", is no suffix. */
  function ToBoneSuffix(name: string): (r: Option<string>)
    ensures r.None? <==> !exists i :: SuffixMatchAt(name, i)
    ensures forall i :: SuffixMatchAt(name, i) ==> r == Some(SideOf(name[i + 1]))
    ensures r == None || r == Some("L") || r == Some("R")
  {
    var n := |name|;
    if n >= 2 && IsSeparator(name[n - 2]) && IsSideLetter(name[n - 1]) then
      assert SuffixMatchAt(name, n - 2);
      Some(SideOf(name[n - 1]))
    else if n >= 3 && name[n - 1] == '\n' && IsSeparator(name[n - 3]) && IsSideLetter(name[n - 2]) then
      assert SuffixMatchAt(name, n - 3);
      Some(SideOf(name[n - 2]))
    else
      None
  }

  /** The suffix is "L" exactly when the name ends in a separator followed by l or L. */
  lemma LeftSuffixIff(name: string)
    requires name == [] || name[|name| - 1] != '\n'
    ensures ToBoneSuffix(name) == Some("L") <==>
              |name| >= 2 && IsSeparator(name[|name| - 2]) && (name[|name| - 1] == 'l' || name[|name| - 1] == 'L')
  {
    if ToBoneSuffix(name) == Some("L") {
      var i :| SuffixMatchAt(name, i);
      assert i == |name| - 2;
    }
  }

  lemma SuffixExamples()
    ensures ToBoneSuffix("leftArm_L") == Some("L")
    ensures ToBoneSuffix("leftArm.r") == Some("R")
    ensures ToBoneSuffix("armL") == None
    ensures ToBoneSuffix("Spine") == None
  {
    assert !SuffixMatchAt("armL", 2);
  }

  datatype Vector = Vector(x: real, y: real, z: real)

  /** The coordinate of `v` along the axis named 'X', 'Y' or 'Z'. */
  function Component(v: Vector, axis: char): real {
    if axis == 'X' then v.x else if axis == 'Y' then v.y else v.z
  }

  predicate KnownPlane(plane: string) {
    plane == "XZ" || plane == "XY" || plane == "YZ"
  }

  /** to_angle: the angle of `v` in `plane`, measured from the plane's first axis toward its
      second; `atan2` stands for math.atan2. Any other plane tag raises ValueError. */
  function ToAngle(v: Vector, plane: string, atan2: (real, real) -> real): (r: Result<real, Error>)
    ensures r.Err? <==> !KnownPlane(plane)
    ensures r.Err? ==> r.error == UnknownPlane(plane)
    ensures r.Ok? ==> r.value == atan2(Component(v, plane[1]), Component(v, plane[0]))
  {
    if plane == "XZ" then Ok(atan2(v.z, v.x))
    else if plane == "XY" then Ok(atan2(v.y, v.x))
    else if plane == "YZ" then Ok(atan2(v.z, v.y))
    else Err(UnknownPlane(plane))
  }

  /** The angle depends only on the two components that span the plane. */
  lemma ToAngleIgnoresNormal(v: Vector, w: Vector, plane: string, atan2: (real, real) -> real)
    requires KnownPlane(plane)
    requires Component(v, plane[0]) == Component(w, plane[0])
    requires Component(v, plane[1]) == Component(w, plane[1])
    ensures ToAngle(v, plane, atan2) == ToAngle(w, plane, atan2)
  {
  }
}
