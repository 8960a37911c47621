/** The static tables of the rig-binding layer: the standard MMD bone catalog, the bind
    descriptors that subclasses provide, and the control properties. */
module Catalog {
  import opened Wrappers

  /** The role of a standard bone (MMDBoneType). */
  datatype MMDBoneType =
    | Standard | Parent | UpperArmTwist | WristTwist | UpperBody1 | UpperBody2 | Groove
    | Tolso | LegIkParent | Control | ToeEx | HandAccessories | ShoulderCancel | Thumb0 | Others

  /** The side of a sided standard bone, written as the first character of its MMD name. */
  datatype Side = Left | Right {
    function Mark(): (c: char)
      ensures c == '左' || c == '右'
    {
      if this == Left then '左' else '右'
    }

    function Other(): (s: Side)
      ensures s != this
    {
      if this == Left then Right else Left
    }
  }

  /** The body parts that occur once per side in the catalog. The 左 (left) and 右 (right)
      members of the enumeration share bone type and name apart from the side character, so
      each pair is one part here: its bone type and its MMD name without the side character. */
  datatype SidedPart =
      Eye
    | Shoulder
    | Arm
    | ArmTwist
    | Elbow
    | WristTwist
    | Wrist
    | Thumb0
    | Thumb1
    | Thumb2
    | Index0
    | Index1
    | Index2
    | Index3
    | Middle0
    | Middle1
    | Middle2
    | Middle3
    | Ring0
    | Ring1
    | Ring2
    | Ring3
    | Little0
    | Little1
    | Little2
    | Little3
    | Leg
    | Knee
    | Ankle
    | LegIk
    | ToeEx
    | LegD
    | KneeD
    | AnkleD
    | ToeIk
    | Toe
    | ShoulderC
    | ShoulderP
    | Dummy
    | LegIkParent {

    function Info(): (MMDBoneType, string) {
      match this
      case Eye => (MMDBoneType.Standard, "目")
      case Shoulder => (MMDBoneType.Standard, "肩")
      case Arm => (MMDBoneType.Standard, "腕")
      case ArmTwist => (MMDBoneType.UpperArmTwist, "腕捩")
      case Elbow => (MMDBoneType.Standard, "ひじ")
      case WristTwist => (MMDBoneType.WristTwist, "手捩")
      case Wrist => (MMDBoneType.Standard, "手首")
      case Thumb0 => (MMDBoneType.Thumb0, "親指０")
      case Thumb1 => (MMDBoneType.Standard, "親指１")
      case Thumb2 => (MMDBoneType.Standard, "親指２")
      case Index0 => (MMDBoneType.Others, "人指０")
      case Index1 => (MMDBoneType.Standard, "人指１")
      case Index2 => (MMDBoneType.Standard, "人指２")
      case Index3 => (MMDBoneType.Standard, "人指３")
      case Middle0 => (MMDBoneType.Others, "中指０")
      case Middle1 => (MMDBoneType.Standard, "中指１")
      case Middle2 => (MMDBoneType.Standard, "中指２")
      case Middle3 => (MMDBoneType.Standard, "中指３")
      case Ring0 => (MMDBoneType.Others, "薬指０")
      case Ring1 => (MMDBoneType.Standard, "薬指１")
      case Ring2 => (MMDBoneType.Standard, "薬指２")
      case Ring3 => (MMDBoneType.Standard, "薬指３")
      case Little0 => (MMDBoneType.Others, "小指０")
      case Little1 => (MMDBoneType.Standard, "小指１")
      case Little2 => (MMDBoneType.Standard, "小指２")
      case Little3 => (MMDBoneType.Standard, "小指３")
      case Leg => (MMDBoneType.Standard, "足")
      case Knee => (MMDBoneType.Standard, "ひざ")
      case Ankle => (MMDBoneType.Standard, "足首")
      case LegIk => (MMDBoneType.Standard, "足ＩＫ")
      case ToeEx => (MMDBoneType.ToeEx, "足先EX")
      case LegD => (MMDBoneType.ToeEx, "足D")
      case KneeD => (MMDBoneType.ToeEx, "ひざD")
      case AnkleD => (MMDBoneType.ToeEx, "足首D")
      case ToeIk => (MMDBoneType.Standard, "つま先ＩＫ")
      case Toe => (MMDBoneType.Standard, "つま先")
      case ShoulderC => (MMDBoneType.ShoulderCancel, "肩C")
      case ShoulderP => (MMDBoneType.ShoulderCancel, "肩P")
      case Dummy => (MMDBoneType.HandAccessories, "ダミー")
      case LegIkParent => (MMDBoneType.LegIkParent, "足IK親")
    }
  }

  /** The standard bone catalog (MMDBoneInfo): the centre bones one by one, the sided bones as
      a side and a part. */
  datatype MMDBoneInfo =
      AllParents
    | Center
    | Groove
    | Waist
    | UpperBody
    | UpperBody1
    | UpperBody2
    | Neck
    | Head
    | Eyes
    | LowerBody
    | Sided(side: Side, part: SidedPart) {

    /** The (bone type, MMD bone name) value of the enumeration member. */
    function Info(): (MMDBoneType, string) {
      match this
      case AllParents => (MMDBoneType.Parent, "全ての親")
      case Center => (MMDBoneType.Standard, "センター")
      case Groove => (MMDBoneType.Groove, "グルーブ")
      case Waist => (MMDBoneType.Tolso, "腰")
      case UpperBody => (MMDBoneType.Standard, "上半身")
      case UpperBody1 => (MMDBoneType.UpperBody1, "上半身1")
      case UpperBody2 => (MMDBoneType.UpperBody2, "上半身2")
      case Neck => (MMDBoneType.Standard, "首")
      case Head => (MMDBoneType.Standard, "頭")
      case Eyes => (MMDBoneType.Standard, "両目")
      case LowerBody => (MMDBoneType.Standard, "下半身")
      case Sided(side, part) => (part.Info().0, [side.Mark()] + part.Info().1)
    }

    function BoneType(): MMDBoneType { Info().0 }

    function MmdBoneName(): (name: string)
      ensures |name| >= 1
    {
      Info().1
    }
  }

  predicate IsSided(b: MMDBoneInfo) {
    b.MmdBoneName()[0] == '左' || b.MmdBoneName()[0] == '右'
  }

  /** `t` is the other-side twin of `b`: same bone type, and the same name apart from the side
      character, which flips between 左 and 右. */
  ghost predicate IsTwin(b: MMDBoneInfo, t: MMDBoneInfo) {
    && t.BoneType() == b.BoneType()
    && t.MmdBoneName()[1..] == b.MmdBoneName()[1..]
    && ((b.MmdBoneName()[0] == '左' && t.MmdBoneName()[0] == '右')
        || (b.MmdBoneName()[0] == '右' && t.MmdBoneName()[0] == '左'))
  }

  /** Only the sided entries have a name starting with a side character. */
  lemma SidedMarks(b: MMDBoneInfo)
    ensures IsSided(b) <==> b.Sided?
    ensures b.Sided? ==> b.MmdBoneName()[0] == b.side.Mark()
  {
    match b
    case AllParents =>
    case Center =>
    case Groove =>
    case Waist =>
    case UpperBody =>
    case UpperBody1 =>
    case UpperBody2 =>
    case Neck =>
    case Head =>
    case Eyes =>
    case LowerBody =>
    case Sided(side, part) =>
  }

  /** The entry of the other side: a 左 entry is paired with its 右 entry and the reverse; a
      centre entry, whose name starts with neither, has none. */
  function Mirror(b: MMDBoneInfo): (m: Option<MMDBoneInfo>)
    ensures m.Some? <==> IsSided(b)
    ensures m.Some? ==> IsTwin(b, m.value)
  {
    SidedMarks(b);
    if b.Sided? then
      var t := Sided(b.side.Other(), b.part);
      SidedMarks(t);
      assert t.MmdBoneName()[1..] == b.part.Info().1 == b.MmdBoneName()[1..];
      Some(t)
    else None
  }

  /** Mirroring twice gives the entry back. */
  lemma MirrorInvolutive(b: MMDBoneInfo)
    ensures Mirror(b).Some? ==> Mirror(b).value.Sided? && Mirror(Mirror(b).value) == Some(b)
  {
    SidedMarks(b);
    if b.Sided? {
      SidedMarks(Mirror(b).value);
    }
  }

  /** Every 左… entry has a 右… twin and every 右… entry a 左… twin, with the same MMDBoneType. */
  lemma SidedEntryHasTwin(b: MMDBoneInfo)
    requires b.MmdBoneName()[0] == '左' || b.MmdBoneName()[0] == '右'
    ensures exists t: MMDBoneInfo ::
      t.MmdBoneName() == [if b.MmdBoneName()[0] == '左' then '右' else '左'] + b.MmdBoneName()[1..]
      && t.BoneType() == b.BoneType()
  {
    var t := Mirror(b).value;
    assert t.MmdBoneName() == [t.MmdBoneName()[0]] + t.MmdBoneName()[1..];
  }

  // ---------------------------------------------------------------- names identify entries

  /** The part whose side-less MMD name is `s`, read character by character. */
  function PartNamed(s: string): Option<SidedPart> {
    if |s| <= 0 then None
    else if s[0] == '目' then (if s == "目" then Some(SidedPart.Eye) else None)
    else if s[0] == '肩' then (
      if |s| == 1 then Some(SidedPart.Shoulder)
      else if s[1] == 'C' then (if s == "肩C" then Some(SidedPart.ShoulderC) else None)
      else if s[1] == 'P' then (if s == "肩P" then Some(SidedPart.ShoulderP) else None)
      else None)
    else if s[0] == '腕' then (
      if |s| == 1 then Some(SidedPart.Arm)
      else if s[1] == '捩' then (if s == "腕捩" then Some(SidedPart.ArmTwist) else None)
      else None)
    else if s[0] == 'ひ' then (
      if |s| <= 1 then None
      else if s[1] == 'じ' then (if s == "ひじ" then Some(SidedPart.Elbow) else None)
      else if s[1] == 'ざ' then (
        if |s| == 2 then Some(SidedPart.Knee)
        else if s[2] == 'D' then (if s == "ひざD" then Some(SidedPart.KneeD) else None)
        else None)
      else None)
    else if s[0] == '手' then (
      if |s| <= 1 then None
      else if s[1] == '捩' then (if s == "手捩" then Some(SidedPart.WristTwist) else None)
      else if s[1] == '首' then (if s == "手首" then Some(SidedPart.Wrist) else None)
      else None)
    else if s[0] == '親' then (
      if |s| <= 1 then None
      else if s[1] == '指' then (
        if |s| <= 2 then None
        else if s[2] == '０' then (if s == "親指０" then Some(SidedPart.Thumb0) else None)
        else if s[2] == '１' then (if s == "親指１" then Some(SidedPart.Thumb1) else None)
        else if s[2] == '２' then (if s == "親指２" then Some(SidedPart.Thumb2) else None)
        else None)
      else None)
    else if s[0] == '人' then (
      if |s| <= 1 then None
      else if s[1] == '指' then (
        if |s| <= 2 then None
        else if s[2] == '０' then (if s == "人指０" then Some(SidedPart.Index0) else None)
        else if s[2] == '１' then (if s == "人指１" then Some(SidedPart.Index1) else None)
        else if s[2] == '２' then (if s == "人指２" then Some(SidedPart.Index2) else None)
        else if s[2] == '３' then (if s == "人指３" then Some(SidedPart.Index3) else None)
        else None)
      else None)
    else if s[0] == '中' then (
      if |s| <= 1 then None
      else if s[1] == '指' then (
        if |s| <= 2 then None
        else if s[2] == '０' then (if s == "中指０" then Some(SidedPart.Middle0) else None)
        else if s[2] == '１' then (if s == "中指１" then Some(SidedPart.Middle1) else None)
        else if s[2] == '２' then (if s == "中指２" then Some(SidedPart.Middle2) else None)
        else if s[2] == '３' then (if s == "中指３" then Some(SidedPart.Middle3) else None)
        else None)
      else None)
    else if s[0] == '薬' then (
      if |s| <= 1 then None
      else if s[1] == '指' then (
        if |s| <= 2 then None
        else if s[2] == '０' then (if s == "薬指０" then Some(SidedPart.Ring0) else None)
        else if s[2] == '１' then (if s == "薬指１" then Some(SidedPart.Ring1) else None)
        else if s[2] == '２' then (if s == "薬指２" then Some(SidedPart.Ring2) else None)
        else if s[2] == '３' then (if s == "薬指３" then Some(SidedPart.Ring3) else None)
        else None)
      else None)
    else if s[0] == '小' then (
      if |s| <= 1 then None
      else if s[1] == '指' then (
        if |s| <= 2 then None
        else if s[2] == '０' then (if s == "小指０" then Some(SidedPart.Little0) else None)
        else if s[2] == '１' then (if s == "小指１" then Some(SidedPart.Little1) else None)
        else if s[2] == '２' then (if s == "小指２" then Some(SidedPart.Little2) else None)
        else if s[2] == '３' then (if s == "小指３" then Some(SidedPart.Little3) else None)
        else None)
      else None)
    else if s[0] == '足' then (
      if |s| == 1 then Some(SidedPart.Leg)
      else if s[1] == '首' then (
        if |s| == 2 then Some(SidedPart.Ankle)
        else if s[2] == 'D' then (if s == "足首D" then Some(SidedPart.AnkleD) else None)
        else None)
      else if s[1] == 'Ｉ' then (if s == "足ＩＫ" then Some(SidedPart.LegIk) else None)
      else if s[1] == '先' then (if s == "足先EX" then Some(SidedPart.ToeEx) else None)
      else if s[1] == 'D' then (if s == "足D" then Some(SidedPart.LegD) else None)
      else if s[1] == 'I' then (if s == "足IK親" then Some(SidedPart.LegIkParent) else None)
      else None)
    else if s[0] == 'つ' then (
      if |s| <= 1 then None
      else if s[1] == 'ま' then (
        if |s| <= 2 then None
        else if s[2] == '先' then (
          if |s| == 3 then Some(SidedPart.Toe)
          else if s[3] == 'Ｉ' then (if s == "つま先ＩＫ" then Some(SidedPart.ToeIk) else None)
          else None)
        else None)
      else None)
    else if s[0] == 'ダ' then (if s == "ダミー" then Some(SidedPart.Dummy) else None)
    else None
  }

  /** The centre entry whose MMD name is `s`, read character by character. */
  function CentreNamed(s: string): Option<MMDBoneInfo> {
    if |s| <= 0 then None
    else if s[0] == '全' then (if s == "全ての親" then Some(MMDBoneInfo.AllParents) else None)
    else if s[0] == 'セ' then (if s == "センター" then Some(MMDBoneInfo.Center) else None)
    else if s[0] == 'グ' then (if s == "グルーブ" then Some(MMDBoneInfo.Groove) else None)
    else if s[0] == '腰' then (if s == "腰" then Some(MMDBoneInfo.Waist) else None)
    else if s[0] == '上' then (
      if |s| <= 1 then None
      else if s[1] == '半' then (
        if |s| <= 2 then None
        else if s[2] == '身' then (
          if |s| == 3 then Some(MMDBoneInfo.UpperBody)
          else if s[3] == '1' then (if s == "上半身1" then Some(MMDBoneInfo.UpperBody1) else None)
          else if s[3] == '2' then (if s == "上半身2" then Some(MMDBoneInfo.UpperBody2) else None)
          else None)
        else None)
      else None)
    else if s[0] == '首' then (if s == "首" then Some(MMDBoneInfo.Neck) else None)
    else if s[0] == '頭' then (if s == "頭" then Some(MMDBoneInfo.Head) else None)
    else if s[0] == '両' then (if s == "両目" then Some(MMDBoneInfo.Eyes) else None)
    else if s[0] == '下' then (if s == "下半身" then Some(MMDBoneInfo.LowerBody) else None)
    else None
  }

  /** The catalog entry whose MMD name is `s`: the side character, then the part's name, or else
      a centre name. */
  function BoneNamed(s: string): Option<MMDBoneInfo> {
    if |s| >= 1 && (s[0] == '左' || s[0] == '右') then
      match PartNamed(s[1..])
      case Some(p) => Some(Sided(if s[0] == '左' then Left else Right, p))
      case None => None
    else CentreNamed(s)
  }

  lemma PartNamedInverts(p: SidedPart)
    ensures PartNamed(p.Info().1) == Some(p)
  {
  }

  lemma CentreNamedInverts(b: MMDBoneInfo)
    requires !b.Sided?
    ensures CentreNamed(b.MmdBoneName()) == Some(b)
  {
  }

  /** Reading an entry's MMD name gives the entry back. */
  lemma BoneNamedInverts(b: MMDBoneInfo)
    ensures BoneNamed(b.MmdBoneName()) == Some(b)
  {
    SidedMarks(b);
    if b.Sided? {
      assert b.MmdBoneName()[1..] == b.part.Info().1;
      PartNamedInverts(b.part);
    } else {
      CentreNamedInverts(b);
    }
  }

  /** No two catalog entries share an MMD name. */
  lemma NamesUnique(a: MMDBoneInfo, b: MMDBoneInfo)
    ensures a.MmdBoneName() == b.MmdBoneName() ==> a == b
  {
    BoneNamedInverts(a);
    BoneNamedInverts(b);
  }

  datatype GroupType = NoGroup | Face | Torso | ArmL | ArmR | LegL | LegR

  datatype MMDBindType =
    | NoBind | CopyPose | CopyParent | CopyLocal | CopySpine | CopyToe | CopyEye | CopyRoot | CopyLegD

  /** A bind descriptor row (MMDBindInfo): which pose bone carries a standard bone's name. */
  datatype MMDBindInfo = MMDBindInfo(
    boneInfo: MMDBoneInfo,
    poseBoneName: Option<string>,
    bindBoneName: Option<string>,
    groupType: GroupType,
    bindType: MMDBindType)

  /** The user-facing scalar controls. */
  datatype ControlType =
    | EyeMmdUuunyaa | BindMmdUuunyaa | LegLMmdUuunyaa | LegRMmdUuunyaa | ToeLMmdUuunyaa | ToeRMmdUuunyaa
    | TorsoNeckFollow | TorsoHeadFollow
    | ArmLIkFk | ArmRIkFk | ArmLIkStretch | ArmRIkStretch | ArmLIkParent | ArmRIkParent
    | ArmLPoleVector | ArmRPoleVector
    | LegLIkFk | LegRIkFk | LegLIkStretch | LegRIkStretch | LegLIkParent | LegRIkParent
    | LegLPoleVector | LegRPoleVector | LegLPoleParent | LegRPoleParent

  /** The controls whose backing property create_props creates, in its order. */
  const PropControls: seq<ControlType> :=
    [BindMmdUuunyaa, EyeMmdUuunyaa, LegLMmdUuunyaa, LegRMmdUuunyaa, ToeLMmdUuunyaa, ToeRMmdUuunyaa]

  /** The controls that have a generated property accessor, in declaration order. */
  const AccessorControls: seq<ControlType> :=
    [ TorsoNeckFollow, TorsoHeadFollow,
      ArmLIkFk, ArmRIkFk, ArmLIkStretch, ArmRIkStretch, ArmLIkParent, ArmRIkParent,
      ArmLPoleVector, ArmRPoleVector,
      LegLIkFk, LegRIkFk, LegLIkStretch, LegRIkStretch, LegLIkParent, LegRIkParent,
      LegLPoleVector, LegRPoleVector, LegLPoleParent, LegRPoleParent ]

  /** Every control is either created by create_props or reached through an accessor, never both. */
  lemma ControlsPartition(c: ControlType)
    ensures c in PropControls <==> c !in AccessorControls
  {
    if c in PropControls {
      PropControlsHaveNoAccessor(c);
    } else {
      OtherControlsHaveAccessor(c);
    }
  }

  lemma PropControlsHaveNoAccessor(c: ControlType)
    requires c in PropControls
    ensures c !in AccessorControls
  {
    match c
    case EyeMmdUuunyaa =>
    case BindMmdUuunyaa =>
    case LegLMmdUuunyaa =>
    case LegRMmdUuunyaa =>
    case ToeLMmdUuunyaa =>
    case ToeRMmdUuunyaa =>
    case _ => assert false;
  }

  lemma OtherControlsHaveAccessor(c: ControlType)
    requires c !in PropControls
    ensures c in AccessorControls
  {
    match c
    case TorsoNeckFollow =>
    case TorsoHeadFollow =>
    case ArmLIkFk =>
    case ArmRIkFk =>
    case ArmLIkStretch =>
    case ArmRIkStretch =>
    case ArmLIkParent =>
    case ArmRIkParent =>
    case ArmLPoleVector =>
    case ArmRPoleVector =>
    case LegLIkFk =>
    case LegRIkFk =>
    case LegLIkStretch =>
    case LegRIkStretch =>
    case LegLIkParent =>
    case LegRIkParent =>
    case LegLPoleVector =>
    case LegRPoleVector =>
    case LegLPoleParent =>
    case LegRPoleParent =>
    case _ => assert false;
  }
}
