/** The exceptions the rig-binding layer raises, named after what goes wrong. */
module Errors {
  import Catalog

  datatype Error =
      /** KeyError: `datapaths[...]` indexed with a control the rig variant lacks. */
    | MissingControl(control: Catalog.ControlType)
      /** KeyError: `pose_bones[...]` indexed with a bone the armature lacks. */
    | MissingBone(bone: string)
      /** KeyError: a custom property read that the bone does not hold. */
    | MissingProperty(prop: string)
      /** ValueError: to_angle given a plane other than XY, XZ or YZ. */
    | UnknownPlane(plane: string)
      /** TypeError: a keyword argument given twice when a helper forwards its kwargs. */
    | DuplicateKeyword
}
