/** The six cardinal view directions shared by the camera rig, the collage
    layout and the per-face texture slots, with the names the add-on derives
    from them. */
module Directions {

  datatype Direction = PosX | PosY | PosZ | NegX | NegY | NegZ

  /** The fixed order X, Y, Z, -X, -Y, -Z used by the camera table, the
      collage and the crop table alike. */
  const Order: seq<Direction> := [PosX, PosY, PosZ, NegX, NegY, NegZ]

  /** The suffix the add-on writes after `Camera_` and `T_B_`. */
  function Label(d: Direction): (s: string)
    ensures '_' !in s && 1 <= |s| <= 2
  {
    match d
    case PosX => "X"
    case PosY => "Y"
    case PosZ => "Z"
    case NegX => "-X"
    case NegY => "-Y"
    case NegZ => "-Z"
  }

  /** Name given to the camera object of a direction. */
  function CameraName(d: Direction): string
  {
    "Camera_" + Label(d)
  }

  /** Name of the sub-texture cropped for a direction. */
  function SlotName(d: Direction): string
  {
    "T_B_" + Label(d)
  }

  /** Every direction occurs exactly once in Order, and its labels are distinct. */
  lemma OrderIsEnumeration()
    ensures |Order| == 6
    ensures forall d: Direction :: d in Order
    ensures forall i, j :: 0 <= i < j < |Order| ==> Label(Order[i]) != Label(Order[j])
  {
    forall d: Direction ensures d in Order {
      match d
      case PosX => assert Order[0] == d;
      case PosY => assert Order[1] == d;
      case PosZ => assert Order[2] == d;
      case NegX => assert Order[3] == d;
      case NegY => assert Order[4] == d;
      case NegZ => assert Order[5] == d;
    }
  }
}
