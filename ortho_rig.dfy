/** The six-camera orthographic rig of `GenerateCamerasOperator.execute`:
    from the scene box's minimum and maximum corners, one camera per
    cardinal direction, each with a position, an Euler rotation and an
    orthographic scale. Rotations are whole degrees (the source converts
    constant degrees with `radians`). */
module OrthoRig {
  import opened Directions
  import opened SceneBounds

  /** Euler rotation in degrees, applied in X, then Y, then Z order. */
  datatype Euler = Euler(x: int, y: int, z: int)

  datatype CameraPlan = CameraPlan(
    name: string,
    direction: Direction,
    location: Point3,
    rotation: Euler,
    orthoScale: real)

  /** Added to the largest maximum coordinate to place every camera. */
  const Margin: real := 20.0

  /** Factor applied to the largest box dimension to get the orthographic scale. */
  const ScaleFactor: real := 1.1

  /** Python's `max` over the three components of a vector. */
  function Max3(p: Point3): (m: real)
    ensures m >= p.x && m >= p.y && m >= p.z
    ensures m == p.x || m == p.y || m == p.z
  {
    if p.x >= p.y && p.x >= p.z then p.x else if p.y >= p.z then p.y else p.z
  }

  /** `distances`: how far from the origin every camera stands. */
  function CameraDistance(hi: Point3): real
  {
    Max3(hi) + Margin
  }

  /** `max_dimension`: the largest component of `max_coords - min_coords`. */
  function MaxDimension(lo: Point3, hi: Point3): real
  {
    Max3(Point3(hi.x - lo.x, hi.y - lo.y, hi.z - lo.z))
  }

  /** The location column of the camera table. */
  function LocationOf(d: Direction, distance: real, zCenter: real): Point3
  {
    match d
    case PosX => Point3(distance, 0.0, zCenter)
    case PosY => Point3(0.0, distance, zCenter)
    case PosZ => Point3(0.0, 0.0, distance)
    case NegX => Point3(-distance, 0.0, zCenter)
    case NegY => Point3(0.0, -distance, zCenter)
    case NegZ => Point3(0.0, 0.0, -distance)
  }

  /** The rotation column of the camera table, in degrees. */
  function RotationOf(d: Direction): Euler
  {
    match d
    case PosX => Euler(-90, 180, -90)
    case PosY => Euler(-90, 180, 0)
    case PosZ => Euler(0, 0, 0)
    case NegX => Euler(-90, -180, 90)
    case NegY => Euler(90, 0, 0)
    case NegZ => Euler(180, 0, 0)
  }

  /** The camera created for direction `d` from the box `lo`..`hi`: it is
      positioned as `Positioned` describes independently of the table. */
  function CameraFor(d: Direction, lo: Point3, hi: Point3): (c: CameraPlan)
    ensures Positioned(c, d, lo, hi)
  {
    CameraPlan(CameraName(d), d, LocationOf(d, CameraDistance(hi), (hi.z + lo.z) / 2.0),
               RotationOf(d), MaxDimension(lo, hi) * ScaleFactor)
  }

  // ---- An independent description of where each camera must stand ----

  /** The axis a direction lies on: 0 for X, 1 for Y, 2 for Z. */
  function AxisOf(d: Direction): nat
  {
    match d
    case PosX => 0 case NegX => 0
    case PosY => 1 case NegY => 1
    case PosZ => 2 case NegZ => 2
  }

  function SignOf(d: Direction): int
  {
    if d in {PosX, PosY, PosZ} then 1 else -1
  }

  function Component(p: Point3, axis: nat): real
    requires axis < 3
  {
    if axis == 0 then p.x else if axis == 1 then p.y else p.z
  }

  // ---- Camera orientation for rotations in multiples of 90 degrees ----

  datatype Vec3 = Vec3(x: int, y: int, z: int)

  /** The table uses whole right angles between -180 and 180 degrees only. */
  predicate RightAngle(deg: int)
  {
    deg == -180 || deg == -90 || deg == 0 || deg == 90 || deg == 180
  }

  function CosDeg(deg: int): (c: int)
    requires RightAngle(deg)
    ensures -1 <= c <= 1
  {
    if deg == 0 then 1 else if deg == 90 || deg == -90 then 0 else -1
  }

  function SinDeg(deg: int): (s: int)
    requires RightAngle(deg)
    ensures -1 <= s <= 1
  {
    if deg == 90 then 1 else if deg == -90 then -1 else 0
  }

  predicate RightAngles(r: Euler)
  {
    RightAngle(r.x) && RightAngle(r.y) && RightAngle(r.z)
  }

  /** `c * v` for a cosine or sine `c` of a right angle, kept linear. */
  function Times(c: int, v: int): int
    requires -1 <= c <= 1
  {
    if c == 0 then 0 else if c == 1 then v else -v
  }

  /** Rotate `v` by `r`: about X, then about Y, then about Z. */
  function Rotate(r: Euler, v: Vec3): Vec3
    requires RightAngles(r)
  {
    var cx, sx := CosDeg(r.x), SinDeg(r.x);
    var cy, sy := CosDeg(r.y), SinDeg(r.y);
    var cz, sz := CosDeg(r.z), SinDeg(r.z);
    var a := Vec3(v.x, Times(cx, v.y) - Times(sx, v.z), Times(sx, v.y) + Times(cx, v.z));
    var b := Vec3(Times(cy, a.x) + Times(sy, a.z), a.y, Times(cy, a.z) - Times(sy, a.x));
    Vec3(Times(cz, b.x) - Times(sz, b.y), Times(sz, b.x) + Times(cz, b.y), b.z)
  }

  /** A camera looks down its local -Z axis; its image's up is local +Y. */
  function Forward(r: Euler): Vec3
    requires RightAngles(r)
  {
    Rotate(r, Vec3(0, 0, -1))
  }

  function Up(r: Euler): Vec3
    requires RightAngles(r)
  {
    Rotate(r, Vec3(0, 1, 0))
  }

  /** The unit vector of a direction. */
  function UnitOf(d: Direction): Vec3
  {
    var s := SignOf(d);
    match AxisOf(d)
    case 0 => Vec3(s, 0, 0)
    case 1 => Vec3(0, s, 0)
    case _ => Vec3(0, 0, s)
  }

  function Negate(v: Vec3): Vec3 { Vec3(-v.x, -v.y, -v.z) }

  /** What placing a camera for direction `d` means, independently of the
      table: it stands `CameraDistance(hi)` from the origin on its own axis,
      on the side of its sign, with the other horizontal coordinate zero and,
      for the side cameras, at the box's vertical centre; its view axis
      points along its own axis toward the origin side (for the four side
      cameras a horizontal line at height `z_center`, which passes through
      the origin only when `z_center` is 0); and its orthographic scale is
      the largest box dimension times `ScaleFactor`. */
  ghost predicate Placed(c: CameraPlan, d: Direction, lo: Point3, hi: Point3)
  {
    Positioned(c, d, lo, hi) && LooksAlongAxis(c, d)
  }

  /** The camera's view direction is minus the unit vector of `d`. */
  ghost predicate LooksAlongAxis(c: CameraPlan, d: Direction)
  {
    RightAngles(c.rotation) && Forward(c.rotation) == Negate(UnitOf(d))
  }

  ghost predicate Positioned(c: CameraPlan, d: Direction, lo: Point3, hi: Point3)
  {
    && c.direction == d
    && c.name == CameraName(d)
    && Component(c.location, AxisOf(d)) == (if SignOf(d) == 1 then CameraDistance(hi) else -CameraDistance(hi))
    && (AxisOf(d) != 0 ==> c.location.x == 0.0)
    && (AxisOf(d) != 1 ==> c.location.y == 0.0)
    && (AxisOf(d) != 2 ==> c.location.z == (hi.z + lo.z) / 2.0)
    && c.orthoScale == MaxDimension(lo, hi) * ScaleFactor
  }

  /** Each rotation of the table turns the camera's view axis onto its own
      cardinal axis, pointing from the camera's side toward the other. */
  lemma RotationLooksAlongAxis(d: Direction)
    ensures RightAngles(RotationOf(d)) && Forward(RotationOf(d)) == Negate(UnitOf(d))
  {
    match d
    case PosX => assert Forward(Euler(-90, 180, -90)) == Vec3(-1, 0, 0);
    case PosY => assert Forward(Euler(-90, 180, 0)) == Vec3(0, -1, 0);
    case PosZ => assert Forward(Euler(0, 0, 0)) == Vec3(0, 0, -1);
    case NegX => assert Forward(Euler(-90, -180, 90)) == Vec3(1, 0, 0);
    case NegY => assert Forward(Euler(90, 0, 0)) == Vec3(0, 1, 0);
    case NegZ => assert Forward(Euler(180, 0, 0)) == Vec3(0, 0, 1);
  }

  /** Each row of the camera table places its camera as `Placed` demands. */
  lemma CameraForPlaced(d: Direction, lo: Point3, hi: Point3)
    ensures Placed(CameraFor(d, lo, hi), d, lo, hi)
  {
    CameraForLooksAlongAxis(d, lo, hi);
  }

  lemma CameraForLooksAlongAxis(d: Direction, lo: Point3, hi: Point3)
    ensures LooksAlongAxis(CameraFor(d, lo, hi), d)
  {
    RotationLooksAlongAxis(d);
    assert CameraFor(d, lo, hi).rotation == RotationOf(d);
  }

  /** The rig for a scene box with corners `lo` and `hi`: exactly six
      cameras, in the order X, Y, Z, -X, -Y, -Z, each placed as `Placed`
      says, so all six share one orthographic scale. */
  function PlanRig(lo: Point3, hi: Point3): (rig: seq<CameraPlan>)
    ensures |rig| == 6
    ensures forall i :: 0 <= i < 6 ==> Placed(rig[i], Order[i], lo, hi)
  {
    var rig := seq(6, i requires 0 <= i < 6 => CameraFor(Order[i], lo, hi));
    assert forall i :: 0 <= i < 6 ==> Placed(rig[i], Order[i], lo, hi) by {
      forall i | 0 <= i < 6 ensures Placed(rig[i], Order[i], lo, hi) {
        CameraForPlaced(Order[i], lo, hi);
      }
    }
    rig
  }

  /** The four side cameras share one image "up", world +Z, so their images
      sit upright side by side in the collage; the top camera's up is +Y and
      the bottom camera's -Y. */
  lemma UpOfRotation(d: Direction)
    ensures RightAngles(RotationOf(d))
    ensures Up(RotationOf(d)) == (if AxisOf(d) == 2 then Vec3(0, SignOf(d), 0) else Vec3(0, 0, 1))
  {
    match d
    case PosX => assert Up(Euler(-90, 180, -90)) == Vec3(0, 0, 1);
    case PosY => assert Up(Euler(-90, 180, 0)) == Vec3(0, 0, 1);
    case PosZ => assert Up(Euler(0, 0, 0)) == Vec3(0, 1, 0);
    case NegX => assert Up(Euler(-90, -180, 90)) == Vec3(0, 0, 1);
    case NegY => assert Up(Euler(90, 0, 0)) == Vec3(0, 0, 1);
    case NegZ => assert Up(Euler(180, 0, 0)) == Vec3(0, -1, 0);
  }

  lemma SideCamerasUpright(lo: Point3, hi: Point3, i: nat)
    requires i < 6
    ensures var c := PlanRig(lo, hi)[i];
      RightAngles(c.rotation) &&
      Up(c.rotation) == (if AxisOf(Order[i]) == 2 then Vec3(0, SignOf(Order[i]), 0) else Vec3(0, 0, 1))
  {
    var rig := PlanRig(lo, hi);
    assert rig[i].rotation == RotationOf(Order[i]);
    UpOfRotation(Order[i]);
  }

  /** A camera on the positive side of an axis, positioned as the rig
      positions it, stands at least `Margin` beyond the box's far face on
      that axis. */
  lemma PositiveCamerasClearBox(c: CameraPlan, d: Direction, lo: Point3, hi: Point3)
    requires Positioned(c, d, lo, hi) && SignOf(d) == 1
    ensures Component(c.location, AxisOf(d)) >= Component(hi, AxisOf(d)) + Margin
  {
  }

  /** A camera on the negative side stands `Margin` or more beyond the box's
      near face exactly when the box reaches no further below the origin
      than its largest maximum coordinate reaches above it: the distance is
      taken from `hi` alone. */
  lemma NegativeCamerasClearCentredBox(c: CameraPlan, d: Direction, lo: Point3, hi: Point3)
    requires Positioned(c, d, lo, hi) && SignOf(d) == -1
    ensures Component(c.location, AxisOf(d)) <= Component(lo, AxisOf(d)) - Margin
      <==> -Component(lo, AxisOf(d)) <= Max3(hi)
  {
  }

  /** An off-centre box: for a box over x in [-100, -50] a -X camera
      positioned as the rig positions it stands at x = -21, beyond the box's
      maximum x, so it looks towards +X away from the model. */
  lemma NegativeCameraOffCentreBox(c: CameraPlan, lo: Point3, hi: Point3)
    requires lo == Point3(-100.0, -1.0, -1.0) && hi == Point3(-50.0, 1.0, 1.0)
    requires Positioned(c, NegX, lo, hi)
    ensures c.location.x == -21.0 && c.location.x > hi.x
  {
    assert Max3(hi) == 1.0;
  }

  /** The orthographic scale covers the box's largest dimension with a 10%
      margin; for a non-degenerate box it is at least each dimension. */
  lemma OrthoScaleCoversBox(lo: Point3, hi: Point3, i: nat)
    requires i < 6 && lo.x <= hi.x && lo.y <= hi.y && lo.z <= hi.z
    ensures var s := PlanRig(lo, hi)[i].orthoScale;
      s >= hi.x - lo.x && s >= hi.y - lo.y && s >= hi.z - lo.z
  {
  }
}
