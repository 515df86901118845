/** The scene bounding box of SideviewCreator2.py: a running componentwise
    minimum and maximum over the world-space bounding-box corners of every
    visible mesh object. Corners are given already transformed into world
    space; the `+inf`/`-inf` seed is the `Empty` box. */
module SceneBounds {

  datatype Point3 = Point3(x: real, y: real, z: real)

  /** A visible scene object: whether its type is 'MESH', and the corners of
      its bounding box after the object's world transform. */
  datatype SceneObject = SceneObject(isMesh: bool, worldCorners: seq<Point3>)

  /** `Empty` is the seed (every minimum +inf, every maximum -inf). */
  datatype Bounds = Empty | Box(lo: Point3, hi: Point3)

  function Min(a: real, b: real): real { if b < a then b else a }

  function Max(a: real, b: real): real { if b > a then b else a }

  /** One step of the accumulation: widen the box to contain `p`. */
  function Include(b: Bounds, p: Point3): (r: Bounds)
    ensures r.Box?
  {
    match b
    case Empty => Box(p, p)
    case Box(lo, hi) =>
      Box(Point3(Min(lo.x, p.x), Min(lo.y, p.y), Min(lo.z, p.z)),
          Point3(Max(hi.x, p.x), Max(hi.y, p.y), Max(hi.z, p.z)))
  }

  /** The world corners visited by the loop, in visiting order: the corners
      of each mesh object, objects in order, non-mesh objects skipped. */
  function MeshCorners(objects: seq<SceneObject>): seq<Point3>
  {
    if objects == [] then []
    else
      var last := objects[|objects| - 1];
      MeshCorners(objects[..|objects| - 1]) + (if last.isMesh then last.worldCorners else [])
  }

  /** The box accumulated over `points`, folding from the first point on. */
  function BoundsOf(points: seq<Point3>): (r: Bounds)
    ensures r.Empty? <==> points == []
  {
    if points == [] then Empty
    else Include(BoundsOf(points[..|points| - 1]), points[|points| - 1])
  }

  predicate Contains(b: Bounds, p: Point3)
  {
    b.Box? && b.lo.x <= p.x <= b.hi.x && b.lo.y <= p.y <= b.hi.y && b.lo.z <= p.z <= b.hi.z
  }

  /** Every point lies componentwise within the accumulated box. */
  lemma {:induction false} BoundsContainAll(points: seq<Point3>, k: nat)
    requires k < |points|
    ensures Contains(BoundsOf(points), points[k])
  {
    var init := points[..|points| - 1];
    if k < |points| - 1 {
      BoundsContainAll(init, k);
    }
  }

  /** Each component of the minimum and of the maximum is that component of
      some point: the box is the tightest one. */
  lemma {:induction false} BoundsAttained(points: seq<Point3>)
    requires points != []
    ensures exists k :: 0 <= k < |points| && BoundsOf(points).lo.x == points[k].x
    ensures exists k :: 0 <= k < |points| && BoundsOf(points).lo.y == points[k].y
    ensures exists k :: 0 <= k < |points| && BoundsOf(points).lo.z == points[k].z
    ensures exists k :: 0 <= k < |points| && BoundsOf(points).hi.x == points[k].x
    ensures exists k :: 0 <= k < |points| && BoundsOf(points).hi.y == points[k].y
    ensures exists k :: 0 <= k < |points| && BoundsOf(points).hi.z == points[k].z
  {
    var n := |points| - 1;
    var init := points[..n];
    if init != [] {
      BoundsAttained(init);
      forall k | 0 <= k < |init| ensures init[k] == points[k] { }
    }
    assert points[n] == points[|points| - 1];
  }

  /** A box that contains any point at all has its minimum below its maximum. */
  lemma BoundsOrdered(points: seq<Point3>)
    requires points != []
    ensures var b := BoundsOf(points); b.lo.x <= b.hi.x && b.lo.y <= b.hi.y && b.lo.z <= b.hi.z
  {
    BoundsContainAll(points, 0);
  }

  lemma MeshCornersStep(objects: seq<SceneObject>, i: nat)
    requires i < |objects|
    ensures MeshCorners(objects[..i + 1])
         == MeshCorners(objects[..i]) + (if objects[i].isMesh then objects[i].worldCorners else [])
  {
    assert objects[..i + 1][..i] == objects[..i];
  }

  /** `get_scene_bounding_box`: the nested loop over objects and their
      corners, updating the running minimum and maximum in place. The empty
      seed survives exactly when no mesh contributed a corner. */
  method SceneBoundingBox(objects: seq<SceneObject>) returns (b: Bounds)
    ensures b == BoundsOf(MeshCorners(objects))
    ensures b.Empty? <==> MeshCorners(objects) == []
  {
    b := Empty;
    for i := 0 to |objects|
      invariant b == BoundsOf(MeshCorners(objects[..i]))
    {
      var obj := objects[i];
      if obj.isMesh {
        ghost var before := MeshCorners(objects[..i]);
        assert before + obj.worldCorners[..0] == before;
        for j := 0 to |obj.worldCorners|
          invariant b == BoundsOf(before + obj.worldCorners[..j])
        {
          var p := obj.worldCorners[j];
          assert (before + obj.worldCorners[..j + 1])[..|before| + j] == before + obj.worldCorners[..j];
          b := Include(b, p);
        }
        assert obj.worldCorners[..|obj.worldCorners|] == obj.worldCorners;
        MeshCornersStep(objects, i);
        assert b == BoundsOf(before + obj.worldCorners);
      } else {
        MeshCornersStep(objects, i);
        assert MeshCorners(objects[..i]) + [] == MeshCorners(objects[..i]);
      }
    }
    assert objects[..|objects|] == objects;
  }

  /** After the accumulation, every world corner of every mesh object lies
      within the box. */
  lemma {:induction false} MeshCornersContained(objects: seq<SceneObject>, i: nat, k: nat)
    requires i < |objects| && objects[i].isMesh && k < |objects[i].worldCorners|
    ensures Contains(BoundsOf(MeshCorners(objects)), objects[i].worldCorners[k])
  {
    var n := |objects|;
    var init := objects[..n - 1];
    if i < n - 1 {
      MeshCornersContained(init, i, k);
      assert init[i] == objects[i];
      var c := MeshCorners(objects);
      var ci := MeshCorners(init);
      assert c == ci + (if objects[n - 1].isMesh then objects[n - 1].worldCorners else []);
      assert c[..|ci|] == ci;
      ContainsPrefix(c, |ci|, objects[i].worldCorners[k]);
    } else {
      var c := MeshCorners(objects);
      var ci := MeshCorners(init);
      assert c == ci + objects[i].worldCorners;
      assert c[|ci| + k] == objects[i].worldCorners[k];
      BoundsContainAll(c, |ci| + k);
    }
  }

  /** Extending the point sequence only widens the box. */
  lemma {:induction false} ContainsPrefix(points: seq<Point3>, n: nat, p: Point3)
    requires n <= |points| && Contains(BoundsOf(points[..n]), p)
    ensures Contains(BoundsOf(points), p)
  {
    if n < |points| {
      var init := points[..|points| - 1];
      assert init[..n] == points[..n];
      ContainsPrefix(init, n, p);
    } else {
      assert points[..n] == points;
    }
  }
}
