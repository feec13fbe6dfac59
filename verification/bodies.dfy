/** The closed family of rigid bodies shared by both dispatch styles, the
    compound constructor with its failure case, the corner accessors of a
    rectangular cuboid, and the per-axis aggregation that folds the boxes
    of a compound's parts into one enclosing box. */
module Bodies {
  import opened Vectors
  import opened Aggregates

  /** A body. Every variant has a position: the centre of a ball, of a
      cuboid and of a cylinder's extent, and for a compound the position of
      its first part (fixed when the compound is built, see `NewCompound`).
      A cylinder's axis is world Z; a cuboid is axis-aligned. */
  datatype Body =
    | Ball(position: Vector3, radius: real)
    | Cuboid(position: Vector3, sizeX: real, sizeY: real, sizeZ: real)
    | Cylinder(position: Vector3, sizeZ: real, radius: real)
    | Compound(position: Vector3, parts: seq<Body>)

  /** Bounding boxes are rectangular cuboids. */
  type Box = b: Body | b.Cuboid? witness Cuboid(Vector3(0.0, 0.0, 0.0), 0.0, 0.0, 0.0)

  /** The only way to build a compound fails on an empty parts list. */
  datatype Error = EmptyParts

  datatype Result<T> = Success(value: T) | Failure(error: Error)

  /** A body tree as the constructors can produce it: every compound has at
      least one part and carries its first part's position. */
  predicate Valid(b: Body) {
    match b
    case Compound(pos, ps) =>
      && |ps| > 0
      && pos == ps[0].position
      && forall i :: 0 <= i < |ps| ==> Valid(ps[i])
    case _ => true
  }

  /** Every radius in the tree is non-negative. */
  predicate RadiiNonNegative(b: Body) {
    match b
    case Ball(_, r) => r >= 0.0
    case Cuboid(_, _, _, _) => true
    case Cylinder(_, _, r) => r >= 0.0
    case Compound(_, ps) => forall i :: 0 <= i < |ps| ==> RadiiNonNegative(ps[i])
  }

  /** Every radius and every size in the tree is non-negative: the
      documented contract on the callers that build bodies. */
  predicate SizesNonNegative(b: Body) {
    match b
    case Ball(_, r) => r >= 0.0
    case Cuboid(_, sx, sy, sz) => sx >= 0.0 && sy >= 0.0 && sz >= 0.0
    case Cylinder(_, sz, r) => sz >= 0.0 && r >= 0.0
    case Compound(_, ps) => forall i :: 0 <= i < |ps| ==> SizesNonNegative(ps[i])
  }

  /** The compound constructor: the position is read from the first part,
      so an empty list is refused. */
  function NewCompound(parts: seq<Body>): (r: Result<Body>)
    ensures r.Success? <==> |parts| > 0
    ensures r.Success? ==> r.value.Compound? && r.value.parts == parts
    ensures r.Success? ==> r.value.position == parts[0].position
    ensures r.Success? ==> (Valid(r.value) <==> forall i :: 0 <= i < |parts| ==> Valid(parts[i]))
  {
    if |parts| == 0 then Failure(EmptyParts)
    else Success(Compound(parts[0].position, parts))
  }

  /** The corner of a cuboid with the least coordinates. */
  function MinValue(c: Box): Vector3 {
    Vector3(c.position.x - c.sizeX / 2.0, c.position.y - c.sizeY / 2.0, c.position.z - c.sizeZ / 2.0)
  }

  /** The corner of a cuboid with the greatest coordinates. */
  function MaxValue(c: Box): Vector3 {
    Vector3(c.position.x + c.sizeX / 2.0, c.position.y + c.sizeY / 2.0, c.position.z + c.sizeZ / 2.0)
  }

  /** How a cuboid's two corners relate to its centre and sizes: they are
      the sizes apart on every axis, their midpoint is the centre, and they
      are ordered (the least below the centre, the centre below the
      greatest) exactly when no size is negative. */
  lemma CornerGeometry(c: Box)
    ensures MaxValue(c).x - MinValue(c).x == c.sizeX
    ensures MaxValue(c).y - MinValue(c).y == c.sizeY
    ensures MaxValue(c).z - MinValue(c).z == c.sizeZ
    ensures Vector3((MinValue(c).x + MaxValue(c).x) / 2.0, (MinValue(c).y + MaxValue(c).y) / 2.0,
                    (MinValue(c).z + MaxValue(c).z) / 2.0) == c.position
    ensures Le(MinValue(c), MaxValue(c)) <==> c.sizeX >= 0.0 && c.sizeY >= 0.0 && c.sizeZ >= 0.0
    ensures Le(MinValue(c), c.position) <==> c.sizeX >= 0.0 && c.sizeY >= 0.0 && c.sizeZ >= 0.0
    ensures Le(c.position, MaxValue(c)) <==> c.sizeX >= 0.0 && c.sizeY >= 0.0 && c.sizeZ >= 0.0
  {
  }

  /** The cuboid spanned by two corners: centred at their midpoint with the
      corner differences as sizes. */
  function FromCorners(lo: Vector3, hi: Vector3): (c: Box)
    ensures MinValue(c) == lo && MaxValue(c) == hi
  {
    Cuboid(Vector3((hi.x + lo.x) / 2.0, (hi.y + lo.y) / 2.0, (hi.z + lo.z) / 2.0),
           hi.x - lo.x, hi.y - lo.y, hi.z - lo.z)
  }

  /** Rebuilding a cuboid from its own corners gives the cuboid back. */
  lemma CornersRoundTrip(c: Box)
    ensures FromCorners(MinValue(c), MaxValue(c)) == c
  {
  }

  /** `inner` lies inside `outer` (faces may touch). */
  predicate BoxInside(inner: Box, outer: Box) {
    Le(MinValue(outer), MinValue(inner)) && Le(MaxValue(inner), MaxValue(outer))
  }

  /** Per-axis minimum of the boxes' least corners. */
  function MinCorner(boxes: seq<Box>): (lo: Vector3)
    requires |boxes| > 0
    ensures forall i :: 0 <= i < |boxes| ==> Le(lo, MinValue(boxes[i]))
    ensures exists i :: 0 <= i < |boxes| && lo.x == MinValue(boxes[i]).x
    ensures exists i :: 0 <= i < |boxes| && lo.y == MinValue(boxes[i]).y
    ensures exists i :: 0 <= i < |boxes| && lo.z == MinValue(boxes[i]).z
  {
    var xs := seq(|boxes|, i requires 0 <= i < |boxes| => MinValue(boxes[i]).x);
    var ys := seq(|boxes|, i requires 0 <= i < |boxes| => MinValue(boxes[i]).y);
    var zs := seq(|boxes|, i requires 0 <= i < |boxes| => MinValue(boxes[i]).z);
    assert forall i :: 0 <= i < |boxes| ==> xs[i] == MinValue(boxes[i]).x && ys[i] == MinValue(boxes[i]).y && zs[i] == MinValue(boxes[i]).z;
    Vector3(MinOf(xs), MinOf(ys), MinOf(zs))
  }

  /** Per-axis maximum of the boxes' greatest corners. */
  function MaxCorner(boxes: seq<Box>): (hi: Vector3)
    requires |boxes| > 0
    ensures forall i :: 0 <= i < |boxes| ==> Le(MaxValue(boxes[i]), hi)
    ensures exists i :: 0 <= i < |boxes| && hi.x == MaxValue(boxes[i]).x
    ensures exists i :: 0 <= i < |boxes| && hi.y == MaxValue(boxes[i]).y
    ensures exists i :: 0 <= i < |boxes| && hi.z == MaxValue(boxes[i]).z
  {
    var xs := seq(|boxes|, i requires 0 <= i < |boxes| => MaxValue(boxes[i]).x);
    var ys := seq(|boxes|, i requires 0 <= i < |boxes| => MaxValue(boxes[i]).y);
    var zs := seq(|boxes|, i requires 0 <= i < |boxes| => MaxValue(boxes[i]).z);
    assert forall i :: 0 <= i < |boxes| ==> xs[i] == MaxValue(boxes[i]).x && ys[i] == MaxValue(boxes[i]).y && zs[i] == MaxValue(boxes[i]).z;
    Vector3(MaxOf(xs), MaxOf(ys), MaxOf(zs))
  }

  /** The box a compound gets from its parts' boxes: spanned by the per-axis
      minimum of the least corners and maximum of the greatest corners. It
      contains every part's box (and is the least such box, see
      `EncloseIsLeast`). */
  function Enclose(boxes: seq<Box>): (e: Box)
    requires |boxes| > 0
    ensures forall i :: 0 <= i < |boxes| ==> BoxInside(boxes[i], e)
  {
    FromCorners(MinCorner(boxes), MaxCorner(boxes))
  }

  /** Any box that contains every one of the boxes contains their
      enclosing box. */
  lemma EncloseIsLeast(boxes: seq<Box>, c: Box)
    requires |boxes| > 0
    requires forall i :: 0 <= i < |boxes| ==> BoxInside(boxes[i], c)
    ensures BoxInside(Enclose(boxes), c)
  {
    var lo, hi := MinCorner(boxes), MaxCorner(boxes);
    var ix :| 0 <= ix < |boxes| && lo.x == MinValue(boxes[ix]).x;
    var iy :| 0 <= iy < |boxes| && lo.y == MinValue(boxes[iy]).y;
    var iz :| 0 <= iz < |boxes| && lo.z == MinValue(boxes[iz]).z;
    var jx :| 0 <= jx < |boxes| && hi.x == MaxValue(boxes[jx]).x;
    var jy :| 0 <= jy < |boxes| && hi.y == MaxValue(boxes[jy]).y;
    var jz :| 0 <= jz < |boxes| && hi.z == MaxValue(boxes[jz]).z;
    assert BoxInside(boxes[ix], c) && BoxInside(boxes[iy], c) && BoxInside(boxes[iz], c);
    assert BoxInside(boxes[jx], c) && BoxInside(boxes[jy], c) && BoxInside(boxes[jz], c);
  }

  /** Enclosing a single box gives that box back, exactly. */
  lemma EncloseOne(c: Box)
    ensures Enclose([c]) == c
  {
    var lo := MinCorner([c]);
    var hi := MaxCorner([c]);
    assert lo == MinValue(c);
    assert hi == MaxValue(c);
    CornersRoundTrip(c);
  }

  /** The enclosing box of boxes with ordered corners has ordered corners,
      hence non-negative sizes. */
  lemma EncloseNonNegative(boxes: seq<Box>)
    requires |boxes| > 0
    requires forall i :: 0 <= i < |boxes| ==> Le(MinValue(boxes[i]), MaxValue(boxes[i]))
    ensures Le(MinValue(Enclose(boxes)), MaxValue(Enclose(boxes)))
    ensures Enclose(boxes).sizeX >= 0.0 && Enclose(boxes).sizeY >= 0.0 && Enclose(boxes).sizeZ >= 0.0
  {
    var e := Enclose(boxes);
    assert BoxInside(boxes[0], e);
    LeTransitive(MinValue(e), MinValue(boxes[0]), MaxValue(boxes[0]));
    LeTransitive(MinValue(e), MaxValue(boxes[0]), MaxValue(e));
  }
}
