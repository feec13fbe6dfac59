/** Double dispatch: each operation is a separate visitor with one handler
    per variant, and a body's `Accept` routes to the handler for its own
    variant. Here each visitor is one function whose `match` is that
    routing. Two visitors are modelled: the bounding-box visitor and the
    Boxify rewrite built on it. */
module Visitor {
  import opened Vectors
  import opened Bodies

  /** The bounding-box visitor. Leaves give their boxes directly; a
      compound visits every part with a fresh bounding-box visitor and
      encloses the results. */
  function BoundingBox(b: Body): (box: Box)
    requires Valid(b)
    ensures b.Cuboid? ==> box == b
    ensures !b.Compound? ==> box.position == b.position
  {
    match b
    case Ball(c, radius) =>
      var length := radius * 2.0;
      Cuboid(c, length, length, length)
    case Cuboid(c, sx, sy, sz) =>
      Cuboid(c, sx, sy, sz)
    case Cylinder(c, sz, radius) =>
      Cuboid(c, radius * 2.0, radius * 2.0, sz)
    case Compound(_, ps) =>
      Enclose(PartBoxes(ps))
  }

  /** The bounding boxes of a compound's parts, each from a fresh visitor,
      in part order. */
  function PartBoxes(ps: seq<Body>): (boxes: seq<Box>)
    requires forall i :: 0 <= i < |ps| ==> Valid(ps[i])
    ensures |boxes| == |ps|
    ensures forall i :: 0 <= i < |ps| ==> boxes[i] == BoundingBox(ps[i])
  {
    if |ps| == 0 then []
    else [BoundingBox(ps[0])] + PartBoxes(ps[1..])
  }

  /** The corners of a leaf's box: a ball's cube reaches one radius from
      the centre on every axis; a cylinder's box one radius in X and Y and
      half the height in Z. */
  lemma LeafBoxCorners(b: Body)
    requires !b.Compound?
    ensures b.Ball? ==>
      && MinValue(BoundingBox(b)) == Vector3(b.position.x - b.radius, b.position.y - b.radius, b.position.z - b.radius)
      && MaxValue(BoundingBox(b)) == Vector3(b.position.x + b.radius, b.position.y + b.radius, b.position.z + b.radius)
    ensures b.Cylinder? ==>
      && MinValue(BoundingBox(b)) == Vector3(b.position.x - b.radius, b.position.y - b.radius, b.position.z - b.sizeZ / 2.0)
      && MaxValue(BoundingBox(b)) == Vector3(b.position.x + b.radius, b.position.y + b.radius, b.position.z + b.sizeZ / 2.0)
  {
  }

  /** A compound's box is the least box around its parts' boxes: every
      part's box lies inside it, and any box around all parts' boxes
      contains it. */
  lemma CompoundBoxIsLeast(b: Body)
    requires b.Compound? && Valid(b)
    ensures forall i :: 0 <= i < |b.parts| ==> BoxInside(BoundingBox(b.parts[i]), BoundingBox(b))
    ensures forall c: Box ::
      (forall i :: 0 <= i < |b.parts| ==> BoxInside(BoundingBox(b.parts[i]), c)) ==> BoxInside(BoundingBox(b), c)
  {
    var boxes := PartBoxes(b.parts);
    assert BoundingBox(b) == Enclose(boxes);
    forall c: Box | forall i :: 0 <= i < |b.parts| ==> BoxInside(BoundingBox(b.parts[i]), c)
      ensures BoxInside(BoundingBox(b), c)
    {
      EncloseIsLeast(boxes, c);
    }
  }

  /** On each axis a compound's least corner is the minimum of its parts'
      least corners and its greatest corner the maximum of their greatest
      corners: bounded by every part, attained by some part. */
  lemma CompoundBoxCorners(b: Body)
    requires b.Compound? && Valid(b)
    ensures forall i :: 0 <= i < |b.parts| ==>
      Le(MinValue(BoundingBox(b)), MinValue(BoundingBox(b.parts[i])))
      && Le(MaxValue(BoundingBox(b.parts[i])), MaxValue(BoundingBox(b)))
    ensures exists i :: 0 <= i < |b.parts| && MinValue(BoundingBox(b)).x == MinValue(BoundingBox(b.parts[i])).x
    ensures exists i :: 0 <= i < |b.parts| && MinValue(BoundingBox(b)).y == MinValue(BoundingBox(b.parts[i])).y
    ensures exists i :: 0 <= i < |b.parts| && MinValue(BoundingBox(b)).z == MinValue(BoundingBox(b.parts[i])).z
    ensures exists i :: 0 <= i < |b.parts| && MaxValue(BoundingBox(b)).x == MaxValue(BoundingBox(b.parts[i])).x
    ensures exists i :: 0 <= i < |b.parts| && MaxValue(BoundingBox(b)).y == MaxValue(BoundingBox(b.parts[i])).y
    ensures exists i :: 0 <= i < |b.parts| && MaxValue(BoundingBox(b)).z == MaxValue(BoundingBox(b.parts[i])).z
  {
    var boxes := PartBoxes(b.parts);
    var lo, hi := MinCorner(boxes), MaxCorner(boxes);
    assert MinValue(BoundingBox(b)) == lo && MaxValue(BoundingBox(b)) == hi;
    var ix :| 0 <= ix < |boxes| && lo.x == MinValue(boxes[ix]).x;
    var iy :| 0 <= iy < |boxes| && lo.y == MinValue(boxes[iy]).y;
    var iz :| 0 <= iz < |boxes| && lo.z == MinValue(boxes[iz]).z;
    var jx :| 0 <= jx < |boxes| && hi.x == MaxValue(boxes[jx]).x;
    var jy :| 0 <= jy < |boxes| && hi.y == MaxValue(boxes[jy]).y;
    var jz :| 0 <= jz < |boxes| && hi.z == MaxValue(boxes[jz]).z;
    assert boxes[ix] == BoundingBox(b.parts[ix]) && boxes[iy] == BoundingBox(b.parts[iy]);
    assert boxes[iz] == BoundingBox(b.parts[iz]) && boxes[jx] == BoundingBox(b.parts[jx]);
    assert boxes[jy] == BoundingBox(b.parts[jy]) && boxes[jz] == BoundingBox(b.parts[jz]);
  }

  /** With non-negative radii and sizes every bounding box has non-negative
      sizes, compounds included. */
  lemma {:induction false} BoundingBoxNonNegative(b: Body)
    requires Valid(b) && SizesNonNegative(b)
    ensures Le(MinValue(BoundingBox(b)), MaxValue(BoundingBox(b)))
    ensures BoundingBox(b).sizeX >= 0.0 && BoundingBox(b).sizeY >= 0.0 && BoundingBox(b).sizeZ >= 0.0
  {
    match b
    case Compound(_, ps) =>
      var boxes := PartBoxes(ps);
      forall i | 0 <= i < |ps|
        ensures Le(MinValue(boxes[i]), MaxValue(boxes[i]))
      {
        BoundingBoxNonNegative(ps[i]);
      }
      EncloseNonNegative(boxes);
    case _ =>
  }

  /** A compound of exactly one part has exactly that part's box. */
  lemma OnePartCompound(part: Body)
    requires Valid(part)
    ensures BoundingBox(NewCompound([part]).value) == BoundingBox(part)
  {
    var b := NewCompound([part]).value;
    assert PartBoxes(b.parts) == [BoundingBox(part)];
    EncloseOne(BoundingBox(part));
  }

  /** The two trees have the same nesting: compounds in the same places,
      with the same number of parts, leaves in the same places. */
  predicate SameShape(a: Body, b: Body) {
    match a
    case Compound(_, ps) =>
      && b.Compound?
      && |ps| == |b.parts|
      && forall i :: 0 <= i < |ps| ==> SameShape(ps[i], b.parts[i])
    case _ => !b.Compound?
  }

  /** Every leaf of the tree is a cuboid. */
  predicate CuboidLeaves(b: Body) {
    match b
    case Compound(_, ps) => forall i :: 0 <= i < |ps| ==> CuboidLeaves(ps[i])
    case _ => b.Cuboid?
  }

  /** The Boxify visitor: every leaf becomes its bounding box, and every
      compound is rebuilt through the compound constructor from its
      boxified parts, in order. The result is a well-formed tree of the
      same shape and position whose leaves are all cuboids. */
  function Boxify(b: Body): (r: Body)
    requires Valid(b)
    ensures Valid(r)
    ensures SameShape(b, r)
    ensures CuboidLeaves(r)
    ensures r.position == b.position
    ensures !b.Compound? ==> r == BoundingBox(b)
  {
    match b
    case Compound(_, ps) =>
      NewCompound(BoxifyParts(ps)).value
    case _ =>
      BoundingBox(b)
  }

  /** The boxified parts of a compound, in part order. */
  function BoxifyParts(ps: seq<Body>): (qs: seq<Body>)
    requires forall i :: 0 <= i < |ps| ==> Valid(ps[i])
    ensures |qs| == |ps|
    ensures forall i :: 0 <= i < |ps| ==> qs[i] == Boxify(ps[i])
  {
    if |ps| == 0 then []
    else [Boxify(ps[0])] + BoxifyParts(ps[1..])
  }

  /** A tree whose leaves are all cuboids is a fixed point of Boxify. */
  lemma {:induction false} BoxifyFixesCuboidTrees(b: Body)
    requires Valid(b) && CuboidLeaves(b)
    ensures Boxify(b) == b
  {
    match b
    case Compound(_, ps) =>
      forall i | 0 <= i < |ps|
        ensures Boxify(ps[i]) == ps[i]
      {
        BoxifyFixesCuboidTrees(ps[i]);
      }
      assert Boxify(b).parts == ps;
    case _ =>
  }

  /** Boxify is idempotent. */
  lemma {:induction false} BoxifyIdempotent(b: Body)
    requires Valid(b)
    ensures Boxify(Boxify(b)) == Boxify(b)
  {
    BoxifyFixesCuboidTrees(Boxify(b));
  }

  /** Boxify keeps the bounding box of every tree, and of every part of a
      compound, position by position. */
  lemma {:induction false} BoxifyKeepsBoundingBox(b: Body)
    requires Valid(b)
    ensures BoundingBox(Boxify(b)) == BoundingBox(b)
    ensures b.Compound? ==>
      forall i :: 0 <= i < |b.parts| ==> BoundingBox(Boxify(b).parts[i]) == BoundingBox(b.parts[i])
  {
    match b
    case Compound(_, ps) =>
      var qs := Boxify(b).parts;
      forall i | 0 <= i < |ps|
        ensures BoundingBox(qs[i]) == BoundingBox(ps[i])
      {
        BoxifyKeepsBoundingBox(ps[i]);
      }
      assert PartBoxes(qs) == PartBoxes(ps);
    case _ =>
  }
}
