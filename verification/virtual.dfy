/** Direct dispatch: each variant answers the point-containment test and
    computes its own axis-aligned bounding box; a compound asks its parts. */
module Virtual {
  import opened Vectors
  import opened Aggregates
  import opened Bodies

  /** Whether `p` lies in the closed volume of `b`.
      Ball: squared distance to the centre at most the squared radius.
      Cuboid: between the two corners on every axis, faces included.
      Cylinder: planar squared distance to the axis at most the squared
      radius, and within half the height of the centre along Z.
      Compound: some part contains `p`. */
  function ContainsPoint(b: Body, p: Vector3): (r: bool)
    ensures b.Ball? ==>
      (r <==> ((p.x - b.position.x) * (p.x - b.position.x)
               + (p.y - b.position.y) * (p.y - b.position.y)
               + (p.z - b.position.z) * (p.z - b.position.z) <= b.radius * b.radius))
    ensures b.Cuboid? ==> (r <==> Le(MinValue(b), p) && Le(p, MaxValue(b)))
    ensures b.Cylinder? ==>
      (r <==> && (p.x - b.position.x) * (p.x - b.position.x)
                 + (p.y - b.position.y) * (p.y - b.position.y) <= b.radius * b.radius
              && b.position.z - b.sizeZ / 2.0 <= p.z <= b.position.z + b.sizeZ / 2.0)
    ensures b.Compound? ==> (r <==> exists i :: 0 <= i < |b.parts| && ContainsPoint(b.parts[i], p))
  {
    match b
    case Ball(c, radius) =>
      Length2(Sub(p, c)) <= radius * radius
    case Cuboid(c, sx, sy, sz) =>
      var minPoint := Vector3(c.x - sx / 2.0, c.y - sy / 2.0, c.z - sz / 2.0);
      var maxPoint := Vector3(c.x + sx / 2.0, c.y + sy / 2.0, c.z + sz / 2.0);
      Ge(p, minPoint) && Le(p, maxPoint)
    case Cylinder(c, sz, radius) =>
      var dx := p.x - c.x;
      var dy := p.y - c.y;
      var minZ := c.z - sz / 2.0;
      var maxZ := minZ + sz;
      dx * dx + dy * dy <= radius * radius && p.z >= minZ && p.z <= maxZ
    case Compound(_, ps) =>
      Any(PartsContain(ps, p))
  }

  /** Each part's answer for `p`, in part order. */
  function PartsContain(ps: seq<Body>, p: Vector3): (hits: seq<bool>)
    ensures |hits| == |ps|
    ensures forall i :: 0 <= i < |ps| ==> hits[i] == ContainsPoint(ps[i], p)
  {
    if |ps| == 0 then []
    else [ContainsPoint(ps[0], p)] + PartsContain(ps[1..], p)
  }

  /** The bounding box of a body. A ball gives a cube of side twice its
      radius, a cuboid an identical cuboid, a cylinder a box twice its
      radius wide in X and Y and as tall as the cylinder, all centred at the
      body's position; a compound the box enclosing its parts' boxes. */
  function GetBoundingBox(b: Body): (box: Box)
    requires Valid(b)
    ensures !b.Compound? ==> box.position == b.position
  {
    match b
    case Ball(c, radius) =>
      var length := radius * 2.0;
      Cuboid(c, length, length, length)
    case Cuboid(c, sx, sy, sz) =>
      Cuboid(c, sx, sy, sz)
    case Cylinder(c, sz, radius) =>
      Cuboid(c, radius * 2.0, radius * 2.0, sz)
    case Compound(_, ps) =>
      Enclose(PartBoxes(ps))
  }

  /** Each part's bounding box, in part order. */
  function PartBoxes(ps: seq<Body>): (boxes: seq<Box>)
    requires forall i :: 0 <= i < |ps| ==> Valid(ps[i])
    ensures |boxes| == |ps|
    ensures forall i :: 0 <= i < |ps| ==> boxes[i] == GetBoundingBox(ps[i])
  {
    if |ps| == 0 then []
    else [GetBoundingBox(ps[0])] + PartBoxes(ps[1..])
  }

  /** With non-negative radii and sizes every bounding box has ordered
      corners, compounds included. */
  lemma {:induction false} BoundingBoxNonNegative(b: Body)
    requires Valid(b) && SizesNonNegative(b)
    ensures Le(MinValue(GetBoundingBox(b)), MaxValue(GetBoundingBox(b)))
  {
    match b
    case Compound(_, ps) =>
      var boxes := PartBoxes(ps);
      forall i | 0 <= i < |ps|
        ensures Le(MinValue(boxes[i]), MaxValue(boxes[i]))
      {
        BoundingBoxNonNegative(ps[i]);
      }
      EncloseNonNegative(boxes);
    case _ =>
  }

  /** A cuboid with non-negative sizes has its least corner below its
      greatest one and contains its own centre. */
  lemma CuboidContainsCentre(c: Box)
    requires c.sizeX >= 0.0 && c.sizeY >= 0.0 && c.sizeZ >= 0.0
    ensures Le(MinValue(c), MaxValue(c))
    ensures ContainsPoint(c, c.position)
  {
  }

  /** Bounding-box soundness: with non-negative radii, every point of a body
      lies in its bounding box. Sizes may be negative: a cuboid's box is the
      cuboid itself, and a compound's box encloses its parts' boxes. */
  lemma {:induction false} BoundingBoxSound(b: Body, p: Vector3)
    requires Valid(b) && RadiiNonNegative(b)
    requires ContainsPoint(b, p)
    ensures ContainsPoint(GetBoundingBox(b), p)
  {
    match b
    case Ball(c, r) =>
      var dx, dy, dz := p.x - c.x, p.y - c.y, p.z - c.z;
      assert dx * dx >= 0.0 && dy * dy >= 0.0 && dz * dz >= 0.0;
      assert dx * dx + dy * dy + dz * dz <= r * r;
      assert dx * dx <= r * r && dy * dy <= r * r && dz * dz <= r * r;
      SquareBound(dx, r);
      SquareBound(dy, r);
      SquareBound(dz, r);
    case Cuboid(_, _, _, _) =>
    case Cylinder(c, sz, r) =>
      var dx, dy := p.x - c.x, p.y - c.y;
      assert dx * dx >= 0.0 && dy * dy >= 0.0;
      assert dx * dx <= r * r && dy * dy <= r * r;
      SquareBound(dx, r);
      SquareBound(dy, r);
    case Compound(_, ps) =>
      var k :| 0 <= k < |ps| && ContainsPoint(ps[k], p);
      BoundingBoxSound(ps[k], p);
      var boxes := PartBoxes(ps);
      assert GetBoundingBox(b) == Enclose(boxes);
      assert boxes[k] == GetBoundingBox(ps[k]);
      var e := Enclose(boxes);
      assert BoxInside(boxes[k], e);
      LeTransitive(MinValue(e), MinValue(boxes[k]), p);
      LeTransitive(p, MaxValue(boxes[k]), MaxValue(e));
  }

  /** Bounding-box leastness: with non-negative radii and sizes, any box
      that contains every point of a body contains its bounding box. Each
      leaf reaches every face of its box, and a compound's box is the least
      box around its parts' boxes. */
  lemma {:induction false} BoundingBoxLeast(b: Body, box: Box)
    requires Valid(b) && SizesNonNegative(b)
    requires forall p :: ContainsPoint(b, p) ==> ContainsPoint(box, p)
    ensures BoxInside(GetBoundingBox(b), box)
  {
    match b
    case Ball(_, _) => LeafBoxLeast(b, box);
    case Cuboid(_, _, _, _) => LeafBoxLeast(b, box);
    case Cylinder(_, _, _) => LeafBoxLeast(b, box);
    case Compound(_, ps) =>
      var boxes := PartBoxes(ps);
      forall i | 0 <= i < |ps|
        ensures BoxInside(boxes[i], box)
      {
        forall p | ContainsPoint(ps[i], p)
          ensures ContainsPoint(box, p)
        {
          assert ContainsPoint(b, p);
        }
        BoundingBoxLeast(ps[i], box);
      }
      EncloseIsLeast(boxes, box);
  }

  /** A leaf reaches every face of its bounding box: a ball at one radius
      along each axis, a cuboid at its corners, a cylinder on its rim at
      either end face. */
  lemma LeafBoxLeast(b: Body, box: Box)
    requires !b.Compound? && SizesNonNegative(b)
    requires forall p :: ContainsPoint(b, p) ==> ContainsPoint(box, p)
    ensures BoxInside(GetBoundingBox(b), box)
  {
    var c := b.position;
    match b
    case Ball(_, r) =>
      assert (-r) * (-r) == r * r;
      Touches(b, box, Vector3(c.x - r, c.y, c.z));
      Touches(b, box, Vector3(c.x + r, c.y, c.z));
      Touches(b, box, Vector3(c.x, c.y - r, c.z));
      Touches(b, box, Vector3(c.x, c.y + r, c.z));
      Touches(b, box, Vector3(c.x, c.y, c.z - r));
      Touches(b, box, Vector3(c.x, c.y, c.z + r));
    case Cuboid(_, _, _, _) =>
      Touches(b, box, MinValue(b));
      Touches(b, box, MaxValue(b));
    case Cylinder(_, sz, r) =>
      assert (-r) * (-r) == r * r;
      Touches(b, box, Vector3(c.x - r, c.y, c.z - sz / 2.0));
      Touches(b, box, Vector3(c.x + r, c.y, c.z + sz / 2.0));
      Touches(b, box, Vector3(c.x, c.y - r, c.z));
      Touches(b, box, Vector3(c.x, c.y + r, c.z));
  }

  /** A point of `b` lies in every box that contains all of `b`. */
  lemma Touches(b: Body, box: Box, p: Vector3)
    requires forall q :: ContainsPoint(b, q) ==> ContainsPoint(box, q)
    requires ContainsPoint(b, p)
    ensures Le(MinValue(box), p) && Le(p, MaxValue(box))
  {
  }
}
