/** Concrete bodies and the answers the kernel gives for them. */
module Scenarios {
  import opened Vectors
  import opened Bodies
  import Virtual
  import Visitor

  const Origin := Vector3(0.0, 0.0, 0.0)

  /** A ball of radius 2 at the origin. */
  const BallR2 := Ball(Origin, 2.0)

  /** A cylinder of radius 1 and height 4 centred at the origin. */
  const Drum := Cylinder(Origin, 4.0, 1.0)

  /** The ball contains a point on its surface and not one just beyond it. */
  lemma BallBoundary()
    ensures Virtual.ContainsPoint(BallR2, Vector3(2.0, 0.0, 0.0))
    ensures !Virtual.ContainsPoint(BallR2, Vector3(2.0001, 0.0, 0.0))
  {
  }

  /** The cylinder contains the centre of its top cap and a point on its
      side, but not a point above the cap or one outside its radius. */
  lemma CylinderBoundary()
    ensures Virtual.ContainsPoint(Drum, Vector3(0.0, 0.0, 2.0))
    ensures Virtual.ContainsPoint(Drum, Vector3(1.0, 0.0, 0.0))
    ensures !Virtual.ContainsPoint(Drum, Vector3(0.0, 0.0, 2.01))
    ensures !Virtual.ContainsPoint(Drum, Vector3(1.0, 0.1, 0.0))
  {
  }

  /** Two balls of the same radius `r`, ten apart along X, as one compound:
      its box is centred half way between them, `10 + 2r` long in X and `2r`
      in Y and Z (for unit balls: 12 by 2 by 2). */
  lemma TwoBallsBox(r: real)
    ensures NewCompound([Ball(Origin, r), Ball(Vector3(10.0, 0.0, 0.0), r)]).Success?
    ensures Visitor.BoundingBox(NewCompound([Ball(Origin, r), Ball(Vector3(10.0, 0.0, 0.0), r)]).value)
         == Cuboid(Vector3(5.0, 0.0, 0.0), 10.0 + 2.0 * r, 2.0 * r, 2.0 * r)
  {
    var b := NewCompound([Ball(Origin, r), Ball(Vector3(10.0, 0.0, 0.0), r)]).value;
    assert Visitor.PartBoxes(b.parts)
        == [Cuboid(Origin, 2.0 * r, 2.0 * r, 2.0 * r), Cuboid(Vector3(10.0, 0.0, 0.0), 2.0 * r, 2.0 * r, 2.0 * r)];
    TwoCubesCorners(r);
  }

  /** The corners spanning the boxes of the two balls. */
  lemma TwoCubesCorners(r: real)
    ensures var boxes := [Cuboid(Origin, 2.0 * r, 2.0 * r, 2.0 * r), Cuboid(Vector3(10.0, 0.0, 0.0), 2.0 * r, 2.0 * r, 2.0 * r)];
      MinCorner(boxes) == Vector3(-r, -r, -r) && MaxCorner(boxes) == Vector3(10.0 + r, r, r)
  {
  }

  /** An empty parts list is refused. */
  lemma EmptyCompoundRefused()
    ensures NewCompound([]) == Failure(EmptyParts)
  {
  }
}
