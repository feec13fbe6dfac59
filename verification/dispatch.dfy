/** The two dispatch styles agree: direct dispatch and the bounding-box
    visitor compute the same box for every well-formed tree. */
module Dispatch {
  import opened Bodies
  import Virtual
  import Visitor

  lemma {:induction false} SameBoundingBox(b: Body)
    requires Valid(b)
    ensures Virtual.GetBoundingBox(b) == Visitor.BoundingBox(b)
  {
    match b
    case Compound(_, ps) =>
      var direct := Virtual.PartBoxes(ps);
      forall i | 0 <= i < |ps|
        ensures direct[i] == Visitor.BoundingBox(ps[i])
      {
        SameBoundingBox(ps[i]);
      }
      assert direct == Visitor.PartBoxes(ps);
    case _ =>
  }
}
