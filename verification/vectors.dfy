/** Three-component vectors over exact reals: the small value type the body
    hierarchy positions its shapes with. Only the operations the geometry
    kernel uses are defined: subtraction, squared length and the
    componentwise orderings used for box containment. */
module Vectors {

  datatype Vector3 = Vector3(x: real, y: real, z: real)

  /** Componentwise difference `a - b`. */
  function Sub(a: Vector3, b: Vector3): (d: Vector3)
    ensures Vector3(b.x + d.x, b.y + d.y, b.z + d.z) == a
  {
    Vector3(a.x - b.x, a.y - b.y, a.z - b.z)
  }

  /** Squared Euclidean length; containment tests compare it against a
      squared radius so that no square root is needed. */
  function Length2(v: Vector3): (n: real)
    ensures n >= 0.0
  {
    v.x * v.x + v.y * v.y + v.z * v.z
  }

  /** `a <= b` on every axis. */
  predicate Le(a: Vector3, b: Vector3) {
    a.x <= b.x && a.y <= b.y && a.z <= b.z
  }

  /** `a >= b` on every axis. */
  predicate Ge(a: Vector3, b: Vector3) {
    Le(b, a)
  }

  lemma LeTransitive(a: Vector3, b: Vector3, c: Vector3)
    requires Le(a, b) && Le(b, c)
    ensures Le(a, c)
  {
  }

  /** A square bounds its root: if `a * a <= r * r` with `r >= 0` then
      `-r <= a <= r`. */
  lemma SquareBound(a: real, r: real)
    requires r >= 0.0
    requires a * a <= r * r
    ensures -r <= a <= r
  {
    if a > r {
      ProductPositive(a - r, a + r);
    } else if a < -r {
      ProductPositive(r - a, -r - a);
    }
  }

  lemma ProductPositive(u: real, v: real)
    requires u > 0.0 && v > 0.0
    ensures u * v > 0.0
  {
  }
}
