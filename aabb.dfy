/**
 * The axis-aligned bounding box value that a boundary exposes as `aabb`:
 * a `min` and a `max` corner, each a triple of coordinates.
 * Coordinates are integers; the reduction below only ever compares them
 * with `<` and `>`, so nothing depends on floating point.
 */
module Aabb {

  /** The magnitude of the sentinel the reduction starts from (not an infinity). */
  const Extent: int := 100000

  datatype Vec3 = Vec3(x: int, y: int, z: int)

  datatype Axis = X | Y | Z

  /** Coordinate `a` of `v`, i.e. `v[0]`, `v[1]` or `v[2]`. */
  function At(v: Vec3, a: Axis): int
  {
    match a
    case X => v.x
    case Y => v.y
    case Z => v.z
  }

  datatype Box = Box(min: Vec3, max: Vec3)

  /** The starting value of the reduction: min at +Extent and max at -Extent on every axis. */
  function Sentinel(): (b: Box)
    ensures forall a :: At(b.min, a) == Extent && At(b.max, a) == -Extent
  {
    Box(Vec3(Extent, Extent, Extent), Vec3(-Extent, -Extent, -Extent))
  }

  /** The "no contribution" convention: min lies above max on every axis. */
  predicate Inverted(b: Box)
  {
    forall a :: At(b.min, a) > At(b.max, a)
  }

  /**
   * One step of the reduction: each min coordinate of `acc` is replaced when the
   * member's is strictly smaller, each max coordinate when the member's is strictly larger.
   */
  function Include(acc: Box, b: Box): (r: Box)
    ensures forall a :: At(r.min, a) <= At(acc.min, a) && At(r.min, a) <= At(b.min, a)
    ensures forall a :: At(r.min, a) == At(acc.min, a) || At(r.min, a) == At(b.min, a)
    ensures forall a :: At(r.max, a) >= At(acc.max, a) && At(r.max, a) >= At(b.max, a)
    ensures forall a :: At(r.max, a) == At(acc.max, a) || At(r.max, a) == At(b.max, a)
  {
    Box(
      Vec3(if b.min.x < acc.min.x then b.min.x else acc.min.x,
           if b.min.y < acc.min.y then b.min.y else acc.min.y,
           if b.min.z < acc.min.z then b.min.z else acc.min.z),
      Vec3(if b.max.x > acc.max.x then b.max.x else acc.max.x,
           if b.max.y > acc.max.y then b.max.y else acc.max.y,
           if b.max.z > acc.max.z then b.max.z else acc.max.z))
  }

  /** Two corners that agree on every axis are the same corner. */
  lemma {:induction false} Vec3Ext(u: Vec3, v: Vec3)
    requires forall a :: At(u, a) == At(v, a)
    ensures u == v
  {
    assert At(u, X) == At(v, X) && At(u, Y) == At(v, Y) && At(u, Z) == At(v, Z);
  }
}
