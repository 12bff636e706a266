/**
 * Vectors of the game engine, with `real` coordinates in place of single-precision floats.
 * `Vector3.Distance` and `Vector3.MoveTowards` need a square root, so they are not defined
 * here: the model receives them as function values (`VectorOps`) and relies only on the
 * laws stated by `Lawful`.
 */
module Geometry {

  datatype Vec3 = Vec3(x: real, y: real, z: real)

  const Zero: Vec3 := Vec3(0.0, 0.0, 0.0)

  function Add(a: Vec3, b: Vec3): Vec3 {
    Vec3(a.x + b.x, a.y + b.y, a.z + b.z)
  }

  function Scale(v: Vec3, k: real): Vec3 {
    Vec3(v.x * k, v.y * k, v.z * k)
  }

  /** A raycast hit: the point struck and the surface normal there. */
  datatype Hit = Hit(point: Vec3, normal: Vec3)

  /** The point `d` units away from the hit point along the surface normal. */
  function OffsetFrom(h: Hit, d: real): Vec3 {
    Add(h.point, Scale(h.normal, d))
  }

  /** The engine's `Vector3.Distance` and `Vector3.MoveTowards`. */
  datatype VectorOps = VectorOps(
    distance: (Vec3, Vec3) -> real,
    moveTowards: (Vec3, Vec3, real) -> Vec3)

  /**
   * What the model requires of the engine's vector operations: a distance is never negative
   * and is zero exactly between equal points, and a step at least as long as the remaining
   * distance lands exactly on the target.
   */
  ghost predicate Lawful(ops: VectorOps) {
    && (forall a, b :: ops.distance(a, b) >= 0.0)
    && (forall a, b :: ops.distance(a, b) == 0.0 <==> a == b)
    && (forall a, b, step :: 0.0 <= step && ops.distance(a, b) <= step ==> ops.moveTowards(a, b, step) == b)
  }

  function Abs(r: real): real {
    if r < 0.0 then -r else r
  }

  /** The taxicab distance, a simple distance that obeys the laws. */
  function TaxicabDistance(a: Vec3, b: Vec3): real {
    Abs(a.x - b.x) + Abs(a.y - b.y) + Abs(a.z - b.z)
  }

  /** Vector operations that jump to the target when it is in reach and otherwise stay put. */
  function JumpOps(): VectorOps {
    VectorOps(
      TaxicabDistance,
      (a: Vec3, b: Vec3, step: real) => if TaxicabDistance(a, b) <= step then b else a)
  }

  /** The laws can be met, so lemmas that require them are not vacuous. */
  lemma LawfulOpsExist()
    ensures Lawful(JumpOps())
  {
    var ops := JumpOps();
    forall a, b ensures ops.distance(a, b) == 0.0 <==> a == b {
      if ops.distance(a, b) == 0.0 {
        assert a.x == b.x && a.y == b.y && a.z == b.z;
      }
    }
  }
}
