/** Scalar types shared by the whole model: the C# `ushort`, the single-precision
    extremes the source uses as sentinels, an Option type and 3-vectors over the reals. */
module Basics {

  /** C# `ushort`. */
  type UShort = x: int | 0 <= x <= 65535

  /** `ushort.MaxValue`. */
  const USHORT_MAX: UShort := 65535

  /** `float.MaxValue` (the largest finite single-precision value), exactly. */
  const FLOAT_MAX: real := 340282346638528859811704183484516925440.0

  /** `float.MinValue`. */
  const FLOAT_MIN: real := -FLOAT_MAX

  datatype Option<+T> = None | Some(value: T)

  /** `float3`, with every component a real number (no rounding). */
  datatype Float3 = Float3(x: real, y: real, z: real) {

    function Plus(other: Float3): Float3 {
      Float3(x + other.x, y + other.y, z + other.z)
    }

    function Minus(other: Float3): Float3 {
      Float3(x - other.x, y - other.y, z - other.z)
    }

    function Times(k: real): Float3 {
      Float3(x * k, y * k, z * k)
    }
  }

  const Zero3 := Float3(0.0, 0.0, 0.0)

  /** `math.distancesq`. */
  function DistanceSq(a: Float3, b: Float3): (r: real)
    ensures r >= 0.0
    ensures a == b ==> r == 0.0
  {
    var d := a.Minus(b);
    d.x * d.x + d.y * d.y + d.z * d.z
  }
}
