/** The viewport rectangle and the choice of scroll axis. */
module Geometry {

  /** The observed box of the viewport element. */
  datatype Rect = Rect(width: real, height: real)

  /** The extent along the active axis: width when horizontal, height otherwise. */
  function AxisSize(r: Rect, horizontal: bool): real {
    if horizontal then r.width else r.height
  }

  function Max(a: real, b: real): real {
    if a >= b then a else b
  }

  function Min(a: real, b: real): real {
    if a <= b then a else b
  }

  function Abs(x: real): real {
    if x < 0.0 then -x else x
  }

  /** `Math.ceil` on a real. */
  function Ceil(x: real): int {
    -((-x).Floor)
  }

  /** Truncation toward zero, the first step of JavaScript's ToInt32 and ToUint32. */
  function Trunc(x: real): int {
    if x >= 0.0 then x.Floor else -((-x).Floor)
  }

  const TwoTo31: int := 0x8000_0000
  const TwoTo32: int := 0x1_0000_0000

  /** JavaScript's ToInt32, the conversion applied by `x | 0`: truncate, then wrap into [-2^31, 2^31). */
  function ToInt32(x: real): int {
    var u := Trunc(x) % TwoTo32;
    if u >= TwoTo31 then u - TwoTo32 else u
  }

  /** JavaScript's ToUint32, the conversion applied by `x >>> 0`: truncate, then wrap into [0, 2^32). */
  function ToUint32(x: real): int {
    Trunc(x) % TwoTo32
  }

  lemma CeilBounds(x: real)
    ensures x <= Ceil(x) as real < x + 1.0
  {
  }

  /** `Math.ceil(x)` is the least integer not below `x`. */
  lemma CeilLeast(x: real, n: int)
    ensures n as real >= x <==> n >= Ceil(x)
  {
    var f := (-x).Floor;
    assert f as real <= -x < f as real + 1.0;
  }

  lemma ToInt32RoundsHalfUp(x: real)
    requires 0.0 <= x + 0.5 < TwoTo31 as real
    ensures ToInt32(x + 0.5) == (x + 0.5).Floor
  {
  }

  lemma ToUint32Fixed(x: real)
    ensures ToUint32(x) as real == x <==> (x == x.Floor as real && 0.0 <= x < TwoTo32 as real)
  {
  }
}
