/**
 * The numeric helpers the systems share: the `Math.max`/`Math.min`
 * clamps on integers and on JavaScript numbers (modelled as reals), and
 * `Math.abs` on integers.
 */
module Numbers {

  /** `Math.max(0, v)` on integers. */
  function Max0(v: int): (r: int)
    ensures 0 <= r && v <= r && (r == 0 || r == v)
  {
    if v < 0 then 0 else v
  }

  /** `Math.max(0, v)` on reals. */
  function Max0Real(v: real): (r: real)
    ensures 0.0 <= r && v <= r && (r == 0.0 || r == v)
  {
    if v < 0.0 then 0.0 else v
  }

  /** `Math.max(a, b)` on reals. */
  function MaxReal(a: real, b: real): real { if a < b then b else a }

  /** `Math.min(a, b)` on reals. */
  function MinReal(a: real, b: real): real { if a < b then a else b }

  /** `Math.abs(n)` on integers. */
  function Abs(n: int): nat { if n < 0 then -n else n }
}
