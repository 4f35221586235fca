/** Small numeric helpers shared by every game model: the optional value that
    stands for JavaScript's `null` result, and the min/max/clamp functions the
    sources take from `Math` and `THREE.MathUtils`. All numbers are exact reals;
    floating-point rounding is not modelled. */
module Basics {

  datatype Option<T> = None | Some(value: T)

  /** `Math.min` on two numbers. */
  function Min(a: real, b: real): (r: real)
    ensures r <= a && r <= b
    ensures r == a || r == b
  {
    if a <= b then a else b
  }

  /** `Math.max` on two numbers. */
  function Max(a: real, b: real): (r: real)
    ensures r >= a && r >= b
    ensures r == a || r == b
  {
    if a >= b then a else b
  }

  /** `THREE.MathUtils.clamp(v, lo, hi)`, which is `max(lo, min(hi, v))`:
      when the range is empty the lower bound wins. */
  function Clamp(v: real, lo: real, hi: real): (r: real)
    ensures lo <= hi ==> lo <= r <= hi
    ensures lo <= v <= hi ==> r == v
    ensures v < lo ==> r == lo
    ensures lo <= hi < v ==> r == hi
    ensures hi < lo ==> r == lo
  {
    Max(lo, Min(hi, v))
  }

  /** `Math.abs`. */
  function Abs(x: real): (r: real)
    ensures r >= 0.0
    ensures r == x || r == -x
  {
    if x < 0.0 then -x else x
  }
}
