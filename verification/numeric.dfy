/** `clamp` and `Math.round`, the two numeric helpers of the score blend. */
module Numeric {

  /** `clamp(n, min, max) = Math.min(max, Math.max(min, n))`. */
  function Clamp(n: int, lo: int, hi: int): (r: int)
    ensures r <= hi
    ensures lo <= hi ==> lo <= r
    ensures lo <= n <= hi ==> r == n
    ensures n < lo && lo <= hi ==> r == lo
    ensures hi < n ==> r == hi
  {
    var m := if n < lo then lo else n;
    if m < hi then m else hi
  }

  /** `Math.round(x)`: the nearest integer, halves rounding up (towards +∞). */
  function Round(x: real): (r: int)
    ensures (r as real) - 0.5 <= x < (r as real) + 0.5
  {
    (x + 0.5).Floor
  }

  /** Rounding is determined by the nearest-integer property: any integer within
      half a unit below or less than half above `x` is its rounding. */
  lemma RoundUnique(x: real, n: int)
    requires (n as real) - 0.5 <= x < (n as real) + 0.5
    ensures Round(x) == n
  {
  }

  /** Rounding never reverses the order of two values. */
  lemma RoundMonotone(x: real, y: real)
    requires x <= y
    ensures Round(x) <= Round(y)
  {
  }
}
