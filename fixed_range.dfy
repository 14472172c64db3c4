/**
 * The range clamp that channel translators share: an out-of-range value is silently
 * replaced by the nearest bound, never reported.
 */
module FixedRange {

  /** `getValueInRange($value, $min, $max)`: max($min, min($value, $max)). */
  function GetValueInRange(x: real, lo: real, hi: real): (r: real)
    requires lo <= hi
    ensures lo <= r <= hi
    ensures lo <= x <= hi ==> r == x
    ensures x < lo ==> r == lo
    ensures hi < x ==> r == hi
  {
    var m := if x < hi then x else hi;
    if lo < m then m else lo
  }

  /** Clamping a clamped value changes nothing. */
  lemma ClampIdempotent(x: real, lo: real, hi: real)
    requires lo <= hi
    ensures GetValueInRange(GetValueInRange(x, lo, hi), lo, hi) == GetValueInRange(x, lo, hi)
  {
  }
}
