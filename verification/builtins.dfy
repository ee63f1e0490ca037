/** Models of the few JavaScript built-ins the booking components rely on:
    `Math.round`, `String.prototype.includes`, and `null`/`undefined`
    as an `Option`. Numbers are exact (integers or reals); floating-point
    rounding is not modelled. */
module Builtins {

  /** A value that may be absent (`null` or `undefined` in the source). */
  datatype Option<+T> = None | Some(value: T)

  /** `Math.round`: the nearest integer, halves rounded up (towards +infinity). */
  function Round(x: real): (r: int)
    ensures x - 0.5 < r as real <= x + 0.5
  {
    (x + 0.5).Floor
  }

  /** Rounding never reverses the order of two values. */
  lemma RoundMonotone(x: real, y: real)
    requires x <= y
    ensures Round(x) <= Round(y)
  {
    assert (x + 0.5).Floor as real <= y + 0.5;
  }

  /** Rounding keeps a value between its rounded bounds. */
  lemma RoundBetween(lo: real, x: real, hi: real)
    requires lo <= x <= hi
    ensures Round(lo) <= Round(x) <= Round(hi)
  {
    RoundMonotone(lo, x);
    RoundMonotone(x, hi);
  }

  /** `s.includes(t)`: `t` occurs in `s` as a contiguous block. */
  predicate Includes(s: string, t: string)
  {
    exists i :: 0 <= i <= |s| - |t| && OccursAt(s, t, i)
  }

  /** `t` occurs in `s` starting at position `i`. */
  predicate OccursAt(s: string, t: string, i: int)
    requires 0 <= i <= |s| - |t|
  {
    s[i..i + |t|] == t
  }

  /** A witness position is enough to show that `s` includes `t`. */
  lemma IncludesAt(s: string, t: string, i: int)
    requires 0 <= i <= |s| - |t|
    requires s[i..i + |t|] == t
    ensures Includes(s, t)
  {
    assert OccursAt(s, t, i);
  }
}
