/** 16-bit PCM samples and the numeric conversions the pipeline applies to them. */
module Pcm {

  /** A value representable as Swift's `Int16`. */
  predicate IsSample(x: int) {
    -32768 <= x <= 32767
  }

  /** Every element of `s` is a 16-bit sample. */
  predicate AllSamples(s: seq<int>) {
    forall i :: 0 <= i < |s| ==> IsSample(s[i])
  }

  /** The frame-energy measure (`calculateEnergy`): its float square root is not modelled. */
  type EnergyFn = seq<int> -> real

  function Max0(x: int): (r: nat)
    ensures r >= x && (x >= 0 ==> r == x)
  {
    if x > 0 then x else 0
  }

  function Min(a: int, b: int): (r: int)
    ensures r <= a && r <= b && (r == a || r == b)
  {
    if a <= b then a else b
  }

  function MinR(a: real, b: real): (r: real)
    ensures r <= a && r <= b && (r == a || r == b)
  {
    if a <= b then a else b
  }

  function MaxR(a: real, b: real): (r: real)
    ensures r >= a && r >= b && (r == a || r == b)
  {
    if a >= b then a else b
  }

  function AbsR(x: real): (r: real)
    ensures r >= 0.0 && (r == x || r == -x)
  {
    if x >= 0.0 then x else -x
  }

  /** Conversion `Int16(x)` of a float: truncation toward zero (Dafny's `.Floor` rounds down). */
  function Truncate(x: real): (r: int)
    ensures x >= 0.0 ==> r as real <= x < r as real + 1.0
    ensures x < 0.0 ==> r as real - 1.0 < x <= r as real
  {
    if x >= 0.0 then x.Floor else -((-x).Floor)
  }

  lemma TruncateOfInt(n: int)
    ensures Truncate(n as real) == n
  {
  }

  /** Truncation stays within any integer bounds that enclose its argument. */
  lemma TruncateBetween(x: real, lo: int, hi: int)
    requires lo as real <= x <= hi as real
    ensures lo <= Truncate(x) <= hi
  {
  }
}
