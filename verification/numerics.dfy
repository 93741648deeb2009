/**
 * Real-number helpers shared by the simulator and the feature builder:
 * sums and arithmetic means of sequences, clamping to a closed interval,
 * and decimal rounding (round half to even, as numpy's `round` does).
 * All arithmetic is on exact reals; floating-point error is not modelled.
 */
module Numerics {

  /** Sum of a sequence, folded from the front. */
  function Sum(s: seq<real>): real
  {
    if |s| == 0 then 0.0 else s[0] + Sum(s[1..])
  }

  /** Appending one element adds it to the sum. */
  lemma {:induction false} SumSnoc(s: seq<real>, x: real)
    ensures Sum(s + [x]) == Sum(s) + x
  {
    if |s| == 0 {
      assert s + [x] == [x];
    } else {
      assert (s + [x])[1..] == s[1..] + [x];
      SumSnoc(s[1..], x);
    }
  }

  /** Arithmetic mean of a non-empty sequence. */
  function Mean(s: seq<real>): real
    requires |s| > 0
  {
    Sum(s) / (|s| as real)
  }

  /** A sum of values in [lo, hi] lies between |s| * lo and |s| * hi. */
  lemma {:induction false} SumBounds(s: seq<real>, lo: real, hi: real)
    requires forall i :: 0 <= i < |s| ==> lo <= s[i] <= hi
    ensures (|s| as real) * lo <= Sum(s) <= (|s| as real) * hi
  {
    if |s| > 0 {
      assert forall i :: 0 <= i < |s[1..]| ==> s[1..][i] == s[i + 1];
      SumBounds(s[1..], lo, hi);
      assert (|s| as real) * lo == lo + (|s[1..]| as real) * lo;
      assert (|s| as real) * hi == hi + (|s[1..]| as real) * hi;
    }
  }

  /** The mean of values in [lo, hi] lies in [lo, hi]. */
  lemma MeanBounds(s: seq<real>, lo: real, hi: real)
    requires |s| > 0
    requires forall i :: 0 <= i < |s| ==> lo <= s[i] <= hi
    ensures lo <= Mean(s) <= hi
  {
    SumBounds(s, lo, hi);
    var n := |s| as real;
    assert Mean(s) * n == Sum(s);
  }

  /**
   * `max(lo, min(hi, x))`: the value x held inside [lo, hi]. This is both
   * Python's `max(15, min(85, v))` idiom and `numpy.clip` when lo <= hi.
   */
  function Clamp(lo: real, hi: real, x: real): (r: real)
    requires lo <= hi
    ensures lo <= r <= hi
    ensures lo <= x <= hi ==> r == x
    ensures x < lo ==> r == lo
    ensures hi < x ==> r == hi
  {
    var upper := if hi < x then hi else x;
    if upper < lo then lo else upper
  }

  /** The integer nearest to y, ties to the even one (numpy's `rint`). */
  function NearestEven(y: real): (k: int)
    ensures y.Floor <= k <= y.Floor + 1
    ensures -0.5 <= k as real - y <= 0.5
    ensures y.Floor as real == y ==> k == y.Floor
    ensures y - y.Floor as real == 0.5 ==> k % 2 == 0
  {
    var f := y.Floor;
    var frac := y - f as real;
    if frac < 0.5 then f else if frac > 0.5 then f + 1 else if f % 2 == 0 then f else f + 1
  }

  /** Rounding to the nearest integer cannot leave [lo, hi] when lo and hi are integers. */
  lemma NearestEvenKeepsBounds(y: real, lo: int, hi: int)
    requires lo as real <= y <= hi as real
    ensures lo <= NearestEven(y) <= hi
  {
    assert lo <= y.Floor <= hi;
    if y.Floor == hi {
      assert y.Floor as real == y;
    }
  }

  /** x is a whole number of tenths. */
  predicate OnTenths(x: real)
  {
    (x * 10.0).Floor as real == x * 10.0
  }

  /** x is a whole number of hundredths. */
  predicate OnHundredths(x: real)
  {
    (x * 100.0).Floor as real == x * 100.0
  }

  /** numpy's `round(1)`: the nearest tenth, ties to the even tenth. */
  function Round1(x: real): (r: real)
    ensures OnTenths(r)
    ensures -0.05 <= r - x <= 0.05
  {
    var k := NearestEven(x * 10.0);
    assert ((k as real / 10.0) * 10.0).Floor == k;
    k as real / 10.0
  }

  /** numpy's `round(2)`: the nearest hundredth, ties to the even hundredth. */
  function Round2(x: real): (r: real)
    ensures OnHundredths(r)
    ensures -0.005 <= r - x <= 0.005
  {
    var k := NearestEven(x * 100.0);
    assert ((k as real / 100.0) * 100.0).Floor == k;
    k as real / 100.0
  }

  /**
   * Rounding to tenths cannot leave an interval whose end points are whole
   * tenths: a value clamped into [lo, hi] stays in [lo, hi] once rounded.
   */
  lemma Round1KeepsBounds(x: real, lo: real, hi: real)
    requires OnTenths(lo) && OnTenths(hi)
    requires lo <= x <= hi
    ensures lo <= Round1(x) <= hi
  {
    NearestEvenKeepsBounds(x * 10.0, (lo * 10.0).Floor, (hi * 10.0).Floor);
  }

  /** The same for hundredths. */
  lemma Round2KeepsBounds(x: real, lo: real, hi: real)
    requires OnHundredths(lo) && OnHundredths(hi)
    requires lo <= x <= hi
    ensures lo <= Round2(x) <= hi
  {
    NearestEvenKeepsBounds(x * 100.0, (lo * 100.0).Floor, (hi * 100.0).Floor);
  }
}
