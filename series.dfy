/**
 * Facts about sequences of scores used by the reporting endpoints: sums and averages,
 * runs of strictly positive scores, and the first maximum and minimum.
 */
module Series {

  function Max(a: int, b: int): int { if a >= b then a else b }

  /** The sum of a sequence, added from left to right. */
  function Sum(s: seq<real>): real
    decreases |s|
  {
    if s == [] then 0.0 else Sum(s[..|s| - 1]) + s[|s| - 1]
  }

  lemma {:induction false} SumBounds(s: seq<real>, lo: real, hi: real)
    requires forall i :: 0 <= i < |s| ==> lo <= s[i] <= hi
    ensures |s| as real * lo <= Sum(s) <= |s| as real * hi
    decreases |s|
  {
    if s != [] {
      var init := s[..|s| - 1];
      SumBounds(init, lo, hi);
      assert (|s| as real) * lo == (|init| as real) * lo + lo;
      assert (|s| as real) * hi == (|init| as real) * hi + hi;
    }
  }

  /** The arithmetic mean of a non-empty sequence. */
  function Mean(s: seq<real>): real
    requires |s| > 0
  {
    Sum(s) / |s| as real
  }

  /** A mean lies between any lower and upper bound of the values averaged. */
  lemma MeanBounds(s: seq<real>, lo: real, hi: real)
    requires |s| > 0
    requires forall i :: 0 <= i < |s| ==> lo <= s[i] <= hi
    ensures lo <= Mean(s) <= hi
  {
    SumBounds(s, lo, hi);
    var n := |s| as real;
    DivBounds(Sum(s), n, lo, hi);
  }

  /** Multiplying by a non-negative factor keeps an ordering. */
  lemma MulMonotone(a: real, b: real, c: real)
    requires a <= b && 0.0 <= c
    ensures a * c <= b * c
  {
  }

  /** The product of two positive numbers is positive. */
  lemma MulPositive(a: real, b: real)
    requires 0.0 < a && 0.0 < b
    ensures 0.0 < a * b
  {
  }

  lemma DivBounds(x: real, n: real, lo: real, hi: real)
    requires n > 0.0 && n * lo <= x <= n * hi
    ensures lo <= x / n <= hi
  {
    assert x / n * n == x;
  }

  /** The elements of s[a..b] are all strictly positive. */
  predicate AllPositive(s: seq<real>, a: int, b: int) {
    0 <= a <= b <= |s| && forall i :: a <= i < b ==> s[i] > 0.0
  }

  /** The number of strictly positive elements at the end of s, scanning back to the first other one. */
  function TrailingRun(s: seq<real>): (n: nat)
    ensures n <= |s|
    ensures AllPositive(s, |s| - n, |s|)
    ensures n < |s| ==> s[|s| - 1 - n] <= 0.0
    decreases |s|
  {
    if s == [] || s[|s| - 1] <= 0.0 then 0
    else
      var init := s[..|s| - 1];
      var n := TrailingRun(init);
      assert forall i :: 0 <= i < |init| ==> init[i] == s[i];
      n + 1
  }

  /** The trailing run is the longest all-positive suffix. */
  lemma {:induction false} TrailingRunIsMaximal(s: seq<real>, a: int)
    requires AllPositive(s, a, |s|)
    ensures |s| - a <= TrailingRun(s)
    decreases |s|
  {
    if a < |s| {
      var init := s[..|s| - 1];
      assert AllPositive(init, a, |init|) by {
        forall i | a <= i < |init| ensures init[i] > 0.0 { assert init[i] == s[i]; }
      }
      TrailingRunIsMaximal(init, a);
    }
  }

  /** A positive suffix that is the whole sequence or is preceded by a non-positive element is the trailing run. */
  lemma TrailingRunIsExact(s: seq<real>, n: nat)
    requires n <= |s| && AllPositive(s, |s| - n, |s|)
    requires n < |s| ==> s[|s| - 1 - n] <= 0.0
    ensures TrailingRun(s) == n
  {
    TrailingRunIsMaximal(s, |s| - n);
  }

  /** The length of the longest stretch of consecutive strictly positive elements. */
  function LongestRun(s: seq<real>): nat
    decreases |s|
  {
    if s == [] then 0 else Max(LongestRun(s[..|s| - 1]), TrailingRun(s))
  }

  /** No stretch of strictly positive elements is longer than LongestRun. */
  lemma {:induction false} LongestRunIsUpperBound(s: seq<real>, a: int, b: int)
    requires AllPositive(s, a, b)
    ensures b - a <= LongestRun(s)
    decreases |s|
  {
    if b == |s| {
      TrailingRunIsMaximal(s, a);
    } else {
      var init := s[..|s| - 1];
      assert AllPositive(init, a, b) by {
        forall i | a <= i < b ensures init[i] > 0.0 { assert init[i] == s[i]; }
      }
      LongestRunIsUpperBound(init, a, b);
    }
  }

  /** Some stretch of strictly positive elements is exactly LongestRun long. */
  lemma {:induction false} LongestRunIsAttained(s: seq<real>) returns (a: nat)
    ensures AllPositive(s, a, a + LongestRun(s))
    decreases |s|
  {
    if s == [] {
      a := 0;
    } else {
      var init := s[..|s| - 1];
      a := LongestRunIsAttained(init);
      var t := TrailingRun(s);
      if LongestRun(init) >= t {
        assert AllPositive(s, a, a + LongestRun(s)) by {
          forall i | a <= i < a + LongestRun(init) ensures s[i] > 0.0 { assert init[i] == s[i]; }
        }
      } else {
        a := |s| - t;
      }
    }
  }

  /** The sequence in reverse order. */
  function Reversed(s: seq<real>): (r: seq<real>)
    ensures |r| == |s|
    ensures forall i :: 0 <= i < |s| ==> r[i] == s[|s| - 1 - i]
  {
    seq(|s|, i requires 0 <= i < |s| => s[|s| - 1 - i])
  }

  /** The index of the first largest element, as Python's max() picks it. */
  function FirstMaxIndex(s: seq<real>): (k: nat)
    requires |s| > 0
    ensures k < |s|
    ensures forall j :: 0 <= j < |s| ==> s[j] <= s[k]
    ensures forall j :: 0 <= j < k ==> s[j] < s[k]
    decreases |s|
  {
    if |s| == 1 then 0
    else
      var init := s[..|s| - 1];
      var k := FirstMaxIndex(init);
      assert forall j :: 0 <= j < |init| ==> init[j] == s[j];
      if s[|s| - 1] > s[k] then |s| - 1 else k
  }

  /** The index of the first smallest element, as Python's min() picks it. */
  function FirstMinIndex(s: seq<real>): (k: nat)
    requires |s| > 0
    ensures k < |s|
    ensures forall j :: 0 <= j < |s| ==> s[k] <= s[j]
    ensures forall j :: 0 <= j < k ==> s[k] < s[j]
    decreases |s|
  {
    if |s| == 1 then 0
    else
      var init := s[..|s| - 1];
      var k := FirstMinIndex(init);
      assert forall j :: 0 <= j < |init| ==> init[j] == s[j];
      if s[|s| - 1] < s[k] then |s| - 1 else k
  }
}
