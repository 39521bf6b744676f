/**
 * Exact real arithmetic shared by the baseline builder, the fallow detector
 * and the trend estimator, plus the floating-point operations the model
 * leaves uninterpreted.
 */
module Numeric {

  /**
   * Floating-point functions the source calls but that have no exact
   * rational value: the square root inside pandas' sample standard
   * deviation, the seasonal sine/cosine of the ISO week and the
   * percentage-deviation division of the feature vector (which numpy
   * evaluates to inf/nan when the expected value is zero).
   */
  datatype FloatOps = FloatOps(
    sqrt: real -> real,
    weekSin: int -> real,
    weekCos: int -> real,
    deviationPct: (real, real) -> real)

  function Abs(x: real): (r: real)
    ensures r >= 0.0 && (r == x || r == -x)
  {
    if x < 0.0 then -x else x
  }

  function Max(x: real, y: real): (r: real)
    ensures r >= x && r >= y && (r == x || r == y)
  {
    if x < y then y else x
  }

  function Sum(xs: seq<real>): real
  {
    if xs == [] then 0.0 else xs[0] + Sum(xs[1..])
  }

  function Mean(xs: seq<real>): real
    requires |xs| > 0
  {
    Sum(xs) / |xs| as real
  }

  /** Sum of squared deviations from the mean divided by n - 1 (pandas' `std` squared, ddof = 1). */
  function SampleVariance(xs: seq<real>): real
    requires |xs| >= 2
  {
    var m := Mean(xs);
    Sum(seq(|xs|, i requires 0 <= i < |xs| => (xs[i] - m) * (xs[i] - m))) / (|xs| - 1) as real
  }

  /** Strictly increasing: sorted and free of duplicates. */
  predicate StrictlySorted(s: seq<int>)
  {
    forall i, j :: 0 <= i < j < |s| ==> s[i] < s[j]
  }

  predicate NoDuplicates(s: seq<int>)
  {
    forall i, j :: 0 <= i < j < |s| ==> s[i] != s[j]
  }

  /** Inserts `x` into a strictly sorted sequence unless it is already there. */
  function SortedInsert(s: seq<int>, x: int): (r: seq<int>)
    requires StrictlySorted(s)
    ensures StrictlySorted(r)
    ensures forall y :: y in r <==> y in s || y == x
  {
    if s == [] then [x]
    else if x < s[0] then [x] + s
    else if x == s[0] then s
    else
      var rest := SortedInsert(s[1..], x);
      assert forall y :: y in rest ==> s[0] < y by {
        forall y | y in rest ensures s[0] < y {
          if y != x {
            var k :| 0 <= k < |s[1..]| && s[1..][k] == y;
            assert s[k + 1] == y;
          }
        }
      }
      assert forall k :: 0 <= k < |rest| ==> s[0] < rest[k] by {
        forall k | 0 <= k < |rest| ensures s[0] < rest[k] { assert rest[k] in rest; }
      }
      [s[0]] + rest
  }

  /** Between two positions of a strictly increasing integer sequence the values grow at least by the distance. */
  lemma {:induction false} SortedGap(s: seq<int>, a: nat, b: nat)
    requires StrictlySorted(s) && a <= b < |s|
    ensures s[b] - s[a] >= b - a
    decreases b - a
  {
    if a < b {
      SortedGap(s, a, b - 1);
    }
  }
}
