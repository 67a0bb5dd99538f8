/** The integer smoothing of the sampler against the exact recurrence of RFC 6298 section 2. */
module RttSmoothing {
  import opened RttModel

  /** The exact estimate over the rationals. */
  datatype Exact = Exact(srtt: real, rttvar: real)

  function Abs(x: real): real { if x >= 0.0 then x else -x }

  function ExactStep(e: Exact, r: real): Exact {
    Exact(0.875 * e.srtt + 0.125 * r, 0.75 * e.rttvar + 0.25 * Abs(e.srtt - r))
  }

  /** The two recurrences after the first n samples, n >= 1. */
  function ExactRun(rs: seq<nat>, n: nat): Exact
    requires 1 <= n <= |rs|
  {
    if n == 1 then Exact(rs[0] as real, rs[0] as real / 2.0)
    else ExactStep(ExactRun(rs, n - 1), rs[n - 1] as real)
  }

  function IntRun(rs: seq<nat>, n: nat): (e: Estimate)
    requires 1 <= n <= |rs|
    ensures e.Estimate?
  {
    if n == 1 then Smooth(NoEstimate, rs[0]) else Smooth(IntRun(rs, n - 1), rs[n - 1])
  }

  /** Truncating division loses less than one unit. */
  lemma DivLoses(a: nat, n: nat)
    requires n == 2 || n == 4 || n == 8
    ensures 0.0 <= a as real / n as real - (a / n) as real <= (n - 1) as real / n as real
  {
    var q, m := a / n, a % n;
    assert a == n * q + m && 0 <= m < n;
    assert a as real == (n * q) as real + m as real;
    if n == 2 {
      assert a as real / 2.0 == q as real + m as real / 2.0;
    } else if n == 4 {
      assert a as real / 4.0 == q as real + m as real / 4.0;
    } else {
      assert a as real / 8.0 == q as real + m as real / 8.0;
    }
  }

  lemma StepDrift(s: nat, v: nat, e: Exact, r: nat)
    requires 0.0 <= e.srtt - s as real < 7.0
    requires -7.0 < e.rttvar - v as real < 10.0
    ensures var i, x := Smooth(Estimate(s, v), r), ExactStep(e, r as real);
            && 0.0 <= x.srtt - i.srtt as real < 7.0
            && -7.0 < x.rttvar - i.rttvar as real < 10.0
  {
    DivLoses(7 * s + r, 8);
    assert (7 * s + r) as real == 7.0 * s as real + r as real;
    var d := AbsDiff(r, s);
    DivLoses(3 * v + d, 4);
    assert (3 * v + d) as real == 3.0 * v as real + d as real;
    assert d as real == Abs(s as real - r as real);
  }

  /** For every sequence of samples, the integer estimate is below the exact one by less than 7 ms,
      and the integer variation within 7 above and 10 below the exact one. */
  lemma {:induction false} RoundingDrift(rs: seq<nat>, n: nat)
    requires 1 <= n <= |rs|
    ensures var i, x := IntRun(rs, n), ExactRun(rs, n);
            && 0.0 <= x.srtt - i.srtt as real < 7.0
            && -7.0 < x.rttvar - i.rttvar as real < 10.0
  {
    if n == 1 {
      DivLoses(rs[0], 2);
    } else {
      RoundingDrift(rs, n - 1);
      var i := IntRun(rs, n - 1);
      StepDrift(i.srtt, i.rttvar, ExactRun(rs, n - 1), rs[n - 1]);
    }
  }

  /** The smoothed estimate stays between the least and the greatest sample. */
  lemma {:induction false} EstimateWithinSamples(rs: seq<nat>, n: nat, lo: nat, hi: nat)
    requires 1 <= n <= |rs| && forall i :: 0 <= i < n ==> lo <= rs[i] <= hi
    ensures lo <= IntRun(rs, n).srtt <= hi
  {
    if n == 1 {
    } else {
      EstimateWithinSamples(rs, n - 1, lo, hi);
    }
  }

  // ---- The reported spread ---------------------------------------------------------

  function SpreadRun(rs: seq<nat>, n: nat): Spread
    requires n <= |rs|
  {
    if n == 0 then NO_SPREAD else Grow(SpreadRun(rs, n - 1), rs[n - 1])
  }

  function Least(rs: seq<nat>, n: nat): nat
    requires 1 <= n <= |rs|
  {
    if n == 1 then rs[0]
    else
      var m := Least(rs, n - 1);
      if rs[n - 1] < m then rs[n - 1] else m
  }

  /** The latest sample is positive and an earlier one was 0. */
  ghost predicate ZeroThenPositive(rs: seq<nat>, n: nat)
    requires n <= |rs|
  {
    n > 0 && rs[n - 1] > 0 && exists i :: 0 <= i < n && rs[i] == 0
  }

  lemma {:induction false} SpreadMinIsSome(rs: seq<nat>, n: nat)
    requires 1 <= n <= |rs|
    ensures SpreadRun(rs, n).min == 0 <==> rs[n - 1] == 0
    ensures (forall i :: 0 <= i < n ==> rs[i] > 0) ==> SpreadRun(rs, n).min == Least(rs, n)
    ensures (exists i :: 0 <= i < n && rs[i] == 0) <==> Least(rs, n) == 0
  {
    if n == 1 {
    } else {
      SpreadMinIsSome(rs, n - 1);
    }
  }

  /** The reported least is the least sample unless the latest is positive and an earlier one was 0:
      a stored 0 reads as "none yet" and is overwritten. */
  lemma ReportedLeastIff(rs: seq<nat>, n: nat)
    requires 1 <= n <= |rs|
    ensures SpreadRun(rs, n).min == Least(rs, n) <==> !ZeroThenPositive(rs, n)
  {
    SpreadMinIsSome(rs, n);
  }

  /** Samples of 0 and then 5 ms: 5 is reported as the least. */
  lemma ReportedLeastFails()
    ensures SpreadRun([0, 5], 2).min == 5 && Least([0, 5], 2) == 0
  {
    assert SpreadRun([0, 5], 1).min == 0;
  }
}
