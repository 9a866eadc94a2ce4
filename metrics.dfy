/** Summary statistics of a portfolio value series. */
module Metrics {
  import opened Frames
  import opened Returns

  /** Last value over first value, minus one; zero for an empty series. */
  function CumulativeReturn(v: seq<real>): (c: real)
    requires v == [] || v[0] != 0.0
    ensures v == [] ==> c == 0.0
    ensures v != [] ==> v[0] * (1.0 + c) == v[|v| - 1]
  {
    if v == [] then 0.0 else v[|v| - 1] / v[0] - 1.0
  }

  /** Return over volatility, forced to zero when the volatility is not positive. */
  function SharpeRatio(annualReturn: real, stdev: real): (s: real)
    ensures stdev <= 0.0 ==> s == 0.0
    ensures stdev > 0.0 ==> s * stdev == annualReturn
  {
    if stdev > 0.0 then annualReturn / stdev else 0.0
  }

  function Max(x: real, y: real): real {
    if x >= y then x else y
  }

  /** The running maximum (`cummax`) of a series. */
  function CumMax(v: seq<real>): (m: seq<real>)
    ensures |m| == |v|
  {
    if v == [] then []
    else if |v| == 1 then [v[0]]
    else
      var prev := CumMax(v[..|v| - 1]);
      prev + [Max(prev[|v| - 2], v[|v| - 1])]
  }

  predicate Nondecreasing(v: seq<real>) {
    forall i, j :: 0 <= i <= j < |v| ==> v[i] <= v[j]
  }

  /** The running maximum is nondecreasing, bounds every value up to its index,
      is attained at or before its index, and never drops below the first value. */
  lemma {:induction false} CumMaxBounds(v: seq<real>)
    ensures Nondecreasing(CumMax(v))
    ensures forall i, j :: 0 <= j <= i < |v| ==> v[j] <= CumMax(v)[i]
    ensures forall i :: 0 <= i < |v| ==> exists j :: 0 <= j <= i && CumMax(v)[i] == v[j]
  {
    if |v| > 1 {
      var n := |v| - 1;
      var u := v[..n];
      CumMaxBounds(u);
      var m := CumMax(v);
      assert m[..n] == CumMax(u);
      forall i | 0 <= i < |v|
        ensures exists j :: 0 <= j <= i && m[i] == v[j]
      {
        if i < n {
          var j :| 0 <= j <= i && CumMax(u)[i] == u[j];
          assert m[i] == v[j];
        } else if m[n] == v[n] {
        } else {
          var j :| 0 <= j <= n - 1 && CumMax(u)[n - 1] == u[j];
          assert m[n] == v[j];
        }
      }
    }
  }

  lemma CumMaxDominates(v: seq<real>)
    ensures forall i :: 0 <= i < |v| ==> v[i] <= CumMax(v)[i] && v[0] <= CumMax(v)[i]
  {
    CumMaxBounds(v);
  }

  /** Each value over its running maximum, minus one. */
  function Drawdowns(v: seq<real>): (d: seq<real>)
    requires v == [] || v[0] > 0.0
    ensures |d| == |v|
    ensures forall i :: 0 <= i < |v| ==> CumMax(v)[i] > 0.0 && d[i] == v[i] / CumMax(v)[i] - 1.0
    ensures forall i :: 0 <= i < |v| ==> d[i] <= 0.0
    ensures forall i :: 0 <= i < |v| && v[i] > 0.0 ==> -1.0 < d[i]
  {
    var m := CumMax(v);
    CumMaxDominates(v);
    DrawdownRange(v, m);
    seq(|v|, i requires 0 <= i < |v| => v[i] / m[i] - 1.0)
  }

  lemma DrawdownRange(v: seq<real>, m: seq<real>)
    requires |m| == |v|
    requires forall i :: 0 <= i < |v| ==> v[i] <= m[i] && v[0] <= m[i]
    requires v == [] || v[0] > 0.0
    ensures forall i :: 0 <= i < |v| ==> m[i] > 0.0 && v[i] / m[i] - 1.0 <= 0.0
    ensures forall i :: 0 <= i < |v| && v[i] > 0.0 ==> -1.0 < v[i] / m[i] - 1.0
  {
    forall i | 0 <= i < |v|
      ensures m[i] > 0.0 && v[i] / m[i] <= 1.0 && (v[i] > 0.0 ==> v[i] / m[i] > 0.0)
    {
      assert m[i] > 0.0;
      RatioBounds(v[i], m[i]);
    }
  }

  lemma RatioBounds(x: real, y: real)
    requires y > 0.0 && x <= y
    ensures x / y <= 1.0
    ensures x > 0.0 ==> x / y > 0.0
  {
  }

  lemma RatioOfEqual(x: real, m: real)
    requires x == m && m != 0.0
    ensures x / m == 1.0
  {
  }

  /** The least element of a non-empty sequence. */
  function MinOf(s: seq<real>): (r: real)
    requires s != []
    ensures exists i :: 0 <= i < |s| && r == s[i]
    ensures forall i :: 0 <= i < |s| ==> r <= s[i]
  {
    if |s| == 1 then s[0]
    else
      var rest := MinOf(s[..|s| - 1]);
      if s[|s| - 1] < rest then s[|s| - 1] else rest
  }

  /** The deepest drawdown; zero for an empty series. */
  function MaxDrawdown(v: seq<real>): (r: real)
    requires v == [] || v[0] > 0.0
    ensures v == [] ==> r == 0.0
    ensures r <= 0.0
    ensures Positive(v) ==> -1.0 < r
    ensures v != [] ==> exists i :: 0 <= i < |v| && r == Drawdowns(v)[i]
    ensures forall i :: 0 <= i < |v| ==> r <= Drawdowns(v)[i]
  {
    if v == [] then 0.0 else MinOf(Drawdowns(v))
  }

  lemma {:induction false} CumMaxOfNondecreasing(v: seq<real>)
    requires Nondecreasing(v)
    ensures CumMax(v) == v
  {
    if |v| > 1 {
      var n := |v| - 1;
      CumMaxOfNondecreasing(v[..n]);
      assert v[n - 1] <= v[n];
      assert v[..n] + [v[n]] == v;
    }
  }

  /** Where a series is at its running maximum its drawdown is zero. */
  lemma DrawdownAtPeak(v: seq<real>, i: nat)
    requires v == [] || v[0] > 0.0
    requires i < |v| && CumMax(v)[i] == v[i] && v[i] != 0.0
    ensures Drawdowns(v)[i] == 0.0
  {
    var x, m, d := v[i], CumMax(v)[i], Drawdowns(v)[i];
    assert d == x / m - 1.0;
    RatioOfEqual(x, m);
  }

  /** A series that never falls has no drawdown. */
  lemma NondecreasingHasNoDrawdown(v: seq<real>)
    requires v == [] || v[0] > 0.0
    requires Nondecreasing(v)
    ensures MaxDrawdown(v) == 0.0
  {
    if v != [] {
      var i :| 0 <= i < |v| && MaxDrawdown(v) == Drawdowns(v)[i];
      CumMaxOfNondecreasing(v);
      assert v[0] <= v[i];
      DrawdownAtPeak(v, i);
    }
  }

  /** The cumulative return of a compounded series is its total growth minus one. */
  lemma CumulativeReturnOfCompound(s: real, r: seq<real>)
    requires s != 0.0
    ensures Compound(s, r)[0] == s
    ensures CumulativeReturn(Compound(s, r)) == Growth(r) - 1.0
  {
    CompoundStarts(s, r);
    CompoundLast(s, r);
    var v := Compound(s, r);
    assert |v| - 1 == |r|;
    assert v[|v| - 1] == s * Growth(r);
    var g := Growth(r);
    CancelFactor(s, g);
    assert v[|v| - 1] / v[0] == (s * g) / s;
  }

  /** A series flat at a positive level has no cumulative return and no drawdown. */
  lemma FlatSeriesMetrics(v: seq<real>, c: real)
    requires c > 0.0 && v != []
    requires forall i :: 0 <= i < |v| ==> v[i] == c
    ensures CumulativeReturn(v) == 0.0
    ensures MaxDrawdown(v) == 0.0
  {
    assert Nondecreasing(v);
    NondecreasingHasNoDrawdown(v);
    assert v[|v| - 1] == v[0] == c;
    CancelFactor(c, 1.0);
  }
}
