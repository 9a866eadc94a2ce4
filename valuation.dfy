/** The portfolio value series: a lump sum compounded by the weighted daily return. */
module Valuation {
  import opened Frames
  import opened Returns

  /** The lump sum invested at the first slot. */
  const InitialInvestment: real := 10000.0

  /** Only assets that hold a normalized weight are looked up in the return table. */
  predicate Covers(ret: Frame, assets: seq<Asset>, weights: map<Asset, real>) {
    forall i :: 0 <= i < |assets| && assets[i] in weights ==> assets[i] in ret.columns
  }

  /** The weighted return of return row `k`: each selected asset's return times
      its normalized weight, skipping assets without a weight. */
  function DailyReturn(assets: seq<Asset>, weights: map<Asset, real>, ret: Frame, k: nat): real
    requires Aligned(ret) && Covers(ret, assets, weights) && k < ret.rows
  {
    if assets == [] then 0.0
    else
      var a := assets[|assets| - 1];
      DailyReturn(assets[..|assets| - 1], weights, ret, k)
        + (if a in weights then ret.columns[a][k] * weights[a] else 0.0)
  }

  /** The weighted returns of the first `n` return rows. */
  function DailyReturns(assets: seq<Asset>, weights: map<Asset, real>, ret: Frame, n: nat): (d: seq<real>)
    requires Aligned(ret) && Covers(ret, assets, weights) && n <= ret.rows
    ensures |d| == n
  {
    seq(n, k requires 0 <= k < n => DailyReturn(assets, weights, ret, k))
  }

  /** The series as the dashboard computes it: one slot per return row, slot 0
      the initial investment, slot i compounded by the weighted return of row
      i - 1; the last return row is never used. */
  function ValueSeries(assets: seq<Asset>, weights: map<Asset, real>, ret: Frame): (v: seq<real>)
    requires Aligned(ret) && Covers(ret, assets, weights)
    ensures |v| == ret.rows
  {
    if ret.rows == 0 then []
    else Compound(InitialInvestment, DailyReturns(assets, weights, ret, ret.rows - 1))
  }

  /** The compounded series over the price dates: one slot more than there are
      return rows, every return row applied. With several assets this is a
      fixed-weight mix rebalanced every day, not a buy-and-hold of the initial
      shares; for a single asset the two coincide. */
  function HeldValues(assets: seq<Asset>, weights: map<Asset, real>, ret: Frame): (v: seq<real>)
    requires Aligned(ret) && Covers(ret, assets, weights)
    ensures |v| == ret.rows + 1
  {
    Compound(InitialInvestment, DailyReturns(assets, weights, ret, ret.rows))
  }

  /** The inner loop: the weighted return of return row `k`, accumulated over
      the selected assets in order, skipping assets without a weight. */
  method WeightedReturn(assets: seq<Asset>, weights: map<Asset, real>, ret: Frame, k: nat) returns (dayReturn: real)
    requires Aligned(ret) && Covers(ret, assets, weights) && k < ret.rows
    ensures dayReturn == DailyReturn(assets, weights, ret, k)
  {
    dayReturn := 0.0;
    for j := 0 to |assets|
      invariant dayReturn == DailyReturn(assets[..j], weights, ret, k)
    {
      var a := assets[j];
      assert assets[..j + 1][..j] == assets[..j];
      if a in weights {
        dayReturn := dayReturn + ret.columns[a][k] * weights[a];
      }
    }
    assert assets[..|assets|] == assets;
  }

  /** Compounding one more return of a run appends one grown slot. */
  lemma CompoundExtend(s: real, d: seq<real>, i: nat)
    requires 0 < i <= |d|
    ensures Compound(s, d[..i]) == Compound(s, d[..i - 1]) + [Grow(Compound(s, d[..i - 1])[i - 1], d[i - 1])]
  {
    assert d[..i] == d[..i - 1] + [d[i - 1]];
    CompoundSnoc(s, d[..i - 1], d[i - 1]);
  }

  /** The valuation loop: fill a zeroed series, seed slot 0 with the initial
      investment (which fails on an empty series), then compound day by day. */
  method Valuate(assets: seq<Asset>, weights: map<Asset, real>, ret: Frame) returns (r: Result<seq<real>>)
    requires Aligned(ret) && Covers(ret, assets, weights)
    ensures ret.rows == 0 ==> r == Err(IndexOutOfRange)
    ensures ret.rows > 0 ==> r == Ok(ValueSeries(assets, weights, ret))
  {
    var n := ret.rows;
    var series := new real[n](_ => 0.0);
    if n == 0 {
      return Err(IndexOutOfRange);
    }
    series[0] := InitialInvestment;
    ghost var daily := DailyReturns(assets, weights, ret, n - 1);
    for i := 1 to n
      invariant series[..i] == Compound(InitialInvestment, daily[..i - 1])
    {
      var dayReturn := WeightedReturn(assets, weights, ret, i - 1);
      CompoundExtend(InitialInvestment, daily, i);
      ghost var prefix := series[..i];
      series[i] := Grow(series[i - 1], dayReturn);
      assert series[..i + 1] == prefix + [series[i]];
    }
    assert daily[..n - 1] == daily;
    assert series[..] == series[..n];
    return Ok(series[..]);
  }

  /** Slot 0 is the initial investment and each later slot compounds the one
      before it by the weighted return of the previous return row. */
  lemma {:induction false} ValueSeriesRecurrence(assets: seq<Asset>, weights: map<Asset, real>, ret: Frame)
    requires Aligned(ret) && Covers(ret, assets, weights)
    ensures ret.rows > 0 ==> ValueSeries(assets, weights, ret)[0] == InitialInvestment
    ensures forall i :: 1 <= i < ret.rows ==>
              ValueSeries(assets, weights, ret)[i] ==
              Grow(ValueSeries(assets, weights, ret)[i - 1], DailyReturn(assets, weights, ret, i - 1))
  {
    if ret.rows > 0 {
      var d := DailyReturns(assets, weights, ret, ret.rows - 1);
      var v := ValueSeries(assets, weights, ret);
      assert v == Compound(InitialInvestment, d);
      CompoundStarts(InitialInvestment, d);
      forall i | 1 <= i < ret.rows
        ensures v[i] == Grow(v[i - 1], DailyReturn(assets, weights, ret, i - 1))
      {
        CompoundStep(InitialInvestment, d, i);
        assert d[i - 1] == DailyReturn(assets, weights, ret, i - 1);
      }
    }
  }

  lemma {:induction false} DailyReturnOfFlatRow(assets: seq<Asset>, weights: map<Asset, real>, ret: Frame, k: nat)
    requires Aligned(ret) && Covers(ret, assets, weights) && k < ret.rows
    requires forall a :: a in ret.columns ==> ret.columns[a][k] == 0.0
    ensures DailyReturn(assets, weights, ret, k) == 0.0
  {
    if assets != [] {
      DailyReturnOfFlatRow(assets[..|assets| - 1], weights, ret, k);
    }
  }

  /** All-zero asset returns keep the whole series at the initial investment. */
  lemma ZeroReturnsConstant(assets: seq<Asset>, weights: map<Asset, real>, ret: Frame)
    requires Aligned(ret) && Covers(ret, assets, weights)
    requires forall a, k :: a in ret.columns && 0 <= k < ret.rows ==> ret.columns[a][k] == 0.0
    ensures forall i :: 0 <= i < ret.rows ==> ValueSeries(assets, weights, ret)[i] == InitialInvestment
  {
    if ret.rows > 0 {
      var d := DailyReturns(assets, weights, ret, ret.rows - 1);
      forall k | 0 <= k < |d| ensures d[k] == 0.0 {
        DailyReturnOfFlatRow(assets, weights, ret, k);
      }
      forall i | 0 <= i < ret.rows ensures Compound(InitialInvestment, d)[i] == InitialInvestment {
        CompoundFlat(InitialInvestment, d, i);
      }
    }
  }

  lemma {:induction false} DailyReturnAgrees(assets: seq<Asset>, weights: map<Asset, real>, ret: Frame, ret': Frame, k: nat)
    requires Aligned(ret) && Covers(ret, assets, weights) && k < ret.rows
    requires Aligned(ret') && Covers(ret', assets, weights) && k < ret'.rows
    requires forall i :: 0 <= i < |assets| && assets[i] in weights ==>
               ret'.columns[assets[i]][k] == ret.columns[assets[i]][k]
    ensures DailyReturn(assets, weights, ret', k) == DailyReturn(assets, weights, ret, k)
  {
    if assets != [] {
      DailyReturnAgrees(assets[..|assets| - 1], weights, ret, ret', k);
    }
  }

  /** The final return row never affects any value: two return tables that
      agree on every row but the last give the same series. */
  lemma LastRowNeverApplied(assets: seq<Asset>, weights: map<Asset, real>, ret: Frame, ret': Frame)
    requires Aligned(ret) && Covers(ret, assets, weights)
    requires Aligned(ret') && Covers(ret', assets, weights) && ret'.rows == ret.rows
    requires forall a, k :: a in ret.columns && a in ret'.columns && 0 <= k < ret.rows - 1 ==>
               ret'.columns[a][k] == ret.columns[a][k]
    ensures ValueSeries(assets, weights, ret') == ValueSeries(assets, weights, ret)
  {
    if ret.rows > 0 {
      var n := ret.rows - 1;
      forall k | 0 <= k < n
        ensures DailyReturns(assets, weights, ret', n)[k] == DailyReturns(assets, weights, ret, n)[k]
      {
        forall i | 0 <= i < |assets| && assets[i] in weights
          ensures ret'.columns[assets[i]][k] == ret.columns[assets[i]][k]
        {
        }
        DailyReturnAgrees(assets, weights, ret, ret', k);
      }
      assert DailyReturns(assets, weights, ret', n) == DailyReturns(assets, weights, ret, n);
    }
  }

  /** With non-negative weights summing to one and every return above -100%,
      the weighted return `d` of a row satisfies d + 1 > 0, so d > -100%. */
  lemma {:induction false} DailyReturnBound(assets: seq<Asset>, weights: map<Asset, real>, ret: Frame, k: nat)
    requires Aligned(ret) && Covers(ret, assets, weights) && k < ret.rows
    requires Keyed(assets, weights)
    requires forall i :: 0 <= i < |assets| ==> weights[assets[i]] >= 0.0
    requires forall a :: a in ret.columns ==> ret.columns[a][k] > -1.0
    ensures DailyReturn(assets, weights, ret, k) + SumOver(assets, weights) >= 0.0
    ensures SumOver(assets, weights) > 0.0 ==> DailyReturn(assets, weights, ret, k) + SumOver(assets, weights) > 0.0
  {
    if assets != [] {
      var n := |assets| - 1;
      var a := assets[n];
      DailyReturnBound(assets[..n], weights, ret, k);
      var w, x := weights[a], ret.columns[a][k];
      var d0, s0 := DailyReturn(assets[..n], weights, ret, k), SumOver(assets[..n], weights);
      assert DailyReturn(assets, weights, ret, k) + SumOver(assets, weights) == (d0 + s0) + w * (1.0 + x);
      assert w * (1.0 + x) >= 0.0;
      if w > 0.0 {
        assert w * (1.0 + x) > 0.0;
      } else {
        assert SumOver(assets, weights) == s0;
      }
    }
  }

  /** Non-negative weights summing to one and returns above -100% keep every
      portfolio value positive. */
  lemma ValuesPositive(assets: seq<Asset>, weights: map<Asset, real>, ret: Frame)
    requires Aligned(ret) && Covers(ret, assets, weights)
    requires Keyed(assets, weights) && SumOver(assets, weights) == 1.0
    requires forall i :: 0 <= i < |assets| ==> weights[assets[i]] >= 0.0
    requires forall a, k :: a in ret.columns && 0 <= k < ret.rows ==> ret.columns[a][k] > -1.0
    ensures Positive(ValueSeries(assets, weights, ret))
  {
    if ret.rows > 0 {
      var d := DailyReturns(assets, weights, ret, ret.rows - 1);
      forall k | 0 <= k < |d| ensures d[k] > -1.0 {
        DailyReturnBound(assets, weights, ret, k);
      }
      forall t | 0 <= t < ret.rows ensures Compound(InitialInvestment, d)[t] > 0.0 {
        CompoundPositive(InitialInvestment, d, t);
      }
    }
  }

  /** The dashboard's series is the compounded series over the price dates with
      its last slot cut off: slot i holds the value of price date i. (Line 109
      stamps it with the date of return row i, which is price date i + 1; a
      `Frame` carries no dates, so that label is not part of this statement.) */
  lemma ValueSeriesIsHeldPrefix(assets: seq<Asset>, weights: map<Asset, real>, ret: Frame)
    requires Aligned(ret) && Covers(ret, assets, weights)
    ensures ValueSeries(assets, weights, ret) == HeldValues(assets, weights, ret)[..ret.rows]
  {
    if ret.rows > 0 {
      var n := ret.rows - 1;
      var d := DailyReturns(assets, weights, ret, ret.rows);
      CompoundPrefix(InitialInvestment, d, n);
      assert d[..n] == DailyReturns(assets, weights, ret, n);
    }
  }

  lemma {:induction false} SingleAssetDailyReturns(a: Asset, prices: Frame)
    requires Aligned(prices) && a in prices.columns && prices.rows > 0
    requires forall b :: b in prices.columns ==> NonZero(prices.columns[b])
    ensures Covers(ReturnFrame(prices), [a], map[a := 1.0])
    ensures DailyReturns([a], map[a := 1.0], ReturnFrame(prices), prices.rows - 1) == PctChange(prices.columns[a])
  {
    var ret := ReturnFrame(prices);
    var d := DailyReturns([a], map[a := 1.0], ret, prices.rows - 1);
    assert ret.columns[a] == PctChange(prices.columns[a]);
    forall k | 0 <= k < prices.rows - 1 ensures d[k] == PctChange(prices.columns[a])[k] {
      assert [a][..0] == [];
      assert DailyReturn([a], map[a := 1.0], ret, k) == ret.columns[a][k] * 1.0;
    }
  }

  /** One asset held at full weight: the compounded series is the initial
      investment scaled by the price relative to the first price date. */
  lemma {:induction false} HeldValuesTrackPrice(a: Asset, prices: Frame)
    requires Aligned(prices) && a in prices.columns && prices.rows > 0
    requires forall b :: b in prices.columns ==> NonZero(prices.columns[b])
    ensures Covers(ReturnFrame(prices), [a], map[a := 1.0])
    ensures forall t :: 0 <= t < prices.rows ==>
              HeldValues([a], map[a := 1.0], ReturnFrame(prices))[t]
                == InitialInvestment / prices.columns[a][0] * prices.columns[a][t]
  {
    SingleAssetDailyReturns(a, prices);
    var p := prices.columns[a];
    var ret := ReturnFrame(prices);
    assert ret.rows == prices.rows - 1;
    var h := HeldValues([a], map[a := 1.0], ret);
    assert h == Compound(InitialInvestment, DailyReturns([a], map[a := 1.0], ret, ret.rows));
    assert h == Compound(InitialInvestment, PctChange(p));
    CompoundTracksPrices(InitialInvestment, p);
  }

  /** As computed, with one asset at full weight, slot i (stamped at price date
      i + 1) holds the value the holding had at price date i. */
  lemma ValueSeriesLagsPrice(a: Asset, prices: Frame)
    requires Aligned(prices) && a in prices.columns && prices.rows > 0
    requires forall b :: b in prices.columns ==> NonZero(prices.columns[b])
    ensures Covers(ReturnFrame(prices), [a], map[a := 1.0])
    ensures forall i :: 0 <= i < prices.rows - 1 ==>
              ValueSeries([a], map[a := 1.0], ReturnFrame(prices))[i]
                == InitialInvestment / prices.columns[a][0] * prices.columns[a][i]
  {
    HeldValuesTrackPrice(a, prices);
    ValueSeriesIsHeldPrefix([a], map[a := 1.0], ReturnFrame(prices));
  }

  /** A single asset that gains 5% over two price dates: the dashboard's series
      is the lone slot 10000 and never shows the gain, while the compounded
      series over the price dates ends at 10500. */
  lemma LagCounterexample()
    ensures var prices := Frame(2, map["SPY" := [100.0, 105.0]]);
            && ReturnFrame(prices).rows == 1
            && ValueSeries(["SPY"], map["SPY" := 1.0], ReturnFrame(prices)) == [10000.0]
            && HeldValues(["SPY"], map["SPY" := 1.0], ReturnFrame(prices))[1] == 10500.0
  {
    var prices := Frame(2, map["SPY" := [100.0, 105.0]]);
    HeldValuesTrackPrice("SPY", prices);
  }
}
