/** The main panel: from the sidebar inputs and the fetched prices to the value
    series and its headline metrics, or to the message the panel stops at. */
module Dashboard {
  import opened Frames
  import opened Returns
  import opened Allocation
  import opened Normalization
  import opened Valuation
  import opened Metrics

  /** What the panel shows once the value series exists. */
  datatype Report = Report(values: seq<real>, cumulativeReturn: real, maxDrawdown: real)

  /** The fetched price table fits the selection: one aligned column per
      selected ticker, every price positive. */
  predicate PricesFor(selected: seq<Asset>, prices: Frame) {
    && Aligned(prices)
    && prices.columns.Keys == (set a | a in selected)
    && (forall a :: a in prices.columns ==> Positive(prices.columns[a]))
  }

  /** Every entered percentage lies in the input's range [0, 100]. */
  predicate InRange(entered: seq<real>) {
    forall i :: 0 <= i < |entered| ==> 0.0 <= entered[i] <= 100.0
  }

  /** The normalized weights of the sidebar's entries, as the main panel uses them. */
  lemma NormalizedCovers(selected: seq<Asset>, weights: map<Asset, real>, prices: Frame)
    requires weights.Keys == (set a | a in selected)
    requires PricesFor(selected, prices)
    ensures forall a :: a in prices.columns ==> NonZero(prices.columns[a])
    ensures Keyed(selected, weights)
    ensures Aligned(ReturnFrame(prices))
    ensures Covers(ReturnFrame(prices), selected, Normalized(selected, weights))
  {
    NormalizedShares(selected, weights);
    ReturnsAboveMinusOne(prices);
  }

  /** One pass of the script: the sidebar loop, then the main panel's checks in
      order (no selection, a bad date range, a failed fetch, an empty table),
      the normalization, the valuation loop and the metrics. */
  method Run(selected: seq<Asset>, entered: seq<real>, startBeforeEnd: bool, fetched: Option<Frame>)
      returns (notice: Notice, weights: map<Asset, real>, r: Result<Report>)
    requires Distinct(selected) && |entered| == |selected| && InRange(entered)
    requires fetched.Some? ==> PricesFor(selected, fetched.value)
    ensures weights.Keys == (set a | a in selected)
    ensures forall i :: 0 <= i < |selected| ==> weights[selected[i]] == entered[i]
    ensures notice == (if selected == [] then NoNotice else Classify(Sum(entered)))
    ensures selected == [] <==> r == Err(NoAssetsSelected)
    ensures r == Err(InvalidDateRange) <==> selected != [] && !startBeforeEnd
    ensures r == Err(FetchFailed) <==> selected != [] && startBeforeEnd && fetched.None?
    ensures r == Err(NoData) <==> selected != [] && startBeforeEnd && fetched.Some? && fetched.value.rows == 0
    ensures r == Err(IndexOutOfRange) <==> selected != [] && startBeforeEnd && fetched.Some? && fetched.value.rows == 1
    ensures r.Ok? <==> selected != [] && startBeforeEnd && fetched.Some? && fetched.value.rows > 1
    ensures r.Ok? ==>
              && fetched.Some?
              && (forall a :: a in fetched.value.columns ==> NonZero(fetched.value.columns[a]))
              && Keyed(selected, weights)
              && Aligned(ReturnFrame(fetched.value))
              && Covers(ReturnFrame(fetched.value), selected, Normalized(selected, weights))
              && r.value.values == ValueSeries(selected, Normalized(selected, weights), ReturnFrame(fetched.value))
    ensures r.Ok? ==>
              var v := r.value.values;
              && |v| == fetched.value.rows - 1
              && v[0] == InitialInvestment
              && Positive(v)
              && v[0] * (1.0 + r.value.cumulativeReturn) == v[|v| - 1]
              && r.value.maxDrawdown == MaxDrawdown(v)
              && -1.0 < r.value.maxDrawdown <= 0.0
              && (exists i :: 0 <= i < |v| && r.value.maxDrawdown == Drawdowns(v)[i])
              && (forall i :: 0 <= i < |v| ==> r.value.maxDrawdown <= Drawdowns(v)[i])
  {
    var weightsAssigned, remainingWeight;
    weights, weightsAssigned, remainingWeight, notice := AssignWeights(selected, entered);
    if selected == [] {
      return notice, weights, Err(NoAssetsSelected);
    }
    assert notice == Classify(Sum(entered));
    if !startBeforeEnd {
      return notice, weights, Err(InvalidDateRange);
    }
    if fetched.None? {
      return notice, weights, Err(FetchFailed);
    }
    var prices := fetched.value;
    if prices.rows == 0 {
      return notice, weights, Err(NoData);
    }
    NormalizedCovers(selected, weights, prices);
    var assetReturns := ReturnFrame(prices);
    var normalized := Normalize(selected, weights);
    var valued := Valuate(selected, normalized, assetReturns);
    if valued.Err? {
      return notice, weights, Err(valued.error);
    }
    var v := valued.value;
    PortfolioPositive(selected, entered, weights, prices);
    r := Ok(Report(v, CumulativeReturn(v), MaxDrawdown(v)));
  }

  /** With entries in range and positive prices the portfolio value stays
      positive and starts at the initial investment. */
  lemma PortfolioPositive(selected: seq<Asset>, entered: seq<real>, weights: map<Asset, real>, prices: Frame)
    requires |entered| == |selected| && selected != [] && InRange(entered)
    requires weights.Keys == (set a | a in selected)
    requires forall i :: 0 <= i < |selected| ==> weights[selected[i]] == entered[i]
    requires PricesFor(selected, prices) && prices.rows > 1
    ensures forall a :: a in prices.columns ==> NonZero(prices.columns[a])
    ensures Keyed(selected, weights)
    ensures Aligned(ReturnFrame(prices)) && Covers(ReturnFrame(prices), selected, Normalized(selected, weights))
    ensures ValueSeries(selected, Normalized(selected, weights), ReturnFrame(prices))[0] == InitialInvestment
    ensures Positive(ValueSeries(selected, Normalized(selected, weights), ReturnFrame(prices)))
  {
    NormalizedCovers(selected, weights, prices);
    var nw := Normalized(selected, weights);
    var ret := ReturnFrame(prices);
    NormalizedSumsToOne(selected, weights);
    assert forall a :: a in weights ==> weights[a] >= 0.0 by {
      forall a | a in weights ensures weights[a] >= 0.0 {
        assert a in set b | b in selected;
        var i :| 0 <= i < |selected| && selected[i] == a;
        assert weights[selected[i]] == entered[i];
      }
    }
    NormalizedNonNegative(selected, weights);
    NormalizedShares(selected, weights);
    ReturnsAboveMinusOne(prices);
    ValueSeriesRecurrence(selected, nw, ret);
    ValuesPositive(selected, nw, ret);
  }

  /** Entries that already total 100% are used as plain percentages. */
  lemma FullAllocationIsPercent(selected: seq<Asset>, entered: seq<real>, weights: map<Asset, real>)
    requires |entered| == |selected|
    requires weights.Keys == (set a | a in selected)
    requires forall i :: 0 <= i < |selected| ==> weights[selected[i]] == entered[i]
    requires Sum(entered) == 100.0
    ensures Keyed(selected, weights)
    ensures forall i :: 0 <= i < |selected| ==> Normalized(selected, weights)[selected[i]] == entered[i] / 100.0
  {
    TotalIsAssigned(selected, entered, weights);
    NormalizedShares(selected, weights);
  }

  /** Prices that never move give a portfolio flat at the initial investment,
      no cumulative return and no drawdown. */
  lemma ConstantPricesFlat(selected: seq<Asset>, weights: map<Asset, real>, prices: Frame)
    requires weights.Keys == (set a | a in selected)
    requires PricesFor(selected, prices) && prices.rows > 1
    requires forall a, t :: a in prices.columns && 0 <= t < prices.rows ==> prices.columns[a][t] == prices.columns[a][0]
    ensures forall a :: a in prices.columns ==> NonZero(prices.columns[a])
    ensures Keyed(selected, weights)
    ensures Aligned(ReturnFrame(prices)) && Covers(ReturnFrame(prices), selected, Normalized(selected, weights))
    ensures var v := ValueSeries(selected, Normalized(selected, weights), ReturnFrame(prices));
            && (forall i :: 0 <= i < |v| ==> v[i] == InitialInvestment)
            && CumulativeReturn(v) == 0.0
            && MaxDrawdown(v) == 0.0
  {
    NormalizedCovers(selected, weights, prices);
    var ret := ReturnFrame(prices);
    var nw := Normalized(selected, weights);
    FlatPricesZeroReturns(prices);
    ZeroReturnsConstant(selected, nw, ret);
    FlatSeriesMetrics(ValueSeries(selected, nw, ret), InitialInvestment);
  }

  /** The returns of the value series (from which the volatility is taken) are
      the weighted daily returns it was compounded from. */
  lemma PortfolioReturns(selected: seq<Asset>, entered: seq<real>, weights: map<Asset, real>, prices: Frame)
    requires |entered| == |selected| && selected != [] && InRange(entered)
    requires weights.Keys == (set a | a in selected)
    requires forall i :: 0 <= i < |selected| ==> weights[selected[i]] == entered[i]
    requires PricesFor(selected, prices) && prices.rows > 1
    ensures forall a :: a in prices.columns ==> NonZero(prices.columns[a])
    ensures Keyed(selected, weights)
    ensures Aligned(ReturnFrame(prices)) && Covers(ReturnFrame(prices), selected, Normalized(selected, weights))
    ensures NonZero(ValueSeries(selected, Normalized(selected, weights), ReturnFrame(prices)))
    ensures PctChange(ValueSeries(selected, Normalized(selected, weights), ReturnFrame(prices)))
              == DailyReturns(selected, Normalized(selected, weights), ReturnFrame(prices), prices.rows - 2)
  {
    PortfolioPositive(selected, entered, weights, prices);
    var ret := ReturnFrame(prices);
    var nw := Normalized(selected, weights);
    PctChangeOfCompound(InitialInvestment, DailyReturns(selected, nw, ret, ret.rows - 1));
  }

  /** The cumulative return is the product of one plus each weighted daily
      return, minus one. */
  lemma CumulativeReturnIsGrowth(selected: seq<Asset>, weights: map<Asset, real>, prices: Frame)
    requires weights.Keys == (set a | a in selected)
    requires PricesFor(selected, prices) && prices.rows > 1
    ensures forall a :: a in prices.columns ==> NonZero(prices.columns[a])
    ensures Keyed(selected, weights)
    ensures Aligned(ReturnFrame(prices)) && Covers(ReturnFrame(prices), selected, Normalized(selected, weights))
    ensures ValueSeries(selected, Normalized(selected, weights), ReturnFrame(prices))[0] == InitialInvestment
    ensures CumulativeReturn(ValueSeries(selected, Normalized(selected, weights), ReturnFrame(prices)))
              == Growth(DailyReturns(selected, Normalized(selected, weights), ReturnFrame(prices), prices.rows - 2)) - 1.0
  {
    NormalizedCovers(selected, weights, prices);
    var ret := ReturnFrame(prices);
    var nw := Normalized(selected, weights);
    CumulativeReturnOfCompound(InitialInvestment, DailyReturns(selected, nw, ret, ret.rows - 1));
  }
}
