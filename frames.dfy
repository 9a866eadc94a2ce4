/** Shared vocabulary of the dashboard: tickers, per-asset tables over a common
    row index, sums over weights, and the outcomes the main panel can end in. */
module Frames {

  /** A ticker symbol such as "SPY". */
  type Asset = string

  /** The ways the main panel stops before showing metrics. */
  datatype Error =
    | NoAssetsSelected   // nothing chosen in the multiselect
    | InvalidDateRange   // the start date is not before the end date
    | FetchFailed        // the price download gave nothing back
    | NoData             // the fetched price table has no rows
    | IndexOutOfRange    // writing slot 0 of an empty value series

  datatype Result<T> = Ok(value: T) | Err(error: Error)

  datatype Option<T> = None | Some(value: T)

  /** A table with one column per asset over a shared row index
      (the price table, or the table of returns derived from it). */
  datatype Frame = Frame(rows: nat, columns: map<Asset, seq<real>>)

  /** Every column has exactly one entry per row. */
  predicate Aligned(f: Frame) {
    forall a :: a in f.columns ==> |f.columns[a]| == f.rows
  }

  predicate Distinct(s: seq<Asset>) {
    forall i, j :: 0 <= i < j < |s| ==> s[i] != s[j]
  }

  predicate Positive(p: seq<real>) {
    forall t :: 0 <= t < |p| ==> p[t] > 0.0
  }

  /** Every listed asset has a weight. */
  predicate Keyed(keys: seq<Asset>, w: map<Asset, real>) {
    forall i :: 0 <= i < |keys| ==> keys[i] in w
  }

  /** Sum of a sequence, added left to right. */
  function Sum(xs: seq<real>): real {
    if xs == [] then 0.0 else Sum(xs[..|xs| - 1]) + xs[|xs| - 1]
  }

  /** Sum of the weights of the listed assets, in list order. */
  function SumOver(keys: seq<Asset>, w: map<Asset, real>): real
    requires Keyed(keys, w)
  {
    if keys == [] then 0.0 else SumOver(keys[..|keys| - 1], w) + w[keys[|keys| - 1]]
  }
}
