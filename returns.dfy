/** Period-over-period returns of a price column, and compounding, which undoes them. */
module Returns {
  import opened Frames

  predicate NonZero(p: seq<real>) {
    forall t :: 0 <= t < |p| ==> p[t] != 0.0
  }

  /** `pct_change().dropna()` on one column: the first row has no predecessor
      and is dropped, so there is one return fewer than there are prices. */
  function PctChange(p: seq<real>): (r: seq<real>)
    requires NonZero(p)
    ensures |r| == if |p| == 0 then 0 else |p| - 1
  {
    if |p| <= 1 then [] else seq(|p| - 1, t requires 0 <= t < |p| - 1 => p[t + 1] / p[t] - 1.0)
  }

  /** The return table of a price table: one row fewer, the same columns, and each
      entry the fractional change from the previous row to the next. */
  function ReturnFrame(prices: Frame): (r: Frame)
    requires Aligned(prices)
    requires forall a :: a in prices.columns ==> NonZero(prices.columns[a])
    ensures Aligned(r) && r.columns.Keys == prices.columns.Keys
    ensures r.rows == if prices.rows == 0 then 0 else prices.rows - 1
    ensures forall a :: a in r.columns ==> r.columns[a] == PctChange(prices.columns[a])
  {
    Frame(if prices.rows == 0 then 0 else prices.rows - 1,
          map a | a in prices.columns :: PctChange(prices.columns[a]))
  }

  lemma NonZeroEntries(prices: Frame)
    requires forall a :: a in prices.columns ==> NonZero(prices.columns[a])
    ensures forall a, t :: a in prices.columns && 0 <= t < |prices.columns[a]| ==> prices.columns[a][t] != 0.0
  {
    forall a, t | a in prices.columns && 0 <= t < |prices.columns[a]|
      ensures prices.columns[a][t] != 0.0
    {
      assert NonZero(prices.columns[a]);
    }
  }

  /** An amount after one period with fractional return `ret`. */
  function Grow(amount: real, ret: real): real {
    amount * (1.0 + ret)
  }

  /** Each entry of the return table is the fractional change of its column
      from one price row to the next. */
  lemma ReturnFrameEntries(prices: Frame)
    requires Aligned(prices)
    requires forall a :: a in prices.columns ==> NonZero(prices.columns[a])
    ensures forall a, t :: a in prices.columns && 0 <= t < ReturnFrame(prices).rows ==>
              prices.columns[a][t] != 0.0 &&
              ReturnFrame(prices).columns[a][t] == prices.columns[a][t + 1] / prices.columns[a][t] - 1.0
  {
    NonZeroEntries(prices);
  }

  /** The series that starts at `start` and grows by `1 + r[k]` in step k. */
  function Compound(start: real, r: seq<real>): (v: seq<real>)
    ensures |v| == |r| + 1
  {
    if r == [] then [start]
    else
      var prev := Compound(start, r[..|r| - 1]);
      prev + [Grow(prev[|r| - 1], r[|r| - 1])]
  }

  /** Total growth factor of a run of returns. */
  function Growth(r: seq<real>): real {
    if r == [] then 1.0 else Grow(Growth(r[..|r| - 1]), r[|r| - 1])
  }

  lemma {:induction false} CompoundStarts(s: real, r: seq<real>)
    ensures Compound(s, r)[0] == s
  {
    if r != [] {
      CompoundStarts(s, r[..|r| - 1]);
    }
  }

  /** Every step of a compounded series applies exactly one return. */
  lemma {:induction false} CompoundStep(s: real, r: seq<real>, t: nat)
    requires 0 < t <= |r|
    ensures Compound(s, r)[t] == Grow(Compound(s, r)[t - 1], r[t - 1])
  {
    if t < |r| {
      var r' := r[..|r| - 1];
      CompoundStep(s, r', t);
      assert r'[t - 1] == r[t - 1];
    }
  }

  /** The last slot is the start scaled by the total growth. */
  lemma {:induction false} CompoundLast(s: real, r: seq<real>)
    ensures Compound(s, r)[|r|] == s * Growth(r)
  {
    if r == [] {
      CompoundStarts(s, r);
    } else {
      var n := |r|;
      var r' := r[..n - 1];
      var g, x := Growth(r'), r[n - 1];
      assert Compound(s, r)[n] == Grow(Compound(s, r)[n - 1], x) by {
        CompoundStep(s, r, n);
      }
      assert Compound(s, r)[n - 1] == s * g by {
        CompoundLast(s, r');
        CompoundPrefix(s, r, n - 1);
      }
      assert Growth(r) == Grow(g, x);
      GrowScaled(s, g, x);
    }
  }

  /** One more return appends one more slot. */
  lemma {:induction false} CompoundSnoc(s: real, r: seq<real>, x: real)
    ensures Compound(s, r + [x]) == Compound(s, r) + [Grow(Compound(s, r)[|r|], x)]
  {
    var r' := r + [x];
    assert r' != [] && r'[..|r'| - 1] == r && r'[|r'| - 1] == x;
  }

  /** Compounding a prefix of the returns gives a prefix of the series. */
  lemma {:induction false} CompoundPrefix(s: real, r: seq<real>, k: nat)
    requires k <= |r|
    ensures Compound(s, r[..k]) == Compound(s, r)[..k + 1]
  {
    if k < |r| {
      var r' := r[..|r| - 1];
      CompoundPrefix(s, r', k);
      assert r'[..k] == r[..k];
    } else {
      assert r[..k] == r;
    }
  }

  lemma GrowScaled(c: real, u: real, x: real)
    ensures Grow(c * u, x) == c * Grow(u, x)
  {
    assert (c * u) * (1.0 + x) == c * (u * (1.0 + x));
  }

  /** All-zero returns leave the series flat at its start. */
  lemma {:induction false} CompoundFlat(s: real, r: seq<real>, t: nat)
    requires forall k :: 0 <= k < |r| ==> r[k] == 0.0
    requires t <= |r|
    ensures Compound(s, r)[t] == s
  {
    if t == 0 {
      CompoundStarts(s, r);
    } else {
      CompoundFlat(s, r, t - 1);
      CompoundStep(s, r, t);
    }
  }

  /** A positive start and returns above -100% keep every slot positive. */
  lemma {:induction false} CompoundPositive(s: real, r: seq<real>, t: nat)
    requires s > 0.0
    requires forall k :: 0 <= k < |r| ==> r[k] > -1.0
    requires t <= |r|
    ensures Compound(s, r)[t] > 0.0
  {
    if t == 0 {
      CompoundStarts(s, r);
    } else {
      CompoundPositive(s, r, t - 1);
      CompoundStep(s, r, t);
      var u := Compound(s, r)[t - 1];
      var x := 1.0 + r[t - 1];
      assert u > 0.0 && x > 0.0;
      assert u * x > 0.0;
    }
  }

  lemma {:induction false} CompoundOfPctChangeAt(p: seq<real>, t: nat)
    requires NonZero(p) && t < |p|
    ensures Compound(p[0], PctChange(p))[t] == p[t]
  {
    if t == 0 {
      CompoundStarts(p[0], PctChange(p));
    } else {
      CompoundOfPctChangeAt(p, t - 1);
      CompoundStep(p[0], PctChange(p), t);
      assert PctChange(p)[t - 1] == p[t] / p[t - 1] - 1.0;
      assert p[t - 1] * (1.0 + (p[t] / p[t - 1] - 1.0)) == p[t];
    }
  }

  /** Round trip: compounding the returns of a price column from its first
      price gives the price column back. */
  lemma CompoundOfPctChange(p: seq<real>)
    requires NonZero(p) && |p| > 0
    ensures Compound(p[0], PctChange(p)) == p
  {
    forall t | 0 <= t < |p|
      ensures Compound(p[0], PctChange(p))[t] == p[t]
    {
      CompoundOfPctChangeAt(p, t);
    }
  }

  /** Compounding is linear in the starting amount: starting from `k * s`
      scales every slot by `k`. */
  lemma {:induction false} CompoundRescaled(k: real, c: real, s: real, r: seq<real>, t: nat)
    requires k * s == c && t <= |r|
    ensures Compound(c, r)[t] == k * Compound(s, r)[t]
  {
    if t == 0 {
      CompoundStarts(c, r);
      CompoundStarts(s, r);
    } else {
      var w, u, x := Compound(c, r)[t - 1], Compound(s, r)[t - 1], r[t - 1];
      assert Compound(c, r)[t] == Grow(w, x) && Compound(s, r)[t] == Grow(u, x) by {
        CompoundStep(c, r, t);
        CompoundStep(s, r, t);
      }
      assert w == k * u by {
        CompoundRescaled(k, c, s, r, t - 1);
      }
      ScaledStep(k, w, u, x, Compound(c, r)[t], Compound(s, r)[t]);
    }
  }

  /** One growth step keeps a scaled amount scaled by the same factor. */
  lemma ScaledStep(k: real, w: real, u: real, x: real, w': real, u': real)
    requires w == k * u && w' == Grow(w, x) && u' == Grow(u, x)
    ensures w' == k * u'
  {
    GrowScaled(k, u, x);
  }

  /** Compounding the returns of a price column from any amount gives the
      amount scaled by each price relative to the first. */
  lemma {:induction false} CompoundOfPctChangeFrom(c: real, p: seq<real>, t: nat)
    requires NonZero(p) && t < |p|
    ensures Compound(c, PctChange(p))[t] == c / p[0] * p[t]
  {
    assert c / p[0] * p[0] == c;
    CompoundRescaled(c / p[0], c, p[0], PctChange(p), t);
    CompoundOfPctChangeAt(p, t);
  }

  /** Compounding the returns of a price column from `c` tracks the prices,
      scaled so that the first price becomes `c`. */
  lemma CompoundTracksPrices(c: real, p: seq<real>)
    requires NonZero(p) && |p| > 0
    ensures forall t :: 0 <= t < |p| ==> Compound(c, PctChange(p))[t] == c / p[0] * p[t]
  {
    forall t | 0 <= t < |p|
      ensures Compound(c, PctChange(p))[t] == c / p[0] * p[t]
    {
      CompoundOfPctChangeFrom(c, p, t);
    }
  }

  /** Round trip the other way: the returns of a compounded series (with no
      zero slot) are the returns it was built from. */
  lemma PctChangeOfCompound(s: real, r: seq<real>)
    requires NonZero(Compound(s, r))
    ensures PctChange(Compound(s, r)) == r
  {
    var v := Compound(s, r);
    forall t | 0 <= t < |r|
      ensures PctChange(v)[t] == r[t]
    {
      CompoundStep(s, r, t + 1);
      assert v[t] != 0.0 && v[t + 1] == Grow(v[t], r[t]) == v[t] * (1.0 + r[t]);
      CancelFactor(v[t], 1.0 + r[t]);
    }
  }

  lemma CancelFactor(u: real, x: real)
    requires u != 0.0
    ensures (u * x) / u == x
  {
  }

  /** Prices that never move have all-zero returns. */
  lemma FlatPricesZeroReturns(prices: Frame)
    requires Aligned(prices)
    requires forall a :: a in prices.columns ==> NonZero(prices.columns[a])
    requires forall a, t :: a in prices.columns && 0 <= t < prices.rows ==> prices.columns[a][t] == prices.columns[a][0]
    ensures forall a, k :: a in ReturnFrame(prices).columns && 0 <= k < ReturnFrame(prices).rows ==>
              ReturnFrame(prices).columns[a][k] == 0.0
  {
    var ret := ReturnFrame(prices);
    forall a, k | a in ret.columns && 0 <= k < ret.rows
      ensures ret.columns[a][k] == 0.0
    {
      var p := prices.columns[a];
      assert NonZero(p);
      var x := p[0];
      assert p[k + 1] == x && p[k] == x && x != 0.0;
      assert ret.columns[a][k] == PctChange(p)[k] == p[k + 1] / p[k] - 1.0;
      CancelFactor(x, 1.0);
    }
  }

  /** Positive prices give returns strictly above -100%. */
  lemma ReturnsAboveMinusOne(prices: Frame)
    requires Aligned(prices)
    requires forall a :: a in prices.columns ==> Positive(prices.columns[a])
    ensures forall a :: a in prices.columns ==> NonZero(prices.columns[a])
    ensures forall a, t :: a in ReturnFrame(prices).columns && 0 <= t < ReturnFrame(prices).rows ==>
              ReturnFrame(prices).columns[a][t] > -1.0
  {
    assert forall a :: a in prices.columns ==> NonZero(prices.columns[a]);
    var r := ReturnFrame(prices);
    forall a, t | a in r.columns && 0 <= t < r.rows
      ensures r.columns[a][t] > -1.0
    {
      var p := prices.columns[a];
      assert p[t] > 0.0 && p[t + 1] > 0.0;
      assert p[t + 1] / p[t] > 0.0;
    }
  }
}
