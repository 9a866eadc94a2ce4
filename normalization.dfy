/** Turning the entered percentages into fractions that sum to one. */
module Normalization {
  import opened Frames

  /** The normalized weights: each weight over the total when the total is
      positive, otherwise an equal share for every selected asset (none at all
      when nothing is selected). */
  function Normalized(selected: seq<Asset>, weights: map<Asset, real>): (nw: map<Asset, real>)
    requires Keyed(selected, weights)
  {
    var total := SumOver(selected, weights);
    if total > 0.0 then map a | a in weights :: weights[a] / total
    else map a | a in selected :: 1.0 / (|selected| as real)
  }

  /** The normalizer's loops; the weights are keyed by exactly the selected
      assets, in selection order. The selection holds no ticker twice, so the
      total summed over it is the sum of the map's values. */
  method Normalize(selected: seq<Asset>, weights: map<Asset, real>) returns (nw: map<Asset, real>)
    requires Distinct(selected) && weights.Keys == set a | a in selected
    ensures Keyed(selected, weights) && nw == Normalized(selected, weights)
  {
    NormalizedShares(selected, weights);
    var total := SumOver(selected, weights);
    if total > 0.0 {
      nw := DivideByTotal(selected, weights, total);
    } else if |selected| > 0 {
      nw := ShareEqually(selected, |selected|);
    } else {
      nw := map[];
    }
  }

  /** The first loop: every selected asset's weight over the total. */
  method DivideByTotal(selected: seq<Asset>, weights: map<Asset, real>, total: real) returns (nw: map<Asset, real>)
    requires Keyed(selected, weights) && total != 0.0
    ensures nw == map a | a in selected :: weights[a] / total
  {
    nw := map[];
    for i := 0 to |selected|
      invariant forall a :: a in nw <==> a in selected[..i]
      invariant forall a :: a in nw ==> nw[a] == weights[a] / total
    {
      assert selected[..i + 1] == selected[..i] + [selected[i]];
      nw := nw[selected[i] := weights[selected[i]] / total];
    }
    assert selected[..|selected|] == selected;
  }

  /** The second loop: an equal share of one over `n` for every selected asset. */
  method ShareEqually(selected: seq<Asset>, n: nat) returns (nw: map<Asset, real>)
    requires n > 0
    ensures nw == map a | a in selected :: 1.0 / (n as real)
  {
    nw := map[];
    for i := 0 to |selected|
      invariant forall a :: a in nw <==> a in selected[..i]
      invariant forall a :: a in nw ==> nw[a] == 1.0 / (n as real)
    {
      assert selected[..i + 1] == selected[..i] + [selected[i]];
      nw := nw[selected[i] := 1.0 / (n as real)];
    }
    assert selected[..|selected|] == selected;
  }

  lemma {:induction false} SumOverScaled(keys: seq<Asset>, w: map<Asset, real>, nw: map<Asset, real>, t: real)
    requires t != 0.0 && Keyed(keys, w) && Keyed(keys, nw)
    requires forall i :: 0 <= i < |keys| ==> nw[keys[i]] == w[keys[i]] / t
    ensures SumOver(keys, nw) == SumOver(keys, w) / t
  {
    if keys != [] {
      var n := |keys| - 1;
      SumOverScaled(keys[..n], w, nw, t);
      assert SumOver(keys[..n], w) / t + w[keys[n]] / t == (SumOver(keys[..n], w) + w[keys[n]]) / t;
    }
  }

  lemma {:induction false} SumOverConstant(keys: seq<Asset>, nw: map<Asset, real>, c: real)
    requires Keyed(keys, nw)
    requires forall i :: 0 <= i < |keys| ==> nw[keys[i]] == c
    ensures SumOver(keys, nw) == |keys| as real * c
  {
    if keys != [] {
      SumOverConstant(keys[..|keys| - 1], nw, c);
    }
  }

  /** The normalized weights are keyed by the selected assets: each is the raw
      weight over the total when the total is positive, and 1/n otherwise. */
  lemma NormalizedShares(selected: seq<Asset>, weights: map<Asset, real>)
    requires weights.Keys == set a | a in selected
    ensures Keyed(selected, weights)
    ensures Normalized(selected, weights).Keys == weights.Keys
    ensures selected == [] ==> Normalized(selected, weights) == map[]
    ensures SumOver(selected, weights) > 0.0 ==>
              forall a :: a in weights ==> Normalized(selected, weights)[a] == weights[a] / SumOver(selected, weights)
    ensures SumOver(selected, weights) <= 0.0 ==>
              forall a :: a in weights ==> Normalized(selected, weights)[a] == 1.0 / (|selected| as real)
  {
    assert Keyed(selected, weights) by {
      forall i | 0 <= i < |selected| ensures selected[i] in weights {
        assert selected[i] in set a | a in selected;
      }
    }
  }

  /** Whenever an asset is selected, the normalized weights sum to one, whether
      the total was positive or the equal split was used. */
  lemma NormalizedSumsToOne(selected: seq<Asset>, weights: map<Asset, real>)
    requires Keyed(selected, weights) && selected != []
    ensures Keyed(selected, Normalized(selected, weights))
    ensures SumOver(selected, Normalized(selected, weights)) == 1.0
  {
    var total := SumOver(selected, weights);
    var nw := Normalized(selected, weights);
    if total > 0.0 {
      SumOverScaled(selected, weights, nw, total);
    } else {
      var n := |selected| as real;
      SumOverConstant(selected, nw, 1.0 / n);
      assert n * (1.0 / n) == 1.0;
    }
  }

  /** Non-negative entered weights give non-negative normalized weights. */
  lemma NormalizedNonNegative(selected: seq<Asset>, weights: map<Asset, real>)
    requires Keyed(selected, weights)
    requires forall a :: a in weights ==> weights[a] >= 0.0
    ensures forall a :: a in Normalized(selected, weights) ==> Normalized(selected, weights)[a] >= 0.0
  {
    var total := SumOver(selected, weights);
    var nw := Normalized(selected, weights);
    forall a | a in nw ensures nw[a] >= 0.0 {
      if total > 0.0 {
        assert weights[a] >= 0.0;
      }
    }
  }
}
