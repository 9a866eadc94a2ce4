/** The sidebar's allocation inputs: one percentage per selected asset, their
    running total, and the notice shown when the total is not 100%. */
module Allocation {
  import opened Frames

  /** What the sidebar says about the total allocation. */
  datatype Notice =
    | NoNotice                   // exactly 100%
    | OverAllocated              // warning: more than 100%
    | UnderAllocated(total: real) // info, quoting the current total

  /** The value each weight input starts at: 20% for the first five assets. */
  function DefaultWeight(i: nat): (w: real)
    ensures w == 20.0 <==> i < 5
    ensures w == 0.0 <==> i >= 5
  {
    if i == 0 then 20.0
    else if i == 1 then 20.0
    else if i == 2 then 20.0
    else if i == 3 then 20.0
    else if i == 4 then 20.0
    else 0.0
  }

  /** The default inputs of the first `n` assets. */
  function Defaults(n: nat): seq<real> {
    seq(n, i requires 0 <= i < n => DefaultWeight(i))
  }

  /** The notice for a total percentage. */
  function Classify(total: real): (n: Notice)
    ensures n == OverAllocated <==> total > 100.0
    ensures n == NoNotice <==> total == 100.0
    ensures n.UnderAllocated? <==> total < 100.0
    ensures n.UnderAllocated? ==> n.total == total
  {
    if total > 100.0 then OverAllocated
    else if total < 100.0 then UnderAllocated(total)
    else NoNotice
  }

  /** The sidebar loop: record each entered percentage under its asset, keep the
      running total and what is left of 100%, then classify the total. With no
      asset selected the loop and the notice are skipped. */
  method AssignWeights(selected: seq<Asset>, entered: seq<real>)
      returns (weights: map<Asset, real>, weightsAssigned: real, remainingWeight: real, notice: Notice)
    requires Distinct(selected) && |entered| == |selected|
    ensures weights.Keys == set a | a in selected
    ensures forall i :: 0 <= i < |selected| ==> weights[selected[i]] == entered[i]
    ensures weightsAssigned == Sum(entered) && remainingWeight == 100.0 - weightsAssigned
    ensures notice == OverAllocated <==> selected != [] && weightsAssigned > 100.0
    ensures notice.UnderAllocated? <==> selected != [] && weightsAssigned < 100.0
    ensures notice.UnderAllocated? ==> notice.total == weightsAssigned
  {
    weights, weightsAssigned, remainingWeight, notice := map[], 0.0, 100.0, NoNotice;
    if selected != [] {
      for i := 0 to |selected|
        invariant forall a :: a in weights <==> a in selected[..i]
        invariant forall k :: 0 <= k < i ==> weights[selected[k]] == entered[k]
        invariant weightsAssigned == Sum(entered[..i])
        invariant remainingWeight == 100.0 - weightsAssigned
      {
        assert entered[..i + 1][..i] == entered[..i];
        assert selected[..i + 1] == selected[..i] + [selected[i]];
        weights := weights[selected[i] := entered[i]];
        weightsAssigned := weightsAssigned + entered[i];
        remainingWeight := remainingWeight - entered[i];
      }
      assert entered[..|selected|] == entered;
      assert selected[..|selected|] == selected;
      notice := Classify(weightsAssigned);
    } else {
      assert entered == [];
    }
  }

  /** Summing the recorded weights in selection order gives the loop's running
      total, so `sum(asset_weights.values())` equals `weights_assigned`. */
  lemma {:induction false} TotalIsAssigned(selected: seq<Asset>, entered: seq<real>, weights: map<Asset, real>)
    requires |entered| == |selected|
    requires forall i :: 0 <= i < |selected| ==> selected[i] in weights && weights[selected[i]] == entered[i]
    ensures Keyed(selected, weights) && SumOver(selected, weights) == Sum(entered)
  {
    if selected != [] {
      var n := |selected| - 1;
      TotalIsAssigned(selected[..n], entered[..n], weights);
    }
  }

  lemma {:induction false} DefaultsTotal(n: nat)
    requires n <= 5
    ensures Sum(Defaults(n)) == 20.0 * n as real
  {
    if n > 0 {
      DefaultsTotal(n - 1);
      assert Defaults(n)[..n - 1] == Defaults(n - 1);
    }
  }

  /** Left at their defaults, five assets total exactly 100% (no notice) and
      fewer assets fall short by 20% each. */
  lemma DefaultsNotice(n: nat)
    requires 1 <= n <= 5
    ensures Classify(Sum(Defaults(n))) == if n == 5 then NoNotice else UnderAllocated(20.0 * n as real)
  {
    DefaultsTotal(n);
  }
}
