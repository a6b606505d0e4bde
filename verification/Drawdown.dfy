// The largest peak-to-trough loss of an equity curve, computed twice in the repository
// (app/helpers/helpers.py, app/services/positions_service.py).
module Drawdown {
  import opened Money

  // ---------------------------------------------------------------- the one-pass definition

  function Peak(es: seq<real>): real
    requires es != []
  {
    var init, e := es[..|es| - 1], es[|es| - 1];
    if init == [] then e else Max(Peak(init), e)
  }

  function Loss(peak: real, e: real): real { if peak == 0.0 then 0.0 else (e - peak) / peak }

  function OnePass(es: seq<real>): real
  {
    if es == [] then 0.0 else Min(OnePass(es[..|es| - 1]), Loss(Peak(es), es[|es| - 1]))
  }

  /** The helper: a zero peak counts as no loss. */
  method MaxDrawdown(equity: seq<real>) returns (maxDd: real)
    ensures maxDd == OnePass(equity)
  {
    maxDd := 0.0;
    var peak := None;
    for i := 0 to |equity|
      invariant maxDd == OnePass(equity[..i])
      invariant peak == if i == 0 then None else Some(Peak(equity[..i]))
    {
      assert equity[..i + 1][..i] == equity[..i];
      var v := equity[i];
      peak := Some(if peak.None? then v else Max(peak.value, v));
      maxDd := Min(maxDd, Loss(peak.value, v));
    }
    assert equity[..|equity|] == equity;
  }

  /** The running peak is zero somewhere along the curve. */
  ghost predicate ZeroPeak(es: seq<real>)
  {
    es != [] && (ZeroPeak(es[..|es| - 1]) || Peak(es) == 0.0)
  }

  /** The metrics loop, in percent: it starts from the first snapshot and divides without a guard. */
  method SnapshotDrawdown(equity: seq<real>) returns (r: Option<real>)
    ensures r.None? <==> ZeroPeak(equity)
    ensures r.Some? ==> r.value == 100.0 * OnePass(equity)
  {
    if equity == [] { return Some(0.0); }
    var peak, maxDd := equity[0], 0.0;
    for i := 0 to |equity|
      invariant !ZeroPeak(equity[..i]) && maxDd == 100.0 * OnePass(equity[..i])
      invariant peak == if i == 0 then equity[0] else Peak(equity[..i])
    {
      assert equity[..i + 1][..i] == equity[..i];
      peak := Max(peak, equity[i]);
      if peak == 0.0 {
        StaysZeroPeak(equity, i + 1);
        return None;
      }
      maxDd := Min(maxDd, Loss(peak, equity[i]) * 100.0);
    }
    assert equity[..|equity|] == equity;
    r := Some(maxDd);
  }

  lemma {:induction false} StaysZeroPeak(es: seq<real>, n: nat)
    requires n <= |es| && ZeroPeak(es[..n])
    ensures ZeroPeak(es)
  {
    if n == |es| {
      assert es[..n] == es;
    } else {
      assert es[..|es| - 1][..n] == es[..n];
      StaysZeroPeak(es[..|es| - 1], n);
    }
  }

  // ---------------------------------------------------------------- the pairwise definition

  ghost predicate AllPositive(es: seq<real>) { forall i :: 0 <= i < |es| ==> es[i] > 0.0 }

  lemma {:induction false} PeakIsMaximum(es: seq<real>)
    requires es != []
    ensures Peak(es) in es && forall i :: 0 <= i < |es| ==> es[i] <= Peak(es)
  {
    var init := es[..|es| - 1];
    if init != [] {
      PeakIsMaximum(init);
      assert Peak(init) in es;
    }
  }

  /** From a higher positive start the relative loss is deeper. */
  lemma LossDeepens(p: real, q: real, e: real)
    requires 0.0 < p <= q && 0.0 < e
    ensures Loss(q, e) <= Loss(p, e)
  {
    hide Value;
    var x, y := 1.0 + Loss(p, e), 1.0 + Loss(q, e);
    LossTimesPeak(p, e);
    LossTimesPeak(q, e);
    if y > x {
      ValueMono(x, p, q);
      ValueSwap(q, x);
      ValueSwap(q, y);
      ValueStrict(q, x, y);
    }
  }

  /** The share of the peak that is left is positive, and is what the equity is of it. */
  lemma LossTimesPeak(p: real, e: real)
    requires 0.0 < p && 0.0 < e
    ensures Value(1.0 + Loss(p, e), p) == e && 0.0 < 1.0 + Loss(p, e)
  {
    var l := Loss(p, e);
    ValueOfQuotient(e - p, p);
    ValueSwap(p, l);
    ValueAdds(1.0, l, p);
    if 1.0 + l <= 0.0 {
      ValueMono(p, 1.0 + l, 0.0);
      ValueSwap(p, 1.0 + l);
    }
  }

  /** Over positive equities the one pass finds the minimum of (e_j - e_i) / e_i over all i <= j. */
  lemma {:induction false} OnePassIsPairwiseMinimum(es: seq<real>)
    requires AllPositive(es)
    ensures forall i, j :: 0 <= i <= j < |es| ==> OnePass(es) <= Loss(es[i], es[j])
    ensures es != [] ==> exists i, j :: 0 <= i <= j < |es| && OnePass(es) == Loss(es[i], es[j])
    ensures -1.0 < OnePass(es) <= 0.0 && !ZeroPeak(es)
  {
    if es != [] {
      var n := |es| - 1;
      var init, e := es[..n], es[n];
      OnePassIsPairwiseMinimum(init);
      PeakIsMaximum(es);
      assert forall i :: 0 <= i < n ==> es[i] == init[i];
      forall i, j | 0 <= i <= j < |es| ensures OnePass(es) <= Loss(es[i], es[j]) {
        if j == n { LossDeepens(es[i], Peak(es), e); } else { assert OnePass(init) <= Loss(init[i], init[j]); }
      }
      LastLossAttained(es);
      LossAboveMinusOne(Peak(es), e);
    }
  }

  lemma LossAboveMinusOne(p: real, e: real)
    requires 0.0 < p && 0.0 < e
    ensures -1.0 < Loss(p, e) && (e <= p ==> Loss(p, e) <= 0.0)
  {
    var l := Loss(p, e);
    LossTimesPeak(p, e);
    if l > 0.0 {
      ValueStrict(p, 1.0, 1.0 + l);
      ValueSwap(p, 1.0 + l);
    }
  }

  lemma LastLossAttained(es: seq<real>)
    requires AllPositive(es) && es != []
    requires var init := es[..|es| - 1]; init != [] ==>
      exists i, j :: 0 <= i <= j < |init| && OnePass(init) == Loss(init[i], init[j])
    ensures exists i, j :: 0 <= i <= j < |es| && OnePass(es) == Loss(es[i], es[j])
  {
    var n := |es| - 1;
    var init := es[..n];
    PeakIsMaximum(es);
    var p :| 0 <= p <= n && es[p] == Peak(es);
    if init == [] {
      assert OnePass(init) == 0.0 && Loss(es[0], es[0]) == 0.0 && OnePass(es) == Loss(es[0], es[0]);
    } else if OnePass(es) == Loss(Peak(es), es[n]) {
      assert Loss(es[p], es[n]) == OnePass(es);
    } else {
      var i, j :| 0 <= i <= j < |init| && OnePass(init) == Loss(init[i], init[j]);
      assert OnePass(es) == Loss(es[i], es[j]);
    }
  }
}
