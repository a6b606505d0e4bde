// Slice plans (TWAP, VWAP, ICEBERG), and the slice schedule that races with user cancels and broker pushes
// (app/services/execution_algo.py).
module ExecutionAlgo {
  import opened Money
  import opened Orders
  import opened Positions
  import opened PositionTables
  import opened Booking
  import opened OrderService
  import Alpaca = AlpacaFillSync
  import Broker = BrokerFillSync

  // ---------------------------------------------------------------- slice plans

  lemma TotalAppend(sizes: seq<real>, s: real)
    ensures Total(sizes + [s]) == Total(sizes) + s
  {
    assert (sizes + [s])[..|sizes|] == sizes;
  }

  /** A plan that spends `qty` in positive slices, up to the quantity tolerance. */
  ghost predicate Spends(sizes: seq<real>, qty: real)
  {
    && (forall i :: 0 <= i < |sizes| ==> 0.0 < sizes[i])
    && qty - QTY_EPS <= Total(sizes) <= qty
  }

  /** Equal slices; the last one takes what is left. */
  method TwapPlan(total: real, n: nat) returns (sizes: seq<real>)
    requires 0.0 < total && 0 < n
    ensures |sizes| == n && Total(sizes) == total
    ensures forall i :: 0 <= i < n ==> sizes[i] == total / (n as real) && 0.0 < sizes[i]
  {
    var base := total / (n as real);
    ValueOfQuotient(total, n as real);
    PositiveShare(total, n as real);
    sizes := [];
    var i := 0;
    ValueAtZero(base);
    while i < n - 1
      invariant 0 <= i <= n - 1 && |sizes| == i
      invariant Total(sizes) == Value(i as real, base)
      invariant forall j :: 0 <= j < i ==> sizes[j] == base
    {
      TotalAppend(sizes, base);
      ValueAdds(i as real, 1.0, base);
      ValueOfOne(base);
      sizes := sizes + [base];
      i := i + 1;
    }
    ValueAdds((n - 1) as real, 1.0, base);
    ValueOfOne(base);
    var last := total - Value((n - 1) as real, base);
    TotalAppend(sizes, last);
    sizes := sizes + [last];
  }

  lemma PositiveShare(total: real, n: real)
    requires 0.0 < total && 0.0 < n
    ensures 0.0 < total / n
  {
    hide Value;
    ValueOfQuotient(total, n);
    if total / n <= 0.0 { ValueMono(n, total / n, 0.0); ValueAtZero(n); }
  }

  lemma {:induction false} WeightsPositive(weights: seq<real>)
    requires forall i :: 0 <= i < |weights| ==> 0.0 < weights[i]
    ensures weights == [] || 0.0 < Total(weights)
    ensures 0.0 <= Total(weights)
  {
    if weights != [] { WeightsPositive(weights[..|weights| - 1]); }
  }

  /** Slices in proportion to a participation curve; the last one absorbs any remainder. */
  method VwapPlan(total: real, weights: seq<real>) returns (sizes: seq<real>)
    requires 0.0 < total && weights != [] && forall i :: 0 <= i < |weights| ==> 0.0 < weights[i]
    ensures |sizes| == |weights| && Total(sizes) == total
    ensures forall i :: 0 <= i < |sizes| ==>
      0.0 < sizes[i] && Value(Total(weights), sizes[i]) == Value(total, weights[i])
  {
    hide Value;
    WeightsPositive(weights);
    var totalW := Total(weights);
    sizes := [];
    var i := 0;
    ValueAtZero(totalW);
    ValueAtZero(total);
    while i < |weights|
      invariant 0 <= i <= |weights| && |sizes| == i
      invariant Value(totalW, Total(sizes)) == Value(total, Total(weights[..i]))
      invariant forall j :: 0 <= j < i ==> 0.0 < sizes[j] && Value(totalW, sizes[j]) == Value(total, weights[j])
    {
      var s := Value(total, weights[i]) / totalW;
      ValueOfQuotient(Value(total, weights[i]), totalW);
      ValueStrict(total, 0.0, weights[i]);
      ValueAtZero(total);
      PositiveShare(Value(total, weights[i]), totalW);
      TotalAppend(sizes, s);
      TotalAppend(weights[..i], weights[i]);
      assert weights[..i + 1] == weights[..i] + [weights[i]];
      ValueOfSum(totalW, Total(sizes), s);
      ValueOfSum(total, Total(weights[..i]), weights[i]);
      sizes := sizes + [s];
      i := i + 1;
    }
    assert weights[..i] == weights;
    ValueSwap(totalW, total);
    SameValue(totalW, Total(sizes), total);
    var last := |sizes| - 1;
    var patched := sizes[last] + (total - Total(sizes));
    assert sizes[last := patched] == sizes;
    sizes := sizes[last := patched];
  }

  lemma ValueOfSum(q: real, x: real, y: real)
    ensures Value(q, x + y) == Value(q, x) + Value(q, y)
  {}

  lemma SameValue(q: real, x: real, y: real)
    requires 0.0 < q && Value(q, x) == Value(q, y)
    ensures x == y
  {
    hide Value;
    if x < y { ValueStrict(q, x, y); }
    if y < x { ValueStrict(q, y, x); }
  }

  /** Whole slices needed to exhaust `total` at `display` per slice. */
  function SlicesFor(total: real, display: real): (k: nat)
    requires 0.0 <= total && 0.0 < display
    ensures total <= Value(k as real, display)
  {
    var q := total / display;
    ValueOfQuotient(total, display);
    NonNegativeShare(total, display);
    var k := q.Floor + 1;
    ValueSwap(display, q);
    ValueSwap(k as real, display);
    ValueMono(display, q, k as real);
    k
  }

  lemma NonNegativeShare(total: real, n: real)
    requires 0.0 <= total && 0.0 < n
    ensures 0.0 <= total / n
  {
    if 0.0 < total { PositiveShare(total, n); }
  }

  /** Slices of at most the displayed quantity, until no more than the tolerance remains. */
  method IcebergPlan(total: real, display: real) returns (sizes: seq<real>)
    requires 0.0 < total && 0.0 < display
    ensures Spends(sizes, total)
    ensures forall i :: 0 <= i < |sizes| ==> sizes[i] <= Min(display, total)
    ensures forall i :: 0 <= i < |sizes| - 1 ==> sizes[i] == Min(display, total)
    ensures Min(display, total) > QTY_EPS ==> forall i :: 0 <= i < |sizes| ==> QTY_EPS < sizes[i]
    ensures |sizes| <= SlicesFor(total, Min(display, total)) && (total > QTY_EPS ==> sizes != [])
  {
    hide Value, SlicesFor;
    var displayQty := Min(display, total);
    sizes := [];
    var remaining := total;
    ghost var left := SlicesFor(total, displayQty);
    while remaining > QTY_EPS
      invariant 0.0 <= remaining <= Value(left as real, displayQty)
      invariant Total(sizes) == total - remaining
      invariant |sizes| + left == SlicesFor(total, displayQty)
      invariant forall i :: 0 <= i < |sizes| ==> 0.0 < sizes[i] <= displayQty
      invariant forall i :: 0 <= i < |sizes| - 1 ==> sizes[i] == displayQty
      invariant sizes != [] && sizes[|sizes| - 1] < displayQty ==> remaining == 0.0
      invariant displayQty > QTY_EPS ==> forall i :: 0 <= i < |sizes| ==> QTY_EPS < sizes[i]
      invariant sizes == [] ==> remaining == total
      decreases left
    {
      ValueAtZero(displayQty);
      assert left > 0;
      var take := Min(displayQty, remaining);
      TotalAppend(sizes, take);
      ValueAdds(left as real, 1.0, displayQty);
      ValueOfOne(displayQty);
      ValueNonNegative((left - 1) as real, displayQty);
      sizes := sizes + [take];
      remaining := remaining - take;
      left := left - 1;
    }
  }

  /** The plan of one algorithmic order; `curve` is the VWAP participation curve, one weight per slice. */
  method SlicePlan(orderType: OrderType, total: real, slices: int, display: Option<real>, curve: seq<real>)
      returns (sizes: seq<real>)
    requires 0.0 < total && (orderType == ICEBERG && display.Some? ==> 0.0 < display.value)
    requires |curve| == (if slices < 1 then 1 else slices) && forall i :: 0 <= i < |curve| ==> 0.0 < curve[i]
    ensures Spends(sizes, total) && (total > QTY_EPS ==> sizes != [])
    ensures orderType != ICEBERG ==> Total(sizes) == total && |sizes| == |curve|
    ensures orderType !in {ICEBERG, VWAP} ==> forall i :: 0 <= i < |sizes| ==> sizes[i] == total / (|curve| as real)
    ensures orderType == VWAP ==>
      forall i :: 0 <= i < |sizes| ==> Value(Total(curve), sizes[i]) == Value(total, curve[i])
    ensures orderType == ICEBERG ==>
      var shown := Min(if display.Some? then display.value else total / (|curve| as real), total);
      (forall i :: 0 <= i < |sizes| ==> sizes[i] <= shown) && forall i :: 0 <= i < |sizes| - 1 ==> sizes[i] == shown
  {
    var n := if slices < 1 then 1 else slices;
    PositiveShare(total, n as real);
    if orderType == ICEBERG {
      sizes := IcebergPlan(total, if display.Some? then display.value else total / (n as real));
    } else if orderType == VWAP {
      sizes := VwapPlan(total, curve);
    } else {
      sizes := TwapPlan(total, n);
    }
  }

  /** What is left of an ICEBERG order after k trips round the loop. */
  function IcebergLeft(total: real, display: real, k: nat): real
  {
    if k == 0 then total
    else var r := IcebergLeft(total, display, k - 1); r - Min(display, r)
  }

  lemma {:induction false} NoProgress(total: real, display: real, k: nat)
    requires 0.0 < total && display <= 0.0
    ensures total <= IcebergLeft(total, display, k)
  {
    if k > 0 { NoProgress(total, display, k - 1); }
  }

  lemma {:induction false} Progress(total: real, display: real, k: nat, left: nat)
    requires 0.0 < total && 0.0 < display && total <= Value((k + left) as real, display)
    ensures 0.0 <= IcebergLeft(total, display, k) <= Value(left as real, display)
  {
    hide Value;
    if k > 0 {
      Progress(total, display, k - 1, left + 1);
      ValueAdds(left as real, 1.0, display);
      ValueOfOne(display);
      ValueNonNegative(left as real, display);
    }
  }

  /** The slicing loop ends exactly when the displayed quantity is positive; the configuration is not checked for it. */
  lemma IcebergEndsExactlyWhenDisplayPositive(total: real, display: real)
    requires QTY_EPS < total
    ensures (exists k :: IcebergLeft(total, display, k) <= QTY_EPS) <==> 0.0 < display
  {
    hide Value;
    if 0.0 < display {
      var k := SlicesFor(total, display);
      Progress(total, display, k, 0);
      ValueAtZero(display);
      assert IcebergLeft(total, display, k) <= QTY_EPS;
    } else {
      forall k: nat ensures IcebergLeft(total, display, k) > QTY_EPS { NoProgress(total, display, k); }
    }
  }

  // ---------------------------------------------------------------- one slice

  /** One slice of an open order: recorded in full at the adapter's price, whatever status it reports. */
  function Slice(o: OrderRow, size: real, r: AdapterResult): Posting
    requires Open(o.status) && 0.0 <= o.filledQty && 0.0 < size && r.Returned?
  {
    var x := Print(size, Or(r.avgPrice, Or(o.price, 0.0)));
    var p := Record(o, x).(brokerId := if r.brokerId.Some? then r.brokerId else o.brokerId);
    Posting(Move(p, if p.filledQty >= o.terms.qty - QTY_EPS then FILLED else PARTIAL), [Booked(o, x)])
  }

  lemma SliceKeeps(o: OrderRow, size: real, r: AdapterResult)
    requires Open(o.status) && 0.0 <= o.filledQty && 0.0 < size && r.Returned?
    ensures Keeps(o, Slice(o, size, r))
  {
    hide Value;
    var x := Print(size, Or(r.avgPrice, Or(o.price, 0.0)));
    RecordNotional(o, x);
    SumsOfOne(Booked(o, x));
  }

  /** A slice is booked at its planned size, and completes the order exactly when it brings it within the tolerance. */
  lemma SliceOutcome(o: OrderRow, size: real, r: AdapterResult)
    requires Open(o.status) && 0.0 <= o.filledQty && 0.0 < size && r.Returned?
    ensures var out := Slice(o, size, r);
            && out.row.filledQty == o.filledQty + size
            && |out.fills| == 1 && out.fills[0].qty == size && out.fills[0].price == Or(r.avgPrice, Or(o.price, 0.0))
            && (out.row.status == Some(FILLED) <==> o.filledQty + size >= o.terms.qty - QTY_EPS)
            && (out.row.status == Some(PARTIAL) <==> o.filledQty + size < o.terms.qty - QTY_EPS)
            && (r.brokerId.None? ==> out.row.brokerId == o.brokerId)
  {}

  // ---------------------------------------------------------------- the schedule against cancels and pushes

  // The runner (next slice to send, whether it has given up) beside the order it works on.
  datatype Schedule = Schedule(row: OrderRow, fills: seq<Fill>, next: nat, stopped: bool)

  // A push comes from the MT5/OANDA feeds, an update from Alpaca's trade stream (with the lag entry it finds).
  datatype Event =
    | SendSlice(result: AdapterResult)
    | UserCancel
    | Push(ob: Broker.Observation)
    | Update(pass: Alpaca.Pass, lag: Option<real>, grace: real)

  predicate Pushed(e: Event) { e.Push? || e.Update? }

  /** What a push makes of the parent. */
  function Pushing(o: OrderRow, e: Event): (p: Posting)
    requires Pushed(e) && 0.0 <= o.filledQty
    ensures o.filledQty <= p.row.filledQty
  {
    if e.Push? then Broker.Sync(o, e.ob) else Alpaca.Sync(o, e.lag, e.pass, e.grace).posting
  }

  ghost predicate PositiveSizes(plan: seq<real>) { forall i :: 0 <= i < |plan| ==> 0.0 < plan[i] }

  /** The runner books a slice at this step. */
  predicate Sends(plan: seq<real>, s: Schedule, e: Event)
  {
    e.SendSlice? && !s.stopped && s.next < |plan| && Open(s.row.status) && e.result.Returned?
  }

  // A push reaches the parent under the broker id of its last slice.
  function Step(plan: seq<real>, s: Schedule, e: Event): Schedule
    requires PositiveSizes(plan) && 0.0 <= s.row.filledQty
  {
    match e
    case UserCancel => s.(row := Cancel(s.row))
    case SendSlice(r) =>
      if s.stopped || s.next >= |plan| then s
      else if !Open(s.row.status) || r.Raised? then s.(stopped := true)
      else
        var p := Slice(s.row, plan[s.next], r);
        Schedule(p.row, s.fills + p.fills, s.next + 1, false)
    case _ =>
      if s.row.brokerId.None? then s
      else var p := Pushing(s.row, e); s.(row := p.row, fills := s.fills + p.fills)
  }

  function Run(plan: seq<real>, s: Schedule, events: seq<Event>): (s': Schedule)
    requires PositiveSizes(plan) && 0.0 <= s.row.filledQty
    ensures 0.0 <= s'.row.filledQty
  {
    if events == [] then s
    else Step(plan, Run(plan, s, events[..|events| - 1]), events[|events| - 1])
  }

  /** A push that reports nothing beyond what the parent has on record. */
  predicate Quiet(o: OrderRow, e: Event)
  {
    match e
    case Push(ob) => Broker.Known(ob) ==> ob.view.value.filled - o.filledQty <= DELTA_EPS
    case Update(p, _, _) => p.report.filled - o.filledQty <= DELTA_EPS
    case _ => true
  }

  /** Every push of the run is quiet when it arrives. */
  predicate QuietRun(plan: seq<real>, s: Schedule, events: seq<Event>)
    requires PositiveSizes(plan) && 0.0 <= s.row.filledQty
  {
    events == [] ||
    var init, e := events[..|events| - 1], events[|events| - 1];
    QuietRun(plan, s, init) && Quiet(Run(plan, s, init).row, e)
  }

  /** A FILLED push that finds the parent open. */
  predicate FilledPush(s: Schedule, e: Event)
  {
    s.row.brokerId.Some? && Open(s.row.status) && SaysFilled(e)
  }

  predicate SaysFilled(e: Event)
  {
    match e
    case Push(ob) => ob.view.Some? && ob.view.value.status == Broker.V_FILLED
    case Update(p, _, _) => p.report.status == Alpaca.B_FILLED
    case _ => false
  }

  predicate SomeFilledPush(plan: seq<real>, s: Schedule, events: seq<Event>)
    requires PositiveSizes(plan) && 0.0 <= s.row.filledQty
  {
    events != [] &&
    var init, e := events[..|events| - 1], events[|events| - 1];
    SomeFilledPush(plan, s, init) || FilledPush(Run(plan, s, init), e)
  }

  lemma QuietPush(o: OrderRow, e: Event)
    requires 0.0 <= o.filledQty && Pushed(e) && Quiet(o, e)
    ensures var p := Pushing(o, e); p.fills == [] && p.row == o.(status := p.row.status, history := p.row.history)
    ensures var st := Pushing(o, e).row.status;
            && (!Open(o.status) ==> st == o.status)
            && (Open(o.status) ==> (st == Some(FILLED) <==> SaysFilled(e)))
            && (o.status != Some(SUBMITTED) ==> st != Some(SUBMITTED))
            && (o.status.Some? && o.status != Some(NEW) ==> st.Some? && st != Some(NEW))
  {
    if e.Push? && Open(o.status) && Broker.Known(e.ob) { Broker.MirrorsBroker(o, e.ob); }
  }

  /** The quantity on record is what the slices sent add up to. */
  ghost predicate OnPrefix(plan: seq<real>, s: Schedule)
  {
    s.next <= |plan| && s.row.filledQty == Total(plan[..s.next])
  }

  lemma StepStaysOnPrefix(plan: seq<real>, s: Schedule, e: Event)
    requires PositiveSizes(plan) && 0.0 <= s.row.filledQty && OnPrefix(plan, s) && Quiet(s.row, e)
    ensures OnPrefix(plan, Step(plan, s, e)) && Step(plan, s, e).row.terms == s.row.terms
    ensures Step(plan, s, e).next == s.next + if Sends(plan, s, e) then 1 else 0
  {
    hide Value, Pushing, Cancel;
    if Sends(plan, s, e) { PrefixStep(plan, s.next); }
    if Pushed(e) { QuietPush(s.row, e); }
    if e.UserCancel? { CancelFrame(s.row); }
  }

  lemma CancelFrame(o: OrderRow)
    ensures Cancel(o) == o.(status := Cancel(o).status, history := Cancel(o).history)
    ensures Cancel(o).status == (if Allowed(o.status, CANCELLED) then Some(CANCELLED) else o.status)
  {}

  /** What every interleaving of slices, cancels and quiet pushes keeps. */
  ghost predicate OnPlan(plan: seq<real>, s: Schedule)
  {
    && OnPrefix(plan, s)
    && s.row.status.Some? && s.row.status != Some(NEW)
    && (s.row.filledQty >= s.row.terms.qty - QTY_EPS <==> s.next == |plan|)
    && (s.next == |plan| ==> s.row.status == Some(FILLED))
    && (s.row.status == Some(SUBMITTED) ==> s.next == 0)
    && Agrees(s.row, s.fills)
  }

  /** Every proper prefix of a plan stays below the completion threshold. */
  lemma {:induction false} PrefixBelow(plan: seq<real>, k: nat)
    requires k < |plan| && forall i :: 0 <= i < |plan| ==> QTY_EPS < plan[i]
    ensures Total(plan[..k]) < Total(plan) - QTY_EPS && 0.0 <= Total(plan[..k])
    decreases |plan|
  {
    var init := plan[..|plan| - 1];
    if k < |init| {
      assert init[..k] == plan[..k];
      PrefixBelow(init, k);
    } else {
      assert plan[..k] == init;
      WeightsPositive(init);
    }
  }

  lemma PrefixStep(plan: seq<real>, k: nat)
    requires k < |plan|
    ensures Total(plan[..k + 1]) == Total(plan[..k]) + plan[k]
  {
    assert plan[..k + 1] == plan[..k] + [plan[k]];
    TotalAppend(plan[..k], plan[k]);
  }

  /** A plan for the order's quantity, every slice above the tolerance. */
  ghost predicate PlanFor(plan: seq<real>, o: OrderRow)
  {
    plan != [] && (forall i :: 0 <= i < |plan| ==> QTY_EPS < plan[i]) && Spends(plan, o.terms.qty)
  }

  lemma SliceStaysOnPlan(plan: seq<real>, s: Schedule, e: Event)
    requires PlanFor(plan, s.row) && OnPlan(plan, s) && Sends(plan, s, e) && 0.0 <= s.row.filledQty
    ensures OnPlan(plan, Step(plan, s, e))
    ensures Step(plan, s, e).row.status == Some(if s.next + 1 == |plan| then FILLED else PARTIAL)
  {
    hide Slice, Agrees;
    var p := Slice(s.row, plan[s.next], e.result);
    SliceOutcome(s.row, plan[s.next], e.result);
    StepStaysOnPrefix(plan, s, e);
    SliceKeeps(s.row, plan[s.next], e.result);
    KeepsAgreement(s.row, p, s.fills);
    if s.next + 1 < |plan| {
      PrefixBelow(plan, s.next + 1);
    } else {
      assert plan[..s.next + 1] == plan;
    }
  }

  lemma OtherStaysOnPlan(plan: seq<real>, s: Schedule, e: Event)
    requires PlanFor(plan, s.row) && OnPlan(plan, s) && !Sends(plan, s, e) && 0.0 <= s.row.filledQty && Quiet(s.row, e)
    ensures OnPlan(plan, Step(plan, s, e))
    ensures var s' := Step(plan, s, e);
            s'.row.status == Some(FILLED) && s.row.status != Some(FILLED) <==> FilledPush(s, e)
  {
    hide Value, Pushing, Slice, Cancel;
    StepStaysOnPrefix(plan, s, e);
    if e.UserCancel? { CancelFrame(s.row); }
    if Pushed(e) {
      QuietPush(s.row, e);
      assert s.fills + [] == s.fills;
    }
  }

  predicate FilledShort(plan: seq<real>, s: Schedule) { s.row.status == Some(FILLED) && s.next < |plan| }

  lemma StepStaysOnPlan(plan: seq<real>, s: Schedule, e: Event)
    requires PlanFor(plan, s.row) && OnPlan(plan, s) && 0.0 <= s.row.filledQty && Quiet(s.row, e)
    ensures OnPlan(plan, Step(plan, s, e)) && Step(plan, s, e).row.terms == s.row.terms
    ensures FilledShort(plan, Step(plan, s, e)) <==> FilledShort(plan, s) || FilledPush(s, e)
  {
    hide Step, Agrees;
    StepStaysOnPrefix(plan, s, e);
    if Sends(plan, s, e) { SliceStaysOnPlan(plan, s, e); } else { OtherStaysOnPlan(plan, s, e); }
    if s.row.status == Some(FILLED) { StepKeepsClosed(plan, s, e); }
  }

  lemma StepKeepsClosed(plan: seq<real>, s: Schedule, e: Event)
    requires PositiveSizes(plan) && 0.0 <= s.row.filledQty && s.row.status == Some(FILLED)
    ensures Step(plan, s, e).row.status == Some(FILLED)
  {}

  /**
   * Slices against cancels and quiet pushes, for every interleaving: the filled quantity is a prefix sum of the
   * plan, and the parent ends FILLED short of its quantity exactly when a FILLED push found it open.
   */
  lemma {:induction false} PushesVersusSlices(plan: seq<real>, s: Schedule, events: seq<Event>)
    requires PlanFor(plan, s.row) && s.row.status == Some(SUBMITTED) && s.row.filledQty == 0.0 && s.fills == []
    requires s.next == 0 && QuietRun(plan, s, events)
    ensures OnPlan(plan, Run(plan, s, events)) && Run(plan, s, events).row.terms == s.row.terms
    ensures FilledShort(plan, Run(plan, s, events)) <==> SomeFilledPush(plan, s, events)
  {
    hide Value, Step, Quiet, FilledPush;
    if events == [] {
      ValueAtZero(AvgOrZero(s.row));
      PrefixBelow(plan, 0);
    } else {
      var init := events[..|events| - 1];
      PushesVersusSlices(plan, s, init);
      StepStaysOnPlan(plan, Run(plan, s, init), events[|events| - 1]);
    }
  }

  predicate NoPushes(events: seq<Event>) { forall i :: 0 <= i < |events| ==> !Pushed(events[i]) }

  lemma {:induction false} NoPushesIsQuiet(plan: seq<real>, s: Schedule, events: seq<Event>)
    requires PositiveSizes(plan) && 0.0 <= s.row.filledQty && NoPushes(events)
    requires s.row.status == Some(SUBMITTED)
    ensures QuietRun(plan, s, events) && !SomeFilledPush(plan, s, events)
    ensures Run(plan, s, events).row.status in {Some(SUBMITTED), Some(PARTIAL), Some(FILLED), Some(CANCELLED)}
  {
    hide Value;
    if events != [] { NoPushesIsQuiet(plan, s, events[..|events| - 1]); }
  }

  /**
   * Cancel against slices, for every interleaving without pushes: the filled quantity is a prefix sum of the
   * plan, FILLED means the whole plan was sent, and a cancelled order is never fully filled.
   */
  lemma CancelVersusSlices(plan: seq<real>, s: Schedule, events: seq<Event>)
    requires PlanFor(plan, s.row) && s.row.status == Some(SUBMITTED) && s.row.filledQty == 0.0 && s.fills == []
    requires s.next == 0 && NoPushes(events)
    ensures var s' := Run(plan, s, events);
            && OnPlan(plan, s') && s'.row.terms == s.row.terms
            && s'.row.status in {Some(SUBMITTED), Some(PARTIAL), Some(FILLED), Some(CANCELLED)}
            && (s'.row.status == Some(FILLED) <==> s'.next == |plan|)
  {
    NoPushesIsQuiet(plan, s, events);
    PushesVersusSlices(plan, s, events);
  }

  // ---------------------------------------------------------------- booked against executed

  /** What the adapter reports executed of a slice: nothing unless it says FILLED or gives a quantity. */
  function Executed(r: AdapterResult, size: real): real
    requires r.Returned?
  {
    Or(r.filledQty, if r.filled then size else 0.0)
  }

  /** The adapter's answers to the slices sent, in order. */
  function Answers(plan: seq<real>, s: Schedule, events: seq<Event>): (rs: seq<AdapterResult>)
    requires PositiveSizes(plan) && 0.0 <= s.row.filledQty
    ensures forall i :: 0 <= i < |rs| ==> rs[i].Returned?
  {
    if events == [] then []
    else
      var init, e := events[..|events| - 1], events[|events| - 1];
      Answers(plan, s, init) + if Sends(plan, Run(plan, s, init), e) then [e.result] else []
  }

  predicate AnswersFor(plan: seq<real>, rs: seq<AdapterResult>)
  {
    |rs| <= |plan| && forall i :: 0 <= i < |rs| ==> rs[i].Returned?
  }

  /** The executed quantities the adapter reported, slice by slice. */
  function Executions(plan: seq<real>, rs: seq<AdapterResult>): seq<real>
    requires AnswersFor(plan, rs)
  {
    seq(|rs|, i requires 0 <= i < |rs| => Executed(rs[i], plan[i]))
  }

  /** What each slice sent was booked beyond its execution. */
  function Unexecuted(plan: seq<real>, rs: seq<AdapterResult>): seq<real>
    requires AnswersFor(plan, rs)
  {
    seq(|rs|, i requires 0 <= i < |rs| => plan[i] - Executed(rs[i], plan[i]))
  }

  lemma {:induction false} BookedLessExecuted(plan: seq<real>, rs: seq<AdapterResult>)
    requires AnswersFor(plan, rs)
    ensures Total(plan[..|rs|]) - Total(Executions(plan, rs)) == Total(Unexecuted(plan, rs))
  {
    hide Executed;
    if rs != [] {
      var init, n := rs[..|rs| - 1], |rs| - 1;
      BookedLessExecuted(plan, init);
      PrefixStep(plan, n);
      assert Executions(plan, rs)[..n] == Executions(plan, init);
      assert Unexecuted(plan, rs)[..n] == Unexecuted(plan, init);
    }
  }

  lemma {:induction false} ZeroTotal(xs: seq<real>)
    requires forall i :: 0 <= i < |xs| ==> 0.0 <= xs[i]
    ensures 0.0 <= Total(xs) && (Total(xs) == 0.0 <==> forall i :: 0 <= i < |xs| ==> xs[i] == 0.0)
  {
    if xs != [] {
      var init := xs[..|xs| - 1];
      ZeroTotal(init);
      assert forall i :: 0 <= i < |init| ==> xs[i] == init[i];
    }
  }

  lemma {:induction false} SlicesAnswered(plan: seq<real>, s: Schedule, events: seq<Event>)
    requires PositiveSizes(plan) && s.row.filledQty == 0.0 && s.next == 0 && QuietRun(plan, s, events)
    ensures var s' := Run(plan, s, events); OnPrefix(plan, s') && |Answers(plan, s, events)| == s'.next
  {
    hide Step, Quiet;
    if events != [] {
      var init := events[..|events| - 1];
      SlicesAnswered(plan, s, init);
      StepStaysOnPrefix(plan, Run(plan, s, init), events[|events| - 1]);
    }
  }

  /**
   * Over every schedule run filled_qty exceeds the executed quantity the adapter reported by the sum, over the
   * slices sent, of what each was booked beyond its execution.
   */
  lemma BookedBeyondExecution(plan: seq<real>, s: Schedule, events: seq<Event>)
    requires PositiveSizes(plan) && s.row.filledQty == 0.0 && s.next == 0 && QuietRun(plan, s, events)
    ensures var s', rs := Run(plan, s, events), Answers(plan, s, events);
            && AnswersFor(plan, rs) && |rs| == s'.next
            && s'.row.filledQty - Total(Executions(plan, rs)) == Total(Unexecuted(plan, rs))
  {
    hide Run, Answers;
    SlicesAnswered(plan, s, events);
    BookedLessExecuted(plan, Answers(plan, s, events));
  }

  /** While no execution exceeds its slice, the two agree exactly when every slice sent was executed in full. */
  lemma ExecutedExactlyWhenFilledInFull(plan: seq<real>, s: Schedule, events: seq<Event>)
    requires PositiveSizes(plan) && s.row.filledQty == 0.0 && s.next == 0 && QuietRun(plan, s, events)
    requires var rs := Answers(plan, s, events);
             forall i :: 0 <= i < |rs| && i < |plan| ==> Executed(rs[i], plan[i]) <= plan[i]
    ensures var s', rs := Run(plan, s, events), Answers(plan, s, events);
            && AnswersFor(plan, rs)
            && (s'.row.filledQty == Total(Executions(plan, rs)) <==>
                forall i :: 0 <= i < |rs| ==> Executed(rs[i], plan[i]) == plan[i])
  {
    hide Run, Answers, Executed;
    BookedBeyondExecution(plan, s, events);
    var rs := Answers(plan, s, events);
    var gaps := Unexecuted(plan, rs);
    ZeroTotal(gaps);
    assert forall i :: 0 <= i < |rs| ==> gaps[i] == plan[i] - Executed(rs[i], plan[i]);
  }

  // ---------------------------------------------------------------- nothing after a cancel

  /** No fill follows a cancel: once cancelled, the row, its fills and the slice counter are final. */
  lemma {:induction false} NothingFollowsCancel(plan: seq<real>, s: Schedule, events: seq<Event>)
    requires PositiveSizes(plan) && 0.0 <= s.row.filledQty
    requires s.row.status == Some(CANCELLED)
    ensures var s' := Run(plan, s, events); s'.row == s.row && s'.fills == s.fills && s'.next == s.next
  {
    if events != [] { NothingFollowsCancel(plan, s, events[..|events| - 1]); }
  }

  /** A slice whose adapter raises ends the schedule: nothing is sent after it, whatever follows. */
  lemma {:induction false} NothingSentAfterFailure(plan: seq<real>, s: Schedule, events: seq<Event>)
    requires PositiveSizes(plan) && 0.0 <= s.row.filledQty && s.next < |plan|
    ensures var failed := Step(plan, s, SendSlice(Raised));
            && failed.row == s.row && failed.fills == s.fills
            && Run(plan, failed, events).next == s.next && Run(plan, failed, events).stopped
            && Answers(plan, failed, events) == []
  {
    if events != [] { NothingSentAfterFailure(plan, s, events[..|events| - 1]); }
  }

  // ---------------------------------------------------------------- the background task

  // What happens around one slice: other transactions may cancel first; then the adapter answers.
  datatype Turn = Turn(cancelFirst: bool, result: AdapterResult)

  function EventsOf(turns: seq<Turn>): seq<Event>
  {
    if turns == [] then []
    else
      var t := turns[|turns| - 1];
      EventsOf(turns[..|turns| - 1])
        + (if t.cancelFirst then [UserCancel, SendSlice(t.result)] else [SendSlice(t.result)])
  }

  function TurnStep(plan: seq<real>, s: Schedule, t: Turn): Schedule
    requires PositiveSizes(plan) && 0.0 <= s.row.filledQty
  {
    Step(plan, if t.cancelFirst then Step(plan, s, UserCancel) else s, SendSlice(t.result))
  }

  lemma OneTurn(plan: seq<real>, s: Schedule, turns: seq<Turn>, t: Turn)
    requires PositiveSizes(plan) && 0.0 <= s.row.filledQty
    ensures Run(plan, s, EventsOf(turns + [t])) == TurnStep(plan, Run(plan, s, EventsOf(turns)), t)
  {
    assert (turns + [t])[..|turns|] == turns;
    var es := EventsOf(turns);
    if t.cancelFirst {
      assert es + [UserCancel, SendSlice(t.result)] == (es + [UserCancel]) + [SendSlice(t.result)];
      assert ((es + [UserCancel]) + [SendSlice(t.result)])[..|es| + 1] == es + [UserCancel];
      assert (es + [UserCancel])[..|es|] == es;
    } else {
      assert (es + [SendSlice(t.result)])[..|es|] == es;
    }
  }

  /** Every fill written since `fills` has been netted into the positions, in order. */
  ghost predicate NettedSince(fills: seq<Fill>, fills': seq<Fill>, table: seq<PosRow>, table': seq<PosRow>, key: Key)
    requires RowsOk(table)
  {
    && fills <= fills' && PositiveFills(fills'[|fills|..])
    && table' == NetAll(table, key, fills'[|fills|..])
  }

  lemma NettedNothing(fills: seq<Fill>, table: seq<PosRow>, key: Key)
    requires RowsOk(table)
    ensures NettedSince(fills, fills, table, table, key)
  {
    assert fills[|fills|..] == [];
  }

  lemma NettedOneMore(fills: seq<Fill>, fills': seq<Fill>, table: seq<PosRow>, table': seq<PosRow>, key: Key, f: Fill)
    requires RowsOk(table) && RowsOk(table') && 0.0 < f.qty && NettedSince(fills, fills', table, table', key)
    ensures NettedSince(fills, fills' + [f], table, NetFill(table', key, f), key)
  {
    hide NetFill;
    var since := fills'[|fills|..];
    assert (fills' + [f])[|fills|..] == since + [f] && (since + [f])[..|since|] == since;
  }

  lemma NoTurns(plan: seq<real>, s: Schedule)
    requires PositiveSizes(plan) && 0.0 <= s.row.filledQty
    ensures Run(plan, s, EventsOf([])) == s
  {}

  method FinishSlice(order: Order, brokerId: Option<int>)
    requires Open(order.status)
    modifies order`brokerId, order`status, order`history
    ensures var o := old(order.Row()).(brokerId := if brokerId.Some? then brokerId else old(order.brokerId));
            order.Row() == Move(o, if o.filledQty >= o.terms.qty - QTY_EPS then FILLED else PARTIAL)
  {
    order.brokerId := if brokerId.Some? then brokerId else order.brokerId;
    var raised: bool;
    if order.filledQty >= order.terms.qty - QTY_EPS {
      raised := order.Transition(FILLED);
    } else {
      raised := order.Transition(PARTIAL);
    }
    assert !raised;
  }

  /** One slice sent and booked. */
  method SendOne(order: Order, positions: PositionTable, size: real, r: AdapterResult)
    requires Open(order.status) && 0.0 <= order.filledQty && 0.0 < size && r.Returned? && positions.Valid()
    modifies order, positions, positions.Cells()
    ensures var p := Slice(old(order.Row()), size, r);
            && order.Row() == p.row && order.fills == old(order.fills) + p.fills
            && positions.Rows() == NetFill(old(positions.Rows()), order.terms.key, p.fills[0])
    ensures positions.Valid() && 0.0 <= order.filledQty && fresh(positions.Cells() - old(positions.Cells()))
  {
    BookOne(order, positions, Print(size, Or(r.avgPrice, Or(order.price, 0.0))));
    FinishSlice(order, r.brokerId);
  }

  /** One iteration of the slice loop, after whatever other transactions did to the order. */
  method TakeTurn(order: Order, positions: PositionTable, plan: seq<real>, i: nat, t: Turn) returns (stop: bool)
    requires i < |plan| && PositiveSizes(plan)
    requires 0.0 <= order.filledQty && positions.Valid()
    modifies order, positions, positions.Cells()
    ensures var s := TurnStep(plan, Schedule(old(order.Row()), old(order.fills), i, false), t);
            && order.Row() == s.row && order.fills == s.fills && stop == s.stopped && (!stop ==> s.next == i + 1)
    ensures positions.Valid() && 0.0 <= order.filledQty && fresh(positions.Cells() - old(positions.Cells()))
    ensures stop ==> positions.Rows() == old(positions.Rows()) && order.fills == old(order.fills)
    ensures !stop ==> exists f: Fill :: 0.0 < f.qty && order.fills == old(order.fills) + [f] &&
                                  positions.Rows() == NetFill(old(positions.Rows()), order.terms.key, f)
  {
    hide NetFill, Value;
    if t.cancelFirst {
      var outcome := CancelOrder(order, []);
    }
    if !Open(order.status) || t.result.Raised? {
      return true;
    }
    ghost var sent := Slice(order.Row(), plan[i], t.result).fills;
    SendOne(order, positions, plan[i], t.result);
    assert sent == [sent[0]];
    return false;
  }

  /** The slice loop, re-reading the order before each slice: it ends where the schedule's steps end. */
  method RunAlgoOrder(order: Order, positions: PositionTable, plan: seq<real>, turns: seq<Turn>) returns (sent: nat)
    requires |turns| == |plan| && PositiveSizes(plan)
    requires 0.0 <= order.filledQty && positions.Valid()
    modifies order, positions, positions.Cells()
    ensures sent <= |plan|
    ensures var s := Run(plan, Schedule(old(order.Row()), old(order.fills), 0, false), EventsOf(turns[..sent]));
            order.Row() == s.row && order.fills == s.fills && (sent == |plan| || s.stopped)
    ensures positions.Valid()
    ensures NettedSince(old(order.fills), order.fills, old(positions.Rows()), positions.Rows(), order.terms.key)
  {
    hide Run, EventsOf, TurnStep, NettedSince, NetFill;
    ghost var fills, table := order.fills, positions.Rows();
    NettedNothing(fills, table, order.terms.key);
    ghost var start := Schedule(order.Row(), order.fills, 0, false);
    var i := 0;
    assert turns[..0] == [];
    NoTurns(plan, start);
    while i < |plan|
      invariant i <= |plan| && positions.Valid() && 0.0 <= order.filledQty
      invariant fresh(positions.Cells() - old(positions.Cells()))
      invariant Run(plan, start, EventsOf(turns[..i])) == Schedule(order.Row(), order.fills, i, false)
      invariant NettedSince(fills, order.fills, table, positions.Rows(), order.terms.key)
    {
      ghost var fills', table' := order.fills, positions.Rows();
      OneTurn(plan, start, turns[..i], turns[i]);
      assert turns[..i + 1] == turns[..i] + [turns[i]];
      var stop := TakeTurn(order, positions, plan, i, turns[i]);
      i := i + 1;
      if stop {
        return i;
      }
      ghost var f: Fill :| 0.0 < f.qty && order.fills == fills' + [f]
        && positions.Rows() == NetFill(table', order.terms.key, f);
      NettedOneMore(fills, fills', table, table', order.terms.key, f);
    }
    return i;
  }
}
