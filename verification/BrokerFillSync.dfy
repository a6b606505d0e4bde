// The shared reconciliation core of the MT5 and OANDA loops: cumulative-delta pricing and terminal mirroring
// (app/services/broker_fill_sync.py).
module BrokerFillSync {
  import opened Money
  import opened Orders
  import opened Positions
  import opened PositionTables
  import opened Booking

  datatype ViewStatus = V_UNKNOWN | V_SUBMITTED | V_PARTIAL | V_FILLED | V_CANCELLED | V_EXPIRED | V_REJECTED

  // The broker's cumulative view of one order.
  datatype View = View(status: ViewStatus, filled: real, avg: real)

  // One observation: the view (absent on a timeout) and the deal print a push event carries.
  datatype Observation = Observation(view: Option<View>, deal: Option<Print>)

  predicate Known(ob: Observation) { ob.view.Some? && ob.view.value.status != V_UNKNOWN }

  predicate DealCovers(deal: Option<Print>, newly: real)
  {
    deal.Some? && Abs(deal.value.qty - newly) <= Max(newly * 0.000001, DELTA_EPS)
  }

  /** The delta's true average, backed out of the two cumulative notionals. */
  function BackedOut(o: OrderRow, v: View): real
    requires v.filled - o.filledQty != 0.0
  {
    (Value(v.filled, v.avg) - Notional(o)) / (v.filled - o.filledQty)
  }

  function FillPrice(o: OrderRow, v: View, deal: Option<Print>): real
    requires v.filled - o.filledQty > DELTA_EPS
  {
    if DealCovers(deal, v.filled - o.filledQty) then deal.value.price
    else if BackedOut(o, v) > 0.0 then BackedOut(o, v)
    else v.avg
  }

  predicate Records(o: OrderRow, v: View, deal: Option<Print>)
  {
    v.filled - o.filledQty > DELTA_EPS && FillPrice(o, v, deal) > 0.0
  }

  function Exit(s: ViewStatus, changed: bool): Option<Status>
  {
    match s
    case V_FILLED => Some(FILLED)
    case V_PARTIAL => if changed then Some(PARTIAL) else None
    case V_CANCELLED => Some(CANCELLED)
    case V_EXPIRED => Some(EXPIRED)
    case V_REJECTED => Some(REJECTED)
    case _ => None
  }

  function Recorded(o: OrderRow, v: View, deal: Option<Print>): Posting
    requires 0.0 <= o.filledQty
  {
    if !Records(o, v, deal) then Posting(o, [])
    else
      var x := Print(v.filled - o.filledQty, FillPrice(o, v, deal));
      Posting(Record(o, x), [Booked(o, x)])
  }

  function Sync(o: OrderRow, ob: Observation): (p: Posting)
    requires 0.0 <= o.filledQty
    ensures o.filledQty <= p.row.filledQty
  {
    if !Open(o.status) || !Known(ob) then Posting(o, [])
    else
      var v := ob.view.value;
      var p := Recorded(o, v, ob.deal);
      var exit := Exit(v.status, Records(o, v, ob.deal));
      if exit.None? then p else p.(row := Move(p.row, exit.value))
  }

  lemma SyncKeeps(o: OrderRow, ob: Observation)
    requires 0.0 <= o.filledQty
    ensures Keeps(o, Sync(o, ob))
  {
    hide Value;
    if Open(o.status) && Known(ob) && Records(o, ob.view.value, ob.deal) {
      var v := ob.view.value;
      var x := Print(v.filled - o.filledQty, FillPrice(o, v, ob.deal));
      RecordNotional(o, x);
      SumsOfOne(Booked(o, x));
    }
  }

  /** A sync touches the two fill columns, the status and the history, and nothing else. */
  lemma SyncFrame(o: OrderRow, ob: Observation)
    requires 0.0 <= o.filledQty
    ensures var r := Sync(o, ob).row;
            r == o.(filledQty := r.filledQty, avgFill := r.avgFill, status := r.status, history := r.history)
  {}

  // ---------------------------------------------------------------- self-correcting pricing

  /**
   * After a poll-priced delta the order's notional and average are the broker's own, whatever earlier
   * prints recorded, exactly when the broker's notional exceeds the recorded one; otherwise the fallback
   * to the running average leaves them apart.
   */
  lemma PollPricingSelfCorrects(o: OrderRow, ob: Observation)
    requires 0.0 <= o.filledQty && Open(o.status) && Known(ob)
    requires var v := ob.view.value;
             v.filled - o.filledQty > DELTA_EPS && v.avg > 0.0 && !DealCovers(ob.deal, v.filled - o.filledQty)
    ensures var v, row := ob.view.value, Sync(o, ob).row;
            && row.filledQty == v.filled
            && (Notional(row) == Value(v.filled, v.avg) <==> Value(v.filled, v.avg) > Notional(o))
            && (Notional(row) == Value(v.filled, v.avg) <==> row.avgFill == Some(v.avg))
  {
    hide Value;
    var v := ob.view.value;
    var newly := v.filled - o.filledQty;
    var price := FillPrice(o, v, ob.deal);
    RecordNotional(o, Print(newly, price));
    ValueOfQuotient(Value(v.filled, v.avg) - Notional(o), newly);
    ValueAdds(o.filledQty, newly, v.avg);
    ValueSign(newly, BackedOut(o, v));
    ValueSign(newly, v.avg);
    var row := Record(o, Print(newly, price));
    ValueInjective(v.filled, row.avgFill.value, v.avg);
  }

  lemma ValueSign(q: real, x: real)
    requires 0.0 < q
    ensures Value(q, x) > 0.0 <==> x > 0.0
  {
    hide Value;
    ValueAtZero(q);
    if x > 0.0 { ValueStrict(q, 0.0, x); } else { ValueMono(q, x, 0.0); }
  }

  lemma ValueInjective(q: real, x: real, y: real)
    requires 0.0 < q
    ensures Value(q, x) == Value(q, y) <==> x == y
  {
    hide Value;
    if x < y { ValueStrict(q, x, y); }
    if y < x { ValueStrict(q, y, x); }
  }

  /**
   * A FILLED report closes the order whether or not its delta could be priced: the broker's quantity is on
   * record afterwards exactly when there was no delta or some price for it was positive.
   */
  lemma FilledExitLosesExactlyWhenUnpriced(o: OrderRow, ob: Observation)
    requires 0.0 <= o.filledQty && Open(o.status) && Known(ob) && ob.view.value.status == V_FILLED
    ensures var v, row := ob.view.value, Sync(o, ob).row;
            && row.status == Some(FILLED)
            && (row.filledQty >= v.filled - DELTA_EPS <==>
                v.filled - o.filledQty <= DELTA_EPS ||
                (if DealCovers(ob.deal, v.filled - o.filledQty) then ob.deal.value.price > 0.0
                 else Value(v.filled, v.avg) > Notional(o) || v.avg > 0.0))
  {
    hide Value;
    var v := ob.view.value;
    if v.filled - o.filledQty > DELTA_EPS {
      ValueOfQuotient(Value(v.filled, v.avg) - Notional(o), v.filled - o.filledQty);
      ValueSign(v.filled - o.filledQty, BackedOut(o, v));
    }
  }

  /**
   * How a delta is priced, in quantities: by the deal print exactly when it covers the delta, and then at the deal's
   * own price or not at all; otherwise so that the record shows the broker's notional, if that exceeds the recorded
   * one, and else at the broker's average.
   */
  lemma DeltaIsPriced(o: OrderRow, ob: Observation)
    requires 0.0 <= o.filledQty && Open(o.status) && Known(ob)
    requires ob.view.value.filled - o.filledQty > 0.000000000001
    ensures var v, p := ob.view.value, Sync(o, ob);
            var newly := v.filled - o.filledQty;
            var covered := ob.deal.Some? && Covers(ob.deal.value.qty, newly);
            && (covered && ob.deal.value.price > 0.0 ==> p.fills == [Booked(o, Print(newly, ob.deal.value.price))])
            && (covered && ob.deal.value.price <= 0.0 ==> p.fills == [])
            && (!covered && v.avg > 0.0 && Value(v.filled, v.avg) > Notional(o) ==>
                  Notional(p.row) == Value(v.filled, v.avg) && |p.fills| == 1 && p.fills[0].qty == newly)
            && (!covered && v.avg > 0.0 && Value(v.filled, v.avg) <= Notional(o) ==>
                  p.fills == [Booked(o, Print(newly, v.avg))])
  {
    hide Value;
    var v := ob.view.value;
    var newly := v.filled - o.filledQty;
    ValueOfQuotient(Value(v.filled, v.avg) - Notional(o), newly);
    ValueSign(newly, BackedOut(o, v));
    if !DealCovers(ob.deal, newly) && v.avg > 0.0 { PollPricingSelfCorrects(o, ob); }
  }

  /** A missing or unknown view, and an order that is no longer open, change nothing; other views write only a delta. */
  lemma NothingToRecord(o: OrderRow, ob: Observation)
    requires 0.0 <= o.filledQty
    ensures !Open(o.status) || ob.view.None? || ob.view.value.status == V_UNKNOWN ==> Sync(o, ob) == Posting(o, [])
    ensures ob.view.Some? && ob.view.value.filled - o.filledQty <= 0.000000000001 ==> Sync(o, ob).fills == []
  {}

  /**
   * A deal print that covers the delta prices it; the broker's terminal statuses are mirrored one to one, and a
   * partial view makes the order PARTIAL exactly when it records a fill.
   */
  lemma MirrorsBroker(o: OrderRow, ob: Observation)
    requires 0.0 <= o.filledQty && Open(o.status) && Known(ob)
    ensures var v, p := ob.view.value, Sync(o, ob);
            var newly := v.filled - o.filledQty;
            && (newly > DELTA_EPS && DealCovers(ob.deal, newly) && ob.deal.value.price > 0.0 ==>
                  p.fills == [Booked(o, Print(newly, ob.deal.value.price))])
            && (p.row.status == Some(FILLED) <==> v.status == V_FILLED)
            && (p.row.status == Some(CANCELLED) <==> v.status == V_CANCELLED)
            && (p.row.status == Some(EXPIRED) <==> v.status == V_EXPIRED)
            && (p.row.status == Some(REJECTED) <==> v.status == V_REJECTED)
            && (v.status == V_SUBMITTED ==> p.row.status == o.status)
            && (v.status == V_PARTIAL ==> p.row.status == if p.fills == [] then o.status else Some(PARTIAL))
  {}

  // ---------------------------------------------------------------- whole runs

  /** A run of observations; the posting accumulates every Fill row written. */
  function Run(o: OrderRow, obs: seq<Observation>): (p: Posting)
    requires 0.0 <= o.filledQty
    ensures 0.0 <= p.row.filledQty
  {
    if obs == [] then Posting(o, [])
    else
      var before := Run(o, obs[..|obs| - 1]);
      var p := Sync(before.row, obs[|obs| - 1]);
      Posting(p.row, before.fills + p.fills)
  }

  lemma {:induction false} RunKeeps(o: OrderRow, obs: seq<Observation>)
    requires 0.0 <= o.filledQty
    ensures Keeps(o, Run(o, obs))
  {
    if obs != [] {
      var init := obs[..|obs| - 1];
      RunKeeps(o, init);
      SyncKeeps(Run(o, init).row, obs[|obs| - 1]);
      KeepsCompose(o, Run(o, init), Sync(Run(o, init).row, obs[|obs| - 1]));
    }
  }

  /**
   * Over a run that ends with a poll-priced delta the Fill rows telescope to the broker's quantity, and to its
   * notional exactly when that exceeds what was on record before the delta.
   */
  lemma NotionalTelescopes(o: OrderRow, obs: seq<Observation>)
    requires 0.0 <= o.filledQty && obs != []
    requires var before, ob := Run(o, obs[..|obs| - 1]).row, obs[|obs| - 1];
             && Open(before.status) && Known(ob) && ob.view.value.avg > 0.0
             && ob.view.value.filled - before.filledQty > DELTA_EPS
             && !DealCovers(ob.deal, ob.view.value.filled - before.filledQty)
    ensures var v, before := obs[|obs| - 1].view.value, Run(o, obs[..|obs| - 1]).row;
            && SumQty(Run(o, obs).fills) == v.filled - o.filledQty
            && (SumNotional(Run(o, obs).fills) == Value(v.filled, v.avg) - Notional(o) <==>
                Value(v.filled, v.avg) > Notional(before))
  {
    hide Value, Notional, FillPrice, SumNotional, SumQty;
    RunKeeps(o, obs);
    PollPricingSelfCorrects(Run(o, obs[..|obs| - 1]).row, obs[|obs| - 1]);
  }

  /** From any open, unfilled order: one unit pushed at 100, then the broker reports two at an average of 10. */
  lemma FallbackLeavesNotionalsApart(o: OrderRow)
    requires Open(o.status) && o.filledQty == 0.0
    ensures var push := Observation(Some(View(V_PARTIAL, 1.0, 10.0)), Some(Print(1.0, 100.0)));
            var poll := Observation(Some(View(V_PARTIAL, 2.0, 10.0)), None);
            var row := Run(o, [push, poll]).row;
            row.filledQty == 2.0 && Notional(row) == 110.0 && Value(2.0, 10.0) == 20.0
  {
    var push := Observation(Some(View(V_PARTIAL, 1.0, 10.0)), Some(Print(1.0, 100.0)));
    var poll := Observation(Some(View(V_PARTIAL, 2.0, 10.0)), None);
    assert [push, poll][..1] == [push] && [push][..0] == [];
    assert Run(o, []).row == o;
    var pushed := Sync(o, push).row;
    assert Run(o, [push]).row == pushed;
    PushOvershoots(o, push);
    UnpricedPoll(pushed, poll);
    assert Run(o, [push, poll]).row == Sync(pushed, poll).row;
  }

  lemma PushOvershoots(o: OrderRow, push: Observation)
    requires Open(o.status) && o.filledQty == 0.0
    requires push == Observation(Some(View(V_PARTIAL, 1.0, 10.0)), Some(Print(1.0, 100.0)))
    ensures var row := Sync(o, push).row; Open(row.status) && row.filledQty == 1.0 && Notional(row) == 100.0
  {
    ValueAtZero(AvgOrZero(o));
    assert FillPrice(o, push.view.value, push.deal) == 100.0;
    RecordNotional(o, Print(1.0, 100.0));
  }

  lemma UnpricedPoll(o: OrderRow, poll: Observation)
    requires Open(o.status) && o.filledQty == 1.0 && Notional(o) == 100.0
    requires poll == Observation(Some(View(V_PARTIAL, 2.0, 10.0)), None)
    ensures var row := Sync(o, poll).row; row.filledQty == 2.0 && Notional(row) == 110.0
  {
    assert Value(2.0, 10.0) == 20.0;
    assert BackedOut(o, poll.view.value) == -80.0;
    assert FillPrice(o, poll.view.value, poll.deal) == 10.0;
    RecordNotional(o, Print(1.0, 10.0));
  }

  // ---------------------------------------------------------------- polls of one execution curve

  /** The broker's cumulative notional as a function of its cumulative quantity: it starts at zero and increases. */
  ghost predicate Curve(curve: real -> real)
  {
    curve(0.0) == 0.0 && forall p, q :: 0.0 <= p < q ==> curve(p) < curve(q)
  }

  /** Polls only, each a point of the curve with a positive average. */
  ghost predicate PollsOf(obs: seq<Observation>, curve: real -> real)
  {
    forall i :: 0 <= i < |obs| && Known(obs[i]) ==>
      var v := obs[i].view.value;
      obs[i].deal.None? && v.avg > 0.0 && 0.0 <= v.filled && Value(v.filled, v.avg) == curve(v.filled)
  }

  lemma PollStaysOnCurve(o: OrderRow, ob: Observation, curve: real -> real)
    requires 0.0 <= o.filledQty && Curve(curve) && PollsOf([ob], curve) && Notional(o) == curve(o.filledQty)
    ensures Notional(Sync(o, ob).row) == curve(Sync(o, ob).row.filledQty)
  {
    hide Value, Notional, FillPrice;
    if Open(o.status) && Known(ob) {
      assert Known([ob][0]);
      var v := ob.view.value;
      if v.filled - o.filledQty > DELTA_EPS {
        PollPricingSelfCorrects(o, ob);
      } else {
        SameColumns(o, Sync(o, ob).row);
      }
    }
  }

  lemma SameColumns(o: OrderRow, o': OrderRow)
    requires o'.filledQty == o.filledQty && o'.avgFill == o.avgFill
    ensures Notional(o') == Notional(o)
  {}

  /**
   * Polls of an increasing curve keep the recorded notional on it, in any order and multiplicity: it is the
   * broker's own at the recorded quantity.
   */
  lemma {:induction false} PollsStayOnCurve(o: OrderRow, obs: seq<Observation>, curve: real -> real)
    requires o.filledQty == 0.0 && Curve(curve) && PollsOf(obs, curve)
    ensures Notional(Run(o, obs).row) == curve(Run(o, obs).row.filledQty)
  {
    hide Value, Sync, Curve;
    if obs == [] {
      CurveStarts(o, curve);
    } else {
      var init, ob := obs[..|obs| - 1], obs[|obs| - 1];
      PollsStayOnCurve(o, init, curve);
      assert [ob][0] == obs[|obs| - 1];
      PollStaysOnCurve(Run(o, init).row, ob, curve);
    }
  }

  lemma CurveStarts(o: OrderRow, curve: real -> real)
    requires o.filledQty == 0.0 && Curve(curve)
    ensures Notional(o) == curve(o.filledQty)
  {
    ValueAtZero(AvgOrZero(o));
  }

  /** Quantities seen differ by more than the recording threshold, or not at all. */
  ghost predicate Separated(start: real, obs: seq<Observation>)
  {
    && (forall i :: 0 <= i < |obs| && Known(obs[i]) ==>
      obs[i].view.value.filled <= start || obs[i].view.value.filled > start + DELTA_EPS)
    && (forall i, j :: 0 <= i < |obs| && 0 <= j < |obs| && Known(obs[i]) && Known(obs[j]) ==>
          obs[i].view.value.filled <= obs[j].view.value.filled
            || obs[i].view.value.filled > obs[j].view.value.filled + DELTA_EPS)
  }

  /** The recorded quantity is the start or one of those seen. */
  lemma {:induction false} RecordedWasSeen(o: OrderRow, obs: seq<Observation>)
    requires 0.0 <= o.filledQty
    ensures var q := Run(o, obs).row.filledQty; q == o.filledQty || exists ob ::
      ob in obs && Known(ob) && ob.view.value.filled == q
  {
    if obs != [] {
      var init, ob := obs[..|obs| - 1], obs[|obs| - 1];
      RecordedWasSeen(o, init);
      assert forall x :: x in init ==> x in obs;
      assert ob in obs;
    }
  }

  /**
   * While the order stays open, polls of an increasing curve whose quantities are apart record exactly the
   * broker's quantity and notional at the largest one seen.
   */
  lemma PollsReachTheBroker(o: OrderRow, obs: seq<Observation>, curve: real -> real)
    requires o.filledQty == 0.0 && Curve(curve) && PollsOf(obs, curve) && Separated(0.0, obs)
    requires Open(Run(o, obs).row.status)
    ensures var row := Run(o, obs).row; row.filledQty == MaxSeen(0.0, obs) && Notional(row) == curve(MaxSeen(0.0, obs))
  {
    hide Run, Value, Curve;
    PollsStayOnCurve(o, obs, curve);
    assert Priced(obs);
    Converges(o, obs);
    MaxSeenIsMax(0.0, obs);
    RecordedWasSeen(o, obs);
    LargestIsRecorded(0.0, obs, Run(o, obs).row.filledQty);
  }

  /** A quantity seen within the threshold of the largest one is the largest one. */
  lemma LargestIsRecorded(start: real, obs: seq<Observation>, q: real)
    requires Separated(start, obs) && start <= q && MaxSeen(start, obs) - DELTA_EPS <= q <= MaxSeen(start, obs)
    requires q == start || exists ob :: ob in obs && Known(ob) && ob.view.value.filled == q
    ensures q == MaxSeen(start, obs)
  {
    var m := MaxSeen(start, obs);
    MaxSeenIsMax(start, obs);
    if m != start {
      var y :| y in obs && Known(y) && y.view.value.filled == m;
      var j :| 0 <= j < |obs| && obs[j] == y;
      assert m <= start || m > start + DELTA_EPS;
      if q != start {
        var x :| x in obs && Known(x) && x.view.value.filled == q;
        var i :| 0 <= i < |obs| && obs[i] == x;
        assert obs[j].view.value.filled <= obs[i].view.value.filled;
      }
    }
  }

  /** Usable observations: a known status comes with a positive average, and deals carry a price. */
  ghost predicate Priced(obs: seq<Observation>)
  {
    forall i :: 0 <= i < |obs| && Known(obs[i]) ==>
      obs[i].view.value.avg > 0.0 && (obs[i].deal.Some? ==> obs[i].deal.value.price > 0.0)
  }

  /** The largest cumulative quantity among the start and the known observations. */
  function MaxSeen(start: real, obs: seq<Observation>): real
  {
    if obs == [] then start
    else
      var m, ob := MaxSeen(start, obs[..|obs| - 1]), obs[|obs| - 1];
      if Known(ob) then Max(m, ob.view.value.filled) else m
  }

  lemma PricedDeltaIsRecorded(o: OrderRow, ob: Observation)
    requires 0.0 <= o.filledQty && Open(o.status) && Known(ob) && Priced([ob])
    ensures var v := ob.view.value;
            Sync(o, ob).row.filledQty == if v.filled - o.filledQty > DELTA_EPS then v.filled else o.filledQty
  {
    assert Known([ob][0]);
  }

  /**
   * Convergence: while the order stays open, duplicated, stale or reordered observations leave the quantity
   * within one recording threshold of the largest one seen.
   */
  lemma {:induction false} Converges(o: OrderRow, obs: seq<Observation>)
    requires 0.0 <= o.filledQty && Priced(obs) && Open(Run(o, obs).row.status)
    ensures MaxSeen(o.filledQty, obs) - DELTA_EPS <= Run(o, obs).row.filledQty <= MaxSeen(o.filledQty, obs)
  {
    if obs != [] {
      var init, ob := obs[..|obs| - 1], obs[|obs| - 1];
      assert Open(Run(o, init).row.status);
      Converges(o, init);
      if Known(ob) {
        assert obs[|obs| - 1].view.value.avg > 0.0;
        PricedDeltaIsRecorded(Run(o, init).row, ob);
      }
    }
  }

  lemma {:induction false} MaxSeenIsMax(start: real, obs: seq<Observation>)
    ensures start <= MaxSeen(start, obs)
    ensures forall ob :: ob in obs && Known(ob) ==> ob.view.value.filled <= MaxSeen(start, obs)
    ensures MaxSeen(start, obs) == start || exists ob ::
      ob in obs && Known(ob) && ob.view.value.filled == MaxSeen(start, obs)
  {
    if obs != [] {
      var init, last := obs[..|obs| - 1], obs[|obs| - 1];
      MaxSeenIsMax(start, init);
      assert forall ob :: ob in obs <==> ob in init || ob == last;
    }
  }

  /** Two workers that see the same observations, in any order and any number of times, agree. */
  lemma ReorderedRunsAgree(o: OrderRow, a: seq<Observation>, b: seq<Observation>)
    requires 0.0 <= o.filledQty && Priced(a) && Priced(b)
    requires Open(Run(o, a).row.status) && Open(Run(o, b).row.status)
    requires forall ob :: ob in a <==> ob in b
    ensures Abs(Run(o, a).row.filledQty - Run(o, b).row.filledQty) <= DELTA_EPS
  {
    Converges(o, a);
    Converges(o, b);
    MaxSeenIsMax(o.filledQty, a);
    MaxSeenIsMax(o.filledQty, b);
  }

  /** Applying the same observation again changes nothing and writes nothing. */
  lemma SyncIsIdempotent(o: OrderRow, ob: Observation)
    requires 0.0 <= o.filledQty
    ensures Sync(Sync(o, ob).row, ob) == Posting(Sync(o, ob).row, [])
  {
    if Open(o.status) && Known(ob) {
      var v := ob.view.value;
      var row := Sync(o, ob).row;
      if Records(o, v, ob.deal) {
        assert row.filledQty == v.filled;
      } else {
        assert row.filledQty == o.filledQty && row.avgFill == o.avgFill;
      }
    }
  }

  // ---------------------------------------------------------------- the mutable transaction

  /** The price of the newly filled delta: the deal's print, the backed-out average, or the running average. */
  method PriceDelta(order: Order, v: View, deal: Option<Print>) returns (fillPrice: real)
    requires v.filled - order.filledQty > DELTA_EPS
    ensures fillPrice == FillPrice(order.Row(), v, deal)
    ensures deal.Some? && Covers(deal.value.qty, v.filled - order.filledQty) ==> fillPrice == deal.value.price
    ensures !(deal.Some? && Covers(deal.value.qty, v.filled - order.filledQty)) ==>
      var delta := Value(v.filled, v.avg) - Notional(order.Row());
      if delta > 0.0 then Value(v.filled - order.filledQty, fillPrice) == delta else fillPrice == v.avg
  {
    hide Value;
    var newlyFilled := v.filled - order.filledQty;
    if DealCovers(deal, newlyFilled) {
      return deal.value.price;
    }
    var deltaNotional := Value(v.filled, v.avg) - Value(order.filledQty, Or(order.avgFill, 0.0));
    fillPrice := deltaNotional / newlyFilled;
    ValueOfQuotient(deltaNotional, newlyFilled);
    ValueSign(newlyFilled, fillPrice);
    if !(fillPrice > 0.0) { fillPrice := v.avg; }
  }

  /** Bring the order to the broker's cumulative quantity, averaging the delta in. */
  method Advance(order: Order, brokerFilled: real, x: Print)
    requires 0.0 <= order.filledQty && 0.0 < x.qty && brokerFilled == order.filledQty + x.qty
    modifies order`filledQty, order`avgFill
    ensures order.Row() == Record(old(order.Row()), x)
  {
    var priorNotional := Value(order.filledQty, Or(order.avgFill, 0.0));
    order.avgFill := Some((priorNotional + Value(x.qty, x.price)) / brokerFilled);
    order.filledQty := brokerFilled;
  }

  /** Book the newly filled delta, if it is above the threshold and has a price. */
  method BookDelta(order: Order, positions: PositionTable, v: View, deal: Option<Print>) returns (changed: bool)
    requires 0.0 <= order.filledQty && positions.Valid()
    modifies order`fills, order`filledQty, order`avgFill, positions, positions.Cells()
    ensures changed == Records(old(order.Row()), v, deal)
    ensures var p := Recorded(old(order.Row()), v, deal);
            && order.Row() == p.row
            && order.fills == old(order.fills) + p.fills
            && PositiveFills(p.fills)
            && positions.Rows() == NetAll(old(positions.Rows()), order.terms.key, p.fills)
    ensures positions.Valid() && fresh(positions.Cells() - old(positions.Cells()))
  {
    hide Value, NetFill;
    var newlyFilled := v.filled - order.filledQty;
    if newlyFilled <= DELTA_EPS {
      return false;
    }
    var fillPrice := PriceDelta(order, v, deal);
    if fillPrice <= 0.0 {
      return false;
    }
    var x := Print(newlyFilled, fillPrice);
    PostFill(order, positions, x);
    Advance(order, v.filled, x);
    return true;
  }

  /** One locked reconciliation of one order: what Sync says, on the order, its fills and the positions. */
  method SyncOrder(order: Order, positions: PositionTable, ob: Observation)
    requires 0.0 <= order.filledQty && positions.Valid()
    modifies order, positions, positions.Cells()
    ensures var p := Sync(old(order.Row()), ob);
            && order.Row() == p.row
            && order.fills == old(order.fills) + p.fills
            && PositiveFills(p.fills)
            && positions.Rows() == NetAll(old(positions.Rows()), order.terms.key, p.fills)
    ensures positions.Valid() && fresh(positions.Cells() - old(positions.Cells()))
  {
    if !Open(order.status) || ob.view.None? || ob.view.value.status == V_UNKNOWN {
      return;
    }
    var v := ob.view.value;
    var changed := BookDelta(order, positions, v, ob.deal);
    var exit := Exit(v.status, changed);
    if exit.Some? {
      var raised := order.Transition(exit.value);
      assert !raised;
    }
  }
}
