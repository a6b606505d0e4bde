// What the ledger does not keep: for each, a run from the empty ledger, and the exact condition where the single
// step has one.
module LedgerFailures {
  import opened Money
  import opened Orders
  import opened Positions
  import opened OrderService
  import opened Ledger
  import opened LedgerTheorems
  import Algo = ExecutionAlgo
  import Alpaca = AlpacaFillSync
  import Broker = BrokerFillSync

  lemma RunOneMore(events: seq<Event>, e: Event)
    requires AllAdmissible(events) && Admissible(e)
    ensures AllAdmissible(events + [e]) && Run(events + [e]) == Apply(Run(events), e)
  {
    assert (events + [e])[..|events|] == events;
  }

  // A market order of the given quantity that its broker accepts under an id.
  function Resting(terms: Terms): Event { SubmitInstant(1, terms, None, None, Returned(Some(7), false, None, None)) }

  predicate PlainTerms(terms: Terms) { 0.0 < terms.qty && terms.orderType == MARKET }

  function RestingRow(terms: Terms): OrderRow
  {
    Submitted(Allocated(terms, None, None), Returned(Some(7), false, None, None)).row
  }

  lemma RestingRun(terms: Terms)
    requires PlainTerms(terms)
    ensures Admissible(Resting(terms)) && AllAdmissible([Resting(terms)])
    ensures var w := Run([Resting(terms)]);
            w.orders == map[1 := RestingRow(terms)] && w.log == [] && w.rows == [] && w.lags == map[]
    ensures var o := RestingRow(terms); Open(o.status) && o.filledQty == 0.0 && o.brokerId.Some? && LegalHistory(o)
  {
    assert [] + [Resting(terms)] == [Resting(terms)];
    RunOneMore([], Resting(terms));
  }

  /** A run that loses an execution: submitted, one share executed, cancelled while the activity feed lags. */
  lemma CancelledRunLosesExecution(terms: Terms)
    requires PlainTerms(terms)
    ensures var pass := Alpaca.Pass(Alpaca.Report(Alpaca.CANCELED, 1.0, 10.0), None, [], 0.0);
            var events := [Resting(terms), AlpacaSync(1, pass, 45.0)];
            && AllAdmissible(events)
            && var w := Run(events);
            1 in w.orders && w.orders[1].status == Some(CANCELLED) && w.orders[1].filledQty == 0.0 && w.log == []
  {
    hide Alpaca.Sync;
    var e := AlpacaSync(1, Alpaca.Pass(Alpaca.Report(Alpaca.CANCELED, 1.0, 10.0), None, [], 0.0), 45.0);
    RestingRun(terms);
    RunOneMore([Resting(terms)], e);
    assert [Resting(terms)] + [e] == [Resting(terms), e];
    Alpaca.CancelDropsDeferredRemainder(RestingRow(terms), 1.0, 10.0, 0.0, 45.0);
  }

  /** A run that misses the broker's notional: a push print of 100, then a poll of two at an average of 10. */
  lemma OvershootingPrintRun(terms: Terms)
    requires PlainTerms(terms)
    ensures var push := Broker.Observation(Some(Broker.View(Broker.V_PARTIAL, 1.0, 10.0)), Some(Print(1.0, 100.0)));
            var poll := Broker.Observation(Some(Broker.View(Broker.V_PARTIAL, 2.0, 10.0)), None);
            var events := [Resting(terms), BrokerSync(1, push), BrokerSync(1, poll)];
            && AllAdmissible(events)
            && var w := Run(events);
            1 in w.orders && w.orders[1].filledQty == 2.0 && Notional(w.orders[1]) == 110.0
  {
    hide Broker.Sync, Value, NetAll;
    var push := Broker.Observation(Some(Broker.View(Broker.V_PARTIAL, 1.0, 10.0)), Some(Print(1.0, 100.0)));
    var poll := Broker.Observation(Some(Broker.View(Broker.V_PARTIAL, 2.0, 10.0)), None);
    var o := RestingRow(terms);
    RestingRun(terms);
    RunOneMore([Resting(terms)], BrokerSync(1, push));
    assert [Resting(terms)] + [BrokerSync(1, push)] == [Resting(terms), BrokerSync(1, push)];
    RunOneMore([Resting(terms), BrokerSync(1, push)], BrokerSync(1, poll));
    assert [Resting(terms), BrokerSync(1, push)] + [BrokerSync(1, poll)]
      == [Resting(terms), BrokerSync(1, push), BrokerSync(1, poll)];
    Broker.FallbackLeavesNotionalsApart(o);
    assert [push, poll][..1] == [push] && [push][..0] == [];
    assert Broker.Run(o, [push]).row == Broker.Sync(o, push).row by { assert Broker.Run(o, []).row == o; }
    assert Broker.Sync(o, push).row.brokerId == o.brokerId by { Broker.SyncFrame(o, push); }
  }

  /** A run whose cash balance is off by twice the basis: one share sold short at 100. */
  lemma ShortSaleRun(terms: Terms, starting: real)
    requires PlainTerms(terms) && terms.side == SELL && terms.qty == 1.0
    ensures var events := [SubmitInstant(1, terms, None, None, Returned(Some(7), true, Some(100.0), Some(1.0)))];
            var all := (k: Key) => true;
            && AllAdmissible(events)
            && var w := Run(events);
            && SnapshotOf(w.rows, all, starting).cash == starting - 100.1
            && starting - Outlay(w.log, all) == starting + 99.9
  {
    var e := SubmitInstant(1, terms, None, None, Returned(Some(7), true, Some(100.0), Some(1.0)));
    var all := (k: Key) => true;
    assert [] + [e] == [e];
    RunOneMore([], e);
    var f := Fill(SELL, 1.0, 100.0, 0.1);
    var w := Run([e]);
    SoldShort(terms);
    assert w.log == [Execution(1, terms.key, f)] && w.rows == [Opened(terms.key, f)];
    ShortSums(terms.key, f, all);
  }

  lemma SoldShort(terms: Terms)
    requires PlainTerms(terms) && terms.side == SELL && terms.qty == 1.0
    ensures var f := Fill(SELL, 1.0, 100.0, 0.1);
            && Submitted(Allocated(terms, None, None), Returned(Some(7), true, Some(100.0), Some(1.0))).fills == [f]
            && NetAll([], terms.key, [f]) == [Opened(terms.key, f)]
            && Tagged(1, terms.key, [f]) == [Execution(1, terms.key, f)]
  {
    var f := Fill(SELL, 1.0, 100.0, 0.1);
    assert [f][..0] == [];
    assert NetAll([], terms.key, []) == [];
  }

  lemma ShortSums(key: Key, f: Fill, all: Key -> bool)
    requires f == Fill(SELL, 1.0, 100.0, 0.1) && all(key)
    ensures Sum([Opened(key, f)], all, RealizedPnl) == -0.1 && Sum([Opened(key, f)], all, Basis) == 100.0
    ensures Outlay([Execution(1, key, f)], all) == -99.9
  {
    assert [Opened(key, f)][..0] == [] && [Execution(1, key, f)][..0] == [];
  }

  // ---------------------------------------------------------------- pushes on algorithmic parents

  /**
   * A push that reconciles the parent of an algorithmic order ends it short of its quantity exactly when the
   * view says FILLED and the quantity it leaves on record is short.
   */
  lemma ViewEndsParentShortExactlyWhen(o: OrderRow, ob: Broker.Observation)
    requires 0.0 <= o.filledQty && Open(o.status) && Algorithmic(o.terms.orderType) && Broker.Known(ob)
    ensures var v, row := ob.view.value, Broker.Sync(o, ob).row;
            row.status == Some(FILLED) && row.filledQty < o.terms.qty - QTY_EPS <==>
              v.status == Broker.V_FILLED &&
              (if Broker.Records(o, v, ob.deal) then v.filled else o.filledQty) < o.terms.qty - QTY_EPS
  {
    hide Value, Broker.FillPrice;
  }

  /**
   * The same of the trade stream: a FILLED report that is not deferred, and a quantity short of the parent's, where
   * the report's counts only if priced, and less whatever part the feed does not show and no branch makes up for.
   */
  lemma ReportEndsParentShortExactlyWhen(o: OrderRow, lag: Option<real>, p: Alpaca.Pass, grace: real)
    requires 0.0 <= o.filledQty && Open(o.status) && Algorithmic(o.terms.orderType) && Alpaca.NonNegative(p.feed)
    ensures var row := Alpaca.Sync(o, lag, p, grace).posting.row;
            row.status == Some(FILLED) && row.filledQty < o.terms.qty - QTY_EPS <==>
              p.report.status == Alpaca.B_FILLED && !Alpaca.Defers(o.filledQty, p, lag, grace) &&
              (if !Alpaca.HasDelta(o.filledQty, p.report) then o.filledQty
               else if Alpaca.StreamCovers(o.filledQty, p) || Alpaca.Remainder(o.filledQty, p) > QTY_EPS
               then p.report.filled
               else p.report.filled - Alpaca.Remainder(o.filledQty, p)) < o.terms.qty - QTY_EPS
  {
    hide Alpaca.Sync, Alpaca.Defers, Alpaca.HasDelta, Alpaca.StreamCovers, Alpaca.Remainder;
    Alpaca.FilledExitIsComplete(o, lag, p, grace);
    if !Alpaca.Defers(o.filledQty, p, lag, grace) { Alpaca.RecordedUndeferred(o, lag, p, grace); }
  }

  // Ten of fifty sent, and the slice's own FILLED push.
  const SLICE := SendSlice(1, 10.0, Returned(Some(7), true, Some(5.0), Some(10.0)))
  const PUSH := BrokerSync(1, Broker.Observation(Some(Broker.View(Broker.V_FILLED, 10.0, 5.0)), None))

  function Parent(terms: Terms): Event { SubmitAlgo(1, terms, None) }

  lemma SlicedRun(terms: Terms, r: AdapterResult)
    requires terms.orderType == TWAP && terms.qty == 50.0 && r.Returned?
    ensures var e := SendSlice(1, 10.0, r);
            && AllAdmissible([Parent(terms), e])
            && var w := Run([Parent(terms), e]);
            1 in w.orders && w.orders[1] == Algo.Slice(Allocated(terms, None, None), 10.0, r).row
  {
    hide Value, NetAll, Algo.Slice;
    var e := SendSlice(1, 10.0, r);
    assert [] + [Parent(terms)] == [Parent(terms)] && [Parent(terms)] + [e] == [Parent(terms), e];
    RunOneMore([], Parent(terms));
    RunOneMore([Parent(terms)], e);
    assert Run([Parent(terms)]).orders == map[1 := Allocated(terms, None, None)];
  }

  /** A run that books what nobody executed: a slice of ten whose broker has filled nothing when the adapter answers. */
  lemma UnfilledSliceRun(terms: Terms, r: AdapterResult)
    requires terms.orderType == TWAP && terms.qty == 50.0 && r.Returned? && Algo.Executed(r, 10.0) == 0.0
    ensures var events := [Parent(terms), SendSlice(1, 10.0, r)];
            && AllAdmissible(events)
            && var w := Run(events);
            1 in w.orders && w.orders[1].status == Some(PARTIAL) && w.orders[1].filledQty == 10.0
  {
    hide Value, Run, Algo.Slice;
    SlicedRun(terms, r);
    Algo.SliceOutcome(Allocated(terms, None, None), 10.0, r);
  }

  /** A run in which a slice's own FILLED push ends its parent: ten of fifty sent, and no later slice is. */
  lemma PushEndsParentRun(terms: Terms, size: real, r: AdapterResult)
    requires terms.orderType == TWAP && terms.qty == 50.0 && 0.0 < size
    ensures var events := [Parent(terms), SLICE, PUSH, SendSlice(1, size, r)];
            && AllAdmissible(events)
            && var w := Run(events);
            1 in w.orders && w.orders[1].status == Some(FILLED) && w.orders[1].filledQty == 10.0
  {
    hide Value, NetAll, Run, Broker.Sync, Algo.Slice;
    var events, late := [Parent(terms), SLICE], SendSlice(1, size, r);
    SlicedRun(terms, SLICE.result);
    RunOneMore(events, PUSH);
    RunOneMore(events + [PUSH], late);
    assert events + [PUSH] + [late] == [Parent(terms), SLICE, PUSH, late];
    SlicedRow(Allocated(terms, None, None));
    PushedRow(Run(events).orders[1], PUSH.ob);
  }

  lemma SlicedRow(o: OrderRow)
    requires o.terms.orderType == TWAP && o.terms.qty == 50.0 && o.status == Some(SUBMITTED) && o.filledQty == 0.0
    ensures var row := Algo.Slice(o, 10.0, SLICE.result).row;
            Open(row.status) && row.filledQty == 10.0 && row.brokerId == Some(7)
  {
    hide Value;
    Algo.SliceOutcome(o, 10.0, SLICE.result);
  }

  lemma PushedRow(o: OrderRow, ob: Broker.Observation)
    requires Open(o.status) && o.filledQty == 10.0
    requires ob == Broker.Observation(Some(Broker.View(Broker.V_FILLED, 10.0, 5.0)), None)
    ensures Broker.Sync(o, ob).row.status == Some(FILLED) && Broker.Sync(o, ob).row.filledQty == 10.0
  {
    hide Value, Broker.FillPrice;
  }
}
