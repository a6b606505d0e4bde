// What every run of the ledger keeps: orders, fills and positions agree, P&L and equity are accounted for,
// histories are legal, and no conditional order reaches its broker twice.
module LedgerTheorems {
  import opened Money
  import opened Orders
  import opened Positions
  import opened OrderService
  import opened ConditionalOrders
  import opened Ledger
  import Algo = ExecutionAlgo
  import Alpaca = AlpacaFillSync
  import Broker = BrokerFillSync

  // ---------------------------------------------------------------- orders agree with their fills

  /** Each order's columns are the sums of its Fill rows, and every Fill row belongs to an order of its key. */
  ghost predicate Agreeing(w: World)
  {
    && (forall id :: id in w.orders ==> Agrees(w.orders[id], FillsOf(w.log, id)))
    && (forall i :: 0 <= i < |w.log| ==> Owned(w, w.log[i]))
  }

  ghost predicate Owned(w: World, e: Execution)
  {
    e.order in w.orders && e.key == w.orders[e.order].terms.key && BookedFor(w.orders[e.order], e.fill)
  }

  lemma FillsOfAppend(log: seq<Execution>, e: Execution, id: int)
    ensures FillsOf(log + [e], id) == if e.order == id then FillsOf(log, id) + [e.fill] else FillsOf(log, id)
  {
    assert (log + [e])[..|log|] == log;
  }

  lemma TaggedSplit(log: seq<Execution>, id: int, key: Key, fs: seq<Fill>)
    requires fs != []
    ensures log + Tagged(id, key, fs) ==
            (log + Tagged(id, key, fs[..|fs| - 1])) + [Execution(id, key, fs[|fs| - 1])]
  {}

  lemma {:induction false} FillsOfTagged(log: seq<Execution>, id: int, key: Key, fs: seq<Fill>, other: int)
    ensures FillsOf(log + Tagged(id, key, fs), other) 
      == if other == id then FillsOf(log, other) + fs else FillsOf(log, other)
  {
    if fs == [] {
      assert log + Tagged(id, key, fs) == log;
    } else {
      var init, f := fs[..|fs| - 1], fs[|fs| - 1];
      FillsOfTagged(log, id, key, init, other);
      TaggedSplit(log, id, key, fs);
      FillsOfAppend(log + Tagged(id, key, init), Execution(id, key, f), other);
      assert init + [f] == fs;
    }
  }

  lemma {:induction false} NoFillsBeforeCreation(w: World, log: seq<Execution>, id: int)
    requires (forall i :: 0 <= i < |log| ==> Owned(w, log[i])) && id !in w.orders
    ensures FillsOf(log, id) == []
  {
    if log != [] { NoFillsBeforeCreation(w, log[..|log| - 1], id); }
  }

  /** Posting on a row that agrees with its fills keeps the whole ledger in agreement. */
  lemma PostAgrees(w: World, id: int, base: OrderRow, p: Posting)
    requires Sound(w) && Agreeing(w) && PostingSound(p) && Keeps(base, p)
    requires Agrees(base, FillsOf(w.log, id)) && (id in w.orders ==> w.orders[id].terms == base.terms)
    ensures Agreeing(Post(w, id, p))
  {
    var w' := Post(w, id, p);
    var key := p.row.terms.key;
    forall other | other in w'.orders ensures Agrees(w'.orders[other], FillsOf(w'.log, other)) {
      FillsOfTagged(w.log, id, key, p.fills, other);
      if other == id { KeepsAgreement(base, p, FillsOf(w.log, id)); }
    }
    forall i | 0 <= i < |w'.log| ensures Owned(w', w'.log[i]) {
      if i < |w.log| { assert Owned(w, w.log[i]); } else { assert BookedFor(base, p.fills[i - |w.log|]); }
    }
  }

  /** Rows that change status only, and new rows without fills, leave the agreement alone. */
  lemma RowsAgree(w: World, orders: map<int, OrderRow>)
    requires Agreeing(w) && w.orders.Keys <= orders.Keys
    requires forall id :: id in w.orders ==> SameFills(w.orders[id], orders[id])
    requires forall id :: id in orders && id !in w.orders ==> orders[id].filledQty == 0.0
    ensures Agreeing(w.(orders := orders))
  {
    hide Value;
    forall id | id in orders ensures Agrees(orders[id], FillsOf(w.log, id)) {
      if id !in w.orders {
        NoFillsBeforeCreation(w, w.log, id);
        ValueAtZero(AvgOrZero(orders[id]));
      }
    }
    forall i | 0 <= i < |w.log| ensures Owned(w.(orders := orders), w.log[i]) { assert Owned(w, w.log[i]); }
  }

  ghost predicate SameFills(o: OrderRow, o': OrderRow)
  {
    o'.terms == o.terms && o'.filledQty == o.filledQty && o'.avgFill == o.avgFill
  }

  lemma PostOnExisting(w: World, id: int, p: Posting)
    requires Sound(w) && Agreeing(w) && id in w.orders && PostingSound(p) && Keeps(w.orders[id], p)
    ensures Agreeing(Post(w, id, p))
  {
    PostAgrees(w, id, w.orders[id], p);
  }

  lemma SubmitAgrees(w: World, id: int, o: OrderRow, r: AdapterResult)
    requires Sound(w) && Agreeing(w) && id !in w.orders && RowSound(o) && o.status == Some(SUBMITTED)
    requires o.filledQty == 0.0 && Sane(r)
    ensures PostingSound(Submitted(o, r)) && Agreeing(Post(w, id, Submitted(o, r)))
  {
    hide Value;
    NoFillsBeforeCreation(w, w.log, id);
    ValueAtZero(AvgOrZero(o));
    SubmittedSound(o, r);
    SubmittedKeeps(o, r);
    PostAgrees(w, id, o, Submitted(o, r));
  }

  /** Bookkeeping columns do not matter to the agreement. */
  lemma HistoryColumns(w: World, w': World)
    requires Agreeing(w) && w'.orders == w.orders && w'.log == w.log
    ensures Agreeing(w')
  {
    forall i | 0 <= i < |w'.log| ensures Owned(w', w'.log[i]) { assert Owned(w, w.log[i]); }
  }

  lemma WriterAgrees(w: World, e: Event)
    requires Sound(w) && Agreeing(w) && Admissible(e)
    requires e.SubmitInstant? || e.AlpacaSync? || e.BrokerSync? || e.SendSlice? || e.Trigger?
    ensures Agreeing(Apply(w, e))
  {
    hide Value, NetAll, RecordAll, Alpaca.Sync, Broker.Sync, Algo.Slice, Submitted, Keeps, Agreeing;
    match e
    case SubmitInstant(id, t, price, stop, r) =>
      if id !in w.orders {
        AllocatedSound(t, price, stop);
        SubmitAgrees(w, id, Allocated(t, price, stop), r);
        HistoryColumns(Post(w, id, Submitted(Allocated(t, price, stop), r)), Apply(w, e));
      }
    case AlpacaSync(id, pass, grace) =>
      if id in w.orders && w.orders[id].brokerId.Some? {
        var o, lag := w.orders[id], LagOf(w.lags, id);
        AlpacaSound(o, lag, pass, grace);
        Alpaca.SyncKeeps(o, lag, pass, grace);
        PostOnExisting(w, id, Alpaca.Sync(o, lag, pass, grace).posting);
        HistoryColumns(Post(w, id, Alpaca.Sync(o, lag, pass, grace).posting), Apply(w, e));
      }
    case BrokerSync(id, ob) =>
      if id in w.orders && w.orders[id].brokerId.Some? {
        BrokerSound(w.orders[id], ob);
        Broker.SyncKeeps(w.orders[id], ob);
        PostOnExisting(w, id, Broker.Sync(w.orders[id], ob));
      }
    case SendSlice(id, size, r) =>
      if id in w.orders && Algorithmic(w.orders[id].terms.orderType) && Open(w.orders[id].status) && r.Returned? {
        SliceSound(w.orders[id], size, r);
        Algo.SliceKeeps(w.orders[id], size, r);
        PostOnExisting(w, id, Algo.Slice(w.orders[id], size, r));
      }
    case Trigger(id, mark, r) =>
      if id in w.orders && Armed(w.orders[id]) {
        FireSound(w.orders[id], mark, r);
        FireKeeps(w.orders[id], mark, r);
        PostOnExisting(w, id, Fire(w.orders[id], mark, r));
        HistoryColumns(Post(w, id, Fire(w.orders[id], mark, r)), Apply(w, e));
      }
  }

  lemma CancelSameFills(o: OrderRow, group: int)
    ensures SameFills(o, Cancel(o)) && SameFills(o, CancelLeg(o, group))
  {}

  lemma CancelGroupAgrees(w: World, orders: map<int, OrderRow>, group: int, except: int)
    requires Agreeing(w) && orders.Keys == w.orders.Keys
    requires forall id :: id in w.orders ==> SameFills(w.orders[id], orders[id])
    ensures Agreeing(w.(orders := CancelGroup(orders, group, except)))
  {
    var orders' := CancelGroup(orders, group, except);
    forall id | id in w.orders ensures SameFills(w.orders[id], orders'[id]) { CancelSameFills(orders[id], group); }
    RowsAgree(w, orders');
  }

  lemma UserCancelAgrees(w: World, id: int)
    requires Agreeing(w) && id in w.orders
    ensures Agreeing(Cancelling(w, id))
  {
    var o := w.orders[id];
    CancelSameFills(o, 0);
    RowsAgree(w, w.orders[id := Cancel(o)]);
    if CancelsPair(o) { CancelGroupAgrees(w, w.orders[id := Cancel(o)], o.oco.value.group, id); }
  }

  lemma AllocateAgrees(w: World, id: int, o: OrderRow)
    requires Agreeing(w) && id !in w.orders && o.filledQty == 0.0
    ensures Agreeing(Allocate(w, id, o))
  {
    RowsAgree(w, w.orders[id := o]);
  }

  lemma OtherAgrees(w: World, e: Event)
    requires Sound(w) && Agreeing(w) && Admissible(e)
    requires !(e.SubmitInstant? || e.AlpacaSync? || e.BrokerSync? || e.SendSlice? || e.Trigger?)
    ensures Agreeing(Apply(w, e))
  {
    match e
    case SubmitAlgo(id, t, price) => if id !in w.orders { AllocateAgrees(w, id, Allocated(t, price, None)); }
    case SubmitStopLimit(id, t, limit, stop) =>
      if id !in w.orders { AllocateAgrees(w, id, ArmedStopLimit(t, limit, stop)); }
    case SubmitOco(id, stopId, t, limit, stop) =>
      if id !in w.orders && stopId !in w.orders {
        AllocateAgrees(w, id, OcoLimitLeg(t, limit, id));
        AllocateAgrees(Allocate(w, id, OcoLimitLeg(t, limit, id)), stopId, OcoStopLeg(t, stop, id));
      }
    case UserCancel(id) => if id in w.orders { UserCancelAgrees(w, id); }
    case CancelSiblings(group, filledId) => CancelGroupAgrees(w, w.orders, group, filledId);
    case Revalue(quotes) => HistoryColumns(w, Apply(w, e));
  }

  /**
   * Ledger agreement in every reachable state: over all interleavings of the five fill writers, cancels and
   * revaluations, each order's filled quantity and notional are the sums over its own Fill rows.
   */
  lemma {:induction false} OrdersAgreeWithFills(events: seq<Event>)
    requires AllAdmissible(events)
    ensures Agreeing(Run(events))
  {
    if events != [] {
      var init, e := events[..|events| - 1], events[|events| - 1];
      OrdersAgreeWithFills(init);
      if e.SubmitInstant? || e.AlpacaSync? || e.BrokerSync? || e.SendSlice? || e.Trigger? {
        WriterAgrees(Run(init), e);
      } else {
        OtherAgrees(Run(init), e);
      }
    }
  }

  // ---------------------------------------------------------------- positions agree with fills

  /** The fills of the selected keys were made between the two prices. */
  ghost predicate PricesWithin(log: seq<Execution>, sel: Key -> bool, lo: real, hi: real)
  {
    forall i :: 0 <= i < |log| && sel(log[i].key) ==> lo <= log[i].fill.price <= hi
  }

  /** The largest price in a band, in size. */
  function Largest(lo: real, hi: real): real { Max(Abs(lo), Abs(hi)) }

  lemma OneMoreReconciles(rows: seq<PosRow>, log: seq<Execution>, e: Execution, sel: Key -> bool, lo: real, hi: real)
    requires RowsOk(rows) && 0.0 < e.fill.qty && (sel(e.key) ==> lo <= e.fill.price <= hi)
    requires PricedWithin(rows, sel, lo, hi) && Reconciled(rows, log, sel, Largest(lo, hi))
    ensures Reconciled(NetFill(rows, e.key, e.fill), log + [e], sel, Largest(lo, hi))
    ensures PricedWithin(NetFill(rows, e.key, e.fill), sel, lo, hi)
  {
    hide NetFill, Reconciled;
    NetFillReconciles(rows, log, e, sel, Largest(lo, hi));
    NetFillPriced(rows, e.key, e.fill, sel, lo, hi);
  }

  lemma {:induction false} NetAllReconciles(
    rows: seq<PosRow>, log: seq<Execution>, id: int, key: Key, fs: seq<Fill>, sel: Key -> bool, lo: real, hi: real)
    requires RowsOk(rows) && PositiveFills(fs) && PricedWithin(rows, sel, lo, hi)
    requires Reconciled(rows, log, sel, Largest(lo, hi))
    requires sel(key) ==> forall i :: 0 <= i < |fs| ==> lo <= fs[i].price <= hi
    ensures Reconciled(NetAll(rows, key, fs), log + Tagged(id, key, fs), sel, Largest(lo, hi))
    ensures PricedWithin(NetAll(rows, key, fs), sel, lo, hi)
  {
    hide NetFill, Reconciled, PricedWithin, Largest;
    if fs == [] {
      assert log + Tagged(id, key, fs) == log;
    } else {
      var init, f := fs[..|fs| - 1], fs[|fs| - 1];
      NetAllReconciles(rows, log, id, key, init, sel, lo, hi);
      TaggedSplit(log, id, key, fs);
      OneMoreReconciles(NetAll(rows, key, init), log + Tagged(id, key, init), Execution(id, key, f), sel, lo, hi);
    }
  }

  /** The selected positions cost within the band, and match the fills up to the band's tolerance per closed row. */
  ghost predicate Balanced(w: World, sel: Key -> bool, lo: real, hi: real)
  {
    PricedWithin(w.rows, sel, lo, hi) && Reconciled(w.rows, w.log, sel, Largest(lo, hi))
  }

  lemma PostReconciles(w: World, id: int, p: Posting, sel: Key -> bool, lo: real, hi: real)
    requires Sound(w) && PostingSound(p) && Balanced(w, sel, lo, hi) && PricesWithin(Post(w, id, p).log, sel, lo, hi)
    ensures Balanced(Post(w, id, p), sel, lo, hi)
  {
    hide NetAll, Reconciled, PricedWithin, Largest;
    var key := p.row.terms.key;
    var es := Tagged(id, key, p.fills);
    forall i | 0 <= i < |p.fills| && sel(key) ensures lo <= p.fills[i].price <= hi {
      assert (w.log + es)[|w.log| + i] == es[i];
    }
    NetAllReconciles(w.rows, w.log, id, key, p.fills, sel, lo, hi);
  }

  lemma StepReconciles(w: World, e: Event, sel: Key -> bool, lo: real, hi: real)
    requires Sound(w) && Admissible(e) && Balanced(w, sel, lo, hi) && PricesWithin(Apply(w, e).log, sel, lo, hi)
    ensures Balanced(Apply(w, e), sel, lo, hi)
  {
    match e
    case SubmitInstant(id, t, price, stop, r) =>
      if id !in w.orders {
        AllocatedSound(t, price, stop);
        SubmittedSound(Allocated(t, price, stop), r);
        PostReconciles(w, id, Submitted(Allocated(t, price, stop), r), sel, lo, hi);
      }
    case AlpacaSync(id, pass, grace) =>
      if id in w.orders && w.orders[id].brokerId.Some? {
        AlpacaSound(w.orders[id], LagOf(w.lags, id), pass, grace);
        PostReconciles(w, id, Alpaca.Sync(w.orders[id], LagOf(w.lags, id), pass, grace).posting, sel, lo, hi);
      }
    case BrokerSync(id, ob) =>
      if id in w.orders && w.orders[id].brokerId.Some? {
        BrokerSound(w.orders[id], ob);
        PostReconciles(w, id, Broker.Sync(w.orders[id], ob), sel, lo, hi);
      }
    case SendSlice(id, size, r) =>
      if id in w.orders && Algorithmic(w.orders[id].terms.orderType) && Open(w.orders[id].status) && r.Returned? {
        SliceSound(w.orders[id], size, r);
        PostReconciles(w, id, Algo.Slice(w.orders[id], size, r), sel, lo, hi);
      }
    case Trigger(id, mark, r) =>
      if id in w.orders && Armed(w.orders[id]) {
        FireSound(w.orders[id], mark, r);
        PostReconciles(w, id, Fire(w.orders[id], mark, r), sel, lo, hi);
      }
    case Revalue(quotes) => MarkRowsKeeps(w.rows, quotes, w.log, sel, lo, hi, Largest(lo, hi));
    case _ =>
  }

  /**
   * The P&L identity in every reachable state, for any set of keys: realized P&L equals minus signed notional
   * minus commissions plus the open basis, and the signed open quantity equals the signed fills, up to one
   * tolerance per closed row, taken at the largest price of those keys' own fills; and each open row's average
   * cost lies between the lowest and the highest of them.
   */
  lemma {:induction false} PositionsAgreeWithFills(events: seq<Event>, sel: Key -> bool, lo: real, hi: real)
    requires AllAdmissible(events) && PricesWithin(Run(events).log, sel, lo, hi)
    ensures Balanced(Run(events), sel, lo, hi)
  {
    if events != [] {
      var init, e := events[..|events| - 1], events[|events| - 1];
      LogGrows(Run(init), e);
      assert forall i :: 0 <= i < |Run(init).log| ==> Run(init).log[i] == Run(events).log[i];
      PositionsAgreeWithFills(init, sel, lo, hi);
      StepReconciles(Run(init), e, sel, lo, hi);
    }
  }

  lemma LogGrows(w: World, e: Event)
    requires Sound(w) && Admissible(e)
    ensures w.log <= Apply(w, e).log
  {}

  /** What a snapshot of the selected keys shows in a state. */
  ghost predicate SnapshotAccounts(w: World, sel: Key -> bool, m: real, starting: real)
  {
    var s, cash, dust := SnapshotOf(w.rows, sel, starting), starting - Outlay(w.log, sel),
      Sum(w.rows, sel, Dust(Value(QTY_EPS, m)));
    && Abs(s.totalEquity - (cash + Sum(w.rows, sel, MarketValue))) <= dust
    && Abs(s.cash + 2.0 * Sum(w.rows, sel, ShortBasis) - cash) <= dust
    && dust == Value(ClosedRows(w.rows, sel) as real, Value(QTY_EPS, m))
  }

  lemma BalancedAccounts(w: World, sel: Key -> bool, lo: real, hi: real, starting: real)
    requires Sound(w) && Balanced(w, sel, lo, hi)
    ensures SnapshotAccounts(w, sel, Largest(lo, hi), starting)
  {
    EquityIdentity(w.rows, w.log, sel, Largest(lo, hi), starting);
    DustIsPerClosedRow(w.rows, sel, Value(QTY_EPS, Largest(lo, hi)));
  }

  /**
   * Every equity snapshot, in every reachable state: total equity is the starting cash less what the fills
   * cost plus the open quantity at its last mark; the cash balance counts each open short's basis twice over.
   */
  lemma EquityInEveryState(events: seq<Event>, sel: Key -> bool, lo: real, hi: real, starting: real)
    requires AllAdmissible(events) && PricesWithin(Run(events).log, sel, lo, hi)
    ensures SnapshotAccounts(Run(events), sel, Largest(lo, hi), starting)
  {
    PositionsAgreeWithFills(events, sel, lo, hi);
    BalancedAccounts(Run(events), sel, lo, hi, starting);
  }

  /** Right after a revaluation with a usable quote for every selected open row, equity is current at the quotes. */
  lemma EquityIsCurrentAfterRevalue(events: seq<Event>, quotes: map<int, real>, sel: Key -> bool,
      lo: real, hi: real, starting: real)
    requires AllAdmissible(events) && PricesWithin(Run(events).log, sel, lo, hi)
    requires AllQuoted(Run(events).rows, sel, quotes)
    ensures var w, m := Apply(Run(events), Revalue(quotes)), Largest(lo, hi);
            var valued := starting - Outlay(w.log, sel) + Sum(w.rows, sel, QuotedValue(quotes));
            Abs(SnapshotOf(w.rows, sel, starting).totalEquity - valued)
              <= Sum(w.rows, sel, Dust(Value(QTY_EPS, m))) + Sum(w.rows, sel, OpenDust(QTY_EPS))
  {
    hide Run, Reconciled, PricedWithin, Largest, AllQuoted;
    PositionsAgreeWithFills(events, sel, lo, hi);
    var w := Run(events);
    MarkRowsKeeps(w.rows, quotes, w.log, sel, lo, hi, Largest(lo, hi));
    EquityAtQuotes(w.rows, w.log, sel, Largest(lo, hi), starting, quotes);
  }

  ghost predicate AllMarkedAt(rows: seq<PosRow>, key: Key, price: real)
  {
    forall i :: 0 <= i < |rows| && rows[i].isOpen && rows[i].key == key ==> MarkedAt(rows[i], price)
  }

  /** Posting fills values the key's open row at the price of the last of them. */
  lemma PostMarks(w: World, id: int, p: Posting)
    requires Sound(w) && PostingSound(p) && p.fills != []
    ensures var w', x := Post(w, id, p), p.fills[|p.fills| - 1];
            && w'.log != [] && w'.log[|w'.log| - 1] == Execution(id, p.row.terms.key, x)
            && AllMarkedAt(w'.rows, p.row.terms.key, x.price)
  {
    hide NetFill, MarkedAt;
    var n := |p.fills| - 1;
    NetFillMarks(NetAll(w.rows, p.row.terms.key, p.fills[..n]), p.row.terms.key, p.fills[n]);
  }

  /** Whichever writer it is, the step that writes a fill values its key's open row at the fill's price. */
  lemma FillMarks(w: World, e: Event)
    requires Sound(w) && Admissible(e) && |w.log| < |Apply(w, e).log|
    ensures var w' := Apply(w, e); var x := w'.log[|w'.log| - 1]; AllMarkedAt(w'.rows, x.key, x.fill.price)
  {
    hide Value, NetAll, RecordAll, Alpaca.Sync, Broker.Sync, Algo.Slice, Submitted, MarkedAt, AllMarkedAt;
    match e
    case SubmitInstant(id, t, price, stop, r) =>
      AllocatedSound(t, price, stop);
      SubmittedSound(Allocated(t, price, stop), r);
      PostMarks(w, id, Submitted(Allocated(t, price, stop), r));
    case AlpacaSync(id, pass, grace) =>
      AlpacaSound(w.orders[id], LagOf(w.lags, id), pass, grace);
      PostMarks(w, id, Alpaca.Sync(w.orders[id], LagOf(w.lags, id), pass, grace).posting);
    case BrokerSync(id, ob) =>
      BrokerSound(w.orders[id], ob);
      PostMarks(w, id, Broker.Sync(w.orders[id], ob));
    case SendSlice(id, size, r) =>
      SliceSound(w.orders[id], size, r);
      PostMarks(w, id, Algo.Slice(w.orders[id], size, r));
    case Trigger(id, mark, r) =>
      FireSound(w.orders[id], mark, r);
      PostMarks(w, id, Fire(w.orders[id], mark, r));
  }

  function OfKey(key: Key): Key -> bool { (k: Key) => k == key }

  /** The last fill's key is valued at its price, and so is the key's equity if its fills lie in the band. */
  ghost predicate CurrentAtLastFill(w: World, lo: real, hi: real, starting: real)
    requires w.log != []
  {
    var x := w.log[|w.log| - 1];
    var sel := OfKey(x.key);
    var valued := starting - Outlay(w.log, sel) + Value(Sum(w.rows, sel, OpenQty), x.fill.price);
    && AllMarkedAt(w.rows, x.key, x.fill.price)
    && (PricesWithin(w.log, sel, lo, hi) ==>
          Abs(SnapshotOf(w.rows, sel, starting).totalEquity - valued) <=
            Sum(w.rows, sel, Dust(Value(QTY_EPS, Largest(lo, hi)))))
  }

  /**
   * The snapshot right after a posting, in every run: the filled key's equity is the starting cash less what its
   * fills cost plus its open quantity at the price of the last fill, up to dust.
   */
  lemma EquityIsCurrentAfterFill(events: seq<Event>, lo: real, hi: real, starting: real)
    requires AllAdmissible(events) && events != []
    ensures var w := Run(events); |Run(events[..|events| - 1]).log| < |w.log| ==> CurrentAtLastFill(w, lo, hi, starting)
  {
    hide Apply, Value, Largest, Outlay, Sum;
    var w := Run(events);
    if |Run(events[..|events| - 1]).log| < |w.log| {
      FillMarks(Run(events[..|events| - 1]), events[|events| - 1]);
      var x := w.log[|w.log| - 1];
      if PricesWithin(w.log, OfKey(x.key), lo, hi) {
        EquityInEveryState(events, OfKey(x.key), lo, hi, starting);
        WorthAt(w.rows, OfKey(x.key), x.fill.price);
      }
    }
  }

  // ---------------------------------------------------------------- histories and terminal states

  /**
   * How one step may change a row: its terms stay, history entries are only appended, a terminal row never
   * changes again, and an armed row is only ever fired or cancelled, never armed anew.
   */
  ghost predicate Evolves(o: OrderRow, o': OrderRow, fired: bool)
  {
    && o'.terms == o.terms
    && o.history <= o'.history
    && (o.status.Some? && Terminal(o.status.value) ==> o' == o)
    && (Armed(o') && !fired ==> Armed(o))
    && (Armed(o) && !fired ==> o' == o || o'.status == Some(CANCELLED))
    && SameTrigger(o, o')
  }

  lemma AlpacaEvolves(o: OrderRow, lag: Option<real>, pass: Alpaca.Pass, grace: real)
    requires 0.0 <= o.filledQty && o.brokerId.Some?
    ensures Evolves(o, Alpaca.Sync(o, lag, pass, grace).posting.row, false)
  {
    RecordAllFrame(o, Alpaca.PlanPass(o.filledQty, pass, lag, grace).execs);
  }

  lemma BrokerEvolves(o: OrderRow, ob: Broker.Observation)
    requires 0.0 <= o.filledQty && o.brokerId.Some?
    ensures Evolves(o, Broker.Sync(o, ob).row, false)
  {}

  lemma SliceEvolves(o: OrderRow, size: real, r: AdapterResult)
    requires 0.0 <= o.filledQty && Open(o.status) && Algorithmic(o.terms.orderType) && 0.0 < size && r.Returned?
    ensures Evolves(o, Algo.Slice(o, size, r).row, false)
  {}

  lemma FireEvolves(o: OrderRow, mark: real, r: AdapterResult)
    requires Armed(o)
    ensures Evolves(o, Fire(o, mark, r).row, true)
  {}

  lemma CancelEvolves(o: OrderRow, group: int)
    ensures Evolves(o, Cancel(o), false) && Evolves(o, CancelLeg(o, group), false)
  {}

  lemma CancellingEvolves(w: World, target: int, id: int)
    requires id in w.orders && target in w.orders
    ensures id in Cancelling(w, target).orders && Evolves(w.orders[id], Cancelling(w, target).orders[id], false)
  {
    var o := w.orders[target];
    CancelEvolves(o, 0);
    if CancelsPair(o) { CancelEvolves(w.orders[id], o.oco.value.group); }
  }

  /** A posting changes the row it is posted on and no other. */
  lemma PostEvolves(w: World, target: int, p: Posting, id: int, fired: bool)
    requires Sound(w) && PostingSound(p) && id in w.orders && target in w.orders
    requires Evolves(w.orders[target], p.row, fired)
    ensures Evolves(w.orders[id], Post(w, target, p).orders[id], fired)
  {}

  lemma SyncEvolves(w: World, e: Event, id: int)
    requires Sound(w) && Admissible(e) && id in w.orders && (e.AlpacaSync? || e.BrokerSync?)
    ensures id in Apply(w, e).orders && Evolves(w.orders[id], Apply(w, e).orders[id], false)
  {
    if e.id in w.orders && w.orders[e.id].brokerId.Some? {
      var o := w.orders[e.id];
      if e.AlpacaSync? {
        AlpacaSound(o, LagOf(w.lags, e.id), e.pass, e.grace);
        AlpacaEvolves(o, LagOf(w.lags, e.id), e.pass, e.grace);
        PostEvolves(w, e.id, Alpaca.Sync(o, LagOf(w.lags, e.id), e.pass, e.grace).posting, id, false);
      } else {
        BrokerSound(o, e.ob);
        BrokerEvolves(o, e.ob);
        PostEvolves(w, e.id, Broker.Sync(o, e.ob), id, false);
      }
    }
  }

  lemma SentEvolves(w: World, e: Event, id: int)
    requires Sound(w) && Admissible(e) && id in w.orders && (e.SendSlice? || e.Trigger?)
    ensures id in Apply(w, e).orders && Evolves(w.orders[id], Apply(w, e).orders[id], e.Trigger?)
  {
    hide Value, NetAll, RecordAll, Algo.Slice, Submitted;
    if e.id in w.orders {
      var o := w.orders[e.id];
      if e.SendSlice? && Algorithmic(o.terms.orderType) && Open(o.status) && e.result.Returned? {
        SliceSound(o, e.size, e.result);
        SliceEvolves(o, e.size, e.result);
        PostEvolves(w, e.id, Algo.Slice(o, e.size, e.result), id, false);
      } else if e.Trigger? && Armed(o) {
        FireSound(o, e.mark, e.result);
        FireEvolves(o, e.mark, e.result);
        PostEvolves(w, e.id, Fire(o, e.mark, e.result), id, true);
      }
    }
  }

  lemma CancelStepEvolves(w: World, e: Event, id: int)
    requires Sound(w) && Admissible(e) && id in w.orders && (e.UserCancel? || e.CancelSiblings?)
    ensures id in Apply(w, e).orders && Evolves(w.orders[id], Apply(w, e).orders[id], false)
  {
    if e.CancelSiblings? {
      CancelEvolves(w.orders[id], e.group);
    } else if e.id in w.orders {
      CancellingEvolves(w, e.id, id);
    }
  }

  /** Creating orders and revaluing positions touch no existing row. */
  lemma OtherStepEvolves(w: World, e: Event, id: int)
    requires Sound(w) && Admissible(e) && id in w.orders && (Submission(e) || e.Revalue?)
    ensures id in Apply(w, e).orders && Evolves(w.orders[id], Apply(w, e).orders[id], false)
  {
    hide Value, NetAll, RecordAll, Submitted;
  }

  lemma StepEvolves(w: World, e: Event, id: int)
    requires Sound(w) && Admissible(e) && id in w.orders
    ensures id in Apply(w, e).orders && Evolves(w.orders[id], Apply(w, e).orders[id], e.Trigger?)
  {
    hide Apply, Evolves;
    match e
    case AlpacaSync(_, _, _) => SyncEvolves(w, e, id);
    case BrokerSync(_, _) => SyncEvolves(w, e, id);
    case SendSlice(_, _, _) => SentEvolves(w, e, id);
    case Trigger(_, _, _) => SentEvolves(w, e, id);
    case UserCancel(_) => CancelStepEvolves(w, e, id);
    case CancelSiblings(_, _) => CancelStepEvolves(w, e, id);
    case _ => OtherStepEvolves(w, e, id);
  }

  lemma EvolvesTransitive(o: OrderRow, o': OrderRow, o'': OrderRow, fired: bool)
    requires Evolves(o, o', true) && Evolves(o', o'', fired)
    ensures Evolves(o, o'', true)
  {}

  lemma {:induction false} RunExtends(events: seq<Event>, k: nat, id: int)
    requires AllAdmissible(events) && k <= |events| && id in Run(events[..k]).orders
    ensures id in Run(events).orders && Evolves(Run(events[..k]).orders[id], Run(events).orders[id], true)
  {
    if k == |events| {
      assert events[..k] == events;
      return;
    }
    var init, e := events[..|events| - 1], events[|events| - 1];
    assert init[..k] == events[..k];
    RunExtends(init, k, id);
    var w := Run(init);
    StepEvolves(w, e, id);
    EvolvesTransitive(Run(init[..k]).orders[id], w.orders[id], Apply(w, e).orders[id], e.Trigger?);
  }

  /** Two legal rows, one extending the other's history: the rank has not fallen. */
  lemma LegalExtension(o: OrderRow, o': OrderRow)
    requires LegalHistory(o) && LegalHistory(o') && o.status.Some? && o.history <= o'.history
    ensures Rank(o.status) <= Rank(o'.status)
  {
    var i := |o.history| - 1;
    assert o.history[i] == o'.history[i];
    LegalPath(o', i, |o'.history| - 1);
  }

  /**
   * Order history is always a legal path: in every reachable state the entries chain along allowed
   * transitions to the current status, later states extend earlier histories, the rank never falls, and a
   * terminal order is final.
   */
  lemma HistoryIsALegalPath(events: seq<Event>, k: nat, id: int)
    requires AllAdmissible(events) && k <= |events| && id in Run(events[..k]).orders
    ensures id in Run(events).orders
    ensures var o, o' := Run(events[..k]).orders[id], Run(events).orders[id];
            && LegalHistory(o) && LegalHistory(o') && o.history <= o'.history
            && Rank(o.status) <= Rank(o'.status)
            && (o.status.Some? && Terminal(o.status.value) ==> o' == o)
  {
    hide Run, Apply;
    RunExtends(events, k, id);
    var o, o' := Run(events[..k]).orders[id], Run(events).orders[id];
    assert RowSound(o) && RowSound(o');
    LegalExtension(o, o');
  }

  /**
   * What was submitted with a limit and a stop triggers by those two numbers in every later state, for as long as
   * its row exists: STOP_LIMIT orders at the stop or beyond, the limit leg of a pair at the limit or better.
   */
  lemma TriggersStayAsSubmitted(events: seq<Event>, k: nat, mark: real)
    requires AllAdmissible(events) && k < |events| && (events[k].SubmitStopLimit? || events[k].SubmitOco?)
    requires events[k].id !in Run(events[..k]).orders
    requires events[k].SubmitOco? ==> events[k].stopId !in Run(events[..k]).orders
    ensures var e, orders := events[k], Run(events).orders;
            var stopHit := if e.terms.side == BUY then mark >= e.stop else mark <= e.stop;
            var limitHit := if e.terms.side == BUY then mark <= e.limit else mark >= e.limit;
            && e.id in orders
            && (e.SubmitStopLimit? ==> (IsTriggered(orders[e.id], mark) <==> stopHit))
            && (e.SubmitOco? ==> (IsTriggered(orders[e.id], mark) <==> limitHit))
            && (e.SubmitOco? ==> e.stopId in orders && (IsTriggered(orders[e.stopId], mark) <==> stopHit))
  {
    hide Run, IsTriggered, Evolves;
    var e := events[k];
    var w := Run(events[..k + 1]);
    RunStep(events, k);
    SubmittedRows(Run(events[..k]), e);
    SubmittedTriggers(e.terms, e.limit, e.stop, e.id, mark);
    StaysTriggered(events, k + 1, e.id, mark);
    if e.SubmitOco? { StaysTriggered(events, k + 1, e.stopId, mark); }
  }

  lemma RunStep(events: seq<Event>, k: nat)
    requires AllAdmissible(events) && k < |events|
    ensures Run(events[..k + 1]) == Apply(Run(events[..k]), events[k])
  {
    assert events[..k + 1][..k] == events[..k];
  }

  lemma SubmittedRows(w: World, e: Event)
    requires Sound(w) && Admissible(e) && (e.SubmitStopLimit? || e.SubmitOco?) && e.id !in w.orders
    requires e.SubmitOco? ==> e.stopId !in w.orders
    ensures var orders := Apply(w, e).orders;
            && (e.SubmitStopLimit? ==> orders == w.orders[e.id := ArmedStopLimit(e.terms, e.limit, e.stop)])
            && (e.SubmitOco? ==>
                  orders == w.orders[e.id := OcoLimitLeg(e.terms, e.limit, e.id)]
                                    [e.stopId := OcoStopLeg(e.terms, e.stop, e.id)])
  {}

  lemma StaysTriggered(events: seq<Event>, k: nat, id: int, mark: real)
    requires AllAdmissible(events) && k <= |events| && id in Run(events[..k]).orders
    ensures id in Run(events).orders
    ensures IsTriggered(Run(events).orders[id], mark) <==> IsTriggered(Run(events[..k]).orders[id], mark)
  {
    hide Run;
    RunExtends(events, k, id);
    TriggerIsStable(Run(events[..k]).orders[id], Run(events).orders[id], mark);
  }

  /** An instant submission in one step: what the order, its Fill row and the fills table show of the answer. */
  lemma InstantSubmission(w: World, e: Event)
    requires Sound(w) && Admissible(e) && e.SubmitInstant? && e.id !in w.orders
    ensures var w', t, r := Apply(w, e), e.terms, e.result;
            && e.id in w'.orders && w'.orders[e.id].price == e.price && w'.orders[e.id].terms == t
            && (r.Raised? ==> w'.log == w.log && w'.orders[e.id].status == Some(REJECTED))
            && (r.Returned? && !r.filled ==> w'.log == w.log && w'.orders[e.id].status == Some(SUBMITTED))
            && (r.Returned? && !r.filled ==> w'.orders[e.id].brokerId == r.brokerId)
            && (r.Returned? && r.filled ==>
                  var q, p := Or(r.filledQty, t.qty), Or(r.avgPrice, Or(e.price, 0.0));
                  && w'.log == w.log + [Execution(e.id, t.key, Fill(t.side, q, p, Value(q, p) * 0.001))]
                  && w'.orders[e.id].status == Some(FILLED) && w'.orders[e.id].filledQty == q)
  {
    hide Value, NetAll;
  }

  /** The lag table is the reconciliation's alone: a pass leaves its own order's entry, no step touches another. */
  lemma OnlyPassesTouchLags(w: World, e: Event, id: int)
    requires Sound(w) && Admissible(e)
    ensures !(e.AlpacaSync? && e.id == id) ==> LagOf(Apply(w, e).lags, id) == LagOf(w.lags, id)
    ensures e.AlpacaSync? && e.id == id && id in w.orders && w.orders[id].brokerId.Some? ==>
      LagOf(Apply(w, e).lags, id) == Alpaca.Sync(w.orders[id], LagOf(w.lags, id), e.pass, e.grace).lag
  {
    hide Value, NetAll, RecordAll, Alpaca.Sync, Broker.Sync, Algo.Slice, Submitted;
  }

  // ---------------------------------------------------------------- no execution is counted twice

  /** What brokers report of the order never exceeds the total. */
  ghost predicate Truthful(w: World, e: Event, id: int, total: real)
  {
    match e
    case SubmitInstant(i, t, _, _, r) => i == id && r.Returned? && r.filled ==> Or(r.filledQty, t.qty) <= total
    case AlpacaSync(i, p, _) =>
      i == id ==> Alpaca.NonNegative(p.feed) && p.report.filled <= total && PrintQty(p.feed) <= total
    case BrokerSync(i, ob) => i == id && Broker.Known(ob) ==> ob.view.value.filled <= total
    case Trigger(i, _, r) =>
      i == id && id in w.orders && r.Returned? && r.filled ==> Or(r.filledQty, w.orders[id].terms.qty) <= total
    case _ => true
  }

  /** Truthful at every step of the run. */
  ghost predicate TruthfulRun(events: seq<Event>, id: int, total: real)
    requires AllAdmissible(events)
  {
    events == [] ||
    var init, e := events[..|events| - 1], events[|events| - 1];
    TruthfulRun(init, id, total) && Truthful(Run(init), e, id, total)
  }

  function FilledQty(w: World, id: int): real { if id in w.orders then w.orders[id].filledQty else 0.0 }

  /** The slice that a step books on the order. */
  function Sliced(w: World, e: Event, id: int): real
  {
    if e.SendSlice? && e.id == id && id in w.orders && Algorithmic(w.orders[id].terms.orderType) &&
       Open(w.orders[id].status) && e.result.Returned?
    then e.size else 0.0
  }

  /** The planned sizes of the slices that a run books on the order; zero for an order that is not algorithmic. */
  ghost function SlicedQty(events: seq<Event>, id: int): real
    requires AllAdmissible(events)
  {
    if events == [] then 0.0
    else
      var init, e := events[..|events| - 1], events[|events| - 1];
      SlicedQty(init, id) + Sliced(Run(init), e, id)
  }

  lemma SyncFills(w: World, e: Event, id: int, total: real, bound: real)
    requires Sound(w) && Admissible(e) && Truthful(w, e, id, total) && (e.AlpacaSync? || e.BrokerSync?)
    requires FilledQty(w, id) <= bound && total <= bound
    ensures FilledQty(w, id) <= FilledQty(Apply(w, e), id) <= bound
  {
    hide Value, NetAll, RecordAll, Alpaca.Sync, Broker.FillPrice;
    if e.id in w.orders && w.orders[e.id].brokerId.Some? {
      var o := w.orders[e.id];
      if e.AlpacaSync? {
        AlpacaSound(o, LagOf(w.lags, e.id), e.pass, e.grace);
        if e.id == id { Alpaca.NeverOverfills(o, LagOf(w.lags, e.id), e.pass, e.grace, bound); }
      } else {
        BrokerSound(o, e.ob);
      }
    }
  }

  lemma SentFills(w: World, e: Event, id: int, total: real, bound: real)
    requires Sound(w) && Admissible(e) && Truthful(w, e, id, total) && (e.SubmitInstant? || e.Trigger? || e.SendSlice?)
    requires 0.0 <= FilledQty(w, id) <= bound && total <= bound
    ensures FilledQty(w, id) <= FilledQty(Apply(w, e), id) <= bound + Sliced(w, e, id)
  {
    hide Value, NetAll;
  }

  lemma OtherFills(w: World, e: Event, id: int)
    requires Sound(w) && Admissible(e)
    requires !(e.SubmitInstant? || e.AlpacaSync? || e.BrokerSync? || e.SendSlice? || e.Trigger?)
    ensures FilledQty(Apply(w, e), id) == FilledQty(w, id)
  {
    hide Value, MarkRows, Cancel, CancelLeg, CancelsPair, RowSound, RowsOk;
    if id in w.orders {
      if e.CancelSiblings? { CancelSameFills(w.orders[id], e.group); }
      if e.UserCancel? && e.id in w.orders { CancellingSameFills(w, e.id, id); }
    }
  }

  lemma CancellingSameFills(w: World, cancelled: int, id: int)
    requires cancelled in w.orders && id in w.orders
    ensures id in Cancelling(w, cancelled).orders && FilledQty(Cancelling(w, cancelled), id) == FilledQty(w, id)
  {
    hide Cancel, CancelLeg;
    var o := w.orders[cancelled];
    CancelSameFills(w.orders[id], if CancelsPair(o) then o.oco.value.group else 0);
  }

  lemma StepFills(w: World, e: Event, id: int, total: real, bound: real)
    requires Sound(w) && Admissible(e) && Truthful(w, e, id, total)
    requires 0.0 <= FilledQty(w, id) <= bound && total <= bound
    ensures FilledQty(w, id) <= FilledQty(Apply(w, e), id) <= bound + Sliced(w, e, id) && 0.0 <= Sliced(w, e, id)
  {
    hide Apply, Truthful, FilledQty;
    if e.AlpacaSync? || e.BrokerSync? {
      SyncFills(w, e, id, total, bound);
    } else if e.SubmitInstant? || e.Trigger? || e.SendSlice? {
      SentFills(w, e, id, total, bound);
    } else {
      OtherFills(w, e, id);
    }
  }

  /**
   * No execution is counted twice, in any run of the ledger and for every order: while no report exceeds a total,
   * filled_qty only grows and never passes that total plus the planned sizes of the slices booked on the order,
   * whatever syncs, cancels and other orders do in between.
   */
  lemma {:induction false} ExecutionsCountedOnce(events: seq<Event>, k: nat, id: int, total: real)
    requires AllAdmissible(events) && TruthfulRun(events, id, total) && k <= |events| && 0.0 <= total
    ensures 0.0 <= SlicedQty(events, id)
    ensures 0.0 <= FilledQty(Run(events[..k]), id) <= FilledQty(Run(events), id) <= total + SlicedQty(events, id)
  {
    hide Apply, Truthful, Sliced;
    if |events| > 0 {
      var init := events[..|events| - 1];
      if k == |events| {
        assert events[..k] == events && init[..k - 1] == init;
        ExecutionsCountedOnce(init, k - 1, id, total);
      } else {
        assert init[..k] == events[..k];
        ExecutionsCountedOnce(init, k, id, total);
      }
      StepFills(Run(init), events[|events| - 1], id, total, total + SlicedQty(init, id));
    }
  }

  /** An order that is not algorithmic has no slices booked on it, so its total bounds it. */
  lemma {:induction false} OnlyAlgorithmicIsSliced(events: seq<Event>, id: int)
    requires AllAdmissible(events)
    requires id in Run(events).orders ==> !Algorithmic(Run(events).orders[id].terms.orderType)
    ensures SlicedQty(events, id) == 0.0
  {
    hide Apply;
    if events != [] {
      var init, e := events[..|events| - 1], events[|events| - 1];
      if id in Run(init).orders { StepEvolves(Run(init), e, id); }
      OnlyAlgorithmicIsSliced(init, id);
    }
  }

  // ---------------------------------------------------------------- one submission per conditional order

  function Submits(w: World, id: int): nat { if id in w.submits then w.submits[id] else 0 }

  /** The step fires the armed order, and its adapter neither raises nor fills nor gives an id. */
  predicate FiresIdless(w: World, e: Event, id: int)
  {
    && e.Trigger? && e.id == id && id in w.orders && Armed(w.orders[id])
    && e.result.Returned? && !e.result.filled && e.result.brokerId.None?
  }

  ghost function IdlessFirings(events: seq<Event>, id: int): nat
    requires AllAdmissible(events)
  {
    if events == [] then 0
    else
      var init, e := events[..|events| - 1], events[|events| - 1];
      IdlessFirings(init, id) + if FiresIdless(Run(init), e, id) then 1 else 0
  }

  /** Firing counts one submission; nothing else counts any on an existing order. */
  lemma StepSubmits(w: World, e: Event, id: int)
    requires Sound(w) && Admissible(e)
    ensures id in w.orders ==>
      Submits(Apply(w, e), id) == Submits(w, id) + (if e.Trigger? && e.id == id && Armed(w.orders[id]) then 1 else 0)
    ensures id !in w.orders && !e.SubmitInstant? ==> Submits(Apply(w, e), id) == Submits(w, id)
    ensures id !in Apply(w, e).orders ==> id !in w.orders && Submits(Apply(w, e), id) == Submits(w, id)
  {
    hide Value, NetAll, RecordAll, Alpaca.Sync, Broker.Sync, Algo.Slice, Submitted;
    if id in w.orders { StepEvolves(w, e, id); }
  }

  /** What is known of a conditional order after some firings without an id. */
  ghost predicate SubmittedWith(w: World, id: int, idless: nat)
  {
    && (id in w.orders && Conditional(w.orders[id].terms.orderType) ==>
          && Submits(w, id) <= idless + 1
          && (Armed(w.orders[id]) ==> Submits(w, id) == idless && w.orders[id].filledQty == 0.0))
    && (id !in w.orders ==> Submits(w, id) == 0 && idless == 0)
  }

  /** A step leaves the order armed exactly when it was and was not fired, or was fired without an answer. */
  lemma FiredOrArmed(w: World, e: Event, id: int)
    requires Sound(w) && Admissible(e) && id in w.orders && id in Apply(w, e).orders
    ensures Armed(Apply(w, e).orders[id]) ==>
      Armed(w.orders[id]) && (e.Trigger? && e.id == id ==> FiresIdless(w, e, id))
  {
    hide Value, NetAll, RecordAll, Alpaca.Sync, Broker.Sync, Algo.Slice;
    StepEvolves(w, e, id);
    if e.Trigger? && e.id == id && Armed(w.orders[id]) { RefiresExactlyWithoutId(w.orders[id], e.mark, e.result); }
  }

  lemma StepSubmittedWith(w: World, e: Event, id: int, idless: nat)
    requires Sound(w) && Admissible(e) && SubmittedWith(w, id, idless)
    ensures SubmittedWith(Apply(w, e), id, idless + if FiresIdless(w, e, id) then 1 else 0)
  {
    hide Apply;
    var w' := Apply(w, e);
    StepSubmits(w, e, id);
    if id in w'.orders {
      assert RowSound(w'.orders[id]);
      if id in w.orders {
        StepEvolves(w, e, id);
        FiredOrArmed(w, e, id);
      } else {
        NewRows(w, e, id);
      }
    }
  }

  lemma NewRows(w: World, e: Event, id: int)
    requires Sound(w) && Admissible(e) && id !in w.orders && id in Apply(w, e).orders
    ensures e.SubmitInstant? ==> !Conditional(Apply(w, e).orders[id].terms.orderType)
  {}

  /**
   * In every run a conditional order is sent to its broker at most once more than its own firings that were
   * neither filled, rejected nor given an id; while armed it was sent exactly that often, with nothing filled.
   */
  lemma {:induction false} SubmissionsCounted(events: seq<Event>, id: int)
    requires AllAdmissible(events)
    ensures SubmittedWith(Run(events), id, IdlessFirings(events, id))
  {
    hide Apply, FiresIdless, SubmittedWith;
    if events == [] {
      NothingSubmitted(id);
    } else {
      var init, e := events[..|events| - 1], events[|events| - 1];
      SubmissionsCounted(init, id);
      StepSubmittedWith(Run(init), e, id, IdlessFirings(init, id));
    }
  }

  lemma NothingSubmitted(id: int)
    ensures SubmittedWith(EMPTY_WORLD, id, 0)
  {}

  predicate Answered(r: AdapterResult) { r.Raised? || r.filled || r.brokerId.Some? }

  /** The adapter answers the order's own triggers: unless it raises or fills, it gives an id. */
  ghost predicate AnswersTriggers(events: seq<Event>, id: int)
  {
    forall i :: 0 <= i < |events| && events[i].Trigger? && events[i].id == id ==> Answered(events[i].result)
  }

  lemma {:induction false} AnsweredNeverIdless(events: seq<Event>, id: int)
    requires AllAdmissible(events) && AnswersTriggers(events, id)
    ensures IdlessFirings(events, id) == 0
  {
    hide Run;
    if events != [] { AnsweredNeverIdless(events[..|events| - 1], id); }
  }

  /** An order whose own triggers are answered is sent to its broker at most once, and not at all while armed. */
  lemma ConditionalsSubmittedOnce(events: seq<Event>, id: int)
    requires AllAdmissible(events) && AnswersTriggers(events, id)
    requires id in Run(events).orders && Conditional(Run(events).orders[id].terms.orderType)
    ensures Submits(Run(events), id) <= 1
    ensures Armed(Run(events).orders[id]) ==> Submits(Run(events), id) == 0 && Run(events).orders[id].filledQty == 0.0
  {
    hide Run;
    SubmissionsCounted(events, id);
    AnsweredNeverIdless(events, id);
  }

  // ---------------------------------------------------------------- the open-order cap

  predicate OpenForRisk(o: OrderRow) { o.status in {Some(NEW), Some(SUBMITTED), Some(PARTIAL)} }

  function OpenOrders(orders: map<int, OrderRow>, user: int): set<int>
  {
    set id | id in orders && orders[id].terms.key.user == user && OpenForRisk(orders[id])
  }

  predicate Submission(e: Event) { e.SubmitInstant? || e.SubmitAlgo? || e.SubmitStopLimit? || e.SubmitOco? }

  /** Every submission passed the risk gate's open-order check against the state it was applied to. */
  ghost predicate Gated(events: seq<Event>, cap: nat)
    requires AllAdmissible(events)
  {
    events == [] ||
    var init, e := events[..|events| - 1], events[|events| - 1];
    && Gated(init, cap)
    && (Submission(e) ==> |OpenOrders(Run(init).orders, e.terms.key.user)| < cap)
  }

  lemma SubsetSize(a: set<int>, b: set<int>)
    requires a <= b
    ensures |a| <= |b|
  {
    assert b == a + (b - a);
  }

  /** The rows a step may create for a user: none, one, or an OCO pair. */
  function CreatedBy(e: Event, user: int): set<int>
  {
    match e
    case SubmitInstant(id, t, _, _, _) => if t.key.user == user then {id} else {}
    case SubmitAlgo(id, t, _) => if t.key.user == user then {id} else {}
    case SubmitStopLimit(id, t, _, _) => if t.key.user == user then {id} else {}
    case SubmitOco(id, stopId, t, _, _) => if t.key.user == user then {id, stopId} else {}
    case _ => {}
  }

  lemma StepOpens(w: World, e: Event, user: int)
    requires Sound(w) && Admissible(e)
    ensures OpenOrders(Apply(w, e).orders, user) <= OpenOrders(w.orders, user) + CreatedBy(e, user)
  {
    hide Apply;
    var now, then' := OpenOrders(w.orders, user), OpenOrders(Apply(w, e).orders, user);
    forall id | id in then' ensures id in now + CreatedBy(e, user) {
      if id in w.orders {
        StepEvolves(w, e, id);
        assert RowSound(w.orders[id]);
      } else {
        CreatedRows(w, e, id);
      }
    }
  }

  lemma CreatedRows(w: World, e: Event, id: int)
    requires Sound(w) && Admissible(e) && id !in w.orders && id in Apply(w, e).orders
    ensures Submission(e) && Apply(w, e).orders[id].terms == e.terms && (id == e.id || (e.SubmitOco? && id == e.stopId))
  {}

  /** Under serialized submissions a user never has more than one open order above the cap. */
  lemma {:induction false} OpenOrdersBounded(events: seq<Event>, cap: nat, user: int)
    requires AllAdmissible(events) && Gated(events, cap)
    ensures |OpenOrders(Run(events).orders, user)| <= cap + 1
  {
    if events != [] {
      var init, e := events[..|events| - 1], events[|events| - 1];
      OpenOrdersBounded(init, cap, user);
      var now := OpenOrders(Run(init).orders, user);
      StepOpens(Run(init), e, user);
      SubsetSize(OpenOrders(Run(events).orders, user), now + CreatedBy(e, user));
      if CreatedBy(e, user) == {} { assert now + CreatedBy(e, user) == now; }
    }
  }

  ghost function NotTerminal(orders: map<int, OrderRow>, user: int): set<int>
    requires forall id :: id in orders ==> orders[id].status.Some?
  {
    set id | id in orders && orders[id].terms.key.user == user && !Terminal(orders[id].status.value)
  }

  lemma OpenMeansNotTerminal(w: World, user: int)
    requires Sound(w)
    ensures (forall id :: id in w.orders ==> w.orders[id].status.Some?)
    ensures OpenOrders(w.orders, user) == NotTerminal(w.orders, user)
  {
    forall id | id in w.orders ensures OpenForRisk(w.orders[id]) <==> !Terminal(w.orders[id].status.value) {
      assert RowSound(w.orders[id]);
    }
  }

  /** What the gate counts is every order of the user that is not terminal. */
  lemma UnfinishedOrdersBounded(events: seq<Event>, cap: nat, user: int)
    requires AllAdmissible(events) && Gated(events, cap)
    ensures forall id :: id in Run(events).orders ==> Run(events).orders[id].status.Some?
    ensures |NotTerminal(Run(events).orders, user)| <= cap + 1
  {
    hide Run;
    OpenOrdersBounded(events, cap, user);
    OpenMeansNotTerminal(Run(events), user);
  }
}
