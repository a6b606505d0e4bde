// The whole ledger as a state machine: every writer of fills, every cancel and every revaluation is one
// atomic row-locked step, in any order; and what all reachable states keep.
module Ledger {
  import opened Money
  import opened Orders
  import opened Positions
  import opened OrderService
  import opened ConditionalOrders
  import Algo = ExecutionAlgo
  import Alpaca = AlpacaFillSync
  import Broker = BrokerFillSync

  // Order rows, the fills table, the positions table, Alpaca's in-memory lag entries, and (history
  // variable) how often each order was sent to its broker.
  datatype World = World(
    orders: map<int, OrderRow>,
    log: seq<Execution>,
    rows: seq<PosRow>,
    lags: map<int, real>,
    submits: map<int, nat>)

  datatype Event =
    | SubmitInstant(id: int, terms: Terms, price: Option<real>, stopPrice: Option<real>, result: AdapterResult)
    | SubmitAlgo(id: int, terms: Terms, price: Option<real>)
    | SubmitStopLimit(id: int, terms: Terms, limit: real, stop: real)
    | SubmitOco(id: int, stopId: int, terms: Terms, limit: real, stop: real)
    | AlpacaSync(id: int, pass: Alpaca.Pass, grace: real)
    | BrokerSync(id: int, ob: Broker.Observation)
    | SendSlice(id: int, size: real, result: AdapterResult)
    | Trigger(id: int, mark: real, result: AdapterResult)
    | UserCancel(id: int)
    | CancelSiblings(group: int, filledId: int)
    | Revalue(quotes: map<int, real>)

  const EMPTY_WORLD := World(map[], [], [], map[], map[])

  /** What request validation and the adapters guarantee. */
  predicate Admissible(e: Event)
  {
    match e
    case SubmitInstant(_, t, _, _, r) =>
      0.0 < t.qty && Sane(r) && !Algorithmic(t.orderType) && !Conditional(t.orderType)
    case SubmitAlgo(_, t, _) => 0.0 < t.qty && Algorithmic(t.orderType)
    case SubmitStopLimit(_, t, limit, stop) => 0.0 < t.qty && t.orderType == STOP_LIMIT && 0.0 < limit && 0.0 < stop
    case SubmitOco(id, stopId, t, limit, stop) =>
      id != stopId && 0.0 < t.qty && t.orderType == OrderType.OCO && 0.0 < limit && 0.0 < stop
    case SendSlice(_, size, _) => 0.0 < size
    case Trigger(_, _, r) => Sane(r)
    case _ => true
  }

  // ---------------------------------------------------------------- order-level invariant

  function FillsOf(log: seq<Execution>, id: int): seq<Fill>
  {
    if log == [] then []
    else
      var e := log[|log| - 1];
      FillsOf(log[..|log| - 1], id) + (if e.order == id then [e.fill] else [])
  }

  /** What each order row keeps on its own. */
  ghost predicate RowSound(o: OrderRow)
  {
    && 0.0 < o.terms.qty && 0.0 <= o.filledQty && o.status.Some? && o.status != Some(NEW)
    && LegalHistory(o)
    && (Armed(o) ==> o.filledQty == 0.0)
  }

  ghost predicate Sound(w: World)
  {
    && (forall id :: id in w.orders ==> RowSound(w.orders[id]))
    && RowsOk(w.rows)
  }

  /** The rows a posting may leave behind. */
  ghost predicate PostingSound(p: Posting) { RowSound(p.row) && PositiveFills(p.fills) }

  function Tagged(id: int, key: Key, fs: seq<Fill>): (es: seq<Execution>)
    ensures |es| == |fs| && forall i :: 0 <= i < |fs| ==> es[i] == Execution(id, key, fs[i])
  {
    seq(|fs|, i requires 0 <= i < |fs| => Execution(id, key, fs[i]))
  }

  /** Commit one posting: the order row, its Fill rows and the netted positions together. */
  function Post(w: World, id: int, p: Posting): (w': World)
    requires Sound(w) && PostingSound(p)
    ensures Sound(w')
  {
    var key := p.row.terms.key;
    w.(orders := w.orders[id := p.row], log := w.log + Tagged(id, key, p.fills), rows := NetAll(w.rows, key, p.fills))
  }

  /** Replace every row by what `CancelLeg` makes of it, except one. */
  function CancelGroup(orders: map<int, OrderRow>, group: int, except: int): map<int, OrderRow>
  {
    map id | id in orders :: if id == except then orders[id] else CancelLeg(orders[id], group)
  }

  // ---------------------------------------------------------------- one step

  function Bump(m: map<int, nat>, id: int): map<int, nat> { m[id := (if id in m then m[id] else 0) + 1] }

  function LagOf(lags: map<int, real>, id: int): Option<real> { if id in lags then Some(lags[id]) else None }

  function PutEntry(lags: map<int, real>, id: int, lag: Option<real>): map<int, real>
  {
    if lag.Some? then lags[id := lag.value] else lags - {id}
  }

  /** Add a new order row that nothing has filled yet. */
  function Allocate(w: World, id: int, o: OrderRow): World { w.(orders := w.orders[id := o]) }

  function Cancelling(w: World, id: int): World
    requires id in w.orders
  {
    var o := w.orders[id];
    var orders := w.orders[id := Cancel(o)];
    w.(orders := if CancelsPair(o) then CancelGroup(orders, o.oco.value.group, id) else orders)
  }

  /** Instant orders: allocated and sent to the broker in one transaction. */
  function InstantStep(w: World, id: int, t: Terms, price: Option<real>, stop: Option<real>,
      r: AdapterResult): (w': World)
    requires Sound(w) && 0.0 < t.qty && Sane(r)
    ensures Sound(w')
  {
    if id in w.orders then w
    else
      AllocatedSound(t, price, stop);
      SubmittedSound(Allocated(t, price, stop), r);
      Post(w, id, Submitted(Allocated(t, price, stop), r)).(submits := Bump(w.submits, id))
  }

  // Both sync loops pick their candidates by broker id, and the push handlers look orders up by it.
  function AlpacaStep(w: World, id: int, pass: Alpaca.Pass, grace: real): (w': World)
    requires Sound(w)
    ensures Sound(w')
  {
    if id !in w.orders || w.orders[id].brokerId.None? then w
    else
      var out := Alpaca.Sync(w.orders[id], LagOf(w.lags, id), pass, grace);
      AlpacaSound(w.orders[id], LagOf(w.lags, id), pass, grace);
      Post(w, id, out.posting).(lags := PutEntry(w.lags, id, out.lag))
  }

  function BrokerStep(w: World, id: int, ob: Broker.Observation): (w': World)
    requires Sound(w)
    ensures Sound(w')
  {
    if id !in w.orders || w.orders[id].brokerId.None? then w
    else
      BrokerSound(w.orders[id], ob);
      Post(w, id, Broker.Sync(w.orders[id], ob))
  }

  function SliceStep(w: World, id: int, size: real, r: AdapterResult): (w': World)
    requires Sound(w) && 0.0 < size
    ensures Sound(w')
  {
    if id !in w.orders || !Algorithmic(w.orders[id].terms.orderType) || !Open(w.orders[id].status) || r.Raised? then w
    else
      SliceSound(w.orders[id], size, r);
      Post(w, id, Algo.Slice(w.orders[id], size, r))
  }

  function TriggerStep(w: World, id: int, mark: real, r: AdapterResult): (w': World)
    requires Sound(w) && Sane(r)
    ensures Sound(w')
  {
    if id !in w.orders || !Armed(w.orders[id]) then w
    else
      FireSound(w.orders[id], mark, r);
      Post(w, id, Fire(w.orders[id], mark, r)).(submits := Bump(w.submits, id))
  }

  function OcoStep(w: World, id: int, stopId: int, t: Terms, limit: real, stop: real): (w': World)
    requires Sound(w) && 0.0 < t.qty
    ensures Sound(w')
  {
    LegsSound(t, limit, stop, id);
    if id in w.orders || stopId in w.orders then w
    else Allocate(Allocate(w, id, OcoLimitLeg(t, limit, id)), stopId, OcoStopLeg(t, stop, id))
  }

  function Apply(w: World, e: Event): (w': World)
    requires Sound(w) && Admissible(e)
    ensures Sound(w')
  {
    match e
    case SubmitInstant(id, t, price, stop, r) => InstantStep(w, id, t, price, stop, r)
    case SubmitAlgo(id, t, price) =>
      AllocatedSound(t, price, None);
      if id in w.orders then w else Allocate(w, id, Allocated(t, price, None))
    case SubmitStopLimit(id, t, limit, stop) =>
      StopLimitSound(t, limit, stop);
      if id in w.orders then w else Allocate(w, id, ArmedStopLimit(t, limit, stop))
    case SubmitOco(id, stopId, t, limit, stop) => OcoStep(w, id, stopId, t, limit, stop)
    case AlpacaSync(id, pass, grace) => AlpacaStep(w, id, pass, grace)
    case BrokerSync(id, ob) => BrokerStep(w, id, ob)
    case SendSlice(id, size, r) => SliceStep(w, id, size, r)
    case Trigger(id, mark, r) => TriggerStep(w, id, mark, r)
    case UserCancel(id) =>
      CancelSound(w);
      if id in w.orders then Cancelling(w, id) else w
    case CancelSiblings(group, filledId) =>
      CancelSound(w);
      w.(orders := CancelGroup(w.orders, group, filledId))
    case Revalue(quotes) =>
      MarkRowsOk(w.rows, quotes);
      w.(rows := MarkRows(w.rows, quotes))
  }

  lemma AllocatedSound(t: Terms, price: Option<real>, stop: Option<real>)
    requires 0.0 < t.qty
    ensures RowSound(Allocated(t, price, stop))
  {}

  lemma StopLimitSound(t: Terms, limit: real, stop: real)
    requires 0.0 < t.qty
    ensures RowSound(ArmedStopLimit(t, limit, stop))
  {}

  lemma LegsSound(t: Terms, limit: real, stop: real, group: int)
    requires 0.0 < t.qty
    ensures RowSound(OcoLimitLeg(t, limit, group)) && RowSound(OcoStopLeg(t, stop, group))
  {}

  lemma SubmittedSound(o: OrderRow, r: AdapterResult)
    requires RowSound(o) && o.status == Some(SUBMITTED) && o.filledQty == 0.0 && Sane(r)
    ensures PostingSound(Submitted(o, r))
  {
    MoveKeepsHistoryLegal(o, REJECTED);
    MoveKeepsHistoryLegal(o, FILLED);
    MoveKeepsHistoryLegal(o, SUBMITTED);
  }

  lemma FireSound(o: OrderRow, mark: real, r: AdapterResult)
    requires RowSound(o) && Armed(o) && Sane(r)
    ensures PostingSound(Fire(o, mark, r))
  {
    SubmittedSound(AtMark(o, mark), r);
  }

  lemma AlpacaSound(o: OrderRow, lag: Option<real>, pass: Alpaca.Pass, grace: real)
    requires RowSound(o) && o.brokerId.Some?
    ensures PostingSound(Alpaca.Sync(o, lag, pass, grace).posting)
  {
    hide Value, RecordAll, Alpaca.PlanPass, Alpaca.HasDelta;
    Alpaca.SyncKeeps(o, lag, pass, grace);
    var plan := Alpaca.PlanPass(o.filledQty, pass, lag, grace);
    RecordAllFrame(o, plan.execs);
    var exit := Alpaca.Exit(pass.report.status, Alpaca.HasDelta(o.filledQty, pass.report), plan.deferred > 0.0);
    if Open(o.status) && exit.Some? { MoveKeepsHistoryLegal(RecordAll(o, plan.execs).row, exit.value); }
  }

  lemma BrokerSound(o: OrderRow, ob: Broker.Observation)
    requires RowSound(o) && o.brokerId.Some?
    ensures PostingSound(Broker.Sync(o, ob))
  {
    Broker.SyncKeeps(o, ob);
    if Open(o.status) && Broker.Known(ob) {
      var v := ob.view.value;
      var exit := Broker.Exit(v.status, Broker.Records(o, v, ob.deal));
      if exit.Some? { MoveKeepsHistoryLegal(Broker.Recorded(o, v, ob.deal).row, exit.value); }
    }
  }

  lemma SliceSound(o: OrderRow, size: real, r: AdapterResult)
    requires RowSound(o) && Open(o.status) && Algorithmic(o.terms.orderType) && 0.0 < size && r.Returned?
    ensures PostingSound(Algo.Slice(o, size, r))
  {
    var x := Print(size, Or(r.avgPrice, Or(o.price, 0.0)));
    MoveKeepsHistoryLegal(Record(o, x), FILLED);
    MoveKeepsHistoryLegal(Record(o, x), PARTIAL);
  }

  lemma CancelSound(w: World)
    requires Sound(w)
    ensures forall id :: id in w.orders ==> RowSound(Cancel(w.orders[id]))
    ensures forall id, group :: id in w.orders ==> RowSound(CancelLeg(w.orders[id], group))
  {
    forall id | id in w.orders
      ensures Allowed(w.orders[id].status, CANCELLED) ==> RowSound(Move(w.orders[id], CANCELLED))
    {
      if Allowed(w.orders[id].status, CANCELLED) { MoveKeepsHistoryLegal(w.orders[id], CANCELLED); }
    }
  }

  // ---------------------------------------------------------------- runs

  ghost predicate AllAdmissible(events: seq<Event>) { forall i :: 0 <= i < |events| ==> Admissible(events[i]) }

  ghost function Run(events: seq<Event>): (w: World)
    requires AllAdmissible(events)
    ensures Sound(w)
  {
    if events == [] then EMPTY_WORLD else Apply(Run(events[..|events| - 1]), events[|events| - 1])
  }
}
