// The order row, its state machine and the executions recorded against it
// (app/models/all_models.py).
module Orders {
  import opened Money

  // ---------------------------------------------------------------- status machine

  datatype Status = NEW | SUBMITTED | PARTIAL | FILLED | CANCELLED | REJECTED | EXPIRED

  // One entry of `state_history`; reason and timestamp carry no state.
  datatype Entry = Entry(from: Option<Status>, to: Status)

  function Successors(from: Option<Status>): set<Status>
  {
    match from
    case None => {NEW, SUBMITTED, REJECTED}
    case Some(NEW) => {SUBMITTED, CANCELLED, REJECTED, EXPIRED}
    case Some(SUBMITTED) => {SUBMITTED, PARTIAL, FILLED, CANCELLED, REJECTED, EXPIRED}
    case Some(PARTIAL) => {PARTIAL, FILLED, CANCELLED, REJECTED, EXPIRED}
    case Some(_) => {}
  }

  predicate Allowed(from: Option<Status>, to: Status) { to in Successors(from) }

  predicate Terminal(s: Status) { s in {FILLED, CANCELLED, REJECTED, EXPIRED} }

  // The statuses every asynchronous writer re-checks under the row lock.
  predicate Open(s: Option<Status>) { s == Some(SUBMITTED) || s == Some(PARTIAL) }

  // Progress of an order; the pre-insert state ranks lowest.
  function Rank(s: Option<Status>): nat
  {
    match s
    case None => 0
    case Some(NEW) => 1
    case Some(SUBMITTED) => 2
    case Some(PARTIAL) => 3
    case Some(_) => 4
  }

  /** Who may be entered from where: the transition table read by its targets. */
  lemma AllowedByTarget(from: Option<Status>, to: Status)
    ensures to in {FILLED, PARTIAL} ==> (Allowed(from, to) <==> Open(from))
    ensures to in {CANCELLED, EXPIRED} ==> (Allowed(from, to) <==> from.Some? && !Terminal(from.value))
    ensures to == REJECTED ==> (Allowed(from, to) <==> from.None? || !Terminal(from.value))
    ensures to == SUBMITTED ==> (Allowed(from, to) <==> from in {None, Some(NEW), Some(SUBMITTED)})
    ensures to == NEW ==> (Allowed(from, to) <==> from.None?)
  {}

  // ---------------------------------------------------------------- rows

  datatype Side = BUY | SELL

  datatype OrderType = MARKET | LIMIT | STOP | STOP_LIMIT | OCO | TWAP | VWAP | ICEBERG

  predicate Algorithmic(t: OrderType) { t in {TWAP, VWAP, ICEBERG} }

  predicate Conditional(t: OrderType) { t in {STOP_LIMIT, OrderType.OCO} }

  // What positions are netted by.
  datatype Key = Key(user: int, symbol: int, broker: int)

  // The part of an order that never changes after it is created.
  datatype Terms = Terms(key: Key, side: Side, orderType: OrderType, qty: real)

  datatype Leg = LimitLeg | StopLeg

  datatype OcoLink = OcoLink(group: int, leg: Leg)

  datatype OrderRow = OrderRow(
    terms: Terms,
    price: Option<real>,
    stopPrice: Option<real>,
    oco: Option<OcoLink>,
    brokerId: Option<int>,
    status: Option<Status>,
    filledQty: real,
    avgFill: Option<real>,
    history: seq<Entry>)

  // A Fill row of one order.
  datatype Fill = Fill(side: Side, qty: real, price: real, commission: real)

  // A bare execution, before it is booked.
  datatype Print = Print(qty: real, price: real)

  /** What one locked transaction does to an order: its new row and the Fill rows it writes. */
  datatype Posting = Posting(row: OrderRow, fills: seq<Fill>)

  function FreshRow(terms: Terms, price: Option<real>, stopPrice: Option<real>, oco: Option<OcoLink>): OrderRow
  {
    OrderRow(terms, price, stopPrice, oco, None, None, 0.0, None, [])
  }

  function Move(o: OrderRow, to: Status): OrderRow
    requires Allowed(o.status, to)
  {
    o.(status := Some(to), history := o.history + [Entry(o.status, to)])
  }

  /** Chained, legal, and ending in the current status. */
  ghost predicate LegalHistory(o: OrderRow)
  {
    && (forall i :: 0 <= i < |o.history| ==> Allowed(o.history[i].from, o.history[i].to))
    && (forall i :: 0 < i < |o.history| ==> o.history[i].from == Some(o.history[i - 1].to))
    && (|o.history| > 0 ==> o.history[0].from == None)
    && o.status == (if |o.history| == 0 then None else Some(o.history[|o.history| - 1].to))
  }

  lemma MoveKeepsHistoryLegal(o: OrderRow, to: Status)
    requires LegalHistory(o) && Allowed(o.status, to)
    ensures LegalHistory(Move(o, to))
  {
    var h := Move(o, to).history;
    assert forall i :: 0 <= i < |o.history| ==> h[i] == o.history[i];
  }

  /** Along a legal history the rank never falls, and nothing follows a terminal entry. */
  lemma {:induction false} LegalPath(o: OrderRow, i: nat, j: nat)
    requires LegalHistory(o) && i <= j < |o.history|
    ensures Rank(o.history[i].from) <= Rank(Some(o.history[i].to)) <= Rank(Some(o.history[j].to)) <= Rank(o.status)
    ensures Terminal(o.history[i].to) ==> i == j && o.status == Some(o.history[i].to)
    decreases |o.history| - i
  {
    if i < j {
      assert o.history[i + 1].from == Some(o.history[i].to);
      LegalPath(o, i + 1, j);
    } else if j + 1 < |o.history| {
      assert o.history[j + 1].from == Some(o.history[j].to);
      LegalPath(o, j + 1, |o.history| - 1);
    }
  }

  // ---------------------------------------------------------------- recorded executions

  function SumQty(fs: seq<Fill>): real
  {
    if fs == [] then 0.0 else SumQty(fs[..|fs| - 1]) + fs[|fs| - 1].qty
  }

  function SumNotional(fs: seq<Fill>): real
  {
    if fs == [] then 0.0 else SumNotional(fs[..|fs| - 1]) + Value(fs[|fs| - 1].qty, fs[|fs| - 1].price)
  }

  lemma {:induction false} SumsConcat(a: seq<Fill>, b: seq<Fill>)
    ensures SumQty(a + b) == SumQty(a) + SumQty(b)
    ensures SumNotional(a + b) == SumNotional(a) + SumNotional(b)
  {
    hide Value;
    if b == [] {
      assert a + b == a;
    } else {
      var init := b[..|b| - 1];
      assert (a + b)[..|a + b| - 1] == a + init;
      SumsConcat(a, init);
    }
  }

  function AvgOrZero(o: OrderRow): real { Or(o.avgFill, 0.0) }

  function Notional(o: OrderRow): real { Value(o.filledQty, AvgOrZero(o)) }

  /** The order's own columns agree with its Fill rows. */
  ghost predicate Agrees(o: OrderRow, fs: seq<Fill>)
  {
    o.filledQty == SumQty(fs) && Notional(o) == SumNotional(fs)
  }

  function Booked(o: OrderRow, x: Print): Fill
  {
    Fill(o.terms.side, x.qty, x.price, Value(x.qty, x.price) * COMMISSION_RATE)
  }

  /** One execution recorded on the order: quantity added, average re-weighted. */
  function Record(o: OrderRow, x: Print): OrderRow
    requires o.filledQty + x.qty != 0.0
  {
    o.(filledQty := o.filledQty + x.qty,
       avgFill := Some((Notional(o) + Value(x.qty, x.price)) / (o.filledQty + x.qty)))
  }

  ghost predicate Positive(xs: seq<Print>) { forall i :: 0 <= i < |xs| ==> 0.0 < xs[i].qty }

  function RecordAll(o: OrderRow, xs: seq<Print>): (p: Posting)
    requires Positive(xs) && 0.0 <= o.filledQty
    ensures o.filledQty <= p.row.filledQty
    ensures |p.fills| == |xs|
  {
    if xs == [] then Posting(o, [])
    else
      var p := RecordAll(o, xs[..|xs| - 1]);
      var x := xs[|xs| - 1];
      Posting(Record(p.row, x), p.fills + [Booked(o, x)])
  }

  /** A posting adds to the order's columns exactly the Fill rows it writes. */
  ghost predicate Keeps(o: OrderRow, p: Posting)
  {
    && p.row.terms == o.terms
    && p.row.filledQty == o.filledQty + SumQty(p.fills)
    && Notional(p.row) == Notional(o) + SumNotional(p.fills)
    && forall i :: 0 <= i < |p.fills| ==> BookedFor(o, p.fills[i])
  }

  ghost predicate BookedFor(o: OrderRow, f: Fill)
  {
    f.side == o.terms.side && 0.0 < f.qty && f.commission == Value(f.qty, f.price) * COMMISSION_RATE
  }

  lemma KeepsAgreement(o: OrderRow, p: Posting, fs: seq<Fill>)
    requires Agrees(o, fs) && Keeps(o, p)
    ensures Agrees(p.row, fs + p.fills)
  {
    hide Value;
    SumsConcat(fs, p.fills);
  }

  lemma RecordNotional(o: OrderRow, x: Print)
    requires o.filledQty + x.qty != 0.0
    ensures Notional(Record(o, x)) == Notional(o) + Value(x.qty, x.price)
  {
    hide Value;
    var n := Notional(o) + Value(x.qty, x.price);
    var q := o.filledQty + x.qty;
    ValueOfQuotient(n, q);
    assert AvgOrZero(Record(o, x)) == n / q;
  }

  /** Postings compose: what the second keeps relative to the first, both keep together. */
  lemma KeepsThenOne(o: OrderRow, p: Posting, q: Posting, f: Fill)
    requires Keeps(o, p) && BookedFor(o, f)
    requires q.fills == p.fills + [f] && q.row.terms == p.row.terms
    requires q.row.filledQty == p.row.filledQty + f.qty
    requires Notional(q.row) == Notional(p.row) + Value(f.qty, f.price)
    ensures Keeps(o, q)
  {
    hide Value;
    SumsConcat(p.fills, [f]);
    SumsOfOne(f);
  }

  lemma KeepsCompose(o: OrderRow, p: Posting, q: Posting)
    requires Keeps(o, p) && Keeps(p.row, q)
    ensures Keeps(o, Posting(q.row, p.fills + q.fills))
  {
    hide Value;
    SumsConcat(p.fills, q.fills);
  }

  lemma {:induction false} RecordAllKeeps(o: OrderRow, xs: seq<Print>)
    requires Positive(xs) && 0.0 <= o.filledQty
    ensures Keeps(o, RecordAll(o, xs))
  {
    hide Value;
    if xs != [] {
      var init, x := xs[..|xs| - 1], xs[|xs| - 1];
      RecordAllKeeps(o, init);
      RecordNotional(RecordAll(o, init).row, x);
      KeepsThenOne(o, RecordAll(o, init), RecordAll(o, xs), Booked(o, x));
    }
  }

  /** Recording executions touches the two fill columns and nothing else. */
  lemma {:induction false} RecordAllFrame(o: OrderRow, xs: seq<Print>)
    requires Positive(xs) && 0.0 <= o.filledQty
    ensures var r := RecordAll(o, xs).row; r == o.(filledQty := r.filledQty, avgFill := r.avgFill)
  {
    if xs != [] {
      RecordAllFrame(o, xs[..|xs| - 1]);
    }
  }

  function PrintQty(xs: seq<Print>): real
  {
    if xs == [] then 0.0 else PrintQty(xs[..|xs| - 1]) + xs[|xs| - 1].qty
  }

  function PrintNotional(xs: seq<Print>): real
  {
    if xs == [] then 0.0 else PrintNotional(xs[..|xs| - 1]) + Value(xs[|xs| - 1].qty, xs[|xs| - 1].price)
  }

  lemma PrintSumsAppend(xs: seq<Print>, x: Print)
    ensures PrintQty(xs + [x]) == PrintQty(xs) + x.qty
    ensures PrintNotional(xs + [x]) == PrintNotional(xs) + Value(x.qty, x.price)
  {
    assert (xs + [x])[..|xs|] == xs;
  }

  lemma PrintQtyAppend(xs: seq<Print>, x: Print)
    ensures PrintQty(xs + [x]) == PrintQty(xs) + x.qty
  {
    assert (xs + [x])[..|xs|] == xs;
  }

  lemma PrintSumsSplit(xs: seq<Print>)
    requires xs != []
    ensures var init, x := xs[..|xs| - 1], xs[|xs| - 1];
            && PrintQty(xs) == PrintQty(init) + x.qty
            && PrintNotional(xs) == PrintNotional(init) + Value(x.qty, x.price)
  {}

  /** Recording executions moves the order's quantity and notional by exactly theirs. */
  lemma {:induction false} RecordAllSums(o: OrderRow, xs: seq<Print>)
    requires Positive(xs) && 0.0 <= o.filledQty
    ensures RecordAll(o, xs).row.filledQty == o.filledQty + PrintQty(xs)
    ensures Notional(RecordAll(o, xs).row) == Notional(o) + PrintNotional(xs)
  {
    hide Value;
    if xs != [] {
      var init, x := xs[..|xs| - 1], xs[|xs| - 1];
      RecordAllSums(o, init);
      PrintSumsSplit(xs);
      var r := RecordAll(o, init).row;
      assert RecordAll(o, xs).row == Record(r, x);
      RecordNotional(r, x);
    }
  }

  lemma SumsOfOne(f: Fill)
    ensures SumQty([f]) == f.qty && SumNotional([f]) == Value(f.qty, f.price)
  {
    assert [f][..0] == [];
  }

  // ---------------------------------------------------------------- the mutable row

  class Order {
    const terms: Terms
    var price: Option<real>
    var stopPrice: Option<real>
    var oco: Option<OcoLink>
    var brokerId: Option<int>
    var status: Option<Status>
    var filledQty: real
    var avgFill: Option<real>
    var history: seq<Entry>
    var fills: seq<Fill>

    constructor (terms: Terms, price: Option<real>, stopPrice: Option<real>)
      ensures Row() == FreshRow(terms, price, stopPrice, None)
      ensures fills == []
    {
      this.terms := terms;
      this.price, this.stopPrice := price, stopPrice;
      oco, brokerId, status, filledQty, avgFill := None, None, None, 0.0, None;
      history, fills := [], [];
    }

    function Row(): OrderRow
      reads this
    {
      OrderRow(terms, price, stopPrice, oco, brokerId, status, filledQty, avgFill, history)
    }

    /** Raises (and changes nothing) exactly when the state machine forbids the move. */
    method Transition(to: Status) returns (raised: bool)
      modifies this`status, this`history
      ensures raised <==> !Allowed(old(status), to)
      ensures Row() == if raised then old(Row()) else Move(old(Row()), to)
    {
      if to !in Successors(status) {
        return true;
      }
      history := history + [Entry(status, to)];
      status := Some(to);
      return false;
    }
  }
}
