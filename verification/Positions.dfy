// Netting fills into position rows, revaluing them, and the equity snapshot
// (app/services/positions_service.py, app/services/position_marks.py).
module Positions {
  import opened Money
  import opened Orders

  // ---------------------------------------------------------------- rows

  datatype PosSide = LONG | SHORT

  // `mark` is the price the row was last valued at: a history variable of the model.
  datatype PosRow = PosRow(
    key: Key, side: PosSide, qty: real, avgCost: real,
    realized: real, unrealized: real, isOpen: bool, mark: real)

  /** P&L of `qty` entered at `avgCost` on `side`, at a price: (exit - entry) for longs, (entry - exit) for shorts. */
  function PnlAt(price: real, avgCost: real, qty: real, side: PosSide): real
  {
    Value(if side == LONG then qty else -qty, price - avgCost)
  }

  function SideFor(s: Side): PosSide { if s == BUY then LONG else SHORT }

  function Signed(r: PosRow): real { if r.side == LONG then r.qty else -r.qty }

  function SignedQty(f: Fill): real { if f.side == BUY then f.qty else -f.qty }

  /** Unrealized P&L of an open row at a price. */
  function Valuation(r: PosRow, price: real): real { Value(Signed(r), price - r.avgCost) }

  function Valued(r: PosRow, price: real): PosRow
  {
    r.(unrealized := PnlAt(price, r.avgCost, r.qty, r.side), mark := price)
  }

  function Opened(key: Key, f: Fill): PosRow
  {
    PosRow(key, SideFor(f.side), f.qty, f.price, -f.commission, 0.0, true, f.price)
  }

  /** The fill trades against the position far enough to leave less than the tolerance. */
  predicate Closes(r: PosRow, f: Fill)
  {
    SideFor(f.side) != r.side && Abs(r.qty - f.qty) < QTY_EPS
  }

  /** One fill netted into an open row: extend, close, reduce or flip. */
  function Netted(r: PosRow, f: Fill): PosRow
    requires 0.0 <= r.qty && 0.0 < f.qty
  {
    if SideFor(f.side) == r.side then
      var total := r.qty + f.qty;
      Valued(r.(qty := total, avgCost := (Value(r.qty, r.avgCost) + Value(f.qty, f.price)) / total,
                realized := r.realized - f.commission), f.price)
    else
      var exit := PnlAt(f.price, r.avgCost, Min(r.qty, f.qty), r.side);
      var left := r.(realized := r.realized - f.commission + exit);
      if Closes(r, f) then left.(qty := 0.0, isOpen := false, unrealized := 0.0)
      else if f.qty < r.qty then Valued(left.(qty := r.qty - f.qty), f.price)
      else Valued(left.(side := SideFor(f.side), qty := f.qty - r.qty, avgCost := f.price), f.price)
  }

  /** Index of the first open row of `key`, or the length of the table. */
  function OpenIndex(rows: seq<PosRow>, key: Key): (i: nat)
    ensures i <= |rows|
    ensures i < |rows| ==> rows[i].isOpen && rows[i].key == key
    ensures forall j :: 0 <= j < i ==> !(rows[j].isOpen && rows[j].key == key)
  {
    if rows == [] then 0
    else if rows[0].isOpen && rows[0].key == key then 0
    else 1 + OpenIndex(rows[1..], key)
  }

  ghost predicate OpenRowsPositive(rows: seq<PosRow>)
  {
    forall i :: 0 <= i < |rows| && rows[i].isOpen ==> 0.0 < rows[i].qty
  }

  function NetFill(rows: seq<PosRow>, key: Key, f: Fill): seq<PosRow>
    requires OpenRowsPositive(rows) && 0.0 < f.qty
  {
    var i := OpenIndex(rows, key);
    if i == |rows| then rows + [Opened(key, f)] else rows[i := Netted(rows[i], f)]
  }

  // ---------------------------------------------------------------- sums over rows and fills

  function If(b: bool, x: real): real { if b then x else 0.0 }

  // Realized P&L net of what is still tied up in the open position.
  function Defect(r: PosRow): real { r.realized - If(r.isOpen, Value(Signed(r), r.avgCost)) }

  datatype Measure =
    | RealizedPnl | UnrealizedPnl | Basis | SignedBasis | LongBasis | ShortBasis | MarketValue | OpenQty | DefectPnl
    | Dust(t: real)                    // a tolerance granted once per closed row
    | OpenDust(t: real)                // and once per open row
    | QuotedValue(quotes: map<int, real>)

  function At(m: Measure, r: PosRow): real
  {
    match m
    case RealizedPnl => r.realized
    case UnrealizedPnl => If(r.isOpen, r.unrealized)
    case Basis => If(r.isOpen, Value(r.qty, r.avgCost))
    case SignedBasis => If(r.isOpen, Value(Signed(r), r.avgCost))
    case LongBasis => If(r.isOpen && r.side == LONG, Value(r.qty, r.avgCost))
    case ShortBasis => If(r.isOpen && r.side == SHORT, Value(r.qty, r.avgCost))
    case MarketValue => If(r.isOpen, Value(Signed(r), r.mark))
    case OpenQty => If(r.isOpen, Signed(r))
    case DefectPnl => Defect(r)
    case Dust(t) => If(!r.isOpen, t)
    case OpenDust(t) => If(r.isOpen, t)
    case QuotedValue(quotes) =>
      if r.isOpen && r.key.symbol in quotes then Value(Signed(r), quotes[r.key.symbol]) else 0.0
  }

  /** A measure summed over the rows whose key is selected. */
  function Sum(rows: seq<PosRow>, sel: Key -> bool, m: Measure): real
  {
    if rows == [] then 0.0
    else var r := rows[|rows| - 1]; Sum(rows[..|rows| - 1], sel, m) + If(sel(r.key), At(m, r))
  }

  lemma {:induction false} SumUpdate(rows: seq<PosRow>, i: nat, r: PosRow, sel: Key -> bool, m: Measure)
    requires i < |rows| && r.key == rows[i].key
    ensures Sum(rows[i := r], sel, m) == Sum(rows, sel, m) + If(sel(r.key), At(m, r) - At(m, rows[i]))
  {
    var n := |rows| - 1;
    if i == n {
      assert rows[i := r][..n] == rows[..n];
    } else {
      assert rows[i := r][..n] == rows[..n][i := r];
      SumUpdate(rows[..n], i, r, sel, m);
    }
  }

  lemma SumAppend(rows: seq<PosRow>, r: PosRow, sel: Key -> bool, m: Measure)
    ensures Sum(rows + [r], sel, m) == Sum(rows, sel, m) + If(sel(r.key), At(m, r))
  {
    assert (rows + [r])[..|rows|] == rows;
  }

  // A Fill row as the fills table holds it: with its order and the key it nets under.
  datatype Execution = Execution(order: int, key: Key, fill: Fill)

  // What a fill costs in cash: signed notional plus commission.
  function Cost(f: Fill): real { Value(SignedQty(f), f.price) + f.commission }

  /** Σ signed qty·price + Σ commission: the cash the selected fills cost. */
  function Outlay(log: seq<Execution>, sel: Key -> bool): real
  {
    if log == [] then 0.0
    else var e := log[|log| - 1];
         Outlay(log[..|log| - 1], sel) + If(sel(e.key), Cost(e.fill))
  }

  function SignedTotal(log: seq<Execution>, sel: Key -> bool): real
  {
    if log == [] then 0.0
    else var e := log[|log| - 1]; SignedTotal(log[..|log| - 1], sel) + If(sel(e.key), SignedQty(e.fill))
  }

  // ---------------------------------------------------------------- what one netted fill does to the books

  function Dropped(r: PosRow, f: Fill): real { Signed(r) + SignedQty(f) }

  /** What a close leaves behind: the quantity it drops, valued at the side that was larger. */
  function Residue(r: PosRow, f: Fill): real
  {
    if Closes(r, f) then Value(Dropped(r, f), if f.qty < r.qty then r.avgCost else f.price) else 0.0
  }

  lemma ExtendDefect(r: PosRow, f: Fill)
    requires r.isOpen && 0.0 <= r.qty && 0.0 < f.qty && SideFor(f.side) == r.side
    ensures Defect(Netted(r, f)) + Cost(f) == Defect(r)
  {
    hide Value;
    var n := Netted(r, f);
    ValueOfQuotient(Value(r.qty, r.avgCost) + Value(f.qty, f.price), n.qty);
    ValueAdds(0.0, r.qty, r.avgCost);
    ValueAdds(0.0, f.qty, f.price);
    ValueAdds(0.0, n.qty, n.avgCost);
  }

  lemma ReduceDefect(r: PosRow, f: Fill)
    requires r.isOpen && 0.0 <= r.qty && 0.0 < f.qty && SideFor(f.side) != r.side
    ensures Defect(Netted(r, f)) + Cost(f) == Defect(r) + Residue(r, f)
  {
    hide Value;
    var c := if r.side == LONG then Min(r.qty, f.qty) else -Min(r.qty, f.qty);
    ExitValue(c, f.price, r.avgCost);
    ValueAdds(Signed(r), SignedQty(f), r.avgCost);
    ValueAdds(Signed(r), SignedQty(f), f.price);
    ValueAdds(0.0, SignedQty(f), f.price);
    ValueAdds(0.0, SignedQty(f), r.avgCost);
  }

  lemma ExitValue(q: real, price: real, avgCost: real)
    ensures Value(q, price - avgCost) == Value(q, price) - Value(q, avgCost)
  {}

  lemma ResidueBound(r: PosRow, f: Fill, m: real)
    requires Abs(r.avgCost) <= m && Abs(f.price) <= m
    ensures Abs(Residue(r, f)) <= If(Closes(r, f), Value(QTY_EPS, m))
  {
    hide Value;
    if Closes(r, f) {
      DroppedIsSmall(r, f);
      ValueBound(Dropped(r, f), if f.qty < r.qty then r.avgCost else f.price, QTY_EPS, m);
    }
  }

  lemma DroppedIsSmall(r: PosRow, f: Fill)
    requires Closes(r, f)
    ensures Abs(Dropped(r, f)) < QTY_EPS
  {}

  /** The net quantity after a fill is exact unless the fill closes the row, which drops less than the tolerance. */
  lemma NettedQty(r: PosRow, f: Fill)
    requires r.isOpen && 0.0 <= r.qty && 0.0 < f.qty
    ensures var n := Netted(r, f);
            && n.isOpen == !Closes(r, f)
            && (n.isOpen ==> Signed(n) == Signed(r) + SignedQty(f) && 0.0 < n.qty)
            && (!n.isOpen ==> Abs(Signed(r) + SignedQty(f)) < QTY_EPS && n.qty == 0.0 && n.unrealized == 0.0)
  {}

  /**
   * A fill realizes its commission and, on the quantity it takes off the position and no other, the gain since entry;
   * what stays keeps its cost, what is added is averaged in at the fill's price, and a flip starts there.
   */
  lemma NettedRealizes(r: PosRow, f: Fill)
    requires r.isOpen && 0.0 < r.qty && 0.0 < f.qty
    ensures var n := Netted(r, f);
            var adds := (f.side == BUY) == (r.side == LONG);
            var exits := if adds then 0.0 else if f.qty < r.qty then f.qty else r.qty;
            var signed := if r.side == LONG then exits else -exits;
            && n.realized == r.realized - f.commission + Value(signed, f.price - r.avgCost)
            && (adds ==> Value(n.qty, n.avgCost) == Value(r.qty, r.avgCost) + Value(f.qty, f.price))
            && (!adds && n.isOpen ==> n.avgCost == if f.qty < r.qty then r.avgCost else f.price)
  {
    hide Value;
    ValueOfQuotient(Value(r.qty, r.avgCost) + Value(f.qty, f.price), r.qty + f.qty);
    ValueAtZero(f.price - r.avgCost);
  }

  // ---------------------------------------------------------------- the P&L identity

  /** The open rows of the selected keys cost between the two prices. */
  ghost predicate PricedWithin(rows: seq<PosRow>, sel: Key -> bool, lo: real, hi: real)
  {
    forall i :: 0 <= i < |rows| && rows[i].isOpen && sel(rows[i].key) ==> lo <= rows[i].avgCost <= hi
  }

  /** An open row has a positive quantity and carries the valuation of its last mark. */
  ghost predicate RowOk(r: PosRow)
  {
    r.isOpen ==> 0.0 < r.qty && r.unrealized == Valuation(r, r.mark)
  }

  ghost predicate OneOpenPerKey(rows: seq<PosRow>)
  {
    forall i, j :: 0 <= i < j < |rows| && rows[i].isOpen && rows[j].isOpen ==> rows[i].key != rows[j].key
  }

  ghost predicate RowsOk(rows: seq<PosRow>)
  {
    (forall i :: 0 <= i < |rows| ==> RowOk(rows[i])) && OneOpenPerKey(rows)
  }

  /** For the selected keys, P&L and net quantity match the fills up to a tolerance per closed row. */
  ghost predicate Reconciled(rows: seq<PosRow>, log: seq<Execution>, sel: Key -> bool, m: real)
  {
    && Abs(Sum(rows, sel, DefectPnl) + Outlay(log, sel)) <= Sum(rows, sel, Dust(Value(QTY_EPS, m)))
    && Abs(Sum(rows, sel, OpenQty) - SignedTotal(log, sel)) <= Sum(rows, sel, Dust(QTY_EPS))
  }

  lemma ValuedIsMarked(r: PosRow, price: real)
    ensures Valued(r, price).unrealized == Valuation(r, price) == Valuation(Valued(r, price), price)
  {}

  lemma NettedOk(r: PosRow, f: Fill)
    requires r.isOpen && 0.0 < r.qty && 0.0 < f.qty
    ensures Netted(r, f).key == r.key && RowOk(Netted(r, f))
  {
    var n := Netted(r, f);
    if n.isOpen { ValuedIsMarked(n.(unrealized := 0.0), f.price); }
  }

  lemma ReplaceRowOk(rows: seq<PosRow>, i: nat, n: PosRow)
    requires RowsOk(rows) && i < |rows| && rows[i].isOpen && n.key == rows[i].key && RowOk(n)
    ensures RowsOk(rows[i := n])
  {}

  lemma AppendRowOk(rows: seq<PosRow>, n: PosRow)
    requires RowsOk(rows) && OpenIndex(rows, n.key) == |rows| && RowOk(n)
    ensures RowsOk(rows + [n])
  {}

  lemma NetFillOk(rows: seq<PosRow>, key: Key, f: Fill)
    requires RowsOk(rows) && 0.0 < f.qty
    ensures RowsOk(NetFill(rows, key, f))
  {
    var i := OpenIndex(rows, key);
    if i < |rows| {
      NettedOk(rows[i], f);
      ReplaceRowOk(rows, i, Netted(rows[i], f));
    } else {
      AppendRowOk(rows, Opened(key, f));
    }
  }

  /** The row is valued at the price: its mark, and the base of what the quantity gained since entry. */
  ghost predicate MarkedAt(r: PosRow, price: real)
  {
    r.mark == price && r.unrealized == Value(if r.side == LONG then r.qty else -r.qty, price - r.avgCost)
  }

  lemma NettedMarks(r: PosRow, f: Fill)
    requires 0.0 <= r.qty && 0.0 < f.qty && Netted(r, f).isOpen
    ensures MarkedAt(Netted(r, f), f.price)
  {}

  /** A fill values the row it opens or nets into at its own price, whichever branch it takes. */
  lemma NetFillMarks(rows: seq<PosRow>, key: Key, f: Fill)
    requires RowsOk(rows) && 0.0 < f.qty
    ensures var rows' := NetFill(rows, key, f);
            forall i :: 0 <= i < |rows'| && rows'[i].isOpen && rows'[i].key == key ==> MarkedAt(rows'[i], f.price)
  {
    var i := OpenIndex(rows, key);
    if i < |rows| && Netted(rows[i], f).isOpen { NettedMarks(rows[i], f); }
    ValueAtZero(f.qty);
    ValueAtZero(-f.qty);
  }

  lemma NettedPriced(r: PosRow, f: Fill, lo: real, hi: real)
    requires 0.0 < r.qty && 0.0 < f.qty && lo <= r.avgCost <= hi && lo <= f.price <= hi
    ensures lo <= Netted(r, f).avgCost <= hi
  {
    hide Value;
    if SideFor(f.side) == r.side { WeightedAverage(r.qty, r.avgCost, f.qty, f.price, lo, hi); }
  }

  /** The average cost of every open row stays between the lowest and highest fill price of the selected keys. */
  lemma NetFillPriced(rows: seq<PosRow>, key: Key, f: Fill, sel: Key -> bool, lo: real, hi: real)
    requires OpenRowsPositive(rows) && 0.0 < f.qty && PricedWithin(rows, sel, lo, hi)
    requires sel(key) ==> lo <= f.price <= hi
    ensures PricedWithin(NetFill(rows, key, f), sel, lo, hi)
  {
    var i := OpenIndex(rows, key);
    if i < |rows| {
      NettedOk(rows[i], f);
      if sel(key) { NettedPriced(rows[i], f, lo, hi); }
    }
  }

  lemma LogAppend(log: seq<Execution>, e: Execution, sel: Key -> bool)
    ensures Outlay(log + [e], sel) == Outlay(log, sel) + If(sel(e.key), Cost(e.fill))
    ensures SignedTotal(log + [e], sel) == SignedTotal(log, sel) + If(sel(e.key), SignedQty(e.fill))
  {
    assert (log + [e])[..|log|] == log;
  }

  predicate ClosesRow(rows: seq<PosRow>, key: Key, f: Fill)
  {
    var i := OpenIndex(rows, key); i < |rows| && Closes(rows[i], f)
  }

  /** What one netted row contributes: only a close leaves a residue. */
  lemma NettedMeasures(r: PosRow, f: Fill, m: real)
    requires r.isOpen && 0.0 < r.qty && 0.0 < f.qty && Abs(r.avgCost) <= m && Abs(f.price) <= m
    ensures var n := Netted(r, f);
            && n.key == r.key
            && n.isOpen == !Closes(r, f)
            && Abs(Defect(n) - Defect(r) + Cost(f)) <= If(Closes(r, f), Value(QTY_EPS, m))
            && Abs(If(n.isOpen, Signed(n)) - Signed(r) - SignedQty(f)) <= If(Closes(r, f), QTY_EPS)
  {
    NettedQty(r, f);
    if SideFor(f.side) == r.side { ExtendDefect(r, f); } else { ReduceDefect(r, f); }
    ResidueBound(r, f, m);
  }

  lemma OpenedMeasures(key: Key, f: Fill)
    ensures Defect(Opened(key, f)) == -Cost(f) && Signed(Opened(key, f)) == SignedQty(f)
  {
    if f.side == BUY {} else {}
  }

  lemma NetFillSums(rows: seq<PosRow>, key: Key, f: Fill, sel: Key -> bool, m: real)
    requires OpenRowsPositive(rows) && 0.0 < f.qty && PricedWithin(rows, sel, -m, m) && (sel(key) ==> Abs(f.price) <= m)
    ensures var rows', closes := NetFill(rows, key, f), sel(key) && ClosesRow(rows, key, f);
            && Abs(Sum(rows', sel, DefectPnl) - Sum(rows, sel, DefectPnl) + If(sel(key), Cost(f))) <=
              If(closes, Value(QTY_EPS, m))
            && Abs(Sum(rows', sel, OpenQty) - Sum(rows, sel, OpenQty) - If(sel(key), SignedQty(f))) <=
              If(closes, QTY_EPS)
  {
    var i := OpenIndex(rows, key);
    if i == |rows| {
      OpenedMeasures(key, f);
      SumAppend(rows, Opened(key, f), sel, DefectPnl);
      SumAppend(rows, Opened(key, f), sel, OpenQty);
    } else {
      NettedOk(rows[i], f);
      if sel(key) { NettedMeasures(rows[i], f, m); }
      SumUpdate(rows, i, Netted(rows[i], f), sel, DefectPnl);
      SumUpdate(rows, i, Netted(rows[i], f), sel, OpenQty);
    }
  }

  lemma NetFillDust(rows: seq<PosRow>, key: Key, f: Fill, sel: Key -> bool, t: real)
    requires OpenRowsPositive(rows) && 0.0 < f.qty
    ensures Sum(NetFill(rows, key, f), sel, Dust(t))
      == Sum(rows, sel, Dust(t)) + If(sel(key) && ClosesRow(rows, key, f), t)
  {
    var i := OpenIndex(rows, key);
    if i == |rows| {
      SumAppend(rows, Opened(key, f), sel, Dust(t));
    } else {
      NettedQty(rows[i], f);
      NettedOk(rows[i], f);
      SumUpdate(rows, i, Netted(rows[i], f), sel, Dust(t));
    }
  }

  lemma SumsReconcile(rows: seq<PosRow>, rows': seq<PosRow>, log: seq<Execution>, e: Execution, sel: Key -> bool,
      m: real, closes: bool)
    requires Reconciled(rows, log, sel, m)
    requires Abs(Sum(rows', sel, DefectPnl) - Sum(rows, sel, DefectPnl) + If(sel(e.key), Cost(e.fill))) <=
      If(closes, Value(QTY_EPS, m))
    requires Abs(Sum(rows', sel, OpenQty) - Sum(rows, sel, OpenQty) - If(sel(e.key), SignedQty(e.fill))) <=
      If(closes, QTY_EPS)
    requires Sum(rows', sel, Dust(Value(QTY_EPS, m)))
      == Sum(rows, sel, Dust(Value(QTY_EPS, m))) + If(closes, Value(QTY_EPS, m))
    requires Sum(rows', sel, Dust(QTY_EPS)) == Sum(rows, sel, Dust(QTY_EPS)) + If(closes, QTY_EPS)
    ensures Reconciled(rows', log + [e], sel, m)
  {
    hide Value, Sum, Outlay, SignedTotal, Cost;
    LogAppend(log, e, sel);
  }

  lemma NetFillReconciles(rows: seq<PosRow>, log: seq<Execution>, e: Execution, sel: Key -> bool, m: real)
    requires OpenRowsPositive(rows) && 0.0 < e.fill.qty && PricedWithin(rows, sel, -m, m)
    requires sel(e.key) ==> Abs(e.fill.price) <= m
    requires Reconciled(rows, log, sel, m)
    ensures Reconciled(NetFill(rows, e.key, e.fill), log + [e], sel, m)
  {
    hide NetFill, Value, Reconciled;
    NetFillSums(rows, e.key, e.fill, sel, m);
    NetFillDust(rows, e.key, e.fill, sel, Value(QTY_EPS, m));
    NetFillDust(rows, e.key, e.fill, sel, QTY_EPS);
    SumsReconcile(rows, NetFill(rows, e.key, e.fill), log, e, sel, m, sel(e.key) && ClosesRow(rows, e.key, e.fill));
  }

  ghost predicate PositiveFills(fs: seq<Fill>) { forall i :: 0 <= i < |fs| ==> 0.0 < fs[i].qty }

  /** Fills of one key netted one after another. */
  function NetAll(rows: seq<PosRow>, key: Key, fs: seq<Fill>): (r: seq<PosRow>)
    requires RowsOk(rows) && PositiveFills(fs)
    ensures RowsOk(r)
  {
    if fs == [] then rows
    else
      var before := NetAll(rows, key, fs[..|fs| - 1]);
      NetFillOk(before, key, fs[|fs| - 1]);
      NetFill(before, key, fs[|fs| - 1])
  }

  // ---------------------------------------------------------------- revaluation

  /** One revaluation pass over a row; `quotes` holds the pass's mark per symbol, absent when the fetch failed. */
  function MarkRow(r: PosRow, quotes: map<int, real>): PosRow
  {
    if Remarks(r, quotes) then Valued(r, quotes[r.key.symbol]) else r
  }

  /** The row is open, its quote is usable, and its valuation there has moved by the tolerance or more. */
  predicate Remarks(r: PosRow, quotes: map<int, real>)
  {
    && r.isOpen && r.key.symbol in quotes && quotes[r.key.symbol] > 0.0
    && Abs(PnlAt(quotes[r.key.symbol], r.avgCost, r.qty, r.side) - r.unrealized) >= QTY_EPS
  }

  function RemarkCount(rows: seq<PosRow>, quotes: map<int, real>): nat
  {
    if rows == [] then 0
    else RemarkCount(rows[..|rows| - 1], quotes) + if Remarks(rows[|rows| - 1], quotes) then 1 else 0
  }

  function MarkRows(rows: seq<PosRow>, quotes: map<int, real>): (r: seq<PosRow>)
    ensures |r| == |rows| && forall i :: 0 <= i < |rows| ==> r[i] == MarkRow(rows[i], quotes)
  {
    seq(|rows|, i requires 0 <= i < |rows| => MarkRow(rows[i], quotes))
  }

  lemma NoneRemarked(quotes: map<int, real>)
    ensures RemarkCount([], quotes) == 0
  {}

  lemma RemarkStep(rows: seq<PosRow>, i: nat, quotes: map<int, real>)
    requires i < |rows|
    ensures RemarkCount(rows[..i + 1], quotes)
      == RemarkCount(rows[..i], quotes) + if Remarks(rows[i], quotes) then 1 else 0
  {
    assert rows[..i + 1][..i] == rows[..i];
  }

  lemma {:induction false} NothingRemarked(rows: seq<PosRow>, quotes: map<int, real>)
    ensures RemarkCount(rows, quotes) == 0 ==> MarkRows(rows, quotes) == rows
  {
    if rows != [] && RemarkCount(rows, quotes) == 0 {
      var n := |rows| - 1;
      NothingRemarked(rows[..n], quotes);
      forall i | 0 <= i < |rows| ensures MarkRow(rows[i], quotes) == rows[i] {
        if i < n { assert MarkRows(rows[..n], quotes)[i] == MarkRow(rows[i], quotes); }
      }
    }
  }

  /** Revaluation changes marks and unrealized P&L only, so every identity about fills survives it. */
  lemma MarkRowsKeeps(rows: seq<PosRow>, quotes: map<int, real>, log: seq<Execution>, sel: Key -> bool,
      lo: real, hi: real, m: real)
    requires RowsOk(rows) && PricedWithin(rows, sel, lo, hi) && Reconciled(rows, log, sel, m)
    ensures RowsOk(MarkRows(rows, quotes)) && PricedWithin(MarkRows(rows, quotes), sel, lo, hi)
    ensures Reconciled(MarkRows(rows, quotes), log, sel, m)
  {
    var rows' := MarkRows(rows, quotes);
    MarkRowsOk(rows, quotes);
    SumSame(rows, rows', sel, DefectPnl);
    SumSame(rows, rows', sel, OpenQty);
    SumSame(rows, rows', sel, Dust(Value(QTY_EPS, m)));
    SumSame(rows, rows', sel, Dust(QTY_EPS));
  }

  lemma MarkRowsOk(rows: seq<PosRow>, quotes: map<int, real>)
    requires RowsOk(rows)
    ensures RowsOk(MarkRows(rows, quotes))
  {
    forall i | 0 <= i < |rows| ensures RowOk(MarkRows(rows, quotes)[i]) { MarkRowOk(rows[i], quotes); }
  }

  lemma MarkRowOk(r: PosRow, quotes: map<int, real>)
    requires RowOk(r)
    ensures RowOk(MarkRow(r, quotes))
  {
    if r.key.symbol in quotes { ValuedIsMarked(r, quotes[r.key.symbol]); }
  }

  lemma {:induction false} SumSame(rows: seq<PosRow>, rows': seq<PosRow>, sel: Key -> bool, m: Measure)
    requires |rows| == |rows'|
    requires forall i :: 0 <= i < |rows| ==> rows'[i].key == rows[i].key && At(m, rows'[i]) == At(m, rows[i])
    ensures Sum(rows', sel, m) == Sum(rows, sel, m)
  {
    if rows != [] { SumSame(rows[..|rows| - 1], rows'[..|rows| - 1], sel, m); }
  }

  /**
   * What one pass does to a row, in numbers: nothing without a usable quote or if its valuation there is less than
   * 1e-9 away, and otherwise that valuation exactly, with side, quantity, cost and realized P&L untouched.
   */
  lemma MarkRowMeans(r: PosRow, quotes: map<int, real>)
    ensures var n := MarkRow(r, quotes);
            && n == r.(unrealized := n.unrealized, mark := n.mark)
            && (!r.isOpen || r.key.symbol !in quotes || quotes[r.key.symbol] <= 0.0 ==> n == r)
            && (r.isOpen && r.key.symbol in quotes && quotes[r.key.symbol] > 0.0 ==>
                  if Abs(Valuation(r, quotes[r.key.symbol]) - r.unrealized) < 0.000000001 then n == r
                  else MarkedAt(n, quotes[r.key.symbol]))
  {}

  lemma RemarksIsChange(r: PosRow, quotes: map<int, real>)
    ensures Remarks(r, quotes) <==> MarkRow(r, quotes) != r
  {}

  /** The number a pass returns is the number of rows it changed. */
  lemma {:induction false} RemarkCountIsChanged(rows: seq<PosRow>, quotes: map<int, real>)
    ensures RemarkCount(rows, quotes) == |set i | 0 <= i < |rows| && MarkRow(rows[i], quotes) != rows[i]|
  {
    hide Remarks, MarkRow;
    if rows != [] {
      var n := |rows| - 1;
      RemarkCountIsChanged(rows[..n], quotes);
      RemarksIsChange(rows[n], quotes);
      var before := set i | 0 <= i < n && MarkRow(rows[..n][i], quotes) != rows[..n][i];
      var now := set i | 0 <= i < |rows| && MarkRow(rows[i], quotes) != rows[i];
      assert now == before + if Remarks(rows[n], quotes) then {n} else {};
    }
  }

  /** A usable quote leaves the row within the tolerance of its valuation at that quote. */
  lemma MarkRowIsCurrent(r: PosRow, quotes: map<int, real>)
    requires r.isOpen && r.key.symbol in quotes && 0.0 < quotes[r.key.symbol]
    ensures Abs(MarkRow(r, quotes).unrealized - Valuation(r, quotes[r.key.symbol])) < QTY_EPS
  {
    ValuedIsMarked(r, quotes[r.key.symbol]);
  }

  // ---------------------------------------------------------------- the equity snapshot

  datatype Snapshot = Snapshot(totalEquity: real, realized: real, unrealized: real, cash: real)

  function SnapshotOf(rows: seq<PosRow>, sel: Key -> bool, starting: real): Snapshot
  {
    var realized, unrealized := Sum(rows, sel, RealizedPnl), Sum(rows, sel, UnrealizedPnl);
    Snapshot(starting + realized + unrealized, realized, unrealized, starting + realized - Sum(rows, sel, Basis))
  }

  lemma {:induction false} SumAdds(rows: seq<PosRow>, sel: Key -> bool, g: Measure, h: Measure, k: Measure)
    requires forall i :: 0 <= i < |rows| ==> At(k, rows[i]) == At(g, rows[i]) + At(h, rows[i])
    ensures Sum(rows, sel, k) == Sum(rows, sel, g) + Sum(rows, sel, h)
  {
    if rows != [] { SumAdds(rows[..|rows| - 1], sel, g, h, k); }
  }

  lemma RowParts(r: PosRow)
    requires RowOk(r)
    ensures At(RealizedPnl, r) == At(DefectPnl, r) + At(SignedBasis, r)
    ensures At(MarketValue, r) == At(SignedBasis, r) + At(UnrealizedPnl, r)
    ensures At(LongBasis, r) == At(SignedBasis, r) + At(ShortBasis, r)
    ensures At(Basis, r) == At(LongBasis, r) + At(ShortBasis, r)
  {
    hide Value;
    ExitValue(Signed(r), r.mark, r.avgCost);
    ValueAdds(0.0, r.qty, r.avgCost);
  }

  /** Realized P&L is the defect plus the signed basis; marking the basis gives the market value. */
  lemma SnapshotParts(rows: seq<PosRow>, sel: Key -> bool)
    requires RowsOk(rows)
    ensures Sum(rows, sel, RealizedPnl) == Sum(rows, sel, DefectPnl) + Sum(rows, sel, SignedBasis)
    ensures Sum(rows, sel, MarketValue) == Sum(rows, sel, SignedBasis) + Sum(rows, sel, UnrealizedPnl)
    ensures Sum(rows, sel, Basis) == Sum(rows, sel, SignedBasis) + 2.0 * Sum(rows, sel, ShortBasis)
  {
    forall i | 0 <= i < |rows|
      ensures At(RealizedPnl, rows[i]) == At(DefectPnl, rows[i]) + At(SignedBasis, rows[i])
      ensures At(MarketValue, rows[i]) == At(SignedBasis, rows[i]) + At(UnrealizedPnl, rows[i])
      ensures At(LongBasis, rows[i]) == At(SignedBasis, rows[i]) + At(ShortBasis, rows[i])
      ensures At(Basis, rows[i]) == At(LongBasis, rows[i]) + At(ShortBasis, rows[i])
    {
      RowParts(rows[i]);
    }
    SumAdds(rows, sel, DefectPnl, SignedBasis, RealizedPnl);
    SumAdds(rows, sel, SignedBasis, UnrealizedPnl, MarketValue);
    SumAdds(rows, sel, SignedBasis, ShortBasis, LongBasis);
    SumAdds(rows, sel, LongBasis, ShortBasis, Basis);
  }

  /**
   * total_equity is the cash left after every fill plus the open quantity at its last mark, and
   * cash_balance is that cash less twice the basis of the open shorts; both up to the closing dust.
   */
  lemma EquityIdentity(rows: seq<PosRow>, log: seq<Execution>, sel: Key -> bool, m: real, starting: real)
    requires RowsOk(rows) && Reconciled(rows, log, sel, m)
    ensures var s := SnapshotOf(rows, sel, starting);
            var dust := Sum(rows, sel, Dust(Value(QTY_EPS, m)));
            && Abs(s.totalEquity - (starting - Outlay(log, sel) + Sum(rows, sel, MarketValue))) <= dust
            && Abs(s.cash + 2.0 * Sum(rows, sel, ShortBasis) - (starting - Outlay(log, sel))) <= dust
            && s.unrealized == Sum(rows, sel, MarketValue) - Sum(rows, sel, SignedBasis)
            && Abs(s.realized - (Sum(rows, sel, SignedBasis) - Outlay(log, sel))) <= dust
  {
    SnapshotParts(rows, sel);
  }

  /** Every selected open row is long. */
  ghost predicate AllLong(rows: seq<PosRow>, sel: Key -> bool)
  {
    forall i :: 0 <= i < |rows| && rows[i].isOpen && sel(rows[i].key) ==> rows[i].side == LONG
  }

  /**
   * With no open short among the selected keys, cash_balance is exactly the cash left, up to dust; and wherever it
   * is, the basis of the open shorts is no more than the dust.
   */
  lemma CashWhenAllLong(rows: seq<PosRow>, log: seq<Execution>, sel: Key -> bool, m: real, starting: real)
    requires RowsOk(rows) && Reconciled(rows, log, sel, m)
    ensures var off := Abs(SnapshotOf(rows, sel, starting).cash - (starting - Outlay(log, sel)));
            var dust := Sum(rows, sel, Dust(Value(QTY_EPS, m)));
            (AllLong(rows, sel) ==> off <= dust) && (off <= dust ==> Sum(rows, sel, ShortBasis) <= dust)
  {
    EquityIdentity(rows, log, sel, m, starting);
    if AllLong(rows, sel) { SumVanishes(rows, sel, ShortBasis); }
  }

  /** Every selected open row has a usable quote. */
  ghost predicate AllQuoted(rows: seq<PosRow>, sel: Key -> bool, quotes: map<int, real>)
  {
    forall i :: 0 <= i < |rows| && rows[i].isOpen && sel(rows[i].key) ==>
      rows[i].key.symbol in quotes && quotes[rows[i].key.symbol] > 0.0
  }

  lemma MarkedValueIsCurrent(r: PosRow, quotes: map<int, real>)
    requires RowOk(r) && (r.isOpen ==> r.key.symbol in quotes && quotes[r.key.symbol] > 0.0)
    ensures var n := MarkRow(r, quotes);
            n.key == r.key && Abs(At(MarketValue, n) - At(QuotedValue(quotes), n)) <= At(OpenDust(QTY_EPS), n)
  {
    var n := MarkRow(r, quotes);
    if r.isOpen {
      MarkRowIsCurrent(r, quotes);
      MarkRowOk(r, quotes);
      ExitValue(Signed(n), n.mark, n.avgCost);
      ExitValue(Signed(n), quotes[r.key.symbol], n.avgCost);
    }
  }

  lemma MarkRowKey(r: PosRow, quotes: map<int, real>)
    ensures MarkRow(r, quotes).key == r.key
  {}

  lemma {:induction false} MarkedValueSums(rows: seq<PosRow>, sel: Key -> bool, quotes: map<int, real>)
    requires (forall i :: 0 <= i < |rows| ==> RowOk(rows[i])) && AllQuoted(rows, sel, quotes)
    ensures var rows' := MarkRows(rows, quotes);
            Abs(Sum(rows', sel, MarketValue) - Sum(rows', sel, QuotedValue(quotes))) <=
              Sum(rows', sel, OpenDust(QTY_EPS))
  {
    hide Value, RowOk, MarkRow, At;
    if rows != [] {
      var n := |rows| - 1;
      MarkedValueSums(rows[..n], sel, quotes);
      assert MarkRows(rows, quotes)[..n] == MarkRows(rows[..n], quotes);
      MarkRowKey(rows[n], quotes);
      if sel(rows[n].key) { MarkedValueIsCurrent(rows[n], quotes); }
    }
  }

  /**
   * After a revaluation pass with a usable quote for every selected open row, total_equity is the cash left plus
   * the open quantity at the pass's own quotes, up to dust and one tolerance per open row.
   */
  lemma EquityAtQuotes(rows: seq<PosRow>, log: seq<Execution>, sel: Key -> bool, m: real, starting: real,
      quotes: map<int, real>)
    requires RowsOk(rows) && Reconciled(MarkRows(rows, quotes), log, sel, m) && AllQuoted(rows, sel, quotes)
    ensures var rows' := MarkRows(rows, quotes);
            var valued := starting - Outlay(log, sel) + Sum(rows', sel, QuotedValue(quotes));
            Abs(SnapshotOf(rows', sel, starting).totalEquity - valued)
              <= Sum(rows', sel, Dust(Value(QTY_EPS, m))) + Sum(rows', sel, OpenDust(QTY_EPS))
  {
    MarkRowsOk(rows, quotes);
    EquityIdentity(MarkRows(rows, quotes), log, sel, m, starting);
    MarkedValueSums(rows, sel, quotes);
  }

  /** Rows all marked at one price are worth their quantity at it. */
  lemma {:induction false} WorthAt(rows: seq<PosRow>, sel: Key -> bool, price: real)
    requires forall i :: 0 <= i < |rows| && rows[i].isOpen && sel(rows[i].key) ==> rows[i].mark == price
    ensures Sum(rows, sel, MarketValue) == Value(Sum(rows, sel, OpenQty), price)
  {
    hide Value;
    ValueAtZero(price);
    if rows != [] {
      var n := |rows| - 1;
      WorthAt(rows[..n], sel, price);
      ValueAdds(Sum(rows[..n], sel, OpenQty), Signed(rows[n]), price);
    }
  }

  lemma {:induction false} SumVanishes(rows: seq<PosRow>, sel: Key -> bool, m: Measure)
    requires forall i :: 0 <= i < |rows| && sel(rows[i].key) ==> At(m, rows[i]) == 0.0
    ensures Sum(rows, sel, m) == 0.0
  {
    if rows != [] { SumVanishes(rows[..|rows| - 1], sel, m); }
  }

  /** The dust is the tolerance times the number of closed rows selected. */
  lemma {:induction false} DustIsPerClosedRow(rows: seq<PosRow>, sel: Key -> bool, t: real)
    ensures Sum(rows, sel, Dust(t)) == Value(ClosedRows(rows, sel) as real, t)
  {
    hide Value;
    if rows == [] {
      ValueAtZero(t);
    } else {
      var init := rows[..|rows| - 1];
      DustIsPerClosedRow(init, sel, t);
      ValueAdds(ClosedRows(init, sel) as real, 1.0, t);
      ValueOfOne(t);
    }
  }

  function ClosedRows(rows: seq<PosRow>, sel: Key -> bool): nat
  {
    if rows == [] then 0
    else ClosedRows(rows[..|rows| - 1], sel) + (if sel(rows[|rows| - 1].key) && !rows[|rows| - 1].isOpen then 1 else 0)
  }
}
