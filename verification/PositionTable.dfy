// The positions table as the services mutate it, proved against Positions.NetFill and Positions.MarkRows
// (app/services/positions_service.py, app/services/position_marks.py).
module PositionTables {
  import opened Money
  import opened Orders
  import opened Positions

  class Position {
    const key: Key
    var side: PosSide
    var qty: real
    var avgCost: real
    var realized: real
    var unrealized: real
    var isOpen: bool
    ghost var mark: real

    ghost function Row(): PosRow
      reads this
    {
      PosRow(key, side, qty, avgCost, realized, unrealized, isOpen, mark)
    }

    constructor (key: Key, f: Fill)
      requires 0.0 < f.qty
      ensures Row() == Opened(key, f)
    {
      var signed := if f.side == BUY then f.qty else -f.qty;
      this.key := key;
      side := if signed > 0.0 then LONG else SHORT;
      qty := Abs(signed);
      avgCost := f.price;
      realized, unrealized, isOpen := -f.commission, 0.0, true;
      mark := f.price;
    }

    method Net(f: Fill)
      requires isOpen && 0.0 < qty && 0.0 < f.qty
      modifies this
      ensures Row() == Netted(old(Row()), f)
      ensures isOpen ==> MarkedAt(Row(), f.price)
    {
      if Netted(Row(), f).isOpen { NettedMarks(Row(), f); }
      var fillSigned := if f.side == BUY then f.qty else -f.qty;
      var posSigned := if side == LONG then qty else -qty;
      SameSideSign(posSigned, fillSigned);
      if posSigned * fillSigned >= 0.0 {
        Extend(f);
      } else {
        Reduce(f, posSigned, fillSigned);
      }
    }

    method Extend(f: Fill)
      requires isOpen && 0.0 < qty && 0.0 < f.qty && SideFor(f.side) == side
      modifies this
      ensures Row() == Netted(old(Row()), f)
    {
      var total := qty + f.qty;
      avgCost := (Value(qty, avgCost) + Value(f.qty, f.price)) / total;
      qty := total;
      realized := realized - f.commission;
      Revalue(f.price);
    }

    method Reduce(f: Fill, posSigned: real, fillSigned: real)
      requires isOpen && 0.0 < qty && 0.0 < f.qty && SideFor(f.side) != side
      requires posSigned == Signed(Row()) && fillSigned == SignedQty(f)
      modifies this
      ensures Row() == Netted(old(Row()), f)
    {
      var newSigned := posSigned + fillSigned;
      var closedQty := Min(Abs(posSigned), Abs(fillSigned));
      var held := if posSigned > 0.0 then LONG else SHORT;
      realized := realized - f.commission + PnlAt(f.price, avgCost, closedQty, held);
      if Abs(newSigned) < QTY_EPS {
        qty, isOpen, unrealized := 0.0, false, 0.0;
        return;
      }
      SameSideSign(newSigned, posSigned);
      if newSigned * posSigned > 0.0 {
        qty := Abs(newSigned);
      } else {
        side := if newSigned > 0.0 then LONG else SHORT;
        qty := Abs(newSigned);
        avgCost := f.price;
      }
      Revalue(f.price);
    }

    /** The shared mark formula of a fill and of a revaluation pass. */
    method Revalue(price: real)
      modifies this`unrealized, this`mark
      ensures Row() == Valued(old(Row()), price)
    {
      unrealized := PnlAt(price, avgCost, qty, side);
      mark := price;
    }
  }

  lemma SameSideSign(x: real, y: real)
    requires x != 0.0 && y != 0.0
    ensures x * y != 0.0 && (x * y >= 0.0 <==> (x > 0.0 <==> y > 0.0))
  {
  }

  class PositionTable {
    var rows: seq<Position>

    constructor ()
      ensures Valid() && rows == []
    {
      rows := [];
    }

    ghost function Rows(): (s: seq<PosRow>)
      reads this, rows
      ensures |s| == |rows| && forall i :: 0 <= i < |rows| ==> s[i] == rows[i].Row()
    {
      seq(|rows|, i requires 0 <= i < |rows| reads this, rows => rows[i].Row())
    }

    /** The row objects: what a booking may update in place. */
    ghost function Cells(): set<object>
      reads this
    {
      set i | 0 <= i < |rows| :: rows[i] as object
    }

    ghost predicate Valid()
      reads this, rows
    {
      && (forall i, j :: 0 <= i < j < |rows| ==> rows[i] != rows[j])
      && RowsOk(Rows())
    }

    /** The first open row of the key, as the locking query finds it. */
    method FindOpen(key: Key) returns (i: nat)
      ensures i == OpenIndex(Rows(), key)
    {
      i := 0;
      while i < |rows|
        invariant i <= |rows|
        invariant forall j :: 0 <= j < i ==> !(rows[j].isOpen && rows[j].key == key)
      {
        if rows[i].isOpen && rows[i].key == key {
          FirstOpen(Rows(), key, i);
          return;
        }
        i := i + 1;
      }
      FirstOpen(Rows(), key, i);
    }

    /** Net one fill into the table: update the open row of its key, or open one. */
    method ApplyFill(key: Key, f: Fill)
      requires Valid() && 0.0 < f.qty
      modifies this, Cells()
      ensures Valid() && Rows() == NetFill(old(Rows()), key, f)
      ensures fresh(Cells() - old(Cells()))
    {
      ghost var before := Rows();
      NetFillOk(before, key, f);
      var i := FindOpen(key);
      if i == |rows| {
        var p := new Position(key, f);
        rows := rows + [p];
        assert Rows() == before + [Opened(key, f)];
      } else {
        assert RowOk(before[i]);
        rows[i].Net(f);
        assert Rows() == before[i := Netted(before[i], f)];
      }
    }

    /** One revaluation pass. Returns the number of rows re-marked. */
    method MarkOpenPositions(quotes: map<int, real>) returns (remarked: nat)
      requires Valid()
      modifies Cells()
      ensures Valid() && Rows() == MarkRows(old(Rows()), quotes)
      ensures remarked == RemarkCount(old(Rows()), quotes)
      ensures remarked == 0 ==> Rows() == old(Rows())
    {
      hide Remarks, RemarkCount, MarkRow, RowsOk;
      ghost var before := Rows();
      MarkRowsOk(before, quotes);
      remarked := 0;
      var i := 0;
      NoneRemarked(quotes);
      assert before[..0] == [];
      while i < |rows|
        invariant 0 <= i <= |rows| && rows == old(rows)
        invariant forall j :: 0 <= j < i ==> rows[j].Row() == MarkRow(before[j], quotes)
        invariant forall j :: i <= j < |rows| ==> rows[j].Row() == before[j]
        invariant remarked == RemarkCount(before[..i], quotes)
      {
        RemarkStep(before, i, quotes);
        var touched := MarkOne(rows[i], quotes);
        if touched { remarked := remarked + 1; }
        i := i + 1;
      }
      assert Rows() == MarkRows(before, quotes) && before[..i] == before;
      NothingRemarked(before, quotes);
    }

    static method MarkOne(p: Position, quotes: map<int, real>) returns (touched: bool)
      modifies p
      ensures p.Row() == MarkRow(old(p.Row()), quotes)
      ensures touched == Remarks(old(p.Row()), quotes)
    {
      if !p.isOpen || p.key.symbol !in quotes || quotes[p.key.symbol] <= 0.0 {
        return false;
      }
      var mark := quotes[p.key.symbol];
      var newUnrealized := PnlAt(mark, p.avgCost, p.qty, p.side);
      if Abs(newUnrealized - p.unrealized) < QTY_EPS {
        return false;
      }
      p.Revalue(mark);
      return true;
    }
  }

  lemma {:induction false} FirstOpen(rows: seq<PosRow>, key: Key, i: nat)
    requires i <= |rows|
    requires forall j :: 0 <= j < i ==> !(rows[j].isOpen && rows[j].key == key)
    requires i < |rows| ==> rows[i].isOpen && rows[i].key == key
    ensures OpenIndex(rows, key) == i
  {
    if i > 0 { FirstOpen(rows[1..], key, i - 1); }
  }
}
