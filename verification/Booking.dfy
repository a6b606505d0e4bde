// What every fill writer does in its transaction: write the Fill row, net the position, advance the order.
module Booking {
  import opened Money
  import opened Orders
  import opened Positions
  import opened PositionTables

  lemma NetOne(table: seq<PosRow>, key: Key, f: Fill)
    requires RowsOk(table) && 0.0 < f.qty
    ensures NetAll(table, key, [f]) == NetFill(table, key, f)
  {
    assert [f][..0] == [];
    assert NetAll(table, key, []) == table;
  }

  /** Write the Fill row of one execution and net it into the positions table. */
  method PostFill(order: Order, positions: PositionTable, x: Print)
    requires 0.0 < x.qty && positions.Valid()
    modifies order`fills, positions, positions.Cells()
    ensures order.fills == old(order.fills) + [Booked(old(order.Row()), x)]
    ensures positions.Valid()
    ensures positions.Rows() == NetFill(old(positions.Rows()), order.terms.key, Booked(old(order.Row()), x))
    ensures positions.Rows() == NetAll(old(positions.Rows()), order.terms.key, [Booked(old(order.Row()), x)])
    ensures fresh(positions.Cells() - old(positions.Cells()))
  {
    NetOne(positions.Rows(), order.terms.key, Booked(order.Row(), x));
    var commission := Value(x.qty, x.price) * COMMISSION_RATE;
    var f := Fill(order.terms.side, x.qty, x.price, commission);
    order.fills := order.fills + [f];
    positions.ApplyFill(order.terms.key, f);
  }

  /** Post one execution and advance the order's quantity and average. */
  method BookOne(order: Order, positions: PositionTable, x: Print)
    requires 0.0 < x.qty && 0.0 <= order.filledQty && positions.Valid()
    modifies order`fills, order`filledQty, order`avgFill, positions, positions.Cells()
    ensures order.Row() == Record(old(order.Row()), x) && 0.0 < order.filledQty
    ensures order.fills == old(order.fills) + [Booked(old(order.Row()), x)]
    ensures positions.Valid()
    ensures positions.Rows() == NetFill(old(positions.Rows()), order.terms.key, Booked(old(order.Row()), x))
    ensures fresh(positions.Cells() - old(positions.Cells()))
  {
    hide NetFill, NetAll;
    PostFill(order, positions, x);
    var priorNotional := Value(order.filledQty, Or(order.avgFill, 0.0));
    var newFilled := order.filledQty + x.qty;
    order.avgFill := Some((priorNotional + Value(x.qty, x.price)) / newFilled);
    order.filledQty := newFilled;
  }

  /** How far a booking loop has come: `done` is on the order, in its fills and in the positions. */
  ghost predicate Posted(row: OrderRow, fills: seq<Fill>, table: seq<PosRow>, done: seq<Print>,
                         row': OrderRow, fills': seq<Fill>, table': seq<PosRow>)
    requires RowsOk(table) && Positive(done) && 0.0 <= row.filledQty
  {
    var p := RecordAll(row, done);
    && row' == p.row
    && fills' == fills + p.fills
    && PositiveFills(p.fills)
    && table' == NetAll(table, row.terms.key, p.fills)
  }

  lemma PostedStep(row: OrderRow, fills: seq<Fill>, table: seq<PosRow>, done: seq<Print>,
                   row': OrderRow, fills': seq<Fill>, table': seq<PosRow>, x: Print)
    requires RowsOk(table) && Positive(done) && 0.0 <= row.filledQty && 0.0 < x.qty
    requires Posted(row, fills, table, done, row', fills', table')
    ensures row'.terms == row.terms && 0.0 <= row'.filledQty && OpenRowsPositive(table')
    ensures Positive(done + [x])
    ensures Posted(row, fills, table, done + [x], Record(row', x), fills' + [Booked(row', x)],
                   NetFill(table', row.terms.key, Booked(row', x)))
  {
    hide Value, NetFill;
    assert (done + [x])[..|done|] == done;
    RecordAllFrame(row, done);
    var p, f := RecordAll(row, done), Booked(row', x);
    assert (p.fills + [f])[..|p.fills|] == p.fills;
    assert RecordAll(row, done + [x]).fills == p.fills + [f];
  }

  lemma PostedNothing(row: OrderRow, fills: seq<Fill>, table: seq<PosRow>)
    requires RowsOk(table) && 0.0 <= row.filledQty
    ensures Posted(row, fills, table, [], row, fills, table)
  {
    assert fills + [] == fills;
  }

  /** Book every execution in order. */
  method BookAll(order: Order, positions: PositionTable, execs: seq<Print>)
    requires Positive(execs) && 0.0 <= order.filledQty && positions.Valid()
    modifies order`fills, order`filledQty, order`avgFill, positions, positions.Cells()
    ensures positions.Valid()
    ensures Posted(old(order.Row()), old(order.fills), old(positions.Rows()), execs,
                   order.Row(), order.fills, positions.Rows())
    ensures fresh(positions.Cells() - old(positions.Cells()))
  {
    hide Posted, Value, NetFill, NetAll, Record, RecordAll;
    ghost var row, fills, table := order.Row(), order.fills, positions.Rows();
    var i := 0;
    PostedNothing(row, fills, table);
    assert execs[..0] == [];
    while i < |execs|
      invariant i <= |execs| && 0.0 <= order.filledQty
      invariant positions.Valid()
      invariant Posted(row, fills, table, execs[..i], order.Row(), order.fills, positions.Rows())
      invariant fresh(positions.Cells() - old(positions.Cells()))
    {
      PostedStep(row, fills, table, execs[..i], order.Row(), order.fills, positions.Rows(), execs[i]);
      assert execs[..i + 1] == execs[..i] + [execs[i]];
      BookOne(order, positions, execs[i]);
      i := i + 1;
    }
    assert execs[..i] == execs;
  }
}
