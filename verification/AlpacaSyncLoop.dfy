// The Alpaca reconciliation as it runs: the replay loop, the booking loop and the in-memory lag table,
// proved against AlpacaFillSync.Sync (app/services/alpaca_fill_sync.py).
module AlpacaSyncLoop {
  import opened Money
  import opened Orders
  import opened Positions
  import opened PositionTables
  import opened Booking
  import opened AlpacaFillSync

  // When the activities feed was first seen lagging, per order; in memory only.
  class LagTable {
    var firstSeen: map<int, real>

    constructor ()
      ensures firstSeen == map[]
    {
      firstSeen := map[];
    }

    function Entry(order: int): Option<real>
      reads this
    {
      if order in firstSeen then Some(firstSeen[order]) else None
    }

    /** Store or drop one order's entry, leaving the others alone. */
    method Put(order: int, lag: Option<real>)
      modifies this
      ensures Entry(order) == lag && firstSeen - {order} == old(firstSeen) - {order}
    {
      firstSeen := if lag.Some? then firstSeen[order := lag.value] else firstSeen - {order};
    }
  }

  /** The replay loop: running totals over the feed, skipping what an earlier sync accounted for. */
  method ReplayFeed(feed: seq<Print>, prior: real) returns (execs: seq<Print>)
    ensures execs == Replay(feed, prior)
  {
    execs := [];
    var running := 0.0;
    for i := 0 to |feed|
      invariant running == PrintQty(feed[..i])
      invariant execs == Replay(feed[..i], prior)
    {
      var prev := running;
      running := running + feed[i].qty;
      assert feed[..i + 1][..i] == feed[..i];
      if running > prior + QTY_EPS {
        var contributed := running - Max(prev, prior);
        if contributed > DELTA_EPS {
          execs := execs + [Print(contributed, feed[i].price)];
        }
      }
    }
    assert feed[..|feed|] == feed;
  }

  method SumPrints(xs: seq<Print>) returns (q: real)
    ensures q == PrintQty(xs)
  {
    q := 0.0;
    for i := 0 to |xs|
      invariant q == PrintQty(xs[..i])
    {
      q := q + xs[i].qty;
      assert xs[..i + 1][..i] == xs[..i];
    }
    assert xs[..|xs|] == xs;
  }

  /** Choose the executions of one pass: the stream's print, the replayed feed, or the feed plus the average. */
  method Decide(prior: real, p: Pass, lag: Option<real>, grace: real) returns (plan: Plan)
    ensures plan == PlanPass(prior, p, lag, grace)
    ensures plan.deferred > 0.0 ==> plan.lag == Some(if lag.Some? then lag.value else p.now)
  {
    var newlyFilled := p.report.filled - prior;
    if !(newlyFilled > DELTA_EPS && p.report.avg > 0.0) {
      return Plan([], 0.0, lag);
    }
    if StreamCovers(prior, p) {
      return Plan([Print(newlyFilled, p.stream.value.price)], 0.0, lag);
    }
    var execs := ReplayFeed(p.feed, prior);
    var covered := SumPrints(execs);
    var remainder := newlyFilled - covered;
    if remainder > QTY_EPS {
      var firstSeen := if lag.Some? then lag.value else p.now;
      if p.now - firstSeen < grace {
        return Plan(execs, remainder, Some(firstSeen));
      }
      return Plan(execs + [Print(remainder, p.report.avg)], 0.0, None);
    }
    return Plan(execs, 0.0, None);
  }

  /** The exit transitions: mirror the broker's status and drop the lag entry once the order is done. */
  method TakeExit(id: int, order: Order, lags: LagTable, exit: Option<Status>)
    requires Open(order.status) && (exit.Some? ==> exit.value == PARTIAL || Terminal(exit.value))
    modifies order`status, order`history, lags
    ensures order.Row() == if exit.None? then old(order.Row()) else Move(old(order.Row()), exit.value)
    ensures lags.Entry(id) == if exit.None? || exit.value == PARTIAL then old(lags.Entry(id)) else None
    ensures lags.firstSeen - {id} == old(lags.firstSeen) - {id}
  {
    if exit.None? {
      return;
    }
    var raised := order.Transition(exit.value);
    assert !raised;
    if exit.value != PARTIAL {
      lags.Put(id, None);
    }
  }

  /**
   * One locked reconciliation of one order: what Sync says, on the order, its fills, the positions and the lag
   * table.
   */
  method SyncOrder(id: int, order: Order, positions: PositionTable, lags: LagTable, p: Pass, grace: real)
    requires 0.0 <= order.filledQty && positions.Valid()
    modifies order, positions, positions.Cells(), lags
    ensures var out := Sync(old(order.Row()), old(lags.Entry(id)), p, grace);
            && order.Row() == out.posting.row
            && order.fills == old(order.fills) + out.posting.fills
            && PositiveFills(out.posting.fills)
            && positions.Rows() == NetAll(old(positions.Rows()), order.terms.key, out.posting.fills)
            && lags.Entry(id) == out.lag
    ensures positions.Valid() && fresh(positions.Cells() - old(positions.Cells()))
    ensures lags.firstSeen - {id} == old(lags.firstSeen) - {id}
  {
    hide Value, NetFill, RecordAll, PlanPass;
    if !Open(order.status) {
      return;
    }
    var changed := HasDelta(order.filledQty, p.report);
    var plan := Decide(order.filledQty, p, lags.Entry(id), grace);
    OpenStays(order.Row(), plan.execs);
    BookAll(order, positions, plan.execs);
    lags.Put(id, plan.lag);
    TakeExit(id, order, lags, Exit(p.report.status, changed, plan.deferred > 0.0));
  }
}
