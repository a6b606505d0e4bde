// Reconciling one order against Alpaca: replaying the per-execution feed from the recorded offset,
// deferring what the feed does not cover yet, and mirroring the broker's status
// (app/services/alpaca_fill_sync.py).
module AlpacaFillSync {
  import opened Money
  import opened Orders

  // ---------------------------------------------------------------- replaying the feed

  /** Quantity one print adds above `prior`, when the running total moves from `prev` to `run`. */
  function Contributed(prev: real, run: real, prior: real): (q: real)
    ensures q == 0.0 || q > DELTA_EPS
  {
    if run <= prior + QTY_EPS then 0.0
    else if run - Max(prev, prior) > DELTA_EPS then run - Max(prev, prior)
    else 0.0
  }

  /** The executions one replay of the feed records for an order that already holds `prior`. */
  function Replay(feed: seq<Print>, prior: real): (xs: seq<Print>)
    ensures Positive(xs)
  {
    if feed == [] then []
    else
      var init, x := feed[..|feed| - 1], feed[|feed| - 1];
      var q := Contributed(PrintQty(init), PrintQty(init) + x.qty, prior);
      if q == 0.0 then Replay(init, prior) else Replay(init, prior) + [Print(q, x.price)]
  }

  ghost predicate NonNegative(feed: seq<Print>) { forall i :: 0 <= i < |feed| ==> 0.0 <= feed[i].qty }

  /** A feed of real executions: each above the recording threshold, priced within [0, m]. */
  ghost predicate Executions(feed: seq<Print>, m: real)
  {
    forall i :: 0 <= i < |feed| ==> DELTA_EPS < feed[i].qty && 0.0 <= feed[i].price <= m
  }

  lemma TotalStep(feed: seq<Print>)
    requires feed != []
    ensures PrintQty(feed) == PrintQty(feed[..|feed| - 1]) + feed[|feed| - 1].qty
  {}

  lemma ReplayStep(feed: seq<Print>, prior: real)
    requires feed != []
    ensures var init := feed[..|feed| - 1];
            PrintQty(Replay(feed, prior))
              == PrintQty(Replay(init, prior)) + Contributed(PrintQty(init), PrintQty(feed), prior)
  {
    hide Contributed;
    var init, x := feed[..|feed| - 1], feed[|feed| - 1];
    TotalStep(feed);
    PrintQtyAppend(Replay(init, prior), Print(Contributed(PrintQty(init), PrintQty(feed), prior), x.price));
  }

  lemma ContributedBound(done: real, prev: real, run: real, prior: real)
    requires prev <= run && 0.0 <= done <= Max(0.0, prev - prior)
    ensures 0.0 <= done + Contributed(prev, run, prior) <= Max(0.0, run - prior)
  {}

  /** A replay never records more than the feed holds above the offset. */
  lemma {:induction false} ReplayStaysBelowFeed(feed: seq<Print>, prior: real)
    requires NonNegative(feed)
    ensures 0.0 <= PrintQty(Replay(feed, prior)) <= Max(0.0, PrintQty(feed) - prior)
    ensures 0.0 <= PrintQty(feed)
  {
    hide Replay, Contributed;
    if feed == [] {
      NothingReplayed(prior);
    } else {
      var init := feed[..|feed| - 1];
      ReplayStaysBelowFeed(init, prior);
      TotalStep(feed);
      ReplayStep(feed, prior);
      ContributedBound(PrintQty(Replay(init, prior)), PrintQty(init), PrintQty(feed), prior);
    }
  }

  lemma NothingReplayed(prior: real)
    ensures Replay([], prior) == [] && PrintQty([]) == 0.0
  {}

  // ---------------------------------------------------------------- one pass, from any offset

  /** The part of the cumulative execution curve above `prior`, print by print. */
  function Above(feed: seq<Print>, prior: real): seq<Print>
  {
    if feed == [] then []
    else
      var init, x := feed[..|feed| - 1], feed[|feed| - 1];
      var step := Max(PrintQty(feed), prior) - Max(PrintQty(init), prior);
      if step == 0.0 then Above(init, prior) else Above(init, prior) + [Print(step, x.price)]
  }

  lemma {:induction false} AboveTotal(feed: seq<Print>, prior: real)
    requires 0.0 <= prior
    ensures PrintQty(Above(feed, prior)) == Max(PrintQty(feed), prior) - prior
  {
    if feed != [] {
      var init, x := feed[..|feed| - 1], feed[|feed| - 1];
      AboveTotal(init, prior);
      PrintQtyAppend(Above(init, prior), Print(Max(PrintQty(feed), prior) - Max(PrintQty(init), prior), x.price));
    }
  }

  /**
   * A pass from any offset records the curve above it, every piece at its own price, save a leading
   * sliver of total quantity at most the tolerance.
   */
  lemma {:induction false} ReplayRecordsCurveAbove(feed: seq<Print>, prior: real, m: real) returns (k: nat)
    requires Executions(feed, m) && 0.0 <= prior
    ensures k <= |Above(feed, prior)| && Replay(feed, prior) == Above(feed, prior)[k..]
    ensures PrintQty(Above(feed, prior)[..k]) <= QTY_EPS
    ensures PrintQty(feed) <= prior + QTY_EPS ==> Replay(feed, prior) == []
  {
    if feed == [] {
      return 0;
    }
    var init := feed[..|feed| - 1];
    k := ReplayRecordsCurveAbove(init, prior, m);
    TotalStep(feed);
    if PrintQty(feed) <= prior + QTY_EPS {
      AboveTotal(feed, prior);
      k := |Above(feed, prior)|;
      assert Above(feed, prior)[..k] == Above(feed, prior);
    } else {
      LastPieceRecorded(feed, prior);
      assert Above(feed, prior)[..k] == Above(init, prior)[..k];
    }
  }

  /** Past the tolerance, the replay and the curve above the offset gain the same piece. */
  lemma LastPieceRecorded(feed: seq<Print>, prior: real)
    requires feed != [] && DELTA_EPS < feed[|feed| - 1].qty && prior + QTY_EPS < PrintQty(feed)
    ensures var init, x := feed[..|feed| - 1], feed[|feed| - 1];
            var piece := Print(PrintQty(feed) - Max(PrintQty(init), prior), x.price);
            && Replay(feed, prior) == Replay(init, prior) + [piece]
            && Above(feed, prior) == Above(init, prior) + [piece]
  {
    hide Value;
    TotalStep(feed);
  }

  // ---------------------------------------------------------------- many passes equal one

  /** Everything in `feed` is on record except the `skipped` prints, a sliver of at most the tolerance. */
  ghost predicate Caught(feed: seq<Print>, filled: real, notional: real, skipped: seq<Print>, m: real)
  {
    && PrintQty(feed) == filled + PrintQty(skipped)
    && PrintNotional(feed) == notional + PrintNotional(skipped)
    && PrintQty(skipped) <= QTY_EPS
    && Executions(skipped, m)
  }

  lemma {:induction false} SliverBound(xs: seq<Print>, m: real)
    requires Executions(xs, m)
    ensures 0.0 <= PrintQty(xs) && 0.0 <= PrintNotional(xs) <= Value(PrintQty(xs), m)
  {
    hide Value;
    if xs == [] {
      ValueAtZero(m);
    } else {
      var x := xs[|xs| - 1];
      SliverBound(xs[..|xs| - 1], m);
      PrintSumsSplit(xs);
      ValueNonNegative(x.qty, x.price);
      ValueMono(x.qty, x.price, m);
      ValueAdds(PrintQty(xs[..|xs| - 1]), x.qty, m);
    }
  }

  lemma {:induction false} NothingAbove(feed: seq<Print>, prior: real, m: real)
    requires Executions(feed, m) && PrintQty(feed) <= prior + QTY_EPS
    ensures Replay(feed, prior) == []
  {
    if feed != [] {
      TotalStep(feed);
      NothingAbove(feed[..|feed| - 1], prior, m);
    }
  }

  lemma CaughtSkips(feed: seq<Print>, x: Print, filled: real, notional: real, skipped: seq<Print>, m: real)
    requires Caught(feed, filled, notional, skipped, m) && PrintQty(skipped) + x.qty <= QTY_EPS
    requires DELTA_EPS < x.qty && 0.0 <= x.price <= m
    ensures Caught(feed + [x], filled, notional, skipped + [x], m)
  {
    hide Value;
    PrintSumsAppend(feed, x);
    PrintSumsAppend(skipped, x);
  }

  lemma CaughtRecords(feed: seq<Print>, x: Print, filled: real, notional: real, skipped: seq<Print>, m: real)
    requires Caught(feed, filled, notional, skipped, m)
    ensures Caught(feed + [x], filled + x.qty, notional + Value(x.qty, x.price), skipped, m)
  {
    hide Value;
    PrintSumsAppend(feed, x);
  }

  /** What was replayed of a feed, with one more print recorded. */
  lemma CaughtReplay(feed: seq<Print>, x: Print, prior: real, notional: real, xs: seq<Print>, skipped: seq<Print>,
      m: real)
    requires Caught(feed, prior + PrintQty(xs), notional + PrintNotional(xs), skipped, m)
    ensures Caught(feed + [x], prior + PrintQty(xs + [x]), notional + PrintNotional(xs + [x]), skipped, m)
  {
    hide Value;
    CaughtRecords(feed, x, prior + PrintQty(xs), notional + PrintNotional(xs), skipped, m);
    PrintSumsAppend(xs, x);
  }

  lemma NoPrints()
    ensures PrintQty([]) == 0.0 && PrintNotional([]) == 0.0
  {}

  /** One more print that stays within the tolerance joins the sliver. */
  lemma CatchSkipped(init: seq<Print>, x: Print, prior: real, notional: real, skipped: seq<Print>, m: real)
    requires DELTA_EPS < x.qty && 0.0 <= x.price <= m && PrintQty(init + [x]) <= prior + QTY_EPS
    requires Caught(init, prior, notional, skipped, m)
    ensures Caught(init + [x], prior, notional, skipped + [x], m)
  {
    hide PrintNotional, Value;
    PrintQtyAppend(init, x);
    CaughtSkips(init, x, prior, notional, skipped, m);
  }

  /** One more print in the feed, past everything on record: it is recorded whole or joins the sliver. */
  lemma CatchOne(init: seq<Print>, x: Print, prior: real, notional: real, skipped: seq<Print>, m: real)
      returns (skipped': seq<Print>)
    requires Executions(init + [x], m) && prior <= PrintQty(init)
    requires var xs := Replay(init, prior); Caught(init, prior + PrintQty(xs), notional + PrintNotional(xs), skipped, m)
    ensures var xs := Replay(init + [x], prior);
      Caught(init + [x], prior + PrintQty(xs), notional + PrintNotional(xs), skipped', m)
  {
    hide Caught, Replay, Above, PrintQty, PrintNotional, Executions, Value;
    var feed := init + [x];
    assert feed[..|feed| - 1] == init && feed[|feed| - 1] == x;
    ExecutionsPrefix(init, x, m);
    PrintQtyAppend(init, x);
    NoPrints();
    if PrintQty(feed) <= prior + QTY_EPS {
      NothingAbove(init, prior, m);
      NothingAbove(feed, prior, m);
      CatchSkipped(init, x, prior, notional, skipped, m);
      skipped' := skipped + [x];
    } else {
      LastPieceRecorded(feed, prior);
      assert Print(PrintQty(feed) - Max(PrintQty(init), prior), x.price) == x;
      CaughtReplay(init, x, prior, notional, Replay(init, prior), skipped, m);
      skipped' := skipped;
    }
  }

  /** A pass over a feed that is already on record writes nothing. */
  lemma CaughtIdle(feed: seq<Print>, prior: real, notional: real, skipped: seq<Print>, m: real)
    requires Executions(feed, m) && Caught(feed, prior, notional, skipped, m)
    ensures var xs := Replay(feed, prior); Caught(feed, prior + PrintQty(xs), notional + PrintNotional(xs), skipped, m)
    ensures prior <= PrintQty(feed)
  {
    hide Value, Replay, PrintQty, PrintNotional;
    SliverBound(skipped, m);
    NothingAbove(feed, prior, m);
    NoPrints();
  }

  lemma ExecutionsPrefix(init: seq<Print>, x: Print, m: real)
    requires Executions(init + [x], m)
    ensures Executions(init, m) && DELTA_EPS < x.qty && 0.0 <= x.price <= m
  {
    assert (init + [x])[|init|] == x;
    assert forall i :: 0 <= i < |init| ==> init[i] == (init + [x])[i];
  }

  /**
   * A pass over an extended feed catches up again: prints past the earlier passes are recorded whole or
   * join the sliver, which never outgrows one tolerance.
   */
  lemma {:induction false} PassCatchesUp(base: seq<Print>, feed: seq<Print>, prior: real, notional: real,
      skipped: seq<Print>, m: real)
    returns (skipped': seq<Print>)
    requires Executions(feed, m) && base <= feed && Caught(base, prior, notional, skipped, m)
    ensures var xs := Replay(feed, prior); Caught(feed, prior + PrintQty(xs), notional + PrintNotional(xs), skipped', m)
    ensures prior <= PrintQty(feed)
  {
    hide Caught, Replay, PrintQty, PrintNotional, Executions, Value;
    if base == feed {
      CaughtIdle(feed, prior, notional, skipped, m);
      skipped' := skipped;
    } else {
      var init, x := feed[..|feed| - 1], feed[|feed| - 1];
      assert feed == init + [x];
      ExecutionsPrefix(init, x, m);
      PrintQtyAppend(init, x);
      skipped' := PassCatchesUp(base, init, prior, notional, skipped, m);
      skipped' := CatchOne(init, x, prior, notional, skipped', m);
    }
  }

  // ---------------------------------------------------------------- one sync of one order

  datatype BrokerStatus = WORKING | PARTIALLY_FILLED | B_FILLED | CANCELED | B_EXPIRED | B_REJECTED

  // The broker's view of the order: status, cumulative quantity and running average price.
  datatype Report = Report(status: BrokerStatus, filled: real, avg: real)

  /**
   * Everything one sync observes: the report, the print a stream event carries (if any), what the
   * activities feed returns, and the clock.
   */
  datatype Pass = Pass(report: Report, stream: Option<Print>, feed: seq<Print>, now: real)

  // The executions to record, what stays deferred, and when the feed was first seen lagging.
  datatype Plan = Plan(execs: seq<Print>, deferred: real, lag: Option<real>)

  // The result of one sync: what it posts, and the lag table's entry for the order.
  datatype Outcome = Outcome(posting: Posting, lag: Option<real>)

  predicate HasDelta(prior: real, r: Report) { r.filled - prior > DELTA_EPS && r.avg > 0.0 }

  predicate StreamCovers(prior: real, p: Pass)
  {
    && p.stream.Some? && p.stream.value.price > 0.0
    && Abs(p.stream.value.qty - (p.report.filled - prior)) <= Max((p.report.filled - prior) * 0.000001, DELTA_EPS)
  }

  /** What the feed leaves uncovered of the broker's cumulative quantity. */
  function Remainder(prior: real, p: Pass): real
  {
    p.report.filled - prior - PrintQty(Replay(p.feed, prior))
  }

  /** The guard of the deferral branch. */
  predicate Defers(prior: real, p: Pass, lag: Option<real>, grace: real)
  {
    && HasDelta(prior, p.report) && !StreamCovers(prior, p)
    && Remainder(prior, p) > QTY_EPS
    && p.now - (if lag.Some? then lag.value else p.now) < grace
  }

  function PlanPass(prior: real, p: Pass, lag: Option<real>, grace: real): (plan: Plan)
    ensures Positive(plan.execs)
  {
    if !HasDelta(prior, p.report) then Plan([], 0.0, lag)
    else if StreamCovers(prior, p) then Plan([Print(p.report.filled - prior, p.stream.value.price)], 0.0, lag)
    else
      var execs, remainder := Replay(p.feed, prior), Remainder(prior, p);
      if remainder <= QTY_EPS then Plan(execs, 0.0, None)
      else if Defers(prior, p, lag, grace) then Plan(execs, remainder, if lag.Some? then lag else Some(p.now))
      else Plan(execs + [Print(remainder, p.report.avg)], 0.0, None)
  }

  /** The status the order moves to, if any. */
  function Exit(status: BrokerStatus, changed: bool, deferred: bool): Option<Status>
  {
    match status
    case B_FILLED => if !deferred then Some(FILLED) else if changed then Some(PARTIAL) else None
    case PARTIALLY_FILLED => if changed then Some(PARTIAL) else None
    case CANCELED => Some(CANCELLED)
    case B_EXPIRED => Some(EXPIRED)
    case B_REJECTED => Some(REJECTED)
    case WORKING => None
  }

  function Sync(o: OrderRow, lag: Option<real>, p: Pass, grace: real): Outcome
    requires 0.0 <= o.filledQty
  {
    if !Open(o.status) then Outcome(Posting(o, []), lag)
    else
      var plan := PlanPass(o.filledQty, p, lag, grace);
      var recorded := RecordAll(o, plan.execs);
      OpenStays(o, plan.execs);
      var exit := Exit(p.report.status, HasDelta(o.filledQty, p.report), plan.deferred > 0.0);
      if exit.None? then Outcome(recorded, plan.lag)
      else Outcome(recorded.(row := Move(recorded.row, exit.value)),
                   if exit.value == PARTIAL then plan.lag else None)
  }

  lemma OpenStays(o: OrderRow, xs: seq<Print>)
    requires Positive(xs) && 0.0 <= o.filledQty
    ensures RecordAll(o, xs).row.status == o.status && RecordAll(o, xs).row.history == o.history
  {
    RecordAllFrame(o, xs);
  }

  /** Quantity and notional after a sync, in terms of what was planned. */
  lemma SyncSums(o: OrderRow, lag: Option<real>, p: Pass, grace: real)
    requires 0.0 <= o.filledQty && Open(o.status)
    ensures var plan, row := PlanPass(o.filledQty, p, lag, grace), Sync(o, lag, p, grace).posting.row;
            && row.filledQty == o.filledQty + PrintQty(plan.execs)
            && Notional(row) == Notional(o) + PrintNotional(plan.execs)
  {
    hide Value;
    RecordAllSums(o, PlanPass(o.filledQty, p, lag, grace).execs);
  }

  lemma SyncKeeps(o: OrderRow, lag: Option<real>, p: Pass, grace: real)
    requires 0.0 <= o.filledQty
    ensures Keeps(o, Sync(o, lag, p, grace).posting)
  {
    RecordAllKeeps(o, PlanPass(o.filledQty, p, lag, grace).execs);
  }

  lemma PlanQty(prior: real, p: Pass, lag: Option<real>, grace: real)
    requires NonNegative(p.feed)
    ensures var plan := PlanPass(prior, p, lag, grace); var q := PrintQty(plan.execs);
            && 0.0 <= q && 0.0 <= plan.deferred
            && prior + q <= Max(prior, Max(PrintQty(p.feed), p.report.filled))
            && (plan.deferred > 0.0 <==> Defers(prior, p, lag, grace))
            && (HasDelta(prior, p.report) && plan.deferred == 0.0 ==> prior + q >= p.report.filled - QTY_EPS)
            && (plan.deferred > 0.0 ==> prior + q < p.report.filled - QTY_EPS)
  {
    if HasDelta(prior, p.report) {
      if StreamCovers(prior, p) {
        PrintQtyOne(p.report.filled - prior, p.stream.value.price);
      } else {
        ReplayStaysBelowFeed(p.feed, prior);
        PrintQtyAppend(Replay(p.feed, prior), Print(Remainder(prior, p), p.report.avg));
      }
    }
  }

  lemma PrintQtyOne(q: real, price: real)
    ensures PrintQty([Print(q, price)]) == q
  {
    assert [Print(q, price)][..0] == [];
  }

  // ---------------------------------------------------------------- no double count, no loss

  /** With the broker never reporting more than `total`, a sync adds quantity and never exceeds it. */
  lemma NeverOverfills(o: OrderRow, lag: Option<real>, p: Pass, grace: real, total: real)
    requires 0.0 <= o.filledQty <= total && NonNegative(p.feed)
    requires p.report.filled <= total && PrintQty(p.feed) <= total
    ensures o.filledQty <= Sync(o, lag, p, grace).posting.row.filledQty <= total
  {
    if Open(o.status) {
      SyncSums(o, lag, p, grace);
      PlanQty(o.filledQty, p, lag, grace);
    }
  }

  /**
   * The exit on a FILLED report is guarded by the deferral alone: FILLED is reached exactly when nothing is deferred,
   * and then with the broker's quantity on record exactly when it gave a price or nothing was missing.
   */
  lemma FilledExitIsComplete(o: OrderRow, lag: Option<real>, p: Pass, grace: real)
    requires 0.0 <= o.filledQty && Open(o.status) && NonNegative(p.feed)
    ensures var row, r := Sync(o, lag, p, grace).posting.row, p.report;
            && (row.status == Some(FILLED) <==> r.status == B_FILLED && !Defers(o.filledQty, p, lag, grace))
            && (row.status == Some(FILLED) ==>
                  (row.filledQty >= r.filled - QTY_EPS <==> r.avg > 0.0 || r.filled - o.filledQty <= QTY_EPS))
            && (r.avg > 0.0 ==>
                  (row.status == Some(FILLED) <==> r.status == B_FILLED && row.filledQty >= r.filled - QTY_EPS))
  {
    hide Value, Defers, RecordAll, StreamCovers;
    OpenStays(o, PlanPass(o.filledQty, p, lag, grace).execs);
    SyncSums(o, lag, p, grace);
    PlanQty(o.filledQty, p, lag, grace);
  }

  /** A FILLED report seen once the grace window has run out always completes the order. */
  lemma GraceExpiryCompletes(o: OrderRow, firstSeen: real, p: Pass, grace: real)
    requires 0.0 <= o.filledQty && Open(o.status) && NonNegative(p.feed)
    requires p.report.status == B_FILLED && p.now >= firstSeen + grace
    ensures var out := Sync(o, Some(firstSeen), p, grace);
            && out.posting.row.status == Some(FILLED) && out.lag == None
            && (out.posting.row.filledQty >= p.report.filled - QTY_EPS <==>
                p.report.avg > 0.0 || p.report.filled - o.filledQty <= QTY_EPS)
  {
    SyncSums(o, Some(firstSeen), p, grace);
    PlanQty(o.filledQty, p, Some(firstSeen), grace);
  }

  /** A stream print that covers the whole delta is the one Fill row written, at its own price. */
  lemma StreamPrintIsRecorded(o: OrderRow, lag: Option<real>, p: Pass, grace: real)
    requires 0.0 <= o.filledQty && Open(o.status)
    requires p.report.filled - o.filledQty > 0.000000000001 && p.report.avg > 0.0
    requires p.stream.Some? && p.stream.value.price > 0.0 && Covers(p.stream.value.qty, p.report.filled - o.filledQty)
    ensures var out := Sync(o, lag, p, grace).posting;
            && out.fills == [Booked(o, Print(p.report.filled - o.filledQty, p.stream.value.price))]
            && out.row.filledQty == p.report.filled
  {
    var x := Print(p.report.filled - o.filledQty, p.stream.value.price);
    assert [x][..0] == [];
    assert RecordAll(o, [x]).fills == RecordAll(o, []).fills + [Booked(o, x)];
  }

  function Prints(fills: seq<Fill>): seq<Print>
  {
    seq(|fills|, i requires 0 <= i < |fills| => Print(fills[i].qty, fills[i].price))
  }

  lemma {:induction false} RecordAllPrints(o: OrderRow, xs: seq<Print>)
    requires Positive(xs) && 0.0 <= o.filledQty
    ensures Prints(RecordAll(o, xs).fills) == xs
  {
    if xs != [] {
      var init, x := xs[..|xs| - 1], xs[|xs| - 1];
      RecordAllPrints(o, init);
      assert xs == init + [x];
      assert Prints(RecordAll(o, xs).fills) == Prints(RecordAll(o, init).fills) + [x];
    }
  }

  /**
   * The Fill rows that one pass writes, in quantities: none without a priced delta; the stream's print when it covers
   * the delta; else the replayed feed, and once the grace window is over what the feed leaves uncovered, in one row
   * at the report's average.
   */
  lemma PassRecords(o: OrderRow, lag: Option<real>, p: Pass, grace: real)
    requires 0.0 <= o.filledQty && Open(o.status)
    ensures var newly, feed := p.report.filled - o.filledQty, Replay(p.feed, o.filledQty);
            var written, rest := Prints(Sync(o, lag, p, grace).posting.fills), newly - PrintQty(feed);
            var covered := p.stream.Some? && p.stream.value.price > 0.0 && Covers(p.stream.value.qty, newly);
            var waited := if lag.Some? then p.now - lag.value else 0.0;
            && (newly <= 0.000000000001 || p.report.avg <= 0.0 ==> written == [])
            && (newly > 0.000000000001 && p.report.avg > 0.0 ==>
                  && (covered ==> written == [Print(newly, p.stream.value.price)])
                  && (!covered && (rest <= 0.000000001 || waited < grace) ==> written == feed)
                  && (!covered && rest > 0.000000001 && waited >= grace ==>
                        written == feed + [Print(rest, p.report.avg)]))
  {
    hide Value, RecordAll, Replay;
    RecordAllPrints(o, PlanPass(o.filledQty, p, lag, grace).execs);
  }

  /** With an empty feed and the grace window over, the whole delta is one Fill row at the report's average. */
  lemma EmptyFeedEndsAtAverage(o: OrderRow, firstSeen: real, p: Pass, grace: real)
    requires 0.0 <= o.filledQty && Open(o.status) && p.feed == [] && p.stream.None?
    requires p.report.filled - o.filledQty > 0.000000001 && p.report.avg > 0.0 && p.now - firstSeen >= grace
    ensures Prints(Sync(o, Some(firstSeen), p, grace).posting.fills)
      == [Print(p.report.filled - o.filledQty, p.report.avg)]
  {
    PassRecords(o, Some(firstSeen), p, grace);
  }

  /** The quantity on record after a pass that defers nothing: the broker's, save what the feed is ahead or a sliver. */
  lemma RecordedUndeferred(o: OrderRow, lag: Option<real>, p: Pass, grace: real)
    requires 0.0 <= o.filledQty && Open(o.status) && !Defers(o.filledQty, p, lag, grace)
    ensures var q, rest := o.filledQty, Remainder(o.filledQty, p);
            Sync(o, lag, p, grace).posting.row.filledQty ==
              if !HasDelta(q, p.report) then q
              else if StreamCovers(q, p) || rest > QTY_EPS then p.report.filled
              else p.report.filled - rest
  {
    hide Value, RecordAll, Sync;
    var q := o.filledQty;
    SyncSums(o, lag, p, grace);
    if HasDelta(q, p.report) && StreamCovers(q, p) { StreamPrintIsRecorded(o, lag, p, grace); }
    PrintQtyAppend(Replay(p.feed, q), Print(Remainder(q, p), p.report.avg));
  }

  /**
   * The broker's terminal statuses are mirrored, and an order stays open exactly while the broker works it or a
   * remainder is deferred; while open, a priced delta on a report of any fill makes it PARTIAL.
   */
  lemma MirrorsBroker(o: OrderRow, lag: Option<real>, p: Pass, grace: real)
    requires 0.0 <= o.filledQty && Open(o.status) && NonNegative(p.feed)
    ensures var s, reported := Sync(o, lag, p, grace).posting.row.status, p.report.status;
            && (s == Some(CANCELLED) <==> reported == CANCELED)
            && (s == Some(EXPIRED) <==> reported == B_EXPIRED)
            && (s == Some(REJECTED) <==> reported == B_REJECTED)
            && (Open(s) <==>
                reported in {WORKING, PARTIALLY_FILLED} || (reported == B_FILLED && Defers(o.filledQty, p, lag, grace)))
    ensures var s, filled := Sync(o, lag, p, grace).posting.row.status, p.report.status != WORKING;
            var priced := p.report.filled - o.filledQty > 0.000000000001 && p.report.avg > 0.0;
            Open(s) ==> s == if filled && priced then Some(PARTIAL) else o.status
  {
    PlanQty(o.filledQty, p, lag, grace);
    OpenStays(o, PlanPass(o.filledQty, p, lag, grace).execs);
  }

  predicate EndsUnfilled(s: BrokerStatus) { s in {CANCELED, B_EXPIRED, B_REJECTED} }

  /**
   * The cancelled/expired/rejected exit has no such guard: the order ends with the broker's quantity on
   * record exactly when the pass did not defer (and, without an average price, when nothing was missing).
   */
  lemma UnfilledExitLosesExactlyWhenDeferring(o: OrderRow, lag: Option<real>, p: Pass, grace: real)
    requires 0.0 <= o.filledQty && Open(o.status) && NonNegative(p.feed) && EndsUnfilled(p.report.status)
    ensures var row := Sync(o, lag, p, grace).posting.row;
            && row.status.Some? && Terminal(row.status.value)
            && (row.filledQty >= p.report.filled - QTY_EPS <==>
                !Defers(o.filledQty, p, lag, grace) && (p.report.avg > 0.0 || p.report.filled - o.filledQty <= QTY_EPS))
  {
    SyncSums(o, lag, p, grace);
    PlanQty(o.filledQty, p, lag, grace);
  }

  /** The loss, for every open order: the cancel arrives inside the grace window while the feed is still empty. */
  lemma CancelDropsDeferredRemainder(o: OrderRow, q: real, avg: real, now: real, grace: real)
    requires 0.0 <= o.filledQty && Open(o.status) && q > o.filledQty + QTY_EPS && avg > 0.0 && grace > 0.0
    ensures Sync(o, None, Pass(Report(CANCELED, q, avg), None, [], now), grace)
      == Outcome(Posting(Move(o, CANCELLED), []), None)
  {
    var p := Pass(Report(CANCELED, q, avg), None, [], now);
    assert Replay([], o.filledQty) == [] && Remainder(o.filledQty, p) == q - o.filledQty;
    assert Defers(o.filledQty, p, None, grace);
  }

  // ---------------------------------------------------------------- whole runs

  function Run(o: OrderRow, lag: Option<real>, passes: seq<Pass>, grace: real): (out: Outcome)
    requires 0.0 <= o.filledQty
    ensures 0.0 <= out.posting.row.filledQty
  {
    if passes == [] then Outcome(Posting(o, []), lag)
    else
      var before := Run(o, lag, passes[..|passes| - 1], grace);
      Sync(before.posting.row, before.lag, passes[|passes| - 1], grace)
  }

  /** The lag entry one pass leaves: a deferral keeps the first sighting, and a closed order has none. */
  lemma LagAfter(o: OrderRow, lag: Option<real>, p: Pass, grace: real)
    requires 0.0 <= o.filledQty && Open(o.status) && NonNegative(p.feed)
    ensures var out := Sync(o, lag, p, grace);
            && (!Open(out.posting.row.status) ==> out.lag == None)
            && (Open(out.posting.row.status) && Defers(o.filledQty, p, lag, grace) ==>
                  out.lag == if lag.Some? then lag else Some(p.now))
            && (out.lag == None || out.lag == lag || Defers(o.filledQty, p, lag, grace))
            && (Defers(o.filledQty, p, lag, grace) ==> p.now - (if lag.Some? then lag.value else p.now) < grace)
  {
    hide Value, RecordAll, Replay, StreamCovers, HasDelta;
    OpenStays(o, PlanPass(o.filledQty, p, lag, grace).execs);
    PlanQty(o.filledQty, p, lag, grace);
  }

  /** Every report says FILLED, and no feed takes anything back. */
  ghost predicate FilledReports(passes: seq<Pass>)
  {
    forall i :: 0 <= i < |passes| ==> passes[i].report.status == B_FILLED && NonNegative(passes[i].feed)
  }

  /**
   * The grace window runs from the first sighting: an order that is still open after a run of FILLED reports carries
   * the clock of the first of them, and has waited for less than the grace.
   */
  lemma {:induction false} GraceRunsFromFirstSighting(o: OrderRow, passes: seq<Pass>, grace: real)
    requires 0.0 <= o.filledQty && Open(o.status) && passes != [] && FilledReports(passes)
    requires Open(Run(o, None, passes, grace).posting.row.status)
    ensures Run(o, None, passes, grace).lag == Some(passes[0].now)
    ensures passes[|passes| - 1].now - passes[0].now < grace
  {
    hide Sync, Defers;
    var n := |passes| - 1;
    var before := Run(o, None, passes[..n], grace);
    ClosedStays(before.posting.row, before.lag, passes[n], grace);
    MirrorsBroker(before.posting.row, before.lag, passes[n], grace);
    LagAfter(before.posting.row, before.lag, passes[n], grace);
    if n > 0 { GraceRunsFromFirstSighting(o, passes[..n], grace); }
  }

  lemma ClosedStays(o: OrderRow, lag: Option<real>, p: Pass, grace: real)
    requires 0.0 <= o.filledQty
    ensures !Open(o.status) ==> Sync(o, lag, p, grace) == Outcome(Posting(o, []), lag)
  {}

  /** Either still open, or FILLED with the broker's quantity on record if it was always the same and priced. */
  ghost predicate OpenOrComplete(row: OrderRow, passes: seq<Pass>, r: Report)
  {
    Open(row.status) ||
    (row.status == Some(FILLED) &&
     ((forall i :: 0 <= i < |passes| ==> passes[i].report == r) && r.avg > 0.0 ==> row.filledQty >= r.filled - QTY_EPS))
  }

  lemma {:induction false} FilledRunStays(o: OrderRow, passes: seq<Pass>, grace: real, r: Report)
    requires 0.0 <= o.filledQty && Open(o.status) && FilledReports(passes)
    ensures OpenOrComplete(Run(o, None, passes, grace).posting.row, passes, r)
  {
    hide Sync, Defers;
    if passes != [] {
      var n := |passes| - 1;
      var before := Run(o, None, passes[..n], grace);
      FilledRunStays(o, passes[..n], grace, r);
      ClosedStays(before.posting.row, before.lag, passes[n], grace);
      if Open(before.posting.row.status) {
        FilledExitIsComplete(before.posting.row, before.lag, passes[n], grace);
        MirrorsBroker(before.posting.row, before.lag, passes[n], grace);
      }
      assert forall i :: 0 <= i < n ==> passes[..n][i] == passes[i];
    }
  }

  /**
   * No FILLED report waits longer than the grace, however the feed behaves: by a pass that far from the first one the
   * order is FILLED, with the broker's quantity on record if the reports agree on one and price it.
   */
  lemma FilledReportsComplete(o: OrderRow, passes: seq<Pass>, grace: real, r: Report)
    requires 0.0 <= o.filledQty && Open(o.status) && passes != [] && FilledReports(passes)
    requires passes[|passes| - 1].now - passes[0].now >= grace
    ensures var row := Run(o, None, passes, grace).posting.row;
            && row.status == Some(FILLED)
            && ((forall i :: 0 <= i < |passes| ==> passes[i].report == r) && r.avg > 0.0 ==>
                  row.filledQty >= r.filled - QTY_EPS)
  {
    hide Run;
    FilledRunStays(o, passes, grace, r);
    if Open(Run(o, None, passes, grace).posting.row.status) { GraceRunsFromFirstSighting(o, passes, grace); }
  }

  /** Pass i defers with no entry before it, and the entry it makes has been there ever since. */
  ghost predicate SeenFirst(o: OrderRow, passes: seq<Pass>, grace: real, i: nat)
    requires 0.0 <= o.filledQty && i < |passes|
  {
    var before, lag := Run(o, None, passes[..i], grace), Some(passes[i].now);
    && before.lag == None && Defers(before.posting.row.filledQty, passes[i], None, grace)
    && forall j :: i < j <= |passes| ==> Run(o, None, passes[..j], grace).lag == lag
  }

  /** In every run, whatever the reports, a lag entry is the clock of the pass that first deferred. */
  lemma {:induction false} LagIsFirstSighting(o: OrderRow, passes: seq<Pass>, grace: real) returns (i: nat)
    requires 0.0 <= o.filledQty && forall k :: 0 <= k < |passes| ==> NonNegative(passes[k].feed)
    requires Run(o, None, passes, grace).lag.Some?
    ensures i < |passes| && SeenFirst(o, passes, grace, i)
  {
    hide Sync, Defers;
    var n := |passes| - 1;
    var init := passes[..n];
    var before := Run(o, None, init, grace);
    assert passes[..|passes|] == passes;
    ClosedStays(before.posting.row, before.lag, passes[n], grace);
    if Open(before.posting.row.status) { LagAfter(before.posting.row, before.lag, passes[n], grace); }
    if before.lag.Some? {
      i := LagIsFirstSighting(o, init, grace);
      assert init[..i] == passes[..i] && init[..n] == init;
      forall j | i < j <= |passes| ensures Run(o, None, passes[..j], grace).lag == Some(passes[i].now) {
        if j <= n { assert init[..j] == passes[..j]; }
      }
    } else {
      i := n;
    }
  }

  /** No double count over any run: filled_qty only grows and never passes the executed quantity. */
  lemma {:induction false} RunNeverOverfills(o: OrderRow, lag: Option<real>, passes: seq<Pass>, grace: real,
      total: real)
    requires 0.0 <= o.filledQty <= total
    requires forall i :: 0 <= i < |passes| ==>
      NonNegative(passes[i].feed) && passes[i].report.filled <= total && PrintQty(passes[i].feed) <= total
    ensures o.filledQty <= Run(o, lag, passes, grace).posting.row.filledQty <= total
  {
    if passes != [] {
      var init := passes[..|passes| - 1];
      RunNeverOverfills(o, lag, init, grace, total);
      var before := Run(o, lag, init, grace);
      NeverOverfills(before.posting.row, before.lag, passes[|passes| - 1], grace, total);
    }
  }

  /** The pass takes its executions from the feed alone: no stream print, no fallback to the average. */
  ghost predicate FeedOnly(o: OrderRow, lag: Option<real>, p: Pass, grace: real)
  {
    && p.stream.None?
    && (HasDelta(o.filledQty, p.report) && Remainder(o.filledQty, p) > QTY_EPS ==> Defers(o.filledQty, p, lag, grace))
  }

  /** The pass actually replays the feed. */
  predicate Replays(o: OrderRow, p: Pass) { Open(o.status) && HasDelta(o.filledQty, p.report) }

  /** The feed only ever grows, and no pass needs the average. */
  ghost predicate FeedDriven(o: OrderRow, lag: Option<real>, passes: seq<Pass>, grace: real, m: real)
    requires 0.0 <= o.filledQty
  {
    passes == [] ||
    var init, p := passes[..|passes| - 1], passes[|passes| - 1];
    var before := Run(o, lag, init, grace);
    && FeedDriven(o, lag, init, grace, m)
    && Executions(p.feed, m)
    && (init != [] ==> init[|init| - 1].feed <= p.feed)
    && FeedOnly(before.posting.row, before.lag, p, grace)
  }

  lemma FeedOnlyPass(o: OrderRow, lag: Option<real>, p: Pass, grace: real)
    requires 0.0 <= o.filledQty && FeedOnly(o, lag, p, grace)
    ensures var row := Sync(o, lag, p, grace).posting.row;
            var xs := if Replays(o, p) then Replay(p.feed, o.filledQty) else [];
            row.filledQty == o.filledQty + PrintQty(xs) && Notional(row) == Notional(o) + PrintNotional(xs)
  {
    if Open(o.status) { SyncSums(o, lag, p, grace); }
  }

  /** One feed-driven pass, on an order that has caught up with an earlier feed. */
  lemma OnePassCatchesUp(o: OrderRow, lag: Option<real>, p: Pass, grace: real, base: seq<Print>,
      skipped: seq<Print>, m: real)
    returns (base': seq<Print>, skipped': seq<Print>)
    requires 0.0 <= o.filledQty && FeedOnly(o, lag, p, grace) && Executions(p.feed, m)
    requires base <= p.feed && Caught(base, o.filledQty, Notional(o), skipped, m)
    ensures var row := Sync(o, lag, p, grace).posting.row; Caught(base', row.filledQty, Notional(row), skipped', m)
    ensures base' <= p.feed && (Replays(o, p) ==> base' == p.feed)
  {
    hide Sync, Caught, FeedOnly, Notional;
    FeedOnlyPass(o, lag, p, grace);
    if Replays(o, p) {
      skipped' := PassCatchesUp(base, p.feed, o.filledQty, Notional(o), skipped, m);
      base' := p.feed;
    } else {
      assert PrintQty([]) == 0.0 && PrintNotional([]) == 0.0;
      base', skipped' := base, skipped;
    }
  }

  lemma NothingCaught(o: OrderRow, m: real)
    requires o.filledQty == 0.0
    ensures Caught([], o.filledQty, Notional(o), [], m)
  {
    ValueAtZero(AvgOrZero(o));
  }

  /** After any number of feed-driven passes the order has caught up with the last feed it replayed. */
  lemma {:induction false} PassesCatchUp(o: OrderRow, lag: Option<real>, passes: seq<Pass>, grace: real, m: real)
    returns (base: seq<Print>, skipped: seq<Print>)
    requires o.filledQty == 0.0 && FeedDriven(o, lag, passes, grace, m)
    ensures var row := Run(o, lag, passes, grace).posting.row;
            && Caught(base, row.filledQty, Notional(row), skipped, m)
            && (passes == [] ==> base == [])
            && (passes != [] ==> base <= passes[|passes| - 1].feed)
    ensures passes != [] && Replays(Run(o, lag, passes[..|passes| - 1], grace).posting.row, passes[|passes| - 1]) ==>
      base == passes[|passes| - 1].feed
  {
    hide Sync, Caught, FeedOnly, Replays, Notional;
    if passes == [] {
      NothingCaught(o, m);
      base, skipped := [], [];
    } else {
      var n := |passes| - 1;
      base, skipped := PassesCatchUp(o, lag, passes[..n], grace, m);
      var before := Run(o, lag, passes[..n], grace);
      base, skipped := OnePassCatchesUp(before.posting.row, before.lag, passes[n], grace, base, skipped, m);
    }
  }

  /**
   * Incremental replay equals one-shot replay: however many passes read the growing feed, the quantity and
   * notional on record match a single pass over the final feed to within one sliver.
   */
  lemma IncrementalEqualsOneShot(o: OrderRow, lag: Option<real>, passes: seq<Pass>, grace: real, m: real)
    requires o.filledQty == 0.0 && FeedDriven(o, lag, passes, grace, m) && passes != [] && 0.0 <= m
    requires Replays(Run(o, lag, passes[..|passes| - 1], grace).posting.row, passes[|passes| - 1])
    ensures var row, feed := Run(o, lag, passes, grace).posting.row, passes[|passes| - 1].feed;
            var once := Replay(feed, 0.0);
            && 0.0 <= PrintQty(feed) - row.filledQty <= QTY_EPS
            && Abs(row.filledQty - PrintQty(once)) <= QTY_EPS
            && Abs(Notional(row) - PrintNotional(once)) <= Value(QTY_EPS, m)
  {
    hide *;
    LastFeed(o, lag, passes, grace, m);
    var base, skipped := PassesCatchUp(o, lag, passes, grace, m);
    var row := Run(o, lag, passes, grace).posting.row;
    CaughtLikeOneShot(passes[|passes| - 1].feed, row.filledQty, Notional(row), skipped, m);
  }

  lemma LastFeed(o: OrderRow, lag: Option<real>, passes: seq<Pass>, grace: real, m: real)
    requires 0.0 <= o.filledQty && FeedDriven(o, lag, passes, grace, m) && passes != []
    ensures Executions(passes[|passes| - 1].feed, m)
  {}

  /** Whatever caught up with a feed agrees with one replay of all of it. */
  lemma CaughtLikeOneShot(feed: seq<Print>, q: real, n: real, skipped: seq<Print>, m: real)
    requires Executions(feed, m) && Caught(feed, q, n, skipped, m) && 0.0 <= m
    ensures var once := Replay(feed, 0.0);
            && 0.0 <= PrintQty(feed) - q <= QTY_EPS
            && Abs(q - PrintQty(once)) <= QTY_EPS
            && Abs(n - PrintNotional(once)) <= Value(QTY_EPS, m)
  {
    var skippedOnce := PassCatchesUp([], feed, 0.0, 0.0, [], m);
    var once := Replay(feed, 0.0);
    CaughtAgree(feed, q, n, skipped, PrintQty(once), PrintNotional(once), skippedOnce, m);
  }

  /** Two records of the same feed differ by at most one sliver. */
  lemma CaughtAgree(feed: seq<Print>, q: real, n: real, skipped: seq<Print>, q': real, n': real,
      skipped': seq<Print>, m: real)
    requires Caught(feed, q, n, skipped, m) && Caught(feed, q', n', skipped', m) && 0.0 <= m
    ensures 0.0 <= PrintQty(feed) - q <= QTY_EPS
    ensures Abs(q - q') <= QTY_EPS && Abs(n - n') <= Value(QTY_EPS, m)
  {
    hide Value;
    SliverBound(skipped, m);
    SliverBound(skipped', m);
    ValueGrows(PrintQty(skipped), QTY_EPS, m);
    ValueGrows(PrintQty(skipped'), QTY_EPS, m);
  }

  lemma ValueGrows(p: real, q: real, m: real)
    requires p <= q && 0.0 <= m
    ensures Value(p, m) <= Value(q, m)
  {}
}
