// The main consumer loop: quality gate, aggregator, three buffers and their batched flushes
// (app/workers/market_db_writer.py).
module MarketDbWriters {
  import opened Money
  import opened Candles
  import opened CandleStore
  import opened DataQuality
  import Rollup

  const BATCH := 25 // DQ_BATCH_SIZE

  // What one blocking pop returns.
  datatype Item = Timeout | Message(tick: Raw)

  // A FLAG or REJECT event.
  datatype Event = Event(tick: Raw, result: Result)

  // A tick without a symbol id (missing or zero) is dropped.
  predicate Routed(item: Item) { item.Message? && item.tick.symbol.Some? && item.tick.symbol.value != 0 }

  function AsTick(t: Raw, flagged: bool): Tick
    requires t.symbol.Some?
  {
    Tick(t.symbol.value, t.time, t.price, t.volume, flagged)
  }

  function RoutedCount(items: seq<Item>): nat
  {
    if items == [] then 0 else RoutedCount(items[..|items| - 1]) + if Routed(items[|items| - 1]) then 1 else 0
  }

  function RejectCount(events: seq<Event>): nat
  {
    if events == [] then 0
    else RejectCount(events[..|events| - 1]) + if events[|events| - 1].result.verdict == REJECT then 1 else 0
  }

  /** What one routed tick adds to the accepted ticks and to the events. */
  function Accepts(t: Raw, r: Result): seq<Tick>
    requires t.symbol.Some?
  {
    if r.verdict == REJECT then [] else [AsTick(t, r.flags != [])]
  }

  function Reports(t: Raw, r: Result): seq<Event> { if r.verdict == PASS then [] else [Event(t, r)] }

  /**
   * The aggregator has run over the stored and then the buffered ticks, emitting the stored and then the buffered
   * candles.
   */
  ghost predicate Aggregated(buckets: seq<Candle>, candles: seq<Candle>, completed: seq<Candle>, ticks: seq<Tick>,
      raw: seq<Tick>)
  {
    State(buckets, candles + completed) == Run(ticks + raw)
  }

  /** One more tick fed to the aggregator. */
  lemma AggregatedAppends(buckets: seq<Candle>, candles: seq<Candle>, completed: seq<Candle>, ticks: seq<Tick>,
      raw: seq<Tick>, t: Tick, buckets': seq<Candle>, done: seq<Candle>)
    requires Aggregated(buckets, candles, completed, ticks, raw)
    requires State(buckets', done) == Ingested(State(buckets, []), t)
    ensures Aggregated(buckets', candles, completed + done, ticks, raw + [t])
  {
    hide Run, Ingested, Split, Enter;
    assert ticks + (raw + [t]) == (ticks + raw) + [t];
    assert candles + (completed + done) == (candles + completed) + done;
    RunStep(ticks + raw, t);
    IngestedFrom(buckets, candles + completed, t);
  }

  /** Moving the buffers into the stores changes nothing. */
  lemma AggregatedFlushes(buckets: seq<Candle>, candles: seq<Candle>, completed: seq<Candle>, ticks: seq<Tick>,
      raw: seq<Tick>)
    requires Aggregated(buckets, candles, completed, ticks, raw)
    ensures Aggregated(buckets, candles + completed, [], ticks + raw, [])
  {
    assert (candles + completed) + [] == candles + completed;
    assert (ticks + raw) + [] == ticks + raw;
  }

  /** One turn of the gate: a routed tick is checked against its own symbol, and no other memory changes. */
  ghost predicate Gates(g: imap<int, Memory>, item: Item, r: Result, g': imap<int, Memory>)
    requires Everywhere(g) && Everywhere(g')
  {
    if !Routed(item) then g' == g
    else
      var symbol := item.tick.symbol.value;
      Checks(g[symbol], item.tick, r, g'[symbol]) && forall s :: s != symbol ==> g'[s] == g[s]
  }

  /** The ticks that a stretch of items with these verdicts adds, in order. */
  function AcceptedOf(items: seq<Item>, results: seq<Result>): seq<Tick>
    requires |results| == |items|
  {
    if items == [] then []
    else
      var n := |items| - 1;
      var before := AcceptedOf(items[..n], results[..n]);
      if Routed(items[n]) then before + Accepts(items[n].tick, results[n]) else before
  }

  /** The events that a stretch of items with these verdicts adds, in order. */
  function ReportedOf(items: seq<Item>, results: seq<Result>): seq<Event>
    requires |results| == |items|
  {
    if items == [] then []
    else
      var n := |items| - 1;
      var before := ReportedOf(items[..n], results[..n]);
      if Routed(items[n]) then before + Reports(items[n].tick, results[n]) else before
  }

  /** A stretch of items, their verdicts, and the gate's memories before, between and after them. */
  ghost predicate Trace(items: seq<Item>, results: seq<Result>, memories: seq<imap<int, Memory>>)
  {
    && |results| == |items| && |memories| == |items| + 1
    && (forall i :: 0 <= i < |memories| ==> Everywhere(memories[i]))
    && (forall i :: 0 <= i < |items| ==> Gates(memories[i], items[i], results[i], memories[i + 1]))
  }

  lemma TraceStart(g: imap<int, Memory>)
    requires Everywhere(g)
    ensures Trace([], [], [g])
  {}

  lemma TraceStep(
    items: seq<Item>, results: seq<Result>, memories: seq<imap<int, Memory>>,
    item: Item, r: Result, g: imap<int, Memory>)
    requires Trace(items, results, memories) && Everywhere(g) && Gates(memories[|items|], item, r, g)
    ensures Trace(items + [item], results + [r], memories + [g])
  {
    hide Gates, Everywhere;
  }

  lemma {:induction false} EveryRoutedTickIsAccountedFor(items: seq<Item>, results: seq<Result>)
    requires |results| == |items|
    ensures |AcceptedOf(items, results)| + RejectCount(ReportedOf(items, results)) == RoutedCount(items)
  {
    if items != [] {
      var n := |items| - 1;
      EveryRoutedTickIsAccountedFor(items[..n], results[..n]);
      if Routed(items[n]) { ReportCounts(ReportedOf(items[..n], results[..n]), items[n].tick, results[n]); }
    }
  }

  /** The message is routed, was not rejected, and the tick carries its columns, marked when its flags say so. */
  ghost predicate CameFrom(t: Tick, item: Item, r: Result)
  {
    && item.Message? && item.tick.symbol.Some? && item.tick.symbol.value != 0 && r.verdict != REJECT
    && t.symbol == item.tick.symbol.value && t.time == item.tick.time
    && t.price == item.tick.price && t.volume == item.tick.volume
    && (t.flagged <==> r.flags != [])
  }

  ghost predicate CameFromOne(t: Tick, items: seq<Item>, results: seq<Result>)
    requires |results| == |items|
  {
    exists i :: 0 <= i < |items| && CameFrom(t, items[i], results[i])
  }

  /** The volumes of the routed messages that were not rejected. */
  function MessageVolume(items: seq<Item>, results: seq<Result>): real
    requires |results| == |items|
  {
    if items == [] then 0.0
    else
      var n := |items| - 1;
      MessageVolume(items[..n], results[..n])
        + if Routed(items[n]) && results[n].verdict != REJECT then items[n].tick.volume else 0.0
  }

  /** Every accepted tick carries the columns of a message that was not rejected. */
  lemma {:induction false} AcceptedTicksCameFromMessages(items: seq<Item>, results: seq<Result>)
    requires |results| == |items|
    ensures forall k :: 0 <= k < |AcceptedOf(items, results)| ==>
      CameFromOne(AcceptedOf(items, results)[k], items, results)
  {
    hide CameFrom, Accepts;
    if items != [] {
      var n := |items| - 1;
      var before, all := AcceptedOf(items[..n], results[..n]), AcceptedOf(items, results);
      AcceptedTicksCameFromMessages(items[..n], results[..n]);
      forall k | 0 <= k < |all| ensures CameFromOne(all[k], items, results) {
        if k < |before| {
          var i :| 0 <= i < n && CameFrom(before[k], items[..n][i], results[..n][i]);
          assert CameFrom(all[k], items[i], results[i]);
        } else {
          AcceptedCameFrom(items[n], results[n]);
        }
      }
    }
  }

  lemma AcceptedCameFrom(item: Item, r: Result)
    requires Routed(item)
    ensures |Accepts(item.tick, r)| == if r.verdict == REJECT then 0 else 1
    ensures r.verdict != REJECT ==> CameFrom(Accepts(item.tick, r)[0], item, r)
  {}

  /** All ticks after the first ones came from the messages. */
  ghost predicate NewCameFrom(ts: seq<Tick>, ts': seq<Tick>, items: seq<Item>, results: seq<Result>)
  {
    |results| == |items| && |ts| <= |ts'| && forall k :: |ts| <= k < |ts'| ==> CameFromOne(ts'[k], items, results)
  }

  lemma AppendedCameFrom(ts: seq<Tick>, items: seq<Item>, results: seq<Result>)
    requires |results| == |items|
    ensures NewCameFrom(ts, ts + AcceptedOf(items, results), items, results)
  {
    AcceptedTicksCameFromMessages(items, results);
  }

  lemma OneCameFrom(ts: seq<Tick>, item: Item, r: Result)
    requires Routed(item)
    ensures NewCameFrom(ts, ts + Accepts(item.tick, r), [item], [r])
  {
    AcceptedCameFrom(item, r);
    assert [item][0] == item && [r][0] == r;
    assert r.verdict != REJECT ==> CameFrom(Accepts(item.tick, r)[0], [item][0], [r][0]);
  }

  /** No volume is lost or added on the way in. */
  lemma {:induction false} AcceptedVolume(items: seq<Item>, results: seq<Result>)
    requires |results| == |items|
    ensures Volume(AcceptedOf(items, results)) == MessageVolume(items, results)
  {
    hide Accepts;
    if items != [] {
      var n := |items| - 1;
      var before := AcceptedOf(items[..n], results[..n]);
      AcceptedVolume(items[..n], results[..n]);
      if Routed(items[n]) {
        AcceptedCameFrom(items[n], results[n]);
        var more := Accepts(items[n].tick, results[n]);
        if more == [] { assert before + more == before; } else { assert (before + more)[..|before|] == before; }
      }
    }
  }

  /** Whose message and verdict an event is: a routed one that did not pass. */
  ghost predicate ReportsOne(e: Event, items: seq<Item>, results: seq<Result>)
    requires |results| == |items|
  {
    exists i :: 0 <= i < |items| && Routed(items[i]) && results[i].verdict != PASS &&
                e == Event(items[i].tick, results[i])
  }

  function NotPassed(items: seq<Item>, results: seq<Result>): nat
    requires |results| == |items|
  {
    if items == [] then 0
    else
      var n := |items| - 1;
      NotPassed(items[..n], results[..n]) + if Routed(items[n]) && results[n].verdict != PASS then 1 else 0
  }

  /** Every event is the message and verdict of one that did not pass, and there are as many. */
  lemma {:induction false} EventsReportMessages(items: seq<Item>, results: seq<Result>)
    requires |results| == |items|
    ensures forall k :: 0 <= k < |ReportedOf(items, results)| ==>
      ReportsOne(ReportedOf(items, results)[k], items, results)
    ensures |ReportedOf(items, results)| == NotPassed(items, results)
  {
    if items != [] {
      var n := |items| - 1;
      var before, all := ReportedOf(items[..n], results[..n]), ReportedOf(items, results);
      EventsReportMessages(items[..n], results[..n]);
      forall k | 0 <= k < |all| ensures ReportsOne(all[k], items, results) {
        if k < |before| {
          assert ReportsOne(before[k], items[..n], results[..n]);
        } else {
          assert all[k] == Event(items[n].tick, results[n]);
        }
      }
    }
  }

  lemma {:induction false} RejectCountConcat(a: seq<Event>, b: seq<Event>)
    ensures RejectCount(a + b) == RejectCount(a) + RejectCount(b)
  {
    if b == [] {
      assert a + b == a;
    } else {
      assert (a + b)[..|a + b| - 1] == a + b[..|b| - 1];
      RejectCountConcat(a, b[..|b| - 1]);
    }
  }

  lemma OneMoreItem(items: seq<Item>, results: seq<Result>, item: Item, r: Result)
    requires |results| == |items|
    ensures Routed(item) ==>
      && AcceptedOf(items + [item], results + [r]) == AcceptedOf(items, results) + Accepts(item.tick, r)
      && ReportedOf(items + [item], results + [r]) == ReportedOf(items, results) + Reports(item.tick, r)
    ensures !Routed(item) ==>
      && AcceptedOf(items + [item], results + [r]) == AcceptedOf(items, results)
      && ReportedOf(items + [item], results + [r]) == ReportedOf(items, results)
  {
    assert (items + [item])[..|items|] == items && (results + [r])[..|items|] == results;
  }

  class MarketDbWriter {
    const aggregator: CandleAggregator
    const dq: DQPipeline
    var completed: seq<Candle>
    var dqEvents: seq<Event>
    var rawTicks: seq<Tick>
    var tickCount: nat
    // What has been handed to the three flushes so far.
    var candleStore: seq<Candle>
    var eventStore: seq<Event>
    var tickStore: seq<Tick>

    /** Every non-rejected tick: in the tick store, or still in the raw buffer. */
    function Accepted(): seq<Tick> reads this { tickStore + rawTicks }

    function Events(): seq<Event> reads this { eventStore + dqEvents }

    /** The loop-head invariant: flushed, buffered and open candles are what the accepted ticks aggregate to. */
    ghost predicate Valid()
      reads this, aggregator, dq
    {
      && dq.Valid() && tickCount < BATCH
      && Aggregated(aggregator.buckets, candleStore, completed, tickStore, rawTicks)
    }

    constructor ()
      ensures Valid() && Accepted() == [] && Events() == [] && fresh(aggregator) && fresh(dq)
    {
      aggregator := new CandleAggregator();
      dq := new DQPipeline();
      completed, dqEvents, rawTicks, tickCount := [], [], [], 0;
      candleStore, eventStore, tickStore := [], [], [];
    }

    /** Flushes and clears the three buffers; nothing is lost or duplicated. */
    method Flush()
      requires dq.Valid() && Aggregated(aggregator.buckets, candleStore, completed, tickStore, rawTicks)
      modifies this
      ensures Valid() && Accepted() == old(Accepted()) && Events() == old(Events())
      ensures candleStore == old(candleStore) + old(completed)
      ensures completed == [] && dqEvents == [] && rawTicks == [] && tickCount == 0
    {
      AggregatedFlushes(aggregator.buckets, candleStore, completed, tickStore, rawTicks);
      candleStore, eventStore, tickStore := candleStore + completed, eventStore + dqEvents, tickStore + rawTicks;
      completed, dqEvents, rawTicks, tickCount := [], [], [], 0;
      assert Accepted() == old(Accepted()) && Events() == old(Events());
    }

    /** Feeds a tick that was not rejected to the aggregator and the raw buffer. */
    method Accept(t: Tick)
      requires Aggregated(aggregator.buckets, candleStore, completed, tickStore, rawTicks)
      modifies this`completed, this`rawTicks, aggregator
      ensures Aggregated(aggregator.buckets, candleStore, completed, tickStore, rawTicks)
      ensures rawTicks == old(rawTicks) + [t]
    {
      ghost var buckets := aggregator.buckets;
      var done := aggregator.Ingest(t);
      AggregatedAppends(buckets, candleStore, completed, tickStore, rawTicks, t, aggregator.buckets, done);
      completed := completed + done;
      rawTicks := rawTicks + [t];
    }

    /** Routes a checked tick by its verdict. */
    method Route(t: Raw, r: Result)
      requires Aggregated(aggregator.buckets, candleStore, completed, tickStore, rawTicks) && t.symbol.Some?
      modifies this`completed, this`rawTicks, this`dqEvents, aggregator
      ensures Aggregated(aggregator.buckets, candleStore, completed, tickStore, rawTicks)
      ensures Accepted() == old(Accepted()) + Accepts(t, r) && Events() == old(Events()) + Reports(t, r)
    {
      if r.verdict == FLAG || r.verdict == REJECT { dqEvents := dqEvents + [Event(t, r)]; }
      if r.verdict != REJECT { Accept(AsTick(t, r.flags != [])); }
      assert Accepted() == old(Accepted()) + Accepts(t, r) && Events() == old(Events()) + Reports(t, r);
    }

    /** One turn of the loop. */
    method Process(item: Item) returns (r: Result)
      requires Valid()
      modifies this, aggregator, dq
      ensures Valid()
      ensures Routed(item) ==>
        && Accepted() == old(Accepted()) + Accepts(item.tick, r)
        && Events() == old(Events()) + Reports(item.tick, r)
      ensures Routed(item) ==> NewCameFrom(old(Accepted()), Accepted(), [item], [r])
      ensures Gates(old(dq.Memories()), item, r, dq.Memories())
      ensures !Routed(item) ==> Accepted() == old(Accepted()) && Events() == old(Events())
      ensures item.Timeout? || (Routed(item) && old(tickCount) == 24) ==>
        completed == [] && dqEvents == [] && rawTicks == [] && tickCount == 0
      ensures item.Message? && (!Routed(item) || old(tickCount) != 24) ==>
        && candleStore == old(candleStore) && eventStore == old(eventStore) && tickStore == old(tickStore)
        && tickCount == old(tickCount) + if Routed(item) then 1 else 0
    {
      hide Checks, Accepts, Reports, Aggregated, Judge, NewCameFrom;
      r := Result(PASS, []);
      if item.Timeout? {
        Flush();
        return;
      }
      var tick := item.tick;
      if tick.symbol.None? || tick.symbol.value == 0 { return; }

      r := dq.Check(tick, tick.symbol.value);
      Route(tick, r);
      OneCameFrom(old(Accepted()), item, r);

      tickCount := tickCount + 1;
      if tickCount >= BATCH { Flush(); }
    }

    /**
     * The loop over a stretch of items. With the gate's verdicts, each judged by what the gate remembered at its
     * turn, it appends exactly the routed ticks that were not rejected, in order, and exactly their events.
     */
    method Drain(items: seq<Item>) returns (ghost results: seq<Result>, ghost memories: seq<imap<int, Memory>>)
      requires Valid()
      modifies this, aggregator, dq
      ensures Valid() && Trace(items, results, memories)
      ensures memories[0] == old(dq.Memories()) && memories[|items|] == dq.Memories()
      ensures Accepted() == old(Accepted()) + AcceptedOf(items, results)
      ensures Events() == old(Events()) + ReportedOf(items, results)
      ensures |Accepted()| + RejectCount(Events())
        == |old(Accepted())| + RejectCount(old(Events())) + RoutedCount(items)
      ensures NewCameFrom(old(Accepted()), Accepted(), items, results)
    {
      hide AcceptedOf, ReportedOf, Gates, Aggregated, Routed, RejectCount, RoutedCount, Everywhere, Accepts, Reports;
      hide NewCameFrom, Trace;
      results, memories := [], [dq.Memories()];
      var i := 0;
      NoItems();
      TraceStart(dq.Memories());
      assert items[..0] == [];
      while i < |items|
        invariant i <= |items| && |results| == i && |memories| == i + 1
        invariant Valid() && Trace(items[..i], results, memories)
        invariant memories[0] == old(dq.Memories()) && memories[i] == dq.Memories()
        invariant Accepted() == old(Accepted()) + AcceptedOf(items[..i], results)
        invariant Events() == old(Events()) + ReportedOf(items[..i], results)
      {
        var r := Process(items[i]);
        OneMoreItem(items[..i], results, items[i], r);
        TraceStep(items[..i], results, memories, items[i], r, dq.Memories());
        assert items[..i + 1] == items[..i] + [items[i]];
        results, memories := results + [r], memories + [dq.Memories()];
        i := i + 1;
      }
      assert items[..i] == items;
      EveryRoutedTickIsAccountedFor(items, results);
      AppendedCameFrom(old(Accepted()), items, results);
      RejectCountConcat(old(Events()), ReportedOf(items, results));
    }
  }

  lemma NoItems()
    ensures AcceptedOf([], []) == [] && ReportedOf([], []) == []
  {}

  lemma ReportCounts(events: seq<Event>, t: Raw, r: Result)
    requires t.symbol.Some?
    ensures |Accepts(t, r)| + RejectCount(events + Reports(t, r)) == RejectCount(events) + 1
  {
    if r.verdict == PASS {
      assert events + Reports(t, r) == events;
    } else {
      assert (events + Reports(t, r))[..|events|] == events;
    }
  }

  /**
   * Conservation at every loop head: each accepted tick is in exactly one of the tick store and the raw
   * buffer, and the tick counts of flushed, buffered and open candles add up to the accepted ticks.
   */
  lemma WriterConserves(w: MarketDbWriter)
    requires w.Valid()
    ensures |w.tickStore| + |w.rawTicks| == |w.Accepted()|
    ensures TickCount(w.candleStore) + TickCount(w.completed) + TickCount(w.aggregator.buckets) == |w.Accepted()|
  {
    TicksConserved(w.Accepted());
    TickCountConcat(w.candleStore, w.completed);
  }

  /**
   * At a loop head with nothing buffered, the candle table holds the whole bar of a bucket exactly when the
   * bucket has closed and none of its accepted ticks came late.
   */
  lemma TableHoldsWholeBuckets(w: MarketDbWriter, key: BucketKey)
    requires w.Valid() && w.completed == []
    ensures var table := Stored(w.candleStore);
            (key in table && Batch(w.Accepted(), Only(key)) == Some(table[key]))
              <==> Closed(w.Accepted(), key) && !Late(w.Accepted(), key)
  {
    assert w.candleStore + w.completed == w.candleStore;
    StoredWholeExactlyWhenNotLate(w.Accepted(), key);
  }

  /**
   * At every loop head, for a symbol whose accepted ticks arrived in time order: the hourly row rolled up from the
   * flushed candles, read in any order, is the bar of all the hour's accepted ticks exactly when none of the hour's
   * candles is still open or waiting in the buffer.
   */
  lemma HourlyRowWholeExactlyWhenFlushed(w: MarketDbWriter, symbol: int, hour: int, rows: seq<Candle>)
    requires w.Valid() && InOrder(w.Accepted(), symbol)
    requires Rollup.Lists(rows, Stored(w.candleStore), Rollup.OfHour(symbol, hour))
    ensures var sel := Rollup.OfHour(symbol, hour);
            Rollup.Selected(Rollup.Grouped(rows)) == Rollup.Hourly(Batch(w.Accepted(), sel)) <==>
              Rollup.NoneOf(w.completed, sel) && Rollup.NoneOf(w.aggregator.buckets, sel)
  {
    Rollup.RowWholeExactlyWhenNothingPending(w.Accepted(), w.candleStore, w.completed, symbol, hour, rows);
  }

  // ---------------------------------------------------------------- spike rejections of one symbol

  /** The item is a tick of the symbol that reaches the spike check. */
  ghost predicate ScreensFor(item: Item, g: imap<int, Memory>, symbol: int)
    requires Everywhere(g)
  {
    Routed(item) && item.tick.symbol.value == symbol && Screened(g[symbol].seen, item.tick)
  }

  /** How many of the first n items are screened ticks of the symbol. */
  ghost function ScreenedTicks(items: seq<Item>, results: seq<Result>, memories: seq<imap<int, Memory>>, symbol: int,
      n: nat): nat
    requires Trace(items, results, memories) && n <= |items|
  {
    if n == 0 then 0
    else
      ScreenedTicks(items, results, memories, symbol, n - 1)
        + if ScreensFor(items[n - 1], memories[n - 1], symbol) then 1 else 0
  }

  /** How many of the first n items are screened ticks of the symbol that were rejected. */
  ghost function SpikeRejections(items: seq<Item>, results: seq<Result>, memories: seq<imap<int, Memory>>, symbol: int,
      n: nat): nat
    requires Trace(items, results, memories) && n <= |items|
  {
    if n == 0 then 0
    else
      SpikeRejections(items, results, memories, symbol, n - 1)
        + if ScreensFor(items[n - 1], memories[n - 1], symbol) && results[n - 1].verdict == REJECT then 1 else 0
  }

  /** Every screened tick of the symbol comes at the level. */
  ghost predicate StaysAt(items: seq<Item>, results: seq<Result>, memories: seq<imap<int, Memory>>, symbol: int,
      level: real)
    requires Trace(items, results, memories)
  {
    forall i :: 0 <= i < |items| && ScreensFor(items[i], memories[i], symbol) ==> items[i].tick.price == level
  }

  /** One turn: a screened tick is the next price at the level, and nothing else touches the symbol's prices. */
  lemma OneTurnAtLevel(g: imap<int, Memory>, item: Item, r: Result, g': imap<int, Memory>, symbol: int)
    requires Everywhere(g) && Everywhere(g') && Gates(g, item, r, g')
    ensures ScreensFor(item, g, symbol) ==>
      && g'[symbol].prices == NextPrices(g[symbol].prices, item.tick.price)
      && (r.verdict == REJECT <==> SpikeRejected(g[symbol].prices, item.tick.price))
    ensures !ScreensFor(item, g, symbol) ==> g'[symbol].prices == g[symbol].prices
  {
    hide Spiked, SpikeRejected, NextPrices, Judge;
    if ScreensFor(item, g, symbol) { JudgeMeans(g[symbol].prices, g[symbol].volumes, g[symbol].seen, item.tick); }
  }

  /** The symbol's price history after n items is that of its own screened ticks, however others interleave. */
  lemma {:induction false} FollowsLevel(items: seq<Item>, results: seq<Result>, memories: seq<imap<int, Memory>>,
      symbol: int, level: real, n: nat)
    requires Trace(items, results, memories) && StaysAt(items, results, memories, symbol, level) && n <= |items|
    ensures var start, k := memories[0][symbol].prices, ScreenedTicks(items, results, memories, symbol, n);
            && memories[n][symbol].prices == After(start, level, k)
            && SpikeRejections(items, results, memories, symbol, n) == Rejections(start, level, k)
  {
    hide ScreensFor, SpikeRejected, NextPrices, Gates;
    if n > 0 {
      FollowsLevel(items, results, memories, symbol, level, n - 1);
      OneTurnAtLevel(memories[n - 1], items[n - 1], results[n - 1], memories[n], symbol);
    }
  }

  /**
   * Over any stretch of items in which a symbol's screened ticks stay at one level, at most 20 of them are rejected
   * as spikes, and at most 18 when the level is not below what was remembered, whatever other symbols do meanwhile.
   */
  lemma SpikeRejectionsBounded(items: seq<Item>, results: seq<Result>, memories: seq<imap<int, Memory>>, symbol: int,
      level: real)
    requires Trace(items, results, memories) && StaysAt(items, results, memories, symbol, level) && level > 0.0
    requires DataQuality.Positive(memories[0][symbol].prices)
    ensures SpikeRejections(items, results, memories, symbol, |items|) <= 20
    ensures AtMost(memories[0][symbol].prices, level) ==>
      SpikeRejections(items, results, memories, symbol, |items|) <= 18
  {
    hide Gates, StaysAt, SpikeRejections;
    FollowsLevel(items, results, memories, symbol, level, |items|);
    RejectionsBounded(memories[0][symbol].prices, level, ScreenedTicks(items, results, memories, symbol, |items|));
  }
}
