// Incremental OHLCV aggregation against the batch definition, for every arrival order
// (app/workers/candle_aggregator.py).
module Candles {
  import opened Money

  // ---------------------------------------------------------------- ticks, bars, buckets

  // Times are whole microseconds since the epoch.
  const SECOND: int := 1000000
  const MINUTE: int := 60 * SECOND
  const HOUR: int := 60 * MINUTE

  // CANDLE_INTERVAL_SECONDS
  const INTERVAL: int := 60

  datatype Tick = Tick(symbol: int, time: int, price: real, volume: real, flagged: bool)

  type Positive = n: int | 0 < n witness 1

  datatype Bar = Bar(open: real, high: real, low: real, close: real, volume: real, count: Positive, hasDq: bool)

  datatype BucketKey = BucketKey(symbol: int, time: int)

  datatype Candle = Candle(key: BucketKey, bar: Bar)

  /** Floors the seconds field to the interval and drops the microseconds. */
  function BucketTs(t: int, interval: int): int
    requires 0 < interval
  {
    var minute := t - t % MINUTE;
    var second := (t % MINUTE) / SECOND;
    minute + second / interval * interval * SECOND
  }

  /**
   * The bucket is the last multiple of the interval exactly for the intervals that divide a minute: only the
   * seconds field is floored, so any other interval goes wrong one minute past the epoch.
   */
  lemma BucketIsFloorExactlyWhenDividing(interval: int)
    requires 0 < interval
    ensures (forall t :: BucketTs(t, interval) == t - t % (interval * SECOND)) <==> 60 % interval == 0
  {
    if 60 % interval == 0 {
      forall t ensures BucketTs(t, interval) == t - t % (interval * SECOND) { DividingBucket(t, interval); }
    } else {
      assert BucketTs(MINUTE, interval) == MINUTE;
      NotAMultiple(interval);
    }
  }

  lemma DividingBucket(t: int, interval: int)
    requires 0 < interval && 60 % interval == 0
    ensures BucketTs(t, interval) == t - t % (interval * SECOND)
  {
    var n := 60 / interval;
    var step := interval * SECOND;
    var minutes, within := t / MINUTE, t % MINUTE;
    var second, micro := within / SECOND, within % SECOND;
    var q, r := second / interval, second % interval;
    assert MINUTE == n * step;
    assert t == (minutes * n + q) * step + (r * SECOND + micro);
    RemainderIs(t, minutes * n + q, r * SECOND + micro, step);
  }

  lemma RemainderIs(t: int, q: int, r: int, d: int)
    requires 0 < d && 0 <= r < d && t == q * d + r
    ensures t % d == r
  {
    var e := t / d - q;
    assert t % d == r - e * d;
    WholeSteps(e, d);
  }

  lemma WholeSteps(e: int, d: int)
    requires 0 < d
    ensures 1 <= e ==> d <= e * d
    ensures e <= -1 ==> e * d <= -d
  {
    if 1 <= e { assert 0 <= (e - 1) * d; }
    if e <= -1 { assert (e + 1) * d <= 0; }
  }

  lemma NotAMultiple(interval: int)
    requires 0 < interval && 60 % interval != 0
    ensures MINUTE % (interval * SECOND) != 0
  {
    var q, r := 60 / interval, 60 % interval;
    assert MINUTE == q * (interval * SECOND) + r * SECOND;
    RemainderIs(MINUTE, q, r * SECOND, interval * SECOND);
  }

  function KeyOf(t: Tick): BucketKey { BucketKey(t.symbol, BucketTs(t.time, INTERVAL)) }

  /** A bucket is a minute of the clock: two ticks share one exactly when they agree on symbol and minute. */
  lemma SameMinute(t: Tick, t': Tick)
    ensures KeyOf(t).time == t.time / 60000000 * 60000000
    ensures KeyOf(t) == KeyOf(t') <==> t.symbol == t'.symbol && t.time / 60000000 == t'.time / 60000000
  {
    DividingBucket(t.time, INTERVAL);
    DividingBucket(t'.time, INTERVAL);
  }

  function Single(t: Tick): Bar { Bar(t.price, t.price, t.price, t.price, t.volume, 1, t.flagged) }

  /** Two bars over consecutive stretches of ticks, as one. */
  function Merge(a: Bar, b: Bar): Bar
  {
    Bar(a.open, Max(a.high, b.high), Min(a.low, b.low), b.close,
        a.volume + b.volume, a.count + b.count, a.hasDq || b.hasDq)
  }

  function Join(a: Option<Bar>, b: Option<Bar>): Option<Bar>
  {
    if a.None? then b else if b.None? then a else Some(Merge(a.value, b.value))
  }

  lemma JoinAssociative(a: Option<Bar>, b: Option<Bar>, c: Option<Bar>)
    ensures Join(Join(a, b), c) == Join(a, Join(b, c))
  {}

  // ---------------------------------------------------------------- the batch definition

  /** The ticks of the selected buckets, in arrival order. */
  function TicksOf(ts: seq<Tick>, sel: BucketKey -> bool): seq<Tick>
  {
    if ts == [] then []
    else
      var init, t := ts[..|ts| - 1], ts[|ts| - 1];
      if sel(KeyOf(t)) then TicksOf(init, sel) + [t] else TicksOf(init, sel)
  }

  function Volume(ts: seq<Tick>): real
  {
    if ts == [] then 0.0 else Volume(ts[..|ts| - 1]) + ts[|ts| - 1].volume
  }

  /** A bar says what it should about a stretch of ticks. */
  ghost predicate IsBarOf(bar: Bar, ts: seq<Tick>)
  {
    && ts != [] && bar.count == |ts| && bar.volume == Volume(ts)
    && bar.open == ts[0].price && bar.close == ts[|ts| - 1].price
    && (forall i :: 0 <= i < |ts| ==> bar.low <= ts[i].price <= bar.high)
    && (exists i :: 0 <= i < |ts| && ts[i].price == bar.high)
    && (exists i :: 0 <= i < |ts| && ts[i].price == bar.low)
    && (bar.hasDq <==> exists i :: 0 <= i < |ts| && ts[i].flagged)
  }

  /** The bar of the selected ticks, computed over all of them at once. */
  function Batch(ts: seq<Tick>, sel: BucketKey -> bool): Option<Bar>
  {
    if ts == [] then None
    else
      var init, t := ts[..|ts| - 1], ts[|ts| - 1];
      Join(Batch(init, sel), if sel(KeyOf(t)) then Some(Single(t)) else None)
  }

  lemma ExtendBar(bar: Bar, ts: seq<Tick>, t: Tick)
    requires IsBarOf(bar, ts)
    ensures IsBarOf(Merge(bar, Single(t)), ts + [t])
  {
    var all := ts + [t];
    assert all[..|ts|] == ts;
    assert forall i :: 0 <= i < |ts| ==> all[i] == ts[i];
    var h :| 0 <= h < |ts| && ts[h].price == bar.high;
    var l :| 0 <= l < |ts| && ts[l].price == bar.low;
    assert all[h].price == bar.high && all[l].price == bar.low && all[|ts|] == t;
    if bar.hasDq {
      var d :| 0 <= d < |ts| && ts[d].flagged;
      assert all[d].flagged;
    }
  }

  /** The batch bar is the OHLCV of exactly the selected ticks. */
  lemma {:induction false} BatchIsOhlcv(ts: seq<Tick>, sel: BucketKey -> bool)
    ensures match Batch(ts, sel)
            case None => TicksOf(ts, sel) == []
            case Some(bar) => IsBarOf(bar, TicksOf(ts, sel))
  {
    if ts != [] {
      var init, t := ts[..|ts| - 1], ts[|ts| - 1];
      BatchIsOhlcv(init, sel);
      if sel(KeyOf(t)) {
        if TicksOf(init, sel) == [] {
          assert TicksOf(ts, sel) == [t] && [t][..0] == [];
          assert IsBarOf(Single(t), [t]) by { assert [t][0] == t; }
        } else {
          ExtendBar(Batch(init, sel).value, TicksOf(init, sel), t);
        }
      }
    }
  }

  // ---------------------------------------------------------------- the incremental form

  /** The bars of the selected candles merged in sequence order. */
  function Fold(cs: seq<Candle>, sel: BucketKey -> bool): Option<Bar>
  {
    if cs == [] then None
    else
      var c := cs[|cs| - 1];
      Join(Fold(cs[..|cs| - 1], sel), if sel(c.key) then Some(c.bar) else None)
  }

  lemma {:induction false} FoldConcat(a: seq<Candle>, b: seq<Candle>, sel: BucketKey -> bool)
    ensures Fold(a + b, sel) == Join(Fold(a, sel), Fold(b, sel))
  {
    if b == [] {
      assert a + b == a;
    } else {
      var init, c := b[..|b| - 1], b[|b| - 1];
      assert (a + b)[..|a + b| - 1] == a + init;
      FoldConcat(a, init, sel);
      JoinAssociative(Fold(a, sel), Fold(init, sel), if sel(c.key) then Some(c.bar) else None);
    }
  }

  /** Position of a bucket in the dictionary's insertion order, or its length. */
  function Find(buckets: seq<Candle>, key: BucketKey): (i: nat)
    ensures i <= |buckets|
    ensures i < |buckets| ==> buckets[i].key == key
    ensures forall j :: 0 <= j < i ==> buckets[j].key != key
  {
    if buckets == [] then 0 else if buckets[0].key == key then 0 else 1 + Find(buckets[1..], key)
  }

  /** The tick entered into its bucket, opening it if needed. */
  function Enter(buckets: seq<Candle>, t: Tick): seq<Candle>
  {
    var i := Find(buckets, KeyOf(t));
    if i == |buckets| then buckets + [Candle(KeyOf(t), Single(t))]
    else buckets[i := buckets[i].(bar := Merge(buckets[i].bar, Single(t)))]
  }

  // A tick closes the buckets of its symbol that are strictly older than its own.
  predicate Closes(t: Tick, key: BucketKey) { key.symbol == t.symbol && key.time < KeyOf(t).time }

  /** The candles that the tick closes (or leaves open), in order. */
  function Split(cs: seq<Candle>, t: Tick, closed: bool): seq<Candle>
  {
    if cs == [] then []
    else
      var init, c := cs[..|cs| - 1], cs[|cs| - 1];
      if Closes(t, c.key) == closed then Split(init, t, closed) + [c] else Split(init, t, closed)
  }

  // The open buckets and every candle emitted so far.
  datatype State = State(buckets: seq<Candle>, emitted: seq<Candle>)

  function Ingested(s: State, t: Tick): State
  {
    var entered := Enter(s.buckets, t);
    State(Split(entered, t, false), s.emitted + Split(entered, t, true))
  }

  function Run(ts: seq<Tick>): State
  {
    if ts == [] then State([], []) else Ingested(Run(ts[..|ts| - 1]), ts[|ts| - 1])
  }

  lemma RunStep(ts: seq<Tick>, t: Tick)
    ensures Run(ts + [t]) == Ingested(Run(ts), t)
  {
    assert (ts + [t])[..|ts|] == ts;
  }

  /** What a tick completes does not depend on what was emitted before. */
  lemma IngestedFrom(buckets: seq<Candle>, emitted: seq<Candle>, t: Tick)
    ensures var alone := Ingested(State(buckets, []), t);
            Ingested(State(buckets, emitted), t) == State(alone.buckets, emitted + alone.emitted)
  {
    var popped := Split(Enter(buckets, t), t, true);
    assert [] + popped == popped;
  }

  /** What is known of the selected buckets: their emitted candles in emission order, then what is still open. */
  function Known(s: State, sel: BucketKey -> bool): Option<Bar> { Join(Fold(s.emitted, sel), Fold(s.buckets, sel)) }

  /** At most one selected bucket is open. */
  ghost predicate AtMostOne(cs: seq<Candle>, sel: BucketKey -> bool)
  {
    forall i, j :: 0 <= i < j < |cs| && sel(cs[i].key) ==> !sel(cs[j].key)
  }

  lemma {:induction false} FoldNothing(cs: seq<Candle>, sel: BucketKey -> bool)
    requires forall i :: 0 <= i < |cs| ==> !sel(cs[i].key)
    ensures Fold(cs, sel) == None
  {
    if cs != [] { FoldNothing(cs[..|cs| - 1], sel); }
  }

  /** A tick entered where at most one selected bucket is open extends what the selected buckets hold. */
  lemma EnterExtends(buckets: seq<Candle>, t: Tick, sel: BucketKey -> bool)
    requires AtMostOne(buckets, sel)
    ensures Fold(Enter(buckets, t), sel) == Join(Fold(buckets, sel), if sel(KeyOf(t)) then Some(Single(t)) else None)
  {
    var i := Find(buckets, KeyOf(t));
    if i == |buckets| {
      assert (buckets + [Candle(KeyOf(t), Single(t))])[..|buckets|] == buckets;
    } else {
      FoldUpdate(buckets, i, Merge(buckets[i].bar, Single(t)), sel);
      if sel(KeyOf(t)) {
        FoldOnly(buckets, i, sel);
      }
    }
  }

  lemma {:induction false} FoldUpdate(cs: seq<Candle>, i: nat, bar: Bar, sel: BucketKey -> bool)
    requires i < |cs| && AtMostOne(cs, sel)
    ensures Fold(cs[i := cs[i].(bar := bar)], sel) == if sel(cs[i].key) then Some(bar) else Fold(cs, sel)
  {
    var n := |cs| - 1;
    var cs' := cs[i := cs[i].(bar := bar)];
    if i == n {
      assert cs'[..n] == cs[..n];
      if sel(cs[i].key) { FoldNothing(cs[..n], sel); }
    } else {
      assert cs'[..n] == cs[..n][i := cs[i].(bar := bar)];
      FoldUpdate(cs[..n], i, bar, sel);
    }
  }

  lemma {:induction false} FoldOnly(cs: seq<Candle>, i: nat, sel: BucketKey -> bool)
    requires i < |cs| && AtMostOne(cs, sel) && sel(cs[i].key)
    ensures Fold(cs, sel) == Some(cs[i].bar)
  {
    var n := |cs| - 1;
    if i == n { FoldNothing(cs[..n], sel); } else { FoldOnly(cs[..n], i, sel); }
  }

  /** At most one of the tick's own and older buckets is open before it, so emission keeps the selected order. */
  lemma {:induction false} SplitFolds(cs: seq<Candle>, t: Tick, sel: BucketKey -> bool)
    requires forall i, j :: 0 <= i < j < |cs| && sel(cs[i].key) && sel(cs[j].key) ==> !Closes(t, cs[j].key)
    ensures Join(Fold(Split(cs, t, true), sel), Fold(Split(cs, t, false), sel)) == Fold(cs, sel)
    ensures (exists i :: 0 <= i < |cs| && sel(cs[i].key) && !Closes(t, cs[i].key))
      || Fold(Split(cs, t, false), sel) == None
  {
    if cs != [] {
      var init, c := cs[..|cs| - 1], cs[|cs| - 1];
      SplitFolds(init, t, sel);
      var closed := Closes(t, c.key);
      FoldConcat(Split(init, t, closed), [c], sel);
      assert [c][..0] == [];
      var last := if sel(c.key) then Some(c.bar) else None;
      JoinAssociative(Fold(Split(init, t, true), sel), Fold(Split(init, t, false), sel), last);
      assert Split(cs, t, !closed) == Split(init, t, !closed);
      assert forall i :: 0 <= i < |init| ==> cs[i] == init[i];
    }
  }

  /** One ingested tick extends what is known of the selected buckets by exactly that tick. */
  lemma IngestExtends(s: State, t: Tick, sel: BucketKey -> bool)
    requires AtMostOne(s.buckets, sel)
    ensures Known(Ingested(s, t), sel) == Join(Known(s, sel), if sel(KeyOf(t)) then Some(Single(t)) else None)
  {
    var entered := Enter(s.buckets, t);
    var single := if sel(KeyOf(t)) then Some(Single(t)) else None;
    EnterExtends(s.buckets, t, sel);
    SplitFolds(entered, t, sel);
    FoldConcat(s.emitted, Split(entered, t, true), sel);
    JoinAssociative(Fold(s.emitted, sel), Fold(Split(entered, t, true), sel), Fold(Split(entered, t, false), sel));
    JoinAssociative(Fold(s.emitted, sel), Fold(s.buckets, sel), single);
  }

  // ---------------------------------------------------------------- candles of one bucket

  function Only(key: BucketKey): BucketKey -> bool { k => k == key }

  /** How many of the candles are of the bucket. */
  function Pieces(cs: seq<Candle>, key: BucketKey): nat
  {
    if cs == [] then 0 else Pieces(cs[..|cs| - 1], key) + (if cs[|cs| - 1].key == key then 1 else 0)
  }

  lemma {:induction false} PiecesConcat(a: seq<Candle>, b: seq<Candle>, key: BucketKey)
    ensures Pieces(a + b, key) == Pieces(a, key) + Pieces(b, key)
  {
    if b == [] {
      assert a + b == a;
    } else {
      assert (a + b)[..|a + b| - 1] == a + b[..|b| - 1];
      PiecesConcat(a, b[..|b| - 1], key);
    }
  }

  lemma {:induction false} PiecesAt(cs: seq<Candle>, i: nat, key: BucketKey)
    requires i < |cs| && cs[i].key == key
    ensures 1 <= Pieces(cs, key)
  {
    if i < |cs| - 1 { PiecesAt(cs[..|cs| - 1], i, key); }
  }

  /** At most one piece of the bucket: the selection of that bucket is at most one candle. */
  lemma {:induction false} OnePiece(cs: seq<Candle>, key: BucketKey)
    requires Pieces(cs, key) <= 1
    ensures AtMostOne(cs, Only(key))
  {
    if cs != [] {
      var n := |cs| - 1;
      OnePiece(cs[..n], key);
      if cs[n].key == key {
        forall i | 0 <= i < n ensures cs[i].key != key {
          if cs[i].key == key { PiecesAt(cs[..n], i, key); }
        }
      }
    }
  }

  lemma {:induction false} PiecesUpdate(cs: seq<Candle>, i: nat, bar: Bar, key: BucketKey)
    requires i < |cs|
    ensures Pieces(cs[i := cs[i].(bar := bar)], key) == Pieces(cs, key)
  {
    var n := |cs| - 1;
    if i == n {
      assert cs[i := cs[i].(bar := bar)][..n] == cs[..n];
    } else {
      assert cs[i := cs[i].(bar := bar)][..n] == cs[..n][i := cs[i].(bar := bar)];
      PiecesUpdate(cs[..n], i, bar, key);
    }
  }

  lemma {:induction false} NoPiece(cs: seq<Candle>, key: BucketKey)
    requires forall i :: 0 <= i < |cs| ==> cs[i].key != key
    ensures Pieces(cs, key) == 0
  {
    if cs != [] { NoPiece(cs[..|cs| - 1], key); }
  }

  lemma EnterPieces(buckets: seq<Candle>, t: Tick, key: BucketKey)
    requires Pieces(buckets, key) <= 1
    ensures Pieces(Enter(buckets, t), key) == if KeyOf(t) == key then 1 else Pieces(buckets, key)
  {
    var i := Find(buckets, KeyOf(t));
    if i == |buckets| {
      assert (buckets + [Candle(KeyOf(t), Single(t))])[..|buckets|] == buckets;
      if KeyOf(t) == key { NoPiece(buckets, key); }
    } else {
      PiecesUpdate(buckets, i, Merge(buckets[i].bar, Single(t)), key);
      if KeyOf(t) == key { PiecesAt(buckets, i, key); }
    }
  }

  lemma {:induction false} SplitPieces(cs: seq<Candle>, t: Tick, closed: bool, key: BucketKey)
    ensures Pieces(Split(cs, t, closed), key) == if Closes(t, key) == closed then Pieces(cs, key) else 0
  {
    if cs != [] {
      var init, c := cs[..|cs| - 1], cs[|cs| - 1];
      SplitPieces(init, t, closed, key);
      assert (Split(init, t, closed) + [c])[..|Split(init, t, closed)|] == Split(init, t, closed);
    }
  }

  /** A tick opens its own bucket if it is not open, and moves the bucket it closes from open to emitted. */
  lemma IngestPieces(s: State, t: Tick, key: BucketKey)
    requires Pieces(s.buckets, key) <= 1
    ensures Pieces(Ingested(s, t).buckets, key)
         == if KeyOf(t) == key then 1 else if Closes(t, key) then 0 else Pieces(s.buckets, key)
    ensures Pieces(Ingested(s, t).emitted, key)
         == Pieces(s.emitted, key) + if Closes(t, key) then Pieces(s.buckets, key) else 0
  {
    var entered := Enter(s.buckets, t);
    EnterPieces(s.buckets, t, key);
    SplitPieces(entered, t, true, key);
    SplitPieces(entered, t, false, key);
    PiecesConcat(s.emitted, Split(entered, t, true), key);
  }

  lemma {:induction false} OpenOnce(ts: seq<Tick>, key: BucketKey)
    ensures Pieces(Run(ts).buckets, key) <= 1
  {
    if ts != [] {
      OpenOnce(ts[..|ts| - 1], key);
      IngestPieces(Run(ts[..|ts| - 1]), ts[|ts| - 1], key);
    }
  }

  /**
   * The aggregator refines the batch definition for every arrival order: the candles emitted for a bucket,
   * merged in emission order with the one still open, are the bar of exactly the ticks ingested for it.
   */
  lemma {:induction false} AggregatorRefinesBatch(ts: seq<Tick>, key: BucketKey)
    ensures Known(Run(ts), Only(key)) == Batch(ts, Only(key))
  {
    if ts != [] {
      var init, t := ts[..|ts| - 1], ts[|ts| - 1];
      AggregatorRefinesBatch(init, key);
      OpenOnce(init, key);
      OnePiece(Run(init).buckets, key);
      IngestExtends(Run(init), t, Only(key));
    }
  }

  // ---------------------------------------------------------------- conservation of ticks

  function TickCount(cs: seq<Candle>): int
  {
    if cs == [] then 0 else TickCount(cs[..|cs| - 1]) + cs[|cs| - 1].bar.count
  }

  lemma {:induction false} TickCountConcat(a: seq<Candle>, b: seq<Candle>)
    ensures TickCount(a + b) == TickCount(a) + TickCount(b)
  {
    if b == [] {
      assert a + b == a;
    } else {
      assert (a + b)[..|a + b| - 1] == a + b[..|b| - 1];
      TickCountConcat(a, b[..|b| - 1]);
    }
  }

  lemma {:induction false} TickCountUpdate(cs: seq<Candle>, i: nat, bar: Bar)
    requires i < |cs|
    ensures TickCount(cs[i := cs[i].(bar := bar)]) == TickCount(cs) - cs[i].bar.count + bar.count
  {
    var n := |cs| - 1;
    if i == n {
      assert cs[i := cs[i].(bar := bar)][..n] == cs[..n];
    } else {
      assert cs[i := cs[i].(bar := bar)][..n] == cs[..n][i := cs[i].(bar := bar)];
      TickCountUpdate(cs[..n], i, bar);
    }
  }

  lemma {:induction false} SplitConserves(cs: seq<Candle>, t: Tick)
    ensures TickCount(Split(cs, t, true)) + TickCount(Split(cs, t, false)) == TickCount(cs)
  {
    if cs != [] {
      var init, c := cs[..|cs| - 1], cs[|cs| - 1];
      SplitConserves(init, t);
      TickCountConcat(Split(init, t, Closes(t, c.key)), [c]);
      assert TickCount([c]) == c.bar.count by { assert [c][..0] == []; }
    }
  }

  lemma EnterCounts(buckets: seq<Candle>, t: Tick)
    ensures TickCount(Enter(buckets, t)) == TickCount(buckets) + 1
  {
    var i := Find(buckets, KeyOf(t));
    if i == |buckets| {
      assert (buckets + [Candle(KeyOf(t), Single(t))])[..|buckets|] == buckets;
    } else {
      TickCountUpdate(buckets, i, Merge(buckets[i].bar, Single(t)));
    }
  }

  /** Every ingested tick is counted in exactly one candle, emitted or open. */
  lemma {:induction false} TicksConserved(ts: seq<Tick>)
    ensures TickCount(Run(ts).emitted) + TickCount(Run(ts).buckets) == |ts|
  {
    if ts != [] {
      var s, t := Run(ts[..|ts| - 1]), ts[|ts| - 1];
      TicksConserved(ts[..|ts| - 1]);
      EnterCounts(s.buckets, t);
      SplitConserves(Enter(s.buckets, t), t);
      TickCountConcat(s.emitted, Split(Enter(s.buckets, t), t, true));
    }
  }

  // ---------------------------------------------------------------- the mutable aggregator

  class CandleAggregator {
    // The dictionary of open candles, in insertion order.
    var buckets: seq<Candle>

    constructor ()
      ensures buckets == []
    {
      buckets := [];
    }

    /** Feeds one tick and returns the candles it completes. */
    method Ingest(tick: Tick) returns (completed: seq<Candle>)
      modifies this
      ensures State(buckets, completed) == Ingested(State(old(buckets), []), tick)
    {
      var key := KeyOf(tick);
      var i := Find(buckets, key);
      if i == |buckets| {
        buckets := buckets + [Candle(key, Single(tick))];
      } else {
        var c := buckets[i].bar;
        c := c.(high := Max(c.high, tick.price), low := Min(c.low, tick.price), close := tick.price);
        c := c.(volume := c.volume + tick.volume, count := c.count + 1, hasDq := c.hasDq || tick.flagged);
        buckets := buckets[i := Candle(key, c)];
      }
      assert buckets == Enter(old(buckets), tick);
      completed := PopClosed(tick);
    }

    /** Pops the buckets the tick closes. */
    method PopClosed(tick: Tick) returns (completed: seq<Candle>)
      modifies this
      ensures completed == Split(old(buckets), tick, true) && buckets == Split(old(buckets), tick, false)
    {
      completed := [];
      var remaining, k := [], 0;
      while k < |buckets|
        invariant k <= |buckets| && buckets == old(buckets)
        invariant completed == Split(buckets[..k], tick, true) && remaining == Split(buckets[..k], tick, false)
      {
        assert buckets[..k + 1][..k] == buckets[..k];
        if Closes(tick, buckets[k].key) {
          completed := completed + [buckets[k]];
        } else {
          remaining := remaining + [buckets[k]];
        }
        k := k + 1;
      }
      assert buckets[..k] == buckets;
      buckets := remaining;
    }

    /** Closes every open bucket. */
    method FlushAll() returns (candles: seq<Candle>)
      modifies this
      ensures candles == old(buckets) && buckets == []
    {
      candles := buckets;
      buckets := [];
    }
  }
}
