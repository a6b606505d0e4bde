// The hourly rollup of stored one-minute candles against aggregating the ticks by hour directly
// (app/workers/retension_task.py).
module Rollup {
  import opened Money
  import opened Candles
  import opened CandleStore

  // date_trunc('hour', time)
  function HourOf(t: int): int { t - t % HOUR }

  function OfHour(symbol: int, hour: int): BucketKey -> bool { (k: BucketKey) =>
      k.symbol == symbol && HourOf(k.time) == hour }

  // A candles_1h row; the rollup carries no has_dq.
  datatype HourRow = HourRow(open: real, high: real, low: real, close: real, volume: real, count: int)

  function Hourly(bar: Option<Bar>): Option<HourRow>
  {
    if bar.None? then None
    else var b := bar.value; Some(HourRow(b.open, b.high, b.low, b.close, b.volume, b.count))
  }

  // ---------------------------------------------------------------- the grouping query

  // The running aggregates of one group: its earliest and latest rows, max, min and sums.
  datatype Group = Group(first: Candle, last: Candle, high: real, low: real, volume: real, count: int)

  function Add(g: Option<Group>, c: Candle): Group
  {
    if g.None? then Group(c, c, c.bar.high, c.bar.low, c.bar.volume, c.bar.count)
    else
      var a := g.value;
      Group(if c.key.time < a.first.key.time then c else a.first,
            if c.key.time > a.last.key.time then c else a.last,
            Max(a.high, c.bar.high), Min(a.low, c.bar.low), a.volume + c.bar.volume, a.count + c.bar.count)
  }

  /** The group of the rows, read in any order. */
  function Grouped(rows: seq<Candle>): Option<Group>
  {
    if rows == [] then None else Some(Add(Grouped(rows[..|rows| - 1]), rows[|rows| - 1]))
  }

  /** The row the query selects for its group. */
  function Selected(g: Option<Group>): Option<HourRow>
  {
    if g.None? then None
    else Some(HourRow(g.value.first.bar.open, g.value.high, g.value.low, g.value.last.bar.close, g.value.volume,
      g.value.count))
  }

  ghost predicate DistinctTimes(rows: seq<Candle>)
  {
    forall i, j :: 0 <= i < j < |rows| ==> rows[i].key.time != rows[j].key.time
  }

  lemma {:induction false} GroupEnds(rows: seq<Candle>)
    requires rows != []
    ensures Grouped(rows).value.first in rows && Grouped(rows).value.last in rows
  {
    var init := rows[..|rows| - 1];
    if init != [] {
      GroupEnds(init);
      assert forall c :: c in init ==> c in rows;
    }
  }

  function VolumeOf(rows: seq<Candle>): real
  {
    if rows == [] then 0.0 else VolumeOf(rows[..|rows| - 1]) + rows[|rows| - 1].bar.volume
  }

  /** The earliest and latest rows, the attained extremes and the sums: what each aggregate of the query means. */
  lemma {:induction false} GroupIsAggregate(rows: seq<Candle>)
    requires rows != []
    ensures var g := Grouped(rows).value;
            && (forall i :: 0 <= i < |rows| ==> g.first.key.time <= rows[i].key.time <= g.last.key.time)
            && (forall i :: 0 <= i < |rows| ==> g.low <= rows[i].bar.low && rows[i].bar.high <= g.high)
            && (exists i :: 0 <= i < |rows| && rows[i].bar.high == g.high)
            && (exists i :: 0 <= i < |rows| && rows[i].bar.low == g.low)
            && g.volume == VolumeOf(rows) && g.count == TickCount(rows)
  {
    GroupAttains(rows);
    if |rows| > 1 {
      var init := rows[..|rows| - 1];
      GroupIsAggregate(init);
      assert forall i :: 0 <= i < |init| ==> rows[i] == init[i];
    }
  }

  lemma {:induction false} GroupAttains(rows: seq<Candle>)
    requires rows != []
    ensures exists i :: 0 <= i < |rows| && rows[i].bar.high == Grouped(rows).value.high
    ensures exists i :: 0 <= i < |rows| && rows[i].bar.low == Grouped(rows).value.low
  {
    var n := |rows| - 1;
    var init := rows[..n];
    if init == [] {
      assert rows[0].bar.high == Grouped(rows).value.high;
    } else {
      GroupAttains(init);
      var g := Grouped(init).value;
      var h :| 0 <= h < |init| && init[h].bar.high == g.high;
      var l :| 0 <= l < |init| && init[l].bar.low == g.low;
      assert forall i :: 0 <= i < n ==> rows[i] == init[i];
      assert rows[if rows[n].bar.high > g.high then n else h].bar.high == Grouped(rows).value.high;
      assert rows[if rows[n].bar.low < g.low then n else l].bar.low == Grouped(rows).value.low;
    }
  }

  /** Neither end of the group shares its time with the two rows. */
  predicate EndsDiffer(g: Option<Group>, x: Candle, y: Candle)
  {
    g.Some? ==>
      && g.value.first.key.time !in {x.key.time, y.key.time}
      && g.value.last.key.time !in {x.key.time, y.key.time}
  }

  lemma AddSwaps(g: Option<Group>, x: Candle, y: Candle)
    requires x.key.time != y.key.time && EndsDiffer(g, x, y)
    ensures Add(Some(Add(g, x)), y) == Add(Some(Add(g, y)), x)
  {}

  function Without(rows: seq<Candle>, i: nat): seq<Candle>
    requires i < |rows|
  {
    rows[..i] + rows[i + 1..]
  }

  lemma OthersDiffer(rows: seq<Candle>, i: nat)
    requires i < |rows| - 1 && DistinctTimes(rows)
    ensures EndsDiffer(Grouped(Without(rows[..|rows| - 1], i)), rows[i], rows[|rows| - 1])
  {
    var rest := Without(rows[..|rows| - 1], i);
    if rest != [] {
      GroupEnds(rest);
      forall c | c in rest ensures c.key.time != rows[i].key.time && c.key.time != rows[|rows| - 1].key.time {
        var k :| 0 <= k < |rest| && rest[k] == c;
        assert c == rows[if k < i then k else k + 1];
      }
    }
  }

  lemma GroupedAppend(rows: seq<Candle>, c: Candle)
    ensures Grouped(rows + [c]) == Some(Add(Grouped(rows), c))
  {
    assert (rows + [c])[..|rows|] == rows;
  }

  lemma GroupedSwap(rows: seq<Candle>, x: Candle, y: Candle)
    requires x.key.time != y.key.time && EndsDiffer(Grouped(rows), x, y)
    ensures Grouped(rows + [x] + [y]) == Grouped(rows + [y] + [x])
  {
    GroupedAppend(rows, x);
    GroupedAppend(rows + [x], y);
    GroupedAppend(rows, y);
    GroupedAppend(rows + [y], x);
    AddSwaps(Grouped(rows), x, y);
  }

  lemma GroupedCongruent(a: seq<Candle>, b: seq<Candle>, c: Candle)
    requires Grouped(a) == Grouped(b)
    ensures Grouped(a + [c]) == Grouped(b + [c])
  {
    GroupedAppend(a, c);
    GroupedAppend(b, c);
  }

  /** Any row may as well be read last. */
  lemma {:induction false} GroupedLast(rows: seq<Candle>, i: nat)
    requires i < |rows| && DistinctTimes(rows)
    ensures Grouped(rows) == Grouped(Without(rows, i) + [rows[i]])
  {
    var n := |rows| - 1;
    var init, x, y := rows[..n], rows[i], rows[n];
    assert rows == init + [y];
    if i == n {
      assert Without(rows, i) == init;
    } else {
      var rest := Without(init, i);
      assert Without(rows, i) + [x] == rest + [y] + [x];
      GroupedLast(init, i);
      GroupedCongruent(init, rest + [x], y);
      OthersDiffer(rows, i);
      GroupedSwap(rest, x, y);
    }
  }

  lemma FirstIsMember(rows: seq<Candle>)
    ensures rows == [] || rows[0] in rows
  {}

  /** The group does not depend on the order in which the table yields its rows. */
  lemma {:induction false} GroupedInAnyOrder(a: seq<Candle>, b: seq<Candle>)
    requires DistinctTimes(a) && DistinctTimes(b) && forall c :: c in a <==> c in b
    ensures Grouped(a) == Grouped(b)
  {
    if a == [] {
      FirstIsMember(b);
    } else {
      var n := |a| - 1;
      var init, x := a[..n], a[n];
      assert x in a;
      var i :| 0 <= i < |b| && b[i] == x;
      var rest := Without(b, i);
      forall c ensures c in init <==> c in rest {
        if c in init { assert c in b && c != x; }
        if c in rest {
          assert c in b && c != x;
          assert c in a;
        }
      }
      GroupedInAnyOrder(init, rest);
      GroupedLast(b, i);
      GroupedCongruent(init, rest, x);
      assert a == init + [x];
    }
  }

  // ---------------------------------------------------------------- rows of an in-order symbol

  function Rows(cs: seq<Candle>, sel: BucketKey -> bool): seq<Candle>
  {
    if cs == [] then []
    else
      var init, c := cs[..|cs| - 1], cs[|cs| - 1];
      if sel(c.key) then Rows(init, sel) + [c] else Rows(init, sel)
  }

  predicate Below(time: int, bound: Option<int>) { bound.Some? && time < bound.value }

  /** The selected candles are in ascending time order, all below the bound. */
  predicate Ascending(cs: seq<Candle>, sel: BucketKey -> bool, bound: Option<int>)
  {
    cs != [] ==>
      var init, c := cs[..|cs| - 1], cs[|cs| - 1];
      if sel(c.key) then Below(c.key.time, bound) && Ascending(init, sel, Some(c.key.time))
        else Ascending(init, sel, bound)
  }

  lemma {:induction false} RaiseBound(cs: seq<Candle>, sel: BucketKey -> bool, bound: Option<int>, bound': Option<int>)
    requires Ascending(cs, sel, bound) && (bound.Some? ==> bound'.Some? && bound.value <= bound'.value)
    ensures Ascending(cs, sel, bound')
  {
    if cs != [] && !sel(cs[|cs| - 1].key) { RaiseBound(cs[..|cs| - 1], sel, bound, bound'); }
  }

  lemma {:induction false} AscendingRows(cs: seq<Candle>, sel: BucketKey -> bool, bound: Option<int>)
    requires Ascending(cs, sel, bound)
    ensures DistinctTimes(Rows(cs, sel)) && forall c :: c in Rows(cs, sel) ==> Below(c.key.time, bound)
  {
    if cs != [] {
      var init, c := cs[..|cs| - 1], cs[|cs| - 1];
      if sel(c.key) {
        AscendingRows(init, sel, Some(c.key.time));
        assert forall i :: 0 <= i < |Rows(init, sel)| ==> Rows(init, sel)[i] in Rows(init, sel);
      } else {
        AscendingRows(init, sel, bound);
      }
    }
  }

  /** A row later than all before it extends the group as merging its bar extends theirs. */
  lemma AddLater(g: Option<Group>, bar: Option<Bar>, c: Candle)
    requires Selected(g) == Hourly(bar)
    requires g.Some? ==> g.value.first.key.time < c.key.time && g.value.last.key.time < c.key.time
    ensures Selected(Some(Add(g, c))) == Hourly(Join(bar, Some(c.bar)))
  {}

  /** Rows in ascending order: first open, last close, and the rest as merging them in order gives. */
  lemma {:induction false} GroupedAscending(cs: seq<Candle>, sel: BucketKey -> bool, bound: Option<int>)
    requires Ascending(cs, sel, bound)
    ensures Selected(Grouped(Rows(cs, sel))) == Hourly(Fold(cs, sel))
  {
    if cs != [] {
      var init, c := cs[..|cs| - 1], cs[|cs| - 1];
      var rows := Rows(init, sel);
      if sel(c.key) {
        GroupedAscending(init, sel, Some(c.key.time));
        AscendingRows(init, sel, Some(c.key.time));
        if rows != [] { GroupEnds(rows); }
        AddLater(Grouped(rows), Fold(init, sel), c);
        assert (rows + [c])[..|rows|] == rows;
      } else {
        GroupedAscending(init, sel, bound);
      }
    }
  }

  lemma {:induction false} AscendingAppend(a: seq<Candle>, b: seq<Candle>, sel: BucketKey -> bool, time: int,
      bound: Option<int>)
    requires Ascending(a, sel, Some(time)) && Below(time, bound) && AtMostOne(b, sel)
    requires forall c :: c in b && sel(c.key) ==> c.key.time == time
    ensures Ascending(a + b, sel, bound)
  {
    if b == [] {
      assert a + b == a;
      RaiseBound(a, sel, Some(time), bound);
    } else {
      var init, c := b[..|b| - 1], b[|b| - 1];
      assert (a + b)[..|a + b| - 1] == a + init;
      if sel(c.key) {
        assert c in b;
        AscendingSkip(a, init, sel, Some(time));
      } else {
        AscendingAppend(a, init, sel, time, bound);
      }
    }
  }

  lemma {:induction false} AscendingSkip(a: seq<Candle>, b: seq<Candle>, sel: BucketKey -> bool, bound: Option<int>)
    requires Ascending(a, sel, bound) && forall i :: 0 <= i < |b| ==> !sel(b[i].key)
    ensures Ascending(a + b, sel, bound)
  {
    if b == [] {
      assert a + b == a;
    } else {
      assert (a + b)[..|a + b| - 1] == a + b[..|b| - 1];
      AscendingSkip(a, b[..|b| - 1], sel, bound);
    }
  }

  // ---------------------------------------------------------------- runs of an in-order symbol

  lemma OpenAtMostOne(ts: seq<Tick>, symbol: int, hour: int)
    requires InOrder(ts, symbol)
    ensures AtMostOne(Run(ts).buckets, OfHour(symbol, hour))
  {
    OpenOfSymbol(ts, symbol);
    if LastKey(ts, symbol).Some? { OnePiece(Run(ts).buckets, LastKey(ts, symbol).value); }
  }

  /** A candle that a tick pops for the symbol is its last open bucket, behind the tick's own. */
  lemma PoppedOfSymbol(ts: seq<Tick>, t: Tick, symbol: int, c: Candle)
    requires InOrder(ts, symbol) && c in Split(Enter(Run(ts).buckets, t), t, true) && c.key.symbol == symbol
    ensures Closes(t, c.key) && LastKey(ts, symbol) == Some(c.key)
  {
    var b := Run(ts).buckets;
    var popped := Split(Enter(b, t), t, true);
    var i :| 0 <= i < |popped| && popped[i] == c;
    PiecesAt(popped, i, c.key);
    OpenOnce(ts, c.key);
    EnterPieces(b, t, c.key);
    SplitPieces(Enter(b, t), t, true, c.key);
    var k := Find(b, c.key);
    if k == |b| { NoPiece(b, c.key); }
    assert b[k] in b;
    OpenOfSymbol(ts, symbol);
  }

  function Horizon(ts: seq<Tick>, symbol: int): Option<int>
  {
    if LastKey(ts, symbol).Some? then Some(LastKey(ts, symbol).value.time) else None
  }

  lemma PoppedAtMostOne(ts: seq<Tick>, t: Tick, symbol: int, hour: int)
    requires InOrder(ts, symbol)
    ensures AtMostOne(Split(Enter(Run(ts).buckets, t), t, true), OfHour(symbol, hour))
  {
    var popped := Split(Enter(Run(ts).buckets, t), t, true);
    forall i, j | 0 <= i < j < |popped| && OfHour(symbol, hour)(popped[i].key)
      ensures !OfHour(symbol, hour)(popped[j].key) {
      if OfHour(symbol, hour)(popped[j].key) {
        var key := popped[i].key;
        PoppedOfSymbol(ts, t, symbol, popped[i]);
        PoppedOfSymbol(ts, t, symbol, popped[j]);
        OpenOnce(ts, key);
        EnterPieces(Run(ts).buckets, t, key);
        SplitPieces(Enter(Run(ts).buckets, t), t, true, key);
        OnePiece(popped, key);
      }
    }
  }

  /** An in-order symbol's candles are emitted in ascending time order, behind its last tick's bucket. */
  lemma {:induction false} EmittedAscending(ts: seq<Tick>, symbol: int, hour: int)
    requires InOrder(ts, symbol)
    ensures Ascending(Run(ts).emitted, OfHour(symbol, hour), Horizon(ts, symbol))
  {
    if ts != [] {
      var init, t, sel := ts[..|ts| - 1], ts[|ts| - 1], OfHour(symbol, hour);
      assert ts == init + [t] && forall i :: 0 <= i < |init| ==> init[i] == ts[i];
      EmittedAscending(init, symbol, hour);
      var popped := Split(Enter(Run(init).buckets, t), t, true);
      PoppedAtMostOne(init, t, symbol, hour);
      forall c | c in popped && sel(c.key) ensures Closes(t, c.key) && LastKey(init, symbol) == Some(c.key) {
        PoppedOfSymbol(init, t, symbol, c);
      }
      if exists i :: 0 <= i < |popped| && sel(popped[i].key) {
        var i :| 0 <= i < |popped| && sel(popped[i].key);
        assert popped[i] in popped;
        AscendingAppend(Run(init).emitted, popped, sel, popped[i].key.time, Horizon(ts, symbol));
      } else {
        if t.symbol == symbol && LastKey(init, symbol).Some? { LastKeyIsLatest(init, symbol, t); }
        RaiseBound(Run(init).emitted, sel, Horizon(init, symbol), Horizon(ts, symbol));
        AscendingSkip(Run(init).emitted, popped, sel, Horizon(ts, symbol));
      }
    }
  }

  /** What is known of an in-order symbol's hour is the batch bar of the hour's ticks. */
  lemma {:induction false} HourKnown(ts: seq<Tick>, symbol: int, hour: int)
    requires InOrder(ts, symbol)
    ensures Known(Run(ts), OfHour(symbol, hour)) == Batch(ts, OfHour(symbol, hour))
  {
    if ts != [] {
      var init, t := ts[..|ts| - 1], ts[|ts| - 1];
      assert forall i :: 0 <= i < |init| ==> init[i] == ts[i];
      HourKnown(init, symbol, hour);
      OpenAtMostOne(init, symbol, hour);
      IngestExtends(Run(init), t, OfHour(symbol, hour));
    }
  }

  // ---------------------------------------------------------------- two levels against one

  /** The rows hold exactly the table's candles of the selected buckets, one each, in some order. */
  ghost predicate Lists(rows: seq<Candle>, table: Table, sel: BucketKey -> bool)
  {
    && DistinctTimes(rows)
    && forall c: Candle :: c in rows <==> c.key in table && sel(c.key) && table[c.key] == c.bar
  }

  lemma {:induction false} RowsAre(cs: seq<Candle>, sel: BucketKey -> bool)
    ensures forall c :: c in Rows(cs, sel) <==> c in cs && sel(c.key)
  {
    if cs != [] {
      RowsAre(cs[..|cs| - 1], sel);
      assert forall c :: c in cs <==> c in cs[..|cs| - 1] || c == cs[|cs| - 1];
    }
  }

  /** A bucket with at most one piece: the table holds that candle itself. */
  lemma OnePieceIsStored(e: seq<Candle>, c: Candle)
    requires Pieces(e, c.key) <= 1
    ensures c in e <==> c.key in Stored(e) && Stored(e)[c.key] == c.bar
  {
    StoredIsFirstPiece(e, c.key);
    OnePiece(e, c.key);
    if c in e {
      var i :| 0 <= i < |e| && e[i] == c;
      PiecesAt(e, i, c.key);
      FoldOnly(e, i, Only(c.key));
    }
    if c.key in Stored(e) {
      var i := Find(e, c.key);
      if i == |e| { NoPiece(e, c.key); }
      FoldOnly(e, i, Only(c.key));
      assert e[i] in e;
    }
  }

  lemma {:induction false} AscendingPrefix(a: seq<Candle>, b: seq<Candle>, sel: BucketKey -> bool, bound: Option<int>)
    requires Ascending(a + b, sel, bound)
    ensures Ascending(a, sel, bound)
  {
    if b == [] {
      assert a + b == a;
    } else {
      var init, c := b[..|b| - 1], b[|b| - 1];
      assert (a + b)[..|a + b| - 1] == a + init;
      if sel(c.key) {
        AscendingPrefix(a, init, sel, Some(c.key.time));
        RaiseBound(a, sel, Some(c.key.time), bound);
      } else {
        AscendingPrefix(a, init, sel, bound);
      }
    }
  }

  /** The first emitted candles of an in-order symbol ascend, and the table they make lists exactly them. */
  lemma StoredRowsListed(ts: seq<Tick>, stored: seq<Candle>, pending: seq<Candle>, symbol: int, hour: int)
    requires InOrder(ts, symbol) && Run(ts).emitted == stored + pending
    ensures Ascending(stored, OfHour(symbol, hour), Horizon(ts, symbol))
    ensures Lists(Rows(stored, OfHour(symbol, hour)), Stored(stored), OfHour(symbol, hour))
  {
    var sel := OfHour(symbol, hour);
    EmittedAscending(ts, symbol, hour);
    AscendingPrefix(stored, pending, sel, Horizon(ts, symbol));
    AscendingRows(stored, sel, Horizon(ts, symbol));
    RowsAre(stored, sel);
    forall c: Candle
      ensures c in Rows(stored, sel) <==> c.key in Stored(stored) && sel(c.key) && Stored(stored)[c.key] == c.bar
    {
      if sel(c.key) {
        InOrderEmitsOnce(ts, c.key);
        PiecesConcat(stored, pending, c.key);
        OnePieceIsStored(stored, c);
      }
    }
  }

  /** None of the candles is of a selected bucket. */
  ghost predicate NoneOf(cs: seq<Candle>, sel: BucketKey -> bool) { forall i :: 0 <= i < |cs| ==> !sel(cs[i].key) }

  lemma {:induction false} FoldsNothing(cs: seq<Candle>, sel: BucketKey -> bool)
    ensures Fold(cs, sel) == None <==> NoneOf(cs, sel)
  {
    if cs != [] {
      FoldsNothing(cs[..|cs| - 1], sel);
      assert forall i :: 0 <= i < |cs| - 1 ==> cs[i] == cs[..|cs| - 1][i];
    }
  }

  /** Joining anything to a bar changes its tick count. */
  lemma JoinGrows(a: Option<Bar>, b: Option<Bar>, c: Option<Bar>)
    ensures Hourly(a) == Hourly(Join(Join(a, b), c)) <==> b == None && c == None
  {}

  /** A bucket lies in the hour exactly when the ticks it collects do. */
  lemma HourTicks(t: Tick, symbol: int, hour: int)
    ensures OfHour(symbol, hour)(KeyOf(t)) <==> t.symbol == symbol && HourOf(t.time) == hour
  {
    DividingBucket(t.time, INTERVAL);
    SameHour(t.time);
  }

  /** The hour is the clock's, 3,600 seconds of microseconds: two times share it exactly when their quotients agree. */
  lemma HourIsOfTheClock(t: int, t': int)
    ensures HourOf(t) == t / 3600000000 * 3600000000
    ensures HourOf(t) == HourOf(t') <==> t / 3600000000 == t' / 3600000000
  {}

  lemma SameHour(t: int)
    ensures HourOf(t - t % MINUTE) == HourOf(t)
  {
    var h, r := t / HOUR, t % HOUR;
    var m, s := r / MINUTE, r % MINUTE;
    RemainderIs(t, 60 * h + m, s, MINUTE);
    RemainderIs(t - s, h, m * MINUTE, HOUR);
  }

  /** The symbol's last tick is in the hour. */
  predicate LastIn(ts: seq<Tick>, symbol: int, hour: int)
  {
    LastKey(ts, symbol).Some? && HourOf(LastKey(ts, symbol).value.time) == hour
  }

  /** Something is open in the hour exactly when the symbol's last tick is in it. */
  lemma OpenInHour(ts: seq<Tick>, symbol: int, hour: int)
    requires InOrder(ts, symbol)
    ensures !NoneOf(Run(ts).buckets, OfHour(symbol, hour)) <==> LastIn(ts, symbol, hour)
  {
    var b, sel := Run(ts).buckets, OfHour(symbol, hour);
    OpenOfSymbol(ts, symbol);
    OpenAtMostOne(ts, symbol, hour);
    if LastKey(ts, symbol).Some? { LastKeySeen(ts, symbol); }
    if LastIn(ts, symbol, hour) {
      var i := Find(b, LastKey(ts, symbol).value);
      if i == |b| { NoPiece(b, LastKey(ts, symbol).value); }
      assert sel(b[i].key);
    } else {
      forall i | 0 <= i < |b| ensures !sel(b[i].key) { assert b[i] in b; }
    }
  }

  /**
   * With part of what was emitted in the table and the rest pending, the hourly row read from the table is the
   * bar of the hour's ticks exactly when none of the hour's candles is pending or still open.
   */
  lemma RowWholeExactlyWhenNothingPending(ts: seq<Tick>, stored: seq<Candle>, pending: seq<Candle>, symbol: int,
      hour: int, rows: seq<Candle>)
    requires InOrder(ts, symbol) && Run(ts).emitted == stored + pending
    requires Lists(rows, Stored(stored), OfHour(symbol, hour))
    ensures var sel := OfHour(symbol, hour);
            Selected(Grouped(rows)) == Hourly(Batch(ts, sel)) <==> NoneOf(pending, sel) && NoneOf(Run(ts).buckets, sel)
  {
    hide Ascending, Run, Batch, Grouped, Selected, Hourly, NoneOf, Fold;
    var sel := OfHour(symbol, hour);
    StoredRowsListed(ts, stored, pending, symbol, hour);
    GroupedInAnyOrder(rows, Rows(stored, sel));
    GroupedAscending(stored, sel, Horizon(ts, symbol));
    HourKnown(ts, symbol, hour);
    FoldConcat(stored, pending, sel);
    JoinGrows(Fold(stored, sel), Fold(pending, sel), Fold(Run(ts).buckets, sel));
    FoldsNothing(pending, sel);
    FoldsNothing(Run(ts).buckets, sel);
  }

  /** An hourly row that is whole says what it should about the hour's ticks. */
  lemma WholeRowIsOhlcv(ts: seq<Tick>, sel: BucketKey -> bool, row: HourRow)
    requires Hourly(Batch(ts, sel)) == Some(row)
    ensures var hour := TicksOf(ts, sel);
            && hour != [] && row.count == |hour| && row.volume == Volume(hour)
            && row.open == hour[0].price && row.close == hour[|hour| - 1].price
            && (forall i :: 0 <= i < |hour| ==> row.low <= hour[i].price <= row.high)
            && (exists i :: 0 <= i < |hour| && hour[i].price == row.high)
            && (exists i :: 0 <= i < |hour| && hour[i].price == row.low)
  {
    BatchIsOhlcv(ts, sel);
  }

  /**
   * Two-level aggregation equals one-level: for a symbol whose ticks arrive in time order, the hourly row
   * selected from the stored one-minute candles, read in any order, is the bar of the hour's ticks exactly
   * when the symbol's last tick is outside the hour, so that no minute of it is still open.
   */
  lemma TwoLevelsAgreeExactlyWhenHourIsOver(ts: seq<Tick>, symbol: int, hour: int, rows: seq<Candle>)
    requires InOrder(ts, symbol) && Lists(rows, Stored(Run(ts).emitted), OfHour(symbol, hour))
    ensures Selected(Grouped(rows)) == Hourly(Batch(ts, OfHour(symbol, hour))) <==> !LastIn(ts, symbol, hour)
  {
    assert Run(ts).emitted + [] == Run(ts).emitted;
    RowWholeExactlyWhenNothingPending(ts, Run(ts).emitted, [], symbol, hour, rows);
    OpenInHour(ts, symbol, hour);
  }
}
