// The table of completed one-minute candles: which buckets it holds, and when a stored candle is the whole
// bucket (app/workers/db_writer.py, app/workers/candle_aggregator.py).
module CandleStore {
  import opened Money
  import opened Candles

  type Table = map<BucketKey, Bar>

  // ON CONFLICT (symbol_id, time) DO NOTHING: the first candle of a bucket wins.
  function Insert(table: Table, c: Candle): Table
  {
    if c.key in table then table else table[c.key := c.bar]
  }

  function Stored(cs: seq<Candle>): Table
  {
    if cs == [] then map[] else Insert(Stored(cs[..|cs| - 1]), cs[|cs| - 1])
  }

  /** The table holds the first piece of each bucket: all of it, or strictly fewer ticks than its pieces together. */
  lemma {:induction false} StoredIsFirstPiece(cs: seq<Candle>, key: BucketKey)
    ensures key in Stored(cs) <==> 1 <= Pieces(cs, key)
    ensures Fold(cs, Only(key)).Some? <==> 1 <= Pieces(cs, key)
    ensures Pieces(cs, key) == 1 ==> Fold(cs, Only(key)) == Some(Stored(cs)[key])
    ensures 2 <= Pieces(cs, key) ==> Stored(cs)[key].count < Fold(cs, Only(key)).value.count
  {
    if cs != [] { StoredIsFirstPiece(cs[..|cs| - 1], key); }
  }

  // ---------------------------------------------------------------- when a bucket closes, and when it is late

  predicate Seen(ts: seq<Tick>, key: BucketKey)
  {
    ts != [] && (Seen(ts[..|ts| - 1], key) || KeyOf(ts[|ts| - 1]) == key)
  }

  /** A tick of the bucket was followed by a tick of the symbol in a later bucket. */
  predicate Closed(ts: seq<Tick>, key: BucketKey)
  {
    ts != [] && var init := ts[..|ts| - 1]; Closed(init, key) || (Seen(init, key) && Closes(ts[|ts| - 1], key))
  }

  /** After it closed, the bucket received another tick. */
  predicate Late(ts: seq<Tick>, key: BucketKey)
  {
    ts != [] && var init := ts[..|ts| - 1]; Late(init, key) || (Closed(init, key) && KeyOf(ts[|ts| - 1]) == key)
  }

  /**
   * A bucket is emitted exactly when it closes, and is in more than one piece (emitted or still open)
   * exactly when a late tick arrived.
   */
  lemma {:induction false} PiecesTellLateness(ts: seq<Tick>, key: BucketKey)
    ensures var s := Run(ts);
            && Pieces(s.buckets, key) <= 1
            && (1 <= Pieces(s.emitted, key) <==> Closed(ts, key))
            && (1 <= Pieces(s.emitted, key) + Pieces(s.buckets, key) <==> Seen(ts, key))
            && (Closed(ts, key) ==> (2 <= Pieces(s.emitted, key) + Pieces(s.buckets, key) <==> Late(ts, key)))
            && (Late(ts, key) ==> Closed(ts, key))
  {
    if ts != [] {
      var init, t := ts[..|ts| - 1], ts[|ts| - 1];
      PiecesTellLateness(init, key);
      IngestPieces(Run(init), t, key);
    }
  }

  /**
   * The stored candle of a bucket is the bar of all of its ticks exactly when the bucket has closed and no
   * tick came late: a late tick's candle is emitted but never stored.
   */
  lemma StoredWholeExactlyWhenNotLate(ts: seq<Tick>, key: BucketKey)
    ensures var table := Stored(Run(ts).emitted);
            (key in table && Batch(ts, Only(key)) == Some(table[key])) <==> Closed(ts, key) && !Late(ts, key)
  {
    PiecesTellLateness(ts, key);
    AggregatorRefinesBatch(ts, key);
    StoredIsFirstPiece(Run(ts).emitted, key);
    StoredIsFirstPiece(Run(ts).buckets, key);
  }

  lemma {:induction false} StoredKeeps(a: seq<Candle>, b: seq<Candle>, key: BucketKey)
    requires key in Stored(a)
    ensures key in Stored(a + b) && Stored(a + b)[key] == Stored(a)[key]
  {
    if b == [] {
      assert a + b == a;
    } else {
      assert (a + b)[..|a + b| - 1] == a + b[..|b| - 1];
      StoredKeeps(a, b[..|b| - 1], key);
    }
  }

  lemma {:induction false} EmittedGrows(ts: seq<Tick>, more: seq<Tick>)
    ensures Run(ts).emitted <= Run(ts + more).emitted
  {
    if more == [] {
      assert ts + more == ts;
    } else {
      var init, t := more[..|more| - 1], more[|more| - 1];
      assert ts + more == (ts + init) + [t];
      EmittedGrows(ts, init);
      RunStep(ts + init, t);
    }
  }

  /** A stored candle is final, whatever ticks follow. */
  lemma {:induction false} StoredIsFinal(ts: seq<Tick>, more: seq<Tick>, key: BucketKey)
    requires key in Stored(Run(ts).emitted)
    ensures key in Stored(Run(ts + more).emitted) && Stored(Run(ts + more).emitted)[key] == Stored(Run(ts).emitted)[key]
  {
    hide Run, Stored;
    EmittedGrows(ts, more);
    var a, b := Run(ts).emitted, Run(ts + more).emitted;
    assert b == a + b[|a|..];
    StoredKeeps(a, b[|a|..], key);
  }

  /** A tick that comes after its bucket closed is never reflected in the stored candle, whatever follows. */
  lemma {:induction false} LateTickIsNeverStored(ts: seq<Tick>, late: Tick, more: seq<Tick>)
    requires Closed(ts, KeyOf(late))
    ensures var key, all := KeyOf(late), ts + [late] + more;
            && key in Stored(Run(ts).emitted) && key in Stored(Run(all).emitted)
            && Stored(Run(all).emitted)[key] == Stored(Run(ts).emitted)[key]
            && Batch(all, Only(key)) != Some(Stored(Run(all).emitted)[key])
  {
    hide Run, Stored, Batch;
    var key := KeyOf(late);
    PiecesTellLateness(ts, key);
    StoredIsFirstPiece(Run(ts).emitted, key);
    assert ts + [late] + more == ts + ([late] + more);
    StoredIsFinal(ts, [late] + more, key);
    assert (ts + [late])[..|ts|] == ts;
    assert Late(ts + [late], key);
    LateStays(ts + [late], more, key);
    StoredWholeExactlyWhenNotLate(ts + [late] + more, key);
  }

  lemma {:induction false} LateStays(ts: seq<Tick>, more: seq<Tick>, key: BucketKey)
    requires Late(ts, key)
    ensures Late(ts + more, key)
  {
    if more == [] {
      assert ts + more == ts;
    } else {
      assert (ts + more)[..|ts + more| - 1] == ts + more[..|more| - 1];
      LateStays(ts, more[..|more| - 1], key);
    }
  }

  /** One tick in the first minute, one in the second, one more in the first: the stored candle has one tick of two. */
  lemma LateTickExample(first: Tick, next: Tick, late: Tick)
    requires first == Tick(1, 0, 10.0, 1.0, false) && next == Tick(1, MINUTE, 11.0, 1.0, false)
    requires late == Tick(1, 1, 12.0, 1.0, false)
    ensures var ts, key := [first, next, late], BucketKey(1, 0);
            && KeyOf(first) == key && KeyOf(late) == key
            && key in Stored(Run(ts).emitted) && Stored(Run(ts).emitted)[key].close == 10.0
            && Batch(ts, Only(key)).Some? && Batch(ts, Only(key)).value.close == 12.0
  {
    var key := BucketKey(1, 0);
    assert KeyOf(first) == key && KeyOf(late) == key && KeyOf(next) == BucketKey(1, MINUTE);
    FirstAndNext(first, next);
    assert [first, next] + [late] == [first, next, late];
    StoredIsFinal([first, next], [late], key);
    LastOfBatch([first, next], late);
  }

  /** Two ticks in successive buckets: the first candle is stored. */
  lemma FirstAndNext(first: Tick, next: Tick)
    requires Closes(next, KeyOf(first))
    ensures var e := Run([first, next]).emitted;
            KeyOf(first) in Stored(e) && Stored(e)[KeyOf(first)] == Single(first)
  {
    var key := KeyOf(first);
    assert [first, next][..1] == [first] && [first][..0] == [];
    assert Seen([first], key) && Closed([first, next], key) && !Closed([first], key);
    PiecesTellLateness([first, next], key);
    assert !Late([first, next], key) by { assert !Late([first], key); }
    hide Run, Stored, Batch, Late, Closed, Seen;
    StoredWholeExactlyWhenNotLate([first, next], key);
    FirstOfBatch(first, next);
  }

  lemma FirstOfBatch(first: Tick, next: Tick)
    requires KeyOf(next) != KeyOf(first)
    ensures Batch([first, next], Only(KeyOf(first))) == Some(Single(first))
  {
    var sel := Only(KeyOf(first));
    assert [first, next][..1] == [first] && [first][..0] == [];
    assert Batch([], sel) == None;
    assert Batch([first], sel) == Some(Single(first));
  }

  lemma LastOfBatch(ts: seq<Tick>, t: Tick)
    ensures Batch(ts + [t], Only(KeyOf(t))).Some? && Batch(ts + [t], Only(KeyOf(t))).value.close == t.price
  {
    assert (ts + [t])[..|ts|] == ts;
  }

  // ---------------------------------------------------------------- time-ordered symbols

  /** The ticks of the symbol arrive in time order; other symbols may interleave freely. */
  ghost predicate InOrder(ts: seq<Tick>, symbol: int)
  {
    forall i, j :: 0 <= i < j < |ts| && ts[i].symbol == symbol && ts[j].symbol == symbol ==> ts[i].time <= ts[j].time
  }

  /** The bucket of the symbol's last tick. */
  function LastKey(ts: seq<Tick>, symbol: int): Option<BucketKey>
  {
    if ts == [] then None
    else if ts[|ts| - 1].symbol == symbol then Some(KeyOf(ts[|ts| - 1]))
    else LastKey(ts[..|ts| - 1], symbol)
  }

  lemma BucketsInOrder(t: int, t': int)
    requires t <= t'
    ensures BucketTs(t, INTERVAL) <= BucketTs(t', INTERVAL)
    ensures BucketTs(t, INTERVAL) == t - t % MINUTE
  {
    DividingBucket(t, INTERVAL);
    DividingBucket(t', INTERVAL);
  }

  lemma {:induction false} LastKeyIsLatest(ts: seq<Tick>, symbol: int, t: Tick)
    requires InOrder(ts + [t], symbol) && t.symbol == symbol && LastKey(ts, symbol).Some?
    ensures LastKey(ts, symbol).value.symbol == symbol && LastKey(ts, symbol).value.time <= KeyOf(t).time
  {
    var all, n := ts + [t], |ts| - 1;
    assert all[n] == ts[n] && all[|ts|] == t;
    if ts[n].symbol == symbol {
      BucketsInOrder(ts[n].time, t.time);
    } else {
      InOrderPrefix(ts, symbol, t);
      LastKeyIsLatest(ts[..n], symbol, t);
    }
  }

  lemma InOrderPrefix(ts: seq<Tick>, symbol: int, t: Tick)
    requires InOrder(ts + [t], symbol) && ts != []
    ensures InOrder(ts, symbol) && InOrder(ts[..|ts| - 1] + [t], symbol)
  {
    var all, less := ts + [t], ts[..|ts| - 1] + [t];
    assert forall i :: 0 <= i < |ts| ==> all[i] == ts[i];
    assert forall i :: 0 <= i < |less| ==> less[i] == if i == |less| - 1 then all[|ts|] else all[i];
  }

  /** A bucket of an in-order symbol is closed once it is behind the last tick's bucket, and is never late. */
  lemma {:induction false} InOrderNeverLate(ts: seq<Tick>, key: BucketKey)
    requires InOrder(ts, key.symbol)
    ensures !Late(ts, key)
    ensures Seen(ts, key) && !Closed(ts, key) ==> LastKey(ts, key.symbol) == Some(key)
    ensures Closed(ts, key) ==> LastKey(ts, key.symbol).Some? && key.time < LastKey(ts, key.symbol).value.time
  {
    if ts != [] {
      var init, t := ts[..|ts| - 1], ts[|ts| - 1];
      assert ts == init + [t];
      assert forall i :: 0 <= i < |init| ==> init[i] == ts[i];
      InOrderNeverLate(init, key);
      if t.symbol == key.symbol && LastKey(init, key.symbol).Some? { LastKeyIsLatest(init, key.symbol, t); }
    }
  }

  /**
   * When a symbol's ticks arrive in time order, every one of its buckets is emitted exactly once when it
   * closes and never again, and the stored candle is the bar of all of its ticks.
   */
  lemma InOrderEmitsOnce(ts: seq<Tick>, key: BucketKey)
    requires InOrder(ts, key.symbol)
    ensures Pieces(Run(ts).emitted, key) == if Closed(ts, key) then 1 else 0
    ensures Closed(ts, key) ==>
      key in Stored(Run(ts).emitted) && Batch(ts, Only(key)) == Some(Stored(Run(ts).emitted)[key])
  {
    InOrderNeverLate(ts, key);
    PiecesTellLateness(ts, key);
    StoredWholeExactlyWhenNotLate(ts, key);
  }

  /** The only open bucket of an in-order symbol is that of its last tick. */
  lemma OpenOfSymbol(ts: seq<Tick>, symbol: int)
    requires InOrder(ts, symbol)
    ensures forall c :: c in Run(ts).buckets && c.key.symbol == symbol ==> LastKey(ts, symbol) == Some(c.key)
    ensures LastKey(ts, symbol).Some? ==> Pieces(Run(ts).buckets, LastKey(ts, symbol).value) == 1
  {
    var b := Run(ts).buckets;
    forall c | c in b && c.key.symbol == symbol ensures LastKey(ts, symbol) == Some(c.key) {
      var i :| 0 <= i < |b| && b[i] == c;
      PiecesAt(b, i, c.key);
      InOrderNeverLate(ts, c.key);
      PiecesTellLateness(ts, c.key);
    }
    if LastKey(ts, symbol).Some? {
      var key := LastKey(ts, symbol).value;
      LastKeySeen(ts, symbol);
      InOrderNeverLate(ts, key);
      PiecesTellLateness(ts, key);
    }
  }

  lemma {:induction false} LastKeySeen(ts: seq<Tick>, symbol: int)
    requires LastKey(ts, symbol).Some?
    ensures LastKey(ts, symbol).value.symbol == symbol && Seen(ts, LastKey(ts, symbol).value)
  {
    if ts[|ts| - 1].symbol != symbol { LastKeySeen(ts[..|ts| - 1], symbol); }
  }
}
