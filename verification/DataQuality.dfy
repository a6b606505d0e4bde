// The tick quality gate: rolling windows, the duplicate set and the price-spike verdict
// (app/workers/dq_pipeline.py).
module DataQuality {
  import opened Money

  const WARMUP := 5            // prices seen before the spike check starts
  const WINDOW := 20           // DQ_PRICE_WINDOW
  const SPIKE: real := 0.05    // DQ_SPIKE_THRESHOLD
  const KEPT := 200            // history kept per symbol
  const VOL_WARMUP := 10
  const VOL_WINDOW := 50
  const VOL_FACTOR: real := 50.0
  const SEEN_LIMIT := 500
  const SEEN_DROP := 100

  datatype Verdict = PASS | FLAG | REJECT

  datatype Reason = ZeroPrice | NegativeVolume | Duplicate | Spike(pct: real) | VolumeOutlier(ratio: real)

  datatype Result = Result(verdict: Verdict, flags: seq<Reason>)

  // An incoming tick; the duplicate key is its price, volume and time.
  datatype Raw = Raw(symbol: Option<int>, time: int, price: real, volume: real)

  datatype SeenKey = SeenKey(price: real, volume: real, time: int)

  function SeenKeyOf(t: Raw): SeenKey { SeenKey(t.price, t.volume, t.time) }

  // ---------------------------------------------------------------- windows

  function Mean(ps: seq<real>): real
    requires ps != []
  {
    Total(ps) / |ps| as real
  }

  function Last(ps: seq<real>, n: nat): seq<real> { if |ps| <= n then ps else ps[|ps| - n..] }

  function Pct(price: real, mean: real): real { if mean == 0.0 then 0.0 else Abs(price - mean) / mean }

  /** How far the price is from the mean of the window; nothing is measured before warm-up. */
  function SpikePct(prices: seq<real>, price: real): real
  {
    if |prices| < WARMUP then 0.0 else Pct(price, Mean(Last(prices, WINDOW)))
  }

  predicate Spiked(prices: seq<real>, price: real) { SpikePct(prices, price) > SPIKE }

  predicate SpikeRejected(prices: seq<real>, price: real) { SpikePct(prices, price) > SPIKE * 3.0 }

  /** The price history after one price: rejected spikes are remembered too, without trimming. */
  function NextPrices(prices: seq<real>, price: real): seq<real>
  {
    if SpikeRejected(prices, price) then prices + [price] else Last(prices + [price], KEPT)
  }

  predicate VolumeSpiked(volumes: seq<real>, volume: real)
  {
    |volumes| >= VOL_WARMUP && var avg := Mean(Last(volumes, VOL_WINDOW)); avg > 0.0 && volume > avg * VOL_FACTOR
  }

  function SpikeFlags(prices: seq<real>, price: real): seq<Reason>
  {
    if Spiked(prices, price) then [Spike(SpikePct(prices, price))] else []
  }

  function VolumeFlags(volumes: seq<real>, volume: real): seq<Reason>
  {
    if VolumeSpiked(volumes, volume) then [VolumeOutlier(volume / Mean(Last(volumes, VOL_WINDOW)))] else []
  }

  /** The verdict on a tick, given what is remembered of its symbol. */
  function Judge(prices: seq<real>, volumes: seq<real>, seen: set<SeenKey>, t: Raw): Result
  {
    if t.price <= 0.0 then Result(REJECT, [ZeroPrice])
    else if t.volume < 0.0 then Result(REJECT, [NegativeVolume])
    else if SeenKeyOf(t) in seen then Result(REJECT, [Duplicate])
    else Screening(prices, volumes, t)
  }

  /** The verdict of the two window checks. */
  function Screening(prices: seq<real>, volumes: seq<real>, t: Raw): Result
  {
    if SpikeRejected(prices, t.price) then Result(REJECT, SpikeFlags(prices, t.price))
    else Graded(SpikeFlags(prices, t.price) + VolumeFlags(volumes, t.volume))
  }

  function Graded(flags: seq<Reason>): Result { Result(if flags == [] then PASS else FLAG, flags) }

  /** A tick reaches the spike check. */
  predicate Screened(seen: set<SeenKey>, t: Raw) { t.price > 0.0 && t.volume >= 0.0 && SeenKeyOf(t) !in seen }

  // What the gate remembers of one symbol.
  datatype Memory = Memory(prices: seq<real>, volumes: seq<real>, seen: set<SeenKey>)

  /** Every symbol has a memory, empty until its first tick. */
  ghost predicate Everywhere(g: imap<int, Memory>) { forall s: int :: s in g }

  /** One checked tick: its verdict, and what is remembered of its symbol afterwards. */
  ghost predicate Checks(m: Memory, t: Raw, r: Result, m': Memory)
  {
    && r == Judge(m.prices, m.volumes, m.seen, t)
    && if !Screened(m.seen, t) then m' == m
       else
         && m'.prices == NextPrices(m.prices, t.price)
         && m'.volumes == (if r.verdict == REJECT then m.volumes else Last(m.volumes + [t.volume], KEPT))
         && m'.seen <= m.seen + {SeenKeyOf(t)}
         && (|m.seen| < SEEN_LIMIT ==> SeenKeyOf(t) in m'.seen)
  }

  /** REJECT exactly for the four reasons, PASS exactly without flags, and every flag justified. */
  lemma JudgeMeans(prices: seq<real>, volumes: seq<real>, seen: set<SeenKey>, t: Raw)
    ensures var r := Judge(prices, volumes, seen, t);
            && (r.verdict == REJECT <==>
              t.price <= 0.0 || t.volume < 0.0 || SeenKeyOf(t) in seen || SpikeRejected(prices, t.price))
            && (r.verdict == PASS <==> r.flags == [])
            && (Screened(seen, t) ==>
              (Spiked(prices, t.price) <==> exists i :: 0 <= i < |r.flags| && r.flags[i].Spike?))
  {
    var r := Judge(prices, volumes, seen, t);
    if Screened(seen, t) && Spiked(prices, t.price) { assert r.flags[0].Spike?; }
  }

  /** The window a price is compared with: the last twenty, or all there are. */
  function LastTwenty(prices: seq<real>): seq<real> { if |prices| <= 20 then prices else prices[|prices| - 20..] }

  function LastFifty(volumes: seq<real>): seq<real> { if |volumes| <= 50 then volumes else volumes[|volumes| - 50..] }

  lemma {:induction false} PositiveTotal(ps: seq<real>)
    requires Positive(ps)
    ensures 0.0 <= Total(ps) && (ps != [] ==> 0.0 < Total(ps))
  {
    if ps != [] { PositiveTotal(ps[..|ps| - 1]); }
  }

  /**
   * A spike in numbers: from five prices on, a price more than 5% away from the mean of the last twenty is flagged,
   * and one more than 15% away is rejected.
   */
  lemma SpikesInNumbers(prices: seq<real>, price: real)
    requires Positive(prices)
    ensures |prices| < 5 ==> !Spiked(prices, price) && !SpikeRejected(prices, price)
    ensures |prices| >= 5 ==>
      var w := LastTwenty(prices);
      var mean := Total(w) / (|w| as real);
      && mean > 0.0
      && (Spiked(prices, price) <==> Abs(price - mean) > Value(mean, 0.05))
      && (SpikeRejected(prices, price) <==> Abs(price - mean) > Value(mean, 0.15))
  {
    hide Value;
    if |prices| >= 5 {
      var w := LastTwenty(prices);
      assert w == Last(prices, WINDOW);
      PositiveTotal(w);
      PositiveMean(Total(w), |w| as real);
      PctExceeds(price, Mean(w), 0.05);
      PctExceeds(price, Mean(w), 0.15);
    }
  }

  lemma PositiveMean(total: real, n: real)
    requires 0.0 < total && 0.0 < n
    ensures 0.0 < total / n
  {
    hide Value;
    ValueOfQuotient(total, n);
    ValueAtZero(n);
    if total / n <= 0.0 { ValueMono(n, total / n, 0.0); }
  }

  /** A volume outlier in numbers: from ten volumes on, above fifty times the mean of the last fifty (if positive). */
  lemma OutliersInNumbers(volumes: seq<real>, volume: real)
    ensures VolumeSpiked(volumes, volume) <==>
      |volumes| >= 10 && Total(LastFifty(volumes)) / (|LastFifty(volumes)| as real) > 0.0 &&
      volume > 50.0 * (Total(LastFifty(volumes)) / (|LastFifty(volumes)| as real))
  {
    assert LastFifty(volumes) == Last(volumes, VOL_WINDOW);
  }

  /** The verdict on a screened tick: rejected, flagged or passed by these two measures alone, each with its flag. */
  lemma ScreeningMeans(prices: seq<real>, volumes: seq<real>, seen: set<SeenKey>, t: Raw)
    requires Screened(seen, t)
    ensures var r := Judge(prices, volumes, seen, t);
            && (r.verdict == REJECT <==> SpikeRejected(prices, t.price))
            && (r.verdict != REJECT ==>
                  (r.verdict == FLAG <==> Spiked(prices, t.price) || VolumeSpiked(volumes, t.volume)))
            && (r.verdict != REJECT ==> ((exists f :: f in r.flags && f.Spike?) <==> Spiked(prices, t.price)))
            && (r.verdict != REJECT ==>
                  ((exists f :: f in r.flags && f.VolumeOutlier?) <==> VolumeSpiked(volumes, t.volume)))
  {
    var r := Judge(prices, volumes, seen, t);
    if Spiked(prices, t.price) { assert r.flags[0].Spike? && r.flags[0] in r.flags; }
    if !SpikeRejected(prices, t.price) && VolumeSpiked(volumes, t.volume) {
      assert r.flags[|r.flags| - 1].VolumeOutlier? && r.flags[|r.flags| - 1] in r.flags;
    }
  }

  /** Why a tick is rejected before it reaches the windows: the first of the three reasons that applies. */
  lemma ReasonsBeforeScreening(prices: seq<real>, volumes: seq<real>, seen: set<SeenKey>, t: Raw)
    ensures var flags := Judge(prices, volumes, seen, t).flags;
            && (flags == [ZeroPrice] <==> t.price <= 0.0)
            && (flags == [NegativeVolume] <==> t.price > 0.0 && t.volume < 0.0)
            && (flags == [Duplicate] <==> t.price > 0.0 && t.volume >= 0.0 && SeenKeyOf(t) in seen)
  {
    hide Mean;
    if Screened(seen, t) {
      var flags := Judge(prices, volumes, seen, t).flags;
      assert |flags| > 0 ==> flags[0].Spike? || flags[0].VolumeOutlier?;
    }
  }

  /** The sizes reported: a spike's distance from the mean in parts of it, an outlier's multiple of the mean volume. */
  lemma ReportedSizes(prices: seq<real>, volumes: seq<real>, seen: set<SeenKey>, t: Raw, f: Reason)
    requires Screened(seen, t) && Positive(prices) && f in Judge(prices, volumes, seen, t).flags
    ensures (f.Spike? ==> prices != []) && (f.VolumeOutlier? ==> volumes != [])
    ensures f.Spike? ==>
      var mean := Total(LastTwenty(prices)) / (|LastTwenty(prices)| as real);
      Value(mean, f.pct) == Abs(t.price - mean)
    ensures f.VolumeOutlier? ==>
      Value(Total(LastFifty(volumes)) / (|LastFifty(volumes)| as real), f.ratio) == t.volume
  {
    hide Value;
    if f.Spike? {
      var w := LastTwenty(prices);
      assert w == Last(prices, WINDOW);
      PositiveTotal(w);
      PositiveMean(Total(w), |w| as real);
      ValueOfQuotient(Abs(t.price - Mean(w)), Mean(w));
    }
    if f.VolumeOutlier? {
      assert LastFifty(volumes) == Last(volumes, VOL_WINDOW);
      ValueOfQuotient(t.volume, Mean(LastFifty(volumes)));
    }
  }

  /**
   * A duplicate is a tick that agrees in price, volume and time with one that was screened before: right after a
   * tick exactly its repeats are rejected, besides what was a duplicate already.
   */
  lemma OnlyRepeatsAreDuplicates(m: Memory, t: Raw, r: Result, m': Memory, t': Raw)
    requires Checks(m, t, r, m') && Screened(m.seen, t) && Screened(m.seen, t')
    ensures var repeat := t'.price == t.price && t'.volume == t.volume && t'.time == t.time;
            && (!repeat ==> Screened(m'.seen, t'))
            && (repeat && |m.seen| < 500 ==> Judge(m'.prices, m'.volumes, m'.seen, t') == Result(REJECT, [Duplicate]))
  {
    hide Screening, NextPrices, Judge;
    if |m.seen| < 500 && SeenKeyOf(t') == SeenKeyOf(t) { DuplicateRejected(m', t'); }
  }

  lemma DuplicateRejected(m: Memory, t: Raw)
    requires t.price > 0.0 && t.volume >= 0.0 && SeenKeyOf(t) in m.seen
    ensures Judge(m.prices, m.volumes, m.seen, t) == Result(REJECT, [Duplicate])
  {}

  /** What is remembered of the prices: all of them after a rejected spike, and otherwise the last two hundred. */
  lemma RemembersLatest(prices: seq<real>, price: real)
    ensures var next := NextPrices(prices, price);
            && |next| == (if SpikeRejected(prices, price) || |prices| < 200 then |prices| + 1 else 200)
            && next == (prices + [price])[|prices| + 1 - |next|..]
  {
    hide SpikeRejected;
  }

  // ---------------------------------------------------------------- recovery from a price move

  /** The history after n further ticks at one level. */
  function After(prices: seq<real>, level: real, n: nat): seq<real>
  {
    if n == 0 then prices else NextPrices(After(prices, level, n - 1), level)
  }

  /** How many of the first n ticks at the level are rejected as spikes. */
  function Rejections(prices: seq<real>, level: real, n: nat): nat
  {
    if n == 0 then 0
    else Rejections(prices, level, n - 1) + if SpikeRejected(After(prices, level, n - 1), level) then 1 else 0
  }

  ghost predicate Positive(ps: seq<real>) { forall i :: 0 <= i < |ps| ==> ps[i] > 0.0 }

  ghost predicate AtMost(ps: seq<real>, level: real) { forall i :: 0 <= i < |ps| ==> ps[i] <= level }

  /** The last n prices, as far as the window reaches, are at the level. */
  ghost predicate Settled(ps: seq<real>, level: real, n: nat)
  {
    var w := Last(ps, WINDOW);
    && (n <= |w| || |w| == WINDOW)
    && forall i :: 0 <= i < |w| && |w| - n <= i ==> w[i] == level
  }

  lemma NextSettles(prices: seq<real>, level: real, n: nat)
    requires Settled(prices, level, n) && Positive(prices) && level > 0.0
    ensures Settled(NextPrices(prices, level), level, n + 1) && Positive(NextPrices(prices, level))
    ensures AtMost(prices, level) ==> AtMost(NextPrices(prices, level), level)
  {
    var w, w' := Last(prices, WINDOW), Last(NextPrices(prices, level), WINDOW);
    assert w' == Last(w + [level], WINDOW);
  }

  lemma {:induction false} AfterSettles(prices: seq<real>, level: real, n: nat)
    requires Positive(prices) && level > 0.0
    ensures Settled(After(prices, level, n), level, n) && Positive(After(prices, level, n))
    ensures AtMost(prices, level) ==> AtMost(After(prices, level, n), level)
  {
    if n > 0 {
      AfterSettles(prices, level, n - 1);
      NextSettles(After(prices, level, n - 1), level, n - 1);
    }
  }

  lemma {:induction false} TotalBounds(ps: seq<real>, level: real, n: nat)
    requires level > 0.0 && n <= |ps| && Positive(ps)
    requires forall i :: |ps| - n <= i < |ps| ==> ps[i] == level
    ensures Total(ps) >= Value(n as real, level)
    ensures n == |ps| ==> Total(ps) == Value(n as real, level)
    ensures AtMost(ps, level) ==> Total(ps) <= Value(|ps| as real, level)
  {
    hide Value;
    ValueAtZero(level);
    if ps != [] {
      var k, m := |ps| - 1, if n == 0 then 0 else n - 1;
      TotalBounds(ps[..k], level, m);
      OneMore(k, level);
      OneMore(m, level);
    }
  }

  lemma OneMore(n: nat, x: real)
    ensures Value((n + 1) as real, x) == Value(n as real, x) + x
  {
    ValueAdds(n as real, 1.0, x);
  }

  lemma PctAtMost(price: real, mean: real, bound: real)
    requires mean > 0.0 && Abs(price - mean) <= Value(mean, bound)
    ensures Pct(price, mean) <= bound
  {
    PctExceeds(price, mean, bound);
  }

  lemma MeanTimes(ps: seq<real>)
    requires ps != []
    ensures Value(|ps| as real, Mean(ps)) == Total(ps)
  {
    hide Value;
    ValueOfQuotient(Total(ps), |ps| as real);
  }

  /** The window of a history that has settled for n ticks. */
  lemma WindowTotal(ps: seq<real>, level: real, n: nat)
    requires Settled(ps, level, n) && Positive(ps) && level > 0.0 && 18 <= n
    ensures var w := Last(ps, WINDOW);
            && 18 <= |w| && 18.0 * level <= Total(w)
            && (n >= 20 ==> |w| == WINDOW && Total(w) == 20.0 * level)
            && (AtMost(ps, level) ==> Total(w) <= Value(|w| as real, level))
  {
    var w := Last(ps, WINDOW);
    var settled := if n <= |w| then n else |w|;
    TotalBounds(w, level, settled);
    ValueSwap(settled as real, level);
    ValueSwap(18.0, level);
    ValueMono(level, 18.0, settled as real);
  }

  /**
   * Recovery: whatever positive prices came before, no tick at the new level is spike-flagged from the 21st
   * on, and when the move is upward none is rejected from the 19th on.
   */
  lemma SpikeGateRecovers(prices: seq<real>, level: real, n: nat)
    requires Positive(prices) && level > 0.0
    ensures n >= 20 ==> !Spiked(After(prices, level, n), level)
    ensures n >= 18 && AtMost(prices, level) ==> !SpikeRejected(After(prices, level, n), level)
  {
    if n >= 18 {
      AfterSettles(prices, level, n);
      WindowTotal(After(prices, level, n), level, n);
      var w := Last(After(prices, level, n), WINDOW);
      if n >= 20 { AllAtLevel(w, level); } else if AtMost(prices, level) { NearLevel(w, level); }
    }
  }

  lemma AllAtLevel(w: seq<real>, level: real)
    requires |w| == WINDOW && level > 0.0 && Total(w) == 20.0 * level
    ensures Pct(level, Mean(w)) == 0.0
  {
    MeanTimes(w);
    assert Mean(w) == level;
  }

  lemma NearLevel(w: seq<real>, level: real)
    requires 0 < |w| <= WINDOW && level > 0.0 && 18.0 * level <= Total(w) <= Value(|w| as real, level)
    ensures Pct(level, Mean(w)) <= SPIKE * 3.0
  {
    MeanTimes(w);
    MeanNear(|w| as real, Mean(w), level);
    PctAtMost(level, Mean(w), SPIKE * 3.0);
  }

  /** A mean of at most twenty prices worth between eighteen and all of the level. */
  lemma MeanNear(n: real, m: real, level: real)
    requires 0.0 < n <= 20.0 && level > 0.0 && 18.0 * level <= Value(n, m) <= Value(n, level)
    ensures 0.0 < m <= level && Abs(level - m) <= Value(m, SPIKE * 3.0)
  {
    if m > level { ValueStrict(n, level, m); }
    ValueAtZero(n);
    if m <= 0.0 { ValueMono(n, m, 0.0); }
    ValueSwap(n, m);
    ValueMono(m, n, 20.0);
  }

  /** At most 20 ticks are rejected as spikes after any permanent move, and at most 18 after an upward one. */
  lemma {:induction false} RejectionsBounded(prices: seq<real>, level: real, n: nat)
    requires Positive(prices) && level > 0.0
    ensures Rejections(prices, level, n) <= n && Rejections(prices, level, n) <= 20
    ensures AtMost(prices, level) ==> Rejections(prices, level, n) <= 18
  {
    if n > 0 {
      RejectionsBounded(prices, level, n - 1);
      SpikeGateRecovers(prices, level, n - 1);
    }
  }

  // ---------------------------------------------------------------- the bounds are exact

  function Uniform(price: real, n: nat): (ps: seq<real>)
    ensures |ps| == n && forall i :: 0 <= i < n ==> ps[i] == price
  {
    if n == 0 then [] else Uniform(price, n - 1) + [price]
  }

  lemma {:induction false} TotalUniform(ps: seq<real>, price: real, level: real, n: nat)
    requires n <= |ps|
    requires forall i :: 0 <= i < |ps| ==> ps[i] == if i < |ps| - n then price else level
    ensures Total(ps) == Value((|ps| - n) as real, price) + Value(n as real, level)
  {
    hide Value;
    ValueAtZero(price);
    ValueAtZero(level);
    if ps != [] {
      if n == 0 {
        TotalUniform(ps[..|ps| - 1], price, level, 0);
        OneMore(|ps| - 1, price);
      } else {
        TotalUniform(ps[..|ps| - 1], price, level, n - 1);
        OneMore(n - 1, level);
      }
    }
  }

  lemma {:induction false} AfterUniform(price: real, level: real, n: nat)
    requires n <= WINDOW
    ensures Flat(After(Uniform(price, WINDOW), level, n), price, level, n)
  {
    if n > 0 { AfterUniform(price, level, n - 1); }
  }

  /** A history of old prices followed by n at the level. */
  ghost predicate Flat(ps: seq<real>, price: real, level: real, n: nat)
  {
    |ps| == WINDOW + n && forall i :: 0 <= i < |ps| ==> ps[i] == if i < WINDOW then price else level
  }

  lemma FlatWindow(ps: seq<real>, price: real, level: real, n: nat)
    requires n <= WINDOW && Flat(ps, price, level, n)
    ensures Mean(Last(ps, WINDOW)) * 20.0 == Value((WINDOW - n) as real, price) + Value(n as real, level)
  {
    var w := Last(ps, WINDOW);
    assert |w| == WINDOW;
    assert forall i :: 0 <= i < |w| ==> w[i] == ps[n + i];
    TotalUniform(w, price, level, n);
    MeanTimes(w);
  }

  lemma FlatRejects(ps: seq<real>, price: real, level: real, n: nat)
    requires price > 0.0 && level > 0.0 && n < WINDOW && Flat(ps, price, level, n)
    ensures SpikeRejected(ps, level)
       <==> Value((WINDOW - n) as real, Abs(level - price))
              > SPIKE * 3.0 * (Value((WINDOW - n) as real, price) + Value(n as real, level))
  {
    var m := Mean(Last(ps, WINDOW));
    FlatWindow(ps, price, level, n);
    FlatMean(price, level, (WINDOW - n) as real, n as real, m);
    PctExceeds(level, m, SPIKE * 3.0);
    assert SpikePct(ps, level) == Pct(level, m);
  }

  /** From a flat history the n-th further tick is rejected exactly while the old prices outweigh the new. */
  lemma FlatHistoryRejects(price: real, level: real, n: nat)
    requires price > 0.0 && level > 0.0 && n < WINDOW
    ensures SpikeRejected(After(Uniform(price, WINDOW), level, n), level)
       <==> Value((WINDOW - n) as real, Abs(level - price))
              > SPIKE * 3.0 * (Value((WINDOW - n) as real, price) + Value(n as real, level))
  {
    AfterUniform(price, level, n);
    FlatRejects(After(Uniform(price, WINDOW), level, n), price, level, n);
  }

  /** The distance to the mean of a window of old and new prices, both sides taken twenty times. */
  lemma FlatMean(price: real, level: real, before: real, after: real, mean: real)
    requires price > 0.0 && level > 0.0 && before > 0.0 && after >= 0.0 && before + after == 20.0
    requires mean * 20.0 == Value(before, price) + Value(after, level)
    ensures mean > 0.0
    ensures Abs(level - mean) > SPIKE * 3.0 * mean
       <==> Value(before, Abs(level - price)) > SPIKE * 3.0 * (Value(before, price) + Value(after, level))
  {
    hide Value;
    ValueStrict(before, 0.0, price);
    ValueAtZero(before);
    ValueNonNegative(after, level);
    ValueAdds(before, after, level);
    TwentyLevels(level);
    ValueAbs(before, level, price);
  }

  lemma TwentyLevels(level: real)
    ensures Value(20.0, level) == 20.0 * level
  {}

  lemma ValueAbs(q: real, x: real, y: real)
    requires q >= 0.0
    ensures Value(q, Abs(x - y)) == Abs(Value(q, x) - Value(q, y))
  {
    hide Value;
    if x < y { ValueMono(q, x, y); } else { ValueMono(q, y, x); }
    DifferenceOf(q, x, y);
    DifferenceOf(q, y, x);
  }

  lemma DifferenceOf(q: real, x: real, y: real)
    ensures Value(q, x - y) == Value(q, x) - Value(q, y)
  {}

  lemma PctExceeds(price: real, mean: real, bound: real)
    requires mean > 0.0
    ensures Pct(price, mean) > bound <==> Abs(price - mean) > Value(mean, bound)
  {
    hide Value;
    var pct := Pct(price, mean);
    ValueOfQuotient(Abs(price - mean), mean);
    if pct > bound { ValueStrict(mean, bound, pct); } else { ValueMono(mean, pct, bound); }
  }

  /** The bounds of 18 and 20 are reached. */
  lemma BoundsAreReached()
    ensures Rejections(Uniform(1.0, WINDOW), 100.0, 18) == 18
    ensures Rejections(Uniform(100.0, WINDOW), 1.0, 20) == 20
  {
    RiseRejected(18);
    FallRejected(20);
  }

  lemma {:induction false} RiseRejected(n: nat)
    requires n <= 18
    ensures Rejections(Uniform(1.0, WINDOW), 100.0, n) == n
  {
    if n > 0 {
      RiseRejected(n - 1);
      FlatHistoryRejects(1.0, 100.0, n - 1);
      RiseOutweighs((WINDOW - (n - 1)) as real, (n - 1) as real);
    }
  }

  lemma RiseOutweighs(before: real, after: real)
    requires before + after == 20.0 && 0.0 <= after <= 17.0
    ensures Value(before, Abs(100.0 - 1.0)) > SPIKE * 3.0 * (Value(before, 1.0) + Value(after, 100.0))
  {
    assert Value(before, Abs(100.0 - 1.0)) == 99.0 * before;
  }

  lemma {:induction false} FallRejected(n: nat)
    requires n <= 20
    ensures Rejections(Uniform(100.0, WINDOW), 1.0, n) == n
  {
    if n > 0 {
      FallRejected(n - 1);
      FlatHistoryRejects(100.0, 1.0, n - 1);
      FallOutweighs((WINDOW - (n - 1)) as real, (n - 1) as real);
    }
  }

  lemma FallOutweighs(before: real, after: real)
    requires before + after == 20.0 && 0.0 <= after <= 19.0
    ensures Value(before, Abs(1.0 - 100.0)) > SPIKE * 3.0 * (Value(before, 100.0) + Value(after, 1.0))
  {
    assert Value(before, Abs(1.0 - 100.0)) == 99.0 * before;
  }

  // ---------------------------------------------------------------- the mutable gate

  class DQPipeline {
    var priceWindow: map<int, seq<real>>
    var volWindow: map<int, seq<real>>
    var seen: map<int, set<SeenKey>>

    function Prices(symbol: int): seq<real> reads this { if symbol in priceWindow then priceWindow[symbol] else [] }

    function Volumes(symbol: int): seq<real> reads this { if symbol in volWindow then volWindow[symbol] else [] }

    function Seen(symbol: int): set<SeenKey> reads this { if symbol in seen then seen[symbol] else {} }

    ghost function Memories(): (g: imap<int, Memory>)
      reads this
      ensures Everywhere(g)
    {
      imap s: int | true :: Memory(Prices(s), Volumes(s), Seen(s))
    }

    /** Only checked prices are remembered, and the duplicate set is bounded. */
    ghost predicate Valid()
      reads this
    {
      && (forall s :: s in priceWindow ==> Positive(priceWindow[s]))
      && (forall s :: s in seen ==> |seen[s]| <= SEEN_LIMIT)
    }

    constructor ()
      ensures Valid() && (forall s :: Prices(s) == [] && Volumes(s) == [] && Seen(s) == {})
    {
      priceWindow, volWindow, seen := map[], map[], map[];
    }

    /** Remembers a duplicate key; past the limit, a hundred arbitrary keys are forgotten. */
    method Remember(symbol: int, key: SeenKey)
      requires Valid() && key !in Seen(symbol)
      modifies this`seen
      ensures Valid() && (forall s :: s != symbol ==> Seen(s) == old(Seen(s)))
      ensures Seen(symbol) <= old(Seen(symbol)) + {key}
      ensures |old(Seen(symbol))| < 500 ==> Seen(symbol) == old(Seen(symbol)) + {key}
      ensures |old(Seen(symbol))| == 500 ==> |Seen(symbol)| == 401
    {
      var keys := Seen(symbol) + {key};
      assert |keys| == |Seen(symbol)| + 1;
      if |keys| > SEEN_LIMIT {
        var dropped := 0;
        while dropped < SEEN_DROP
          invariant dropped <= SEEN_DROP && |keys| == SEEN_LIMIT + 1 - dropped && keys <= old(Seen(symbol)) + {key}
        {
          var k :| k in keys;
          keys := keys - {k};
          dropped := dropped + 1;
        }
      }
      seen := seen[symbol := keys];
    }

    /** Checks one tick against its symbol's windows, and remembers it unless it is rejected outright. */
    method Check(t: Raw, symbol: int) returns (r: Result)
      requires Valid()
      modifies this
      ensures Valid()
      ensures Checks(old(Memories())[symbol], t, r, Memories()[symbol])
      ensures forall s :: s != symbol ==> Memories()[s] == old(Memories())[s]
    {
      if t.price <= 0.0 { return Result(REJECT, [ZeroPrice]); }
      if t.volume < 0.0 { return Result(REJECT, [NegativeVolume]); }
      if SeenKeyOf(t) in Seen(symbol) { return Result(REJECT, [Duplicate]); }
      Remember(symbol, SeenKeyOf(t));
      r := Screen(t, symbol);
    }

    /** The two window checks of a tick that is neither malformed nor a duplicate. */
    method Screen(t: Raw, symbol: int) returns (r: Result)
      requires Valid() && t.price > 0.0
      modifies this`priceWindow, this`volWindow
      ensures Valid() && r == Screening(old(Prices(symbol)), old(Volumes(symbol)), t)
      ensures forall s :: s != symbol ==> Prices(s) == old(Prices(s)) && Volumes(s) == old(Volumes(s))
      ensures Prices(symbol) == NextPrices(old(Prices(symbol)), t.price)
      ensures Volumes(symbol) == if r.verdict == REJECT then old(Volumes(symbol))
        else Last(old(Volumes(symbol)) + [t.volume], KEPT)
    {
      var spike, rejected := CheckPrice(t.price, symbol);
      if rejected { return Result(REJECT, spike); }
      var outlier := CheckVolume(t, symbol);
      var flags := spike + outlier;
      r := Result(if flags == [] then PASS else FLAG, flags);
    }

    /** Compares the price with its window, and remembers it either way. */
    method CheckPrice(price: real, symbol: int) returns (flags: seq<Reason>, rejected: bool)
      requires Valid() && price > 0.0
      modifies this`priceWindow
      ensures Valid() && Prices(symbol) == NextPrices(old(Prices(symbol)), price)
      ensures forall s :: s != symbol ==> Prices(s) == old(Prices(s))
      ensures rejected == SpikeRejected(old(Prices(symbol)), price)
      ensures flags == SpikeFlags(old(Prices(symbol)), price)
    {
      flags := [];
      var pw := Prices(symbol);
      if |pw| >= WARMUP {
        var pct := Pct(price, Mean(Last(pw, WINDOW)));
        if pct > SPIKE {
          flags := [Spike(pct)];
          if pct > SPIKE * 3.0 {
            priceWindow := priceWindow[symbol := pw + [price]];
            return flags, true;
          }
        }
      }
      priceWindow := priceWindow[symbol := Last(pw + [price], KEPT)];
      rejected := false;
    }

    /** Compares the volume with its window, and remembers it. */
    method CheckVolume(t: Raw, symbol: int) returns (outlier: seq<Reason>)
      modifies this`volWindow
      ensures outlier == VolumeFlags(old(Volumes(symbol)), t.volume)
      ensures Volumes(symbol) == Last(old(Volumes(symbol)) + [t.volume], KEPT)
      ensures forall s :: s != symbol ==> Volumes(s) == old(Volumes(s))
    {
      var vw := Volumes(symbol);
      outlier := [];
      if |vw| >= VOL_WARMUP {
        var avg := Mean(Last(vw, VOL_WINDOW));
        if avg > 0.0 && t.volume > avg * VOL_FACTOR { outlier := [VolumeOutlier(t.volume / avg)]; }
      }
      volWindow := volWindow[symbol := Last(vw + [t.volume], KEPT)];
    }
  }
}
