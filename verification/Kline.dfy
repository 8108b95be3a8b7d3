/** Candlesticks aggregated straight from the raw ticks, one interval at a time.

    Nothing here knows about the hierarchy: a bar of any of the nine intervals is defined
    from the whole tick history.  `KlineAggregator` is proved equal to these definitions. */
module DirectKline {

  /** A tick; `time` is the UTC second it falls in (every interval is a whole number of seconds). */
  datatype Tick = Tick(price: real, time: int)

  datatype Bar = Bar(interval: nat, openTime: int, closeTime: int, open: real, high: real, low: real, close: real)

  const LEVELS: nat := 9

  /** Interval lengths in seconds: 1s, 5s, 15s, 1m, 5m, 15m, 1h, 4h, 1d; the parent of level i is i + 1. */
  function Dur(i: nat): (d: int)
    requires i < LEVELS
    ensures d > 0
  {
    if i == 0 then 1 else if i == 1 then 5 else if i == 2 then 15 else if i == 3 then 60
    else if i == 4 then 300 else if i == 5 then 900 else if i == 6 then 3600 else if i == 7 then 14400 else 86400
  }

  /** How many closed bars of level i stay in memory. */
  function MaxCache(i: nat): (m: nat)
    requires i < LEVELS
    ensures m > 0
  {
    if i == 0 then 3600 else if i == 1 then 720 else if i == 2 then 240 else if i == 3 then 1440
    else if i == 4 then 288 else if i == 5 then 192 else if i == 6 then 168 else if i == 7 then 180 else 365
  }

  /** Levels from one minute up are handed to the close callback. */
  predicate Persist(i: nat) { i >= 3 }

  /** The longest stretch of missing seconds that is filled with flat bars. */
  const MAX_GAP: int := 60

  function Trunc(i: nat, t: int): (r: int)
    requires i < LEVELS
    ensures r <= t < r + Dur(i)
  {
    t - t % Dur(i)
  }

  function Max(x: real, y: real): real { if x >= y then x else y }
  function Min(x: real, y: real): real { if x <= y then x else y }

  ghost predicate Ordered(ticks: seq<Tick>) {
    forall i, j :: 0 <= i < j < |ticks| ==> ticks[i].time <= ticks[j].time
  }

  ghost function Last(ticks: seq<Tick>): Tick
    requires ticks != []
  {
    ticks[|ticks| - 1]
  }

  function Flat(i: nat, openTime: int, price: real): Bar
    requires i < LEVELS
  {
    Bar(i, openTime, openTime + Dur(i), price, price, price, price)
  }

  /** A running bar takes in a tick of its own period. */
  function Absorb(bar: Bar, price: real): Bar {
    bar.(high := if price > bar.high then price else bar.high,
         low := if price < bar.low then price else bar.low,
         close := price)
  }

  /** The bar of the interval-i period opening at p: ticks before the period only set its opening
      price (as does the first tick ever), ticks in the period move it, later ticks do not.
      `DirectBarIsOhlc` says what that makes of the four prices. */
  ghost function DirectBar(ticks: seq<Tick>, i: nat, p: int): (b: Bar)
    requires i < LEVELS && ticks != []
    ensures b.interval == i && b.openTime == p && b.closeTime == p + Dur(i)
  {
    var x := Last(ticks);
    if |ticks| == 1 || x.time < p then Flat(i, p, x.price)
    else
      var before := DirectBar(ticks[..|ticks| - 1], i, p);
      if x.time < p + Dur(i) then Absorb(before, x.price) else before
  }

  /** End of the interval-i periods that have closed once a tick at `t` follows one at `prev`: every
      period up to the new one, unless more than MAX_GAP seconds are missing, when only
      the period of the previous tick closes. */
  ghost function RunEnd(i: nat, prev: int, t: int): int
    requires i < LEVELS
  {
    if t - (prev + 1) <= MAX_GAP || Trunc(i, prev) == Trunc(i, t) then Trunc(i, t) else Trunc(i, prev) + Dur(i)
  }

  /** Bars of interval i closed once the period opening at p is running, oldest first: those closed
      by the ticks, then one for every period from the last tick's up to p. */
  ghost function ClosedUpTo(ticks: seq<Tick>, i: nat, p: int): seq<Bar>
    requires i < LEVELS && ticks != []
    decreases |ticks|, p - Last(ticks).time
  {
    if Last(ticks).time < p then ClosedUpTo(ticks, i, p - Dur(i)) + [DirectBar(ticks, i, p - Dur(i))]
    else if |ticks| == 1 then []
    else
      var before := ticks[..|ticks| - 1];
      ClosedUpTo(before, i, RunEnd(i, Last(before).time, Last(ticks).time))
  }

  /** Every bar of interval i that has closed, oldest first. */
  ghost function DirectHistory(ticks: seq<Tick>, i: nat): seq<Bar>
    requires i < LEVELS && ticks != []
  {
    ClosedUpTo(ticks, i, Trunc(i, Last(ticks).time))
  }

  /** The newest `m` bars of a history, newest first. */
  ghost function Newest(history: seq<Bar>, m: nat): seq<Bar> {
    if history == [] || m == 0 then []
    else [history[|history| - 1]] + Newest(history[..|history| - 1], m - 1)
  }

  /** The bars of one interval among the closed ones. */
  ghost function Only(bars: seq<Bar>, i: nat): seq<Bar> {
    if bars == [] then []
    else
      var b := bars[|bars| - 1];
      Only(bars[..|bars| - 1], i) + if b.interval == i then [b] else []
  }

  /** The bars handed to the callback among the closed ones. */
  ghost function Persisted(bars: seq<Bar>): seq<Bar> {
    if bars == [] then []
    else
      var b := bars[|bars| - 1];
      Persisted(bars[..|bars| - 1]) + if Persist(b.interval) then [b] else []
  }

  // ---------------------------------------------------------------- calendar

  ghost predicate Aligned(i: nat, t: int)
    requires i < LEVELS
  {
    t % Dur(i) == 0
  }

  lemma ScaleOrder(d: int, k: int)
    requires d > 0
    ensures k >= 1 ==> d * k >= d
    ensures k <= 0 ==> d * k <= 0
    ensures k <= -1 ==> d * k <= -d
  {
  }

  lemma MultipleOf(d: int, k: int)
    requires d > 0
    ensures (d * k) % d == 0
  {
    var q, r := (d * k) / d, (d * k) % d;
    assert d * k == d * q + r;
    assert d * (k - q) == r;
    ScaleOrder(d, k - q);
  }

  lemma TruncAligned(i: nat, t: int)
    requires i < LEVELS
    ensures Aligned(i, Trunc(i, t))
  {
  }

  /** Distinct aligned instants are at least one period apart. */
  lemma AlignedGap(i: nat, p: int, q: int)
    requires i < LEVELS && Aligned(i, p) && Aligned(i, q) && p < q
    ensures p + Dur(i) <= q
  {
    var d := Dur(i);
    assert p == d * (p / d) && q == d * (q / d);
    assert d * (q / d - p / d) == q - p;
    ScaleOrder(d, q / d - p / d);
  }

  /** The period of an instant is the only aligned one that contains it. */
  lemma TruncUnique(i: nat, t: int, p: int)
    requires i < LEVELS && Aligned(i, p) && p <= t < p + Dur(i)
    ensures p == Trunc(i, t)
  {
    TruncAligned(i, t);
    if p < Trunc(i, t) {
      AlignedGap(i, p, Trunc(i, t));
    } else if Trunc(i, t) < p {
      AlignedGap(i, Trunc(i, t), p);
    }
  }

  lemma AlignedStep(i: nat, p: int)
    requires i < LEVELS && Aligned(i, p)
    ensures Aligned(i, p + Dur(i)) && Aligned(i, p - Dur(i))
  {
    var d := Dur(i);
    assert p == d * (p / d);
    assert p + d == d * (p / d + 1) && p - d == d * (p / d - 1);
    MultipleOf(d, p / d + 1);
    MultipleOf(d, p / d - 1);
  }

  /** A period of the parent is a whole number, at least two, of periods of the child. */
  lemma ParentAligned(i: nat, p: int)
    requires i + 1 < LEVELS && Aligned(i + 1, p)
    ensures Aligned(i, p) && 2 * Dur(i) <= Dur(i + 1)
  {
    var d, e := Dur(i), Dur(i + 1);
    var m := e / d;
    assert e == d * m;
    assert p == e * (p / e);
    assert p == d * (m * (p / e));
    MultipleOf(d, m * (p / e));
  }

  lemma TruncMonotone(i: nat, s: int, t: int)
    requires i < LEVELS && s <= t
    ensures Trunc(i, s) <= Trunc(i, t)
  {
  }

  // ------------------------------------------------- what one more tick does

  lemma DropNew(ticks: seq<Tick>, x: Tick)
    ensures (ticks + [x])[..|ticks + [x]| - 1] == ticks && Last(ticks + [x]) == x
  {
  }

  /** The running period's bar absorbs the tick. */
  lemma RunningBarAbsorbs(ticks: seq<Tick>, x: Tick, i: nat, p: int)
    requires ticks != [] && i < LEVELS && p <= x.time < p + Dur(i)
    ensures DirectBar(ticks + [x], i, p) == Absorb(DirectBar(ticks, i, p), x.price)
  {
  }

  /** Price of the latest tick strictly before `t`, or of the first tick ever if there is none. */
  ghost function PriceBefore(ticks: seq<Tick>, t: int): real
    requires ticks != []
  {
    if Last(ticks).time < t || |ticks| == 1 then Last(ticks).price else PriceBefore(ticks[..|ticks| - 1], t)
  }

  /** Open is the last price before the period (or the first price ever), close the last price
      before its end, high and low the extremes of the open and the period's ticks. */
  lemma {:induction false} DirectBarIsOhlc(ticks: seq<Tick>, i: nat, p: int)
    requires ticks != [] && Ordered(ticks) && i < LEVELS
    ensures var b := DirectBar(ticks, i, p);
            var inPeriod := (k: int) => 0 <= k < |ticks| && p <= ticks[k].time < p + Dur(i);
            && b.interval == i && b.openTime == p && b.closeTime == p + Dur(i)
            && b.open == PriceBefore(ticks, p)
            && b.close == PriceBefore(ticks, p + Dur(i))
            && b.low <= b.open <= b.high
            && (forall k | 0 <= k < |ticks| :: inPeriod(k) ==> b.low <= ticks[k].price <= b.high)
            && (b.high != b.open ==> exists k | 0 <= k < |ticks| :: inPeriod(k) && ticks[k].price == b.high)
            && (b.low != b.open ==> exists k | 0 <= k < |ticks| :: inPeriod(k) && ticks[k].price == b.low)
  {
    var n := |ticks| - 1;
    if n <= 0 || p > ticks[n].time {
    } else {
      DirectBarIsOhlc(ticks[..n], i, p);
    }
  }

  // ------------------------------------------------------- child and parent

  lemma {:induction false} ChildInside(ticks: seq<Tick>, i: nat, c: int, p: int)
    requires ticks != [] && i + 1 < LEVELS && p <= c && c + Dur(i) <= p + Dur(i + 1)
    ensures var child, parent := DirectBar(ticks, i, c), DirectBar(ticks, i + 1, p);
            parent.low <= child.low && child.high <= parent.high && child.low <= child.close <= child.high
    ensures Last(ticks).time < c + Dur(i) ==> DirectBar(ticks, i, c).close == DirectBar(ticks, i + 1, p).close
  {
    if |ticks| <= 1 || p > Last(ticks).time {
    } else {
      ChildInside(ticks[..|ticks| - 1], i, c, p);
    }
  }

  /** Merging a closed child bar into the parent bar of the same stretch of time changes nothing:
      the parent already contains the child's range and ends at the same price. */
  lemma MergeChangesNothing(ticks: seq<Tick>, i: nat, c: int)
    requires ticks != [] && i + 1 < LEVELS && Aligned(i, c) && Last(ticks).time < c + Dur(i)
    ensures var child, parent := DirectBar(ticks, i, c), DirectBar(ticks, i + 1, Trunc(i + 1, c));
            parent.low <= child.low && child.high <= parent.high && child.close == parent.close
  {
    var p := Trunc(i + 1, c);
    TruncAligned(i + 1, c);
    AlignedStep(i + 1, p);
    ParentAligned(i, p + Dur(i + 1));
    AlignedGap(i, c, p + Dur(i + 1));
    ChildInside(ticks, i, c, p);
  }

  lemma PersistedStep(bars: seq<Bar>, b: Bar)
    ensures Persisted(bars + [b]) == Persisted(bars) + if Persist(b.interval) then [b] else []
  {
  }

  lemma NewestStep(history: seq<Bar>, b: Bar, m: nat)
    requires m > 0
    ensures var bars := [b] + Newest(history, m);
            Newest(history + [b], m) == if |bars| > m then bars[..m] else bars
  {
    assert (history + [b])[..|history + [b]| - 1] == history;
    NewestPrefix(history, m);
  }

  lemma {:induction false} NewestPrefix(history: seq<Bar>, m: nat)
    requires m > 0
    ensures |Newest(history, m)| <= m
    ensures var newest := Newest(history, m);
            Newest(history, m - 1) == if |newest| == m then newest[..m - 1] else newest
  {
    if history == [] || m <= 1 {
    } else {
      NewestPrefix(history[..|history| - 1], m - 1);
    }
  }
}
