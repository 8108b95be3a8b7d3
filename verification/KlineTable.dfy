/** The table of intervals, read off the bars: the stretches of time they cover, how far back the cache
    reaches, which bars are handed on, and how long a silence is filled. */
module KlineTable {
  import opened DirectKline

  /** One, five, fifteen seconds; one, five, fifteen minutes; one, four hours; a day. */
  function Seconds(i: nat): (n: int)
    requires i < LEVELS
    ensures n > 0
  {
    [1, 5, 15, 60, 300, 900, 3600, 14400, 86400][i]
  }

  /** The bar of the n seconds, counted from a multiple of n, that contain t. */
  predicate SpansAt(b: Bar, n: int, t: int)
    requires n > 0
  {
    b.openTime % n == 0 && b.openTime <= t < b.closeTime && b.closeTime == b.openTime + n
  }

  lemma DurIs(i: nat)
    requires i < LEVELS
    ensures Dur(i) == Seconds(i)
  {
  }

  /** The bar of an interval at an instant: t rounded down to a multiple of the interval's seconds, and
      that many seconds long. */
  lemma BarSpansItsInterval(ticks: seq<Tick>, i: nat, t: int)
    requires i < LEVELS && ticks != []
    ensures SpansAt(DirectBar(ticks, i, Trunc(i, t)), Seconds(i), t)
  {
    DurIs(i);
    TruncAligned(i, t);
  }

  /** Every closed bar covers one stretch of the interval's seconds. */
  predicate OnGrid(b: Bar, i: nat)
    requires i < LEVELS
  {
    SpansAt(b, Seconds(i), b.openTime)
  }

  lemma {:induction false} ClosedOnGrid(ticks: seq<Tick>, i: nat, p: int)
    requires i < LEVELS && ticks != [] && Aligned(i, p)
    ensures forall b | b in ClosedUpTo(ticks, i, p) :: OnGrid(b, i)
    decreases |ticks|, p - Last(ticks).time
  {
    hide OnGrid;
    if Last(ticks).time < p {
      AlignedStep(i, p);
      ClosedOnGrid(ticks, i, p - Dur(i));
      DirectOnGrid(ticks, i, p - Dur(i));
    } else if |ticks| > 1 {
      var before := ticks[..|ticks| - 1];
      TruncAligned(i, Last(before).time);
      TruncAligned(i, Last(ticks).time);
      AlignedStep(i, Trunc(i, Last(before).time));
      ClosedOnGrid(before, i, RunEnd(i, Last(before).time, Last(ticks).time));
    }
  }

  lemma DirectOnGrid(ticks: seq<Tick>, i: nat, p: int)
    requires i < LEVELS && ticks != [] && Aligned(i, p)
    ensures OnGrid(DirectBar(ticks, i, p), i)
  {
    DurIs(i);
  }

  lemma {:induction false} NewestAreBars(history: seq<Bar>, m: nat)
    ensures forall b | b in Newest(history, m) :: b in history
  {
    if history == [] || m == 0 {
    } else {
      NewestAreBars(history[..|history| - 1], m - 1);
    }
  }

  /** What the cache shows of an interval: the running bar around the last tick, and closed ones. */
  lemma BarsAreOnGrid(ticks: seq<Tick>, i: nat)
    requires i < LEVELS && ticks != []
    ensures var running := DirectBar(ticks, i, Trunc(i, Last(ticks).time));
            OnGrid(running, i) && SpansAt(running, Seconds(i), Last(ticks).time)
    ensures forall b | b in Newest(DirectHistory(ticks, i), MaxCache(i)) :: OnGrid(b, i)
  {
    hide OnGrid;
    var t := Last(ticks).time;
    BarSpansItsInterval(ticks, i, t);
    TruncAligned(i, t);
    DirectOnGrid(ticks, i, Trunc(i, t));
    ClosedOnGrid(ticks, i, Trunc(i, t));
    NewestAreBars(DirectHistory(ticks, i), MaxCache(i));
  }

  /** After two ticks exactly one interval apart, the first bar has closed and the second is running. */
  lemma TwoTicks(i: nat, first: real, second: real)
    requires i < LEVELS
    ensures var ticks := [Tick(first, 0), Tick(second, Seconds(i))];
            && DirectHistory(ticks, i) == [Bar(i, 0, Seconds(i), first, first, first, first)]
            && DirectBar(ticks, i, Trunc(i, Last(ticks).time)).openTime == Seconds(i)
  {
    DurIs(i);
    var ticks := [Tick(first, 0), Tick(second, Seconds(i))];
    var one := ticks[..1];
    assert one == [Tick(first, 0)];
    assert ClosedUpTo(one, i, 0) == [];
    assert RunEnd(i, 0, Seconds(i)) == Seconds(i);
    assert ClosedUpTo(one, i, Seconds(i)) == [DirectBar(one, i, 0)];
  }

  /** Together the cached bars reach back an hour for the intervals in seconds; a day, a day and two days for
      those in minutes; a week and thirty days for those in hours; and a year of days. */
  lemma CacheReachesBack(i: nat)
    requires i < LEVELS
    ensures var reach := [3600, 3600, 3600, 86400, 86400, 172800, 604800, 2592000, 31536000];
            |reach| == LEVELS && MaxCache(i) * Seconds(i) == reach[i]
  {
  }

  /** Exactly the bars of a minute and more are handed to the callback. */
  lemma {:induction false} MinutesArePersisted(bars: seq<Bar>, b: Bar)
    requires b.interval < LEVELS
    ensures b in Persisted(bars) <==> b in bars && Seconds(b.interval) >= 60
  {
    DurIs(b.interval);
    if bars == [] {
    } else {
      MinutesArePersisted(bars[..|bars| - 1], b);
      assert bars == bars[..|bars| - 1] + [bars[|bars| - 1]];
    }
  }

  /** Between two ticks up to sixty missing seconds are filled; of a longer silence only the first
      tick's second is closed. */
  lemma SilenceIsFilledUpToAMinute(first: real, second: real, t: int)
    requires t >= 1
    ensures |DirectHistory([Tick(first, 0), Tick(second, t)], 0)| == if t - 1 <= 60 then t else 1
  {
    hide Trunc, Dur, DirectBar;
    var ticks := [Tick(first, 0), Tick(second, t)];
    assert ticks[..1] == [Tick(first, 0)];
    SecondIsWhole(0);
    SecondIsWhole(t);
    SecondsClosed(Tick(first, 0), if t - 1 <= 60 then t else 1);
  }

  lemma SecondIsWhole(t: int)
    ensures Trunc(0, t) == t && Dur(0) == 1
  {
  }

  lemma {:induction false} SecondsClosed(x: Tick, p: nat)
    requires x.time == 0
    ensures |ClosedUpTo([x], 0, p)| == p
  {
    if p > 0 {
      SecondsClosed(x, p - 1);
    }
  }
}
