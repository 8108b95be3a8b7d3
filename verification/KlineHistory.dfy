/** What the closed bars of one interval look like over a whole tick history: aligned, in order,
    final, continuous in price and, unless ticks are too far apart, without a missing period. */
module KlineHistory {
  import opened DirectKline
  import opened HierarchicalKline

  /** The closed bars followed by the running one, oldest first. */
  ghost function Chart(ticks: seq<Tick>, i: nat, p: int): seq<Bar>
    requires i < LEVELS && ticks != []
  {
    ClosedUpTo(ticks, i, p) + [DirectBar(ticks, i, p)]
  }

  ghost predicate NoLongGap(ticks: seq<Tick>) {
    forall k | 0 <= k < |ticks| - 1 :: ticks[k + 1].time - (ticks[k].time + 1) <= MAX_GAP
  }

  /** Every bar is the direct bar of an aligned period that ends by p, except the last one at p. */
  ghost predicate Final(ticks: seq<Tick>, i: nat, p: int, c: seq<Bar>)
    requires i < LEVELS && ticks != []
  {
    && (forall k | 0 <= k < |c| :: Aligned(i, c[k].openTime) && c[k] == DirectBar(ticks, i, c[k].openTime))
    && (forall k | 0 <= k < |c| - 1 :: c[k].closeTime <= p)
    && |c| > 0 && c[|c| - 1].openTime == p
  }

  /** Each bar starts no earlier than the one before ends, at the price where that one closed. */
  ghost predicate Continuous(c: seq<Bar>) {
    forall k | 0 <= k < |c| - 1 :: c[k].closeTime <= c[k + 1].openTime && c[k].close == c[k + 1].open
  }

  ghost predicate Contiguous(c: seq<Bar>) {
    forall k | 0 <= k < |c| - 1 :: c[k].closeTime == c[k + 1].openTime
  }

  ghost predicate Sound(ticks: seq<Tick>, i: nat, p: int)
    requires i < LEVELS && ticks != []
  {
    var c := Chart(ticks, i, p);
    Final(ticks, i, p, c) && Continuous(c) && (NoLongGap(ticks) ==> Contiguous(c))
  }

  /** One more flat period. */
  lemma FlatPeriodKeepsSound(ticks: seq<Tick>, i: nat, p: int)
    requires i < LEVELS && ticks != [] && Last(ticks).time < p
    requires Aligned(i, p) && Sound(ticks, i, p - Dur(i))
    ensures Sound(ticks, i, p)
  {
    var before, c := Chart(ticks, i, p - Dur(i)), Chart(ticks, i, p);
    assert c == before + [DirectBar(ticks, i, p)];
    assert before[|before| - 1] == DirectBar(ticks, i, p - Dur(i));
  }

  lemma LaterOpen(ticks: seq<Tick>, x: Tick, i: nat, e: int, p: int)
    requires i < LEVELS && ticks != [] && p <= x.time && (e == p || (Last(ticks).time < e <= p))
    ensures DirectBar(ticks + [x], i, p).open == DirectBar(ticks, i, e).open
  {
  }

  lemma ReplaceLast(c: seq<Bar>, b: Bar)
    requires c != [] && Continuous(c)
    requires c[|c| - 1].open == b.open && c[|c| - 1].openTime <= b.openTime
    ensures Continuous(c[..|c| - 1] + [b])
    ensures Contiguous(c) && c[|c| - 1].openTime == b.openTime ==> Contiguous(c[..|c| - 1] + [b])
  {
  }

  lemma FinalExtends(ticks: seq<Tick>, x: Tick, i: nat, e: int, p: int, c: seq<Bar>)
    requires i < LEVELS && ticks != [] && Aligned(i, p) && e <= p <= x.time && Final(ticks, i, e, c)
    ensures Final(ticks + [x], i, p, c[..|c| - 1] + [DirectBar(ticks + [x], i, p)])
  {
  }

  /** A tick in period p, after history `ticks` whose periods have closed up to e. */
  lemma TickKeepsSound(ticks: seq<Tick>, x: Tick, i: nat, e: int, p: int)
    requires i < LEVELS && ticks != [] && Aligned(i, p) && p <= x.time
    requires e == RunEnd(i, Last(ticks).time, x.time)
    requires e == p || (Last(ticks).time < e <= p && x.time - (Last(ticks).time + 1) > MAX_GAP)
    requires Sound(ticks, i, e)
    ensures Sound(ticks + [x], i, p)
  {
    hide DirectBar, Aligned, Continuous, Contiguous, NoLongGap, Final;
    var c, b := Chart(ticks, i, e), DirectBar(ticks + [x], i, p);
    DropNew(ticks, x);
    assert Chart(ticks + [x], i, p) == ClosedUpTo(ticks, i, e) + [b] == c[..|c| - 1] + [b];
    LaterOpen(ticks, x, i, e, p);
    ReplaceLast(c, b);
    FinalExtends(ticks, x, i, e, p, c);
    GapsGrow(ticks, x);
  }

  lemma GapsGrow(ticks: seq<Tick>, x: Tick)
    requires ticks != []
    ensures NoLongGap(ticks + [x]) ==> NoLongGap(ticks) && x.time - (Last(ticks).time + 1) <= MAX_GAP
  {
    var all, n := ticks + [x], |ticks| - 1;
    if NoLongGap(all) {
      assert all[n + 1] == x && all[n] == ticks[n];
      forall k | 0 <= k < |ticks| - 1 ensures ticks[k + 1].time - (ticks[k].time + 1) <= MAX_GAP {
        assert all[k + 1] == ticks[k + 1] && all[k] == ticks[k];
      }
    }
  }

  /** For every non-decreasing tick stream: the bars of an interval are the direct ones, aligned,
      in order and continuous in price, and contiguous if no more than MAX_GAP seconds are ever
      missing.  Order and continuity hold either way. */
  lemma {:induction false} ChartIsSound(ticks: seq<Tick>, i: nat, p: int)
    requires i < LEVELS && ticks != [] && Ordered(ticks)
    requires Aligned(i, p) && Trunc(i, Last(ticks).time) <= p
    ensures Sound(ticks, i, p)
    decreases |ticks|, p - Last(ticks).time
  {
    TruncAligned(i, Last(ticks).time);
    if Last(ticks).time < p {
      AlignedStep(i, p);
      AlignedGap(i, Trunc(i, Last(ticks).time), p);
      ChartIsSound(ticks, i, p - Dur(i));
      FlatPeriodKeepsSound(ticks, i, p);
    } else if |ticks| > 1 {
      TruncUnique(i, Last(ticks).time, p);
      var before, x := ticks[..|ticks| - 1], Last(ticks);
      assert before + [x] == ticks;
      RunEndFits(before, x, i);
      var e := RunEnd(i, Last(before).time, x.time);
      ChartIsSound(before, i, e);
      TickKeepsSound(before, x, i, e, p);
    } else {
      assert Chart(ticks, i, p) == [DirectBar(ticks, i, p)];
    }
  }

  lemma RunEndFits(ticks: seq<Tick>, x: Tick, i: nat)
    requires i < LEVELS && ticks != [] && Ordered(ticks + [x])
    ensures Ordered(ticks)
    ensures var last, p := Last(ticks).time, Trunc(i, x.time);
            var e := RunEnd(i, last, x.time);
            && Aligned(i, e) && Trunc(i, last) <= e
            && (e == p || (last < e <= p && x.time - (last + 1) > MAX_GAP))
  {
    AppendOrdered(ticks, x);
    var last := Last(ticks).time;
    TruncAligned(i, last);
    TruncAligned(i, x.time);
    TruncMonotone(i, last, x.time);
    AlignedStep(i, Trunc(i, last));
    if Trunc(i, last) != Trunc(i, x.time) {
      AlignedGap(i, Trunc(i, last), Trunc(i, x.time));
    }
  }

  /** The same of the aggregator's own state, after any non-decreasing tick stream. */
  lemma NoMissingOrDuplicateBars(ticks: seq<Tick>, i: nat)
    requires i < LEVELS && ticks != [] && Ordered(ticks)
    ensures i in OnTicks(ticks).current
    ensures var c := Only(OnTicks(ticks).closed, i) + [OnTicks(ticks).current[i]];
            && Final(ticks, i, Trunc(i, Last(ticks).time), c) && Continuous(c)
            && (NoLongGap(ticks) ==> Contiguous(c))
  {
    HierarchicalIsDirect(ticks);
    assert DirectAt(ticks, OnTicks(ticks), i);
    TruncAligned(i, Last(ticks).time);
    ChartIsSound(ticks, i, Trunc(i, Last(ticks).time));
  }
}
