/** The hierarchical aggregator as a function on its state: ticks build the 1s bar, closed bars
    are merged into their parent, and every ancestor's running bar is also updated live.
    `HierarchicalIsDirect` proves that the two mechanisms together equal, interval by interval,
    aggregating the raw ticks directly. */
module HierarchicalKline {
  import opened DirectKline

  /** `current`: running bar per level; `closed`: every bar closed so far, of all levels, in
      closing order. */
  datatype State = State(current: map<nat, Bar>, closed: seq<Bar>)

  const EMPTY := State(map[], [])

  function Merge(parent: Bar, child: Bar): Bar {
    parent.(high := if child.high > parent.high then child.high else parent.high,
            low := if child.low < parent.low then child.low else parent.low,
            close := child.close)
  }

  /** The bar of a new period: it opens at the previous close. */
  function Successor(i: nat, openTime: int, open: real, price: real): Bar
    requires i < LEVELS
  {
    Bar(i, openTime, openTime + Dur(i), open, Max(open, price), Min(open, price), price)
  }

  function Close(s: State, bar: Bar): State {
    s.(closed := s.closed + [bar])
  }

  function SetCurrent(s: State, i: nat, bar: Bar): State {
    s.(current := s.current[i := bar])
  }

  /** Close a level-i bar, then merge it into its parent, closing the parent first if the bar
      belongs to another period. */
  function Cascade(s: State, bar: Bar, i: nat): State
    requires i < LEVELS
    decreases LEVELS - i
  {
    var s1 := Close(s, bar);
    if i + 1 == LEVELS then s1
    else
      var openTime := Trunc(i + 1, bar.openTime);
      if i + 1 in s1.current && s1.current[i + 1].openTime == openTime then
        SetCurrent(s1, i + 1, Merge(s1.current[i + 1], bar))
      else
        var s2 := if i + 1 in s1.current then Cascade(s1, s1.current[i + 1], i + 1) else s1;
        SetCurrent(s2, i + 1, Bar(i + 1, openTime, openTime + Dur(i + 1), bar.open, bar.high, bar.low, bar.close))
  }

  /** Flat 1s bars for the missing seconds, if at most MAX_GAP of them are missing. */
  function FillGap(s: State, gapStart: int, openTime: int, price: real): State
    decreases openTime - gapStart
  {
    if gapStart < openTime && openTime - gapStart <= MAX_GAP then
      FillGap(Cascade(s, Flat(0, gapStart, price), 0), gapStart + 1, openTime, price)
    else s
  }

  function UpdateBase(s: State, price: real, t: int): State {
    if 0 !in s.current then SetCurrent(s, 0, Successor(0, t, price, price))
    else
      var bar := s.current[0];
      if bar.openTime == t then SetCurrent(s, 0, Absorb(bar, price))
      else
        var filled := FillGap(Cascade(s, bar, 0), bar.openTime + 1, t, bar.close);
        SetCurrent(filled, 0, Successor(0, t, bar.close, price))
  }

  function UpdateAncestor(s: State, i: nat, price: real, t: int): State
    requires i < LEVELS
  {
    var openTime := Trunc(i, t);
    if i !in s.current then SetCurrent(s, i, Flat(i, openTime, price))
    else
      var bar := s.current[i];
      if bar.openTime != openTime then
        SetCurrent(Close(s, bar), i, Successor(i, openTime, bar.close, price))
      else
        SetCurrent(s, i, Absorb(bar, price))
  }

  /** Levels i and up. */
  function UpdateAncestors(s: State, i: nat, price: real, t: int): State
    requires i <= LEVELS
    decreases LEVELS - i
  {
    if i == LEVELS then s else UpdateAncestors(UpdateAncestor(s, i, price, t), i + 1, price, t)
  }

  function OnTick(s: State, x: Tick): State {
    UpdateAncestors(UpdateBase(s, x.price, x.time), 1, x.price, x.time)
  }

  function OnTicks(ticks: seq<Tick>): State {
    if ticks == [] then EMPTY else OnTick(OnTicks(ticks[..|ticks| - 1]), ticks[|ticks| - 1])
  }

  // ---------------------------------- where each level stands inside a tick

  /** Opening time of the running bar of every level (entry 0 is not used: the base bar is
      replaced, never merged into). */
  type Opens = s: seq<int> | |s| == LEVELS witness seq(LEVELS, _ => 0)

  ghost predicate AllAligned(opens: Opens) {
    forall j | 0 < j < LEVELS :: Aligned(j, opens[j])
  }

  /** How far the levels above i may lag behind a level-i bar opening at c: each parent runs in
      its child's period, or in the period that ends where the child opens. */
  ghost predicate Chain(opens: Opens, t: int, i: nat, c: int)
    requires i < LEVELS
    decreases LEVELS - i
  {
    i + 1 == LEVELS ||
    (&& t < opens[i + 1] + Dur(i + 1)
     && opens[i + 1] <= c <= opens[i + 1] + Dur(i + 1)
     && Chain(opens, t, i + 1, opens[i + 1]))
  }

  /** Where the levels above i stand once a level-i bar opening at c has closed. */
  ghost function Advance(opens: Opens, i: nat, c: int): Opens
    requires i < LEVELS
    decreases LEVELS - i
  {
    if i + 1 == LEVELS || c < opens[i + 1] + Dur(i + 1) then opens
    else Advance(opens, i + 1, opens[i + 1])[i + 1 := c]
  }

  lemma {:induction false} ChainFrame(opens: Opens, other: Opens, t: int, i: nat, c: int)
    requires i < LEVELS && Chain(opens, t, i, c)
    requires forall j | i < j < LEVELS :: other[j] == opens[j]
    ensures Chain(other, t, i, c)
    decreases LEVELS - i
  {
  }

  lemma NextFits(i: nat, p: int, parent: int)
    requires i + 1 < LEVELS && Aligned(i, p) && Aligned(i + 1, parent) && p < parent + Dur(i + 1)
    ensures p + Dur(i) <= parent + Dur(i + 1)
  {
    AlignedStep(i + 1, parent);
    ParentAligned(i, parent + Dur(i + 1));
    AlignedGap(i, p, parent + Dur(i + 1));
  }

  /** Closing a bar keeps every level aligned, and leaves the levels up to its own where they were. */
  lemma {:induction false} AdvanceKeepsAligned(opens: Opens, t: int, i: nat, c: int)
    requires i < LEVELS && Chain(opens, t, i, c) && AllAligned(opens)
    ensures AllAligned(Advance(opens, i, c))
    ensures forall j | 0 <= j <= i :: Advance(opens, i, c)[j] == opens[j]
    decreases LEVELS - i
  {
    if i + 1 >= LEVELS || c != opens[i + 1] + Dur(i + 1) {
    } else {
      AdvanceKeepsAligned(opens, t, i + 1, opens[i + 1]);
      AlignedStep(i + 1, opens[i + 1]);
    }
  }

  /** Closing a bar keeps the chain, and the parent ends up in the bar's own period. */
  lemma {:induction false} AdvanceKeepsChain(opens: Opens, t: int, i: nat, c: int)
    requires i < LEVELS && Chain(opens, t, i, c) && AllAligned(opens)
    ensures Chain(Advance(opens, i, c), t, i, c)
    ensures i + 1 < LEVELS ==> c < Advance(opens, i, c)[i + 1] + Dur(i + 1)
    decreases LEVELS - i
  {
    if i + 1 >= LEVELS || c != opens[i + 1] + Dur(i + 1) {
    } else {
      var p := opens[i + 1];
      AdvanceKeepsChain(opens, t, i + 1, p);
      if i + 2 < LEVELS {
        var rest := Advance(opens, i + 1, p);
        AdvanceKeepsAligned(opens, t, i + 1, p);
        NextFits(i + 1, p, rest[i + 2]);
        ChainFrame(rest, rest[i + 1 := c], t, i + 2, rest[i + 2]);
      }
    }
  }

  /** Level j has closed everything before its running period, opened at p, and nothing else. */
  ghost predicate Standing(ticks: seq<Tick>, s: State, j: nat, p: int)
    requires j < LEVELS && ticks != []
  {
    && j in s.current
    && s.current[j] == DirectBar(ticks, j, p)
    && Only(s.closed, j) == ClosedUpTo(ticks, j, p)
  }

  ghost predicate Levels(ticks: seq<Tick>, s: State, i: nat, opens: Opens)
    requires ticks != []
  {
    forall j | i < j < LEVELS :: Standing(ticks, s, j, opens[j])
  }

  lemma OnlyStep(closed: seq<Bar>, b: Bar, j: nat)
    ensures Only(closed + [b], j) == if b.interval == j then Only(closed, j) + [b] else Only(closed, j)
  {
  }

  /** A cascade from level i touches the levels below i not at all, and level i only by closing. */
  lemma {:induction false} CascadeBelow(s: State, bar: Bar, i: nat, j: nat)
    requires j <= i < LEVELS && bar.interval == i
    requires forall k | k in s.current :: s.current[k].interval == k
    ensures j in Cascade(s, bar, i).current <==> j in s.current
    ensures j in s.current ==> Cascade(s, bar, i).current[j] == s.current[j]
    ensures Only(Cascade(s, bar, i).closed, j) == Only(s.closed, j) + if j == i then [bar] else []
    decreases LEVELS - i
  {
    OnlyStep(s.closed, bar, j);
    if i + 1 >= LEVELS || i + 1 !in s.current {
    } else {
      CascadeBelow(Close(s, bar), s.current[i + 1], i + 1, j);
    }
  }

  ghost predicate Labelled(s: State) {
    forall k | k in s.current :: s.current[k].interval == k
  }

  lemma CloseKeepsLevels(ticks: seq<Tick>, s: State, bar: Bar, i: nat, opens: Opens)
    requires ticks != [] && Levels(ticks, s, i, opens) && bar.interval <= i
    ensures Levels(ticks, Close(s, bar), i, opens)
  {
  }

  /** A parent still in its child's period absorbs the closed child without changing. */
  lemma ParentUnchanged(ticks: seq<Tick>, s: State, i: nat, c: int, p: int)
    requires ticks != [] && i + 1 < LEVELS && Standing(ticks, s, i + 1, p)
    requires Aligned(i, c) && Last(ticks).time < c + Dur(i) && p == Trunc(i + 1, c)
    ensures SetCurrent(s, i + 1, Merge(s.current[i + 1], DirectBar(ticks, i, c))) == s
  {
    MergeChangesNothing(ticks, i, c);
  }

  /** The old parent period has closed and the child's prices open the next one. */
  lemma ParentReplaced(ticks: seq<Tick>, s: State, i: nat, p: int, opens: Opens)
    requires i + 1 < LEVELS && ticks != [] && Ordered(ticks)
    requires Aligned(i + 1, p) && Last(ticks).time < p + Dur(i + 1)
    requires Levels(ticks, s, i + 1, opens)
    requires Only(s.closed, i + 1) == ClosedUpTo(ticks, i + 1, p) + [DirectBar(ticks, i + 1, p)]
    ensures var n, b := p + Dur(i + 1), DirectBar(ticks, i, p + Dur(i + 1));
            Levels(ticks, SetCurrent(s, i + 1, Bar(i + 1, n, n + Dur(i + 1), b.open, b.high, b.low, b.close)),
                   i, opens[i + 1 := n])
  {
  }

  lemma CascadeMerges(ticks: seq<Tick>, s: State, i: nat, c: int, p: int)
    requires ticks != [] && i + 1 < LEVELS && Standing(ticks, s, i + 1, p)
    requires Aligned(i, c) && Aligned(i + 1, p) && Last(ticks).time < c + Dur(i) && p <= c < p + Dur(i + 1)
    ensures Cascade(s, DirectBar(ticks, i, c), i) == Close(s, DirectBar(ticks, i, c))
  {
    TruncUnique(i + 1, c, p);
    ParentUnchanged(ticks, Close(s, DirectBar(ticks, i, c)), i, c, p);
  }

  lemma CascadeTops(s: State, bar: Bar, i: nat)
    requires i + 1 == LEVELS
    ensures Cascade(s, bar, i) == Close(s, bar)
  {
  }

  lemma CascadeRolls(s: State, bar: Bar, i: nat, p: int)
    requires i + 1 < LEVELS && i + 1 in s.current && s.current[i + 1].openTime == p
    requires Aligned(i + 1, p) && bar.openTime == p + Dur(i + 1)
    ensures var n := bar.openTime;
            Cascade(s, bar, i)
            == SetCurrent(Cascade(Close(s, bar), s.current[i + 1], i + 1), i + 1,
                          Bar(i + 1, n, n + Dur(i + 1), bar.open, bar.high, bar.low, bar.close))
  {
    AlignedStep(i + 1, p);
    TruncUnique(i + 1, bar.openTime, bar.openTime);
  }

  /** Closing the direct bar of level i moves every level above to the direct bars that `Advance`
      predicts, and closes exactly the direct bars in between. */
  lemma {:induction false} CascadeIsDirect(ticks: seq<Tick>, s: State, i: nat, c: int, opens: Opens)
    requires i < LEVELS && ticks != [] && Ordered(ticks) && Labelled(s)
    requires Aligned(i, c) && Last(ticks).time < c + Dur(i)
    requires Chain(opens, Last(ticks).time, i, c) && AllAligned(opens)
    requires Levels(ticks, s, i, opens)
    ensures Levels(ticks, Cascade(s, DirectBar(ticks, i, c), i), i, Advance(opens, i, c))
    ensures Labelled(Cascade(s, DirectBar(ticks, i, c), i))
    decreases LEVELS - i
  {
    hide Cascade, Only, Trunc, DirectBar;
    var bar := DirectBar(ticks, i, c);
    var s1 := Close(s, bar);
    CloseKeepsLevels(ticks, s, bar, i, opens);
    if i + 1 == LEVELS {
      CascadeTops(s, bar, i);
    } else {
      var p := opens[i + 1];
      assert Standing(ticks, s, i + 1, p) && Standing(ticks, s1, i + 1, p);
      if c < p + Dur(i + 1) {
        CascadeMerges(ticks, s, i, c, p);
      } else {
        CascadeIsDirect(ticks, s1, i + 1, p, opens);
        CascadeBelow(s1, s1.current[i + 1], i + 1, i + 1);
        CascadeRolls(s, bar, i, p);
        ParentReplaced(ticks, Cascade(s1, s1.current[i + 1], i + 1), i, p, Advance(opens, i + 1, p));
      }
    }
  }

  // ------------------------------------------------------------- gap filling

  ghost function Fill(opens: Opens, g: int, t: int): Opens
    decreases t - g
  {
    if g < t then Fill(Advance(opens, 0, g), g + 1, t) else opens
  }

  lemma NestedTrunc(i: nat, t: int)
    requires i + 1 < LEVELS
    ensures Trunc(i + 1, t) <= Trunc(i, t)
  {
    TruncAligned(i, t);
    TruncAligned(i + 1, t);
    ParentAligned(i, Trunc(i + 1, t));
    if Trunc(i, t) < Trunc(i + 1, t) {
      AlignedGap(i, Trunc(i, t), Trunc(i + 1, t));
    }
  }

  /** Level j's running period p is the tick's own, or the last one that closes because of it. */
  ghost predicate Due(j: nat, last: int, t: int, p: int)
    requires j < LEVELS
  {
    && p <= t
    && last < p + Dur(j)
    && (if p == Trunc(j, t) then RunEnd(j, last, t) == p else RunEnd(j, last, t) == p + Dur(j))
  }

  /** A chain that reaches second t leaves no level more than one period behind. */
  lemma {:induction false} ChainReaches(opens: Opens, last: int, t: int, j: nat)
    requires 0 < j < LEVELS && AllAligned(opens)
    requires Chain(opens, last, 0, t)
    ensures Trunc(j, t) - Dur(j) <= opens[j] <= t && last < opens[j] + Dur(j)
    ensures Chain(opens, last, j, opens[j])
  {
    if j <= 1 {
    } else {
      ChainReaches(opens, last, t, j - 1);
      NestedTrunc(j - 1, t);
      TruncAligned(j, t);
      AlignedStep(j, Trunc(j, t));
      AlignedStep(j, opens[j]);
      ParentAligned(j - 1, Trunc(j, t));
      if opens[j] + Dur(j) < Trunc(j, t) {
        AlignedGap(j, opens[j] + Dur(j), Trunc(j, t));
      }
    }
  }

  lemma FilledIsDue(opens: Opens, last: int, t: int, j: nat)
    requires 0 < j < LEVELS && AllAligned(opens) && last < t <= last + 1 + MAX_GAP
    requires Chain(opens, last, 0, t)
    ensures Due(j, last, t, opens[j])
  {
    var n := Trunc(j, t);
    ChainReaches(opens, last, t, j);
    TruncAligned(j, t);
    AlignedStep(j, n);
    if n - Dur(j) < opens[j] {
      AlignedGap(j, n - Dur(j), opens[j]);
      TruncUnique(j, t, opens[j]);
    }
  }

  /** State of the levels once a new second has closed the old one and its gap has been filled. */
  ghost predicate Rolled(ticks: seq<Tick>, t: int, s: State, opens: Opens)
    requires ticks != []
  {
    && Labelled(s)
    && Only(s.closed, 0) == ClosedUpTo(ticks, 0, RunEnd(0, Last(ticks).time, t))
    && (forall j | 0 < j < LEVELS :: Standing(ticks, s, j, opens[j]) && Due(j, Last(ticks).time, t, opens[j]))
  }

  lemma GapIsDue(ticks: seq<Tick>, s: State, t: int, opens: Opens)
    requires ticks != [] && Last(ticks).time < t <= Last(ticks).time + 1 + MAX_GAP
    requires Chain(opens, Last(ticks).time, 0, t) && AllAligned(opens) && Levels(ticks, s, 0, opens)
    ensures forall j | 0 < j < LEVELS :: Standing(ticks, s, j, opens[j]) && Due(j, Last(ticks).time, t, opens[j])
  {
    forall j | 0 < j < LEVELS ensures Standing(ticks, s, j, opens[j]) && Due(j, Last(ticks).time, t, opens[j]) {
      FilledIsDue(opens, Last(ticks).time, t, j);
    }
  }

  lemma ChainNext(opens: Opens, t: int, c: int)
    requires Chain(opens, t, 0, c) && c < opens[1] + Dur(1)
    ensures Chain(opens, t, 0, c + 1)
  {
  }

  /** Filling [g, t) with flat seconds closes exactly the direct 1s bars of that stretch and keeps
      every level above in step. */
  lemma {:induction false} FillGapIsDirect(ticks: seq<Tick>, s: State, g: int, t: int, opens: Opens)
    requires ticks != [] && Ordered(ticks) && Labelled(s)
    requires Last(ticks).time < g <= t <= Last(ticks).time + 1 + MAX_GAP
    requires Chain(opens, Last(ticks).time, 0, g) && AllAligned(opens) && Levels(ticks, s, 0, opens)
    requires Only(s.closed, 0) == ClosedUpTo(ticks, 0, g)
    ensures Rolled(ticks, t, FillGap(s, g, t, Last(ticks).price), Fill(opens, g, t))
    decreases t - g
  {
    hide Cascade, Only, Chain, Advance;
    if g == t {
      GapIsDue(ticks, s, t, opens);
    } else {
      var bar := DirectBar(ticks, 0, g);
      assert bar == Flat(0, g, Last(ticks).price);
      CascadeIsDirect(ticks, s, 0, g, opens);
      CascadeBelow(s, bar, 0, 0);
      AdvanceKeepsChain(opens, Last(ticks).time, 0, g);
      AdvanceKeepsAligned(opens, Last(ticks).time, 0, g);
      ChainNext(Advance(opens, 0, g), Last(ticks).time, g);
      FillGapIsDirect(ticks, Cascade(s, bar, 0), g + 1, t, Advance(opens, 0, g));
    }
  }

  // ---------------------------------------------------- hierarchical = direct

  /** Level j agrees with aggregating the ticks directly. */
  ghost predicate DirectAt(ticks: seq<Tick>, s: State, j: nat)
    requires j < LEVELS && ticks != []
  {
    && j in s.current
    && s.current[j] == DirectBar(ticks, j, Trunc(j, Last(ticks).time))
    && Only(s.closed, j) == DirectHistory(ticks, j)
  }

  ghost function StartOpens(t: int): Opens {
    seq(LEVELS, j requires 0 <= j < LEVELS => Trunc(j, t))
  }

  lemma {:induction false} StartChain(t: int, i: nat)
    requires i < LEVELS
    ensures Chain(StartOpens(t), t, i, Trunc(i, t))
    decreases LEVELS - i
  {
    if i + 1 >= LEVELS {
    } else {
      NestedTrunc(i, t);
      StartChain(t, i + 1);
    }
  }

  lemma StartAligned(t: int)
    ensures AllAligned(StartOpens(t))
  {
    forall j | 0 < j < LEVELS ensures Aligned(j, StartOpens(t)[j]) {
      TruncAligned(j, t);
    }
  }

  lemma AppendOrdered(ticks: seq<Tick>, x: Tick)
    requires Ordered(ticks + [x])
    ensures Ordered(ticks) && (ticks != [] ==> Last(ticks).time <= x.time)
  {
    assert forall i | 0 <= i < |ticks| :: (ticks + [x])[i] == ticks[i];
    if ticks != [] {
      assert (ticks + [x])[|ticks| - 1].time <= (ticks + [x])[|ticks|].time;
    }
  }

  lemma NewPeriod(j: nat, last: int, t: int, p: int)
    requires j < LEVELS && last <= t && Due(j, last, t, p) && p != Trunc(j, t)
    ensures last < Trunc(j, t)
  {
    TruncAligned(j, last);
    TruncAligned(j, t);
    TruncMonotone(j, last, t);
    if Trunc(j, last) != Trunc(j, t) {
      AlignedGap(j, Trunc(j, last), Trunc(j, t));
    }
  }

  /** A tick in the running period. */
  lemma SamePeriodIsDirect(ticks: seq<Tick>, x: Tick, s: State, j: nat)
    requires j < LEVELS && ticks != []
    requires Standing(ticks, s, j, Trunc(j, x.time)) && Due(j, Last(ticks).time, x.time, Trunc(j, x.time))
    ensures DirectAt(ticks + [x], UpdateAncestor(s, j, x.price, x.time), j)
  {
  }

  /** A tick that starts a new period: the old bar closes and the new one opens at its close. */
  lemma NextPeriodIsDirect(ticks: seq<Tick>, x: Tick, s: State, j: nat, p: int)
    requires j < LEVELS && ticks != [] && Ordered(ticks) && Last(ticks).time <= x.time
    requires Standing(ticks, s, j, p) && Due(j, Last(ticks).time, x.time, p) && p != Trunc(j, x.time)
    ensures DirectAt(ticks + [x], UpdateAncestor(s, j, x.price, x.time), j)
  {
    var n := Trunc(j, x.time);
    OnlyStep(s.closed, s.current[j], j);
    NewPeriod(j, Last(ticks).time, x.time, p);
    RunningBarAbsorbs(ticks, x, j, n);
    DropNew(ticks, x);
    assert ClosedUpTo(ticks + [x], j, n) == ClosedUpTo(ticks, j, p + Dur(j));
  }

  lemma AncestorFrame(s: State, i: nat, price: real, t: int, j: nat)
    requires i < LEVELS && j != i && Labelled(s)
    ensures var s' := UpdateAncestor(s, i, price, t);
            && Labelled(s')
            && (j in s'.current <==> j in s.current)
            && (j in s.current ==> s'.current[j] == s.current[j])
            && Only(s'.closed, j) == Only(s.closed, j)
  {
  }

  lemma {:induction false} AncestorsAreDirect(ticks: seq<Tick>, x: Tick, s: State, i: nat, opens: Opens)
    requires 0 < i <= LEVELS && ticks != [] && Ordered(ticks) && Last(ticks).time <= x.time && Labelled(s)
    requires forall j | 0 <= j < i :: DirectAt(ticks + [x], s, j)
    requires forall j | i <= j < LEVELS :: Standing(ticks, s, j, opens[j]) && Due(j, Last(ticks).time, x.time, opens[j])
    ensures var s' := UpdateAncestors(s, i, x.price, x.time);
            Labelled(s') && forall j | 0 <= j < LEVELS :: DirectAt(ticks + [x], s', j)
    decreases LEVELS - i
  {
    if i >= LEVELS {
    } else {
      var next := UpdateAncestor(s, i, x.price, x.time);
      if opens[i] == Trunc(i, x.time) {
        SamePeriodIsDirect(ticks, x, s, i);
      } else {
        NextPeriodIsDirect(ticks, x, s, i, opens[i]);
      }
      forall j | 0 <= j < i ensures DirectAt(ticks + [x], next, j) {
        AncestorFrame(s, i, x.price, x.time, j);
        assert DirectAt(ticks + [x], s, j);
      }
      forall j | i < j < LEVELS ensures Standing(ticks, next, j, opens[j]) {
        AncestorFrame(s, i, x.price, x.time, j);
        assert Standing(ticks, s, j, opens[j]);
      }
      AncestorFrame(s, i, x.price, x.time, if i == 1 then 2 else 1);
      AncestorsAreDirect(ticks, x, next, i + 1, opens);
    }
  }

  /** A direct state stands, at every level, at the period of the last tick. */
  lemma DirectStands(ticks: seq<Tick>, s: State)
    requires ticks != [] && forall j | 0 <= j < LEVELS :: DirectAt(ticks, s, j)
    ensures DirectAt(ticks, s, 0) && Levels(ticks, s, 0, StartOpens(Last(ticks).time))
  {
    var opens := StartOpens(Last(ticks).time);
    forall j | 0 < j < LEVELS ensures Standing(ticks, s, j, opens[j]) {
      assert DirectAt(ticks, s, j);
    }
  }

  ghost function BaseOpens(last: int, t: int): Opens {
    var opens := StartOpens(last);
    if last < t <= last + 1 + MAX_GAP then Fill(opens, last + 1, t) else opens
  }

  lemma LatestBar(ticks: seq<Tick>, s: State)
    requires ticks != [] && DirectAt(ticks, s, 0)
    ensures s.current[0] == DirectBar(ticks, 0, Last(ticks).time) && s.current[0].close == Last(ticks).price
    ensures Only(s.closed, 0) + [s.current[0]] == ClosedUpTo(ticks, 0, Last(ticks).time + 1)
  {
  }

  lemma StartStays(t: int)
    ensures Chain(StartOpens(t), t, 0, t) && AllAligned(StartOpens(t)) && Advance(StartOpens(t), 0, t) == StartOpens(t)
  {
    StartChain(t, 0);
    StartAligned(t);
  }

  lemma BaseCloses(ticks: seq<Tick>, s: State)
    requires ticks != [] && Ordered(ticks) && Labelled(s)
    requires DirectAt(ticks, s, 0) && Levels(ticks, s, 0, StartOpens(Last(ticks).time))
    ensures var last, closed := Last(ticks).time, Cascade(s, s.current[0], 0);
            && s.current[0].openTime == last && s.current[0].close == Last(ticks).price
            && Labelled(closed) && Levels(ticks, closed, 0, StartOpens(last))
            && Only(closed.closed, 0) == ClosedUpTo(ticks, 0, last + 1)
  {
    hide Cascade, DirectBar, Only, Chain, Advance, StartOpens, Levels, ClosedUpTo;
    var last := Last(ticks).time;
    LatestBar(ticks, s);
    StartStays(last);
    CascadeIsDirect(ticks, s, 0, last, StartOpens(last));
    CascadeBelow(s, s.current[0], 0, 0);
  }

  lemma StartReachesNext(t: int)
    ensures Chain(StartOpens(t), t, 0, t + 1) && AllAligned(StartOpens(t))
  {
    StartChain(t, 0);
    StartAligned(t);
  }

  /** More are missing, and no bar is filled in. */
  lemma GapSkipped(ticks: seq<Tick>, t: int, s: State)
    requires ticks != [] && Labelled(s) && Last(ticks).time + 1 + MAX_GAP < t
    requires Levels(ticks, s, 0, StartOpens(Last(ticks).time))
    requires Only(s.closed, 0) == ClosedUpTo(ticks, 0, Last(ticks).time + 1)
    ensures Rolled(ticks, t, FillGap(s, Last(ticks).time + 1, t, Last(ticks).price), BaseOpens(Last(ticks).time, t))
  {
  }

  /** The new second's bar, on top of levels that have rolled over. */
  lemma NewBaseBar(ticks: seq<Tick>, x: Tick, s: State, opens: Opens)
    requires ticks != [] && Ordered(ticks) && Last(ticks).time < x.time && Rolled(ticks, x.time, s, opens)
    ensures var s' := SetCurrent(s, 0, Successor(0, x.time, Last(ticks).price, x.price));
            && Labelled(s') && DirectAt(ticks + [x], s', 0)
            && forall j | 0 < j < LEVELS :: Standing(ticks, s', j, opens[j])
  {
  }

  /** A tick in a later second, once the old second has closed. */
  lemma SecondRollsOver(ticks: seq<Tick>, x: Tick, closed: State)
    requires ticks != [] && Ordered(ticks) && Last(ticks).time < x.time && Labelled(closed)
    requires Levels(ticks, closed, 0, StartOpens(Last(ticks).time))
    requires Only(closed.closed, 0) == ClosedUpTo(ticks, 0, Last(ticks).time + 1)
    ensures Rolled(ticks, x.time, FillGap(closed, Last(ticks).time + 1, x.time, Last(ticks).price),
                   BaseOpens(Last(ticks).time, x.time))
  {
    hide FillGap, Fill, Cascade, Only, DirectBar, StartOpens, Chain, Levels, ClosedUpTo, Rolled;
    var last := Last(ticks).time;
    if x.time <= last + 1 + MAX_GAP {
      StartReachesNext(last);
      FillGapIsDirect(ticks, closed, last + 1, x.time, StartOpens(last));
    } else {
      GapSkipped(ticks, x.time, closed);
    }
  }

  /** The 1s level is direct for the longer history and every ancestor is due. */
  ghost predicate BaseDone(ticks: seq<Tick>, x: Tick, s: State, opens: Opens)
    requires ticks != []
  {
    && Labelled(s) && DirectAt(ticks + [x], s, 0)
    && forall j | 0 < j < LEVELS :: Standing(ticks, s, j, opens[j]) && Due(j, Last(ticks).time, x.time, opens[j])
  }

  lemma BaseSameSecond(ticks: seq<Tick>, x: Tick, s: State)
    requires ticks != [] && Last(ticks).time == x.time && Labelled(s)
    requires DirectAt(ticks, s, 0) && Levels(ticks, s, 0, StartOpens(x.time))
    ensures BaseDone(ticks, x, UpdateBase(s, x.price, x.time), StartOpens(x.time))
  {
  }

  lemma BaseLaterSecond(ticks: seq<Tick>, x: Tick, s: State)
    requires ticks != [] && Ordered(ticks) && Last(ticks).time < x.time && Labelled(s)
    requires DirectAt(ticks, s, 0) && Levels(ticks, s, 0, StartOpens(Last(ticks).time))
    ensures BaseDone(ticks, x, UpdateBase(s, x.price, x.time), BaseOpens(Last(ticks).time, x.time))
  {
    hide BaseOpens, Fill, FillGap, Cascade;
    BaseCloses(ticks, s);
    var last, closed := Last(ticks).time, Cascade(s, s.current[0], 0);
    SecondRollsOver(ticks, x, closed);
    NewBaseBar(ticks, x, FillGap(closed, last + 1, x.time, Last(ticks).price), BaseOpens(last, x.time));
  }

  /** The base update brings the 1s level to the direct bars and leaves every ancestor due. */
  lemma BaseIsDirect(ticks: seq<Tick>, x: Tick, s: State)
    requires ticks != [] && Ordered(ticks) && Last(ticks).time <= x.time && Labelled(s)
    requires forall j | 0 <= j < LEVELS :: DirectAt(ticks, s, j)
    ensures BaseDone(ticks, x, UpdateBase(s, x.price, x.time), BaseOpens(Last(ticks).time, x.time))
  {
    DirectStands(ticks, s);
    if x.time == Last(ticks).time {
      BaseSameSecond(ticks, x, s);
    } else {
      BaseLaterSecond(ticks, x, s);
    }
  }

  lemma FirstBar(x: Tick, i: nat)
    requires i < LEVELS
    ensures DirectBar([x], i, Trunc(i, x.time)) == Flat(i, Trunc(i, x.time), x.price)
    ensures DirectHistory([x], i) == []
  {
  }

  lemma {:induction false} FirstAncestors(s: State, x: Tick, i: nat)
    requires 0 < i <= LEVELS && Labelled(s) && s.closed == []
    requires forall j | 0 <= j < i :: DirectAt([x], s, j)
    requires forall j | i <= j < LEVELS :: j !in s.current
    ensures var s' := UpdateAncestors(s, i, x.price, x.time);
            Labelled(s') && forall j | 0 <= j < LEVELS :: DirectAt([x], s', j)
    decreases LEVELS - i
  {
    if i >= LEVELS {
    } else {
      var next := UpdateAncestor(s, i, x.price, x.time);
      FirstBar(x, i);
      forall j | 0 <= j < i + 1 ensures DirectAt([x], next, j) {
        if j < i {
          assert DirectAt([x], s, j);
        }
      }
      FirstAncestors(next, x, i + 1);
    }
  }

  /** One tick takes a direct state to the direct state of the longer history. */
  lemma TickIsDirect(ticks: seq<Tick>, x: Tick, s: State)
    requires ticks != [] && Ordered(ticks) && Last(ticks).time <= x.time && Labelled(s)
    requires forall j | 0 <= j < LEVELS :: DirectAt(ticks, s, j)
    ensures Labelled(OnTick(s, x))
    ensures forall j | 0 <= j < LEVELS :: DirectAt(ticks + [x], OnTick(s, x), j)
  {
    BaseIsDirect(ticks, x, s);
    AncestorsAreDirect(ticks, x, UpdateBase(s, x.price, x.time), 1, BaseOpens(Last(ticks).time, x.time));
  }

  lemma FirstTickIsDirect(x: Tick)
    ensures Labelled(OnTick(EMPTY, x))
    ensures forall j | 0 <= j < LEVELS :: DirectAt([x], OnTick(EMPTY, x), j)
  {
    FirstBar(x, 0);
    FirstAncestors(UpdateBase(EMPTY, x.price, x.time), x, 1);
  }

  /** For every non-decreasing tick stream, every interval's running bar and every bar it has
      closed are exactly the ones the raw ticks define. */
  lemma {:induction false} HierarchicalIsDirect(ticks: seq<Tick>)
    requires ticks != [] && Ordered(ticks)
    ensures Labelled(OnTicks(ticks))
    ensures forall j | 0 <= j < LEVELS :: DirectAt(ticks, OnTicks(ticks), j)
  {
    var before, x := ticks[..|ticks| - 1], Last(ticks);
    assert before + [x] == ticks;
    AppendOrdered(before, x);
    if before == [] {
      FirstTickIsDirect(x);
    } else {
      HierarchicalIsDirect(before);
      TickIsDirect(before, x, OnTicks(before));
    }
  }
}
