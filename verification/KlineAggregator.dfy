/** The candlestick aggregator with the fields the service keeps.  Every method is proved equal to
    the transition function of `HierarchicalKline`, for ticks in any order. */
module KlineService {
  import opened DirectKline
  import opened HierarchicalKline
  import opened KlineTable

  class KlineAggregator {
    /** Running bar per level; absent before the first tick. */
    var current: map<nat, Bar>
    /** Closed bars per level, newest first, at most MaxCache of them. */
    var cache: map<nat, seq<Bar>>
    /** Bars handed to the close callback, in call order. */
    var emitted: seq<Bar>

    ghost var ticks: seq<Tick>
    /** Every bar ever closed, of all levels, in closing order. */
    ghost var closed: seq<Bar>

    ghost function Abs(): State
      reads this
    {
      State(current, closed)
    }

    function Cached(i: nat): seq<Bar>
      reads `cache
    {
      if i in cache then cache[i] else []
    }

    /** The cache holds the newest closed bars of each level, and the callback has had every closed
        bar of the persisted levels, once and in order. */
    ghost predicate Recorded()
      reads `cache, `emitted, `closed
    {
      && (forall i | 0 <= i < LEVELS :: Cached(i) == Newest(Only(closed, i), MaxCache(i)))
      && emitted == Persisted(closed)
    }

    ghost predicate Valid()
      reads this
    {
      Recorded() && Labelled(Abs()) && Abs() == OnTicks(ticks)
    }

    constructor ()
      ensures Valid() && ticks == []
    {
      current, cache, emitted := map[], map[], [];
      ticks, closed := [], [];
    }

    method CacheBar(bar: Bar, i: nat)
      requires i < LEVELS && bar.interval == i && Recorded()
      modifies `cache, `emitted, `closed
      ensures Recorded() && Abs() == Close(old(Abs()), bar)
    {
      var bars := [bar] + Cached(i);
      if |bars| > MaxCache(i) {
        bars := bars[..MaxCache(i)];
      }
      cache := cache[i := bars];
      if Persist(i) {
        emitted := emitted + [bar];
      }
      closed := closed + [bar];
      PersistedStep(old(closed), bar);
      NewestStep(Only(old(closed), i), bar, MaxCache(i));
      forall j | 0 <= j < LEVELS ensures Cached(j) == Newest(Only(closed, j), MaxCache(j)) {
        OnlyStep(old(closed), bar, j);
      }
    }

    method CloseAndCascade(bar: Bar, i: nat)
      requires i < LEVELS && bar.interval == i && Recorded() && Labelled(Abs())
      modifies `current, `cache, `emitted, `closed
      ensures Recorded() && Labelled(Abs()) && Abs() == Cascade(old(Abs()), bar, i)
      decreases LEVELS - i
    {
      hide Recorded, Trunc;
      CacheBar(bar, i);
      if i + 1 == LEVELS {
        return;
      }
      var openTime := Trunc(i + 1, bar.openTime);
      var hasParent := i + 1 in current;
      if hasParent && current[i + 1].openTime != openTime {
        CloseAndCascade(current[i + 1], i + 1);
        hasParent := false;
      }
      if !hasParent {
        current := current[i + 1 := Bar(i + 1, openTime, openTime + Dur(i + 1), bar.open, bar.high, bar.low,
                                        bar.close)];
      } else {
        current := current[i + 1 := Merge(current[i + 1], bar)];
      }
    }

    method UpdateBase(price: real, t: int)
      requires Recorded() && Labelled(Abs())
      modifies `current, `cache, `emitted, `closed
      ensures Recorded() && Labelled(Abs()) && Abs() == HierarchicalKline.UpdateBase(old(Abs()), price, t)
    {
      hide Recorded, Cascade;
      if 0 !in current || current[0].openTime != t {
        var openPrice := price;
        if 0 in current {
          var bar := current[0];
          openPrice := bar.close;
          CloseAndCascade(bar, 0);
          var gapStart := bar.openTime + 1;
          ghost var target := FillGap(Abs(), gapStart, t, bar.close);
          while gapStart < t && t - gapStart <= MAX_GAP
            invariant Recorded() && Labelled(Abs())
            invariant FillGap(Abs(), gapStart, t, bar.close) == target
            decreases t - gapStart
          {
            CloseAndCascade(Flat(0, gapStart, bar.close), 0);
            gapStart := gapStart + 1;
          }
        }
        current := current[0 := Successor(0, t, openPrice, price)];
      } else {
        current := current[0 := Absorb(current[0], price)];
      }
    }

    method UpdateAncestor(i: nat, price: real, t: int)
      requires i < LEVELS && Recorded() && Labelled(Abs())
      modifies `current, `cache, `emitted, `closed
      ensures Recorded() && Labelled(Abs()) && Abs() == HierarchicalKline.UpdateAncestor(old(Abs()), i, price, t)
    {
      hide Recorded, Trunc;
      var openTime := Trunc(i, t);
      if i !in current {
        current := current[i := Flat(i, openTime, price)];
      } else if current[i].openTime != openTime {
        var bar := current[i];
        CacheBar(bar, i);
        current := current[i := Successor(i, openTime, bar.close, price)];
      } else {
        current := current[i := Absorb(current[i], price)];
      }
    }

    method UpdateAncestors(price: real, t: int)
      requires Recorded() && Labelled(Abs())
      modifies `current, `cache, `emitted, `closed
      ensures Recorded() && Labelled(Abs()) && Abs() == HierarchicalKline.UpdateAncestors(old(Abs()), 1, price, t)
    {
      hide Recorded, HierarchicalKline.UpdateAncestor;
      var i := 1;
      while i < LEVELS
        invariant 1 <= i <= LEVELS
        invariant Recorded() && Labelled(Abs())
        invariant HierarchicalKline.UpdateAncestors(Abs(), i, price, t)
                  == HierarchicalKline.UpdateAncestors(old(Abs()), 1, price, t)
      {
        UpdateAncestor(i, price, t);
        i := i + 1;
      }
    }

    method OnTrade(price: real, t: int)
      requires Valid()
      modifies this
      ensures Valid() && ticks == old(ticks) + [Tick(price, t)]
    {
      UpdateBase(price, t);
      UpdateAncestors(price, t);
      ticks := ticks + [Tick(price, t)];
      assert ticks[..|ticks| - 1] == old(ticks);
    }

    /** The running bar, then the closed ones, newest first; at most `limit` of them if it is positive. */
    method GetCachedKlines(i: nat, limit: int) returns (bars: seq<Bar>)
      requires i < LEVELS && Valid()
      ensures var all := (if i in current then [current[i]] else []) + Newest(Only(closed, i), MaxCache(i));
              bars == if 0 < limit < |all| then all[..limit] else all
      ensures ticks != [] && Ordered(ticks) ==>
                var all := [DirectBar(ticks, i, Trunc(i, Last(ticks).time))]
                  + Newest(DirectHistory(ticks, i), MaxCache(i));
                bars == if 0 < limit < |all| then all[..limit] else all
      ensures ticks != [] && Ordered(ticks) ==>
                && (forall b | b in bars :: OnGrid(b, i))
                && |bars| > 0 && SpansAt(bars[0], Seconds(i), Last(ticks).time)
    {
      bars := (if i in current then [current[i]] else []) + Cached(i);
      if 0 < limit < |bars| {
        bars := bars[..limit];
      }
      if ticks != [] && Ordered(ticks) {
        HierarchicalIsDirect(ticks);
        assert DirectAt(ticks, Abs(), i);
        BarsAreOnGrid(ticks, i);
      }
    }
  }
}
