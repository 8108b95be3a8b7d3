/** The market maker's ladder: bids and asks around a reference price, level by level, and when it keeps
    away from itself. */
module Ladder {
  import opened Rounding
  import opened PriceTime
  import opened BookSpec

  const SYSTEM_USER := 0

  type Spread = x: real | x > 0.0 witness 0.0005
  type Reference = x: real | x >= 0.0

  datatype Config = Config(halfSpread: Spread, levels: nat, baseQty: real, qtyMultiplier: real, moveThreshold: real)

  function Pow(x: real, n: nat): real { if n == 0 then 1.0 else x * Pow(x, n - 1) }

  /** One more spread unit for every level. */
  function Offset(cfg: Config, i: nat): real { cfg.halfSpread + cfg.halfSpread * i as real }

  /** A level's quantity before rounding. */
  function Size(cfg: Config, i: nat): real { cfg.baseQty * Pow(cfg.qtyMultiplier, i) }

  function LevelQty(cfg: Config, i: nat): real { RoundTo(Size(cfg, i), 100000000.0) }

  function BidPrice(cfg: Config, refPrice: real, i: nat): real { Round2(refPrice * (1.0 - Offset(cfg, i))) }

  function AskPrice(cfg: Config, refPrice: real, i: nat): real { Round2(refPrice * (1.0 + Offset(cfg, i))) }

  function Bid(cfg: Config, refPrice: real, i: nat, id: int): Incoming {
    Incoming(id, SYSTEM_USER, true, BidPrice(cfg, refPrice, i), LevelQty(cfg, i))
  }

  function Ask(cfg: Config, refPrice: real, i: nat, id: int): Incoming {
    Incoming(id, SYSTEM_USER, false, AskPrice(cfg, refPrice, i), LevelQty(cfg, i))
  }

  /** The book after n quoted levels; ids and instants follow id and now. */
  function Quoted(b: BookState, cfg: Config, refPrice: real, n: nat, id: int, now: int): BookState {
    if n == 0 then b
    else
      var front := Quoted(b, cfg, refPrice, n - 1, id, now);
      var k := 2 * (n - 1);
      PlaceLimit(PlaceLimit(front, Bid(cfg, refPrice, n - 1, id + k + 1), now + k),
                 Ask(cfg, refPrice, n - 1, id + k + 2), now + k + 1)
  }

  function CancelledAll(b: BookState, ids: seq<int>): BookState {
    if ids == [] then b else Cancel(CancelledAll(b, ids[..|ids| - 1]), ids[|ids| - 1])
  }

  /** The distance between the innermost quotes before rounding. */
  function Width(halfSpread: real, refPrice: real): real { 2.0 * halfSpread * refPrice }

  /** To the nearest cent, level i's quotes stand i + 1 half spreads off the reference price. */
  lemma QuotesStandOff(cfg: Config, refPrice: Reference, i: nat, id: int)
    ensures var off, bid, ask := (i + 1) as real * cfg.halfSpread, Bid(cfg, refPrice, i, id), Ask(cfg, refPrice, i, id);
            && bid.isBuy && !ask.isBuy && bid.user == 0 == ask.user && bid.id == id == ask.id
            && -0.005 <= bid.price - (refPrice - refPrice * off) <= 0.005
            && -0.005 <= ask.price - (refPrice + refPrice * off) <= 0.005
  {
    hide Round2, LevelQty, Offset, BidPrice, AskPrice;
    var off := (i + 1) as real * cfg.halfSpread;
    OffsetIs(cfg, i);
    PricesAre(cfg, refPrice, i, off);
    PriceOff(refPrice, off);
    RoundedIsNear(refPrice * (1.0 - off));
    RoundedIsNear(refPrice * (1.0 + off));
  }

  lemma OffsetIs(cfg: Config, i: nat)
    ensures Offset(cfg, i) == (i + 1) as real * cfg.halfSpread
  {
    assert (i + 1) as real == 1.0 + i as real;
  }

  lemma PriceOff(refPrice: real, off: real)
    ensures refPrice * (1.0 - off) == refPrice - refPrice * off && refPrice * (1.0 + off) == refPrice + refPrice * off
  {
  }

  /** Quantities grow by the multiplier from level to level, starting from the base; to the eighth place, bid
      and ask of a level have its quantity. */
  lemma QuantitiesGrow(cfg: Config, refPrice: real, i: nat, id: int)
    ensures Size(cfg, 0) == cfg.baseQty && Size(cfg, i + 1) == Size(cfg, i) * cfg.qtyMultiplier
    ensures Ask(cfg, refPrice, i, id).qty == Bid(cfg, refPrice, i, id).qty
    ensures -0.000000005 <= Bid(cfg, refPrice, i, id).qty - Size(cfg, i) <= 0.000000005
  {
    hide RoundTo, Size, BidPrice, AskPrice;
    NextSize(cfg, i);
    RoundedToEight(Size(cfg, i));
  }

  lemma NextSize(cfg: Config, i: nat)
    ensures Size(cfg, 0) == cfg.baseQty && Size(cfg, i + 1) == Size(cfg, i) * cfg.qtyMultiplier
  {
  }

  // ------------------------------------------------------- its own orders

  /** Every resting order of the bot has an id from the set, a bid at or below `bid`, an ask at or above `ask`. */
  ghost predicate Own(q: seq<Entry>, isBid: bool, ids: int -> bool, bid: real, ask: real) {
    forall e | e in q && e.user == SYSTEM_USER :: ids(e.id) && if isBid then e.price <= bid else e.price >= ask
  }

  ghost predicate OwnQuotes(b: BookState, ids: int -> bool, bid: real, ask: real) {
    Own(b.bids, true, ids, bid, ask) && Own(b.asks, false, ids, bid, ask)
  }

  function Among(ids: seq<int>): int -> bool { (id: int) => id in ids }

  /** Its resting orders are among those it remembers. */
  ghost predicate Remembered(b: BookState, ids: seq<int>) {
    (forall e | e in b.bids && e.user == SYSTEM_USER :: e.id in ids)
      && (forall e | e in b.asks && e.user == SYSTEM_USER :: e.id in ids)
  }

  ghost predicate OthersOnly(fills: seq<Fill>) {
    forall f | f in fills :: f.maker.user != SYSTEM_USER
  }

  /** Matching leaves entries with the id, user and price of entries that were there. */
  lemma {:induction false} MatchKeepsOwn(q: seq<Entry>, isBid: bool, limit: real, qty: real, ids: int -> bool,
                                         bid: real, ask: real)
    requires Own(q, isBid, ids, bid, ask)
    ensures Own(Greedy(q, !isBid, limit, qty).rest, isBid, ids, bid, ask)
  {
    if q == [] || qty <= 0.0 || !Reaches(!isBid, limit, q[0].price) {
    } else {
      assert q[0] in q && forall e | e in q[1..] :: e in q;
      if qty >= q[0].qty {
        MatchKeepsOwn(q[1..], isBid, limit, qty - q[0].qty, ids, bid, ask);
      }
    }
  }

  /** An order whose limit reaches none of the bot's orders trades with others only. */
  lemma {:induction false} OutOfReach(q: seq<Entry>, isBuyer: bool, limit: real, qty: real)
    requires forall e | e in q && e.user == SYSTEM_USER :: !Reaches(isBuyer, limit, e.price)
    ensures OthersOnly(Greedy(q, isBuyer, limit, qty).fills)
  {
    if q == [] || qty <= 0.0 || !Reaches(isBuyer, limit, q[0].price) {
    } else {
      assert q[0] in q && forall e | e in q[1..] :: e in q;
      if qty >= q[0].qty {
        OutOfReach(q[1..], isBuyer, limit, qty - q[0].qty);
      }
    }
  }

  lemma {:induction false} InsertKeepsOwn(q: seq<Entry>, e: Entry, isBid: bool, ids: int -> bool, bid: real, ask: real)
    requires Own(q, isBid, ids, bid, ask) && ids(e.id) && (if isBid then e.price <= bid else e.price >= ask)
    ensures Own(Insert(q, e, isBid), isBid, ids, bid, ask)
  {
    if q == [] || Better(isBid, e.price, q[0].price) {
    } else {
      assert q[0] in q && forall x | x in q[1..] :: x in q;
      InsertKeepsOwn(q[1..], e, isBid, ids, bid, ask);
    }
  }

  lemma MoreIds(q: seq<Entry>, isBid: bool, ids: int -> bool, more: int -> bool, bid: real, ask: real)
    requires Own(q, isBid, ids, bid, ask) && forall x | ids(x) :: more(x)
    ensures Own(q, isBid, more, bid, ask)
  {
  }

  /** No order of the bot rests. */
  ghost predicate NoneOwn(b: BookState) {
    (forall e | e in b.bids :: e.user != SYSTEM_USER) && (forall e | e in b.asks :: e.user != SYSTEM_USER)
  }

  /** A quote within the bot's own bounds keeps them; with the bounds apart it meets nobody but others
      if it has a positive price, or if nothing of the bot rests on the other side. */
  lemma QuoteStep(b: BookState, o: Incoming, now: int, ids: int -> bool, bid: real, ask: real)
    requires OwnQuotes(b, ids, bid, ask) && o.user == SYSTEM_USER && ids(o.id)
    requires if o.isBuy then o.price <= bid else o.price >= ask
    ensures OwnQuotes(PlaceLimit(b, o, now), ids, bid, ask)
    ensures bid < ask && (o.price > 0.0 || NoneOwn(b)) ==> OthersOnly(MatchOf(b, o).fills)
  {
    hide Own, Greedy, Insert, OthersOnly;
    var m, q := MatchOf(b, o), BookSpec.Opposite(b, o.isBuy);
    MatchKeepsOwn(q, !o.isBuy, o.price, o.qty, ids, bid, ask);
    InsertKeepsOwn(BookSpec.Own(b, o.isBuy), Entry(o.id, o.user, o.price, m.left, now), o.isBuy, ids, bid, ask);
    if bid < ask && (o.price > 0.0 || NoneOwn(b)) {
      AcrossTheSpread(b, q, o, ids, bid, ask);
      OutOfReach(q, o.isBuy, o.price, o.qty);
    }
  }

  lemma AcrossTheSpread(b: BookState, q: seq<Entry>, o: Incoming, ids: int -> bool, bid: real, ask: real)
    requires q == BookSpec.Opposite(b, o.isBuy) && Own(q, !o.isBuy, ids, bid, ask) && bid < ask
    requires (if o.isBuy then o.price <= bid else o.price >= ask) && (o.price > 0.0 || NoneOwn(b))
    ensures forall e | e in q && e.user == SYSTEM_USER :: !Reaches(o.isBuy, o.price, e.price)
  {
  }

  // ----------------------------------------------------------- the ladder

  /** The innermost quotes bound the ladder. */
  lemma LadderBounds(cfg: Config, refPrice: Reference, i: nat)
    ensures AskPrice(cfg, refPrice, i) >= AskPrice(cfg, refPrice, 0) >= 0.0
    ensures BidPrice(cfg, refPrice, i) <= BidPrice(cfg, refPrice, 0)
  {
    hide Round2, BidPrice, AskPrice;
    var half: real, off := cfg.halfSpread, Offset(cfg, i);
    OffsetGrows(cfg, i);
    PricesAre(cfg, refPrice, 0, half);
    PricesAre(cfg, refPrice, i, off);
    ScaleKeepsOrder(refPrice, half, off);
    RoundKeepsOrder(refPrice * (1.0 + half), refPrice * (1.0 + off));
    RoundedIsNear(refPrice * (1.0 + half));
    RoundKeepsOrder(refPrice * (1.0 - off), refPrice * (1.0 - half));
  }

  /** The innermost quotes are apart when the spread is more than a cent. */
  lemma InnerQuotesApart(cfg: Config, refPrice: Reference)
    requires Width(cfg.halfSpread, refPrice) > 0.01
    ensures BidPrice(cfg, refPrice, 0) < AskPrice(cfg, refPrice, 0)
  {
    hide Round2, BidPrice, AskPrice, Width;
    var half: real := cfg.halfSpread;
    OffsetGrows(cfg, 0);
    PricesAre(cfg, refPrice, 0, half);
    SpreadInPrice(refPrice, half);
    RoundKeepsApart(refPrice * (1.0 - half), refPrice * (1.0 + half));
  }

  lemma PricesAre(cfg: Config, refPrice: real, i: nat, off: real)
    requires off == Offset(cfg, i)
    ensures BidPrice(cfg, refPrice, i) == Round2(refPrice * (1.0 - off))
            && AskPrice(cfg, refPrice, i) == Round2(refPrice * (1.0 + off))
  {
    hide Round2, Offset;
  }

  lemma OffsetGrows(cfg: Config, i: nat)
    ensures Offset(cfg, i) >= cfg.halfSpread == Offset(cfg, 0)
  {
  }

  lemma ScaleKeepsOrder(refPrice: Reference, half: real, off: real)
    requires 0.0 <= half <= off
    ensures 0.0 <= refPrice * (1.0 + half) <= refPrice * (1.0 + off)
            && refPrice * (1.0 - off) <= refPrice * (1.0 - half)
  {
  }

  lemma SpreadInPrice(refPrice: real, half: real)
    requires Width(half, refPrice) > 0.01
    ensures refPrice * (1.0 + half) - refPrice * (1.0 - half) > 0.01
  {
  }

  // -------------------------------------------------- meeting only others

  /** None of the first n levels' quotes trades with a quote of the bot. */
  ghost predicate Alone(b: BookState, cfg: Config, refPrice: real, n: nat, id: int, now: int) {
    n == 0 ||
    (var c, k := Quoted(b, cfg, refPrice, n - 1, id, now), 2 * (n - 1);
     var bid, ask := Bid(cfg, refPrice, n - 1, id + k + 1), Ask(cfg, refPrice, n - 1, id + k + 2);
     && Alone(b, cfg, refPrice, n - 1, id, now)
     && OthersOnly(MatchOf(c, bid).fills) && OthersOnly(MatchOf(PlaceLimit(c, bid, now + k), ask).fills))
  }

  /** The innermost quotes are apart, and every further bid has a positive price. */
  ghost predicate KeepsApart(cfg: Config, refPrice: real) {
    && (cfg.levels > 0 ==> BidPrice(cfg, refPrice, 0) < AskPrice(cfg, refPrice, 0))
    && forall i: nat | 1 <= i < cfg.levels :: BidPrice(cfg, refPrice, i) > 0.0
  }

  lemma RoundIsOdd(x: real)
    ensures x < 0.0 ==> Round2(x) == -Round2(-x)
  {
  }

  /** When the innermost quotes are apart the ask is positive. */
  lemma InnerAskIsPositive(cfg: Config, refPrice: Reference)
    requires BidPrice(cfg, refPrice, 0) < AskPrice(cfg, refPrice, 0)
    ensures AskPrice(cfg, refPrice, 0) > 0.0
  {
    hide Round2, BidPrice, AskPrice;
    var half: real := cfg.halfSpread;
    OffsetGrows(cfg, 0);
    PricesAre(cfg, refPrice, 0, half);
    var low, high := refPrice * (1.0 - half), refPrice * (1.0 + half);
    OppositeSides(refPrice, half);
    RoundedIsNear(low);
    RoundedIsNear(high);
    if low < 0.0 {
      RoundIsOdd(low);
      RoundKeepsOrder(-low, high);
    }
  }

  lemma OppositeSides(refPrice: Reference, half: real)
    requires half >= 0.0
    ensures refPrice * (1.0 + half) >= 0.0 && -(refPrice * (1.0 - half)) <= refPrice * (1.0 + half)
  {
  }

  /** In a book without orders of the bot, quotes that are apart meet others only. */
  lemma {:induction false} ApartIsAlone(b: BookState, cfg: Config, refPrice: Reference, n: nat, id: int, now: int,
                                        all: int -> bool)
    requires NoneOwn(b) && KeepsApart(cfg, refPrice) && n <= cfg.levels && forall x: int :: all(x)
    ensures Alone(b, cfg, refPrice, n, id, now)
    ensures OwnQuotes(Quoted(b, cfg, refPrice, n, id, now), all, BidPrice(cfg, refPrice, 0), AskPrice(cfg, refPrice, 0))
  {
    hide BidPrice, AskPrice, OthersOnly, MatchOf, PlaceLimit;
    if n == 0 {
    } else {
      var bid, ask := BidPrice(cfg, refPrice, 0), AskPrice(cfg, refPrice, 0);
      var c, k := Quoted(b, cfg, refPrice, n - 1, id, now), 2 * (n - 1);
      ApartIsAlone(b, cfg, refPrice, n - 1, id, now, all);
      LadderBounds(cfg, refPrice, n - 1);
      InnerAskIsPositive(cfg, refPrice);
      QuoteStep(c, Bid(cfg, refPrice, n - 1, id + k + 1), now + k, all, bid, ask);
      QuoteStep(PlaceLimit(c, Bid(cfg, refPrice, n - 1, id + k + 1), now + k), Ask(cfg, refPrice, n - 1, id + k + 2),
                now + k + 1,
                all, bid, ask);
    }
  }

  // ------------------------------------------------- starting from nothing

  const EMPTY := BookState([], [])

  ghost predicate AllOwn(b: BookState) {
    (forall e | e in b.bids :: e.user == SYSTEM_USER) && (forall e | e in b.asks :: e.user == SYSTEM_USER)
  }

  /** Where only the bot's orders rest, a quote that meets others only meets nobody, and rests. */
  lemma RestsAmongOwn(b: BookState, o: Incoming, now: int)
    requires AllOwn(b) && o.user == SYSTEM_USER && o.qty > 0.0 && OthersOnly(MatchOf(b, o).fills)
    ensures var c, q := PlaceLimit(b, o, now), BookSpec.Opposite(b, o.isBuy);
            && AllOwn(c) && BookSpec.Opposite(c, o.isBuy) == q && BookSpec.Own(c, o.isBuy) != []
            && (q != [] ==> !Reaches(o.isBuy, o.price, q[0].price))
            && (BookSpec.Own(b, o.isBuy) == [] ==> BookSpec.Own(c, o.isBuy)[0].price == o.price)
  {
    FrontIsFilled(b, o);
    InsertAddsOne(BookSpec.Own(b, o.isBuy), Entry(o.id, o.user, o.price, o.qty, now), o.isBuy);
  }

  lemma FrontIsFilled(b: BookState, o: Incoming)
    requires o.qty > 0.0
    ensures var q, fills := BookSpec.Opposite(b, o.isBuy), MatchOf(b, o).fills;
            q != [] && Reaches(o.isBuy, o.price, q[0].price) ==>
              q[0] in q && fills != [] && fills[0] in fills && fills[0].maker == q[0]
  {
  }

  lemma {:induction false} InsertAddsOne(q: seq<Entry>, e: Entry, isBid: bool)
    ensures Insert(q, e, isBid) != [] && forall x | x in Insert(q, e, isBid) :: x == e || x in q
    ensures q == [] ==> Insert(q, e, isBid)[0] == e
  {
    if q == [] || Better(isBid, e.price, q[0].price) {
    } else {
      InsertAddsOne(q[1..], e, isBid);
    }
  }

  ghost predicate QuantitiesPositive(cfg: Config) {
    forall i: nat | i < cfg.levels :: LevelQty(cfg, i) > 0.0
  }

  /** A ladder that meets nobody of its own in the empty book keeps apart. */
  lemma {:induction false} AloneIsApart(cfg: Config, refPrice: Reference, n: nat, id: int, now: int)
    requires 1 <= n <= cfg.levels && QuantitiesPositive(cfg) && Alone(EMPTY, cfg, refPrice, n, id, now)
    ensures BidPrice(cfg, refPrice, 0) < AskPrice(cfg, refPrice, 0)
    ensures forall i: nat | 1 <= i < n :: BidPrice(cfg, refPrice, i) > 0.0
    ensures var c := Quoted(EMPTY, cfg, refPrice, n, id, now); AllOwn(c) && c.asks != []
  {
    hide BidPrice, AskPrice, OthersOnly, MatchOf, PlaceLimit, LevelQty, AllOwn;
    var c, k := Quoted(EMPTY, cfg, refPrice, n - 1, id, now), 2 * (n - 1);
    var bid, ask := Bid(cfg, refPrice, n - 1, id + k + 1), Ask(cfg, refPrice, n - 1, id + k + 2);
    if n == 1 {
      NothingOwnAtFirst();
    } else {
      AloneIsApart(cfg, refPrice, n - 1, id, now);
    }
    RestsAmongOwn(c, bid, now + k);
    RestsAmongOwn(PlaceLimit(c, bid, now + k), ask, now + k + 1);
  }

  lemma NothingOwnAtFirst()
    ensures AllOwn(EMPTY) && NoneOwn(EMPTY) && BookInv(EMPTY, 0)
  {
  }

  /** Whatever book without its orders the bot starts from. */
  ghost predicate AlwaysAlone(cfg: Config, refPrice: Reference) {
    forall b, id, now | NoneOwn(b) && BookInv(b, now) :: Alone(b, cfg, refPrice, cfg.levels, id, now)
  }

  /** For positive quantities: the bot never trades with itself while quoting, whatever book without
      its orders it starts from, exactly when its innermost quotes are apart after rounding and every
      bid from the second level on is positive. */
  lemma NeverMeetsItselfIff(cfg: Config, refPrice: Reference)
    requires QuantitiesPositive(cfg)
    ensures AlwaysAlone(cfg, refPrice) <==> KeepsApart(cfg, refPrice)
  {
    hide BidPrice, AskPrice, LevelQty, Alone;
    if KeepsApart(cfg, refPrice) {
      forall b, id, now | NoneOwn(b) && BookInv(b, now) ensures Alone(b, cfg, refPrice, cfg.levels, id, now) {
        ApartIsAlone(b, cfg, refPrice, cfg.levels, id, now, (x: int) => true);
      }
    } else if AlwaysAlone(cfg, refPrice) && cfg.levels > 0 {
      NothingOwnAtFirst();
      AloneIsApart(cfg, refPrice, cfg.levels, 0, 0);
    }
  }

  /** Half a spread of 50% and two levels around 100: the second bid rounds to zero, which to the book is
      no limit, and takes the bot's own first ask at 150. */
  lemma WideLadderMeetsItself()
    ensures var cfg := Config(0.5, 2, 0.5, 1.0, 0.0003);
            var c := Quoted(EMPTY, cfg, 100.0, 1, 0, 0);
            && Width(cfg.halfSpread, 100.0) == 100.0 && QuantitiesPositive(cfg) && BidPrice(cfg, 100.0, 1) == 0.0
            && MatchOf(c, Bid(cfg, 100.0, 1, 3)).fills == [Fill(Entry(2, SYSTEM_USER, 150.0, 0.5, 1), 0.5)]
            && !Alone(EMPTY, cfg, 100.0, 2, 0, 0)
  {
    hide LevelQty, BidPrice, AskPrice;
    var cfg := Config(0.5, 2, 0.5, 1.0, 0.0003);
    WidePrices();
    var bid, ask := Bid(cfg, 100.0, 0, 1), Ask(cfg, 100.0, 0, 2);
    assert PlaceLimit(EMPTY, bid, 0) == BookState([Entry(1, 0, 50.0, 0.5, 0)], []);
    assert Quoted(EMPTY, cfg, 100.0, 0, 0, 0) == EMPTY;
    var c := Quoted(EMPTY, cfg, 100.0, 1, 0, 0);
    assert c == BookState([Entry(1, 0, 50.0, 0.5, 0)], [Entry(2, 0, 150.0, 0.5, 1)]);
    var m := MatchOf(c, Bid(cfg, 100.0, 1, 3));
    assert c.asks[1..] == [];
    assert m.fills == [Fill(Entry(2, SYSTEM_USER, 150.0, 0.5, 1), 0.5)];
    assert m.fills[0] in m.fills;
  }

  lemma WidePrices()
    ensures var cfg := Config(0.5, 2, 0.5, 1.0, 0.0003);
            && BidPrice(cfg, 100.0, 0) == 50.0 && AskPrice(cfg, 100.0, 0) == 150.0 && BidPrice(cfg, 100.0, 1) == 0.0
            && LevelQty(cfg, 0) == 0.5 && LevelQty(cfg, 1) == 0.5
  {
    var cfg := Config(0.5, 2, 0.5, 1.0, 0.0003);
    assert Pow(1.0, 1) == 1.0 * Pow(1.0, 0);
  }
}
