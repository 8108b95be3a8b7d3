/** The market maker's quoting: all its orders are cancelled and a new ladder is placed around the
    reference price. */
module MarketMaker {
  import opened Reals
  import opened PriceTime
  import opened BookSpec
  import opened Ladder
  import opened Backing
  import OrderBook

  /** Within the threshold's part of the last quote, up or down. */
  predicate StillNear(threshold: real, last: real, refPrice: real) {
    last - threshold * last < refPrice < last + threshold * last
  }

  /** By less than the threshold, relative to the last quote. */
  predicate HardlyMoved(threshold: real, last: real, refPrice: real)
    requires last != 0.0
  {
    var d := refPrice - last;
    (if d < 0.0 then -d else d) / last < threshold
  }

  lemma HardlyMovedIsNear(threshold: real, last: real, refPrice: real)
    requires last > 0.0
    ensures HardlyMoved(threshold, last, refPrice) <==> StillNear(threshold, last, refPrice)
  {
    var d := refPrice - last;
    var away := if d < 0.0 then -d else d;
    DivOrder(away, last, threshold);
  }

  // ------------------------------------------------------------ cancelling

  lemma {:induction false} RemoveSubset(q: seq<Entry>, id: int)
    ensures forall e | e in Remove(q, id) :: e in q
  {
    if q == [] {
    } else {
      assert q[0] in q && forall e | e in q[1..] :: e in q;
      RemoveSubset(q[1..], id);
    }
  }

  /** Cancelling the k-th remembered order forgets exactly that one. */
  lemma CancelStep(b: BookState, now: int, ids: seq<int>, k: nat)
    requires BookInv(b, now) && k < |ids| && Remembered(b, ids[k..])
    ensures BookInv(Cancel(b, ids[k]), now) && Remembered(Cancel(b, ids[k]), ids[k + 1..])
  {
    hide BookInv;
    CancelKeepsInv(b, ids[k], now);
    RemoveSubset(b.bids, ids[k]);
    RemoveSubset(b.asks, ids[k]);
    assert ids[k..] == [ids[k]] + ids[k + 1..];
  }

  // -------------------------------------- the orders of registered users

  lemma {:induction false} CancellingKeepsBacked(b: BookState, ids: seq<int>, orders: Orders)
    requires Backed(b, orders)
    ensures Backed(CancelledAll(b, ids), orders)
  {
    if ids == [] {
    } else {
      var n := |ids| - 1;
      var c := CancelledAll(b, ids[..n]);
      CancellingKeepsBacked(b, ids[..n], orders);
      RemoveKeepsBacked(c.bids, ids[n], orders, 1);
      RemoveKeepsBacked(c.asks, ids[n], orders, -1);
    }
  }

  lemma {:induction false} QuotingKeepsBacked(b: BookState, cfg: Config, refPrice: real, n: nat, id: int, now: int,
                                              orders: Orders)
    requires Backed(b, orders)
    ensures Backed(Quoted(b, cfg, refPrice, n, id, now), orders)
  {
    hide Backed, BidPrice, AskPrice, LevelQty, PlaceLimit;
    if n == 0 {
    } else {
      var c, k := Quoted(b, cfg, refPrice, n - 1, id, now), 2 * (n - 1);
      var bid := Bid(cfg, refPrice, n - 1, id + k + 1);
      QuotingKeepsBacked(b, cfg, refPrice, n - 1, id, now, orders);
      SystemOrderKeepsBacked(c, bid, now + k, orders);
      SystemOrderKeepsBacked(PlaceLimit(c, bid, now + k), Ask(cfg, refPrice, n - 1, id + k + 2), now + k + 1, orders);
    }
  }

  // ---------------------------------------------------------------- the bot

  /** What matched while quoting, with the side the bot was on. */
  datatype QuoteTrades = QuoteTrades(trades: seq<OrderBook.Trade>, isBuy: bool)

  /** One more quote; a quote without trades leaves nothing to book. */
  function WithQuote(pending: seq<QuoteTrades>, trades: seq<OrderBook.Trade>, isBuy: bool): seq<QuoteTrades> {
    if |trades| > 0 then pending + [QuoteTrades(trades, isBuy)] else pending
  }

  /** The trades of the first n levels' quotes, level by level, the bid's before the ask's. */
  function LadderTrades(b: BookState, cfg: Config, refPrice: real, n: nat, id: int, now: int): seq<QuoteTrades> {
    if n == 0 then []
    else
      var c, k := Quoted(b, cfg, refPrice, n - 1, id, now), 2 * (n - 1);
      var bid, ask := Bid(cfg, refPrice, n - 1, id + k + 1), Ask(cfg, refPrice, n - 1, id + k + 2);
      var bidTrades := OrderBook.TradesOf(bid, MatchOf(c, bid).fills);
      var askTrades := OrderBook.TradesOf(ask, MatchOf(PlaceLimit(c, bid, now + k), ask).fills);
      WithQuote(WithQuote(LadderTrades(b, cfg, refPrice, n - 1, id, now), bidTrades, true), askTrades, false)
  }

  ghost predicate NotBothSides(trades: seq<OrderBook.Trade>) {
    forall t | t in trades :: !(t.buyUserId == SYSTEM_USER && t.sellUserId == SYSTEM_USER)
  }

  /** The bot is on one side only of all its trades. */
  ghost predicate NothingWithItself(pending: seq<QuoteTrades>) {
    forall t | t in pending :: NotBothSides(t.trades)
  }

  lemma {:induction false} TradesWithOthers(o: Incoming, fills: seq<Fill>)
    requires o.user == SYSTEM_USER
    ensures NotBothSides(OrderBook.TradesOf(o, fills)) <==> OthersOnly(fills)
  {
    if fills == [] {
    } else {
      var trades := OrderBook.TradesOf(o, fills);
      TradesWithOthers(o, fills[1..]);
      assert trades == [OrderBook.TradeOf(o, fills[0])] + OrderBook.TradesOf(o, fills[1..]);
      assert fills == [fills[0]] + fills[1..];
      assert trades[0] in trades && fills[0] in fills;
    }
  }

  class Bot {
    const book: OrderBook.Book
    const cfg: Config
    var lastQuotePrice: real
    var activeOrders: seq<int>

    constructor (book: OrderBook.Book, cfg: Config)
      ensures this.book == book && this.cfg == cfg && activeOrders == [] && lastQuotePrice == 0.0
    {
      this.book, this.cfg, lastQuotePrice, activeOrders := book, cfg, 0.0, [];
    }

    ghost predicate Valid()
      reads this, book, OrderBook.Objs(book.bids), OrderBook.Objs(book.asks)
    {
      && book.Valid() && (forall id | id in book.orderIndex :: id <= book.nextId)
      && Remembered(book.State(), activeOrders) && lastQuotePrice >= 0.0
    }

    /** One order of the ladder. */
    method Quote(isBuy: bool, price: real, qty: real) returns (trades: seq<OrderBook.Trade>)
      requires book.Valid() && forall id | id in book.orderIndex :: id <= book.nextId
      modifies `activeOrders, book, OrderBook.OrdersIn(book.orderIndex)
      ensures book.Valid() && forall id | id in book.orderIndex :: id <= book.nextId
      ensures book.nextId == old(book.nextId) + 1 && book.clock == old(book.clock) + 1
              && activeOrders == old(activeOrders) + [book.nextId]
      ensures var o := Incoming(book.nextId, SYSTEM_USER, isBuy, price, qty);
              && book.State() == PlaceLimit(old(book.State()), o, old(book.clock))
              && trades == OrderBook.TradesOf(o, MatchOf(old(book.State()), o).fills)
      ensures forall o | o in OrderBook.OrdersIn(book.orderIndex) ::
                o in old(OrderBook.OrdersIn(book.orderIndex)) || fresh(o)
    {
      hide OrderBook.Consistent, OrderBook.TradesOf, MatchOf, OrderBook.Snaps, OrderBook.Objs;
      OrderBook.RestingIsIndexed(book.bids, book.asks, book.orderIndex, book.State(), book.clock);
      label start:
      var id := book.NextOrderId();
      var order := new OrderBook.Order(id, SYSTEM_USER, isBuy, price, qty);
      OrderBook.BookFramed@start(book);
      var fills, _ := book.PlaceLimit(order);
      trades := fills;
      activeOrders := activeOrders + [id];
    }

    /** Takes every remembered order out of the book. */
    method CancelQuotes()
      requires Valid()
      modifies `activeOrders, book
      ensures Valid() && activeOrders == []
      ensures book.State() == CancelledAll(old(book.State()), old(activeOrders))
      ensures book.nextId == old(book.nextId) && book.clock == old(book.clock)
      ensures OrderBook.SubIndex(book.orderIndex, old(book.orderIndex))
    {
      hide OrderBook.Consistent, BookInv, Remembered, OrderBook.Snaps, OrderBook.Objs;
      ghost var b := book.State();
      assert activeOrders[0..] == activeOrders;
      for i := 0 to |activeOrders|
        invariant book.Valid() && activeOrders == old(activeOrders) && book.nextId == old(book.nextId)
                  && book.clock == old(book.clock)
        invariant book.State() == CancelledAll(b, activeOrders[..i]) && Remembered(book.State(), activeOrders[i..])
        invariant OrderBook.SubIndex(book.orderIndex, old(book.orderIndex))
      {
        OrderBook.RestingIsIndexed(book.bids, book.asks, book.orderIndex, book.State(), book.clock);
        CancelStep(book.State(), book.clock, activeOrders, i);
        CancelOneMore(b, activeOrders, i);
        var _ := book.Cancel(activeOrders[i]);
      }
      assert activeOrders[..|activeOrders|] == activeOrders && activeOrders[|activeOrders|..] == [];
      activeOrders := [];
    }

    /** Quotes every level on both sides. */
    method PlaceLadder(refPrice: Reference) returns (pending: seq<QuoteTrades>)
      requires Valid() && activeOrders == []
      modifies `activeOrders, book, OrderBook.OrdersIn(book.orderIndex)
      ensures Valid() && forall id | id in activeOrders :: id > old(book.nextId)
      ensures book.State() == Quoted(old(book.State()), cfg, refPrice, cfg.levels, old(book.nextId), old(book.clock))
      ensures pending == LadderTrades(old(book.State()), cfg, refPrice, cfg.levels, old(book.nextId), old(book.clock))
      ensures NothingWithItself(pending)
         <==> Alone(old(book.State()), cfg, refPrice, cfg.levels, old(book.nextId), old(book.clock))
      ensures KeepsApart(cfg, refPrice) ==> NothingWithItself(pending)
    {
      hide OrderBook.Consistent, SoFar, Quoted, LadderTrades, Alone, NothingWithItself, Remembered, KeepsApart,
           BidPrice, AskPrice, LevelQty, OrderBook.Snaps, OrderBook.Objs, OrderBook.TradesOf, MatchOf, PlaceLimit;
      ghost var b, id0, now0 := book.State(), book.nextId, book.clock;
      pending := [];
      LadderBegins(b, cfg, refPrice, id0, now0);
      for i := 0 to cfg.levels
        invariant book.Valid() && forall id | id in book.orderIndex :: id <= book.nextId
        invariant book.nextId == id0 + 2 * i && book.clock == now0 + 2 * i
        invariant SoFar(b, cfg, refPrice, i, id0, now0, book.State(), activeOrders, pending)
        invariant forall o | o in OrderBook.OrdersIn(book.orderIndex) ::
                    o in old(OrderBook.OrdersIn(book.orderIndex)) || fresh(o)
      {
        ghost var c, ids, before := book.State(), activeOrders, pending;
        var qty := LevelQty(cfg, i);
        var bidTrades := Quote(true, BidPrice(cfg, refPrice, i), qty);
        if |bidTrades| > 0 {
          pending := pending + [QuoteTrades(bidTrades, true)];
        }
        ghost var d := book.State();
        var askTrades := Quote(false, AskPrice(cfg, refPrice, i), qty);
        if |askTrades| > 0 {
          pending := pending + [QuoteTrades(askTrades, false)];
        }
        LevelQuoted(b, cfg, refPrice, i, id0, now0, c, d, ids, before, bidTrades, askTrades);
      }
      LadderEnds(b, cfg, refPrice, id0, now0, book.State(), activeOrders, pending);
    }

    /** Keeps its quotes while the price has hardly moved; otherwise cancels them all and quotes anew. */
    method Tick(refPrice: Reference) returns (pending: seq<QuoteTrades>, ghost requoted: bool)
      requires Valid()
      modifies this, book, OrderBook.OrdersIn(book.orderIndex)
      ensures Valid()
      ensures var last := old(lastQuotePrice);
              requoted <==> refPrice != 0.0 && (last == 0.0 || !StillNear(cfg.moveThreshold, last, refPrice))
      ensures !requoted ==> book.State() == old(book.State()) && activeOrders == old(activeOrders) && pending == []
      ensures requoted ==>
                && lastQuotePrice == refPrice
                && book.State() == Quoted(CancelledAll(old(book.State()), old(activeOrders)), cfg, refPrice, cfg.levels,
                                          old(book.nextId), old(book.clock))
                && pending == LadderTrades(CancelledAll(old(book.State()), old(activeOrders)), cfg, refPrice,
                                           cfg.levels, old(book.nextId), old(book.clock))
                && (forall id | id in activeOrders :: id > old(book.nextId))
      ensures requoted ==>
                (NothingWithItself(pending) <==>
                   Alone(CancelledAll(old(book.State()), old(activeOrders)), cfg, refPrice, cfg.levels,
                         old(book.nextId), old(book.clock)))
      ensures KeepsApart(cfg, refPrice) ==> NothingWithItself(pending)
      ensures forall orders | Backed(old(book.State()), orders) :: Backed(book.State(), orders)
    {
      hide Backed, StillNear, HardlyMoved, Quoted, CancelledAll, OrderBook.Consistent, Remembered, NotBothSides,
           KeepsApart, LadderTrades, Alone, OrderBook.Snaps, OrderBook.Objs;
      pending, requoted := [], false;
      if refPrice == 0.0 {
        return;
      }
      if lastQuotePrice != 0.0 {
        HardlyMovedIsNear(cfg.moveThreshold, lastQuotePrice, refPrice);
        if HardlyMoved(cfg.moveThreshold, lastQuotePrice, refPrice) {
          return;
        }
      }
      requoted := true;
      ghost var b, ids, id, now := book.State(), activeOrders, book.nextId, book.clock;
      forall orders | Backed(b, orders)
        ensures Backed(Quoted(CancelledAll(b, ids), cfg, refPrice, cfg.levels, id, now), orders)
      {
        CancellingKeepsBacked(b, ids, orders);
        QuotingKeepsBacked(CancelledAll(b, ids), cfg, refPrice, cfg.levels, id, now, orders);
      }
      CancelQuotes();
      pending := PlaceLadder(refPrice);
      lastQuotePrice := refPrice;
    }
  }

  lemma CancelOneMore(b: BookState, ids: seq<int>, i: nat)
    requires i < |ids|
    ensures CancelledAll(b, ids[..i + 1]) == Cancel(CancelledAll(b, ids[..i]), ids[i])
  {
    assert ids[..i + 1][..i] == ids[..i];
  }

  lemma QuotedOneMore(b: BookState, cfg: Config, refPrice: real, i: nat, id: int, now: int)
    ensures Quoted(b, cfg, refPrice, i + 1, id, now)
            == PlaceLimit(PlaceLimit(Quoted(b, cfg, refPrice, i, id, now), Bid(cfg, refPrice, i, id + 2 * i + 1),
                                     now + 2 * i),
                          Ask(cfg, refPrice, i, id + 2 * i + 2), now + 2 * i + 1)
  {
  }

  lemma LadderTradesOneMore(b: BookState, cfg: Config, refPrice: real, i: nat, id: int, now: int)
    ensures var c := Quoted(b, cfg, refPrice, i, id, now);
            var bid, ask := Bid(cfg, refPrice, i, id + 2 * i + 1), Ask(cfg, refPrice, i, id + 2 * i + 2);
            LadderTrades(b, cfg, refPrice, i + 1, id, now)
            == WithQuote(WithQuote(LadderTrades(b, cfg, refPrice, i, id, now),
                                   OrderBook.TradesOf(bid, MatchOf(c, bid).fills), true),
                         OrderBook.TradesOf(ask, MatchOf(PlaceLimit(c, bid, now + 2 * i), ask).fills), false)
  {
  }

  lemma NothingOwn(b: BookState, bid: real, ask: real)
    requires Remembered(b, [])
    ensures OwnQuotes(b, Among([]), bid, ask) && NoneOwn(b)
  {
  }

  lemma OwnAreRemembered(b: BookState, ids: seq<int>, bid: real, ask: real)
    requires OwnQuotes(b, Among(ids), bid, ask)
    ensures Remembered(b, ids)
  {
  }

  lemma OneMorePending(pending: seq<QuoteTrades>, trades: seq<OrderBook.Trade>, isBuy: bool)
    ensures NothingWithItself(pending + [QuoteTrades(trades, isBuy)]) <==>
            NothingWithItself(pending) && NotBothSides(trades)
    ensures trades == [] ==> NotBothSides(trades)
  {
    var all := pending + [QuoteTrades(trades, isBuy)];
    assert all[|pending|] in all && forall t | t in pending :: t in all;
  }

  lemma AloneOneMore(b: BookState, cfg: Config, refPrice: real, i: nat, id: int, now: int)
    ensures var c := Quoted(b, cfg, refPrice, i, id, now);
            var bid, ask := Bid(cfg, refPrice, i, id + 2 * i + 1), Ask(cfg, refPrice, i, id + 2 * i + 2);
            Alone(b, cfg, refPrice, i + 1, id, now) <==>
              Alone(b, cfg, refPrice, i, id, now) && OthersOnly(MatchOf(c, bid).fills)
              && OthersOnly(MatchOf(PlaceLimit(c, bid, now + 2 * i), ask).fills)
  {
    hide OthersOnly, MatchOf, PlaceLimit;
  }

  /** After i levels: the book, the remembered ids and the trades so far are those of the ladder. */
  ghost predicate SoFar(b: BookState, cfg: Config, refPrice: real, i: nat, id: int, now: int, c: BookState,
                        ids: seq<int>,
                        pending: seq<QuoteTrades>) {
    && c == Quoted(b, cfg, refPrice, i, id, now)
    && OwnQuotes(c, Among(ids), BidPrice(cfg, refPrice, 0), AskPrice(cfg, refPrice, 0))
    && (forall x | x in ids :: x > id)
    && pending == LadderTrades(b, cfg, refPrice, i, id, now)
    && (NothingWithItself(pending) <==> Alone(b, cfg, refPrice, i, id, now))
  }

  lemma LadderBegins(b: BookState, cfg: Config, refPrice: real, id: int, now: int)
    requires Remembered(b, [])
    ensures SoFar(b, cfg, refPrice, 0, id, now, b, [], [])
  {
    hide BidPrice, AskPrice;
    NothingOwn(b, BidPrice(cfg, refPrice, 0), AskPrice(cfg, refPrice, 0));
  }

  lemma LadderEnds(b: BookState, cfg: Config, refPrice: Reference, id: int, now: int, c: BookState, ids: seq<int>,
                   pending: seq<QuoteTrades>)
    requires SoFar(b, cfg, refPrice, cfg.levels, id, now, c, ids, pending) && Remembered(b, [])
    ensures Remembered(c, ids) && c == Quoted(b, cfg, refPrice, cfg.levels, id, now) && forall x | x in ids :: x > id
    ensures pending == LadderTrades(b, cfg, refPrice, cfg.levels, id, now)
    ensures NothingWithItself(pending) <==> Alone(b, cfg, refPrice, cfg.levels, id, now)
    ensures KeepsApart(cfg, refPrice) ==> NothingWithItself(pending)
  {
    hide BidPrice, AskPrice, Quoted, LadderTrades, Alone, NothingWithItself, KeepsApart, OwnQuotes;
    NothingOwn(b, BidPrice(cfg, refPrice, 0), AskPrice(cfg, refPrice, 0));
    OwnAreRemembered(c, ids, BidPrice(cfg, refPrice, 0), AskPrice(cfg, refPrice, 0));
    if KeepsApart(cfg, refPrice) {
      ApartIsAlone(b, cfg, refPrice, cfg.levels, id, now, (x: int) => true);
    }
  }

  /** One level more: a bid from c to d, then an ask. */
  lemma LevelQuoted(b: BookState, cfg: Config, refPrice: Reference, i: nat, id: int, now: int, c: BookState,
                    d: BookState, ids: seq<int>, pending: seq<QuoteTrades>, bidTrades: seq<OrderBook.Trade>,
                    askTrades: seq<OrderBook.Trade>)
    requires SoFar(b, cfg, refPrice, i, id, now, c, ids, pending)
    requires var bid := Bid(cfg, refPrice, i, id + 2 * i + 1);
             d == PlaceLimit(c, bid, now + 2 * i) && bidTrades == OrderBook.TradesOf(bid, MatchOf(c, bid).fills)
    requires askTrades == OrderBook.TradesOf(Ask(cfg, refPrice, i, id + 2 * i + 2),
                                             MatchOf(d, Ask(cfg, refPrice, i, id + 2 * i + 2)).fills)
    ensures var first := WithQuote(pending, bidTrades, true);
            var all := WithQuote(first, askTrades, false);
            SoFar(b, cfg, refPrice, i + 1, id, now,
                  PlaceLimit(d, Ask(cfg, refPrice, i, id + 2 * i + 2), now + 2 * i + 1),
                  ids + [id + 2 * i + 1] + [id + 2 * i + 2], all)
  {
    hide BidPrice, AskPrice, LevelQty, Quoted, LadderTrades, Alone, NothingWithItself, NotBothSides, OthersOnly,
         OwnQuotes, MatchOf, PlaceLimit, OrderBook.TradesOf;
    var low, high := BidPrice(cfg, refPrice, 0), AskPrice(cfg, refPrice, 0);
    var bid, ask := Bid(cfg, refPrice, i, id + 2 * i + 1), Ask(cfg, refPrice, i, id + 2 * i + 2);
    var first := WithQuote(pending, bidTrades, true);
    LadderBounds(cfg, refPrice, i);
    QuotedOneMore(b, cfg, refPrice, i, id, now);
    AloneOneMore(b, cfg, refPrice, i, id, now);
    LadderTradesOneMore(b, cfg, refPrice, i, id, now);
    QuoteKept(c, bid, now + 2 * i, ids, low, high);
    QuoteKept(d, ask, now + 2 * i + 1, ids + [bid.id], low, high);
    OneMorePending(pending, bidTrades, true);
    OneMorePending(first, askTrades, false);
  }

  /** One more quote, remembered last. */
  lemma QuoteKept(b: BookState, o: Incoming, now: int, ids: seq<int>, bid: real, ask: real)
    requires OwnQuotes(b, Among(ids), bid, ask)
    requires o.user == SYSTEM_USER && (if o.isBuy then o.price <= bid else o.price >= ask)
    ensures OwnQuotes(PlaceLimit(b, o, now), Among(ids + [o.id]), bid, ask)
    ensures NotBothSides(OrderBook.TradesOf(o, MatchOf(b, o).fills)) <==> OthersOnly(MatchOf(b, o).fills)
  {
    hide Ladder.Own, PlaceLimit, MatchOf, OthersOnly, NotBothSides;
    MoreIds(b.bids, true, Among(ids), Among(ids + [o.id]), bid, ask);
    MoreIds(b.asks, false, Among(ids), Among(ids + [o.id]), bid, ask);
    QuoteStep(b, o, now, Among(ids + [o.id]), bid, ask);
    TradesWithOthers(o, MatchOf(b, o).fills);
  }
}
