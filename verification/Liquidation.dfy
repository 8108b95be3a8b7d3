/** The liquidation engine: takes positions over past the book and disposes of them on it. */
module Liquidation {
  import opened PositionMath
  import opened Clearance
  import opened Ledger
  import opened Insurance
  import opened TradingEngine
  import opened Disposing
  import opened Backing
  import Conservation
  import OrderBook
  import BookSpec

  const DISPOSAL_INTERVAL := 1000

  class LiquidationEngine {
    const engine: Engine
    const fund: Fund
    /** Milliseconds. */
    var lastDisposal: int

    constructor (engine: Engine, fund: Fund)
      ensures this.engine == engine && this.fund == fund
    {
      this.engine, this.fund, lastDisposal := engine, fund, 0;
    }

    /** Moves an active position from its owner to the liquidation account, past the book. */
    method TakeOver(p: Position, bankruptcyPrice: Price) returns (taken: bool, ghost actions: seq<Action>)
      requires engine.Ready()
      modifies engine.memAccounts, engine.positionCache, engine.settler, engine`nextPosId, engine.book`nextId
      ensures engine.Ready() && engine.book.State() == old(engine.book.State())
      ensures taken <==> p.state.Active?
      ensures !taken ==> engine.Current() == old(engine.Current())
      ensures taken ==>
                var fill := Fill([TakeOverTrade(p, bankruptcyPrice)], p.user, p.leverage, actions);
                Step(engine.rates, old(engine.Current()), fill) == Just(engine.Current())
    {
      hide Healthy, Backed, BookSpec.BookPriced, OrderBook.Consistent, Step;
      actions := [];
      if !p.state.Active? {
        return false, actions;
      }
      label start:
      var _ := engine.book.NextOrderId();
      BookReadyFramed@start(engine);
      actions := engine.TradeAsTaker([TakeOverTrade(p, bankruptcyPrice)], p.user, p.leverage);
      BookReadyFramed@start(engine);
      taken := true;
    }

    /** Places with a limit and cancels what is left. */
    method SendImmediateOrCancel(p: Position, midPrice: Price) returns (trades: seq<GoodTrade>)
      requires engine.BookReady()
      modifies engine.book, OrderBook.OrdersIn(engine.book.orderIndex)
      ensures engine.BookReady()
      ensures var order := DisposalOrder(engine.book.nextId, p, midPrice);
              && engine.book.State() == BookSpec.PlaceMarket(old(engine.book.State()), order)
              && trades == OrderBook.TradesOf(order, BookSpec.MatchOf(old(engine.book.State()), order).fills)
      ensures engine.book.nextId == old(engine.book.nextId) + 1
      ensures OrderBook.SubIndex(engine.book.orderIndex, old(engine.book.orderIndex))
    {
      hide BookSpec.BookPriced, OrderBook.Consistent, BookSpec.MatchOf, OrderBook.TradesOf, BookSpec.BookInv,
           OrderBook.Snaps, OrderBook.Objs;
      ghost var b, now := engine.book.State(), engine.book.clock;
      NextIdIsFresh(engine);
      DisposalLimitIsPrice(midPrice, Flip(p.side));
      var orderId: int, rests: bool;
      orderId, trades, rests := engine.SendLimit(LIQUIDATION_USER, Flip(p.side), DisposalLimit(midPrice, Flip(p.side)),
                                                 DisposeQty(p.qty));
      ImmediateOrCancel(b, DisposalOrder(orderId, p, midPrice), now);
      if rests {
        CancelKeepsPriced(engine.book.State(), orderId);
        var _ := engine.book.Cancel(orderId);
      }
    }

    /** One immediate-or-cancel order for a part of a position that was taken over. */
    method Dispose(p: Position, midPrice: Price) returns (trades: seq<GoodTrade>, ghost actions: seq<Action>)
      requires engine.Ready()
      modifies engine.memAccounts, engine.positionCache, engine.settler, engine`nextPosId, engine.book,
               OrderBook.OrdersIn(engine.book.orderIndex), fund
      ensures engine.Ready()
      ensures var order := DisposalOrder(engine.book.nextId, p, midPrice);
              && engine.book.State() == BookSpec.PlaceMarket(old(engine.book.State()), order)
              && trades == OrderBook.TradesOf(order, BookSpec.MatchOf(old(engine.book.State()), order).fills)
      ensures var fill := Fill(trades, LIQUIDATION_USER, 1, actions);
              if trades == [] then engine.Current() == old(engine.Current())
              else Step(engine.rates, old(engine.Current()), fill) == Just(engine.Current())
      ensures fund.balance == FundAfter(old(fund.balance), p.entry, p.side, trades)
      ensures OrderBook.OrdersIn(engine.book.orderIndex) <= old(OrderBook.OrdersIn(engine.book.orderIndex))
    {
      hide Healthy, Backed, BookSpec.BookPriced, OrderBook.Consistent, BookSpec.MatchOf, OrderBook.TradesOf, Step,
           BookSpec.BookInv, FundAfter, OrderBook.Snaps, OrderBook.Objs, DisposalOrder;
      actions := [];
      ghost var index0 := engine.book.orderIndex;
      MarketKeepsBacked(engine.book.State(), DisposalOrder(engine.book.nextId + 1, p, midPrice), engine.orders);
      trades := SendImmediateOrCancel(p, midPrice);
      FewerOrders(engine.book.orderIndex, index0);
      label matched:
      if |trades| > 0 {
        actions := engine.TradeAsTaker(trades, LIQUIDATION_USER, 1);
        SettleWithFund(p, trades);
      } else {
        NoTradesNoFund(fund.balance, p.entry, p.side);
      }
      BookReadyFramed@matched(engine);
    }

    /** Surplus goes to the fund, a loss comes out of it. */
    method SettleWithFund(p: Position, trades: seq<GoodTrade>)
      modifies fund
      ensures fund.balance == FundAfter(old(fund.balance), p.entry, p.side, trades)
    {
      hide Pnl;
      for i := 0 to |trades|
        invariant fund.balance == FundAfter(old(fund.balance), p.entry, p.side, trades[..i])
      {
        assert trades[..i + 1][..i] == trades[..i];
        var pnl := Pnl(p.entry, trades[i].price, trades[i].quantity, p.side);
        if pnl > 0.0 {
          fund.Contribute(pnl);
        } else {
          var _, _ := fund.Cover(-pnl);
        }
      }
      assert trades[..|trades|] == trades;
    }

    /** Disposes of part of everything the liquidation account holds, not more often than the interval allows. */
    method OnTick(midPrice: Price, now: int) returns (ghost log: seq<Disposal>)
      requires engine.Ready()
      modifies this, engine.memAccounts, engine.positionCache, engine.settler, engine`nextPosId, engine.book,
               OrderBook.OrdersIn(engine.book.orderIndex), fund
      ensures engine.Ready()
      ensures Disposals(engine.rates, log, old(Here()), Here())
      ensures var held := old(engine.positionCache.IdsOf(LIQUIDATION_USER));
              if now < old(lastDisposal) + 1000 || held == {} then
                log == [] && lastDisposal == old(lastDisposal)
              else lastDisposal == now && EachOnce(log, held) && NeverFlipped(log, midPrice, old(Here()), Here())
      ensures forall k | 0 <= k < |log| ::
                log[k].midPrice == midPrice && KeepsToLimit(log[k], midPrice) && MeetsMarket(log[k], midPrice)
      ensures RestsNothing(old(engine.book.State()), LIQUIDATION_USER) ==>
              RestsNothing(engine.book.State(), LIQUIDATION_USER)
      ensures old(fund.balance) >= 0.0 ==> fund.balance >= 0.0
    {
      hide Healthy, Backed, BookSpec.BookPriced, OrderBook.Consistent, RestsNothing, Disposals, NeverFlipped,
           KeepsToLimit, MeetsMarket, BookPositive, Conservation.Linked;
      log := [];
      ghost var first := Here();
      HealthyBook(engine);
      NoDisposals(engine.rates, first);
      if now < lastDisposal + DISPOSAL_INTERVAL {
        return;
      }
      var held := engine.positionCache.IdsOf(LIQUIDATION_USER);
      if held == {} {
        return;
      }
      label start:
      lastDisposal := now;
      BookReadyFramed@start(engine);
      log := DisposeAll(held, midPrice);
      DisposalsAreSafe(engine.rates, log, first, Here());
      TickNeverFlips(engine.rates, log, midPrice, first, Here(), held);
      TickKeepsToLimit(engine.rates, log, midPrice, first, Here());
      TickMeetsMarket(engine.rates, log, midPrice, first, Here());
    }

    /** One disposal for every held position, in any order. */
    method DisposeAll(held: set<int>, midPrice: Price) returns (ghost log: seq<Disposal>)
      requires engine.Ready()
      modifies engine.memAccounts, engine.positionCache, engine.settler, engine`nextPosId, engine.book,
               OrderBook.OrdersIn(engine.book.orderIndex), fund
      ensures engine.Ready() && Disposals(engine.rates, log, old(Here()), Here())
      ensures EachOnce(log, held) && AllAt(log, midPrice)
    {
      hide Healthy, Backed, BookSpec.BookPriced, OrderBook.Consistent, Disposals, Disposed, EachOnce;
      log := [];
      ghost var done: set<int> := {};
      NoRecords();
      NoDisposals(engine.rates, Here());
      var left := held;
      ghost var first, index0 := Here(), OrderBook.OrdersIn(engine.book.orderIndex);
      while exists i :: i in left
        invariant engine.Ready() && OrderBook.OrdersIn(engine.book.orderIndex) <= index0
        invariant Disposals(engine.rates, log, first, Here())
        invariant EachOnce(log, done) && AllAt(log, midPrice)
        invariant forall i :: (i in held <==> i in left || i in done) && !(i in left && i in done)
        decreases |left|
      {
        var id :| id in left;
        left := left - {id};
        var d := DisposeOne(id, midPrice);
        OneMoreDisposal(engine.rates, log, first, d);
        OneMoreRecord(log, done, d);
        log, done := log + [d], done + {id};
      }
      SameRecords(log, done, held);
    }

    /** Looks the position up again: an earlier disposal may have closed it. */
    method DisposeOne(id: int, midPrice: Price) returns (ghost d: Disposal)
      requires engine.Ready()
      modifies engine.memAccounts, engine.positionCache, engine.settler, engine`nextPosId, engine.book,
               OrderBook.OrdersIn(engine.book.orderIndex), fund
      ensures engine.Ready()
              && OrderBook.OrdersIn(engine.book.orderIndex) <= old(OrderBook.OrdersIn(engine.book.orderIndex))
      ensures d.id == id && d.midPrice == midPrice && d.orderId == engine.book.nextId
      ensures d.before == old(Here()) && d.after == Here()
      ensures Disposed(engine.rates, d)
    {
      hide Healthy, Backed, BookSpec.BookPriced, OrderBook.Consistent, Step, FundAfter, DisposalOrder, Disposed,
           BookSpec.PlaceMarket, BookSpec.MatchOf, OrderBook.TradesOf;
      ghost var before := Here();
      ghost var trades: seq<GoodTrade>, actions := [], [];
      if id in engine.positionCache.positions && engine.positionCache.positions[id].user == LIQUIDATION_USER {
        var fills, a := Dispose(engine.positionCache.positions[id], midPrice);
        trades, actions := fills, a;
      }
      d := Disposal(id, midPrice, before, Here(), engine.book.nextId, trades, actions);
      DisposedIs(engine.rates, d);
    }

    /** Everything a disposal touches. */
    ghost function Here(): Place
      reads this, engine, engine.memAccounts, engine.positionCache, engine.settler, engine.book, fund
      reads OrderBook.Objs(engine.book.bids), OrderBook.Objs(engine.book.asks)
    {
      Place(engine.Current(), engine.book.State(), fund.balance)
    }
  }

  lemma FewerOrders(a: map<int, OrderBook.Order>, b: map<int, OrderBook.Order>)
    requires OrderBook.SubIndex(a, b)
    ensures OrderBook.OrdersIn(a) <= OrderBook.OrdersIn(b)
  {
  }

  lemma NoRecords()
    ensures EachOnce([], {})
  {
  }

  lemma SameRecords(log: seq<Disposal>, a: set<int>, b: set<int>)
    requires EachOnce(log, a) && forall i :: i in a <==> i in b
    ensures EachOnce(log, b)
  {
  }

  lemma OneMoreRecord(log: seq<Disposal>, done: set<int>, d: Disposal)
    requires EachOnce(log, done) && d.id !in done
    ensures EachOnce(log + [d], done + {d.id})
  {
    var all := log + [d];
    assert all[|log|] == d && forall k | 0 <= k < |log| :: all[k] == log[k];
  }

  lemma HealthyBook(e: Engine)
    requires e.Ready()
    ensures Conservation.Linked(e.Current()) && BookPositive(e.book.State())
  {
    hide BookSpec.BookPriced, OrderBook.Consistent;
    OrderBook.RestingIsIndexed(e.book.bids, e.book.asks, e.book.orderIndex, e.book.State(), e.book.clock);
  }

  lemma NextIdIsFresh(e: Engine)
    requires e.BookReady()
    ensures BookSpec.BookInv(e.book.State(), e.book.clock) && BookSpec.Fresh(e.book.State(), e.book.nextId + 1)
  {
    hide BookSpec.BookPriced, BookSpec.BookInv, OrderBook.Consistent;
    OrderBook.ConsistentParts(e.book.bids, e.book.asks, e.book.orderIndex, e.book.State(), e.book.clock,
                              e.book.nextId + 1);
  }
}
