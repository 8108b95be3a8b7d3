/** The trading engine: orders meet the book, fills meet the positions, money moves at once in
    memory and later in the database.  Every operation is a step of `Ledger`, and keeps what is
    proved there of all runs. */
module TradingEngine {
  import opened Options
  import opened Clearance
  import opened Ledger
  import opened Conservation
  import opened Margins
  import opened WriteBehind
  import opened Caches
  import opened Backing
  import PositionMath
  import OrderBook
  import BookSpec
  import PriceTime

  /** What every state of every run satisfies. */
  ghost predicate Healthy(r: Rates, s: State) {
    Linked(s) && AllSound(r, s.positions) && BooksRight(r, s)
  }

  lemma UpdateKeepsHealthy(r: Rates, s: State, l: Leg, a: Action)
    requires Healthy(r, s) && Allowed(s.positions, l, a)
    ensures Healthy(r, UpdatePosition(r, s, l, a)) && UpdatePosition(r, s, l, a).orders == s.orders
  {
    hide Linked, AllSound, BooksRight, Allowed, UpdatePosition;
    UpdateKeepsLinked(r, s, l, a);
    UpdateKeepsSound(r, s, l, a);
    UpdateKeepsBooks(r, s, l, a);
  }

  lemma StepKeepsHealthy(r: Rates, s: State, op: Op)
    requires Healthy(r, s) && Step(r, s, op).Just?
    ensures Healthy(r, Step(r, s, op).state)
  {
    hide Linked, AllSound, BooksRight, Step;
    StepMoves(r, s, op, 0.0, Everyone());
    StepKeepsSound(r, s, op);
    StepKeepsBooks(r, s, op);
  }

  // -------------------------------------------------------------- results

  datatype UpdateResult =
    | Failed
    | OpenedPosition(id: int)
    | IncreasedPosition(id: int)
    | ReducedPosition(id: int, closed: ReduceResult)

  datatype OrderError =
    | InvalidSide | InvalidLeverage | MarginTooSmall | InvalidPrice | TooManyPositions | NoPriceAvailable
    | PriceDeviationTooLarge | InsufficientBalance | NoLiquidity | OrderNotPending
    | PositionNotFound | PositionClosing | InvalidCloseQuantity

  datatype Reply = Refused(error: OrderError) | Filled(trades: seq<GoodTrade>) | Resting

  /** Configured bounds for orders. */
  datatype Limits = Limits(maxLeverage: int, minMargin: Qty, maxPositions: int, maxPriceDeviation: Deviation)

  type Deviation = x: real | 0.0 <= x < 1.0

  ghost predicate IdsUsed(index: map<int, OrderBook.Order>, orders: map<int, Ledger.Pending>, nextId: int) {
    (forall id | id in index :: id <= nextId) && forall id | id in orders :: id <= nextId
  }

  function Abs(x: real): real { if x < 0.0 then -x else x }

  /** Why a limit order is refused before anything happens, in the order in which it is looked at. */
  function LimitRefusal(limits: Limits, side: int, leverage: int, margin: real, limitPrice: real, held: nat,
                        currentPrice: Price)
    : Option<OrderError>
  {
    if !PositionMath.IsSide(side) then Some(InvalidSide)
    else if leverage < 1 || leverage > limits.maxLeverage then Some(InvalidLeverage)
    else if margin < limits.minMargin then Some(MarginTooSmall)
    else if limitPrice == 0.0 then Some(InvalidPrice)
    else if held >= limits.maxPositions then Some(TooManyPositions)
    else if currentPrice == 0.0 then Some(NoPriceAvailable)
    else if Abs(limitPrice - currentPrice) / currentPrice > limits.maxPriceDeviation then Some(PriceDeviationTooLarge)
    else None
  }

  function MarketRefusal(r: Rates, limits: Limits, side: int, leverage: int, margin: real, held: nat,
                         currentPrice: Price, balance: real)
    : Option<OrderError>
  {
    if !PositionMath.IsSide(side) then Some(InvalidSide)
    else if leverage < 1 || leverage > limits.maxLeverage then Some(InvalidLeverage)
    else if margin < limits.minMargin then Some(MarginTooSmall)
    else if held >= limits.maxPositions then Some(TooManyPositions)
    else if currentPrice == 0.0 then Some(NoPriceAvailable)
    else if balance < margin + FeeOf(r, margin * leverage as real, false) then Some(InsufficientBalance)
    else None
  }

  /** When a market order gets which answer: the first bound it breaks refuses it, and within all bounds it
      is filled if it can pay margin and taker fee and anybody rests on the other side. */
  ghost predicate MarketAnswer(r: Rates, limits: Limits, side: int, leverage: int, margin: real, held: nat,
                               currentPrice: real, available: real, liquid: bool, reply: Reply) {
    var sided := side == 1 || side == -1;
    var levered := sided && 1 <= leverage <= limits.maxLeverage;
    var margined := levered && margin >= limits.minMargin;
    var roomy := margined && held < limits.maxPositions;
    var priced := roomy && currentPrice > 0.0;
    var funded := priced && margin + margin * leverage as real * r.taker <= available;
    && (reply == Refused(InvalidSide) <==> !sided)
    && (reply == Refused(InvalidLeverage) <==> sided && !levered)
    && (reply == Refused(MarginTooSmall) <==> levered && !margined)
    && (reply == Refused(TooManyPositions) <==> margined && !roomy)
    && (reply == Refused(NoPriceAvailable) <==> roomy && !priced)
    && (reply == Refused(InsufficientBalance) <==> priced && !funded)
    && (reply == Refused(NoLiquidity) <==> funded && !liquid)
    && (reply.Filled? <==> funded && liquid)
  }

  /** When a limit order gets which answer; `known` says whether the user has an account. */
  ghost predicate LimitAnswer(r: Rates, limits: Limits, side: int, leverage: int, margin: real, limitPrice: real,
                              held: nat, currentPrice: real, known: bool, available: real, reply: Reply) {
    var sided := side == 1 || side == -1;
    var levered := sided && 1 <= leverage <= limits.maxLeverage;
    var margined := levered && margin >= limits.minMargin;
    var limited := margined && limitPrice != 0.0;
    var roomy := limited && held < limits.maxPositions;
    var priced := roomy && currentPrice > 0.0;
    var near := priced && currentPrice * (1.0 - limits.maxPriceDeviation) <= limitPrice
                && limitPrice <= currentPrice * (1.0 + limits.maxPriceDeviation);
    var funded := near && known && margin + margin * leverage as real * r.maker <= available;
    && (reply == Refused(InvalidSide) <==> !sided)
    && (reply == Refused(InvalidLeverage) <==> sided && !levered)
    && (reply == Refused(MarginTooSmall) <==> levered && !margined)
    && (reply == Refused(InvalidPrice) <==> margined && !limited)
    && (reply == Refused(TooManyPositions) <==> limited && !roomy)
    && (reply == Refused(NoPriceAvailable) <==> roomy && !priced)
    && (reply == Refused(PriceDeviationTooLarge) <==> priced && !near)
    && (reply == Refused(InsufficientBalance) <==> near && !funded)
    && (!reply.Refused? <==> funded)
  }

  /** The order a limit request becomes, in the request's own terms. */
  ghost predicate IsOrderFor(o: Ledger.Pending, user: int, side: int, leverage: int, margin: real, limitPrice: real) {
    && o.user == user && o.side == side && o.leverage == leverage && o.price == limitPrice && o.marginCost == margin
    && o.qty * limitPrice == margin * leverage as real
  }

  lemma MarketIsAnswered(r: Rates, limits: Limits, side: int, leverage: int, margin: real, held: nat,
                         currentPrice: Price, available: real, b: BookSpec.BookState, reply: Reply)
    requires var refusal := MarketRefusal(r, limits, side, leverage, margin, held, currentPrice, available);
             if refusal.Some? then reply == Refused(refusal.value)
             else if Illiquid(b, side, margin * leverage as real / currentPrice) then reply == Refused(NoLiquidity)
             else reply.Filled?
    ensures MarketAnswer(r, limits, side, leverage, margin, held, currentPrice, available,
                         BookSpec.Opposite(b, side == 1) != [], reply)
  {
    if MarketRefusal(r, limits, side, leverage, margin, held, currentPrice, available).None? {
      assert margin * leverage as real > 0.0;
      assert margin * leverage as real / currentPrice > 0.0;
    }
  }

  lemma LimitIsAnswered(r: Rates, limits: Limits, side: int, leverage: int, margin: real, limitPrice: real, held: nat,
                        currentPrice: Price, a: Accounts, user: int, o: Ledger.Pending, reply: Reply)
    requires var refusal := LimitRefusal(limits, side, leverage, margin, limitPrice, held, currentPrice);
             if refusal.Some? then reply == Refused(refusal.value)
             else IsOrderFor(o, user, side, leverage, margin, limitPrice)
                  && if CanPay(a, user, Hold(r, o)) then !reply.Refused? else reply == Refused(InsufficientBalance)
    ensures LimitAnswer(r, limits, side, leverage, margin, limitPrice, held, currentPrice, user in a,
                        Available(a, user), reply)
  {
    hide Abs;
    if currentPrice > 0.0 {
      DeviationIs(limitPrice, currentPrice, limits.maxPriceDeviation);
    }
  }

  lemma DeviationIs(x: real, y: real, d: Deviation)
    requires y > 0.0
    ensures Abs(x - y) / y > d <==> !(y * (1.0 - d) <= x && x <= y * (1.0 + d))
  {
    var q := Abs(x - y) / y;
    assert q * y == Abs(x - y);
    if q > d {
      assert q * y > d * y;
    } else {
      assert q * y <= d * y;
    }
  }

  lemma OrderIsFor(limits: Limits, user: int, side: int, leverage: int, margin: real, limitPrice: real, held: nat,
                   currentPrice: Price)
    requires LimitRefusal(limits, side, leverage, margin, limitPrice, held, currentPrice).None?
    ensures IsOrderFor(PendingOf(limits, user, side, leverage, margin, limitPrice, held, currentPrice), user, side,
                       leverage, margin, limitPrice)
  {
  }

  lemma MarketAccepted(r: Rates, limits: Limits, side: int, leverage: int, margin: real, held: nat, currentPrice: Price,
                       balance: real)
    requires MarketRefusal(r, limits, side, leverage, margin, held, currentPrice, balance).None?
    ensures PositionMath.IsSide(side) && currentPrice > 0.0
  {
  }

  /** A market order's trades are the match of its quantity against the book b, which becomes c. */
  ghost predicate MarketMatched(b: BookSpec.BookState, c: BookSpec.BookState, id: int, user: int, side: Side,
                                quantity: real,
                                trades: seq<GoodTrade>) {
    var incoming := BookSpec.Incoming(id, user, side == 1, 0.0, quantity);
    && c == BookSpec.PlaceMarket(b, incoming)
       && trades == OrderBook.TradesOf(incoming, BookSpec.MatchOf(b, incoming).fills)
    && (trades == [] ==> c == b)
  }

  lemma NoFillsNoChange(b: BookSpec.BookState, o: BookSpec.Incoming)
    ensures BookSpec.MatchOf(b, o).fills == [] ==> BookSpec.PlaceMarket(b, o) == b
    ensures OrderBook.TradesOf(o, BookSpec.MatchOf(b, o).fills) == [] ==> BookSpec.MatchOf(b, o).fills == []
  {
  }

  lemma CancelKeepsPriced(b: BookSpec.BookState, id: int)
    requires BookSpec.BookPriced(b)
    ensures BookSpec.BookPriced(BookSpec.Cancel(b, id))
  {
    BookSpec.RemoveKeepsPriced(b.bids, id);
    BookSpec.RemoveKeepsPriced(b.asks, id);
  }

  lemma BackToActive(s: State, id: int)
    requires id in s.positions && s.positions[id].state == Active
    ensures forall state :: WithPosState(WithPosState(s, id, state), id, Active) == s
  {
    forall state ensures WithPosState(WithPosState(s, id, state), id, Active) == s {
      var t := WithPosState(WithPosState(s, id, state), id, Active);
      assert t.positions == s.positions[id := s.positions[id]];
      assert s.positions[id := s.positions[id]] == s.positions;
    }
  }

  /** A close is its owner's fill while the position is marked. */
  lemma CloseIs(r: Rates, s: State, id: int, state: PosState, trades: seq<GoodTrade>, actions: seq<Action>)
    requires Closable(s, id, state, trades)
    ensures var p := s.positions[id];
            Step(r, s, Close(id, state, trades, actions))
              == Step(r, WithPosState(s, id, state), Fill(trades, p.user, p.leverage, actions))
  {
  }

  /** The order a limit request becomes. */
  function PendingOf(limits: Limits, user: int, side: int, leverage: int, margin: real, limitPrice: real, held: nat,
                     currentPrice: Price): Ledger.Pending
    requires LimitRefusal(limits, side, leverage, margin, limitPrice, held, currentPrice).None?
  {
    AcceptedIsPositive(limits, side, leverage, margin, limitPrice, held, currentPrice);
    Ledger.Pending(user, side, limitPrice, margin * leverage as real / limitPrice, margin, leverage)
  }

  lemma PendingIs(limits: Limits, user: int, side: int, leverage: int, margin: real, limitPrice: real, held: nat,
                  currentPrice: Price)
    requires LimitRefusal(limits, side, leverage, margin, limitPrice, held, currentPrice).None?
    ensures var o := PendingOf(limits, user, side, leverage, margin, limitPrice, held, currentPrice);
            o.user == user && o.side == side && o.price == limitPrice && o.qty > 0.0 && o.leverage == leverage
            && Sized(o)
  {
  }

  /** What an accepted limit order did to the ledger (s to t) and to the book (b to c): only an order
      filled completely at once is traded; one that rests, even if part of it was matched, is frozen
      and recorded in full. */
  ghost predicate LimitPlaced(r: Rates, s: State, t: State, b: BookSpec.BookState, c: BookSpec.BookState, now: int,
                              id: int,
                              o: Ledger.Pending, reply: Reply, actions: seq<Action>) {
    var incoming := BookSpec.Incoming(id, o.user, o.side == 1, o.price, o.qty);
    var m := BookSpec.MatchOf(b, incoming);
    && CanPay(s.accounts, o.user, Hold(r, o)) && c == BookSpec.PlaceLimit(b, incoming, now)
    && (reply.Filled? <==> m.fills != [] && m.left <= 0.0)
    && match reply
       case Refused(_) => false
       case Filled(trades) => trades == OrderBook.TradesOf(incoming, m.fills)
         && FillLimit(r, s, o, trades, actions) == Just(t)
       case Resting => t == RestOrder(r, s, id, o)
  }

  lemma LimitPlacedIs(r: Rates, s: State, t: State, b: BookSpec.BookState, c: BookSpec.BookState, now: int, id: int,
                      o: Ledger.Pending, reply: Reply, actions: seq<Action>)
    requires var incoming := BookSpec.Incoming(id, o.user, o.side == 1, o.price, o.qty);
             var m := BookSpec.MatchOf(b, incoming);
             && CanPay(s.accounts, o.user, Hold(r, o)) && c == BookSpec.PlaceLimit(b, incoming, now)
             && !reply.Refused? && (reply.Filled? <==> |m.fills| > 0 && m.left <= 0.0)
             && (reply.Filled? ==>
                   && reply.trades == OrderBook.TradesOf(incoming, m.fills)
                   && FillLimit(r, s, o, reply.trades, actions) == Just(t))
    requires reply.Resting? ==> t == RestOrder(r, s, id, o)
    ensures LimitPlaced(r, s, t, b, c, now, id, o, reply, actions)
  {
  }

  lemma {:induction false} LegsKeepAccounts(r: Rates, s: State, legs: seq<Leg>, actions: seq<Action>)
    requires ApplyLegs(r, s, legs, actions).Just?
    ensures forall u :: u in s.accounts <==> u in ApplyLegs(r, s, legs, actions).state.accounts
  {
    hide CalcOpen, CalcIncrease, CalcReduce;
    if legs == [] {
    } else {
      LegsKeepAccounts(r, s, legs[..|legs| - 1], actions[..|legs| - 1]);
    }
  }

  /** A limit order that rests freezes its margin and the maker fee on its value; one that is filled
      leaves nothing frozen behind. */
  lemma FrozenByOrder(r: Rates, s: State, t: State, b: BookSpec.BookState, c: BookSpec.BookState, now: int, id: int,
                      o: Ledger.Pending, reply: Reply, actions: seq<Action>)
    requires LimitPlaced(r, s, t, b, c, now, id, o, reply, actions) && Healthy(r, s) && Healthy(r, t)
    requires reply.Filled? ==> t.orders == s.orders
    ensures o.user in s.accounts && o.user in t.accounts
    ensures t.accounts[o.user].frozen == s.accounts[o.user].frozen
            + if reply.Resting? then o.marginCost + o.marginCost * o.leverage as real * r.maker else 0.0
  {
    hide Linked, AllSound, Holds, ApplyLegs;
    if reply.Filled? {
      var u := Announce(s.(accounts := Unfreeze(Freeze(s.accounts, o.user, Hold(r, o)), o.user, Hold(r, o))), o.user);
      LegsKeepAccounts(r, u, LegsOf(u.orders, reply.trades, o.user, o.leverage), actions);
    }
  }

  /** What is let through has a positive price and size. */
  lemma AcceptedIsPositive(limits: Limits, side: int, leverage: int, margin: real, limitPrice: real, held: nat,
                           currentPrice: Price)
    requires LimitRefusal(limits, side, leverage, margin, limitPrice, held, currentPrice).None?
    ensures PositionMath.IsSide(side) && leverage >= 1 && margin > 0.0 && limitPrice > 0.0
    ensures margin * leverage as real / limitPrice > 0.0
  {
  }

  lemma MatchedKeepsBacked(b: BookSpec.BookState, c: BookSpec.BookState, id: int, user: int, side: Side, quantity: real,
                           trades: seq<GoodTrade>, orders: map<int, Ledger.Pending>)
    requires MarketMatched(b, c, id, user, side, quantity, trades) && Backed(b, orders)
    ensures Backed(c, orders)
  {
    hide Backed;
    MarketKeepsBacked(b, BookSpec.Incoming(id, user, side == 1, 0.0, quantity), orders);
  }

  /** Nobody rests on the other side, or there is nothing to trade. */
  predicate Illiquid(b: BookSpec.BookState, side: Side, quantity: real) {
    BookSpec.Opposite(b, side == 1) == [] || quantity <= 0.0
  }

  /** A market order has no limit: it trades whenever anybody rests on the other side. */
  lemma NoLiquidityIff(b: BookSpec.BookState, c: BookSpec.BookState, id: int, user: int, side: Side, quantity: real,
                       trades: seq<GoodTrade>)
    requires MarketMatched(b, c, id, user, side, quantity, trades)
    ensures trades == [] <==> Illiquid(b, side, quantity)
    ensures trades == [] ==> c == b
  {
    NoFillsNoChange(b, BookSpec.Incoming(id, user, side == 1, 0.0, quantity));
  }

  lemma PlacedKeepsBacked(r: Rates, s: State, t: State, b: BookSpec.BookState, c: BookSpec.BookState, now: int, id: int,
                          o: Ledger.Pending, reply: Reply, actions: seq<Action>)
    requires LimitPlaced(r, s, t, b, c, now, id, o, reply, actions) && Backed(b, s.orders) && Sized(o)
    requires BookSpec.BookInv(b, now) && id !in s.orders
    requires t.orders == if reply.Filled? then s.orders else s.orders[id := o]
    ensures Backed(c, t.orders)
  {
    hide Backed, Sized;
    LimitKeepsBacked(b, o, id, now, s.orders);
  }

  lemma FillsMakeGoodTrades(o: BookSpec.Incoming, fills: seq<PriceTime.Fill>)
    requires BookSpec.FillsGood(fills)
    ensures |OrderBook.TradesOf(o, fills)| == |fills|
    ensures forall t | t in OrderBook.TradesOf(o, fills) :: t.quantity > 0.0 && t.price >= 0.0
  {
  }

  class Engine {
    const rates: Rates
    const memAccounts: AccountCache
    const positionCache: PositionCache
    const settler: Settler
    const book: OrderBook.Book
    const limits: Limits
    var orders: map<int, Ledger.Pending>
    var nextPosId: int

    ghost function Current(): State
      reads this, memAccounts, positionCache, settler
    {
      Ledger.State.State(memAccounts.accounts, positionCache.positions, orders, nextPosId, settler.events, settler.db)
    }

    ghost predicate Valid()
      reads this, memAccounts, positionCache, settler
    {
      positionCache.Valid() && Healthy(rates, Current())
    }

    /** The book's ids are used up to its counter, its orders have prices, and those of registered users
        are pending. */
    ghost predicate Ready()
      reads this, memAccounts, positionCache, settler, book, OrderBook.Objs(book.bids), OrderBook.Objs(book.asks)
    {
      Valid() && BookReady() && Backed(book.State(), orders)
    }

    constructor (rates: Rates, limits: Limits, rows: Accounts)
      ensures Ready() && this.rates == rates && this.limits == limits
      ensures Valid() && Current() == Ledger.State.State(map[], map[], map[], 100000, [], rows)
    {
      hide Backed, Healthy, OrderBook.Consistent;
      NothingYet(rates, rows);
      this.rates, this.limits := rates, limits;
      book := new OrderBook.Book();
      memAccounts := new AccountCache();
      positionCache := new PositionCache();
      settler := new Settler(rows);
      orders, nextPosId := map[], 100000;
    }

    /** A new account: a registered user's from its row, or a system user's. */
    method LoadAccount(user: int, balance: real)
      requires Valid() && Unknown(Current(), user)
      modifies memAccounts, settler
      ensures Valid() && Step(rates, old(Current()), Op.LoadAccount(user, balance)) == Just(Current())
    {
      hide Healthy;
      StepKeepsHealthy(rates, Current(), Op.LoadAccount(user, balance));
      if user > 0 {
        settler.Insert(user, balance);
      }
      memAccounts.Load(user, balance, 0.0);
    }

    method HandleOpen(l: Leg) returns (result: UpdateResult)
      requires Valid()
      modifies memAccounts, positionCache, settler, `nextPosId
      ensures positionCache.Valid() && Current() == Ledger.HandleOpen(rates, old(Current()), l)
      ensures result.Failed? <==> !CanPay(old(memAccounts.accounts), l.user, Opened(rates, l).totalCost)
    {
      hide Healthy;
      FreshPositionId(rates, Current());
      var leverage := if l.leverage <= 0 then 1 else l.leverage;
      var c := CalcOpen(rates, l.price, l.qty, leverage, l.side, l.isMaker);
      var ok := memAccounts.Deduct(l.user, c.totalCost);
      if !ok {
        return Failed;
      }
      nextPosId := nextPosId + 1;
      positionCache.Add(Position(nextPosId, l.user, l.side, leverage, l.price, l.qty, c.margin, c.liqPrice,
                                 c.forceTpPrice,
                                 0.0, Active));
      if l.user > 0 {
        settler.Submit(Event(TradeEvent, l.user, -c.totalCost, 0.0));
      }
      result := OpenedPosition(nextPosId);
    }

    method HandleIncrease(l: Leg, id: int) returns (result: UpdateResult)
      requires Valid() && id in positionCache.positions && Growable(positionCache.positions[id], l.user, l.side)
      modifies memAccounts, positionCache, settler
      ensures positionCache.Valid() && Current() == Ledger.HandleIncrease(rates, old(Current()), l, id)
      ensures result.Failed? <==> !CanPay(old(memAccounts.accounts), l.user,
                                          Increased(rates, old(positionCache.positions)[id], l).addMargin)
    {
      hide Healthy, CalcIncrease;
      var p := positionCache.positions[id];
      assert p.id == id;
      var c := CalcIncrease(rates, p.entry, p.qty, p.margin, p.leverage, p.side, l.qty, l.price);
      var ok := memAccounts.Deduct(l.user, c.addMargin);
      if !ok {
        return Failed;
      }
      positionCache.Update(id, p.(entry := c.newEntry, qty := c.newQty, margin := c.newMargin,
                                  liqPrice := c.liqPrice, forceTpPrice := c.forceTpPrice));
      if l.user > 0 {
        settler.Submit(Event(TradeEvent, l.user, -c.addMargin, 0.0));
      }
      result := IncreasedPosition(id);
    }

    method HandleReduce(l: Leg, id: int) returns (result: UpdateResult)
      requires Valid() && id in positionCache.positions && Reducible(positionCache.positions[id], l.user, l.side)
      modifies memAccounts, positionCache, settler, `nextPosId
      ensures positionCache.Valid() && Current() == Ledger.HandleReduce(rates, old(Current()), l, id)
      ensures result == ReducedPosition(id, Reduced(rates, old(positionCache.positions)[id], l))
    {
      hide Healthy, CalcReduce, Ledger.HandleOpen;
      ghost var s := Current();
      var p := positionCache.positions[id];
      assert p.id == id;
      ReduceCases(rates, p, l);
      var c := CalcReduce(rates, p.entry, l.price, p.qty, p.margin, p.funding, p.leverage, p.side, l.qty);
      RemainQtyPositive(rates, p, l);
      memAccounts.ReturnMarginWithPnl(l.user, c.closeMargin, c.netPnl);
      if c.isFullClose {
        positionCache.Remove(id);
      } else {
        positionCache.Update(id, p.(qty := c.remainQty, margin := c.remainMargin, funding := c.remainFunding,
                                    liqPrice := c.remainLiqPrice, forceTpPrice := c.remainFtpPrice, state := Active));
      }
      if l.user > 0 {
        settler.Submit(Event(TradeEvent, l.user, c.closeMargin + c.netPnl, 0.0));
      }
      assert Current() == ReducePart(rates, s, l, id);
      var remaining := l.qty - p.qty;
      if remaining > 0.0 {
        ReducePartKeepsHealthy(rates, s, l, id);
        var _ := HandleOpen(l.(qty := remaining, isMaker := false));
      }
      result := ReducedPosition(id, c);
    }

    /** One leg of a fill: reduces an opposite position, adds to one of the same side, or opens one. */
    method UpdatePosition(l: Leg) returns (result: UpdateResult, ghost a: Action)
      requires Valid()
      modifies memAccounts, positionCache, settler, `nextPosId
      ensures Valid() && Allowed(old(positionCache.positions), l, a)
      ensures Current() == Ledger.UpdatePosition(rates, old(Current()), l, a)
      ensures result.Failed? <==> !a.Reduce? && !Affordable(rates, old(Current()), l, a)
    {
      hide Healthy, AnyReducible, AnyGrowable, Ledger.HandleOpen, Ledger.HandleReduce, Ledger.HandleIncrease;
      ghost var s := Current();
      var opposite, id := positionCache.FindOpposite(l.user, l.side);
      var sameDir, id' := positionCache.FindSameDir(l.user, l.side);
      a := if opposite then Reduce(id) else if sameDir then Increase(id') else Open;
      UpdateKeepsHealthy(rates, s, l, a);
      if opposite {
        result := HandleReduce(l, id);
      } else if sameDir {
        result := HandleIncrease(l, id');
      } else {
        result := HandleOpen(l);
      }
    }

    /** Both sides of every trade; the buyer comes first. */
    method ProcessTrades(trades: seq<GoodTrade>, taker: int, takerLeverage: int) returns (ghost actions: seq<Action>)
      requires Valid()
      modifies memAccounts, positionCache, settler, `nextPosId
      ensures Valid()
      ensures Ledger.ProcessTrades(rates, old(Current()), trades, taker, takerLeverage, actions) == Just(Current())
    {
      hide Healthy, Ledger.ProcessTrades, Ledger.UpdatePosition, Allowed;
      ghost var s := Current();
      actions := [];
      NoTrades(rates, s, taker, takerLeverage);
      for i := 0 to |trades|
        invariant Valid()
        invariant Ledger.ProcessTrades(rates, s, trades[..i], taker, takerLeverage, actions) == Just(Current())
      {
        ghost var t := Current();
        var buy := BuyLeg(orders, trades[i], taker, takerLeverage);
        var sell := SellLeg(orders, trades[i], taker, takerLeverage);
        var _, a := UpdatePosition(buy);
        ghost var u := Current();
        var _, b := UpdatePosition(sell);
        OneMoreTrade(rates, s, t, u, trades, i, taker, takerLeverage, actions, a, b);
        actions := actions + [a, b];
      }
      assert trades[..|trades|] == trades;
    }

    /** A reduction forced on a counterparty; nobody takes the other side. */
    method Deleverage(l: Leg) returns (result: UpdateResult, ghost a: Action)
      requires Valid()
      modifies memAccounts, positionCache, settler, `nextPosId
      ensures Valid()
      ensures Step(rates, old(Current()), Op.Deleverage(l, a)) == Just(Current())
    {
      hide Healthy, Ledger.UpdatePosition, Allowed;
      AnnounceKeepsHealthy(rates, Current(), l.user);
      settler.Submit(Event(CreateOrderEvent, l.user, 0.0, 0.0));
      result, a := UpdatePosition(l);
    }

    /** The settler's worker takes one event. */
    method SettleOne()
      requires Valid()
      modifies settler
      ensures Valid() && Step(rates, old(Current()), Op.SettleOne) == Just(Current())
    {
      hide Healthy;
      StepKeepsHealthy(rates, Current(), Op.SettleOne);
      settler.ProcessNext();
    }

    ghost predicate BookReady()
      reads this, book, OrderBook.Objs(book.bids), OrderBook.Objs(book.asks)
    {
      book.Valid() && BookSpec.BookPriced(book.State()) && IdsUsed(book.orderIndex, orders, book.nextId)
    }

    /** Hands a new limit order to the book. */
    method SendLimit(user: int, side: Side, price: Price, quantity: Qty)
      returns (orderId: int, trades: seq<GoodTrade>, rests: bool)
      requires BookReady()
      modifies book, OrderBook.OrdersIn(book.orderIndex)
      ensures BookReady() && orderId == book.nextId == old(book.nextId) + 1
      ensures var incoming := BookSpec.Incoming(orderId, user, side == 1, price, quantity);
              var m := BookSpec.MatchOf(old(book.State()), incoming);
              && book.State() == BookSpec.PlaceLimit(old(book.State()), incoming, old(book.clock))
              && trades == OrderBook.TradesOf(incoming, m.fills) && |trades| == |m.fills| && (rests <==> m.left > 0.0)
      ensures forall id | id in book.orderIndex ::
                || (id in old(book.orderIndex) && book.orderIndex[id] == old(book.orderIndex)[id])
                || (rests && id == orderId)
    {
      hide BookSpec.BookPriced, BookSpec.BookInv, OrderBook.Consistent, OrderBook.TradesOf, BookSpec.MatchOf,
           OrderBook.Snaps, OrderBook.Objs;
      OrderBook.RestingIsIndexed(book.bids, book.asks, book.orderIndex, book.State(), book.clock);
      ghost var b, now := book.State(), book.clock;
      label start:
      orderId := book.NextOrderId();
      var order := new OrderBook.Order(orderId, user, side == 1, price, quantity);
      OrderBook.BookFramed@start(book);
      ghost var incoming := order.AsIncoming();
      BookSpec.PlacingKeepsPriced(b, incoming, now);
      var obTrades, remaining := book.PlaceLimit(order);
      FillsMakeGoodTrades(incoming, BookSpec.MatchOf(b, incoming).fills);
      trades := obTrades;
      rests := remaining != null;
    }

    /** An order that crossed the spread: the freeze is released and the fills are paid for. */
    method FillAtOnce(o: Ledger.Pending, trades: seq<GoodTrade>, ghost s: State) returns (ghost actions: seq<Action>)
      requires positionCache.Valid() && Healthy(rates, s) && CanPay(s.accounts, o.user, Hold(rates, o))
      requires Current() == s.(accounts := Freeze(s.accounts, o.user, Hold(rates, o)))
      modifies memAccounts, positionCache, settler, `nextPosId
      ensures Valid() && FillLimit(rates, s, o, trades, actions) == Just(Current())
    {
      hide Healthy, HoldOf, FillLimit, Ledger.ProcessTrades;
      memAccounts.Unfreeze(o.user, Hold(rates, o));
      FrozenThenFilled(rates, s, o);
      settler.Submit(Event(CreateOrderEvent, o.user, 0.0, 0.0));
      actions := ProcessTrades(trades, o.user, o.leverage);
      FillLimitIs(rates, s, o, trades, actions);
    }

    /** An order that rests: recorded with its freeze. */
    method RestInBook(orderId: int, o: Ledger.Pending, ghost s: State)
      requires positionCache.Valid() && Healthy(rates, s) && CanPay(s.accounts, o.user, Hold(rates, o))
               && orderId !in orders
      requires Current() == s.(accounts := Freeze(s.accounts, o.user, Hold(rates, o)))
      modifies settler, `orders
      ensures Valid() && Current() == RestOrder(rates, s, orderId, o) && orders == old(orders)[orderId := o]
    {
      hide Healthy, HoldOf;
      RestKeepsHealthy(rates, s, orderId, o);
      var h: real := Hold(rates, o);
      settler.Submit(Event(CreateOrderEvent, o.user, -h, h));
      orders := orders[orderId := o];
    }

    /** An order whose cost is frozen goes to the book, and either trades at once as taker or rests. */
    method MatchFrozen(o: Ledger.Pending, ghost s: State) returns (reply: Reply, ghost actions: seq<Action>)
      requires BookReady() && positionCache.Valid() && Healthy(rates, s) && CanPay(s.accounts, o.user, Hold(rates, o))
      requires Current() == s.(accounts := Freeze(s.accounts, o.user, Hold(rates, o)))
      requires Sized(o) && Backed(book.State(), orders)
      modifies memAccounts, positionCache, settler, `nextPosId, `orders, book, OrderBook.OrdersIn(book.orderIndex)
      ensures Ready() && !reply.Refused? && book.nextId == old(book.nextId) + 1
      ensures reply.Filled? ==> orders == old(orders)
      ensures LimitPlaced(rates, s, Current(), old(book.State()), book.State(), old(book.clock), book.nextId, o, reply,
                          actions)
    {
      hide Healthy, Backed, BookSpec.BookPriced, BookSpec.BookInv, OrderBook.Consistent, OrderBook.TradesOf,
           BookSpec.MatchOf, HoldOf, FillLimit, LimitPlaced, RestOrder, CanPay, Freeze;
      actions := [];
      ghost var b, now := book.State(), book.clock;
      BookInOrder(this);
      var orderId, trades, rests := SendLimit(o.user, o.side, o.price, o.qty);
      label sent:
      if |trades| > 0 && !rests {
        actions := FillAtOnce(o, trades, s);
        reply := Filled(trades);
      } else {
        RestInBook(orderId, o, s);
        reply := Resting;
      }
      BookReadyFramed@sent(this);
      LimitPlacedIs(rates, s, Current(), b, book.State(), now, orderId, o, reply, actions);
      PlacedKeepsBacked(rates, s, Current(), b, book.State(), now, orderId, o, reply, actions);
    }

    /** Freezes the cost, sends the order to the book, and either trades at once as taker or rests. */
    method PlaceLimitOrder(user: int, side: int, leverage: int, margin: real, limitPrice: real, currentPrice: Price)
      returns (reply: Reply, o: Ledger.Pending, ghost actions: seq<Action>)
      requires Ready()
      modifies memAccounts, positionCache, settler, `nextPosId, `orders, book, OrderBook.OrdersIn(book.orderIndex)
      ensures Ready()
      ensures LimitAnswer(rates, limits, side, leverage, margin, limitPrice, |old(positionCache.IdsOf(user))|,
                          currentPrice, user in old(memAccounts.accounts), Available(old(memAccounts.accounts), user),
                          reply)
      ensures !reply.Refused? ==> IsOrderFor(o, user, side, leverage, margin, limitPrice)
      ensures !reply.Refused? ==>
                && user in memAccounts.accounts
                && memAccounts.accounts[user].frozen == old(memAccounts.accounts)[user].frozen
                   + if reply.Resting? then margin + margin * leverage as real * rates.maker else 0.0
      ensures if reply.Refused? then Current() == old(Current()) && book.State() == old(book.State())
              else LimitPlaced(rates, old(Current()), Current(), old(book.State()), book.State(), old(book.clock),
                               book.nextId, o, reply, actions)
      ensures !reply.Refused? ==> book.nextId == old(book.nextId) + 1
    {
      hide Healthy, Backed, BookSpec.BookPriced, BookSpec.BookInv, OrderBook.Consistent, OrderBook.TradesOf,
           BookSpec.MatchOf, LimitRefusal, HoldOf, LimitPlaced, LimitAnswer, PendingOf, CanPay;
      actions := [];
      var held := positionCache.IdsOf(user);
      o := Ledger.Pending(user, 1, 0.0, 0.0, 0.0, 1);
      var refusal := LimitRefusal(limits, side, leverage, margin, limitPrice, |held|, currentPrice);
      if refusal.Some? {
        reply := Refused(refusal.value);
        LimitIsAnswered(rates, limits, side, leverage, margin, limitPrice, |held|, currentPrice, memAccounts.accounts,
                        user, o, reply);
        return;
      }
      o := PendingOf(limits, user, side, leverage, margin, limitPrice, |held|, currentPrice);
      AcceptedIsPositive(limits, side, leverage, margin, limitPrice, |held|, currentPrice);
      PendingIs(limits, user, side, leverage, margin, limitPrice, |held|, currentPrice);
      var totalCost: real := Hold(rates, o);
      ghost var s := Current();
      label start:
      var ok := memAccounts.Freeze(user, totalCost);
      BookReadyFramed@start(this);
      OrderIsFor(limits, user, side, leverage, margin, limitPrice, |held|, currentPrice);
      if ok {
        reply, actions := MatchFrozen(o, s);
        FrozenByOrder(rates, s, Current(), old(book.State()), book.State(), old(book.clock), book.nextId, o, reply,
                      actions);
      } else {
        reply := Refused(InsufficientBalance);
      }
      LimitIsAnswered(rates, limits, side, leverage, margin, limitPrice, |held|, currentPrice, s.accounts, user, o,
                      reply);
    }

    /** Hands a new market order to the book. */
    method SendMarket(user: int, side: Side, quantity: real) returns (orderId: int, trades: seq<GoodTrade>)
      requires BookReady()
      modifies book, OrderBook.OrdersIn(book.orderIndex)
      ensures BookReady() && orderId == book.nextId == old(book.nextId) + 1
      ensures MarketMatched(old(book.State()), book.State(), orderId, user, side, quantity, trades)
    {
      hide BookSpec.BookPriced, BookSpec.BookInv, OrderBook.Consistent, OrderBook.TradesOf, BookSpec.MatchOf,
           OrderBook.Snaps, OrderBook.Objs;
      OrderBook.RestingIsIndexed(book.bids, book.asks, book.orderIndex, book.State(), book.clock);
      ghost var b, now := book.State(), book.clock;
      label start:
      orderId := book.NextOrderId();
      var order := new OrderBook.Order(orderId, user, side == 1, 0.0, quantity);
      OrderBook.BookFramed@start(book);
      ghost var incoming := order.AsIncoming();
      BookSpec.PlacingKeepsPriced(b, incoming, now);
      var obTrades := book.PlaceMarket(order);
      FillsMakeGoodTrades(incoming, BookSpec.MatchOf(b, incoming).fills);
      NoFillsNoChange(b, incoming);
      trades := obTrades.value;
    }

    /** The record of the order, then both sides of its fills. */
    method TradeAsTaker(trades: seq<GoodTrade>, user: int, leverage: int) returns (ghost actions: seq<Action>)
      requires Valid()
      modifies memAccounts, positionCache, settler, `nextPosId
      ensures Valid() && Step(rates, old(Current()), Fill(trades, user, leverage, actions)) == Just(Current())
    {
      hide Healthy, Ledger.ProcessTrades;
      AnnounceKeepsHealthy(rates, Current(), user);
      settler.Submit(Event(CreateOrderEvent, user, 0.0, 0.0));
      actions := ProcessTrades(trades, user, leverage);
    }

    /** Market order: checked against the balance, matched, then both sides of every fill are applied. */
    method PlaceMarketOrder(user: int, side: int, leverage: int, margin: real, currentPrice: Price)
      returns (reply: Reply, ghost actions: seq<Action>)
      requires Ready()
      modifies memAccounts, positionCache, settler, `nextPosId, book, OrderBook.OrdersIn(book.orderIndex)
      ensures Ready() && !reply.Resting? && (reply.Filled? ==> book.nextId == old(book.nextId) + 1)
      ensures MarketAnswer(rates, limits, side, leverage, margin, |old(positionCache.IdsOf(user))|, currentPrice,
                           Available(old(memAccounts.accounts), user),
                           BookSpec.Opposite(old(book.State()), side == 1) != [], reply)
      ensures reply.Refused? ==> Current() == old(Current()) && book.State() == old(book.State())
      ensures reply.Filled? ==>
                && PositionMath.IsSide(side) && currentPrice > 0.0 && reply.trades != []
                && MarketMatched(old(book.State()), book.State(), book.nextId, user, side,
                                 margin * leverage as real / currentPrice, reply.trades)
                && Step(rates, old(Current()), Fill(reply.trades, user, leverage, actions)) == Just(Current())
    {
      hide Healthy, Backed, BookSpec.BookPriced, OrderBook.Consistent, MarketMatched, MarketRefusal, MarketAnswer,
           Illiquid, Step;
      actions := [];
      var held := positionCache.IdsOf(user);
      label start:
      var balance := memAccounts.GetBalance(user);
      BookReadyFramed@start(this);
      var refusal := MarketRefusal(rates, limits, side, leverage, margin, |held|, currentPrice, balance);
      if refusal.Some? {
        reply := Refused(refusal.value);
        MarketIsAnswered(rates, limits, side, leverage, margin, |held|, currentPrice, balance, book.State(), reply);
        return;
      }
      MarketAccepted(rates, limits, side, leverage, margin, |held|, currentPrice, balance);
      var estimatedQty := margin * leverage as real / currentPrice;
      ghost var s, b := Current(), book.State();
      var orderId, trades := SendMarket(user, side, estimatedQty);
      NoLiquidityIff(b, book.State(), orderId, user, side, estimatedQty, trades);
      MatchedKeepsBacked(b, book.State(), orderId, user, side, estimatedQty, trades, orders);
      reply := if |trades| == 0 then Refused(NoLiquidity) else Filled(trades);
      MarketIsAnswered(rates, limits, side, leverage, margin, |held|, currentPrice, balance, b, reply);
      if |trades| == 0 {
        return;
      }
      label sent:
      actions := TradeAsTaker(trades, user, leverage);
      BookReadyFramed@sent(this);
    }

    /** The owner takes a resting order back. */
    method CancelOrder(orderId: int, user: int) returns (reply: Reply)
      requires Ready()
      modifies memAccounts, settler, `orders, book
      ensures Ready() && (reply.Refused? <==> orderId !in old(orders) || old(orders)[orderId].user != user)
      ensures Step(rates, old(Current()), Op.CancelOrder(orderId, user)) == Just(Current())
      ensures book.State() == if reply.Refused? then old(book.State()) else BookSpec.Cancel(old(book.State()), orderId)
    {
      hide Healthy, Backed, BookSpec.BookPriced, BookSpec.BookInv, OrderBook.Consistent, HoldOf, Ledger.Unfreeze;
      if orderId !in orders || orders[orderId].user != user {
        return Refused(OrderNotPending);
      }
      ghost var s, b := Current(), book.State();
      var o := orders[orderId];
      StepKeepsHealthy(rates, s, Op.CancelOrder(orderId, user));
      CancelKeepsPriced(b, orderId);
      BookInOrder(this);
      CancelKeepsBacked(b, orderId, book.clock, orders);
      var _ := book.Cancel(orderId);
      label cancelled:
      var totalFrozen: real := Hold(rates, o);
      memAccounts.Unfreeze(user, totalFrozen);
      orders := orders - {orderId};
      settler.Submit(Event(CancelOrderEvent, user, totalFrozen, -totalFrozen));
      BookReadyFramed@cancelled(this);
      reply := Resting;
    }

    /** Closing by a reverse market order; the position is marked already. */
    method ExecuteClose(positionId: int, p: Position, qty: real) returns (reply: Reply, ghost actions: seq<Action>)
      requires Ready() && positionId in positionCache.positions && positionCache.positions[positionId] == p
      modifies memAccounts, positionCache, settler, `nextPosId, book, OrderBook.OrdersIn(book.orderIndex)
      ensures Ready() && !reply.Resting? && (reply.Filled? ==> book.nextId == old(book.nextId) + 1)
      ensures reply.Refused? <==> Illiquid(old(book.State()), Flip(p.side), qty)
      ensures reply.Refused? ==> reply.error == NoLiquidity && book.State() == old(book.State())
                                 && Current() == WithPosState(old(Current()), positionId, Active)
      ensures reply.Filled? ==>
                && reply.trades != []
                && MarketMatched(old(book.State()), book.State(), book.nextId, p.user, Flip(p.side), qty, reply.trades)
                && Step(rates, old(Current()), Fill(reply.trades, p.user, p.leverage, actions)) == Just(Current())
    {
      hide Healthy, Backed, BookSpec.BookPriced, OrderBook.Consistent, MarketMatched, Illiquid, Ledger.ProcessTrades;
      actions := [];
      ghost var s, b := Current(), book.State();
      var orderId, trades := SendMarket(p.user, Flip(p.side), qty);
      NoLiquidityIff(b, book.State(), orderId, p.user, Flip(p.side), qty, trades);
      MatchedKeepsBacked(b, book.State(), orderId, p.user, Flip(p.side), qty, trades, orders);
      label sent:
      if |trades| == 0 {
        StepKeepsHealthy(rates, s, MarkState(positionId, Active));
        positionCache.Update(positionId, p.(state := Active));
        reply := Refused(NoLiquidity);
      } else {
        actions := TradeAsTaker(trades, p.user, p.leverage);
        reply := Filled(trades);
      }
      BookReadyFramed@sent(this);
    }

    /** The owner closes a position, or part of it when a quantity is given. */
    method ClosePosition(positionId: int, user: int, closeQty: real) returns (reply: Reply, ghost actions: seq<Action>)
      requires Ready()
      modifies memAccounts, positionCache, settler, `nextPosId, book, OrderBook.OrdersIn(book.orderIndex)
      ensures Ready() && !reply.Resting? && (reply.Filled? ==> book.nextId == old(book.nextId) + 1)
      ensures reply.Refused? ==> Current() == old(Current()) && book.State() == old(book.State())
      ensures var ps := old(positionCache.positions);
              && (reply == Refused(PositionNotFound) <==> positionId !in ps || ps[positionId].user != user)
              && (reply == Refused(PositionClosing) <==>
                  positionId in ps && ps[positionId].user == user && !ps[positionId].state.Active?)
              && (reply == Refused(InvalidCloseQuantity) <==>
                  positionId in ps && ps[positionId].user == user && ps[positionId].state.Active?
                                                              && closeQty != 0.0 && closeQty > ps[positionId].qty)
              && (reply == Refused(NoLiquidity) <==>
                  positionId in ps && ps[positionId].user == user && ps[positionId].state.Active?
                    && (closeQty == 0.0 || closeQty <= ps[positionId].qty)
                    && Illiquid(old(book.State()), Flip(ps[positionId].side),
                                if closeQty == 0.0 then ps[positionId].qty else closeQty))
      ensures reply.Refused? ==> reply.error in {PositionNotFound, PositionClosing, InvalidCloseQuantity, NoLiquidity}
      ensures reply.Filled? ==>
                var p := old(positionCache.positions)[positionId];
                && MarketMatched(old(book.State()), book.State(), book.nextId, user, Flip(p.side),
                                 if closeQty == 0.0 then p.qty else closeQty, reply.trades)
                && Step(rates, old(Current()), Op.Close(positionId, Closing, reply.trades, actions)) == Just(Current())
    {
      hide Healthy, Backed, BookSpec.BookPriced, OrderBook.Consistent, MarketMatched, Illiquid, ApplyLegs,
           Ledger.ProcessTrades;
      actions := [];
      if positionId !in positionCache.positions || positionCache.positions[positionId].user != user {
        return Refused(PositionNotFound), actions;
      }
      var p := positionCache.positions[positionId];
      ghost var s := Current();
      label start:
      var ok := positionCache.TrySetState(positionId, Closing);
      BookReadyFramed@start(this);
      if !ok {
        return Refused(PositionClosing), actions;
      }
      StepKeepsHealthy(rates, s, MarkState(positionId, Closing));
      var closing := p.(state := Closing);
      if closeQty != 0.0 && closeQty > p.qty {
        positionCache.Update(positionId, closing.(state := Active));
        BookReadyFramed@start(this);
        BackToActive(s, positionId);
        return Refused(InvalidCloseQuantity), actions;
      }
      var qty := if closeQty != 0.0 then closeQty else p.qty;
      reply, actions := ExecuteClose(positionId, closing, qty);
      BackToActive(s, positionId);
      if reply.Filled? {
        CloseIs(rates, s, positionId, Closing, reply.trades, actions);
      }
    }

    /** The risk engine closes a whole position: take-profit, stop-loss or forced take-profit. */
    method ClosePositionInternal(positionId: int, forceTp: bool) returns (reply: Reply, ghost actions: seq<Action>)
      requires Ready()
      modifies memAccounts, positionCache, settler, `nextPosId, book, OrderBook.OrdersIn(book.orderIndex)
      ensures Ready() && !reply.Resting? && (reply.Filled? ==> book.nextId == old(book.nextId) + 1)
      ensures reply.Refused? ==> Current() == old(Current()) && book.State() == old(book.State())
      ensures var ps := old(positionCache.positions);
              if positionId !in ps || !ps[positionId].state.Active? then reply == Refused(PositionClosing)
              else if Illiquid(old(book.State()), Flip(ps[positionId].side), ps[positionId].qty)
                   then reply == Refused(NoLiquidity) else reply.Filled?
      ensures reply.Filled? ==>
                var p := old(positionCache.positions)[positionId];
                var marked := if forceTp then ForceTPing else Closing;
                && MarketMatched(old(book.State()), book.State(), book.nextId, p.user, Flip(p.side), p.qty,
                                 reply.trades)
                && Step(rates, old(Current()), Op.Close(positionId, marked, reply.trades, actions)) == Just(Current())
    {
      hide Healthy, Backed, BookSpec.BookPriced, OrderBook.Consistent, MarketMatched, Illiquid, ApplyLegs,
           Ledger.ProcessTrades;
      actions := [];
      var marked := if forceTp then ForceTPing else Closing;
      ghost var s := Current();
      label start:
      var ok := positionCache.TrySetState(positionId, marked);
      BookReadyFramed@start(this);
      if !ok {
        return Refused(PositionClosing), actions;
      }
      StepKeepsHealthy(rates, s, MarkState(positionId, marked));
      var p := positionCache.positions[positionId];
      reply, actions := ExecuteClose(positionId, p, p.qty);
      BackToActive(s, positionId);
      if reply.Filled? {
        CloseIs(rates, s, positionId, marked, reply.trades, actions);
      }
    }
  }

  /** The state a new engine starts in. */
  lemma NothingYet(r: Rates, rows: Accounts)
    ensures Healthy(r, Ledger.State.State(map[], map[], map[], 100000, [], rows))
    ensures Backed(BookSpec.BookState([], []), map[]) && BookSpec.BookPriced(BookSpec.BookState([], []))
  {
    NothingToBack();
  }

  lemma BookInOrder(e: Engine)
    requires e.BookReady()
    ensures BookSpec.BookInv(e.book.State(), e.book.clock)
  {
    hide BookSpec.BookPriced, BookSpec.BookInv, OrderBook.Consistent;
    OrderBook.RestingIsIndexed(e.book.bids, e.book.asks, e.book.orderIndex, e.book.State(), e.book.clock);
  }

  /** In every state of the engine, whatever the orders of a registered user that rest in the book may
      cost is frozen in its account. */
  lemma OrdersInBookAreFrozen(e: Engine, user: int)
    requires e.Ready() && user > 0
    ensures var b := e.book.State();
            && (user in e.memAccounts.accounts ==>
                  RestingHolds(e.rates, b.bids + b.asks, e.orders, user) <= e.memAccounts.accounts[user].frozen)
            && forall o | o in b.bids + b.asks && o.user == user ::
                 user in e.memAccounts.accounts && o.id in e.orders && e.orders[o.id].user == user
  {
    hide BookSpec.BookPriced, BookSpec.BookInv, OrderBook.Consistent, RestingHolds, Linked, AllSound;
    var b := e.book.State();
    BookInOrder(e);
    if user in e.memAccounts.accounts {
      RestingIsFrozen(e.rates, e.Current(), b, e.book.clock, user);
    }
    forall o | o in b.bids + b.asks && o.user == user
      ensures user in e.memAccounts.accounts && o.id in e.orders && e.orders[o.id].user == user
    {
      assert IsPending(o, e.orders, 1) || IsPending(o, e.orders, -1);
    }
  }

  /** Memory and settlement are apart from the book. */
  twostate lemma BookReadyFramed(e: Engine)
    requires old(e.BookReady())
    requires e.book.bids == old(e.book.bids) && e.book.asks == old(e.book.asks)
             && e.book.orderIndex == old(e.book.orderIndex)
    requires e.book.clock == old(e.book.clock) && e.book.nextId >= old(e.book.nextId)
    requires forall o | o in old(OrderBook.OrdersIn(e.book.orderIndex)) :: unchanged(o)
    requires forall id | id in e.orders :: id in old(e.orders) || id <= e.book.nextId
    ensures e.BookReady() && e.book.State() == old(e.book.State())
  {
    hide BookSpec.BookPriced, OrderBook.Consistent;
    OrderBook.BookFramed(e.book);
  }

  lemma FreshPositionId(r: Rates, s: State)
    requires Healthy(r, s)
    ensures s.nextPosId + 1 !in s.positions
  {
  }

  lemma RemainQtyPositive(r: Rates, p: Position, l: Leg)
    ensures l.qty < p.qty ==> Reduced(r, p, l).remainQty > 0.0
  {
  }

  lemma ReducePartKeepsHealthy(r: Rates, s: State, l: Leg, id: int)
    requires Healthy(r, s) && id in s.positions && Reducible(s.positions[id], l.user, l.side)
    ensures Healthy(r, ReducePart(r, s, l, id))
  {
    hide BooksRight, CalcReduce, CalcOpen;
    var p := s.positions[id];
    var l' := l.(qty := if l.qty <= p.qty then l.qty else p.qty);
    SamePart(r, s, l, id);
    UpdateKeepsHealthy(r, s, l', Reduce(id));
  }

  /** Whatever exceeds the position does not matter to what is paid for it. */
  lemma SamePart(r: Rates, s: State, l: Leg, id: int)
    requires id in s.positions
    ensures var p := s.positions[id];
            var l' := l.(qty := if l.qty <= p.qty then l.qty else p.qty);
            ReducePart(r, s, l, id) == HandleReduce(r, s, l', id)
  {
    hide CalcReduce, HandleOpen;
    var p := s.positions[id];
    ReducedToSize(r, p, l);
    ReduceCases(r, p, l);
  }

  lemma ReducedToSize(r: Rates, p: Position, l: Leg)
    ensures Reduced(r, p, l) == Reduced(r, p, l.(qty := if l.qty <= p.qty then l.qty else p.qty))
  {
  }

  lemma AnnounceKeepsHealthy(r: Rates, s: State, user: int)
    requires Healthy(r, s)
    ensures Healthy(r, Announce(s, user))
  {
    hide Linked, BooksRight;
    AnnounceKeepsLinked(s, user);
    AnnounceKeepsBooks(r, s, user);
  }

  lemma NoTrades(r: Rates, s: State, taker: int, leverage: int)
    ensures Ledger.ProcessTrades(r, s, [], taker, leverage, []) == Just(s)
  {
  }

  /** Two more legs make one more trade. */
  lemma OneMoreTrade(r: Rates, s: State, t: State, u: State, trades: seq<GoodTrade>, i: nat, taker: int, leverage: int,
                     actions: seq<Action>, a: Action, b: Action)
    requires i < |trades| && Ledger.ProcessTrades(r, s, trades[..i], taker, leverage, actions) == Just(t)
    requires var l := BuyLeg(s.orders, trades[i], taker, leverage);
             Allowed(t.positions, l, a) && u == UpdatePosition(r, t, l, a)
    requires Allowed(u.positions, SellLeg(s.orders, trades[i], taker, leverage), b)
    ensures Ledger.ProcessTrades(r, s, trades[..i + 1], taker, leverage, actions + [a, b])
            == Just(UpdatePosition(r, u, SellLeg(s.orders, trades[i], taker, leverage), b))
  {
    hide UpdatePosition, Allowed, BuyLeg, SellLeg;
    var front := LegsOf(s.orders, trades[..i], taker, leverage);
    var buy, sell := BuyLeg(s.orders, trades[i], taker, leverage), SellLeg(s.orders, trades[i], taker, leverage);
    assert trades[..i + 1][..i] == trades[..i];
    assert LegsOf(s.orders, trades[..i + 1], taker, leverage) == front + [buy, sell];
    LegsAppend(r, s, front, actions, t, buy, a);
    LegsAppend(r, s, front + [buy], actions + [a], u, sell, b);
    assert front + [buy] + [sell] == front + [buy, sell];
    assert actions + [a] + [b] == actions + [a, b];
  }

  lemma LegsAppend(r: Rates, s: State, legs: seq<Leg>, actions: seq<Action>, t: State, l: Leg, a: Action)
    requires ApplyLegs(r, s, legs, actions) == Just(t) && Allowed(t.positions, l, a)
    ensures ApplyLegs(r, s, legs + [l], actions + [a]) == Just(UpdatePosition(r, t, l, a))
  {
  }

  lemma FrozenThenFilled(r: Rates, s: State, o: Ledger.Pending)
    requires Healthy(r, s) && CanPay(s.accounts, o.user, Hold(r, o))
    ensures Unfreeze(Freeze(s.accounts, o.user, Hold(r, o)), o.user, Hold(r, o)) == s.accounts
    ensures Healthy(r, Announce(s, o.user))
  {
    hide HoldOf;
    FreezeUnfreeze(r, s.accounts, s.orders, o.user, Hold(r, o));
    AnnounceKeepsHealthy(r, s, o.user);
  }

  lemma RestKeepsHealthy(r: Rates, s: State, id: int, o: Ledger.Pending)
    requires Healthy(r, s) && id !in s.orders
    ensures Healthy(r, RestOrder(r, s, id, o))
  {
    hide Healthy, HoldOf;
    StepKeepsHealthy(r, s, RestingLimit(id, o));
  }

  lemma FillLimitIs(r: Rates, s: State, o: Ledger.Pending, trades: seq<GoodTrade>, actions: seq<Action>)
    requires Healthy(r, s) && CanPay(s.accounts, o.user, Hold(r, o))
    ensures FillLimit(r, s, o, trades, actions)
            == Ledger.ProcessTrades(r, Announce(s, o.user), trades, o.user, o.leverage, actions)
  {
    hide Healthy, HoldOf, Ledger.ProcessTrades;
    FrozenThenFilled(r, s, o);
  }
}
