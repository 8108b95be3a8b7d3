/** Where an order and what becomes of it part: a resting order whose fill its owner cannot pay for, a limit
    order that is matched in part, and a trade larger than the position it closes. */
module Cases {
  import opened Options
  import opened Clearance
  import opened Ledger
  import opened Conservation
  import opened Holdings
  import opened Backing
  import opened TradingEngine
  import OrderBook
  import BookSpec
  import PriceTime

  const START := State(map[], map[], map[], 100000, [], map[])

  lemma RunGoesOn(r: Rates, s: State, ops: seq<Op>, t: State, op: Op)
    requires Run(r, s, ops) == Just(t)
    ensures Run(r, s, ops + [op]) == Step(r, t, op)
  {
    assert (ops + [op])[..|ops|] == ops;
  }

  // ------------------------------------------------ a maker that cannot pay

  /** The leg of a resting order that is filled completely, at its own price. */
  ghost predicate FillsWhole(o: Pending, l: Leg) {
    && l.user == o.user && l.side == o.side && l.qty == o.qty && l.price == o.price && l.leverage == o.leverage
       && l.isMaker && Sized(o)
  }

  /** Opening the whole of a resting order costs what the order has set aside: not the money set aside,
      but as much again. */
  lemma FillCostsTheHold(r: Rates, o: Pending, l: Leg)
    requires FillsWhole(o, l)
    ensures Opened(r, l).totalCost == Hold(r, o)
  {
  }

  /** The user's side of a trade in which its resting order is the maker. */
  ghost predicate MakerOf(t: GoodTrade, id: int, o: Pending) {
    && t.quantity == o.qty && t.price == o.price
    && (if o.side == 1 then t.buyOrderId == id && t.buyUserId == o.user != t.sellUserId
        else t.sellOrderId == id && t.sellUserId == o.user != t.buyUserId)
  }

  function MakerLeg(o: Pending): Leg
    requires o.qty > 0.0 && o.price >= 0.0
  {
    Leg(o.user, o.side, o.qty, o.price, o.leverage, true)
  }

  /** The user takes part in the k-th trade only. */
  ghost predicate OnlyIn(trades: seq<GoodTrade>, user: int, k: nat) {
    forall j | 0 <= j < |trades| && j != k :: trades[j].buyUserId != user && trades[j].sellUserId != user
  }

  lemma {:induction false} LegOfOnlyTrade(orders: map<int, Pending>, trades: seq<GoodTrade>, taker: int, leverage: int,
                                          k: nat, id: int)
    requires id in orders && orders[id].user != taker && OnlyIn(trades, orders[id].user, k)
    requires k < |trades| ==> MakerOf(trades[k], id, orders[id])
    ensures MyLegs(LegsOf(orders, trades, taker, leverage), orders[id].user)
            == if k < |trades| then [MakerLeg(orders[id])] else []
  {
    if trades == [] {
    } else {
      var n, o := |trades| - 1, orders[id];
      LegOfOnlyTrade(orders, trades[..n], taker, leverage, k, id);
      MyLegsOfTwo(LegsOf(orders, trades[..n], taker, leverage), BuyLeg(orders, trades[n], taker, leverage),
                  SellLeg(orders, trades[n], taker, leverage), o.user);
      assert o.side == 1 || o.side == -1;
    }
  }

  /** A resting order of a user without positions, filled completely in one of a taker's trades while its
      hold stays frozen: the fill is applied exactly when the hold is available a second time, and dropped
      otherwise. */
  lemma MakerIsFilledIff(r: Rates, s: State, trades: seq<GoodTrade>, k: nat, taker: int, leverage: int,
                         actions: seq<Action>, id: int)
    requires Linked(s) && id in s.orders && s.orders[id].user != taker && Flat(s.positions, s.orders[id].user)
    requires k < |trades| && MakerOf(trades[k], id, s.orders[id]) && OnlyIn(trades, s.orders[id].user, k)
    requires Sized(s.orders[id]) && ProcessTrades(r, s, trades, taker, leverage, actions).Just?
    ensures var o, u := s.orders[id], ProcessTrades(r, s, trades, taker, leverage, actions).state;
            HoldsOnly(u.positions, o.user,
                      if Available(s.accounts, o.user) >= Hold(r, o) then Some(OpenedAs(r, ANY, MakerLeg(o))) else None)
  {
    hide Linked, CalcOpen, ApplyLegs, LegsOf, HoldOf, Sized;
    var o := s.orders[id];
    var h, l := Holder(AccountOf(s.accounts, o.user), None), MakerLeg(o);
    LegOfOnlyTrade(s.orders, trades, taker, leverage, k, id);
    LegsProject(r, s, LegsOf(s.orders, trades, taker, leverage), actions, o.user, h);
    AfterOneMore(r, h, [], l);
    assert [] + [l] == [l];
    FillCostsTheHold(r, o, l);
    OrderHasAccount(s, id);
  }

  lemma OrderHasAccount(s: State, id: int)
    requires Linked(s) && id in s.orders
    ensures s.orders[id].user in s.accounts
  {
  }

  // -- the instance: a limit order to buy 1 at 100, then a market order to sell 1

  const LIMIT_ORDER := Pending(1, 1, 100.0, 1.0, 100.0, 1)

  const SALE := OrderBook.Trade(2, 3, 1, 2, 100.0, 1.0)

  function UnpaidOps(): seq<Op> {
    [LoadAccount(1, 150.0), LoadAccount(2, 1000.0), RestingLimit(2, LIMIT_ORDER), Fill([SALE], 2, 1, [Open, Open])]
  }

  /** The two orders do trade that way. */
  lemma SaleIsMatched()
    ensures var b := BookSpec.PlaceLimit(BookSpec.BookState([], []), BookSpec.Incoming(2, 1, true, 100.0, 1.0), 0);
            var o := BookSpec.Incoming(3, 2, false, 0.0, 1.0);
            OrderBook.TradesOf(o, BookSpec.MatchOf(b, o).fills) == [SALE]
  {
    var b := BookSpec.PlaceLimit(BookSpec.BookState([], []), BookSpec.Incoming(2, 1, true, 100.0, 1.0), 0);
    var e := PriceTime.Entry(2, 1, 100.0, 1.0, 0);
    assert b.bids == [e];
    assert b.bids[1..] == [];
    var fills := BookSpec.MatchOf(b, BookSpec.Incoming(3, 2, false, 0.0, 1.0)).fills;
    assert fills == [PriceTime.Fill(e, 1.0)];
    assert fills[1..] == [];
  }

  /** One user with 150 rests a limit order worth 100, another sells to it at the market: the sale is
      applied and the purchase is dropped, and a short is left without a long. */
  lemma OneLimitOneMarketUnbalance(r: Rates)
    requires r.maker <= 0.25 && r.taker <= 1.0
    ensures Run(r, START, UnpaidOps()).Just? && Exposure(Run(r, START, UnpaidOps()).state, Everyone()) == -1.0
  {
    hide Linked, Exposure, CalcOpen, HoldOf;
    var a := Registered(START, 1, 150.0);
    var b := Registered(a, 2, 1000.0);
    var c := RestOrder(r, b, 2, LIMIT_ORDER);
    UnpaidHold(r);
    var s := Announce(c, 2);
    var buy, sell := BuyLeg(s.orders, SALE, 2, 1), SellLeg(s.orders, SALE, 2, 1);
    OpeningCost(r, buy);
    OpeningCost(r, sell);
    FirstThree(r, a, b, c);
    EmptyStart(s);
    assert !Affordable(r, s, buy, Open) && UpdatePosition(r, s, buy, Open) == s && Affordable(r, s, sell, Open);
    TradeBalancesIffBothApply(r, s, buy, sell, Open, Open);
    assert [SALE][..0] == [] && LegsOf(s.orders, [SALE], 2, 1) == [buy, sell];
    TwoLegs(r, s, s, buy, sell, Open, Open);
    RunGoesOn(r, START, UnpaidOps()[..3], c, Fill([SALE], 2, 1, [Open, Open]));
    assert UnpaidOps() == UnpaidOps()[..3] + [Fill([SALE], 2, 1, [Open, Open])];
  }

  lemma UnpaidHold(r: Rates)
    ensures Hold(r, LIMIT_ORDER) == 100.0 + 100.0 * r.maker
  {
  }

  lemma FirstThree(r: Rates, a: State, b: State, c: State)
    requires a == Registered(START, 1, 150.0) && b == Registered(a, 2, 1000.0) && c == RestOrder(r, b, 2, LIMIT_ORDER)
    ensures Run(r, START, UnpaidOps()[..3]) == Just(c)
  {
    hide HoldOf;
    var ops := UnpaidOps();
    RunGoesOn(r, START, [], START, ops[0]);
    RunGoesOn(r, START, [ops[0]], a, ops[1]);
    RunGoesOn(r, START, [ops[0], ops[1]], b, ops[2]);
    assert [] + [ops[0]] == [ops[0]] && [ops[0]] + [ops[1]] == [ops[0], ops[1]];
    assert ops[..3] == [ops[0], ops[1]] + [ops[2]];
  }

  // ------------------------------------------------ a limit order matched in part

  /** Of a limit order that finds half of its quantity, the book trades that half and keeps the other;
      the ledger sets the whole aside, records the whole, and books no trade. */
  lemma HalfMatchedIsNotTraded(r: Rates)
    requires r.maker <= 0.25
    ensures var b := BookSpec.BookState([], [PriceTime.Entry(1, 0, 100.0, 0.5, 0)]);
            var s := Registered(START, 1, 150.0);
            var incoming := BookSpec.Incoming(2, 1, true, 100.0, 1.0);
            && BookSpec.MatchOf(b, incoming).fills == [PriceTime.Fill(b.asks[0], 0.5)]
            && BookSpec.PlaceLimit(b, incoming, 1) == BookSpec.BookState([PriceTime.Entry(2, 1, 100.0, 0.5, 1)], [])
            && LimitPlaced(r, s, RestOrder(r, s, 2, LIMIT_ORDER), b, BookSpec.PlaceLimit(b, incoming, 1), 1, 2,
                           LIMIT_ORDER, Resting, [])
            && RestOrder(r, s, 2, LIMIT_ORDER).positions == map[]
            && RestOrder(r, s, 2, LIMIT_ORDER).orders == map[2 := LIMIT_ORDER]
            && RestOrder(r, s, 2, LIMIT_ORDER).accounts[1].frozen == Hold(r, LIMIT_ORDER)
  {
    var b := BookSpec.BookState([], [PriceTime.Entry(1, 0, 100.0, 0.5, 0)]);
    UnpaidHold(r);
    assert b.asks[1..] == [];
    assert PriceTime.Greedy([], true, 100.0, 0.5) == PriceTime.Match([], [], 0.5);
  }

  // ------------------------------------------------------- a refused flip

  /** A trade larger than the position it meets closes it, and opens the other way exactly when what the
      owner then has available covers the rest at the taker rate. */
  lemma FlipsIff(r: Rates, s: State, l: Leg, a: Action, p: Position)
    requires Linked(s) && HeldAs(s.positions, l.user, p.id, p) && p.id > 0 && !p.state.Liquidating?
    requires p.side == Flip(l.side) && l.qty > p.qty && l.user in s.accounts && Allowed(s.positions, l, a)
    ensures var c := Reduced(r, p, l);
            var rest := l.(qty := l.qty - p.qty, isMaker := false);
            HoldsOnly(UpdatePosition(r, s, l, a).positions, l.user,
                      if Available(s.accounts, l.user) + c.closeMargin + c.netPnl >= Opened(r, rest).totalCost
                      then Some(OpenedAs(r, ANY, rest)) else None)
  {
    hide Linked, CalcReduce, CalcOpen, UpdatePosition;
    var h := Holder(AccountOf(s.accounts, l.user), Some(p));
    NotBoth(l.side);
    LegHolds(r, s, l, a, h);
  }

  /** A long of 1 worth 100, an owner without further money, and a sale of 100. */
  const HELD := Position(5, 1, 1, 10, 100.0, 1.0, 10.0, 0.0, 0.0, 0.0, Active)

  const POOR := State(map[1 := Account(0.0, 0.0)], map[5 := HELD], map[], 5, [], map[])

  /** Of the 100 sold, 1 closes the position and 99 are dropped. */
  lemma UnpaidFlipIsAClose(r: Rates)
    ensures var l := Leg(1, -1, 100.0, 100.0, 1, false);
            Allowed(POOR.positions, l, Reduce(5)) && Flat(UpdatePosition(r, POOR, l, Reduce(5)).positions, 1)
  {
    hide UpdatePosition, CalcReduce, CalcOpen, Linked;
    var l := Leg(1, -1, 100.0, 100.0, 1, false);
    PoorIsLinked();
    assert HeldAs(POOR.positions, 1, 5, HELD);
    UnpaidRest(r, l);
    FlipsIff(r, POOR, l, Reduce(5), HELD);
  }

  lemma PoorIsLinked()
    ensures Linked(POOR)
  {
  }

  lemma UnpaidRest(r: Rates, l: Leg)
    requires l.qty == 100.0 && l.price == 100.0 && l.leverage == 1
    ensures Opened(r, l.(qty := 99.0)).totalCost >= 9900.0
    ensures Reduced(r, HELD, l).closeMargin + Reduced(r, HELD, l).netPnl <= 10.0
  {
  }
}
