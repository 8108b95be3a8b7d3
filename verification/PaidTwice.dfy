/** One position, from opening to disposal, whose loss the insurance fund pays for twice. */
module PaidTwice {
  import opened PositionMath
  import opened Clearance
  import opened Ledger
  import opened Conservation
  import opened Holdings
  import opened Insurance
  import opened Disposing
  import opened Waterfall
  import opened Cases
  import opened Backing
  import OrderBook
  import BookSpec
  import PriceTime

  const SIZE: Qty := 0.00001

  /** User 1 buys from the market maker, account 0, at 100 with leverage 10. */
  const OPENING: GoodTrade := OrderBook.Trade(8, 7, 1, 0, 100.0, SIZE)

  /** The market maker's bid at 80, hit by the liquidation account. */
  const DISPOSAL: GoodTrade := OrderBook.Trade(9, 10, 0, -1, 80.0, SIZE)

  function OpeningOps(): seq<Op> {
    [LoadAccount(1, 1000.0), LoadAccount(0, 1000.0), LoadAccount(-1, 1000.0), Fill([OPENING], 1, 10, [Open, Open])]
  }

  function Funded(): State {
    Registered(Registered(Registered(START, 1, 1000.0), 0, 1000.0), -1, 1000.0)
  }

  lemma FundedByRun(r: Rates)
    ensures Run(r, START, OpeningOps()[..3]) == Just(Funded())
  {
    var ops, a := OpeningOps(), Registered(START, 1, 1000.0);
    var b := Registered(a, 0, 1000.0);
    RunGoesOn(r, START, [], START, ops[0]);
    RunGoesOn(r, START, [ops[0]], a, ops[1]);
    RunGoesOn(r, START, [ops[0], ops[1]], b, ops[2]);
    assert [] + [ops[0]] == [ops[0]] && [ops[0]] + [ops[1]] == [ops[0], ops[1]];
    assert ops[..3] == [ops[0], ops[1]] + [ops[2]];
  }

  /** Small orders are affordable to everybody here. */
  lemma SmallCost(r: Rates, l: Leg)
    requires r.maker <= 1.0 && r.taker <= 1.0 && l.qty == SIZE && l.price <= 100.0
    ensures Opened(r, l).totalCost <= 1.0
  {
    assert 0.0 <= l.price * l.qty <= 0.001;
    SmallMargin(l.price * l.qty, OpenLeverage(l));
    SmallFee(l.price * l.qty, if l.isMaker then r.maker else r.taker);
  }

  lemma SmallMargin(value: real, leverage: Leverage)
    requires 0.0 <= value
    ensures value / leverage as real <= value
  {
    var share := value / leverage as real;
    assert share * leverage as real == value;
    assert share >= 0.0;
    assert share * leverage as real >= share;
  }

  lemma SmallFee(value: real, rate: real)
    requires 0.0 <= value && 0.0 <= rate <= 1.0
    ensures value * rate <= value
  {
  }

  function LongLeg(): Leg { Leg(1, 1, SIZE, 100.0, 10, false) }

  function ShortLeg(): Leg { Leg(0, -1, SIZE, 100.0, 1, true) }

  function LiqLeg(): Leg { Leg(-1, 1, SIZE, 90.0, 1, true) }

  /** After the opening trade. */
  function Opened2(r: Rates): State {
    HandleOpen(r, HandleOpen(r, Announce(Funded(), 1), LongLeg()), ShortLeg())
  }

  lemma OpenedByRun(r: Rates)
    requires r.maker <= 1.0 && r.taker <= 1.0
    ensures Run(r, START, OpeningOps()) == Just(Opened2(r))
    ensures var s := Opened2(r);
            && s.positions == map[100001 := OpenedAs(r, 100001, LongLeg()), 100002 := OpenedAs(r, 100002, ShortLeg())]
            && s.orders == map[] && s.nextPosId == 100002 && s.accounts.Keys == {1, 0, -1}
               && s.accounts[-1] == Account(1000.0, 0.0)
            && Linked(s)
  {
    hide CalcOpen;
    var s, ops := Announce(Funded(), 1), OpeningOps();
    FundedByRun(r);
    SmallCost(r, LongLeg());
    SmallCost(r, ShortLeg());
    assert [OPENING][..0] == [] && LegsOf(s.orders, [OPENING], 1, 10) == [LongLeg(), ShortLeg()];
    TwoLegs(r, s, HandleOpen(r, s, LongLeg()), LongLeg(), ShortLeg(), Open, Open);
    RunGoesOn(r, START, ops[..3], Funded(), ops[3]);
    assert ops == ops[..3] + [ops[3]];
  }

  function SellBack(): Leg { Leg(1, -1, SIZE, 90.0, 10, false) }

  /** After the takeover at 90. */
  function Taken(r: Rates): State
    requires 100001 in HandleOpen(r, Announce(Opened2(r), 1), LiqLeg()).positions
  {
    HandleReduce(r, HandleOpen(r, Announce(Opened2(r), 1), LiqLeg()), SellBack(), 100001)
  }

  lemma FlatOpens(ps: Positions, l: Leg)
    requires Flat(ps, l.user)
    ensures Allowed(ps, l, Open)
  {
  }

  lemma LiquidationOpens(r: Rates)
    requires r.maker <= 1.0 && r.taker <= 1.0
    ensures var s := Announce(Opened2(r), 1);
            var u := HandleOpen(r, s, LiqLeg());
            && Linked(s) && Linked(u) && Allowed(s.positions, LiqLeg(), Open) && u.orders == map[]
            && u.positions == map[100001 := OpenedAs(r, 100001, LongLeg()), 100002 := OpenedAs(r, 100002, ShortLeg()),
                                  100003 := OpenedAs(r, 100003, LiqLeg())]
  {
    hide CalcOpen, Allowed;
    OpenedByRun(r);
    SmallCost(r, LiqLeg());
    var s := Announce(Opened2(r), 1);
    FlatOpens(s.positions, LiqLeg());
    HandleOpenKeepsLinked(r, s, LiqLeg());
  }

  lemma TakenOverAt90(r: Rates)
    requires r.maker <= 1.0 && r.taker <= 1.0
    ensures 100001 in HandleOpen(r, Announce(Opened2(r), 1), LiqLeg()).positions
    ensures var p, t := OpenedAs(r, 100001, LongLeg()), Taken(r);
            && TakenOver(r, Opened2(r), t, p, 90.0, [Open, Reduce(100001)])
            && t.positions == map[100002 := OpenedAs(r, 100002, ShortLeg()), 100003 := OpenedAs(r, 100003, LiqLeg())]
            && t.orders == map[] && Linked(t)
  {
    hide CalcOpen, CalcReduce, HandleOpen, Linked, Opened2, ApplyLegs, AnyReducible, AnyGrowable;
    var p, s := OpenedAs(r, 100001, LongLeg()), Announce(Opened2(r), 1);
    OpenedByRun(r);
    LiquidationOpens(r);
    var u := HandleOpen(r, s, LiqLeg());
    FullCloseIs(r, p, SellBack());
    var trade := TakeOverTrade(p, 90.0);
    assert trade == OrderBook.Trade(0, 0, -1, 1, 90.0, SIZE);
    assert [trade][..0] == [] && LegsOf(s.orders, [trade], 1, 10) == [LiqLeg(), SellBack()];
    TwoLegs(r, s, u, LiqLeg(), SellBack(), Open, Reduce(100001));
    UpdateKeepsLinked(r, u, SellBack(), Reduce(100001));
  }

  /** The market maker's ask, user 1's order, and, at a lower price, the market maker's bid. */
  function BookOps(): seq<BookSpec.Op> {
    [BookSpec.Limit(BookSpec.Incoming(7, 0, false, 100.0, SIZE)),
     BookSpec.Market(BookSpec.Incoming(8, 1, true, 0.0, SIZE)),
     BookSpec.Limit(BookSpec.Incoming(9, 0, true, 80.0, SIZE))]
  }

  /** That bid only. */
  const BOOK := BookSpec.BookState([PriceTime.Entry(9, 0, 80.0, SIZE, 2)], [])

  lemma BookByRun()
    ensures BookSpec.Run(BookOps()) == BOOK
    ensures var o := BookOps()[1].order;
            OrderBook.TradesOf(o, BookSpec.MatchOf(BookSpec.Run(BookOps()[..1]), o).fills) == [OPENING]
  {
    var ops := BookOps();
    var first := BookSpec.BookState([], [PriceTime.Entry(7, 0, 100.0, SIZE, 0)]);
    assert ops[..1][..0] == [] && ops[..2][..1] == ops[..1] && ops[..3][..2] == ops[..2] && ops[..3] == ops;
    assert BookSpec.Run(ops[..1]) == first;
    assert first.asks[1..] == [];
    var fills := BookSpec.MatchOf(first, ops[1].order).fills;
    assert fills == [PriceTime.Fill(first.asks[0], SIZE)] && fills[1..] == [];
    assert BookSpec.Run(ops[..2]) == BookSpec.BookState([], []);
  }

  lemma DisposedAt80(o: BookSpec.Incoming)
    requires o == BookSpec.Incoming(10, -1, false, 79.2, SIZE)
    ensures OrderBook.TradesOf(o, BookSpec.MatchOf(BOOK, o).fills) == [DISPOSAL]
  {
    assert BOOK.bids[1..] == [] && PriceTime.Reaches(false, 79.2, 80.0);
    assert PriceTime.Greedy([], false, 79.2, 0.0) == PriceTime.Match([], [], 0.0);
    var fills := BookSpec.MatchOf(BOOK, o).fills;
    assert fills == [PriceTime.Fill(BOOK.bids[0], SIZE)];
    assert fills[1..] == [];
  }

  lemma LimitAt80()
    ensures DisposalLimit(80.0, -1) == 79.2
  {
  }

  function BuyBack(): Leg { Leg(0, 1, SIZE, 80.0, 1, true) }

  function SellOff(): Leg { Leg(-1, -1, SIZE, 80.0, 1, false) }

  /** What the position loses at 80, and pays when it is bankrupt at 90. */
  lemma Prices(r: Rates)
    ensures var p := OpenedAs(r, 100001, LongLeg());
            && BankruptcyPrice(p.entry, p.leverage, p.side) == 90.0 && ShouldLiquidate(80.0, p.liqPrice, p.side)
            && Deficit(90.0, 80.0, SIZE) == 0.0001 && TradePnl(90.0, 1, DISPOSAL) == -0.0001
  {
    var x := 1.0 - r.maint;
    assert 0.0 < x <= 1.0;
    LiqAbove(r.maint);
  }

  lemma LiqAbove(rate: MaintRate)
    ensures LiquidationPrice(100.0, 10, 1, rate) >= 90.0
  {
    if rate > 0.0 {
      PricesInOrder(100.0, 10, 1, rate, 1.0);
    }
  }

  /** After the disposal. */
  function Ended(r: Rates, t: State): State
    requires 100002 in t.positions && 100003 in HandleReduce(r, Announce(t, -1), BuyBack(), 100002).positions
  {
    HandleReduce(r, HandleReduce(r, Announce(t, -1), BuyBack(), 100002), SellOff(), 100003)
  }

  lemma FilledAt80(r: Rates, t: State)
    requires t.orders == map[]
    requires t.positions == map[100002 := OpenedAs(r, 100002, ShortLeg()), 100003 := OpenedAs(r, 100003, LiqLeg())]
    ensures 100003 in HandleReduce(r, Announce(t, -1), BuyBack(), 100002).positions
    ensures Step(r, t, Fill([DISPOSAL], -1, 1, [Reduce(100002), Reduce(100003)])) == Just(Ended(r, t))
    ensures Ended(r, t).positions == map[]
  {
    hide CalcOpen, CalcReduce, AnyReducible, AnyGrowable, ApplyLegs;
    var b := Announce(t, -1);
    FullCloseIs(r, t.positions[100002], BuyBack());
    FullCloseIs(r, t.positions[100003], SellOff());
    var u := HandleReduce(r, b, BuyBack(), 100002);
    assert [DISPOSAL][..0] == [] && LegsOf(b.orders, [DISPOSAL], -1, 1) == [BuyBack(), SellOff()];
    TwoLegs(r, b, u, BuyBack(), SellOff(), Reduce(100002), Reduce(100003));
  }

  lemma FundAt80(fund: real)
    requires fund >= 0.0001 && TradePnl(90.0, 1, DISPOSAL) == -0.0001
    ensures FundAfter(fund, 90.0, 1, [DISPOSAL]) == fund - 0.0001 && TotalPnl(90.0, 1, [DISPOSAL]) == -0.0001
  {
    assert [DISPOSAL][..0] == [];
  }

  /** From the empty exchange: user 1 opens a long of 0.00001 at 100 with leverage 10; at a market of 80
      it is taken over at its bankruptcy price of 90, and the fund covers the gap of 0.0001; then the
      position is disposed of at 80, closed at once because its half is tiny, and the fund pays the same
      0.0001 again.  Both trades are with the market maker, and the book they meet is that of `BookByRun`. */
  lemma FundPaysTwice(r: Rates) returns (s: State, p: Position, t: State, d: Disposal)
    requires r.maker <= 1.0 && r.taker <= 1.0
    ensures Run(r, START, OpeningOps()) == Just(s) && p.id in s.positions && s.positions[p.id] == p && p.state.Active?
    ensures ShouldLiquidate(80.0, p.liqPrice, p.side) && BankruptcyPrice(p.entry, p.leverage, p.side) == 90.0
    ensures TakenOver(r, s, t, p, 90.0, [Open, Reduce(p.id)]) && d.before.ledger == t
    ensures d.before.book == BookSpec.Run(BookOps()) && Backed(d.before.book, t.orders)
    ensures d.before.fund == 1.0 - CoveredPart(1.0, Deficit(90.0, 80.0, p.qty)) == 1.0 - 0.0001
    ensures d.id in t.positions && Winds(r, t.positions[d.id], [d]) && Flat(d.after.ledger.positions, LIQUIDATION_USER)
    ensures TotalPnl(90.0, 1, d.trades) == -0.0001 && d.after.fund == 1.0 - 0.0002
  {
    hide CalcOpen, Deficit, TradePnl, BankruptcyPrice, LiquidationPrice, ShouldLiquidate, Ended, Taken, Opened2,
         TakenOver, Linked, Step, FundAfter, TotalPnl, DisposalLimit;
    s, p := Opened2(r), OpenedAs(r, 100001, LongLeg());
    OpenedByRun(r);
    TakenOverAt90(r);
    Prices(r);
    t := Taken(r);
    FilledAt80(r, t);
    LimitAt80();
    BookByRun();
    var o := DisposalOrder(10, t.positions[100003], 80.0);
    DisposedAt80(o);
    FundAt80(1.0 - 0.0001);
    d := Disposal(100003, 80.0, Place(t, BOOK, 1.0 - 0.0001),
                  Place(Ended(r, t), BookSpec.PlaceMarket(BOOK, o), 1.0 - 0.0002), 10,
                  [DISPOSAL], [Reduce(100002), Reduce(100003)]);
  }
}
