/** What the liquidation account does with the positions it takes over: how they come in at the
    bankruptcy price, how each disposal shrinks them, and what the insurance fund gets or pays. */
module Disposing {
  import opened Options
  import opened Rounding
  import opened PositionMath
  import opened Clearance
  import opened Ledger
  import opened Conservation
  import opened Holdings
  import opened AveragePrice
  import opened Insurance
  import Margins
  import OrderBook
  import BookSpec
  import PriceTime

  /** The system account that holds what was taken over. */
  const LIQUIDATION_USER := -1

  const TINY := 0.00001

  // --------------------------------------------------------------- takeover

  lemma BankruptcyIsPrice(entry: Price, leverage: Leverage, side: Side)
    ensures BankruptcyPrice(entry, leverage, side) >= 0.0
  {
  }

  /** The owner against the liquidation account, for the whole position. */
  function TakeOverTrade(p: Position, price: Price): GoodTrade {
    if p.side == 1 then OrderBook.Trade(0, 0, LIQUIDATION_USER, p.user, price, p.qty)
    else OrderBook.Trade(0, 0, p.user, LIQUIDATION_USER, price, p.qty)
  }

  /** Taken over at its bankruptcy price, a sound position gives its owner nothing back: the margin is
      lost exactly, the taker fee comes on top, and only accrued funding is paid out. */
  lemma TakeOverTakesTheMargin(r: Rates, p: Position, l: Leg)
    requires Margins.Sound(r, p) && l.qty == p.qty && l.price == BankruptcyPrice(p.entry, p.leverage, p.side)
    ensures var c := Reduced(r, p, l);
            c.isFullClose && c.closeMargin + c.netPnl == p.funding - FeeOf(r, p.qty * l.price, false)
  {
  }

  // --------------------------------------------------------------- disposal

  /** Half of the position, or all of it once the half is tiny. */
  function DisposeQty(q: Qty): Qty { if q * 0.5 < TINY then q else q * 0.5 }

  /** One percent worse than mid, in cents. */
  function DisposalLimit(midPrice: real, closeSide: Side): real {
    Round2(if closeSide == -1 then midPrice * (1.0 - 0.01) else midPrice * (1.0 + 0.01))
  }

  lemma DisposalLimitIsPrice(midPrice: Price, closeSide: Side)
    ensures DisposalLimit(midPrice, closeSide) >= 0.0
  {
  }

  function DisposalOrder(id: int, p: Position, midPrice: real): BookSpec.Incoming {
    BookSpec.Incoming(id, LIQUIDATION_USER, Flip(p.side) == 1, DisposalLimit(midPrice, Flip(p.side)), DisposeQty(p.qty))
  }

  /** Profit of selling (buying back) at the trade's price what was taken over at entry. */
  function TradePnl(entry: real, side: Side, t: OrderBook.Trade): real {
    Pnl(entry, t.price, t.quantity, side)
  }

  /** The fund after the trades: profits come in, losses go out as far as it reaches. */
  function FundAfter(balance: real, entry: real, side: Side, trades: seq<GoodTrade>): real {
    if trades == [] then balance
    else
      var n := |trades| - 1;
      var before, pnl := FundAfter(balance, entry, side, trades[..n]), TradePnl(entry, side, trades[n]);
      if pnl > 0.0 then before + pnl else before - CoveredPart(before, -pnl)
  }

  function TotalPnl(entry: real, side: Side, trades: seq<GoodTrade>): real {
    if trades == [] then 0.0
    else TotalPnl(entry, side, trades[..|trades| - 1]) + TradePnl(entry, side, trades[|trades| - 1])
  }

  /** The fund never goes below zero and never loses more than the trades lost. */
  lemma {:induction false} FundAbsorbs(balance: real, entry: real, side: Side, trades: seq<GoodTrade>)
    requires balance >= 0.0
    ensures FundAfter(balance, entry, side, trades) >= 0.0
    ensures FundAfter(balance, entry, side, trades) >= balance + TotalPnl(entry, side, trades)
  {
    hide TradePnl;
    if trades == [] {
    } else {
      FundAbsorbs(balance, entry, side, trades[..|trades| - 1]);
    }
  }

  /** While it lasts: profits and losses so far never exceed what there was. */
  ghost predicate Lasts(balance: real, entry: real, side: Side, trades: seq<GoodTrade>) {
    balance + TotalPnl(entry, side, trades) >= 0.0
    && (trades != [] ==> Lasts(balance, entry, side, trades[..|trades| - 1]))
  }

  /** As long as it lasts, the fund moves by exactly the profit and loss of the trades; once it has
      run out it has paid less than they lost. */
  lemma {:induction false} FundIsExactWhileItLasts(balance: real, entry: real, side: Side, trades: seq<GoodTrade>)
    requires balance >= 0.0
    ensures FundAfter(balance, entry, side, trades) == balance + TotalPnl(entry, side, trades) <==>
            Lasts(balance, entry, side, trades)
  {
    hide TradePnl;
    if trades == [] {
    } else {
      var n := |trades| - 1;
      FundAbsorbs(balance, entry, side, trades);
      FundAbsorbs(balance, entry, side, trades[..n]);
      FundIsExactWhileItLasts(balance, entry, side, trades[..n]);
    }
  }

  /** What the trades lost when the fund had nothing left to pay it with. */
  function Unpaid(balance: real, entry: real, side: Side, trades: seq<GoodTrade>): real {
    if trades == [] then 0.0
    else
      var n := |trades| - 1;
      var before, pnl := FundAfter(balance, entry, side, trades[..n]), TradePnl(entry, side, trades[n]);
      Unpaid(balance, entry, side, trades[..n]) + if pnl > 0.0 then 0.0 else -pnl - CoveredPart(before, -pnl)
  }

  /** Profit and loss is the fund's movement less what went unpaid, which is nothing while it lasts. */
  lemma {:induction false} FundAndUnpaid(balance: real, entry: real, side: Side, trades: seq<GoodTrade>)
    requires balance >= 0.0
    ensures FundAfter(balance, entry, side, trades)
            == balance + TotalPnl(entry, side, trades) + Unpaid(balance, entry, side, trades)
    ensures Unpaid(balance, entry, side, trades) >= 0.0
    ensures Unpaid(balance, entry, side, trades) == 0.0 <==> Lasts(balance, entry, side, trades)
  {
    hide TradePnl, Lasts;
    FundIsExactWhileItLasts(balance, entry, side, trades);
    if trades == [] {
    } else {
      FundAndUnpaid(balance, entry, side, trades[..|trades| - 1]);
    }
  }

  lemma NoTradesNoFund(balance: real, entry: real, side: Side)
    ensures FundAfter(balance, entry, side, []) == balance
  {
  }

  lemma {:induction false} FundGoesOn(balance: real, entry: real, side: Side, a: seq<GoodTrade>, b: seq<GoodTrade>)
    ensures FundAfter(balance, entry, side, a + b) == FundAfter(FundAfter(balance, entry, side, a), entry, side, b)
  {
    hide TradePnl;
    if b == [] {
      assert a + b == a;
    } else {
      var n := |b| - 1;
      FundGoesOn(balance, entry, side, a, b[..n]);
      assert (a + b)[..|a + b| - 1] == a + b[..n];
    }
  }

  // ------------------------------------------------------ what is matched

  lemma {:induction false} QtyOfFirst(t: GoodTrade, trades: seq<GoodTrade>)
    ensures TradedQty([t] + trades) == t.quantity + TradedQty(trades)
  {
    var all := [t] + trades;
    if trades == [] {
      assert all[..0] == [];
    } else {
      var n := |trades| - 1;
      QtyOfFirst(t, trades[..n]);
      assert all[..n + 1] == [t] + trades[..n];
    }
  }

  /** Fills of an order with a limit are within it and, with what is left, make up the order. */
  lemma {:induction false} MatchWithinLimit(q: seq<PriceTime.Entry>, o: BookSpec.Incoming, qty: real,
                                            trades: seq<GoodTrade>)
    requires PriceTime.Positive(q) && qty >= 0.0
    requires trades == OrderBook.TradesOf(o, PriceTime.Greedy(q, o.isBuy, o.price, qty).fills)
    ensures |trades| == |PriceTime.Greedy(q, o.isBuy, o.price, qty).fills|
    ensures o.price > 0.0 ==> forall t | t in trades :: if o.isBuy then t.price <= o.price else t.price >= o.price
    ensures var m := PriceTime.Greedy(q, o.isBuy, o.price, qty); TradedQty(trades) + m.left == qty && m.left >= 0.0
    decreases |q|
  {
    if q == [] || qty <= 0.0 || !PriceTime.Reaches(o.isBuy, o.price, q[0].price) {
      assert trades == [];
    } else if qty < q[0].qty {
      OneFill(o, PriceTime.Fill(q[0], qty), [], trades);
    } else {
      var f, m := PriceTime.Fill(q[0], q[0].qty), PriceTime.Greedy(q[1..], o.isBuy, o.price, qty - q[0].qty);
      OneFill(o, f, m.fills, trades);
      MatchWithinLimit(q[1..], o, qty - q[0].qty, trades[1..]);
    }
  }

  lemma OneFill(o: BookSpec.Incoming, f: PriceTime.Fill, fills: seq<PriceTime.Fill>, trades: seq<GoodTrade>)
    requires trades == OrderBook.TradesOf(o, [f] + fills)
    ensures trades != [] && trades[0] == OrderBook.TradeOf(o, f) && trades[1..] == OrderBook.TradesOf(o, fills)
    ensures TradedQty(trades) == f.qty + TradedQty(trades[1..])
  {
    assert ([f] + fills)[1..] == fills;
    assert trades == [OrderBook.TradeOf(o, f)] + OrderBook.TradesOf(o, fills);
    assert trades == [trades[0]] + trades[1..];
    QtyOfFirst(trades[0], trades[1..]);
  }

  ghost predicate NoneOf(q: seq<PriceTime.Entry>, user: int) {
    forall e | e in q :: e.user != user
  }

  ghost predicate RestsNothing(b: BookSpec.BookState, user: int) {
    NoneOf(b.bids, user) && NoneOf(b.asks, user)
  }

  lemma {:induction false} MatchingAddsNobody(q: seq<PriceTime.Entry>, isBuyer: bool, limit: real, qty: real, user: int)
    requires NoneOf(q, user)
    ensures NoneOf(PriceTime.Greedy(q, isBuyer, limit, qty).rest, user)
    ensures forall f | f in PriceTime.Greedy(q, isBuyer, limit, qty).fills :: f.maker.user != user
  {
    if q == [] || qty <= 0.0 || !PriceTime.Reaches(isBuyer, limit, q[0].price) {
    } else {
      assert q[0] in q && forall e | e in q[1..] :: e in q;
      if qty >= q[0].qty {
        MatchingAddsNobody(q[1..], isBuyer, limit, qty - q[0].qty, user);
      }
    }
  }

  lemma TradesWithOthers(b: BookSpec.BookState, o: BookSpec.Incoming, user: int)
    requires RestsNothing(b, user)
    ensures RestsNothing(BookSpec.PlaceMarket(b, o), user)
  {
    MatchingAddsNobody(BookSpec.Opposite(b, o.isBuy), o.isBuy, o.price, o.qty, user);
  }

  lemma DisposalLeavesNothing(b: BookSpec.BookState, o: BookSpec.Incoming)
    ensures RestsNothing(b, LIQUIDATION_USER) ==> RestsNothing(BookSpec.PlaceMarket(b, o), LIQUIDATION_USER)
  {
    hide RestsNothing, BookSpec.PlaceMarket;
    if RestsNothing(b, LIQUIDATION_USER) {
      TradesWithOthers(b, o, LIQUIDATION_USER);
    }
  }

  /** A taker is on one side of all its trades when none of its own orders was among the makers. */
  lemma {:induction false} TradesAreOneSided(o: BookSpec.Incoming, fills: seq<PriceTime.Fill>, trades: seq<GoodTrade>,
                                             side: Side)
    requires trades == OrderBook.TradesOf(o, fills) && (o.isBuy <==> side == 1)
    requires forall f | f in fills :: f.maker.user != o.user
    ensures OneSided(trades, o.user, side)
    decreases |fills|
  {
    if fills == [] {
    } else {
      assert fills[0] in fills && forall f | f in fills[1..] :: f in fills;
      assert trades[1..] == OrderBook.TradesOf(o, fills[1..]);
      TradesAreOneSided(o, fills[1..], trades[1..], side);
      assert forall k | 0 < k < |trades| :: trades[k] == trades[1..][k - 1];
    }
  }

  // ------------------------------------------------------------- records

  datatype Place = Place(ledger: State, book: BookSpec.BookState, fund: real)

  /** What happened to one held position. */
  datatype Disposal = Disposal(id: int, midPrice: real, before: Place, after: Place, orderId: int,
                               trades: seq<GoodTrade>, actions: seq<Action>)

  predicate StillHeld(s: State, id: int) { id in s.positions && s.positions[id].user == LIQUIDATION_USER }

  /** A position that is still there is disposed of by one order: book, ledger and fund follow its match. */
  ghost predicate Disposed(r: Rates, d: Disposal) {
    if !StillHeld(d.before.ledger, d.id) then d.after == d.before && d.trades == []
    else
      var p := d.before.ledger.positions[d.id];
      var o := DisposalOrder(d.orderId, p, d.midPrice);
      && d.after.book == BookSpec.PlaceMarket(d.before.book, o)
      && d.trades == OrderBook.TradesOf(o, BookSpec.MatchOf(d.before.book, o).fills)
      && (if d.trades == [] then d.after.ledger == d.before.ledger
          else Step(r, d.before.ledger, Fill(d.trades, LIQUIDATION_USER, 1, d.actions)) == Just(d.after.ledger))
      && d.after.fund == FundAfter(d.before.fund, p.entry, p.side, d.trades)
  }

  /** One disposal after the other. */
  ghost predicate Disposals(r: Rates, log: seq<Disposal>, first: Place, last: Place) {
    if log == [] then first == last
    else
      var n := |log| - 1;
      Disposals(r, log[..n], first, log[n].before) && Disposed(r, log[n]) && log[n].after == last
  }

  lemma NoDisposals(r: Rates, first: Place)
    ensures Disposals(r, [], first, first)
  {
  }

  lemma DisposedIs(r: Rates, d: Disposal)
    requires !StillHeld(d.before.ledger, d.id) ==> d.after == d.before && d.trades == []
    requires StillHeld(d.before.ledger, d.id) ==>
               var p := d.before.ledger.positions[d.id];
               var o := DisposalOrder(d.orderId, p, d.midPrice);
               && d.after.book == BookSpec.PlaceMarket(d.before.book, o)
               && d.trades == OrderBook.TradesOf(o, BookSpec.MatchOf(d.before.book, o).fills)
               && (if d.trades == [] then d.after.ledger == d.before.ledger else
                     Step(r, d.before.ledger, Fill(d.trades, LIQUIDATION_USER, 1, d.actions)) == Just(d.after.ledger))
               && d.after.fund == FundAfter(d.before.fund, p.entry, p.side, d.trades)
    ensures Disposed(r, d)
  {
  }

  lemma OneMoreDisposal(r: Rates, log: seq<Disposal>, first: Place, d: Disposal)
    requires Disposals(r, log, first, d.before) && Disposed(r, d)
    ensures Disposals(r, log + [d], first, d.after)
  {
    assert (log + [d])[..|log|] == log;
  }

  /** No disposal leaves an order behind or overdraws the fund. */
  lemma {:induction false} DisposalsAreSafe(r: Rates, log: seq<Disposal>, first: Place, last: Place)
    requires Disposals(r, log, first, last)
    ensures RestsNothing(first.book, LIQUIDATION_USER) ==> RestsNothing(last.book, LIQUIDATION_USER)
    ensures first.fund >= 0.0 ==> last.fund >= 0.0
  {
    hide RestsNothing, FundAfter, DisposalOrder;
    if log == [] {
    } else {
      var n := |log| - 1;
      var d := log[n];
      DisposalsAreSafe(r, log[..n], first, d.before);
      if StillHeld(d.before.ledger, d.id) {
        var p := d.before.ledger.positions[d.id];
        DisposalLeavesNothing(d.before.book, DisposalOrder(d.orderId, p, d.midPrice));
        if d.before.fund >= 0.0 {
          FundAbsorbs(d.before.fund, p.entry, p.side, d.trades);
        }
      }
    }
  }

  /** Placing with a limit and cancelling the rest is matching with a limit. */
  lemma ImmediateOrCancel(b: BookSpec.BookState, o: BookSpec.Incoming, now: int)
    requires BookSpec.BookInv(b, now) && BookSpec.Fresh(b, o.id)
    ensures BookSpec.Cancel(BookSpec.PlaceLimit(b, o, now), o.id) == BookSpec.PlaceMarket(b, o)
    ensures BookSpec.MatchOf(b, o).left <= 0.0 ==> BookSpec.PlaceLimit(b, o, now) == BookSpec.PlaceMarket(b, o)
  {
    hide BookSpec.BookInv;
    BookSpec.CancelUndoesResting(b, o, now);
  }

  // ------------------------------------------------ what a disposal leaves

  ghost predicate BookPositive(b: BookSpec.BookState) {
    PriceTime.Positive(b.bids) && PriceTime.Positive(b.asks)
  }

  /** The liquidation account holds p, an active position, and nothing else. */
  ghost predicate Sole(ps: Positions, p: Position) {
    && p.id in ps && ps[p.id] == p && p.user == LIQUIDATION_USER && p.state.Active?
    && forall j | j in ps && ps[j].user == LIQUIDATION_USER :: j == p.id
  }

  /** What it holds once q of p has been closed: the same position, smaller by q, or nothing. */
  ghost predicate Remains(ps: Positions, p: Position, q: real) {
    if q >= p.qty then Flat(ps, LIQUIDATION_USER)
    else
      && p.id in ps && Sole(ps, ps[p.id]) && ps[p.id].side == p.side && ps[p.id].entry == p.entry
      && ps[p.id].qty == p.qty - q
  }

  /** Sold at no less than the limit, or bought back at no more; zero is no limit. */
  ghost predicate WithinLimit(trades: seq<GoodTrade>, limit: real, side: Side) {
    limit > 0.0 ==> forall t | t in trades :: if side == 1 then t.price >= limit else t.price <= limit
  }

  /** A disposal of the account's only position trades within its limit, closes at most what it set
      out to close, and leaves the same position on the same side, smaller by exactly what was traded,
      or none. */
  lemma DisposalNeverFlips(r: Rates, d: Disposal, p: Position)
    requires Linked(d.before.ledger) && Sole(d.before.ledger.positions, p) && d.id == p.id && Disposed(r, d)
    requires BookPositive(d.before.book) && RestsNothing(d.before.book, LIQUIDATION_USER)
    ensures Linked(d.after.ledger) && 0.0 <= TradedQty(d.trades) <= DisposeQty(p.qty) <= p.qty
    ensures Remains(d.after.ledger.positions, p, TradedQty(d.trades))
    ensures d.after.fund == FundAfter(d.before.fund, p.entry, p.side, d.trades)
    ensures WithinLimit(d.trades, DisposalLimit(d.midPrice, Flip(p.side)), p.side)
  {
    hide Linked, RestsNothing, DisposalLimit, FundAfter, TradedQty, ApplyLegs, LegsOf;
    var o, q := DisposalOrder(d.orderId, p, d.midPrice), BookSpec.Opposite(d.before.book, Flip(p.side) == 1);
    MatchWithinLimit(q, o, o.qty, d.trades);
    NothingLess(d.trades);
    if d.trades == [] {
      NoQty();
    } else {
      MakersAreOthers(d.before.book, o);
      TradesAreOneSided(o, BookSpec.MatchOf(d.before.book, o).fills, d.trades, Flip(p.side));
      SoleReduced(r, d.before.ledger, d.after.ledger, p, d.trades, d.actions);
    }
  }

  lemma NoQty()
    ensures TradedQty([]) == 0.0
  {
  }

  lemma {:induction false} NothingLess(trades: seq<GoodTrade>)
    ensures TradedQty(trades) >= 0.0
  {
    if trades == [] {
    } else {
      NothingLess(trades[..|trades| - 1]);
    }
  }

  lemma MakersAreOthers(b: BookSpec.BookState, o: BookSpec.Incoming)
    requires RestsNothing(b, LIQUIDATION_USER)
    ensures forall f | f in BookSpec.MatchOf(b, o).fills :: f.maker.user != LIQUIDATION_USER
  {
    MatchingAddsNobody(BookSpec.Opposite(b, o.isBuy), o.isBuy, o.price, o.qty, LIQUIDATION_USER);
  }

  lemma SoleReduced(r: Rates, s: State, t: State, p: Position, trades: seq<GoodTrade>, actions: seq<Action>)
    requires Linked(s) && Sole(s.positions, p) && trades != [] && TradedQty(trades) <= p.qty
    requires OneSided(trades, LIQUIDATION_USER, Flip(p.side))
    requires Step(r, s, Fill(trades, LIQUIDATION_USER, 1, actions)) == Just(t)
    ensures Linked(t) && Remains(t.positions, p, TradedQty(trades))
  {
    hide ApplyLegs, LegsOf, TradedQty, ReduceStep;
    var h, b := Holder(AccountOf(s.accounts, LIQUIDATION_USER), Some(p)), Announce(s, LIQUIDATION_USER);
    assert HeldAs(s.positions, LIQUIDATION_USER, p.id, p);
    AnnouncedHolds(s, LIQUIDATION_USER, h);
    AnnounceKeepsLinked(s, LIQUIDATION_USER);
    FlipTwice(p.side);
    SplitReductionIsOne(r, b, trades, LIQUIDATION_USER, Flip(p.side), 1, actions, h, p);
    LegsMove(r, b, LegsOf(s.orders, trades, LIQUIDATION_USER, 1), actions, 0.0, Everyone());
    var whole := TakerLeg(LIQUIDATION_USER, Flip(p.side), 1, AtVwap(trades));
    StepLeft(r, h, p, whole, t.positions);
  }

  lemma StepLeft(r: Rates, h: Holder, p: Position, l: Leg, ps: Positions)
    requires HoldsOnly(ps, LIQUIDATION_USER, ReduceStep(r, h, p, l).held)
    requires p.user == LIQUIDATION_USER && p.id > 0 && l.qty <= p.qty
    ensures Remains(ps, p, l.qty)
  {
    hide CalcReduce, LiquidationPrice, ForceTpPrice;
    if l.qty < p.qty {
      ShrunkIs(r, p, l);
      var id :| HeldAs(ps, LIQUIDATION_USER, id, Shrunk(r, p, l));
    }
  }

  /** A tick's disposals, when the account holds one position and rests nothing: just one, within the
      limit of the tick's price, and it leaves that position on its side, smaller by exactly what was
      traded, or none. */
  ghost predicate NeverFlipped(log: seq<Disposal>, midPrice: real, first: Place, last: Place) {
    forall p | Sole(first.ledger.positions, p) && RestsNothing(first.book, LIQUIDATION_USER) ::
      && |log| == 1 && log[0].id == p.id && 0.0 <= TradedQty(log[0].trades) <= DisposeQty(p.qty)
      && Remains(last.ledger.positions, p, TradedQty(log[0].trades))
      && WithinLimit(log[0].trades, DisposalLimit(midPrice, Flip(p.side)), p.side)
  }

  /** All records are of the same price. */
  ghost predicate AllAt(log: seq<Disposal>, midPrice: real) {
    forall k | 0 <= k < |log| :: log[k].midPrice == midPrice
  }

  lemma {:induction false} RestIsPositive(q: seq<PriceTime.Entry>, isBuyer: bool, limit: real, qty: real)
    requires PriceTime.Positive(q)
    ensures PriceTime.Positive(PriceTime.Greedy(q, isBuyer, limit, qty).rest)
  {
    if q == [] || qty <= 0.0 || !PriceTime.Reaches(isBuyer, limit, q[0].price) || qty < q[0].qty {
    } else {
      RestIsPositive(q[1..], isBuyer, limit, qty - q[0].qty);
    }
  }

  /** What one disposal sold or bought back: at most what it set out to, within the limit of the price. */
  ghost predicate KeepsToLimit(d: Disposal, midPrice: real) {
    StillHeld(d.before.ledger, d.id) ==>
      var p := d.before.ledger.positions[d.id];
      && 0.0 <= TradedQty(d.trades) <= DisposeQty(p.qty) <= p.qty
      && WithinLimit(d.trades, DisposalLimit(midPrice, Flip(p.side)), p.side)
  }

  /** However many positions a tick disposes of, none of its fills is beyond the limit of the tick's price. */
  lemma {:induction false} TickKeepsToLimit(r: Rates, log: seq<Disposal>, midPrice: real, first: Place, last: Place)
    requires Disposals(r, log, first, last) && AllAt(log, midPrice) && BookPositive(first.book)
    ensures BookPositive(last.book) && forall k | 0 <= k < |log| :: KeepsToLimit(log[k], midPrice)
  {
    hide KeepsToLimit, Disposed, BookPositive;
    if log == [] {
    } else {
      var n := |log| - 1;
      TickKeepsToLimit(r, log[..n], midPrice, first, log[n].before);
      OneKeepsToLimit(r, log[n]);
    }
  }

  lemma OneKeepsToLimit(r: Rates, d: Disposal)
    requires Disposed(r, d) && BookPositive(d.before.book)
    ensures BookPositive(d.after.book) && KeepsToLimit(d, d.midPrice)
  {
    hide DisposalLimit, FundAfter, TradedQty, PriceTime.Greedy;
    if StillHeld(d.before.ledger, d.id) {
      var p := d.before.ledger.positions[d.id];
      var o := DisposalOrder(d.orderId, p, d.midPrice);
      var q := BookSpec.Opposite(d.before.book, o.isBuy);
      MatchWithinLimit(q, o, o.qty, d.trades);
      NothingLess(d.trades);
      RestIsPositive(q, o.isBuy, o.price, o.qty);
    }
  }

  /** What is offered of a held position: half, or all of less than 0.00002. */
  predicate Offers(p: Position, q: real) { q == if p.qty < 0.00002 then p.qty else p.qty / 2.0 }

  /** A disposal takes nothing worse than one percent from mid, give or take the half cent of rounding, and
      leaves nothing of what it offered while anybody on the other side is within that percent. */
  ghost predicate MeetsMarket(d: Disposal, midPrice: real) {
    StillHeld(d.before.ledger, d.id) ==>
      var p, q := d.before.ledger.positions[d.id], TradedQty(d.trades);
      && (exists offer :: Offers(p, offer) && q <= offer)
      && (if p.side == 1 then
            && (midPrice * 0.99 >= 0.005 ==> forall t | t in d.trades :: t.price >= midPrice * 0.99 - 0.005)
            && (Offers(p, q) || d.after.book.bids == [] || d.after.book.bids[0].price < midPrice * 0.99 + 0.005)
          else
            && (midPrice * 1.01 >= 0.005 ==> forall t | t in d.trades :: t.price <= midPrice * 1.01 + 0.005)
            && (Offers(p, q) || d.after.book.asks == [] || d.after.book.asks[0].price > midPrice * 1.01 - 0.005))
  }

  lemma OneMeetsMarket(r: Rates, d: Disposal)
    requires Disposed(r, d) && BookPositive(d.before.book) && d.midPrice >= 0.0
    ensures MeetsMarket(d, d.midPrice)
  {
    hide FundAfter, TradedQty, PriceTime.Greedy, Round2;
    if StillHeld(d.before.ledger, d.id) {
      var p := d.before.ledger.positions[d.id];
      var o := DisposalOrder(d.orderId, p, d.midPrice);
      var q := BookSpec.Opposite(d.before.book, o.isBuy);
      assert p.side == 1 || p.side == -1;
      LimitIsNear(d.midPrice);
      assert Offers(p, DisposeQty(p.qty));
      MatchWithinLimit(q, o, o.qty, d.trades);
      BookSpec.StopsAtLimit(q, o.isBuy, o.price, o.qty);
    }
  }

  /** Sold at no less than 99 percent of mid, bought back at no more than 101, to the nearest cent. */
  lemma LimitIsNear(midPrice: Price)
    ensures midPrice * 0.99 - 0.005 <= DisposalLimit(midPrice, -1) <= midPrice * 0.99 + 0.005
    ensures midPrice * 1.01 - 0.005 <= DisposalLimit(midPrice, 1) <= midPrice * 1.01 + 0.005
    ensures midPrice * 0.99 >= 0.005 ==> DisposalLimit(midPrice, -1) > 0.0
    ensures midPrice * 1.01 >= 0.005 ==> DisposalLimit(midPrice, 1) > 0.0
  {
    hide Round2;
    RoundedIsNear(midPrice * 0.99);
    RoundedIsNear(midPrice * 1.01);
    HalfCentCounts(midPrice * 0.99);
    HalfCentCounts(midPrice * 1.01);
  }

  lemma HalfCentCounts(x: real)
    ensures x >= 0.005 ==> Round2(x) > 0.0
  {
  }

  /** All disposals of a tick meet the market. */
  lemma {:induction false} TickMeetsMarket(r: Rates, log: seq<Disposal>, midPrice: Price, first: Place, last: Place)
    requires Disposals(r, log, first, last) && AllAt(log, midPrice) && BookPositive(first.book)
    ensures BookPositive(last.book) && forall k | 0 <= k < |log| :: MeetsMarket(log[k], midPrice)
  {
    hide MeetsMarket, KeepsToLimit, Disposed, BookPositive;
    if log == [] {
    } else {
      var n := |log| - 1;
      TickMeetsMarket(r, log[..n], midPrice, first, log[n].before);
      OneKeepsToLimit(r, log[n]);
      OneMeetsMarket(r, log[n]);
    }
  }

  /** Every held position has exactly one record, and there is no other. */
  ghost predicate EachOnce(log: seq<Disposal>, held: set<int>) {
    && (forall id | id in held :: exists k | 0 <= k < |log| :: log[k].id == id)
    && (forall k | 0 <= k < |log| :: log[k].id in held)
    && (forall j, k | 0 <= j < k < |log| :: log[j].id != log[k].id)
  }

  lemma OneEntry(log: seq<Disposal>, held: set<int>, id: int)
    requires EachOnce(log, held) && id in held && forall i | i in held :: i == id
    ensures |log| == 1 && log[0].id == id
  {
    var k :| 0 <= k < |log| && log[k].id == id;
    assert log[0].id == id && log[|log| - 1].id == id;
  }

  lemma TickNeverFlips(r: Rates, log: seq<Disposal>, midPrice: real, first: Place, last: Place, held: set<int>)
    requires Disposals(r, log, first, last) && Linked(first.ledger) && BookPositive(first.book)
    requires forall id :: id in held <==>
             id in first.ledger.positions && first.ledger.positions[id].user == LIQUIDATION_USER
    requires EachOnce(log, held) && AllAt(log, midPrice)
    ensures NeverFlipped(log, midPrice, first, last)
  {
    hide Disposed, Linked, RestsNothing, BookPositive, Remains, TradedQty, DisposeQty, DisposalLimit, WithinLimit;
    forall p | Sole(first.ledger.positions, p) && RestsNothing(first.book, LIQUIDATION_USER)
      ensures |log| == 1 && log[0].id == p.id && 0.0 <= TradedQty(log[0].trades) <= DisposeQty(p.qty)
      ensures Remains(last.ledger.positions, p, TradedQty(log[0].trades))
      ensures WithinLimit(log[0].trades, DisposalLimit(midPrice, Flip(p.side)), p.side)
    {
      assert p.id in held;
      OneEntry(log, held, p.id);
      assert log[..0] == [];
      DisposalNeverFlips(r, log[0], p);
    }
  }

  // ------------------------------------------- winding a position down

  /** Disposals of one position, tick after tick; in between, others may do what they like, but the
      liquidation account and the fund are left alone. */
  ghost predicate Winds(r: Rates, p: Position, ds: seq<Disposal>) {
    && (forall k | 0 <= k < |ds| ::
          && ds[k].id == p.id && Disposed(r, ds[k]) && Linked(ds[k].before.ledger)
          && BookPositive(ds[k].before.book) && RestsNothing(ds[k].before.book, LIQUIDATION_USER))
    && (ds != [] ==> Sole(ds[0].before.ledger.positions, p))
    && (forall k | 0 < k < |ds| ::
          SameFor(ds[k - 1].after.ledger, ds[k].before.ledger, LIQUIDATION_USER)
            && ds[k - 1].after.fund == ds[k].before.fund)
  }

  ghost function AllTrades(ds: seq<Disposal>): seq<GoodTrade> {
    if ds == [] then [] else AllTrades(ds[..|ds| - 1]) + ds[|ds| - 1].trades
  }

  ghost function Closed(ds: seq<Disposal>): real {
    if ds == [] then 0.0 else Closed(ds[..|ds| - 1]) + TradedQty(ds[|ds| - 1].trades)
  }

  /** What is held, and what the fund has, after the disposals so far. */
  ghost predicate WoundDown(p: Position, ds: seq<Disposal>)
    requires ds != []
  {
    var last := ds[|ds| - 1].after;
    && 0.0 <= Closed(ds) <= p.qty && Remains(last.ledger.positions, p, Closed(ds))
    && last.fund == FundAfter(ds[0].before.fund, p.entry, p.side, AllTrades(ds))
  }

  lemma RemainsSame(s: State, t: State, p: Position, q: real)
    requires SameFor(s, t, LIQUIDATION_USER) && Remains(s.positions, p, q)
    ensures Remains(t.positions, p, q)
  {
  }

  /** Any number of disposals together leave the position smaller by exactly what they traded, on its
      side, and the fund as all their trades in a row would. */
  lemma {:induction false} DisposalsAddUp(r: Rates, p: Position, ds: seq<Disposal>)
    requires ds != [] && Winds(r, p, ds)
    ensures WoundDown(p, ds)
  {
    hide Linked, RestsNothing, Disposed, FundAfter, TradedQty, DisposeQty, SameFor, Sole;
    var n := |ds| - 1;
    var d := ds[n];
    if n == 0 {
      DisposalNeverFlips(r, d, p);
      assert ds[..0] == [] && Closed(ds[..0]) == 0.0;
      assert Closed(ds) == TradedQty(d.trades) && AllTrades(ds) == d.trades;
    } else {
      assert Winds(r, p, ds[..n]);
      DisposalsAddUp(r, p, ds[..n]);
      RemainsSame(ds[n - 1].after.ledger, d.before.ledger, p, Closed(ds[..n]));
      NextDisposal(r, d, p, Closed(ds[..n]));
      FundGoesOn(ds[0].before.fund, p.entry, p.side, AllTrades(ds[..n]), d.trades);
    }
  }

  /** One more disposal when q of p has been closed. */
  lemma NextDisposal(r: Rates, d: Disposal, p: Position, q: real)
    requires Linked(d.before.ledger) && Disposed(r, d) && d.id == p.id && 0.0 <= q <= p.qty
    requires Remains(d.before.ledger.positions, p, q)
    requires BookPositive(d.before.book) && RestsNothing(d.before.book, LIQUIDATION_USER)
    ensures q + TradedQty(d.trades) <= p.qty && TradedQty(d.trades) >= 0.0
    ensures Remains(d.after.ledger.positions, p, q + TradedQty(d.trades))
    ensures d.after.fund == FundAfter(d.before.fund, p.entry, p.side, d.trades)
  {
    hide Linked, RestsNothing, FundAfter, TradedQty, DisposeQty;
    if q < p.qty {
      var held := d.before.ledger.positions[p.id];
      DisposalNeverFlips(r, d, held);
    } else {
      NotHeld(r, d, p);
    }
  }

  lemma NotHeld(r: Rates, d: Disposal, p: Position)
    requires Disposed(r, d) && Flat(d.before.ledger.positions, LIQUIDATION_USER)
    ensures d.after == d.before && TradedQty(d.trades) == 0.0
    ensures d.after.fund == FundAfter(d.before.fund, p.entry, p.side, d.trades)
  {
  }

  /** Did the disposal fill completely? */
  ghost predicate Full(d: Disposal) {
    StillHeld(d.before.ledger, d.id) ==> TradedQty(d.trades) == DisposeQty(d.before.ledger.positions[d.id].qty)
  }

  ghost predicate AllFull(ds: seq<Disposal>) {
    forall k | 0 <= k < |ds| :: Full(ds[k])
  }

  function Half(q: real, n: nat): real { if n == 0 then q else Half(q, n - 1) * 0.5 }

  function Pow2(n: nat): real { if n == 0 then 1.0 else 2.0 * Pow2(n - 1) }

  /** How many complete disposals a quantity takes: halves until the half is tiny. */
  function Rounds(q: Qty): (n: nat)
    ensures n >= 1
    decreases (q / TINY).Floor
  {
    if q * 0.5 < TINY then 1 else 1 + Rounds(q * 0.5)
  }

  /** After n halvings, two to the n-th of what is left make up the whole. */
  lemma {:induction false} HalvesMakeTheWhole(q: real, n: nat)
    ensures Half(q, n) * Pow2(n) == q && (n > 0 ==> Pow2(n) == Pow2(n - 1) + Pow2(n - 1))
  {
    if n == 0 {
    } else {
      HalvesMakeTheWhole(q, n - 1);
    }
  }

  /** No more than the binary logarithm of the quantity in units of the tiny amount, plus one. */
  lemma {:induction false} RoundsAreFew(q: Qty)
    ensures Rounds(q) > 1 ==> Pow2(Rounds(q) - 1) * 0.00001 <= q
    decreases Rounds(q)
  {
    if Rounds(q) == 1 {
    } else {
      RoundsAreFew(q * 0.5);
    }
  }

  /** Each complete disposal but the last leaves half, and one round less to go. */
  lemma {:induction false} HalvesToGo(q: Qty, n: nat)
    requires n < Rounds(q)
    ensures Half(q, n) > 0.0 && Rounds(Half(q, n)) == Rounds(q) - n
  {
    if n == 0 {
    } else {
      HalvesToGo(q, n - 1);
    }
  }

  /** Complete disposals wind the account down to nothing: after n of them it holds the quantity halved
      n times, and after `Rounds` of them, which is the logarithm of the quantity, it holds nothing. */
  lemma {:induction false} DisposalTerminates(r: Rates, p: Position, ds: seq<Disposal>)
    requires ds != [] && Winds(r, p, ds) && AllFull(ds)
    ensures var ps := ds[|ds| - 1].after.ledger.positions;
            if |ds| < Rounds(p.qty) then Closed(ds) == p.qty - Half(p.qty, |ds|) && Remains(ps, p, Closed(ds))
            else Closed(ds) == p.qty && Flat(ps, LIQUIDATION_USER)
  {
    hide Linked, RestsNothing, Disposed, FundAfter, TradedQty, SameFor, Sole, Half, Rounds, DisposeQty;
    var n := |ds| - 1;
    NothingLess(ds[n].trades);
    DisposalsAddUp(r, p, ds);
    if n == 0 {
      assert ds[..0] == [] && Closed(ds[..0]) == 0.0;
      NoHalves(p.qty);
      FullDisposal(ds[0], p, 0.0);
      HalvedOnce(p.qty, 0);
    } else {
      assert Winds(r, p, ds[..n]);
      DisposalTerminates(r, p, ds[..n]);
      DisposalsAddUp(r, p, ds[..n]);
      RemainsSame(ds[n - 1].after.ledger, ds[n].before.ledger, p, Closed(ds[..n]));
      FullDisposal(ds[n], p, Closed(ds[..n]));
      if n < Rounds(p.qty) {
        HalvedOnce(p.qty, n);
      }
    }
  }

  lemma NoHalves(q: real)
    ensures Half(q, 0) == q
  {
  }

  lemma HalvedOnce(q: Qty, n: nat)
    requires n < Rounds(q)
    ensures 0.0 < Half(q, n) && (Half(q, n + 1) > 0.0 || n + 1 == Rounds(q))
    ensures DisposeQty(Half(q, n)) == Half(q, n) - (if n + 1 < Rounds(q) then Half(q, n + 1) else 0.0)
  {
    HalvesToGo(q, n);
  }

  lemma FullDisposal(d: Disposal, p: Position, q: real)
    requires Full(d) && d.id == p.id
             && (Remains(d.before.ledger.positions, p, q) || (q == 0.0 && Sole(d.before.ledger.positions, p)))
    ensures 0.0 <= q < p.qty ==> TradedQty(d.trades) == DisposeQty(p.qty - q)
  {
  }
}
