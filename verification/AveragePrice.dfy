/** Several fills of one order are one fill at their average price: for a taker that opens and for one
    that reduces, in the ledger and whatever happens to everybody else on the way. */
module AveragePrice {
  import opened Options
  import opened Reals
  import opened PositionMath
  import opened Clearance
  import opened Ledger
  import opened Conservation
  import opened Holdings
  import opened Margins

  // --------------------------------------------------------- the average

  lemma {:induction false} TotalsAreGood(trades: seq<GoodTrade>)
    requires trades != []
    ensures TradedQty(trades) > 0.0 && TradedValue(trades) >= 0.0
    ensures TradedValue(trades) / TradedQty(trades) >= 0.0
    ensures Mul(TradedValue(trades) / TradedQty(trades), TradedQty(trades)) == TradedValue(trades)
  {
    hide Mul;
    var n := |trades| - 1;
    var t := trades[n];
    MulOrder(0.0, t.price, t.quantity);
    MulLinear(0.0, 0.0, t.quantity);
    ProductIs(t.price, t.quantity);
    if n == 0 {
    } else {
      TotalsAreGood(trades[..n]);
    }
    DivIs(TradedValue(trades), TradedQty(trades));
    DivOrder(TradedValue(trades), TradedQty(trades), 0.0);
    MulLinear(0.0, 0.0, TradedQty(trades));
  }

  lemma ProductIs(a: real, b: real)
    ensures a * b == Mul(a, b)
  {
  }

  /** One trade of the whole quantity at the average price. */
  ghost function AtVwap(trades: seq<GoodTrade>): (t: GoodTrade)
    requires trades != []
    ensures t.quantity == TradedQty(trades) && Mul(t.price, t.quantity) == TradedValue(trades)
  {
    TotalsAreGood(trades);
    trades[0].(price := TradedValue(trades) / TradedQty(trades), quantity := TradedQty(trades))
  }

  lemma OneIsItsAverage(t: GoodTrade)
    ensures TradedValue([t]) == Mul(t.price, t.quantity) && TradedQty([t]) == t.quantity && AtVwap([t]).price == t.price
  {
    hide Mul;
    assert [t][..0] == [];
    ProductIs(t.price, t.quantity);
    MulOrder(AtVwap([t]).price, t.price, t.quantity);
  }

  // -------------------------------------------------------------- opening

  /** What the fills of a new position cost: the margin of all of them and the fee of the first. */
  ghost function FillCost(r: Rates, leverage: int, trades: seq<GoodTrade>): real
    requires trades != []
  {
    TradedValue(trades) / EffectiveLeverage(leverage) as real + Charged(r.taker, trades[0].price, trades[0].quantity)
  }

  function EffectiveLeverage(leverage: int): Leverage { if leverage <= 0 then 1 else leverage }

  /** The position of one fill at the average price. */
  ghost function AveragePosition(r: Rates, user: int, side: Side, leverage: int, trades: seq<GoodTrade>): Position
    requires trades != []
  {
    OpenedAs(r, ANY, TakerLeg(user, side, leverage, AtVwap(trades)))
  }

  lemma FirstFill(r: Rates, h: Holder, user: int, side: Side, leverage: int, t: GoodTrade)
    requires h.held.None?
    ensures var l := TakerLeg(user, side, leverage, t);
            && Opened(r, l).totalCost == FillCost(r, leverage, [t])
            && OpenedAs(r, ANY, l) == AveragePosition(r, user, side, leverage, [t])
  {
    hide LiquidationPrice, ForceTpPrice, Mul;
    OneIsItsAverage(t);
    ProductIs(t.price, t.quantity);
  }

  /** One more fill on top of the average of those before is the average of all. */
  lemma NextFill(r: Rates, user: int, side: Side, leverage: int, trades: seq<GoodTrade>)
    requires |trades| > 1
    ensures var n := |trades| - 1;
            var p := AveragePosition(r, user, side, leverage, trades[..n]);
            var l := TakerLeg(user, side, leverage, trades[n]);
            && Grown(r, p, l) == AveragePosition(r, user, side, leverage, trades)
            && FillCost(r, leverage, trades) == FillCost(r, leverage, trades[..n]) + Increased(r, p, l).addMargin
            && Increased(r, p, l).addMargin >= 0.0
  {
    hide Sound, CalcOpen, Mul, LiquidationPrice, ForceTpPrice, TradedValue, TradedQty;
    var n := |trades| - 1;
    var p, l := AveragePosition(r, user, side, leverage, trades[..n]), TakerLeg(user, side, leverage, trades[n]);
    var q := AveragePosition(r, user, side, leverage, trades);
    LastTotals(trades);
    OpenedIsSound(r, ANY, TakerLeg(user, side, leverage, AtVwap(trades[..n])));
    OpenedIsSound(r, ANY, TakerLeg(user, side, leverage, AtVwap(trades)));
    GrownIsSound(r, p, l);
    IncreaseForm(r, p.entry, p.qty, p.margin, p.leverage, p.side, l.qty, l.price);
    SameEntry(r, Grown(r, p, l), q);
    MarginGrows(l.price * l.qty, TradedValue(trades[..n]), EffectiveLeverage(leverage));
    MulOrder(0.0, l.price, l.qty);
    MulLinear(0.0, 0.0, l.qty);
    ProductIs(l.price, l.qty);
  }

  lemma LastTotals(trades: seq<GoodTrade>)
    requires trades != []
    ensures var n := |trades| - 1;
            && TradedQty(trades) == TradedQty(trades[..n]) + trades[n].quantity
            && TradedValue(trades) == TradedValue(trades[..n]) + Mul(trades[n].price, trades[n].quantity)
  {
  }

  lemma MarginGrows(more: real, value: real, leverage: Leverage)
    ensures (value + more) / leverage as real == value / leverage as real + more / leverage as real
    ensures more >= 0.0 ==> more / leverage as real >= 0.0
  {
  }

  function HeldQty(h: Holder): real { if h.held.Some? then h.held.value.qty else 0.0 }

  /** A user without positions ends with the average position, paid for, exactly when it had the cost
      of all fills; otherwise with less. */
  lemma {:induction false} OpeningFillsFold(r: Rates, h: Holder, user: int, side: Side, leverage: int,
                                            trades: seq<GoodTrade>)
    requires trades != [] && h.held.None?
    ensures var t, cost := After(r, h, TakerLegs(user, side, leverage, trades)), FillCost(r, leverage, trades);
            && (t.held.Some? ==> t.held.value.side == side && t.held.value.state.Active?)
            && (HasFunds(h, cost) ==>
                  t == Paid(h, -cost).(held := Some(AveragePosition(r, user, side, leverage, trades))))
            && (!HasFunds(h, cost) ==> HeldQty(t) < TradedQty(trades))
  {
    hide CalcOpen, CalcIncrease, AveragePosition, FillCost, TradedValue, TradedQty;
    var n := |trades| - 1;
    var l, front := TakerLeg(user, side, leverage, trades[n]), TakerLegs(user, side, leverage, trades[..n]);
    AfterOneMore(r, h, front, l);
    LastTotals(trades);
    if n == 0 {
      assert trades == [trades[0]] && front == [];
      FirstFill(r, h, user, side, leverage, trades[0]);
      OneIsItsAverage(trades[0]);
    } else {
      OpeningFillsFold(r, h, user, side, leverage, trades[..n]);
      NextFill(r, user, side, leverage, trades);
      AverageIs(r, user, side, leverage, trades[..n]);
      GrownQty(r, After(r, h, front), l);
    }
  }

  lemma AverageIs(r: Rates, user: int, side: Side, leverage: int, trades: seq<GoodTrade>)
    requires trades != []
    ensures var p := AveragePosition(r, user, side, leverage, trades);
            p.side == side && p.qty == TradedQty(trades) && p.state.Active?
  {
  }

  /** A leg adds no more than its quantity to a position of its own side. */
  lemma GrownQty(r: Rates, h: Holder, l: Leg)
    requires h.held.Some? ==> h.held.value.side == l.side && h.held.value.state.Active?
    ensures var t := LegStep(r, h, l);
            && HeldQty(t) <= HeldQty(h) + l.qty
               && (t.held.Some? ==> t.held.value.side == l.side && t.held.value.state.Active?)
  {
    hide LiquidationPrice, ForceTpPrice;
  }

  /** A taker without positions, on one side of every trade: whatever the other users' legs did on the
      way, it ends with the one position that a single fill at the average price opens exactly when
      the cost of all fills was available at the start, and has then paid exactly that. */
  lemma FlatTakerEndsAtVwap(r: Rates, s: State, trades: seq<GoodTrade>, taker: int, side: Side, leverage: int,
                            actions: seq<Action>)
    requires Linked(s) && trades != [] && OneSided(trades, taker, side)
    requires Flat(s.positions, taker) && taker in s.accounts
    requires ProcessTrades(r, s, trades, taker, leverage, actions).Just?
    ensures var t, cost := ProcessTrades(r, s, trades, taker, leverage, actions).state, FillCost(r, leverage, trades);
            && (Available(s.accounts, taker) >= cost <==>
                  HoldsOnly(t.positions, taker, Some(AveragePosition(r, taker, side, leverage, trades))))
            && (Available(s.accounts, taker) >= cost ==>
                  AccountOf(t.accounts, taker) == Some(Account(s.accounts[taker].balance - cost,
                                                               s.accounts[taker].frozen)))
  {
    hide Linked, FillCost, AveragePosition, LegsOf, ApplyLegs, TakerLegs, MyLegs, After;
    var h, mine := Holder(Some(s.accounts[taker]), None), TakerLegs(taker, side, leverage, trades);
    TakerLegsAreMine(s.orders, trades, taker, side, leverage);
    FirstTakerLeg(taker, side, leverage, trades);
    LegsProject(r, s, LegsOf(s.orders, trades, taker, leverage), actions, taker, h);
    OpeningFillsFold(r, h, taker, side, leverage, trades);
    AverageIs(r, taker, side, leverage, trades);
    var t := ProcessTrades(r, s, trades, taker, leverage, actions).state;
    HeldOnce(t.positions, taker, After(r, h, mine).held, Some(AveragePosition(r, taker, side, leverage, trades)));
  }

  /** What a user holds is determined up to the id. */
  lemma HeldOnce(ps: Positions, user: int, a: Option<Position>, b: Option<Position>)
    ensures HoldsOnly(ps, user, a) && HoldsOnly(ps, user, b) ==>
            a.Some? == b.Some? && (a.Some? ==> a.value.qty == b.value.qty)
  {
  }

  // ------------------------------------------------------------- reducing

  /** What reducing pays out. */
  datatype Payout = Payout(margin: real, funding: real, rawPnl: real, fee: real)

  function PayoutOf(c: ReduceResult): Payout {
    Payout(c.closeMargin, c.closeFunding, c.rawPnl, c.fee)
  }

  function AddPayouts(a: Payout, b: Payout): Payout {
    Payout(a.margin + b.margin, a.funding + b.funding, a.rawPnl + b.rawPnl, a.fee + b.fee)
  }

  /** A payout for quantity q out of a position, at prices that make up the value v. */
  ghost predicate PaysShare(r: Rates, p: Position, q: real, v: real, out: Payout) {
    && Mul(out.margin, p.qty) == Mul(p.margin, q)
    && Mul(out.funding, p.qty) == Mul(p.funding, q)
    && out.rawPnl == (if p.side == 1 then v - Mul(p.entry, q) else Mul(p.entry, q) - v)
    && out.fee == Mul(r.taker, v)
  }

  lemma OnePaysShare(r: Rates, p: Position, l: Leg)
    requires l.qty <= p.qty
    ensures PaysShare(r, p, l.qty, Mul(l.price, l.qty), PayoutOf(Reduced(r, p, l)))
  {
    hide CalcReduce, Pnl, Mul;
    var c := Reduced(r, p, l);
    ReduceForm(r, p.entry, l.price, p.qty, p.margin, p.funding, p.leverage, p.side, l.qty);
    ReduceFullQty(r, p, l);
    PnlForm(p.entry, l.price, l.qty, p.side);
    MulLinear(l.price, p.entry, l.qty);
    MulLinear(p.entry, l.price, l.qty);
    MulAssociative(r.taker, l.price, l.qty);
  }

  lemma ReduceFullQty(r: Rates, p: Position, l: Leg)
    requires l.qty <= p.qty
    ensures Reduced(r, p, l).closeQty == l.qty && Reduced(r, p, l).rawPnl == Pnl(p.entry, l.price, l.qty, p.side)
    ensures Reduced(r, p, l).isFullClose <==> l.qty == p.qty
  {
  }

  lemma ShrunkIs(r: Rates, p: Position, l: Leg)
    requires l.qty < p.qty
    ensures var c := Reduced(r, p, l);
            Shrunk(r, p, l) == p.(qty := p.qty - l.qty, margin := p.margin - c.closeMargin,
                                  funding := p.funding - c.closeFunding,
                                  liqPrice := LiquidationPrice(p.entry, p.leverage, p.side, r.maint),
                                  forceTpPrice := ForceTpPrice(p.entry, p.leverage, p.side, r.forceTp), state := Active)
  {
    hide LiquidationPrice, ForceTpPrice, Pnl;
  }

  /** What is left of x after its share was taken is in proportion to what is left of the quantity. */
  lemma ShareOfRest(x: real, taken: real, more: real, qty: real, q: real, q': real)
    requires qty > 0.0 && Mul(taken, qty) == Mul(x, q) && q < qty
    requires Mul(more, qty - q) == Mul(x - taken, q')
    ensures Mul(taken + more, qty) == Mul(x, q + q')
  {
  }

  lemma SharesAdd(r: Rates, p: Position, l: Leg, q: real, v: real, out: Payout)
    requires l.qty < p.qty && PaysShare(r, p, l.qty, Mul(l.price, l.qty), PayoutOf(Reduced(r, p, l)))
    requires PaysShare(r, Shrunk(r, p, l), q, v, out)
    ensures PaysShare(r, p, l.qty + q, Mul(l.price, l.qty) + v, AddPayouts(PayoutOf(Reduced(r, p, l)), out))
  {
    hide Mul, CalcReduce;
    var c := Reduced(r, p, l);
    ShrunkIs(r, p, l);
    ShareOfRest(p.margin, c.closeMargin, out.margin, p.qty, l.qty, q);
    ShareOfRest(p.funding, c.closeFunding, out.funding, p.qty, l.qty, q);
    MulLinear(l.qty, q, p.entry);
    MulLinear(l.qty + q, q, p.entry);
    MulLinear(Mul(l.price, l.qty), v, r.taker);
    MulLinear(Mul(l.price, l.qty) + v, v, r.taker);
  }

  lemma PaysShareOnce(r: Rates, p: Position, q: real, v: real, a: Payout, b: Payout)
    requires PaysShare(r, p, q, v, a) && PaysShare(r, p, q, v, b)
    ensures a == b
  {
  }


  /** Two reductions are one at their average price, in what they pay and in what they leave. */
  lemma TwoReductions(r: Rates, h: Holder, p: Position, l: Leg, l': Leg, whole: Leg)
    requires l.qty < p.qty && l.qty + l'.qty <= p.qty && whole.qty == l.qty + l'.qty
    requires Mul(whole.price, whole.qty) == Mul(l.price, l.qty) + Mul(l'.price, l'.qty)
    ensures ReduceStep(r, ReduceStep(r, h, p, l), Shrunk(r, p, l), l') == ReduceStep(r, h, p, whole)
  {
    hide Mul, CalcReduce, PaysShare;
    var q := Shrunk(r, p, l);
    ShrunkIs(r, p, l);
    OnePaysShare(r, p, l);
    OnePaysShare(r, q, l');
    OnePaysShare(r, p, whole);
    SharesAdd(r, p, l, l'.qty, Mul(l'.price, l'.qty), PayoutOf(Reduced(r, q, l')));
    PaysShareOnce(r, p, whole.qty, Mul(whole.price, whole.qty),
                  AddPayouts(PayoutOf(Reduced(r, p, l)), PayoutOf(Reduced(r, q, l'))), PayoutOf(Reduced(r, p, whole)));
    NetIsPayout(r, p, l);
    NetIsPayout(r, q, l');
    NetIsPayout(r, p, whole);
    if whole.qty < p.qty {
      ShrunkIs(r, q, l');
      ShrunkIs(r, p, whole);
      assert Shrunk(r, q, l') == Shrunk(r, p, whole);
    }
  }

  lemma NetIsPayout(r: Rates, p: Position, l: Leg)
    ensures var c := Reduced(r, p, l); c.netPnl == c.rawPnl - c.fee + c.closeFunding
  {
  }

  /** A position reduced by fills of one order is left, and its owner paid, as by one fill at the average price. */
  lemma {:induction false} ReducingFillsFold(r: Rates, h: Holder, p: Position, user: int, side: Side, leverage: int,
                                             trades: seq<GoodTrade>)
    requires trades != [] && h.held == Some(p) && p.side == Flip(side) && TradedQty(trades) <= p.qty
    ensures After(r, h, TakerLegs(user, side, leverage, trades))
            == ReduceStep(r, h, p, TakerLeg(user, side, leverage, AtVwap(trades)))
  {
    hide CalcReduce, Mul, TradedValue, TradedQty, ReduceStep;
    var n := |trades| - 1;
    var l, front := TakerLeg(user, side, leverage, trades[n]), TakerLegs(user, side, leverage, trades[..n]);
    var whole := TakerLeg(user, side, leverage, AtVwap(trades));
    AfterOneMore(r, h, front, l);
    LastTotals(trades);
    NotBoth(side);
    if n == 0 {
      assert trades == [trades[0]] && front == [];
      OneIsItsAverage(trades[0]);
      assert whole == l;
    } else {
      ReducingFillsFold(r, h, p, user, side, leverage, trades[..n]);
      var first := TakerLeg(user, side, leverage, AtVwap(trades[..n]));
      StepLeaves(r, h, p, first);
      TwoReductions(r, h, p, first, l, whole);
    }
  }

  lemma StepLeaves(r: Rates, h: Holder, p: Position, l: Leg)
    requires l.qty < p.qty
    ensures ReduceStep(r, h, p, l).held == Some(Shrunk(r, p, l)) && Shrunk(r, p, l).side == p.side
            && Shrunk(r, p, l).qty == p.qty - l.qty
  {
  }

  /** A taker that holds one position and reduces it, on one side of every trade, ends with the account
      and the position that a single reduction at the average price gives. */
  lemma SplitReductionIsOne(r: Rates, s: State, trades: seq<GoodTrade>, taker: int, side: Side, leverage: int,
                            actions: seq<Action>,
                            h: Holder, p: Position)
    requires Linked(s) && trades != [] && OneSided(trades, taker, side) && TradedQty(trades) <= p.qty
    requires Holds(s, taker, h) && h.held == Some(p) && p.side == Flip(side) && !p.state.Liquidating?
    requires ProcessTrades(r, s, trades, taker, leverage, actions).Just?
    ensures Holds(ProcessTrades(r, s, trades, taker, leverage, actions).state, taker,
                  ReduceStep(r, h, p, TakerLeg(taker, side, leverage, AtVwap(trades))))
  {
    hide Linked, Holds, LegsOf, ApplyLegs, TakerLegs, MyLegs, After, ReduceStep, TradedQty;
    TakerLegsAreMine(s.orders, trades, taker, side, leverage);
    FirstTakerLeg(taker, side, leverage, trades);
    LegsProject(r, s, LegsOf(s.orders, trades, taker, leverage), actions, taker, h);
    ReducingFillsFold(r, h, p, taker, side, leverage, trades);
  }
}
