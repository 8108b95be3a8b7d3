/** Margin and risk prices of every position in every run. */
module Margins {
  import opened Reals
  import opened PositionMath
  import opened Clearance
  import opened Ledger

  /** Margin is value over leverage, and the stored risk prices are those of the current entry. */
  ghost predicate Sound(r: Rates, p: Position) {
    && Margined(p.entry, p.qty, p.margin, p.leverage)
    && p.liqPrice == LiquidationPrice(p.entry, p.leverage, p.side, r.maint)
    && p.forceTpPrice == ForceTpPrice(p.entry, p.leverage, p.side, r.forceTp)
  }

  ghost predicate AllSound(r: Rates, ps: Positions) {
    forall id | id in ps :: Sound(r, ps[id])
  }

  lemma OpenedIsSound(r: Rates, id: int, l: Leg)
    ensures Sound(r, OpenedAs(r, id, l))
  {
    hide Margined;
    OpenIsMargined(r, l.price, l.qty, OpenLeverage(l), l.side, l.isMaker);
  }

  lemma GrownIsSound(r: Rates, p: Position, l: Leg)
    requires Sound(r, p)
    ensures Sound(r, Grown(r, p, l))
  {
    hide Margined;
    IncreaseKeepsMargined(r, p.entry, p.qty, p.margin, p.leverage, p.side, l.qty, l.price);
  }

  lemma ShrunkIsSound(r: Rates, p: Position, l: Leg)
    requires Sound(r, p) && l.qty < p.qty
    ensures Sound(r, Shrunk(r, p, l))
  {
    hide Margined;
    ReduceKeepsMargined(r, p.entry, l.price, p.qty, p.margin, p.funding, p.leverage, p.side, l.qty);
  }

  lemma HandleOpenKeepsSound(r: Rates, s: State, l: Leg)
    requires AllSound(r, s.positions)
    ensures AllSound(r, HandleOpen(r, s, l).positions)
  {
    hide Sound, CalcOpen;
    OpenedIsSound(r, s.nextPosId + 1, l);
    assert CanPay(s.accounts, l.user, Opened(r, l).totalCost) ==>
        HandleOpen(r, s, l).positions == s.positions[s.nextPosId + 1 := OpenedAs(r, s.nextPosId + 1, l)];
  }

  lemma UpdateKeepsSound(r: Rates, s: State, l: Leg, a: Action)
    requires AllSound(r, s.positions) && Allowed(s.positions, l, a)
    ensures AllSound(r, UpdatePosition(r, s, l, a).positions)
  {
    hide Sound, CalcOpen, CalcIncrease, CalcReduce, AnyReducible, AnyGrowable;
    match a
    case Open => HandleOpenKeepsSound(r, s, l);
    case Increase(id) => GrownIsSound(r, s.positions[id], l);
    case Reduce(id) =>
      var p := s.positions[id];
      ReduceCases(r, p, l);
      if l.qty < p.qty {
        ShrunkIsSound(r, p, l);
      }
      var t := ReducePart(r, s, l, id);
      assert AllSound(r, t.positions);
      if l.qty - p.qty > 0.0 {
        HandleOpenKeepsSound(r, t, l.(qty := l.qty - p.qty, isMaker := false));
      }
  }

  lemma ReduceCases(r: Rates, p: Position, l: Leg)
    ensures Reduced(r, p, l).isFullClose <==> l.qty >= p.qty
  {
  }

  lemma {:induction false} LegsKeepSound(r: Rates, s: State, legs: seq<Leg>, actions: seq<Action>)
    requires AllSound(r, s.positions) && ApplyLegs(r, s, legs, actions).Just?
    ensures AllSound(r, ApplyLegs(r, s, legs, actions).state.positions)
  {
    hide AllSound, UpdatePosition, Allowed;
    if legs == [] {
    } else {
      var n := |legs| - 1;
      LegsKeepSound(r, s, legs[..n], actions[..n]);
      UpdateKeepsSound(r, ApplyLegs(r, s, legs[..n], actions[..n]).state, legs[n], actions[n]);
    }
  }

  lemma StepKeepsSound(r: Rates, s: State, op: Op)
    requires AllSound(r, s.positions) && Step(r, s, op).Just?
    ensures AllSound(r, Step(r, s, op).state.positions)
  {
    hide ApplyLegs, LegsOf, UpdatePosition, HoldOf, LiquidationPrice, ForceTpPrice, Margined;
    match op
    case LoadAccount(user, balance) =>
    case Close(id, state, trades, actions) =>
      if Closable(s, id, state, trades) {
        var p, t := s.positions[id], WithPosState(s, id, state);
        LegsKeepSound(r, Announce(t, p.user), LegsOf(s.orders, trades, p.user, p.leverage), actions);
      }
    case Fill(trades, taker, leverage, actions) =>
      LegsKeepSound(r, Announce(s, taker), LegsOf(s.orders, trades, taker, leverage), actions);
    case FilledLimit(o, trades, actions) =>
      var t := s.(accounts := Unfreeze(Freeze(s.accounts, o.user, Hold(r, o)), o.user, Hold(r, o)));
      if CanPay(s.accounts, o.user, Hold(r, o)) {
        LegsKeepSound(r, Announce(t, o.user), LegsOf(s.orders, trades, o.user, o.leverage), actions);
      }
    case RestingLimit(id, o) =>
    case CancelOrder(id, user) =>
    case MarkState(id, state) =>
    case Deleverage(l, a) => UpdateKeepsSound(r, Announce(s, l.user), l, a);
    case SettleOne =>
  }

  lemma {:induction false} RunKeepsSound(r: Rates, s: State, ops: seq<Op>)
    requires AllSound(r, s.positions) && Run(r, s, ops).Just?
    ensures AllSound(r, Run(r, s, ops).state.positions)
  {
    hide AllSound, Step;
    if ops == [] {
    } else {
      RunKeepsSound(r, s, ops[..|ops| - 1]);
      StepKeepsSound(r, Run(r, s, ops[..|ops| - 1]).state, ops[|ops| - 1]);
    }
  }

  /** After any run, a position is up for liquidation at a mark price exactly when its margin ratio
      there is at or below the maintenance rate, up for forced take-profit exactly when its return
      has reached the forced rate, and worth nothing at its bankruptcy price. */
  lemma RiskPricesMeanWhatTheySay(r: Rates, s: State, ops: seq<Op>, id: int, mark: real)
    requires AllSound(r, s.positions) && Run(r, s, ops).Just? && id in Run(r, s, ops).state.positions && mark > 0.0
    ensures var p := Run(r, s, ops).state.positions[id];
            && (ShouldLiquidate(mark, p.liqPrice, p.side) <==>
                MarginRatio(p.margin, Pnl(p.entry, mark, p.qty, p.side), p.qty, mark) <= r.maint)
            && (p.entry > 0.0 ==>
                  (ShouldTrigger(mark, p.forceTpPrice, p.side, true) <==>
                   Roi(Pnl(p.entry, mark, p.qty, p.side), p.margin) >= r.forceTp * 100.0))
            && p.margin + Pnl(p.entry, BankruptcyPrice(p.entry, p.leverage, p.side), p.qty, p.side) == 0.0
  {
    hide Margined, ShouldLiquidate, MarginRatio, ShouldTrigger, Roi, Pnl, Run, LiquidationPrice, ForceTpPrice,
         BankruptcyPrice;
    RunKeepsSound(r, s, ops);
    var p := Run(r, s, ops).state.positions[id];
    LiquidationIsMarginRatio(p.entry, p.qty, p.margin, p.leverage, p.side, r.maint, mark);
    if p.entry > 0.0 {
      ForceTpIsReturn(p.entry, p.qty, p.margin, p.leverage, p.side, r.forceTp, mark);
    }
    BankruptcyLosesTheMargin(p.entry, p.qty, p.margin, p.leverage, p.side);
  }

  /** Two sound positions with the same size and entry have the same margin and risk prices. */
  lemma SameEntry(r: Rates, p: Position, q: Position)
    requires Sound(r, p) && Sound(r, q) && p.qty == q.qty && p.leverage == q.leverage && p.side == q.side
    requires Mul(p.entry, p.qty) == Mul(q.entry, q.qty)
    ensures p.entry == q.entry && p.margin == q.margin && p.liqPrice == q.liqPrice && p.forceTpPrice == q.forceTpPrice
  {
    hide LiquidationPrice, ForceTpPrice, Mul, Margined;
    MulOrder(p.entry, q.entry, p.qty);
    MarginedIs(p.entry, p.qty, p.margin, p.leverage);
    MarginedIs(q.entry, q.qty, q.margin, q.leverage);
    MulOrder(p.margin, q.margin, p.leverage as real);
  }
}
