/** What trading conserves: equity at every reference price, up to fees, and the open interest. */
module Conservation {
  import opened Sums
  import opened PositionMath
  import opened Clearance
  import opened Ledger
  import OrderBook

  // ------------------------------------------------------------- the totals

  ghost function Balances(a: Accounts): map<int, real> {
    map u | u in a :: a[u].balance
  }

  ghost function WorthOf(p: Position, x: real): real {
    Worth(p.margin, p.funding, p.entry, p.qty, p.side, x)
  }

  ghost function Worths(ps: Positions, x: real): map<int, real> {
    map id | id in ps :: WorthOf(ps[id], x)
  }

  /** All balances and all positions, valued at the reference price x. */
  ghost function Equity(s: State, x: real): real {
    MapSum(Balances(s.accounts)) + MapSum(Worths(s.positions, x))
  }

  function SignedQty(side: Side, qty: real): real { if side == 1 then qty else -qty }

  ghost function Share(p: Position, who: int -> bool): real {
    if who(p.user) then SignedQty(p.side, p.qty) else 0.0
  }

  ghost function Shares(ps: Positions, who: int -> bool): map<int, real> {
    map id | id in ps :: Share(ps[id], who)
  }

  /** Longs minus shorts of a group of users. */
  ghost function Exposure(s: State, who: int -> bool): real {
    MapSum(Shares(s.positions, who))
  }

  function Everyone(): int -> bool { (u: int) => true }

  // ------------------------------------------------- changing one map entry

  lemma BalanceCredited(a: Accounts, u: int, d: real)
    requires u in a
    ensures MapSum(Balances(Credit(a, u, d))) == MapSum(Balances(a)) + d
  {
    SumPut(Balances(a), u, a[u].balance + d);
    assert Balances(Credit(a, u, d)) == Balances(a)[u := a[u].balance + d];
  }

  lemma PositionPut(ps: Positions, id: int, p: Position, x: real, who: int -> bool)
    ensures MapSum(Worths(ps[id := p], x))
            == MapSum(Worths(ps, x)) + WorthOf(p, x) - (if id in ps then WorthOf(ps[id], x) else 0.0)
    ensures MapSum(Shares(ps[id := p], who))
            == MapSum(Shares(ps, who)) + Share(p, who) - (if id in ps then Share(ps[id], who) else 0.0)
  {
    SumPut(Worths(ps, x), id, WorthOf(p, x));
    assert Worths(ps[id := p], x) == Worths(ps, x)[id := WorthOf(p, x)];
    SumPut(Shares(ps, who), id, Share(p, who));
    assert Shares(ps[id := p], who) == Shares(ps, who)[id := Share(p, who)];
  }

  lemma PositionCut(ps: Positions, id: int, x: real, who: int -> bool)
    requires id in ps
    ensures MapSum(Worths(ps - {id}, x)) == MapSum(Worths(ps, x)) - WorthOf(ps[id], x)
    ensures MapSum(Shares(ps - {id}, who)) == MapSum(Shares(ps, who)) - Share(ps[id], who)
  {
    SumCut(Worths(ps, x), id);
    assert Worths(ps - {id}, x) == Worths(ps, x) - {id};
    SumCut(Shares(ps, who), id);
    assert Shares(ps - {id}, who) == Shares(ps, who) - {id};
  }

  // ------------------------------------------------------------- one leg

  /** Before anything is done: would the leg be applied in full? */
  predicate Affordable(r: Rates, s: State, l: Leg, a: Action) {
    match a
    case Open => CanPay(s.accounts, l.user, Opened(r, l).totalCost)
    case Increase(id) => id in s.positions && CanPay(s.accounts, l.user, Increased(r, s.positions[id], l).addMargin)
    case Reduce(id) =>
      id in s.positions
      && (l.qty <= s.positions[id].qty
          || (var p := s.positions[id];
              var c := Reduced(r, p, l);
              CanPay(Credit(s.accounts, l.user, c.closeMargin + c.netPnl), l.user,
                     Opened(r, l.(qty := l.qty - p.qty, isMaker := false)).totalCost)))
  }

  /** How much of the leg is applied. */
  function Applied(r: Rates, s: State, l: Leg, a: Action): real {
    if Affordable(r, s, l, a) then l.qty
    else if a.Reduce? && a.id in s.positions then s.positions[a.id].qty
    else 0.0
  }

  /** Opening pays the owner's own rate, adding nothing, reducing and flipping the taker's. */
  function LegFeeRate(r: Rates, l: Leg, a: Action): real {
    match a
    case Open => if l.isMaker then r.maker else r.taker
    case Increase(_) => 0.0
    case Reduce(_) => r.taker
  }

  function Charged(rate: real, price: real, qty: real): real { price * qty * rate }

  function LegFee(r: Rates, s: State, l: Leg, a: Action): real {
    Charged(LegFeeRate(r, l, a), l.price, Applied(r, s, l, a))
  }

  /** The change a leg makes: the fee leaves, and the quantity q arrives at the leg's price. */
  ghost predicate Moves(s: State, t: State, l: Leg, q: real, fee: real, x: real, who: int -> bool) {
    && Equity(t, x) == Equity(s, x) - fee + Pnl(l.price, x, q, l.side)
    && Exposure(t, who) == Exposure(s, who) + if who(l.user) then SignedQty(l.side, q) else 0.0
  }

  lemma OpenMoves(r: Rates, s: State, l: Leg, x: real, who: int -> bool)
    requires s.nextPosId + 1 !in s.positions && CanPay(s.accounts, l.user, Opened(r, l).totalCost)
    ensures Moves(s, HandleOpen(r, s, l), l, l.qty, Charged(if l.isMaker then r.maker else r.taker, l.price, l.qty), x,
                  who)
  {
    hide Pnl, MapSum;
    var c, id := Opened(r, l), s.nextPosId + 1;
    var t := HandleOpen(r, s, l);
    BalanceCredited(s.accounts, l.user, -c.totalCost);
    PositionPut(s.positions, id, t.positions[id], x, who);
  }

  lemma IncreaseMoves(r: Rates, s: State, l: Leg, id: int, x: real, who: int -> bool)
    requires id in s.positions && Growable(s.positions[id], l.user, l.side)
    requires CanPay(s.accounts, l.user, Increased(r, s.positions[id], l).addMargin)
    ensures Moves(s, HandleIncrease(r, s, l, id), l, l.qty, 0.0, x, who)
  {
    hide Pnl, MapSum, CalcIncrease;
    var p := s.positions[id];
    BalanceCredited(s.accounts, l.user, -Increased(r, p, l).addMargin);
    PositionPut(s.positions, id, Grown(r, p, l), x, who);
    IncreaseWorth(r, p.entry, p.qty, p.margin, p.funding, p.leverage, p.side, l.qty, l.price, x);
    IncreaseForm(r, p.entry, p.qty, p.margin, p.leverage, p.side, l.qty, l.price);
  }

  lemma ReduceMoves(r: Rates, s: State, l: Leg, id: int, x: real, who: int -> bool)
    requires id in s.positions && Reducible(s.positions[id], l.user, l.side) && l.user in s.accounts
    ensures var q := Reduced(r, s.positions[id], l).closeQty;
            Moves(s, ReducePart(r, s, l, id), l, q, Charged(r.taker, l.price, q), x, who)
  {
    hide Pnl, MapSum, CalcReduce, Worths, Shares, Balances;
    var p := s.positions[id];
    var c := Reduced(r, p, l);
    BalanceCredited(s.accounts, l.user, c.closeMargin + c.netPnl);
    if c.isFullClose {
      PositionCut(s.positions, id, x, who);
    } else {
      PositionPut(s.positions, id, Shrunk(r, p, l), x, who);
    }
    ReduceWorth(r, p.entry, l.price, p.qty, p.margin, p.funding, p.leverage, p.side, l.qty, x);
    ReduceForm(r, p.entry, l.price, p.qty, p.margin, p.funding, p.leverage, p.side, l.qty);
    FeeForm(r.taker, l.price, c.closeQty);
  }

  /** Ids are handed out upwards, and every position and pending order has an account. */
  ghost predicate Linked(s: State) {
    && 0 <= s.nextPosId
    && (forall id | id in s.positions ::
          0 < s.positions[id].id == id <= s.nextPosId && s.positions[id].user in s.accounts)
    && (forall id | id in s.orders :: s.orders[id].user in s.accounts)
  }

  lemma MovesChain(s: State, t: State, u: State, l: Leg, q: real, q': real, rate: real, x: real, who: int -> bool)
    requires Moves(s, t, l, q, Charged(rate, l.price, q), x, who)
    requires Moves(t, u, l, q', Charged(rate, l.price, q'), x, who)
    ensures Moves(s, u, l, q + q', Charged(rate, l.price, q + q'), x, who)
  {
  }

  lemma NothingMoves(s: State, l: Leg, rate: real, x: real, who: int -> bool)
    ensures Moves(s, s, l, 0.0, Charged(rate, l.price, 0.0), x, who)
  {
  }

  lemma FlipMoves(r: Rates, s: State, l: Leg, id: int, x: real, who: int -> bool)
    requires Linked(s) && id in s.positions && Reducible(s.positions[id], l.user, l.side)
    ensures var a := Reduce(id); Moves(s, HandleReduce(r, s, l, id), l, Applied(r, s, l, a), LegFee(r, s, l, a), x, who)
  {
    hide Moves, Charged, CalcReduce, CalcOpen;
    var p := s.positions[id];
    ReduceMoves(r, s, l, id, x, who);
    ReducedQty(r, p, l);
    var rest := l.qty - p.qty;
    if rest > 0.0 {
      var l' := l.(qty := rest, isMaker := false);
      var t := ReducePart(r, s, l, id);
      if CanPay(t.accounts, l.user, Opened(r, l').totalCost) {
        OpenMoves(r, t, l', x, who);
        SameMoves(t, HandleOpen(r, t, l'), l', l, rest, Charged(r.taker, l.price, rest), x, who);
        MovesChain(s, t, HandleOpen(r, t, l'), l, p.qty, rest, r.taker, x, who);
      }
    }
  }

  lemma ReducedQty(r: Rates, p: Position, l: Leg)
    ensures Reduced(r, p, l).closeQty == if l.qty <= p.qty then l.qty else p.qty
  {
  }

  lemma SameMoves(s: State, t: State, l: Leg, l': Leg, q: real, fee: real, x: real, who: int -> bool)
    requires Moves(s, t, l, q, fee, x, who) && l.user == l'.user && l.side == l'.side && l.price == l'.price
    ensures Moves(s, t, l', q, fee, x, who)
  {
  }

  /** A leg moves its owner's exposure by its side times the quantity applied, and everybody's
      equity by no more than the fee and the change of hands at the leg's price.  It is applied in
      full exactly when `Affordable` said so. */
  lemma UpdateMoves(r: Rates, s: State, l: Leg, a: Action, x: real, who: int -> bool)
    requires Linked(s) && Allowed(s.positions, l, a)
    ensures Moves(s, UpdatePosition(r, s, l, a), l, Applied(r, s, l, a), LegFee(r, s, l, a), x, who)
    ensures Applied(r, s, l, a) == l.qty <==> Affordable(r, s, l, a)
  {
    hide Moves, Charged, CalcReduce, CalcOpen, CalcIncrease, AnyReducible, AnyGrowable;
    match a
    case Open =>
      if Affordable(r, s, l, a) {
        OpenMoves(r, s, l, x, who);
      } else {
        NothingMoves(s, l, LegFeeRate(r, l, a), x, who);
      }
    case Increase(id) =>
      if Affordable(r, s, l, a) {
        IncreaseMoves(r, s, l, id, x, who);
        ChargedZero(l.price, l.qty);
      } else {
        NothingMoves(s, l, 0.0, x, who);
      }
    case Reduce(id) =>
      FlipMoves(r, s, l, id, x, who);
  }

  lemma ChargedZero(price: real, qty: real)
    ensures Charged(0.0, price, qty) == 0.0
  {
  }

  lemma HandleOpenKeepsLinked(r: Rates, s: State, l: Leg)
    requires Linked(s)
    ensures Linked(HandleOpen(r, s, l))
  {
  }

  lemma UpdateKeepsLinked(r: Rates, s: State, l: Leg, a: Action)
    requires Linked(s) && Allowed(s.positions, l, a)
    ensures Linked(UpdatePosition(r, s, l, a))
  {
    hide CalcReduce, CalcOpen, CalcIncrease, AnyReducible, AnyGrowable;
    match a
    case Open => HandleOpenKeepsLinked(r, s, l);
    case Increase(id) =>
    case Reduce(id) =>
      var t := ReducePart(r, s, l, id);
      assert Linked(t);
      var rest := l.qty - s.positions[id].qty;
      if rest > 0.0 {
        HandleOpenKeepsLinked(r, t, l.(qty := rest, isMaker := false));
      }
  }

  // ---------------------------------------------------------- lists of legs

  /** What a list of legs does to the totals: fees paid, value exchanged at a reference price, and
      quantity bought net. */
  datatype Flow = Flow(fees: real, exchanged: real, net: real)

  const STILL := Flow(0.0, 0.0, 0.0)

  function AddFlows(f: Flow, g: Flow): Flow { Flow(f.fees + g.fees, f.exchanged + g.exchanged, f.net + g.net) }

  /** One leg of quantity q at its own price. */
  function LegFlow(l: Leg, q: real, fee: real, x: real, who: int -> bool): Flow {
    Flow(fee, Pnl(l.price, x, q, l.side), if who(l.user) then SignedQty(l.side, q) else 0.0)
  }

  /** Every leg counts for as much of it as is applied in the state it meets. */
  ghost function LegsFlow(r: Rates, s: State, legs: seq<Leg>, actions: seq<Action>, x: real, who: int -> bool): Flow {
    if legs == [] || |legs| != |actions| then STILL
    else
      var n := |legs| - 1;
      var front := LegsFlow(r, s, legs[..n], actions[..n], x, who);
      match ApplyLegs(r, s, legs[..n], actions[..n])
      case Nothing => front
      case Just(t) =>
        AddFlows(front, LegFlow(legs[n], Applied(r, t, legs[n], actions[n]), LegFee(r, t, legs[n], actions[n]), x, who))
  }

  ghost predicate FlowsTo(s: State, t: State, f: Flow, x: real, who: int -> bool) {
    Equity(t, x) == Equity(s, x) - f.fees + f.exchanged && Exposure(t, who) == Exposure(s, who) + f.net
  }

  lemma FlowsChain(s: State, t: State, u: State, f: Flow, g: Flow, x: real, who: int -> bool)
    requires FlowsTo(s, t, f, x, who) && FlowsTo(t, u, g, x, who)
    ensures FlowsTo(s, u, AddFlows(f, g), x, who)
  {
  }

  lemma UpdateFlows(r: Rates, s: State, l: Leg, a: Action, x: real, who: int -> bool)
    requires Linked(s) && Allowed(s.positions, l, a)
    ensures Linked(UpdatePosition(r, s, l, a))
    ensures FlowsTo(s, UpdatePosition(r, s, l, a), LegFlow(l, Applied(r, s, l, a), LegFee(r, s, l, a), x, who), x, who)
  {
    hide Linked, Equity, Exposure, Allowed, Affordable, UpdatePosition, Pnl, Applied, LegFee;
    UpdateMoves(r, s, l, a, x, who);
    UpdateKeepsLinked(r, s, l, a);
  }

  /** Whatever legs are applied, to whatever extent, the totals follow. */
  lemma {:induction false} LegsMove(r: Rates, s: State, legs: seq<Leg>, actions: seq<Action>, x: real, who: int -> bool)
    requires Linked(s) && ApplyLegs(r, s, legs, actions).Just?
    ensures var t := ApplyLegs(r, s, legs, actions).state;
            Linked(t) && FlowsTo(s, t, LegsFlow(r, s, legs, actions, x, who), x, who)
  {
    hide Linked, FlowsTo, Allowed, UpdatePosition, LegFlow, AddFlows, Applied, LegFee;
    if legs == [] {
      StillFlows(s, x, who);
    } else {
      var n := |legs| - 1;
      LegsMove(r, s, legs[..n], actions[..n], x, who);
      var t := ApplyLegs(r, s, legs[..n], actions[..n]).state;
      UpdateFlows(r, t, legs[n], actions[n], x, who);
      FlowsChain(s, t, UpdatePosition(r, t, legs[n], actions[n]), LegsFlow(r, s, legs[..n], actions[..n], x, who),
                 LegFlow(legs[n], Applied(r, t, legs[n], actions[n]), LegFee(r, t, legs[n], actions[n]), x, who),
                 x, who);
    }
  }

  lemma StillFlows(s: State, x: real, who: int -> bool)
    ensures FlowsTo(s, s, STILL, x, who)
  {
  }

  // ------------------------------------------------------ legs all applied

  /** Does every leg of the list get applied in full, as the states along the way decide? */
  ghost predicate AllAffordable(r: Rates, s: State, legs: seq<Leg>, actions: seq<Action>) {
    forall k | 0 <= k < |legs| ::
      k < |actions| && LegAffordable(r, ApplyLegs(r, s, legs[..k], actions[..k]), legs[k], actions[k])
  }

  ghost predicate LegAffordable(r: Rates, o: Outcome, l: Leg, a: Action) {
    o.Just? && Affordable(r, o.state, l, a)
  }

  ghost function Fees(r: Rates, legs: seq<Leg>, actions: seq<Action>): real
    requires |legs| == |actions|
  {
    if legs == [] then 0.0
    else
      var n := |legs| - 1;
      Fees(r, legs[..n], actions[..n]) + Charged(LegFeeRate(r, legs[n], actions[n]), legs[n].price, legs[n].qty)
  }

  /** Value that changes hands at the reference price x: nothing on the whole when every leg has a
      counterpart. */
  ghost function Exchanged(legs: seq<Leg>, x: real): real {
    if legs == [] then 0.0
    else
      var n := |legs| - 1;
      Exchanged(legs[..n], x) + Pnl(legs[n].price, x, legs[n].qty, legs[n].side)
  }

  ghost function NetBought(legs: seq<Leg>, who: int -> bool): real {
    if legs == [] then 0.0
    else
      var n := |legs| - 1;
      NetBought(legs[..n], who) + if who(legs[n].user) then SignedQty(legs[n].side, legs[n].qty) else 0.0
  }

  /** When all are, the flow is read off the legs. */
  lemma {:induction false} PaidLegsFlow(r: Rates, s: State, legs: seq<Leg>, actions: seq<Action>, x: real,
                                        who: int -> bool)
    requires |legs| == |actions| && AllAffordable(r, s, legs, actions)
    ensures LegsFlow(r, s, legs, actions, x, who)
            == Flow(Fees(r, legs, actions), Exchanged(legs, x), NetBought(legs, who))
  {
    hide ApplyLegs, Affordable, Pnl, LegFeeRate, Charged;
    if legs == [] {
    } else {
      var n := |legs| - 1;
      FrontAffordable(r, s, legs, actions);
      PaidLegsFlow(r, s, legs[..n], actions[..n], x, who);
    }
  }

  lemma FrontAffordable(r: Rates, s: State, legs: seq<Leg>, actions: seq<Action>)
    requires legs != [] && |legs| == |actions| && AllAffordable(r, s, legs, actions)
    ensures var n := |legs| - 1;
            && AllAffordable(r, s, legs[..n], actions[..n])
            && LegAffordable(r, ApplyLegs(r, s, legs[..n], actions[..n]), legs[n], actions[n])
  {
    hide ApplyLegs, LegAffordable;
    var n := |legs| - 1;
    assert forall k | 0 <= k < n :: legs[..n][..k] == legs[..k] && actions[..n][..k] == actions[..k];
  }

  // ------------------------------------------------------ trades and runs

  /** Every trade has two sides, so nothing changes hands on the whole. */
  lemma {:induction false} TradesCancel(orders: map<int, Pending>, trades: seq<GoodTrade>, taker: int, leverage: int,
                                        x: real)
    ensures var legs := LegsOf(orders, trades, taker, leverage);
            Exchanged(legs, x) == 0.0 && NetBought(legs, Everyone()) == 0.0
  {
    if trades == [] {
    } else {
      var n := |trades| - 1;
      var t := trades[n];
      TradesCancel(orders, trades[..n], taker, leverage, x);
      var front := LegsOf(orders, trades[..n], taker, leverage);
      var buy, sell := BuyLeg(orders, t, taker, leverage), SellLeg(orders, t, taker, leverage);
      LastTwo(front, buy, sell, x, Everyone());
      PnlFlips(t.price, x, t.quantity, 1);
    }
  }

  lemma LastTwo(front: seq<Leg>, l: Leg, l': Leg, x: real, who: int -> bool)
    ensures Exchanged(front + [l, l'], x)
            == Exchanged(front, x) + Pnl(l.price, x, l.qty, l.side) + Pnl(l'.price, x, l'.qty, l'.side)
    ensures NetBought(front + [l, l'], who)
            == NetBought(front, who) + (if who(l.user) then SignedQty(l.side, l.qty) else 0.0)
                                               + (if who(l'.user) then SignedQty(l'.side, l'.qty) else 0.0)
  {
    var legs := front + [l, l'];
    assert legs[..|legs| - 1] == front + [l];
    assert (front + [l])[..|front|] == front;
  }

  /** Bought minus sold by the users of a group. */
  ghost function TradedBy(trades: seq<GoodTrade>, who: int -> bool): real {
    if trades == [] then 0.0
    else
      var n := |trades| - 1;
      var t := trades[n];
      TradedBy(trades[..n], who)
        + (if who(t.buyUserId) then t.quantity else 0.0) - (if who(t.sellUserId) then t.quantity else 0.0)
  }

  lemma {:induction false} LegsAreTrades(orders: map<int, Pending>, trades: seq<GoodTrade>, taker: int, leverage: int,
                                         who: int -> bool)
    ensures NetBought(LegsOf(orders, trades, taker, leverage), who) == TradedBy(trades, who)
  {
    if trades == [] {
    } else {
      var n := |trades| - 1;
      LegsAreTrades(orders, trades[..n], taker, leverage, who);
      LastTwo(LegsOf(orders, trades[..n], taker, leverage), BuyLeg(orders, trades[n], taker, leverage),
              SellLeg(orders, trades[n], taker, leverage), 0.0, who);
    }
  }

  /** Zero-sum: when every leg of a list of trades can be paid for, each group of users ends up with
      what it traded, longs still equal shorts as far as they did, and at every reference price the
      equity of all accounts together drops by exactly the fees. */
  lemma TradesAreZeroSum(r: Rates, s: State, trades: seq<GoodTrade>, taker: int, leverage: int, actions: seq<Action>,
                         x: real, who: int -> bool)
    requires Linked(s) && ProcessTrades(r, s, trades, taker, leverage, actions).Just?
    requires AllAffordable(r, s, LegsOf(s.orders, trades, taker, leverage), actions)
    ensures var t := ProcessTrades(r, s, trades, taker, leverage, actions).state;
            && Linked(t)
            && Equity(t, x) == Equity(s, x) - Fees(r, LegsOf(s.orders, trades, taker, leverage), actions)
            && Exposure(t, who) == Exposure(s, who) + TradedBy(trades, who)
            && Exposure(t, Everyone()) == Exposure(s, Everyone())
  {
    hide Linked, Equity, Exposure, ApplyLegs, AllAffordable;
    var legs := LegsOf(s.orders, trades, taker, leverage);
    LegsMove(r, s, legs, actions, x, who);
    LegsMove(r, s, legs, actions, x, Everyone());
    LegsCounted(r, s, legs, actions);
    PaidLegsFlow(r, s, legs, actions, x, who);
    PaidLegsFlow(r, s, legs, actions, x, Everyone());
    TradesCancel(s.orders, trades, taker, leverage, x);
    LegsAreTrades(s.orders, trades, taker, leverage, who);
  }

  lemma LegsCounted(r: Rates, s: State, legs: seq<Leg>, actions: seq<Action>)
    ensures ApplyLegs(r, s, legs, actions).Just? ==> |legs| == |actions|
  {
  }

  /** Does the operation apply legs? */
  predicate Trades(r: Rates, s: State, op: Op) {
    match op
    case Fill(_, _, _, _) => true
    case FilledLimit(o, _, _) => CanPay(s.accounts, o.user, Hold(r, o))
    case Close(id, state, trades, _) => Closable(s, id, state, trades)
    case Deleverage(_, _) => true
    case _ => false
  }

  /** The state in which the legs of an operation are applied. */
  function Before(r: Rates, s: State, op: Op): State
    requires Trades(r, s, op)
  {
    match op
    case Fill(_, taker, _, _) => Announce(s, taker)
    case FilledLimit(o, _, _) =>
      Announce(s.(accounts := Unfreeze(Freeze(s.accounts, o.user, Hold(r, o)), o.user, Hold(r, o))), o.user)
    case Close(id, state, _, _) => Announce(WithPosState(s, id, state), s.positions[id].user)
    case Deleverage(l, _) => Announce(s, l.user)
  }

  ghost function LegsIn(r: Rates, s: State, op: Op): seq<Leg>
    requires Trades(r, s, op)
  {
    match op
    case Fill(trades, taker, leverage, _) => LegsOf(s.orders, trades, taker, leverage)
    case FilledLimit(o, trades, _) => LegsOf(s.orders, trades, o.user, o.leverage)
    case Close(id, _, trades, _) => LegsOf(s.orders, trades, s.positions[id].user, s.positions[id].leverage)
    case Deleverage(l, _) => [l]
  }

  function ActionsIn(op: Op): seq<Action> {
    match op
    case Fill(_, _, _, actions) => actions
    case FilledLimit(_, _, actions) => actions
    case Close(_, _, _, actions) => actions
    case Deleverage(_, a) => [a]
    case _ => []
  }

  lemma StepIsLegs(r: Rates, s: State, op: Op)
    requires Trades(r, s, op) && Step(r, s, op).Just?
    ensures Step(r, s, op) == ApplyLegs(r, Before(r, s, op), LegsIn(r, s, op), ActionsIn(op))
  {
    hide HoldOf, LegsOf, UpdatePosition, Allowed;
    if op.Deleverage? {
      OneLeg(r, Announce(s, op.leg.user), op.leg, op.action);
    }
  }

  lemma OneLeg(r: Rates, s: State, l: Leg, a: Action)
    requires Allowed(s.positions, l, a)
    ensures ApplyLegs(r, s, [l], [a]) == Just(UpdatePosition(r, s, l, a))
  {
    hide Allowed, UpdatePosition;
    assert [l][..0] == [] && [a][..0] == [];
  }

  ghost predicate SameBalances(a: Accounts, b: Accounts) {
    a.Keys == b.Keys && forall u | u in a :: a[u].balance == b[u].balance
  }

  /** Equal but for the state of a close in progress. */
  ghost predicate SameHoldings(ps: Positions, qs: Positions) {
    ps.Keys == qs.Keys && forall id | id in ps :: qs[id] == ps[id].(state := qs[id].state)
  }

  lemma NothingTraded(s: State, t: State, x: real, who: int -> bool)
    requires SameBalances(s.accounts, t.accounts) && SameHoldings(s.positions, t.positions)
    ensures FlowsTo(s, t, STILL, x, who)
  {
    SumsAgree(Balances(s.accounts), Balances(t.accounts));
    SumsAgree(Worths(s.positions, x), Worths(t.positions, x));
    SumsAgree(Shares(s.positions, who), Shares(t.positions, who));
  }

  lemma BeforeIsSame(r: Rates, s: State, op: Op, x: real, who: int -> bool)
    requires Linked(s) && Trades(r, s, op)
    ensures var t := Before(r, s, op); Linked(t) && t.orders == s.orders && FlowsTo(s, t, STILL, x, who)
  {
    hide HoldOf, FlowsTo;
    NothingTraded(s, Before(r, s, op), x, who);
  }

  /** Money that comes in from outside. */
  function Deposit(op: Op): real { if op.LoadAccount? then op.balance else 0.0 }

  ghost function StepFlow(r: Rates, s: State, op: Op, x: real, who: int -> bool): Flow {
    if Trades(r, s, op) then LegsFlow(r, Before(r, s, op), LegsIn(r, s, op), ActionsIn(op), x, who) else STILL
  }

  lemma QuietStep(r: Rates, s: State, op: Op, x: real, who: int -> bool)
    requires Linked(s) && !Trades(r, s, op) && !op.LoadAccount? && Step(r, s, op).Just?
    ensures var t := Step(r, s, op).state; Linked(t) && FlowsTo(s, t, STILL, x, who)
  {
    hide HoldOf, FlowsTo;
    var t := Step(r, s, op).state;
    match op
    case RestingLimit(id, o) => NothingTraded(s, t, x, who);
    case CancelOrder(id, user) => NothingTraded(s, t, x, who);
    case MarkState(id, state) => NothingTraded(s, t, x, who);
    case SettleOne => NothingTraded(s, t, x, who);
    case FilledLimit(_, _, _) => NothingTraded(s, t, x, who);
    case Close(_, _, _, _) => NothingTraded(s, t, x, who);
  }

  lemma LoadDeposits(s: State, user: int, balance: real, x: real, who: int -> bool)
    requires Linked(s) && user !in s.accounts
    ensures var t := Registered(s, user, balance);
            Linked(t) && Equity(t, x) == Equity(s, x) + balance && Exposure(t, who) == Exposure(s, who)
  {
    hide MapSum;
    SumPut(Balances(s.accounts), user, balance);
    assert Balances(s.accounts[user := Account(balance, 0.0)]) == Balances(s.accounts)[user := balance];
  }

  /** Every operation moves the totals by its deposit and its flow. */
  lemma StepMoves(r: Rates, s: State, op: Op, x: real, who: int -> bool)
    requires Linked(s) && Step(r, s, op).Just?
    ensures var t, f := Step(r, s, op).state, StepFlow(r, s, op, x, who);
            && Linked(t) && Equity(t, x) == Equity(s, x) + Deposit(op) - f.fees + f.exchanged
            && Exposure(t, who) == Exposure(s, who) + f.net
  {
    hide Linked, Equity, Exposure, ApplyLegs, LegsFlow, Before, LegsIn, ActionsIn, Trades, Registered, Unknown;
    if op.LoadAccount? {
      LoadIsUnknown(r, s, op);
      LoadDeposits(s, op.user, op.balance, x, who);
    } else if Trades(r, s, op) {
      StepIsLegs(r, s, op);
      BeforeIsSame(r, s, op, x, who);
      LegsMove(r, Before(r, s, op), LegsIn(r, s, op), ActionsIn(op), x, who);
    } else {
      QuietStep(r, s, op, x, who);
    }
  }

  lemma LoadIsUnknown(r: Rates, s: State, op: Op)
    requires op.LoadAccount? && Step(r, s, op).Just?
    ensures op.user !in s.accounts && Step(r, s, op) == Just(Registered(s, op.user, op.balance)) && !Trades(r, s, op)
  {
  }

  ghost function RunDeposits(ops: seq<Op>): real {
    if ops == [] then 0.0 else RunDeposits(ops[..|ops| - 1]) + Deposit(ops[|ops| - 1])
  }

  ghost function RunFlow(r: Rates, s: State, ops: seq<Op>, x: real, who: int -> bool): Flow {
    if ops == [] then STILL
    else
      var n := |ops| - 1;
      var o := Run(r, s, ops[..n]);
      AddFlows(RunFlow(r, s, ops[..n], x, who), if o.Just? then StepFlow(r, o.state, ops[n], x, who) else STILL)
  }

  /** Over every run whatsoever: equity moves by the deposits, the fees and what was exchanged, and
      a group's exposure by what it bought net, counting each leg for as much as was applied. */
  lemma {:induction false} RunMoves(r: Rates, s: State, ops: seq<Op>, x: real, who: int -> bool)
    requires Linked(s) && Run(r, s, ops).Just?
    ensures var t, f := Run(r, s, ops).state, RunFlow(r, s, ops, x, who);
            && Linked(t) && Equity(t, x) == Equity(s, x) + RunDeposits(ops) - f.fees + f.exchanged
            && Exposure(t, who) == Exposure(s, who) + f.net
  {
    hide Linked, Equity, Exposure, StepFlow, Step, Deposit;
    if ops == [] {
    } else {
      var n := |ops| - 1;
      RunMoves(r, s, ops[..n], x, who);
      StepMoves(r, Run(r, s, ops[..n]).state, ops[n], x, who);
    }
  }

  /** Both sides of every trade are paid for, and nobody is deleveraged without a counterpart. */
  ghost predicate Balanced(r: Rates, s: State, op: Op) {
    Trades(r, s, op) ==>
      && !op.Deleverage? && |LegsIn(r, s, op)| == |ActionsIn(op)|
      && AllAffordable(r, Before(r, s, op), LegsIn(r, s, op), ActionsIn(op))
  }

  ghost function StepFees(r: Rates, s: State, op: Op): real {
    if Trades(r, s, op) && |LegsIn(r, s, op)| == |ActionsIn(op)| then Fees(r, LegsIn(r, s, op), ActionsIn(op)) else 0.0
  }

  lemma BalancedFlow(r: Rates, s: State, op: Op, x: real)
    requires Balanced(r, s, op)
    ensures StepFlow(r, s, op, x, Everyone()) == Flow(StepFees(r, s, op), 0.0, 0.0)
  {
    hide AllAffordable, ApplyLegs, LegsOf, HoldOf, Fees, Exchanged, NetBought, LegsFlow;
    if Trades(r, s, op) {
      PaidLegsFlow(r, Before(r, s, op), LegsIn(r, s, op), ActionsIn(op), x, Everyone());
      match op
      case Fill(trades, taker, leverage, _) => TradesCancel(s.orders, trades, taker, leverage, x);
      case FilledLimit(o, trades, _) => TradesCancel(s.orders, trades, o.user, o.leverage, x);
      case Close(id, _, trades, _) => TradesCancel(s.orders, trades, s.positions[id].user, s.positions[id].leverage, x);
    }
  }

  ghost predicate BalancedRun(r: Rates, s: State, ops: seq<Op>) {
    ops != [] ==>
      var n := |ops| - 1;
      BalancedRun(r, s, ops[..n]) && (var o := Run(r, s, ops[..n]); o.Just? ==> Balanced(r, o.state, ops[n]))
  }

  ghost function RunFees(r: Rates, s: State, ops: seq<Op>): real {
    if ops == [] then 0.0
    else
      var n := |ops| - 1;
      RunFees(r, s, ops[..n]) + (var o := Run(r, s, ops[..n]); if o.Just? then StepFees(r, o.state, ops[n]) else 0.0)
  }

  lemma {:induction false} BalancedRunFlow(r: Rates, s: State, ops: seq<Op>, x: real)
    requires BalancedRun(r, s, ops)
    ensures RunFlow(r, s, ops, x, Everyone()) == Flow(RunFees(r, s, ops), 0.0, 0.0)
  {
    hide Balanced, StepFees, StepFlow, Step;
    if ops == [] {
    } else {
      var n := |ops| - 1;
      BalancedRunFlow(r, s, ops[..n], x);
      if Run(r, s, ops[..n]).Just? {
        BalancedFlow(r, Run(r, s, ops[..n]).state, ops[n], x);
      }
    }
  }

  /** When both sides of every trade were paid for and nobody was deleveraged, the equity of everybody
      together, at any reference price, is what was deposited less exactly the fees, and longs minus
      shorts stays what it was. */
  lemma RunConserves(r: Rates, s: State, ops: seq<Op>, x: real)
    requires Linked(s) && Run(r, s, ops).Just? && BalancedRun(r, s, ops)
    ensures var t := Run(r, s, ops).state;
            && Linked(t) && Equity(t, x) == Equity(s, x) + RunDeposits(ops) - RunFees(r, s, ops)
            && Exposure(t, Everyone()) == Exposure(s, Everyone())
  {
    hide Linked, Equity, Exposure, Run, BalancedRun, RunFlow, RunFees, RunDeposits;
    RunMoves(r, s, ops, x, Everyone());
    BalancedRunFlow(r, s, ops, x);
  }

  /** Deleveraging updates only the counterparty, so the distance between longs and shorts moves by the
      reduced quantity.  The two are equal afterwards exactly when they were apart before by just that
      quantity, and never when they were equal. */
  lemma DeleveragingBalancesIff(r: Rates, s: State, l: Leg, id: int)
    requires Linked(s) && Allowed(s.positions, l, Reduce(id))
    ensures var t, q := Step(r, s, Deleverage(l, Reduce(id))).state, Applied(r, s, l, Reduce(id));
            && q > 0.0 && Exposure(t, Everyone()) == Exposure(s, Everyone()) + SignedQty(l.side, q)
            && (Exposure(t, Everyone()) == 0.0 <==> Exposure(s, Everyone()) == -SignedQty(l.side, q))
            && (Exposure(s, Everyone()) == 0.0 ==> Exposure(t, Everyone()) != 0.0)
  {
    hide Equity, MapSum, CalcReduce, CalcOpen, Linked;
    var b := Announce(s, l.user);
    assert Linked(b) by { AnnounceKeepsLinked(s, l.user); }
    UpdateMoves(r, b, l, Reduce(id), 0.0, Everyone());
  }

  lemma AnnounceKeepsLinked(s: State, user: int)
    requires Linked(s)
    ensures Linked(Announce(s, user))
  {
  }

  /** A trade keeps longs and shorts as far apart as they were exactly when both its legs are applied
      to the same extent: a leg that its owner cannot pay for is dropped, the other one is not. */
  lemma TradeBalancesIffBothApply(r: Rates, s: State, buy: Leg, sell: Leg, a: Action, b: Action)
    requires Linked(s) && buy.side == 1 && sell.side == -1 && Allowed(s.positions, buy, a)
    requires Allowed(UpdatePosition(r, s, buy, a).positions, sell, b)
    ensures var u := UpdatePosition(r, s, buy, a);
            var v := UpdatePosition(r, u, sell, b);
            && Exposure(v, Everyone()) == Exposure(s, Everyone()) + Applied(r, s, buy, a) - Applied(r, u, sell, b)
            && (Exposure(v, Everyone()) == Exposure(s, Everyone()) <==> Applied(r, s, buy, a) == Applied(r, u, sell, b))
  {
    hide Linked, Allowed, Applied, LegFee, UpdatePosition, Exposure, Equity, Pnl;
    UpdateMoves(r, s, buy, a, 0.0, Everyone());
    UpdateKeepsLinked(r, s, buy, a);
    UpdateMoves(r, UpdatePosition(r, s, buy, a), sell, b, 0.0, Everyone());
  }

  /** With money on both sides the same trade meets every hypothesis of `TradesAreZeroSum`. */
  lemma PaidTradeQualifies(r: Rates)
    requires r.taker <= 1.0 && r.maker <= 1.0
    ensures var rich := map[1 := Account(1000.0, 0.0), 2 := Account(1000.0, 0.0)];
            var s := State(rich, map[], map[], 100000, [], rich);
            var legs := LegsOf(s.orders, [OrderBook.Trade(7, 8, 1, 2, 100.0, 1.0)], 1, 1);
            Linked(s) && ApplyLegs(r, s, legs, [Open, Open]).Just? && AllAffordable(r, s, legs, [Open, Open])
  {
    hide CalcOpen, Exposure, Linked;
    var rich := map[1 := Account(1000.0, 0.0), 2 := Account(1000.0, 0.0)];
    var s := State(rich, map[], map[], 100000, [], rich);
    var t: GoodTrade := OrderBook.Trade(7, 8, 1, 2, 100.0, 1.0);
    var buy, sell := BuyLeg(s.orders, t, 1, 1), SellLeg(s.orders, t, 1, 1);
    EmptyStart(s);
    OpeningCost(r, buy);
    OpeningCost(r, sell);
    var u := UpdatePosition(r, s, buy, Open);
    assert LegsOf(s.orders, [t], 1, 1) == [buy, sell] by { assert [t][..0] == []; }
    TwoLegs(r, s, u, buy, sell, Open, Open);
    TwoAffordable(r, s, u, buy, sell);
  }

  lemma TwoAffordable(r: Rates, s: State, u: State, l: Leg, l': Leg)
    requires Allowed(s.positions, l, Open) && u == UpdatePosition(r, s, l, Open)
    requires Affordable(r, s, l, Open) && Affordable(r, u, l', Open)
    ensures AllAffordable(r, s, [l, l'], [Open, Open])
  {
    hide Allowed, UpdatePosition, Affordable;
    assert [l, l'][..1] == [l] && [Open, Open][..1] == [Open] && [l][..0] == [] && [Open][..0] == [];
    assert [l, l'][..0] == [] && [Open, Open][..0] == [];
    assert ApplyLegs(r, s, [l], [Open]) == Just(u);
  }

  lemma OpeningCost(r: Rates, l: Leg)
    requires l.price == 100.0 && l.qty == 1.0 && l.leverage == 1
    ensures Opened(r, l).totalCost == 100.0 + 100.0 * if l.isMaker then r.maker else r.taker
  {
  }

  lemma EmptyStart(s: State)
    requires s.positions == map[] && s.nextPosId >= 0 && forall id | id in s.orders :: s.orders[id].user in s.accounts
    ensures Linked(s) && Exposure(s, Everyone()) == 0.0
  {
  }

  lemma TwoLegs(r: Rates, s: State, u: State, l: Leg, l': Leg, a: Action, b: Action)
    requires Allowed(s.positions, l, a) && u == UpdatePosition(r, s, l, a) && Allowed(u.positions, l', b)
    ensures ApplyLegs(r, s, [l, l'], [a, b]) == Just(UpdatePosition(r, u, l', b))
  {
    hide Allowed, UpdatePosition;
    assert [l, l'][..1] == [l] && [a, b][..1] == [a] && [l][..0] == [] && [a][..0] == [];
    assert ApplyLegs(r, s, [l], [a]) == Just(u);
  }
}
