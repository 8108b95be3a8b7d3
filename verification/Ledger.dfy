/** Accounts, positions, pending orders and the settlement queue as values, and what each trading
    operation does to them. */
module Ledger {
  import opened Clearance
  import OrderBook

  datatype Account = Account(balance: real, frozen: real)

  type Accounts = map<int, Account>

  datatype PosState = Active | Liquidating | ForceTPing | Closing

  datatype Position = Position(id: int, user: int, side: Side, leverage: Leverage, entry: Price, qty: Qty, margin: real,
                               liqPrice: real, forceTpPrice: real, funding: real, state: PosState)

  type Positions = map<int, Position>

  /** A limit order that rests, with what was set aside for it. */
  datatype Pending = Pending(user: int, side: Side, price: real, qty: real, marginCost: Amount, leverage: Leverage)

  datatype EventKind = CreateOrderEvent | TradeEvent | CancelOrderEvent

  /** The part of a settlement event that reaches the accounts table. */
  datatype Event = Event(kind: EventKind, user: int, balanceDelta: real, frozenDelta: real)

  datatype State = State(accounts: Accounts, positions: Positions, orders: map<int, Pending>, nextPosId: int,
                         queue: seq<Event>, db: Accounts)

  // ---------------------------------------------------------------- accounts

  function Available(a: Accounts, u: int): real {
    if u in a then a[u].balance - a[u].frozen else 0.0
  }

  predicate CanPay(a: Accounts, u: int, amount: real) {
    u in a && Available(a, u) >= amount
  }

  /** Balance plus x; an account that does not exist is left alone. */
  function Credit(a: Accounts, u: int, x: real): Accounts {
    if u in a then a[u := a[u].(balance := a[u].balance + x)] else a
  }

  function Freeze(a: Accounts, u: int, x: real): Accounts {
    if CanPay(a, u, x) then a[u := a[u].(frozen := a[u].frozen + x)] else a
  }

  /** Never below zero. */
  function Unfreeze(a: Accounts, u: int, x: real): Accounts {
    if u !in a then a
    else
      var frozen := a[u].frozen - x;
      a[u := a[u].(frozen := if frozen < 0.0 then 0.0 else frozen)]
  }

  // --------------------------------------------------------------- positions

  /** One side of a trade, on its way to its owner's positions. */
  datatype Leg = Leg(user: int, side: Side, qty: Qty, price: Price, leverage: int, isMaker: bool)

  /** May a trade of this side reduce p?  A close in progress still takes its fills. */
  predicate Reducible(p: Position, user: int, tradeSide: Side) {
    p.user == user && p.side == Flip(tradeSide) && (p.state.Active? || p.state.Closing? || p.state.ForceTPing?)
  }

  /** May a trade of this side add to p?  Never to one that is being closed. */
  predicate Growable(p: Position, user: int, side: Side) {
    p.user == user && p.side == side && p.state.Active?
  }

  ghost predicate AnyReducible(ps: Positions, user: int, side: Side) {
    exists id | id in ps :: Reducible(ps[id], user, side)
  }

  ghost predicate AnyGrowable(ps: Positions, user: int, side: Side) {
    exists id | id in ps :: Growable(ps[id], user, side)
  }

  /** What a leg turns into.  A user's positions are looked through in no particular order, so
      any position that qualifies may be the one. */
  datatype Action = Reduce(id: int) | Increase(id: int) | Open

  ghost predicate Allowed(ps: Positions, l: Leg, a: Action) {
    match a
    case Reduce(id) => id in ps && Reducible(ps[id], l.user, l.side)
    case Increase(id) => !AnyReducible(ps, l.user, l.side) && id in ps && Growable(ps[id], l.user, l.side)
    case Open => !AnyReducible(ps, l.user, l.side) && !AnyGrowable(ps, l.user, l.side)
  }

  /** System users have no rows to settle. */
  function Record(queue: seq<Event>, user: int, delta: real): seq<Event> {
    if user > 0 then queue + [Event(TradeEvent, user, delta, 0.0)] else queue
  }

  function OpenLeverage(l: Leg): Leverage { if l.leverage <= 0 then 1 else l.leverage }

  function Opened(r: Rates, l: Leg): OpenResult {
    CalcOpen(r, l.price, l.qty, OpenLeverage(l), l.side, l.isMaker)
  }

  /** A payment out of or into one account, with its settlement event. */
  function Pay(s: State, user: int, x: real): State {
    s.(accounts := Credit(s.accounts, user, x), queue := Record(s.queue, user, x))
  }

  /** The position an opening leg creates. */
  function OpenedAs(r: Rates, id: int, l: Leg): Position {
    var c := Opened(r, l);
    Position(id, l.user, l.side, OpenLeverage(l), l.price, l.qty, c.margin, c.liqPrice, c.forceTpPrice, 0.0, Active)
  }

  function HandleOpen(r: Rates, s: State, l: Leg): State {
    var cost := Opened(r, l).totalCost;
    if !CanPay(s.accounts, l.user, cost) then s
    else
      var id := s.nextPosId + 1;
      Pay(s, l.user, -cost).(nextPosId := id, positions := s.positions[id := OpenedAs(r, id, l)])
  }

  function Increased(r: Rates, p: Position, l: Leg): IncreaseResult {
    CalcIncrease(r, p.entry, p.qty, p.margin, p.leverage, p.side, l.qty, l.price)
  }

  /** The position after an increase. */
  function Grown(r: Rates, p: Position, l: Leg): Position {
    var c := Increased(r, p, l);
    p.(entry := c.newEntry, qty := c.newQty, margin := c.newMargin, liqPrice := c.liqPrice,
       forceTpPrice := c.forceTpPrice)
  }

  function HandleIncrease(r: Rates, s: State, l: Leg, id: int): State
    requires id in s.positions
  {
    var p := s.positions[id];
    var c := Increased(r, p, l);
    if !CanPay(s.accounts, l.user, c.addMargin) then s
    else Pay(s, l.user, -c.addMargin).(positions := s.positions[id := Grown(r, p, l)])
  }

  function Reduced(r: Rates, p: Position, l: Leg): ReduceResult {
    CalcReduce(r, p.entry, l.price, p.qty, p.margin, p.funding, p.leverage, p.side, l.qty)
  }

  /** The position after a reduction that leaves something. */
  function Shrunk(r: Rates, p: Position, l: Leg): Position
    requires l.qty < p.qty
  {
    var c := Reduced(r, p, l);
    p.(qty := c.remainQty, margin := c.remainMargin, funding := c.remainFunding, liqPrice := c.remainLiqPrice,
       forceTpPrice := c.remainFtpPrice, state := Active)
  }

  /** Margin and profit come back, and the position shrinks or goes. */
  function ReducePart(r: Rates, s: State, l: Leg, id: int): State
    requires id in s.positions
  {
    var p := s.positions[id];
    var c := Reduced(r, p, l);
    Pay(s, l.user, c.closeMargin + c.netPnl).(
      positions := if c.isFullClose then s.positions - {id} else s.positions[id := Shrunk(r, p, l)])
  }

  /** A trade larger than the position opens the other way with the rest, as taker. */
  function HandleReduce(r: Rates, s: State, l: Leg, id: int): State
    requires id in s.positions
  {
    var rest := l.qty - s.positions[id].qty;
    if rest > 0.0 then HandleOpen(r, ReducePart(r, s, l, id), l.(qty := rest, isMaker := false))
    else ReducePart(r, s, l, id)
  }

  ghost function UpdatePosition(r: Rates, s: State, l: Leg, a: Action): State
    requires Allowed(s.positions, l, a)
  {
    match a
    case Reduce(id) => HandleReduce(r, s, l, id)
    case Increase(id) => HandleIncrease(r, s, l, id)
    case Open => HandleOpen(r, s, l)
  }

  // ------------------------------------------------------------------ trades

  type GoodTrade = t: OrderBook.Trade | t.quantity > 0.0 && t.price >= 0.0 witness OrderBook.Trade(0, 0, 0, 0, 0.0, 1.0)

  /** The taker trades with the order's leverage, a resting user with that of the resting order, a
      system user without. */
  function ResolveLeverage(orders: map<int, Pending>, user: int, orderId: int, taker: int, takerLeverage: int)
      : (int, bool) {
    if user == taker then (takerLeverage, false)
    else if orderId in orders then (orders[orderId].leverage, true)
    else (1, true)
  }

  function BuyLeg(orders: map<int, Pending>, t: GoodTrade, taker: int, takerLeverage: int): Leg {
    var (leverage, isMaker) := ResolveLeverage(orders, t.buyUserId, t.buyOrderId, taker, takerLeverage);
    Leg(t.buyUserId, 1, t.quantity, t.price, leverage, isMaker)
  }

  function SellLeg(orders: map<int, Pending>, t: GoodTrade, taker: int, takerLeverage: int): Leg {
    var (leverage, isMaker) := ResolveLeverage(orders, t.sellUserId, t.sellOrderId, taker, takerLeverage);
    Leg(t.sellUserId, -1, t.quantity, t.price, leverage, isMaker)
  }

  /** Both legs of every trade, the buyer's first. */
  function LegsOf(orders: map<int, Pending>, trades: seq<GoodTrade>, taker: int, takerLeverage: int): (legs: seq<Leg>)
    ensures |legs| == 2 * |trades|
  {
    if trades == [] then []
    else
      var n := |trades| - 1;
      LegsOf(orders, trades[..n], taker, takerLeverage)
      + [BuyLeg(orders, trades[n], taker, takerLeverage), SellLeg(orders, trades[n], taker, takerLeverage)]
  }

  /** Legs applied one after the other; Nothing if an action does not fit the positions it meets. */
  datatype Outcome = Nothing | Just(state: State)

  ghost function ApplyLegs(r: Rates, s: State, legs: seq<Leg>, actions: seq<Action>): Outcome {
    if |legs| != |actions| then Nothing
    else if legs == [] then Just(s)
    else
      var n := |legs| - 1;
      match ApplyLegs(r, s, legs[..n], actions[..n])
      case Nothing => Nothing
      case Just(t) =>
        if Allowed(t.positions, legs[n], actions[n]) then Just(UpdatePosition(r, t, legs[n], actions[n]))
        else Nothing
  }

  ghost function ProcessTrades(r: Rates, s: State, trades: seq<GoodTrade>, taker: int, takerLeverage: int,
                               actions: seq<Action>): Outcome {
    ApplyLegs(r, s, LegsOf(s.orders, trades, taker, takerLeverage), actions)
  }

  // ---------------------------------------------------------- pending orders

  /** What a resting order sets aside: its margin and the maker fee on its full value. */
  function HoldOf(r: Rates, marginCost: Amount, leverage: Leverage): Amount {
    HoldIsAmount(r, marginCost, leverage);
    marginCost + FeeOf(r, marginCost * leverage as real, true)
  }

  lemma HoldIsAmount(r: Rates, marginCost: Amount, leverage: Leverage)
    ensures marginCost + FeeOf(r, marginCost * leverage as real, true) >= 0.0
  {
  }

  function Hold(r: Rates, o: Pending): Amount { HoldOf(r, o.marginCost, o.leverage) }

  /** A new order's record, without money. */
  function Announce(s: State, user: int): State {
    s.(queue := s.queue + [Event(CreateOrderEvent, user, 0.0, 0.0)])
  }

  function RestOrder(r: Rates, s: State, id: int, o: Pending): State {
    var h: real := Hold(r, o);
    if !CanPay(s.accounts, o.user, h) then s
    else
      s.(accounts := Freeze(s.accounts, o.user, h), orders := s.orders[id := o],
         queue := s.queue + [Event(CreateOrderEvent, o.user, -h, h)])
  }

  /** A limit order that is filled at once: frozen, released, then traded as taker. */
  ghost function FillLimit(r: Rates, s: State, o: Pending, trades: seq<GoodTrade>, actions: seq<Action>): Outcome {
    var h: real := Hold(r, o);
    if !CanPay(s.accounts, o.user, h) then Just(s)
    else
      var t := s.(accounts := Unfreeze(Freeze(s.accounts, o.user, h), o.user, h));
      ProcessTrades(r, Announce(t, o.user), trades, o.user, o.leverage, actions)
  }

  /** Only its owner cancels an order. */
  function CancelPending(r: Rates, s: State, id: int, user: int): State {
    if id !in s.orders || s.orders[id].user != user then s
    else
      var h: real := Hold(r, s.orders[id]);
      s.(accounts := Unfreeze(s.accounts, user, h), orders := s.orders - {id},
         queue := s.queue + [Event(CancelOrderEvent, user, h, -h)])
  }

  // -------------------------------------------------------------- settlement

  /** Does the settler bring this event to the accounts table? */
  predicate Settles(e: Event) {
    e.user > 0 && (e.balanceDelta != 0.0 || (e.kind.CreateOrderEvent? && e.frozenDelta != 0.0))
  }

  /** Adds to an existing row; a user without a row is left alone. */
  function UpdateBalance(db: Accounts, u: int, balance: real, frozen: real): Accounts {
    if u in db then db[u := Account(db[u].balance + balance, db[u].frozen + frozen)] else db
  }

  function Settled(db: Accounts, e: Event): Accounts {
    if Settles(e) then UpdateBalance(db, e.user, e.balanceDelta, e.frozenDelta) else db
  }

  function SettledAll(db: Accounts, queue: seq<Event>): Accounts {
    if queue == [] then db else SettledAll(Settled(db, queue[0]), queue[1..])
  }

  /** The settler takes one event, if there is one. */
  function SettleNext(s: State): State {
    if s.queue == [] then s else s.(db := Settled(s.db, s.queue[0]), queue := s.queue[1..])
  }

  // ---------------------------------------------------------------- accounts

  /** A user nobody has dealt with yet. */
  predicate Unknown(s: State, user: int) {
    user !in s.accounts && forall k | 0 <= k < |s.queue| :: s.queue[k].user != user
  }

  /** A new account in memory, with the row that memory was loaded from.  System users have no row. */
  function Registered(s: State, user: int, balance: real): State {
    s.(accounts := s.accounts[user := Account(balance, 0.0)],
       db := if user > 0 then s.db[user := Account(balance, 0.0)] else s.db)
  }

  // -------------------------------------------------------------------- runs

  datatype Op =
    | LoadAccount(user: int, balance: real)
    | Fill(trades: seq<GoodTrade>, taker: int, takerLeverage: int, actions: seq<Action>)
    | FilledLimit(order: Pending, trades: seq<GoodTrade>, actions: seq<Action>)
    | RestingLimit(id: int, order: Pending)
    | CancelOrder(id: int, user: int)
    | Close(id: int, state: PosState, trades: seq<GoodTrade>, actions: seq<Action>)
    | MarkState(id: int, state: PosState)
    | Deleverage(leg: Leg, action: Action)
    | SettleOne

  /** A close needs an active position and something to trade with. */
  predicate Closable(s: State, id: int, state: PosState, trades: seq<GoodTrade>) {
    id in s.positions && s.positions[id].state.Active? && (state.Closing? || state.ForceTPing?) && trades != []
  }

  /** A close that begins or fails. */
  function WithPosState(s: State, id: int, state: PosState): State {
    if id in s.positions then s.(positions := s.positions[id := s.positions[id].(state := state)]) else s
  }

  ghost function Step(r: Rates, s: State, op: Op): Outcome {
    match op
    case LoadAccount(user, balance) => if Unknown(s, user) then Just(Registered(s, user, balance)) else Nothing
    case Fill(trades, taker, leverage, actions) =>
      ProcessTrades(r, Announce(s, taker), trades, taker, leverage, actions)
    case FilledLimit(o, trades, actions) => FillLimit(r, s, o, trades, actions)
    case RestingLimit(id, o) => if id in s.orders then Nothing else Just(RestOrder(r, s, id, o))
    case CancelOrder(id, user) => Just(CancelPending(r, s, id, user))
    case Close(id, state, trades, actions) =>
      if !Closable(s, id, state, trades) then Just(s)
      else
        var p := s.positions[id];
        ProcessTrades(r, Announce(WithPosState(s, id, state), p.user), trades, p.user, p.leverage, actions)
    case MarkState(id, state) => Just(WithPosState(s, id, state))
    case Deleverage(l, a) =>
      if Allowed(s.positions, l, a) then Just(UpdatePosition(r, Announce(s, l.user), l, a)) else Nothing
    case SettleOne => Just(SettleNext(s))
  }

  ghost function Run(r: Rates, s: State, ops: seq<Op>): Outcome {
    if ops == [] then Just(s)
    else
      match Run(r, s, ops[..|ops| - 1])
      case Nothing => Nothing
      case Just(t) => Step(r, t, ops[|ops| - 1])
  }
}
