/** Memory first, database later: the accounts table plus the queued deltas is the memory, always;
    and frozen money is exactly what the pending orders set aside. */
module WriteBehind {
  import opened Sums
  import opened Clearance
  import opened Ledger

  // ---------------------------------------------------------- agreement

  ghost function QueuedBalance(queue: seq<Event>, u: int): real {
    if queue == [] then 0.0
    else (if queue[0].user == u then queue[0].balanceDelta else 0.0) + QueuedBalance(queue[1..], u)
  }

  ghost function QueuedFrozen(queue: seq<Event>, u: int): real {
    if queue == [] then 0.0
    else (if queue[0].user == u then queue[0].frozenDelta else 0.0) + QueuedFrozen(queue[1..], u)
  }

  /** The row of a user plus what is queued: the available balance and the frozen amount in memory. */
  ghost predicate RowAgrees(a: Accounts, queue: seq<Event>, db: Accounts, u: int) {
    && u in db && u in a
    && db[u].balance + QueuedBalance(queue, u) == Available(a, u)
    && db[u].frozen + QueuedFrozen(queue, u) == a[u].frozen
  }

  ghost predicate Agrees(a: Accounts, queue: seq<Event>, db: Accounts) {
    forall u | u > 0 && u in a :: RowAgrees(a, queue, db, u)
  }

  /** No queued event would be dropped by the settler with money in it. */
  ghost predicate NothingDropped(queue: seq<Event>) {
    forall e | e in queue :: e.user > 0 ==> Settles(e) || (e.balanceDelta == 0.0 && e.frozenDelta == 0.0)
  }

  lemma {:induction false} QueuedAppend(queue: seq<Event>, e: Event, u: int)
    ensures QueuedBalance(queue + [e], u) == QueuedBalance(queue, u) + (if e.user == u then e.balanceDelta else 0.0)
    ensures QueuedFrozen(queue + [e], u) == QueuedFrozen(queue, u) + (if e.user == u then e.frozenDelta else 0.0)
  {
    if queue == [] {
      assert queue + [e] == [e];
    } else {
      assert (queue + [e])[1..] == queue[1..] + [e];
      QueuedAppend(queue[1..], e, u);
    }
  }

  /** One event for one user, with the same change in memory. */
  lemma EventAgrees(a: Accounts, queue: seq<Event>, db: Accounts, b: Accounts, e: Event)
    requires Agrees(a, queue, db) && NothingDropped(queue)
    requires e.user > 0 ==> Settles(e) || (e.balanceDelta == 0.0 && e.frozenDelta == 0.0)
    requires b.Keys == a.Keys && forall u | u in a && u != e.user :: b[u] == a[u]
    requires e.user in a ==> Available(b, e.user) == Available(a, e.user) + e.balanceDelta
                             && b[e.user].frozen == a[e.user].frozen + e.frozenDelta
    ensures Agrees(b, queue + [e], db) && NothingDropped(queue + [e])
  {
    forall u | u > 0 && u in b ensures RowAgrees(b, queue + [e], db, u) {
      assert RowAgrees(a, queue, db, u);
      QueuedAppend(queue, e, u);
    }
  }

  lemma PayAgrees(s: State, user: int, x: real)
    requires Agrees(s.accounts, s.queue, s.db) && NothingDropped(s.queue)
    ensures var t := Pay(s, user, x); Agrees(t.accounts, t.queue, t.db) && NothingDropped(t.queue)
  {
    if user > 0 {
      EventAgrees(s.accounts, s.queue, s.db, Credit(s.accounts, user, x), Event(TradeEvent, user, x, 0.0));
    } else {
      var a, b := s.accounts, Credit(s.accounts, user, x);
      assert forall u | u > 0 && u in b :: RowAgrees(a, s.queue, s.db, u) && b[u] == a[u];
    }
  }

  /** Settling one event moves it from the queue to the table. */
  lemma SettleAgrees(s: State)
    requires Agrees(s.accounts, s.queue, s.db) && NothingDropped(s.queue)
    ensures var t := SettleNext(s); Agrees(t.accounts, t.queue, t.db) && NothingDropped(t.queue)
  {
  }

  // ------------------------------------------------------ frozen ledger

  ghost function Holds(r: Rates, orders: map<int, Pending>, u: int): map<int, real> {
    map id | id in orders :: if orders[id].user == u then Hold(r, orders[id]) else 0.0
  }

  /** Frozen money is the sum of what the user's pending orders set aside. */
  ghost predicate FrozenIsHeld(r: Rates, a: Accounts, orders: map<int, Pending>) {
    && (forall u | u in a :: a[u].frozen == MapSum(Holds(r, orders, u)))
    && (forall id | id in orders :: orders[id].user in a)
  }

  lemma HoldPut(r: Rates, orders: map<int, Pending>, id: int, o: Pending, u: int)
    requires id !in orders
    ensures MapSum(Holds(r, orders[id := o], u))
            == MapSum(Holds(r, orders, u)) + (if o.user == u then Hold(r, o) else 0.0)
  {
    var h: real := if o.user == u then Hold(r, o) else 0.0;
    SumPut(Holds(r, orders, u), id, h);
    assert Holds(r, orders[id := o], u) == Holds(r, orders, u)[id := h];
  }

  lemma HoldCut(r: Rates, orders: map<int, Pending>, id: int, u: int)
    requires id in orders
    ensures MapSum(Holds(r, orders - {id}, u))
            == MapSum(Holds(r, orders, u)) - (if orders[id].user == u then Hold(r, orders[id]) else 0.0)
  {
    SumCut(Holds(r, orders, u), id);
    assert Holds(r, orders - {id}, u) == Holds(r, orders, u) - {id};
  }

  /** Releasing what a pending order set aside never meets the floor at zero. */
  lemma ClampNeverFires(r: Rates, a: Accounts, orders: map<int, Pending>, id: int)
    requires FrozenIsHeld(r, a, orders) && id in orders
    ensures var u, h := orders[id].user, Hold(r, orders[id]);
            a[u].frozen >= h && Unfreeze(a, u, h)[u].frozen == a[u].frozen - h
  {
    var u := orders[id].user;
    SumNonNegative(Holds(r, orders, u));
    assert Holds(r, orders, u)[id] == Hold(r, orders[id]);
  }

  // --------------------------------------------------------- all operations

  ghost predicate BooksRight(r: Rates, s: State) {
    Agrees(s.accounts, s.queue, s.db) && NothingDropped(s.queue) && FrozenIsHeld(r, s.accounts, s.orders)
  }

  lemma PayKeepsBooks(r: Rates, s: State, user: int, x: real)
    requires BooksRight(r, s)
    ensures BooksRight(r, Pay(s, user, x))
  {
    hide Agrees, NothingDropped;
    PayAgrees(s, user, x);
  }

  /** Positions and their counter are not part of the books. */
  lemma BooksOnly(r: Rates, s: State, t: State)
    requires BooksRight(r, s) && s.accounts == t.accounts && s.queue == t.queue && s.db == t.db && s.orders == t.orders
    ensures BooksRight(r, t)
  {
  }

  lemma HandleOpenKeepsBooks(r: Rates, s: State, l: Leg)
    requires BooksRight(r, s)
    ensures BooksRight(r, HandleOpen(r, s, l)) && HandleOpen(r, s, l).orders == s.orders
  {
    hide BooksRight, CalcOpen;
    var t := Pay(s, l.user, -Opened(r, l).totalCost);
    PayKeepsBooks(r, s, l.user, -Opened(r, l).totalCost);
    if CanPay(s.accounts, l.user, Opened(r, l).totalCost) {
      BooksOnly(r, t, HandleOpen(r, s, l));
    }
  }

  lemma UpdateKeepsBooks(r: Rates, s: State, l: Leg, a: Action)
    requires BooksRight(r, s) && Allowed(s.positions, l, a)
    ensures BooksRight(r, UpdatePosition(r, s, l, a)) && UpdatePosition(r, s, l, a).orders == s.orders
  {
    hide BooksRight, CalcOpen, CalcIncrease, CalcReduce;
    match a
    case Open => HandleOpenKeepsBooks(r, s, l);
    case Increase(id) =>
      var cost := Increased(r, s.positions[id], l).addMargin;
      PayKeepsBooks(r, s, l.user, -cost);
      if CanPay(s.accounts, l.user, cost) {
        BooksOnly(r, Pay(s, l.user, -cost), HandleIncrease(r, s, l, id));
      }
    case Reduce(id) =>
      var c := Reduced(r, s.positions[id], l);
      var t := ReducePart(r, s, l, id);
      PayKeepsBooks(r, s, l.user, c.closeMargin + c.netPnl);
      BooksOnly(r, Pay(s, l.user, c.closeMargin + c.netPnl), t);
      var rest := l.qty - s.positions[id].qty;
      if rest > 0.0 {
        HandleOpenKeepsBooks(r, t, l.(qty := rest, isMaker := false));
      }
  }

  lemma {:induction false} LegsKeepBooks(r: Rates, s: State, legs: seq<Leg>, actions: seq<Action>)
    requires BooksRight(r, s) && ApplyLegs(r, s, legs, actions).Just?
    ensures BooksRight(r, ApplyLegs(r, s, legs, actions).state)
  {
    hide BooksRight, UpdatePosition, Allowed;
    if legs == [] {
    } else {
      var n := |legs| - 1;
      LegsKeepBooks(r, s, legs[..n], actions[..n]);
      UpdateKeepsBooks(r, ApplyLegs(r, s, legs[..n], actions[..n]).state, legs[n], actions[n]);
    }
  }

  lemma AnnounceKeepsBooks(r: Rates, s: State, user: int)
    requires BooksRight(r, s)
    ensures BooksRight(r, Announce(s, user))
  {
    EventAgrees(s.accounts, s.queue, s.db, s.accounts, Event(CreateOrderEvent, user, 0.0, 0.0));
  }

  lemma RestKeepsFrozen(r: Rates, a: Accounts, orders: map<int, Pending>, id: int, o: Pending)
    requires FrozenIsHeld(r, a, orders) && id !in orders && CanPay(a, o.user, Hold(r, o))
    ensures FrozenIsHeld(r, Freeze(a, o.user, Hold(r, o)), orders[id := o])
  {
    hide HoldOf, MapSum;
    forall u | u in a ensures Freeze(a, o.user, Hold(r, o))[u].frozen == MapSum(Holds(r, orders[id := o], u)) {
      HoldPut(r, orders, id, o, u);
    }
  }

  lemma CancelKeepsFrozen(r: Rates, a: Accounts, orders: map<int, Pending>, id: int)
    requires FrozenIsHeld(r, a, orders) && id in orders
    ensures FrozenIsHeld(r, Unfreeze(a, orders[id].user, Hold(r, orders[id])), orders - {id})
  {
    hide HoldOf, MapSum;
    var b := Unfreeze(a, orders[id].user, Hold(r, orders[id]));
    ClampNeverFires(r, a, orders, id);
    forall u | u in a ensures b[u].frozen == MapSum(Holds(r, orders - {id}, u)) {
      HoldCut(r, orders, id, u);
    }
  }

  lemma RestKeepsBooks(r: Rates, s: State, id: int, o: Pending)
    requires BooksRight(r, s) && id !in s.orders
    ensures BooksRight(r, RestOrder(r, s, id, o))
  {
    hide HoldOf, Agrees, NothingDropped, FrozenIsHeld;
    var h: real := Hold(r, o);
    if CanPay(s.accounts, o.user, h) {
      EventAgrees(s.accounts, s.queue, s.db, Freeze(s.accounts, o.user, h), Event(CreateOrderEvent, o.user, -h, h));
      RestKeepsFrozen(r, s.accounts, s.orders, id, o);
    }
  }

  lemma CancelKeepsBooks(r: Rates, s: State, id: int, user: int)
    requires BooksRight(r, s)
    ensures BooksRight(r, CancelPending(r, s, id, user))
  {
    hide HoldOf, Agrees, NothingDropped, FrozenIsHeld;
    if id in s.orders && s.orders[id].user == user {
      var h: real := Hold(r, s.orders[id]);
      ClampNeverFires(r, s.accounts, s.orders, id);
      EventAgrees(s.accounts, s.queue, s.db, Unfreeze(s.accounts, user, h), Event(CancelOrderEvent, user, h, -h));
      CancelKeepsFrozen(r, s.accounts, s.orders, id);
    }
  }

  lemma {:induction false} NothingQueued(queue: seq<Event>, u: int)
    requires forall k | 0 <= k < |queue| :: queue[k].user != u
    ensures QueuedBalance(queue, u) == 0.0 && QueuedFrozen(queue, u) == 0.0
  {
    if queue == [] {
    } else {
      NothingQueued(queue[1..], u);
    }
  }

  /** A new account, loaded from its row. */
  lemma LoadKeepsBooks(r: Rates, s: State, user: int, balance: real)
    requires BooksRight(r, s) && Unknown(s, user)
    ensures BooksRight(r, Registered(s, user, balance))
  {
    LoadKeepsAgreement(s, user, balance);
    LoadKeepsFrozen(r, s, user, balance);
  }

  lemma LoadKeepsAgreement(s: State, user: int, balance: real)
    requires Agrees(s.accounts, s.queue, s.db) && Unknown(s, user)
    ensures var t := Registered(s, user, balance); Agrees(t.accounts, t.queue, t.db)
  {
    var t := Registered(s, user, balance);
    NothingQueued(s.queue, user);
    forall u | u > 0 && u in t.accounts ensures RowAgrees(t.accounts, t.queue, t.db, u) {
      assert u != user ==> RowAgrees(s.accounts, s.queue, s.db, u);
    }
  }

  lemma LoadKeepsFrozen(r: Rates, s: State, user: int, balance: real)
    requires FrozenIsHeld(r, s.accounts, s.orders) && user !in s.accounts
    ensures FrozenIsHeld(r, Registered(s, user, balance).accounts, s.orders)
  {
    hide HoldOf, MapSum;
    SumOfZeros(Holds(r, s.orders, user));
  }

  /** Freezing and releasing the same amount is nothing. */
  lemma FreezeUnfreeze(r: Rates, a: Accounts, orders: map<int, Pending>, u: int, h: Amount)
    requires FrozenIsHeld(r, a, orders) && CanPay(a, u, h)
    ensures Unfreeze(Freeze(a, u, h), u, h) == a
  {
    SumNonNegative(Holds(r, orders, u));
  }

  lemma FillLimitKeepsBooks(r: Rates, s: State, o: Pending, trades: seq<GoodTrade>, actions: seq<Action>)
    requires BooksRight(r, s) && FillLimit(r, s, o, trades, actions).Just?
    ensures BooksRight(r, FillLimit(r, s, o, trades, actions).state)
  {
    hide Agrees, NothingDropped, HoldOf, ApplyLegs, LegsOf, MapSum;
    if CanPay(s.accounts, o.user, Hold(r, o)) {
      FreezeUnfreeze(r, s.accounts, s.orders, o.user, Hold(r, o));
      AnnounceKeepsBooks(r, s, o.user);
      LegsKeepBooks(r, Announce(s, o.user), LegsOf(s.orders, trades, o.user, o.leverage), actions);
    }
  }

  lemma StepKeepsBooks(r: Rates, s: State, op: Op)
    requires BooksRight(r, s) && Step(r, s, op).Just?
    ensures BooksRight(r, Step(r, s, op).state)
  {
    hide BooksRight, ApplyLegs, LegsOf, FillLimit, RestOrder, CancelPending, UpdatePosition;
    match op
    case LoadAccount(user, balance) => LoadKeepsBooks(r, s, user, balance);
    case Close(id, state, trades, actions) =>
      if Closable(s, id, state, trades) {
        var p, t := s.positions[id], WithPosState(s, id, state);
        BooksOnly(r, s, t);
        AnnounceKeepsBooks(r, t, p.user);
        LegsKeepBooks(r, Announce(t, p.user), LegsOf(s.orders, trades, p.user, p.leverage), actions);
      }
    case Fill(trades, taker, leverage, actions) =>
      AnnounceKeepsBooks(r, s, taker);
      LegsKeepBooks(r, Announce(s, taker), LegsOf(s.orders, trades, taker, leverage), actions);
    case FilledLimit(o, trades, actions) => FillLimitKeepsBooks(r, s, o, trades, actions);
    case RestingLimit(id, o) => RestKeepsBooks(r, s, id, o);
    case CancelOrder(id, user) => CancelKeepsBooks(r, s, id, user);
    case MarkState(id, state) => BooksOnly(r, s, WithPosState(s, id, state));
    case Deleverage(l, a) => AnnounceKeepsBooks(r, s, l.user); UpdateKeepsBooks(r, Announce(s, l.user), l, a);
    case SettleOne => SettleKeepsBooks(r, s);
  }

  lemma SettleKeepsBooks(r: Rates, s: State)
    requires BooksRight(r, s)
    ensures BooksRight(r, SettleNext(s))
  {
    hide Agrees, NothingDropped;
    SettleAgrees(s);
  }

  /** In every run that starts in agreement, after every operation and whatever has been settled by
      then, each user's row plus the queued deltas is what memory holds, and each user's frozen
      money is what the pending orders set aside. */
  lemma {:induction false} RunKeepsBooks(r: Rates, s: State, ops: seq<Op>)
    requires BooksRight(r, s) && Run(r, s, ops).Just?
    ensures BooksRight(r, Run(r, s, ops).state)
  {
    hide BooksRight, Step;
    if ops == [] {
    } else {
      RunKeepsBooks(r, s, ops[..|ops| - 1]);
      StepKeepsBooks(r, Run(r, s, ops[..|ops| - 1]).state, ops[|ops| - 1]);
    }
  }

  // ------------------------------------------------------ drained and reloaded

  function Drained(s: State): State {
    s.(queue := [], db := SettledAll(s.db, s.queue))
  }

  /** Once everything is settled, every row holds the available balance and the frozen amount. */
  lemma {:induction false} DrainedAgrees(r: Rates, s: State)
    requires BooksRight(r, s)
    ensures var t := Drained(s);
            && BooksRight(r, t)
            && forall u | u > 0 && u in s.accounts ::
                 u in t.db && t.db[u] == Account(Available(s.accounts, u), s.accounts[u].frozen)
    decreases |s.queue|
  {
    if s.queue == [] {
      forall u | u > 0 && u in s.accounts ensures RowAgrees(s.accounts, s.queue, s.db, u)
        && s.db[u] == Account(Available(s.accounts, u), s.accounts[u].frozen) {
      }
    } else {
      SettleKeepsBooks(r, s);
      DrainedAgrees(r, SettleNext(s));
    }
  }

  /** Memory loaded from the rows of a drained database. */
  function Loaded(s: State): Accounts { Drained(s).db }

  /** A restart takes the row's balance for the whole balance, so it gives a user back the available
      amount exactly when nothing of it was frozen. */
  lemma RestartNeedsNothingFrozen(r: Rates, s: State, u: int)
    requires BooksRight(r, s) && u > 0 && u in s.accounts
    ensures Available(Loaded(s), u) == Available(s.accounts, u) <==> s.accounts[u].frozen == 0.0
  {
    DrainedAgrees(r, s);
  }
}
