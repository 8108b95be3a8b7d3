/** What one user owns, leg by leg: other users' legs leave it alone, and its own legs determine it
    as long as it holds at most one position. */
module Holdings {
  import opened Options
  import opened PositionMath
  import opened Clearance
  import opened Ledger
  import opened Conservation

  /** A user's account and its only position, if it has them. */
  datatype Holder = Holder(account: Option<Account>, held: Option<Position>)

  /** The id of a position whose id depends on what others opened before. */
  const ANY := 0

  function AccountOf(a: Accounts, user: int): Option<Account> { if user in a then Some(a[user]) else None }

  ghost predicate Flat(ps: Positions, user: int) {
    forall id | id in ps :: ps[id].user != user
  }

  /** The user's only position is p, under the given id. */
  ghost predicate HeldAs(ps: Positions, user: int, id: int, p: Position) {
    && id in ps && ps[id].user == user && ps[id] == p.(id := id) && (p.id == ANY || p.id == id)
    && forall j | j in ps && ps[j].user == user :: j == id
  }

  ghost predicate HoldsOnly(ps: Positions, user: int, held: Option<Position>) {
    if held.None? then Flat(ps, user) else exists id :: HeldAs(ps, user, id, held.value)
  }

  ghost predicate Holds(s: State, user: int, h: Holder) {
    AccountOf(s.accounts, user) == h.account && HoldsOnly(s.positions, user, h.held)
  }

  // ---------------------------------------------------- one user, one leg

  predicate HasFunds(h: Holder, x: real) {
    h.account.Some? && h.account.value.balance - h.account.value.frozen >= x
  }

  function Paid(h: Holder, x: real): Holder {
    if h.account.Some? then h.(account := Some(h.account.value.(balance := h.account.value.balance + x))) else h
  }

  function OpenStep(r: Rates, h: Holder, l: Leg): Holder {
    var cost := Opened(r, l).totalCost;
    if HasFunds(h, cost) then Paid(h, -cost).(held := Some(OpenedAs(r, ANY, l))) else h
  }

  function GrowStep(r: Rates, h: Holder, p: Position, l: Leg): Holder {
    var cost := Increased(r, p, l).addMargin;
    if HasFunds(h, cost) then Paid(h, -cost).(held := Some(Grown(r, p, l))) else h
  }

  function ReduceStep(r: Rates, h: Holder, p: Position, l: Leg): Holder {
    var c := Reduced(r, p, l);
    Paid(h, c.closeMargin + c.netPnl).(held := if l.qty < p.qty then Some(Shrunk(r, p, l)) else None)
  }

  /** One leg of the user's own: it opens, adds, reduces, closes or flips, and nothing else can happen. */
  function LegStep(r: Rates, h: Holder, l: Leg): Holder {
    if h.held.None? then OpenStep(r, h, l)
    else
      var p := h.held.value;
      if p.side == l.side then GrowStep(r, h, p, l)
      else if l.qty > p.qty then OpenStep(r, ReduceStep(r, h, p, l), l.(qty := l.qty - p.qty, isMaker := false))
      else ReduceStep(r, h, p, l)
  }

  /** Nothing held, or an active position: any leg will find it. */
  predicate Steady(h: Holder) { h.held.Some? ==> h.held.value.state.Active? }

  /** A position being closed is found by legs that reduce it only. */
  predicate Fits(h: Holder, l: Leg) {
    h.held.Some? && !h.held.value.state.Active? ==>
      h.held.value.side == Flip(l.side) && (h.held.value.state.Closing? || h.held.value.state.ForceTPing?)
  }

  lemma StepIsSteady(r: Rates, h: Holder, l: Leg)
    requires Fits(h, l)
    ensures Steady(LegStep(r, h, l))
  {
    hide CalcOpen, CalcIncrease, CalcReduce;
    NotBoth(l.side);
  }

  lemma Sides(a: Side, b: Side)
    ensures a == b || a == Flip(b)
  {
    assert IsSide(a) && IsSide(b);
  }

  // ------------------------------------------------- the ledger agrees

  /** One user's account and positions are untouched. */
  ghost predicate SameFor(s: State, t: State, user: int) {
    && AccountOf(s.accounts, user) == AccountOf(t.accounts, user)
    && (forall id | id in s.positions && s.positions[id].user == user ::
          id in t.positions && t.positions[id] == s.positions[id])
    && (forall id | id in t.positions && t.positions[id].user == user ::
          id in s.positions && s.positions[id] == t.positions[id])
  }

  lemma SameHolds(s: State, t: State, user: int, h: Holder)
    requires SameFor(s, t, user) && Holds(s, user, h)
    ensures Holds(t, user, h)
  {
    if h.held.Some? {
      var id :| HeldAs(s.positions, user, id, h.held.value);
      assert HeldAs(t.positions, user, id, h.held.value);
    }
  }

  lemma OpenLeavesOthers(r: Rates, s: State, l: Leg, user: int)
    requires Linked(s) && user != l.user
    ensures SameFor(s, HandleOpen(r, s, l), user)
  {
  }

  lemma PartLeavesOthers(r: Rates, s: State, l: Leg, id: int, user: int)
    requires id in s.positions && s.positions[id].user == l.user != user
    ensures SameFor(s, ReducePart(r, s, l, id), user)
  {
    hide CalcReduce;
  }

  lemma SameForChain(s: State, t: State, u: State, user: int)
    requires SameFor(s, t, user) && SameFor(t, u, user)
    ensures SameFor(s, u, user)
  {
  }

  lemma PartKeepsLinked(r: Rates, s: State, l: Leg, id: int)
    requires Linked(s) && id in s.positions
    ensures Linked(ReducePart(r, s, l, id))
  {
    hide CalcReduce;
  }

  /** A leg leaves everybody but its owner alone. */
  lemma UpdateLeavesOthers(r: Rates, s: State, l: Leg, a: Action, user: int)
    requires Linked(s) && Allowed(s.positions, l, a) && user != l.user
    ensures SameFor(s, UpdatePosition(r, s, l, a), user)
  {
    hide CalcOpen, CalcIncrease, CalcReduce, Linked, SameFor, ReducePart, HandleOpen;
    match a
    case Open => OpenLeavesOthers(r, s, l, user);
    case Increase(id) => IncreaseLeavesOthers(r, s, l, id, user);
    case Reduce(id) =>
      var t := ReducePart(r, s, l, id);
      PartLeavesOthers(r, s, l, id, user);
      PartKeepsLinked(r, s, l, id);
      if l.qty - s.positions[id].qty > 0.0 {
        var l' := l.(qty := l.qty - s.positions[id].qty, isMaker := false);
        OpenLeavesOthers(r, t, l', user);
        SameForChain(s, t, HandleOpen(r, t, l'), user);
      }
  }

  lemma IncreaseLeavesOthers(r: Rates, s: State, l: Leg, id: int, user: int)
    requires id in s.positions && s.positions[id].user == l.user != user
    ensures SameFor(s, HandleIncrease(r, s, l, id), user)
  {
    hide CalcIncrease;
  }

  lemma OpenHolds(r: Rates, s: State, l: Leg, h: Holder)
    requires Linked(s) && Holds(s, l.user, h) && h.held.None?
    ensures Holds(HandleOpen(r, s, l), l.user, OpenStep(r, h, l))
  {
    hide CalcOpen;
    var t := HandleOpen(r, s, l);
    if HasFunds(h, Opened(r, l).totalCost) {
      assert HeldAs(t.positions, l.user, s.nextPosId + 1, OpenedAs(r, ANY, l));
    }
  }

  lemma IncreaseHolds(r: Rates, s: State, l: Leg, id: int, h: Holder)
    requires Linked(s) && Holds(s, l.user, h) && h.held.Some? && HeldAs(s.positions, l.user, id, h.held.value)
    ensures Holds(HandleIncrease(r, s, l, id), l.user, GrowStep(r, h, h.held.value, l))
  {
    hide CalcIncrease;
    var p, t := h.held.value, HandleIncrease(r, s, l, id);
    if HasFunds(h, Increased(r, p, l).addMargin) {
      assert HeldAs(t.positions, l.user, id, Grown(r, p, l));
    } else {
      assert HeldAs(t.positions, l.user, id, p);
    }
  }

  lemma PartHolds(r: Rates, s: State, l: Leg, id: int, h: Holder)
    requires Linked(s) && Holds(s, l.user, h) && h.held.Some? && HeldAs(s.positions, l.user, id, h.held.value)
    ensures Holds(ReducePart(r, s, l, id), l.user, ReduceStep(r, h, h.held.value, l))
  {
    hide CalcReduce;
    var p, t := h.held.value, ReducePart(r, s, l, id);
    FullCloseIs(r, p, l);
    if l.qty < p.qty {
      assert HeldAs(t.positions, l.user, id, Shrunk(r, p, l));
    }
  }

  lemma FullCloseIs(r: Rates, p: Position, l: Leg)
    ensures Reduced(r, p, l).isFullClose <==> l.qty >= p.qty
    ensures l.qty < p.qty ==> Shrunk(r, p, l).id == p.id && Shrunk(r, p, l).user == p.user
  {
  }

  lemma ReduceHolds(r: Rates, s: State, l: Leg, id: int, h: Holder)
    requires Linked(s) && Holds(s, l.user, h) && h.held.Some? && HeldAs(s.positions, l.user, id, h.held.value)
    requires h.held.value.side == Flip(l.side)
    ensures Holds(HandleReduce(r, s, l, id), l.user, LegStep(r, h, l))
  {
    hide CalcReduce, CalcOpen, Linked, Holds, ReducePart, HandleOpen, OpenStep;
    var p := h.held.value;
    PartHolds(r, s, l, id, h);
    PartKeepsLinked(r, s, l, id);
    NotBoth(l.side);
    if l.qty > p.qty {
      OpenHolds(r, ReducePart(r, s, l, id), l.(qty := l.qty - p.qty, isMaker := false), ReduceStep(r, h, p, l));
    }
  }

  lemma NotBoth(side: Side)
    ensures side != Flip(side)
  {
  }

  /** The ledger does to the owner of a leg what `LegStep` says, whichever action it took. */
  lemma LegHolds(r: Rates, s: State, l: Leg, a: Action, h: Holder)
    requires Linked(s) && Holds(s, l.user, h) && Fits(h, l) && Allowed(s.positions, l, a)
    ensures Holds(UpdatePosition(r, s, l, a), l.user, LegStep(r, h, l))
  {
    hide CalcReduce, CalcOpen, CalcIncrease, Linked, Holds, HandleReduce, HandleIncrease, HandleOpen, OpenStep,
         GrowStep, ReduceStep;
    var id := ActionFits(s, l, a, h);
    match a
    case Open => OpenHolds(r, s, l, h);
    case Increase(_) => IncreaseHolds(r, s, l, id, h);
    case Reduce(_) => ReduceHolds(r, s, l, id, h);
  }

  /** With at most one position there is no choice of action. */
  lemma ActionFits(s: State, l: Leg, a: Action, h: Holder) returns (id: int)
    requires Holds(s, l.user, h) && Fits(h, l) && Allowed(s.positions, l, a)
    ensures h.held.None? <==> a.Open?
    ensures h.held.Some? ==> HeldAs(s.positions, l.user, id, h.held.value)
    ensures a.Increase? ==> a.id == id && h.held.value.side == l.side
    ensures a.Reduce? ==> a.id == id && h.held.value.side == Flip(l.side)
  {
    id := ANY;
    if h.held.Some? {
      id :| HeldAs(s.positions, l.user, id, h.held.value);
      Sides(h.held.value.side, l.side);
      assert Reducible(s.positions[id], l.user, l.side) || Growable(s.positions[id], l.user, l.side);
    }
  }

  // ------------------------------------------------------- lists of legs

  /** The user's own legs among all. */
  function MyLegs(legs: seq<Leg>, user: int): seq<Leg> {
    if legs == [] then []
    else
      var n := |legs| - 1;
      MyLegs(legs[..n], user) + if legs[n].user == user then [legs[n]] else []
  }

  function After(r: Rates, h: Holder, legs: seq<Leg>): Holder {
    if legs == [] then h else LegStep(r, After(r, h, legs[..|legs| - 1]), legs[|legs| - 1])
  }

  lemma {:induction false} AfterIsSteady(r: Rates, h: Holder, legs: seq<Leg>)
    requires legs != [] ==> Fits(h, legs[0])
    ensures legs != [] || Steady(h) ==> Steady(After(r, h, legs))
  {
    hide LegStep;
    if legs == [] {
    } else {
      var n := |legs| - 1;
      AfterIsSteady(r, h, legs[..n]);
      StepIsSteady(r, After(r, h, legs[..n]), legs[n]);
    }
  }

  lemma AfterOneMore(r: Rates, h: Holder, legs: seq<Leg>, l: Leg)
    ensures After(r, h, legs + [l]) == LegStep(r, After(r, h, legs), l)
  {
    assert (legs + [l])[..|legs|] == legs;
  }

  /** However many legs of however many users are applied, each user ends up with what its own legs
      make of what it had. */
  lemma {:induction false} LegsProject(r: Rates, s: State, legs: seq<Leg>, actions: seq<Action>, user: int, h: Holder)
    requires Linked(s) && Holds(s, user, h) && ApplyLegs(r, s, legs, actions).Just?
    requires MyLegs(legs, user) != [] ==> Fits(h, MyLegs(legs, user)[0])
    ensures Holds(ApplyLegs(r, s, legs, actions).state, user, After(r, h, MyLegs(legs, user)))
  {
    hide Linked, Holds, Fits, Allowed, UpdatePosition, LegStep;
    if legs == [] {
    } else {
      var n := |legs| - 1;
      var mine, l := MyLegs(legs[..n], user), legs[n];
      assert mine != [] ==> MyLegs(legs, user)[0] == mine[0];
      LegsProject(r, s, legs[..n], actions[..n], user, h);
      LegsMove(r, s, legs[..n], actions[..n], 0.0, Everyone());
      var t := ApplyLegs(r, s, legs[..n], actions[..n]).state;
      if l.user == user {
        AfterIsSteady(r, h, mine);
        StillFits(After(r, h, mine), l);
        LegHolds(r, t, l, actions[n], After(r, h, mine));
        AfterOneMore(r, h, mine, l);
      } else {
        assert MyLegs(legs, user) == mine;
        UpdateLeavesOthers(r, t, l, actions[n], user);
        SameHolds(t, UpdatePosition(r, t, l, actions[n]), user, After(r, h, mine));
      }
    }
  }

  lemma StillFits(h: Holder, l: Leg)
    ensures Steady(h) ==> Fits(h, l)
  {
  }

  // --------------------------------------------------- one position each

  /** The user holds at most one position, and it is active. */
  ghost predicate TidyFor(s: State, user: int) {
    exists h :: Holds(s, user, h) && Steady(h)
  }

  ghost predicate Tidy(s: State) {
    forall user :: TidyFor(s, user)
  }

  lemma TidyMeans(s: State)
    requires Tidy(s)
    ensures forall i, j | i in s.positions && j in s.positions && s.positions[i].user == s.positions[j].user :: i == j
    ensures forall id | id in s.positions :: s.positions[id].state.Active?
  {
    forall i | i in s.positions
      ensures s.positions[i].state.Active?
      ensures forall j | j in s.positions && s.positions[i].user == s.positions[j].user :: i == j
    {
      assert TidyFor(s, s.positions[i].user);
    }
  }

  lemma LegsKeepTidyFor(r: Rates, s: State, legs: seq<Leg>, actions: seq<Action>, user: int)
    requires Linked(s) && TidyFor(s, user) && ApplyLegs(r, s, legs, actions).Just?
    ensures TidyFor(ApplyLegs(r, s, legs, actions).state, user)
  {
    hide Linked, Holds, ApplyLegs, After;
    var h :| Holds(s, user, h) && Steady(h);
    var mine := MyLegs(legs, user);
    if mine != [] {
      StillFits(h, mine[0]);
    }
    LegsProject(r, s, legs, actions, user, h);
    AfterIsSteady(r, h, mine);
  }

  lemma SamePositionsTidy(s: State, t: State, user: int)
    requires TidyFor(s, user) && t.positions == s.positions
    ensures TidyFor(t, user)
  {
    var h :| Holds(s, user, h) && Steady(h);
    assert Holds(t, user, h.(account := AccountOf(t.accounts, user)));
  }

  // --------------------------------------------------- a taker's own fills

  /** The user is on this side of every trade, and not on the other. */
  ghost predicate OneSided(trades: seq<GoodTrade>, user: int, side: Side) {
    forall k | 0 <= k < |trades| ::
      if side == 1 then trades[k].buyUserId == user != trades[k].sellUserId
      else trades[k].sellUserId == user != trades[k].buyUserId
  }

  function TakerLeg(user: int, side: Side, leverage: int, t: GoodTrade): Leg {
    Leg(user, side, t.quantity, t.price, leverage, false)
  }

  /** A taker's legs, one per trade. */
  function TakerLegs(user: int, side: Side, leverage: int, trades: seq<GoodTrade>): seq<Leg> {
    if trades == [] then []
    else
      var n := |trades| - 1;
      TakerLegs(user, side, leverage, trades[..n]) + [TakerLeg(user, side, leverage, trades[n])]
  }

  lemma MyLegsOfTwo(front: seq<Leg>, l: Leg, l': Leg, user: int)
    ensures MyLegs(front + [l, l'], user)
            == MyLegs(front, user) + (if l.user == user then [l] else []) + (if l'.user == user then [l'] else [])
  {
    var legs := front + [l, l'];
    assert legs[..|legs| - 1] == front + [l];
    assert (front + [l])[..|front|] == front;
  }

  lemma {:induction false} TakerLegsAreMine(orders: map<int, Pending>, trades: seq<GoodTrade>, user: int, side: Side,
                                            leverage: int)
    requires OneSided(trades, user, side)
    ensures MyLegs(LegsOf(orders, trades, user, leverage), user) == TakerLegs(user, side, leverage, trades)
  {
    if trades == [] {
    } else {
      var n := |trades| - 1;
      var buy, sell := BuyLeg(orders, trades[n], user, leverage), SellLeg(orders, trades[n], user, leverage);
      TakerLegsAreMine(orders, trades[..n], user, side, leverage);
      MyLegsOfTwo(LegsOf(orders, trades[..n], user, leverage), buy, sell, user);
      assert side == 1 || side == -1;
    }
  }

  lemma {:induction false} FirstTakerLeg(user: int, side: Side, leverage: int, trades: seq<GoodTrade>)
    requires trades != []
    ensures |TakerLegs(user, side, leverage, trades)| == |trades|
    ensures TakerLegs(user, side, leverage, trades)[0] == TakerLeg(user, side, leverage, trades[0])
  {
    var n := |trades| - 1;
    if n == 0 {
    } else {
      FirstTakerLeg(user, side, leverage, trades[..n]);
    }
  }

  // ------------------------------------------------------------------ runs

  /** A public call; a close trades with others only, not with a resting order of its own owner. */
  ghost predicate Public(s: State, op: Op) {
    && !op.MarkState?
    && (op.Close? && Closable(s, op.id, op.state, op.trades) ==>
          OneSided(op.trades, s.positions[op.id].user, Flip(s.positions[op.id].side)))
  }

  ghost predicate PublicRun(r: Rates, s: State, ops: seq<Op>) {
    ops != [] ==>
      var n := |ops| - 1;
      PublicRun(r, s, ops[..n]) && (var o := Run(r, s, ops[..n]); o.Just? ==> Public(o.state, ops[n]))
  }

  lemma OtherStateTidy(s: State, id: int, state: PosState, user: int)
    requires TidyFor(s, user) && (id in s.positions ==> s.positions[id].user != user)
    ensures TidyFor(WithPosState(s, id, state), user)
  {
    var h :| Holds(s, user, h) && Steady(h);
    SameHolds(s, WithPosState(s, id, state), user, h);
  }

  lemma ClosingHolds(s: State, id: int, state: PosState, h: Holder)
    requires id in s.positions && Holds(s, s.positions[id].user, h)
    ensures h.held.Some? && h.held.value.side == s.positions[id].side
    ensures Holds(WithPosState(s, id, state), s.positions[id].user, h.(held := Some(h.held.value.(state := state))))
  {
    var t, p := WithPosState(s, id, state), h.held.value;
    var i :| HeldAs(s.positions, s.positions[id].user, i, p);
    assert HeldAs(t.positions, s.positions[id].user, i, p.(state := state));
  }

  lemma CloseKeepsTidyFor(r: Rates, s: State, op: Op, user: int)
    requires Linked(s) && TidyFor(s, user) && op.Close? && Closable(s, op.id, op.state, op.trades)
    requires Public(s, op) && Step(r, s, op).Just?
    ensures TidyFor(Step(r, s, op).state, user)
  {
    hide Linked, Holds, ApplyLegs, LegsOf, LegStep, MyLegs, After, TakerLegs;
    var p, t := s.positions[op.id], WithPosState(s, op.id, op.state);
    var b, legs := Announce(t, p.user), LegsOf(s.orders, op.trades, p.user, p.leverage);
    BeforeIsSame(r, s, op, 0.0, Everyone());
    if user != p.user {
      OtherStateTidy(s, op.id, op.state, user);
      SamePositionsTidy(t, b, user);
      LegsKeepTidyFor(r, b, legs, op.actions, user);
    } else {
      var h :| Holds(s, user, h) && Steady(h);
      ClosingHolds(s, op.id, op.state, h);
      var closing := h.(held := Some(h.held.value.(state := op.state)));
      AnnouncedHolds(t, user, closing);
      TakerLegsAreMine(s.orders, op.trades, user, Flip(p.side), p.leverage);
      FirstTakerLeg(user, Flip(p.side), p.leverage, op.trades);
      FlipTwice(p.side);
      LegsProject(r, b, legs, op.actions, user, closing);
      AfterIsSteady(r, closing, TakerLegs(user, Flip(p.side), p.leverage, op.trades));
    }
  }

  lemma AnnouncedHolds(s: State, user: int, h: Holder)
    requires Holds(s, user, h)
    ensures forall u :: Holds(Announce(s, u), user, h)
  {
  }

  lemma FlipTwice(side: Side)
    ensures Flip(Flip(side)) == side
  {
    assert IsSide(side);
  }

  lemma StepKeepsTidyFor(r: Rates, s: State, op: Op, user: int)
    requires Linked(s) && TidyFor(s, user) && Public(s, op) && Step(r, s, op).Just?
    ensures TidyFor(Step(r, s, op).state, user)
  {
    hide Linked, TidyFor, ApplyLegs, LegsIn, HoldOf, Unknown;
    if op.Close? && Trades(r, s, op) {
      CloseKeepsTidyFor(r, s, op, user);
    } else if Trades(r, s, op) {
      StepIsLegs(r, s, op);
      BeforeIsSame(r, s, op, 0.0, Everyone());
      SamePositionsTidy(s, Before(r, s, op), user);
      LegsKeepTidyFor(r, Before(r, s, op), LegsIn(r, s, op), ActionsIn(op), user);
    } else {
      SamePositionsTidy(s, Step(r, s, op).state, user);
    }
  }

  /** In every run of public calls in which nobody's close meets its own resting order, each user
      holds at most one position, an active one. */
  lemma {:induction false} RunKeepsTidy(r: Rates, s: State, ops: seq<Op>)
    requires Linked(s) && Tidy(s) && Run(r, s, ops).Just? && PublicRun(r, s, ops)
    ensures Tidy(Run(r, s, ops).state)
  {
    hide Linked, TidyFor, Public, Step;
    if ops == [] {
    } else {
      var n := |ops| - 1;
      RunKeepsTidy(r, s, ops[..n]);
      RunMoves(r, s, ops[..n], 0.0, Everyone());
      forall user ensures TidyFor(Run(r, s, ops).state, user) {
        StepKeepsTidyFor(r, Run(r, s, ops[..n]).state, ops[n], user);
      }
    }
  }
}
