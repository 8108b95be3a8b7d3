/** What deleveraging does to the ledger: the planned reductions, applied one after the other, reach
    exactly the positions they were planned for. */
module Reductions {
  import opened Options
  import opened Reals
  import opened PositionMath
  import opened Clearance
  import opened Ledger
  import opened Conservation
  import opened Holdings
  import opened Deleveraging
  import AveragePrice

  /** The leg that reduces a deleveraged counterparty. */
  function DeleverageLeg(c: ADLResult, targetSide: Side): Leg {
    Leg(c.user, Flip(targetSide), c.reducedQty, c.settlementPrice, 1, false)
  }

  /** Of a user whom it finds without a position, the reduction would open one: fully margined, as taker. */
  lemma ReductionIsUnlevered(r: Rates, c: ADLResult, targetSide: Side)
    ensures var l := DeleverageLeg(c, targetSide);
            && l.user == c.user && l.side == Flip(targetSide) && Opened(r, l).margin == c.settlementPrice * c.reducedQty
            && Opened(r, l).fee == c.settlementPrice * c.reducedQty * r.taker
  {
    hide LiquidationPrice, ForceTpPrice;
    var value := c.settlementPrice * c.reducedQty;
    assert value / 1.0 == value;
  }


  /** One operation per result, with the positions each happened to reduce. */
  function DeleverageOps(results: seq<ADLResult>, targetSide: Side, actions: seq<Action>): (ops: seq<Op>)
    ensures |ops| == if |results| <= |actions| then |results| else |actions|
  {
    var n := if |results| <= |actions| then |results| else |actions|;
    seq(n, k requires 0 <= k < n => Op.Deleverage(DeleverageLeg(results[k], targetSide), actions[k]))
  }

  lemma NoOps(r: Rates, s: State, targetSide: Side)
    ensures Run(r, s, DeleverageOps([], targetSide, [])) == Just(s)
  {
  }

  lemma OneMoreOp(r: Rates, s: State, t: State, u: State, cuts: seq<ADLResult>, i: nat, targetSide: Side,
                  actions: seq<Action>, a: Action)
    requires i < |cuts| && |actions| == i && Run(r, s, DeleverageOps(cuts[..i], targetSide, actions)) == Just(t)
    requires Step(r, t, Op.Deleverage(DeleverageLeg(cuts[i], targetSide), a)) == Just(u)
    ensures Run(r, s, DeleverageOps(cuts[..i + 1], targetSide, actions + [a])) == Just(u)
  {
    hide Step, DeleverageLeg;
    var ops := DeleverageOps(cuts[..i + 1], targetSide, actions + [a]);
    assert ops[..i] == DeleverageOps(cuts[..i], targetSide, actions);
    assert ops[i] == Op.Deleverage(DeleverageLeg(cuts[i], targetSide), a);
  }

  // ------------------------------------------------------ one counterparty

  /** The user's only position, before anything is reduced. */
  ghost predicate Only(s: State, p: Position) {
    p.id > 0 && HeldAs(s.positions, p.user, p.id, p)
  }

  /** After its reduction: gone when it was fully closed, else what remains of it, and paid for. */
  ghost predicate ReducedBy(r: Rates, s: State, t: State, p: Position, c: ADLResult, targetSide: Side) {
    Holds(t, p.user, ReduceStep(r, Holder(AccountOf(s.accounts, p.user), Some(p)), p, DeleverageLeg(c, targetSide)))
  }

  /** A result that belongs to p. */
  predicate For(c: ADLResult, p: Position, targetSide: Side) {
    c.user == p.user && c.reducedQty <= p.qty && p.side == targetSide && p.state.Active?
  }

  lemma OneReduction(r: Rates, s: State, t: State, p: Position, c: ADLResult, targetSide: Side, a: Action)
    requires Linked(s) && Only(s, p) && For(c, p, targetSide)
    requires Step(r, s, Op.Deleverage(DeleverageLeg(c, targetSide), a)) == Just(t)
    ensures Linked(t) && ReducedBy(r, s, t, p, c, targetSide)
    ensures forall u | u != p.user :: SameFor(s, t, u)
  {
    hide Linked, UpdatePosition, ReduceStep, OpenStep, GrowStep, SameFor;
    var l, b := DeleverageLeg(c, targetSide), Announce(s, c.user);
    var h := Holder(AccountOf(s.accounts, p.user), Some(p));
    AnnouncedHolds(s, p.user, h);
    AnnounceKeepsLinked(s, c.user);
    FlipTwice(targetSide);
    NotBoth(targetSide);
    LegHolds(r, b, l, a, h);
    UpdateKeepsLinked(r, b, l, a);
    forall u | u != p.user ensures SameFor(s, t, u) {
      UpdateLeavesOthers(r, b, l, a, u);
      AnnouncedSame(s, c.user, u);
      SameForChain(s, b, t, u);
    }
  }

  lemma AnnouncedSame(s: State, user: int, u: int)
    ensures SameFor(s, Announce(s, user), u)
  {
  }

  // ------------------------------------------------------------ the plan

  /** Results go to ranked positions, in order, each of which is its user's only one. */
  ghost predicate Planned(s: State, ranked: seq<Ranked>, results: seq<ADLResult>, targetSide: Side) {
    && |results| <= |ranked|
    && (forall k | 0 <= k < |results| :: Only(s, ranked[k].position) && For(results[k], ranked[k].position, targetSide))
    && DistinctRanks(ranked)
  }

  /** Every result has reached its position, and everybody else has what it had. */
  ghost predicate AllReduced(r: Rates, s: State, t: State, ranked: seq<Ranked>, results: seq<ADLResult>,
                             targetSide: Side)
    requires |results| <= |ranked|
  {
    && (forall k | 0 <= k < |results| :: ReducedBy(r, s, t, ranked[k].position, results[k], targetSide))
    && (forall u | NotAmong(ranked[..|results|], u) :: SameFor(s, t, u))
  }

  ghost predicate NotAmong(ranked: seq<Ranked>, user: int) {
    forall k | 0 <= k < |ranked| :: ranked[k].position.user != user
  }

  lemma UsersAreDistinct(s: State, ranked: seq<Ranked>, results: seq<ADLResult>, targetSide: Side)
    requires Planned(s, ranked, results, targetSide)
    ensures forall i, j | 0 <= i < j < |results| :: ranked[i].position.user != ranked[j].position.user
  {
    forall i, j | 0 <= i < j < |results| ensures ranked[i].position.user != ranked[j].position.user {
      assert Only(s, ranked[i].position) && Only(s, ranked[j].position);
    }
  }

  lemma OnlyLater(s: State, t: State, p: Position)
    requires Only(s, p) && SameFor(s, t, p.user)
    ensures Only(t, p) && AccountOf(s.accounts, p.user) == AccountOf(t.accounts, p.user)
  {
  }

  /** Whatever actions the reductions took, when each ranked user has one position each reaches the one
      it was planned for. */
  lemma {:induction false} PlanIsApplied(r: Rates, s: State, t: State, ranked: seq<Ranked>, results: seq<ADLResult>,
                                         targetSide: Side,
                                         actions: seq<Action>)
    requires Linked(s) && Planned(s, ranked, results, targetSide) && |actions| == |results|
    requires Run(r, s, DeleverageOps(results, targetSide, actions)) == Just(t)
    ensures Linked(t) && AllReduced(r, s, t, ranked, results, targetSide)
    decreases |results|
  {
    hide Linked, Step, ReducedBy, SameFor, Only, For, DeleverageLeg;
    if results == [] {
      forall u ensures SameFor(s, t, u) {
        Unchanged(s, u);
      }
    } else {
      var n := |results| - 1;
      var ops, p, c := DeleverageOps(results, targetSide, actions), ranked[n].position, results[n];
      assert ops[..n] == DeleverageOps(results[..n], targetSide, actions[..n]);
      var m := Run(r, s, ops[..n]).state;
      PlanIsApplied(r, s, m, ranked, results[..n], targetSide, actions[..n]);
      UsersAreDistinct(s, ranked, results, targetSide);
      OnlyLater(s, m, p);
      OneReduction(r, m, t, p, c, targetSide, actions[n]);
      OneMoreApplied(r, s, m, t, ranked, results, targetSide);
    }
  }

  lemma Unchanged(s: State, u: int)
    ensures SameFor(s, s, u)
  {
  }

  lemma OneMoreApplied(r: Rates, s: State, m: State, t: State, ranked: seq<Ranked>, results: seq<ADLResult>,
                       targetSide: Side)
    requires 0 < |results| <= |ranked| && AllReduced(r, s, m, ranked, results[..|results| - 1], targetSide)
    requires forall i, j | 0 <= i < j < |results| :: ranked[i].position.user != ranked[j].position.user
    requires var p, c := ranked[|results| - 1].position, results[|results| - 1];
             && ReducedBy(r, m, t, p, c, targetSide) && AccountOf(s.accounts, p.user) == AccountOf(m.accounts, p.user)
             && forall u | u != p.user :: SameFor(m, t, u)
    ensures AllReduced(r, s, t, ranked, results, targetSide)
  {
    hide SameFor, DeleverageLeg, ReduceStep, Holds;
    var n := |results| - 1;
    forall k | 0 <= k < |results| ensures ReducedBy(r, s, t, ranked[k].position, results[k], targetSide) {
      if k < n {
        var q := ranked[k].position;
        SameHolds(m, t, q.user, ReduceStep(r, Holder(AccountOf(s.accounts, q.user), Some(q)), q,
                                           DeleverageLeg(results[k], targetSide)));
      }
    }
    forall u | NotAmong(ranked[..|results|], u) ensures SameFor(s, t, u) {
      assert ranked[..|results|][n] == ranked[n];
      assert forall k | 0 <= k < n :: ranked[..n][k] == ranked[..|results|][k];
      SameForChain(s, m, t, u);
    }
  }

  // ------------------------------------------------------- read off the ledger

  /** What a reduced counterparty has: no position, or the same one with the remaining quantity. */
  ghost predicate LeftWith(t: State, p: Position, c: ADLResult) {
    if c.reducedQty == p.qty then Flat(t.positions, p.user)
    else
      && p.id in t.positions && t.positions[p.id].user == p.user && t.positions[p.id].side == p.side
      && t.positions[p.id].entry == p.entry && t.positions[p.id].qty == p.qty - c.reducedQty
      && forall j | j in t.positions && t.positions[j].user == p.user :: j == p.id
  }

  lemma ReducedLeaves(r: Rates, s: State, t: State, p: Position, c: ADLResult, targetSide: Side)
    requires p.id > 0 && For(c, p, targetSide) && ReducedBy(r, s, t, p, c, targetSide)
    ensures LeftWith(t, p, c)
  {
    hide CalcReduce, LiquidationPrice, ForceTpPrice;
    var l := DeleverageLeg(c, targetSide);
    if l.qty < p.qty {
      AveragePrice.ShrunkIs(r, p, l);
      var id :| HeldAs(t.positions, p.user, id, Shrunk(r, p, l));
    }
  }

  // ---------------------------------------------------------- net payout

  /** A reduction pays its owner a net profit, after the taker fee, exactly when closing the whole
      position at that price would: profit and accrued funding at least the fee on its value. */
  lemma NetProfitIff(r: Rates, p: Position, l: Leg)
    requires l.qty <= p.qty
    ensures Reduced(r, p, l).netPnl >= 0.0 <==>
            Pnl(p.entry, l.price, p.qty, p.side) + p.funding >= Charged(r.taker, l.price, p.qty)
  {
    hide Mul, Pnl, CalcReduce, Charged;
    var c := Reduced(r, p, l);
    var whole := Pnl(p.entry, l.price, p.qty, p.side) + p.funding - Charged(r.taker, l.price, p.qty);
    ReduceForm(r, p.entry, l.price, p.qty, p.margin, p.funding, p.leverage, p.side, l.qty);
    AveragePrice.ReduceFullQty(r, p, l);
    PnlShare(p.entry, l.price, l.qty, p.qty, p.side);
    FeeShare(r.taker, l.price, l.qty, p.qty);
    MulLinear(Pnl(p.entry, l.price, l.qty, p.side) - c.fee, c.closeFunding, p.qty);
    MulLinear(Pnl(p.entry, l.price, l.qty, p.side), c.fee, p.qty);
    MulLinear(Pnl(p.entry, l.price, p.qty, p.side) + p.funding, Charged(r.taker, l.price, p.qty), l.qty);
    MulLinear(Pnl(p.entry, l.price, p.qty, p.side), p.funding, l.qty);
    assert Mul(c.netPnl, p.qty) == Mul(whole, l.qty);
    MulOrder(0.0, c.netPnl, p.qty);
    MulOrder(c.netPnl, 0.0, p.qty);
    MulOrder(0.0, whole, l.qty);
    MulLinear(0.0, 0.0, p.qty);
    MulLinear(0.0, 0.0, l.qty);
  }

  lemma PnlShare(entry: real, price: real, q: real, qty: real, side: Side)
    ensures Mul(Pnl(entry, price, q, side), qty) == Mul(Pnl(entry, price, qty, side), q)
  {
  }

  lemma FeeShare(rate: real, price: real, q: real, qty: real)
    ensures Mul(Mul(Mul(rate, price), q), qty) == Mul(Charged(rate, price, qty), q)
  {
  }
}
