/** The risk monitor's loss waterfall: takeover, then the insurance fund, then ranked deleveraging. */
module Waterfall {
  import opened Options
  import opened Reals
  import opened PositionMath
  import opened Clearance
  import opened Ledger
  import opened Insurance
  import opened Deleveraging
  import opened TradingEngine
  import opened Backing
  import opened Holdings
  import opened AveragePrice
  import opened Disposing
  import opened Reductions
  import opened Liquidation
  import Conservation
  import Margins
  import OrderBook
  import BookSpec

  /** How a deficit was paid: by the fund, by what counterparties gave up, and not at all. */
  datatype Payment = Payment(deficit: real, covered: real, givenUp: real, uncovered: real,
                             ranked: seq<Ranked>, results: seq<ADLResult>)

  /** The deficit splits exactly; money is missing only when the fund is empty and every ranked
      position was closed; nobody is reduced out of turn, at a loss, or beyond what was liquidated. */
  ghost predicate PaidInOrder(w: Payment, fundBefore: real, fundAfter: real, quantity: real, bankruptcyPrice: Price) {
    && w.deficit == w.covered + w.givenUp + w.uncovered
    && 0.0 <= w.covered && 0.0 <= w.givenUp && 0.0 <= w.uncovered
    && w.covered == CoveredPart(fundBefore, w.deficit) && fundAfter == fundBefore - w.covered && fundAfter >= 0.0
    && (w.givenUp > 0.0 || w.uncovered > 0.0 ==> fundAfter == 0.0)
    && FairlyReduced(w.ranked, w.results, w.uncovered, bankruptcyPrice) && ByScore(w.ranked)
    && ReducedTotal(w.results) <= quantity
  }

  /** An active position has been traded to the liquidation account; any other was left alone. */
  ghost predicate TakenOver(r: Rates, s: State, t: State, p: Position, price: Price, actions: seq<Action>) {
    if p.state.Active? then Step(r, s, Fill([TakeOverTrade(p, price)], p.user, p.leverage, actions)) == Just(t)
    else t == s
  }

  /** Past bankruptcy by the gap, on the liquidated quantity. */
  function Deficit(bankruptcyPrice: real, lastPrice: real, quantity: real): real {
    var d := bankruptcyPrice - lastPrice;
    Mul(if d < 0.0 then -d else d, quantity)
  }

  /** The ranking holds exactly the eligible positions, each once, highest score first. */
  ghost predicate RanksExactly(ranked: seq<Ranked>, positions: Positions, targetSide: Side, currentPrice: real,
                               bankruptcyPrice: real) {
    && DistinctRanks(ranked)
    && (forall k | 0 <= k < |ranked| ::
          ranked[k].position.id in positions && positions[ranked[k].position.id] == ranked[k].position)
    && ByScore(ranked) && AllEligible(ranked, targetSide, currentPrice, bankruptcyPrice)
    && forall id | id in positions ::
         Reachable(positions[id], targetSide, currentPrice, bankruptcyPrice) <==>
           RankOf(positions[id], currentPrice) in ranked
  }

  /** What the fund did not cover was to come from reducing exactly the eligible positions, in their
      ranking, by what the execution says; otherwise nobody is reduced. */
  ghost predicate Deleveraged(w: Payment, positions: Positions, side: Side, bankruptcyPrice: Price, lastPrice: real) {
    if w.covered < w.deficit then
      && RanksExactly(w.ranked, positions, Flip(side), lastPrice, bankruptcyPrice)
      && Execution(w.results, w.uncovered) == Execute(w.ranked, w.deficit - w.covered, bankruptcyPrice, lastPrice)
      && w.givenUp == GivenUp(w.results, side, bankruptcyPrice, lastPrice)
    else w.ranked == [] && w.results == [] && w.givenUp == 0.0 && w.uncovered == 0.0
  }

  function MaxOf(x: real, y: real): real { if x >= y then x else y }

  /** The deficit is what is lost beyond the bankruptcy price, on either side: of a margined position, what
      margin and profit at the last price together fall short of zero by. */
  ghost predicate IsLossBeyond(deficit: real, p: Position, lastPrice: real) {
    var b := BankruptcyPrice(p.entry, p.leverage, p.side);
    && deficit == MaxOf(0.0, if p.side == 1 then b - lastPrice else lastPrice - b) * p.qty
    && (Margined(p.entry, p.qty, p.margin, p.leverage) ==>
          deficit == MaxOf(0.0, -(p.margin + Pnl(p.entry, lastPrice, p.qty, p.side))))
  }

  /** What a liquidation of p at this price takes from fund and counterparties, given the positions after
      the takeover. */
  ghost predicate LiquidationPaid(w: Payment, positions: Positions, p: Position, lastPrice: Price, fund: real,
                                  after: real) {
    var b := BankruptcyPrice(p.entry, p.leverage, p.side);
    && b >= 0.0 && PaidInOrder(w, fund, after, p.qty, b) && Deleveraged(w, positions, p.side, b, lastPrice)
    && w.deficit == if IsPastPrice(lastPrice, b, p.side) then Deficit(b, lastPrice, p.qty) else 0.0
  }

  /** What the reductions did to the ledger: each reduced counterparty is left with what its result says,
      nobody else was touched, and when money is still missing every eligible position is gone. */
  ghost predicate LedgerFollows(s: State, t: State, w: Payment, targetSide: Side, currentPrice: real,
                                bankruptcyPrice: real) {
    && |w.results| <= |w.ranked|
    && (forall k | 0 <= k < |w.results| :: LeftWith(t, w.ranked[k].position, w.results[k]))
    && (forall u | NotAmong(w.ranked[..|w.results|], u) :: SameFor(s, t, u))
    && (w.uncovered > 0.0 ==>
          forall id | id in s.positions && Reachable(s.positions[id], targetSide, currentPrice, bankruptcyPrice) ::
            Flat(t.positions, s.positions[id].user))
  }

  /** What the reduced counterparties give up: the gap on every unit. */
  function GivenUp(results: seq<ADLResult>, liquidatedSide: Side, bankruptcyPrice: real, lastPrice: real): real {
    Mul(ReducedTotal(results), Gap(Flip(liquidatedSide), bankruptcyPrice, lastPrice))
  }

  class Monitor {
    const engine: Engine
    const fund: Fund
    const liqEngine: LiquidationEngine

    constructor (engine: Engine, fund: Fund)
      ensures this.engine == engine && this.fund == fund && liqEngine.engine == engine && liqEngine.fund == fund
    {
      this.engine, this.fund := engine, fund;
      liqEngine := new LiquidationEngine(engine, fund);
    }

    /** Ranks the opposite side and reduces it, past the book, until the deficit is covered. */
    method TriggerADL(liquidatedSide: Side, deficit: real, bankruptcyPrice: Price, currentPrice: real)
      returns (remaining: real, ghost ranked: seq<Ranked>, ghost results: seq<ADLResult>, ghost actions: seq<Action>)
      requires engine.Ready()
      modifies engine.memAccounts, engine.positionCache, engine.settler, engine`nextPosId, engine.book`nextId
      ensures engine.Ready() && engine.book.State() == old(engine.book.State())
      ensures RanksExactly(ranked, old(engine.positionCache.positions), Flip(liquidatedSide), currentPrice,
                           bankruptcyPrice)
      ensures Execution(results, remaining) == Execute(ranked, deficit, bankruptcyPrice, currentPrice)
      ensures |actions| == |results|
      ensures Run(engine.rates, old(engine.Current()), DeleverageOps(results, Flip(liquidatedSide), actions))
              == Just(engine.Current())
    {
      hide Healthy, Backed, BookSpec.BookPriced, OrderBook.Consistent, Execute, Step, Run, RanksExactly, EligibleRanks,
           ByScore, AllEligible, DistinctRanks, RankedFrom;
      NoOps(engine.rates, engine.Current(), Flip(liquidatedSide));
      ghost var s := engine.Current();
      var targetSide := Flip(liquidatedSide);
      label start:
      var allPositions := engine.positionCache.GetAll();
      var ranking := RankPositions(allPositions, targetSide, currentPrice, bankruptcyPrice);
      ranked, actions := ranking, [];
      AllRanked(s.positions, allPositions, ranking, targetSide, currentPrice, bankruptcyPrice);
      if |ranking| == 0 {
        NobodyToReduce(deficit, bankruptcyPrice, currentPrice);
        BookReadyFramed@start(engine);
        results, remaining := [], deficit;
        return;
      }
      var cuts, left := ExecuteADL(ranking, deficit, bankruptcyPrice, currentPrice);
      results, remaining := cuts, left;
      actions := ReduceAll(cuts, targetSide);
      BookReadyFramed@start(engine);
    }

    /** Every ranked counterparty's reduction, in the order of the ranking. */
    method ReduceAll(cuts: seq<ADLResult>, targetSide: Side) returns (ghost actions: seq<Action>)
      requires engine.Valid()
      modifies engine.memAccounts, engine.positionCache, engine.settler, engine`nextPosId, engine.book`nextId
      ensures engine.Valid() && engine.book.nextId >= old(engine.book.nextId) && |actions| == |cuts|
      ensures Run(engine.rates, old(engine.Current()), DeleverageOps(cuts, targetSide, actions))
              == Just(engine.Current())
    {
      hide Healthy, Step, Run, DeleverageLeg, DeleverageOps;
      ghost var s := engine.Current();
      actions := [];
      NoOps(engine.rates, s, targetSide);
      for i := 0 to |cuts|
        invariant engine.Valid() && |actions| == i && engine.book.nextId >= old(engine.book.nextId)
        invariant Run(engine.rates, s, DeleverageOps(cuts[..i], targetSide, actions)) == Just(engine.Current())
      {
        var _ := engine.book.NextOrderId();
        ghost var t := engine.Current();
        var _, a := engine.Deleverage(DeleverageLeg(cuts[i], targetSide));
        OneMoreOp(engine.rates, s, t, engine.Current(), cuts, i, targetSide, actions, a);
        actions := actions + [a];
      }
      assert cuts[..|cuts|] == cuts;
    }

    /** Takes the position over and, when the market is past its bankruptcy price, pays for the gap. */
    method HandleLiquidation(p: Position, lastPrice: Price)
      returns (ghost payment: Payment, ghost taken: State, ghost actions: seq<Action>, ghost reductions: seq<Action>)
      requires engine.Ready() && liqEngine.engine == engine && fund.balance >= 0.0
      modifies engine.memAccounts, engine.positionCache, engine.settler, engine`nextPosId, engine.book`nextId, fund
      ensures engine.Ready() && engine.book.State() == old(engine.book.State())
      ensures LiquidationPaid(payment, taken.positions, p, lastPrice, old(fund.balance), fund.balance)
      ensures var bankruptcy := BankruptcyPrice(p.entry, p.leverage, p.side);
              bankruptcy >= 0.0 && TakenOver(engine.rates, old(engine.Current()), taken, p, bankruptcy, actions)
      ensures IsLossBeyond(payment.deficit, p, lastPrice)
      ensures |reductions| == |payment.results|
      ensures Run(engine.rates, taken, DeleverageOps(payment.results, Flip(p.side), reductions))
              == Just(engine.Current())
      ensures Tidy(old(engine.Current())) ==>
                LedgerFollows(taken, engine.Current(), payment, Flip(p.side), lastPrice,
                              BankruptcyPrice(p.entry, p.leverage, p.side))
    {
      hide Healthy, Backed, BookSpec.BookPriced, OrderBook.Consistent, Execute, Step, Run, BankruptcyPrice, PaidInOrder,
           AllEligible, ByScore, RanksExactly, DeleverageOps, Tidy, LedgerFollows, GivenUp, IsLossBeyond,
           Conservation.Linked, FairlyReduced;
      BankruptcyIsPrice(p.entry, p.leverage, p.side);
      var bankruptcyPrice: Price := BankruptcyPrice(p.entry, p.leverage, p.side);
      ghost var s := engine.Current();
      HealthyLinked(engine.rates, s);
      var _, takeOver := liqEngine.TakeOver(p, bankruptcyPrice);
      taken, actions, reductions := engine.Current(), takeOver, [];
      HealthyLinked(engine.rates, taken);
      NothingOwed(fund.balance, p.qty, bankruptcyPrice);
      DeficitIsLoss(p, lastPrice);
      NoOps(engine.rates, taken, Flip(p.side));
      payment := Payment(0.0, 0.0, 0.0, 0.0, [], []);
      if IsPastPrice(lastPrice, bankruptcyPrice, p.side) {
        ghost var before := fund.balance;
        var deficit := Deficit(bankruptcyPrice, lastPrice, p.qty);
        label taken:
        var covered, needADL := fund.Cover(deficit);
        BookReadyFramed@taken(engine);
        if needADL {
          var uncovered, ranked, cuts, reduced := TriggerADL(p.side, deficit - covered, bankruptcyPrice, lastPrice);
          RankedIs(ranked, taken.positions, Flip(p.side), lastPrice, bankruptcyPrice);
          PaymentIsInOrder(before, p, deficit, bankruptcyPrice, lastPrice, ranked, cuts, uncovered);
          payment := Payment(deficit, covered, GivenUp(cuts, p.side, bankruptcyPrice, lastPrice), uncovered, ranked,
                             cuts);
          reductions := reduced;
        } else {
          FundPays(before, p, deficit, bankruptcyPrice, lastPrice);
          payment := Payment(deficit, covered, 0.0, 0.0, [], []);
        }
      }
      if Tidy(s) {
        TakenStaysTidy(engine.rates, s, taken, p, bankruptcyPrice, actions);
        PaidFairly(payment, p.qty, bankruptcyPrice);
        LedgerIsAsPaid(engine.rates, taken, engine.Current(), payment, Flip(p.side), lastPrice, bankruptcyPrice,
                       reductions);
      }
    }
  }

  lemma HealthyLinked(r: Rates, s: State)
    requires Healthy(r, s)
    ensures Conservation.Linked(s)
  {
  }

  lemma PaidFairly(w: Payment, quantity: real, bankruptcyPrice: Price)
    requires exists f, g :: PaidInOrder(w, f, g, quantity, bankruptcyPrice)
    ensures FairlyReduced(w.ranked, w.results, w.uncovered, bankruptcyPrice)
  {
  }

  lemma NobodyToReduce(deficit: real, bankruptcyPrice: Price, currentPrice: real)
    ensures Execute([], deficit, bankruptcyPrice, currentPrice) == Execution([], deficit)
  {
  }

  lemma {:induction false} RanksAreOf(ps: seq<Position>, targetSide: Side, currentPrice: real, bankruptcyPrice: real,
                                      p: Position)
    ensures p in ps && Eligible(p, targetSide, currentPrice, bankruptcyPrice) ==>
              RankOf(p, currentPrice) in EligibleRanks(ps, targetSide, currentPrice, bankruptcyPrice)
    ensures RankOf(p, currentPrice) in EligibleRanks(ps, targetSide, currentPrice, bankruptcyPrice) ==>
              p in ps && Eligible(p, targetSide, currentPrice, bankruptcyPrice)
  {
    hide Eligible, RankOf;
    if ps == [] {
    } else {
      var n := |ps| - 1;
      RanksAreOf(ps[..n], targetSide, currentPrice, bankruptcyPrice, p);
      RankKeepsPosition(p, currentPrice);
      RankKeepsPosition(ps[n], currentPrice);
      assert ps == ps[..n] + [ps[n]];
    }
  }

  /** Ranking all active positions ranks all eligible ones. */
  lemma AllRanked(positions: Positions, all: seq<Position>, ranked: seq<Ranked>, targetSide: Side, currentPrice: real,
                  bankruptcyPrice: real)
    requires forall p | p in all :: p.id in positions && positions[p.id] == p
    requires forall id | id in positions && positions[id].state.Active? :: positions[id] in all
    requires multiset(ranked) == multiset(EligibleRanks(all, targetSide, currentPrice, bankruptcyPrice))
    requires ByScore(ranked) && AllEligible(ranked, targetSide, currentPrice, bankruptcyPrice)
    requires DistinctRanks(ranked) && RankedFrom(ranked, all)
    ensures RanksExactly(ranked, positions, targetSide, currentPrice, bankruptcyPrice)
  {
    hide RankOf, ByScore, AllEligible, DistinctRanks;
    var found := EligibleRanks(all, targetSide, currentPrice, bankruptcyPrice);
    forall id | id in positions
      ensures Reachable(positions[id], targetSide, currentPrice, bankruptcyPrice) <==>
              RankOf(positions[id], currentPrice) in ranked
    {
      EligibleIsReachable(positions[id], targetSide, currentPrice, bankruptcyPrice);
      RanksAreOf(all, targetSide, currentPrice, bankruptcyPrice, positions[id]);
      SameMembers(ranked, found, RankOf(positions[id], currentPrice));
    }
  }

  lemma RankedIs(ranked: seq<Ranked>, positions: Positions, targetSide: Side, currentPrice: real, bankruptcyPrice: real)
    requires RanksExactly(ranked, positions, targetSide, currentPrice, bankruptcyPrice)
    ensures ByScore(ranked) && AllEligible(ranked, targetSide, currentPrice, bankruptcyPrice)
  {
  }

  lemma SameMembers(a: seq<Ranked>, b: seq<Ranked>, x: Ranked)
    requires multiset(a) == multiset(b)
    ensures x in a <==> x in b
  {
    assert x in a <==> x in multiset(a);
    assert x in b <==> x in multiset(b);
  }

  lemma DeficitIsLoss(p: Position, lastPrice: real)
    ensures var b := BankruptcyPrice(p.entry, p.leverage, p.side);
            IsLossBeyond(if IsPastPrice(lastPrice, b, p.side) then Deficit(b, lastPrice, p.qty) else 0.0, p, lastPrice)
  {
    hide BankruptcyPrice, Pnl, Margined;
    var b := BankruptcyPrice(p.entry, p.leverage, p.side);
    assert p.side == 1 || p.side == -1;
    if Margined(p.entry, p.qty, p.margin, p.leverage) {
      EquityAt(p.entry, p.qty, p.margin, p.leverage, p.side, lastPrice);
    }
  }

  lemma NothingOwed(fund: real, quantity: Qty, bankruptcyPrice: Price)
    requires fund >= 0.0
    ensures PaidInOrder(Payment(0.0, 0.0, 0.0, 0.0, [], []), fund, fund, quantity, bankruptcyPrice)
  {
  }

  lemma DeficitIsGap(side: Side, bankruptcyPrice: real, lastPrice: real, quantity: Qty)
    requires IsPastPrice(lastPrice, bankruptcyPrice, side)
    ensures Deficit(bankruptcyPrice, lastPrice, quantity) == Mul(quantity, Gap(Flip(side), bankruptcyPrice, lastPrice))
    ensures Deficit(bankruptcyPrice, lastPrice, quantity) > 0.0 && Gap(Flip(side), bankruptcyPrice, lastPrice) > 0.0
  {
  }

  /** The fund alone pays. */
  lemma FundPays(fund: real, p: Position, deficit: real, bankruptcyPrice: Price, lastPrice: real)
    requires fund >= 0.0 && IsPastPrice(lastPrice, bankruptcyPrice, p.side)
    requires deficit == Deficit(bankruptcyPrice, lastPrice, p.qty) && CoveredPart(fund, deficit) >= deficit
    ensures PaidInOrder(Payment(deficit, CoveredPart(fund, deficit), 0.0, 0.0, [], []),
                        fund, fund - CoveredPart(fund, deficit), p.qty, bankruptcyPrice)
  {
  }

  /** The fund pays what it has and the ranking the rest. */
  lemma PaymentIsInOrder(fund: real, p: Position, deficit: real, bankruptcyPrice: Price, lastPrice: real,
                         ranked: seq<Ranked>, results: seq<ADLResult>, uncovered: real)
    requires fund >= 0.0 && IsPastPrice(lastPrice, bankruptcyPrice, p.side)
    requires deficit == Deficit(bankruptcyPrice, lastPrice, p.qty) && CoveredPart(fund, deficit) < deficit
    requires ByScore(ranked) && AllEligible(ranked, Flip(p.side), lastPrice, bankruptcyPrice)
    requires Execution(results, uncovered)
             == Execute(ranked, deficit - CoveredPart(fund, deficit), bankruptcyPrice, lastPrice)
    ensures var covered := CoveredPart(fund, deficit);
            PaidInOrder(Payment(deficit, covered, GivenUp(results, p.side, bankruptcyPrice, lastPrice), uncovered,
                                ranked, results),
                        fund, 0.0, p.qty, bankruptcyPrice)
  {
    hide Mul, FairlyReduced, AllEligible, ByScore, Execute;
    var covered := CoveredPart(fund, deficit);
    DeficitIsGap(p.side, bankruptcyPrice, lastPrice, p.qty);
    FlipTwice(p.side);
    ExecutionIsFair(ranked, deficit - covered, Flip(p.side), bankruptcyPrice, lastPrice);
    ReducedAtMostLiquidated(ranked, deficit - covered, p.qty, Flip(p.side), bankruptcyPrice, lastPrice);
  }

  // ---------------------------------------------- what reaches the ledger

  lemma TakenStaysTidy(r: Rates, s: State, t: State, p: Position, price: Price, actions: seq<Action>)
    requires Conservation.Linked(s) && Tidy(s) && TakenOver(r, s, t, p, price, actions)
    ensures Tidy(t)
  {
    hide Conservation.Linked, TidyFor, Step;
    forall user ensures TidyFor(t, user) {
      if p.state.Active? {
        StepKeepsTidyFor(r, s, Fill([TakeOverTrade(p, price)], p.user, p.leverage, actions), user);
      }
    }
  }

  lemma OnlyOnes(s: State, id: int)
    requires Conservation.Linked(s) && Tidy(s) && id in s.positions
    ensures Only(s, s.positions[id])
  {
    TidyMeans(s);
  }

  /** When every user held at most one position, the ledger ends up as the payment says. */
  lemma LedgerIsAsPaid(r: Rates, s: State, t: State, w: Payment, targetSide: Side, currentPrice: real,
                       bankruptcyPrice: Price,
                       reductions: seq<Action>)
    requires Conservation.Linked(s) && Tidy(s) && FairlyReduced(w.ranked, w.results, w.uncovered, bankruptcyPrice)
    requires (w.results == [] && w.uncovered <= 0.0)
             || RanksExactly(w.ranked, s.positions, targetSide, currentPrice, bankruptcyPrice)
    requires |reductions| == |w.results| && Run(r, s, DeleverageOps(w.results, targetSide, reductions)) == Just(t)
    ensures LedgerFollows(s, t, w, targetSide, currentPrice, bankruptcyPrice)
  {
    hide Conservation.Linked, Tidy, Run, LeftWith, ReducedBy, SameFor, Only, DeleverageOps;
    if w.results == [] {
      OpsOfNothing(r, s, targetSide, reductions);
      forall u ensures SameFor(s, t, u) {
        Unchanged(s, u);
      }
    } else {
      forall k | 0 <= k < |w.results|
        ensures Only(s, w.ranked[k].position) && For(w.results[k], w.ranked[k].position, targetSide)
      {
        OnlyOnes(s, w.ranked[k].position.id);
      }
      PlanIsApplied(r, s, t, w.ranked, w.results, targetSide, reductions);
      forall k | 0 <= k < |w.results| ensures LeftWith(t, w.ranked[k].position, w.results[k]) {
        OnlyHasId(s, w.ranked[k].position);
        ReducedLeaves(r, s, t, w.ranked[k].position, w.results[k], targetSide);
      }
    }
    if w.uncovered > 0.0 {
      forall id | id in s.positions && Reachable(s.positions[id], targetSide, currentPrice, bankruptcyPrice)
        ensures Flat(t.positions, s.positions[id].user)
      {
        AllClosed(s, t, w, s.positions[id], currentPrice, bankruptcyPrice);
      }
    }
  }

  lemma OpsOfNothing(r: Rates, s: State, targetSide: Side, reductions: seq<Action>)
    ensures reductions == [] ==> Run(r, s, DeleverageOps([], targetSide, reductions)) == Just(s)
  {
  }

  lemma OnlyHasId(s: State, p: Position)
    requires Only(s, p)
    ensures p.id > 0
  {
  }

  /** A ranked position whose owner was fully closed. */
  lemma AllClosed(s: State, t: State, w: Payment, p: Position, currentPrice: real, bankruptcyPrice: Price)
    requires RankOf(p, currentPrice) in w.ranked && w.uncovered > 0.0
    requires FairlyReduced(w.ranked, w.results, w.uncovered, bankruptcyPrice)
    requires forall k | 0 <= k < |w.results| :: LeftWith(t, w.ranked[k].position, w.results[k])
    ensures Flat(t.positions, p.user)
  {
    var k :| 0 <= k < |w.ranked| && w.ranked[k] == RankOf(p, currentPrice);
    RankKeepsPosition(p, currentPrice);
    assert LeftWith(t, w.ranked[k].position, w.results[k]);
  }

  // --------------------------------------------------- paid once or twice

  /** Taken over by an account without positions that can pay for it, the position stands there with
      the bankruptcy price as its entry. */
  lemma TakeOverOpens(r: Rates, s: State, t: State, p: Position, price: Price, actions: seq<Action>)
    requires Conservation.Linked(s) && TakenOver(r, s, t, p, price, actions) && p.state.Active?
             && p.user != LIQUIDATION_USER
    requires Flat(s.positions, LIQUIDATION_USER)
    requires CanPay(s.accounts, LIQUIDATION_USER, Opened(r, TakeOverLeg(s, p, price)).totalCost)
    ensures exists id :: id in t.positions && Sole(t.positions, t.positions[id])
                         && t.positions[id] == OpenedAs(r, id, TakeOverLeg(s, p, price))
  {
    hide Conservation.Linked, CalcOpen, ApplyLegs;
    var b, trades := Announce(s, p.user), [TakeOverTrade(p, price)];
    var h, legs := Holder(AccountOf(s.accounts, LIQUIDATION_USER), None), LegsOf(s.orders, trades, p.user, p.leverage);
    var l := TakeOverLeg(s, p, price);
    assert trades[..0] == [];
    MyLegsOfTwo([], BuyLeg(s.orders, trades[0], p.user, p.leverage), SellLeg(s.orders, trades[0], p.user, p.leverage),
                LIQUIDATION_USER);
    assert MyLegs(legs, LIQUIDATION_USER) == [l];
    AnnouncedHolds(s, LIQUIDATION_USER, h);
    Conservation.AnnounceKeepsLinked(s, p.user);
    LegsProject(r, b, legs, actions, LIQUIDATION_USER, h);
    AfterOneMore(r, h, [], l);
    assert [] + [l] == [l];
    var id :| HeldAs(t.positions, LIQUIDATION_USER, id, OpenedAs(r, ANY, l));
    assert Sole(t.positions, t.positions[id]);
  }

  /** The liquidation account's side of a takeover. */
  function TakeOverLeg(s: State, p: Position, price: Price): Leg {
    var t := TakeOverTrade(p, price);
    if p.side == 1 then BuyLeg(s.orders, t, p.user, p.leverage) else SellLeg(s.orders, t, p.user, p.leverage)
  }

  ghost predicate NobodyEligible(positions: Positions, targetSide: Side, currentPrice: real, bankruptcyPrice: real) {
    forall id | id in positions :: !Reachable(positions[id], targetSide, currentPrice, bankruptcyPrice)
  }

  lemma NobodyRanked(ranked: seq<Ranked>, positions: Positions, targetSide: Side, currentPrice: real,
                     bankruptcyPrice: real)
    requires RanksExactly(ranked, positions, targetSide, currentPrice, bankruptcyPrice)
    ensures ranked == [] <==> NobodyEligible(positions, targetSide, currentPrice, bankruptcyPrice)
  {
    if ranked != [] {
      assert ranked[0].position.id in positions;
      EligibleIsReachable(ranked[0].position, targetSide, currentPrice, bankruptcyPrice);
    }
  }

  lemma {:induction false} ReducedSomething(results: seq<ADLResult>)
    ensures ReducedTotal(results) >= 0.0 && (results != [] ==> ReducedTotal(results) > 0.0)
  {
    if results == [] {
    } else {
      ReducedSomething(results[1..]);
    }
  }

  /** Counterparties give something up exactly when anybody can be reduced. */
  lemma GivenUpIff(ranked: seq<Ranked>, deficit: real, side: Side, bankruptcyPrice: Price, lastPrice: real)
    requires ByScore(ranked) && AllEligible(ranked, Flip(side), lastPrice, bankruptcyPrice) && deficit > 0.0
    requires IsPastPrice(lastPrice, bankruptcyPrice, side)
    ensures var e := Execute(ranked, deficit, bankruptcyPrice, lastPrice);
            GivenUp(e.results, side, bankruptcyPrice, lastPrice) > 0.0 <==> ranked != []
  {
    hide Execute, AllEligible, ByScore;
    var e, gap := Execute(ranked, deficit, bankruptcyPrice, lastPrice), Gap(Flip(side), bankruptcyPrice, lastPrice);
    FlipTwice(side);
    ExecutionIsFair(ranked, deficit, Flip(side), bankruptcyPrice, lastPrice);
    ReducedSomething(e.results);
    DeficitIsGap(side, bankruptcyPrice, lastPrice, 1.0);
    MulOrder(0.0, ReducedTotal(e.results), gap);
    if ranked == [] {
      NobodyToReduce(deficit, bankruptcyPrice, lastPrice);
    }
  }

  /** Money came from anybody at the liquidation exactly when the market was past the bankruptcy price and
      there was a fund or a counterparty to take it from. */
  lemma PaidAtLiquidationIff(w: Payment, positions: Positions, p: Position, lastPrice: Price, fund: real, after: real)
    requires fund >= 0.0 && LiquidationPaid(w, positions, p, lastPrice, fund, after)
    ensures w.deficit - w.uncovered == (fund - after) + w.givenUp >= 0.0
    ensures w.deficit - w.uncovered == 0.0 <==> PaidOnce(positions, p, lastPrice, fund)
    ensures fund - after == 0.0 <==> !IsPastPrice(lastPrice, BankruptcyPrice(p.entry, p.leverage, p.side), p.side)
                                     || fund == 0.0
  {
    hide BankruptcyPrice, FairlyReduced, Mul, Execute, RanksExactly, NobodyEligible, GivenUp;
    var b := BankruptcyPrice(p.entry, p.leverage, p.side);
    if IsPastPrice(lastPrice, b, p.side) {
      DeficitIsGap(p.side, b, lastPrice, p.qty);
      if w.covered < w.deficit {
        NobodyRanked(w.ranked, positions, Flip(p.side), lastPrice, b);
        RankedIs(w.ranked, positions, Flip(p.side), lastPrice, b);
        GivenUpIff(w.ranked, w.deficit - w.covered, p.side, b, lastPrice);
      }
    }
  }

  /** The market is not past the bankruptcy price, or neither the fund nor any counterparty can pay. */
  ghost predicate PaidOnce(positions: Positions, p: Position, lastPrice: Price, fund: real) {
    var b := BankruptcyPrice(p.entry, p.leverage, p.side);
    !IsPastPrice(lastPrice, b, p.side) || (fund == 0.0 && NobodyEligible(positions, Flip(p.side), lastPrice, b))
  }

  /** A liquidation and the disposals that follow it: fund and counterparties together pay the loss of the
      disposals, as far as the fund reaches, and on top of it everything that was taken at the liquidation.
      Nothing is paid on top of the disposals exactly when the market was not past the bankruptcy price, or
      the fund was empty and nobody could be deleveraged; by the fund alone exactly when the market was not
      past that price or the fund was empty. */
  lemma LossIsPaidOnceIff(r: Rates, w: Payment, positions: Positions, p: Position, lastPrice: Price, fund: real,
                          after: real, q: Position, ds: seq<Disposal>)
    requires fund >= 0.0 && LiquidationPaid(w, positions, p, lastPrice, fund, after)
    requires ds != [] && Winds(r, q, ds) && ds[0].before.fund == after
    requires q.entry == BankruptcyPrice(p.entry, p.leverage, p.side) && q.side == p.side
    ensures var b, end := q.entry, ds[|ds| - 1].after.fund;
            var paid, lost := (fund - end) + w.givenUp, -TotalPnl(b, p.side, AllTrades(ds));
            var unpaid := Unpaid(after, b, p.side, AllTrades(ds));
            && 0.0 <= unpaid && (unpaid == 0.0 <==> Lasts(after, b, p.side, AllTrades(ds)))
            && paid == (lost - unpaid) + (w.deficit - w.uncovered)
            && (paid == lost - unpaid <==> PaidOnce(positions, p, lastPrice, fund))
            && (fund - end == lost - unpaid <==> !IsPastPrice(lastPrice, b, p.side) || fund == 0.0)
  {
    hide BankruptcyPrice, FundAfter, TotalPnl, Unpaid, Lasts, Winds, FairlyReduced, Mul, Remains, PaidOnce, Deleveraged;
    DisposalsAddUp(r, q, ds);
    FundAndUnpaid(after, q.entry, p.side, AllTrades(ds));
    PaidAtLiquidationIff(w, positions, p, lastPrice, fund, after);
  }

  // ------------------------------------------------------- the owner's side

  /** Taken over at its bankruptcy price, the owner of a single sound position holds nothing, and has
      received the accrued funding less the taker fee: the whole margin is gone. */
  lemma TakeOverEmpties(r: Rates, s: State, t: State, p: Position, actions: seq<Action>)
    requires Conservation.Linked(s) && Only(s, p) && p.state.Active? && Margins.Sound(r, p)
    requires p.user in s.accounts && p.user != LIQUIDATION_USER
    requires var b := BankruptcyPrice(p.entry, p.leverage, p.side); b >= 0.0 && TakenOver(r, s, t, p, b, actions)
    ensures Flat(t.positions, p.user)
    ensures var fee := FeeOf(r, p.qty * BankruptcyPrice(p.entry, p.leverage, p.side), false);
            AccountOf(t.accounts, p.user)
            == Some(Account(s.accounts[p.user].balance + p.funding - fee, s.accounts[p.user].frozen))
  {
    hide Conservation.Linked, CalcReduce, ApplyLegs, LegsOf, BankruptcyPrice, Margins.Sound;
    var b := BankruptcyPrice(p.entry, p.leverage, p.side);
    var h, trades := Holder(AccountOf(s.accounts, p.user), Some(p)), [TakeOverTrade(p, b)];
    assert HeldAs(s.positions, p.user, p.id, p);
    AnnouncedHolds(s, p.user, h);
    Conservation.AnnounceKeepsLinked(s, p.user);
    FlipTwice(p.side);
    OneIsItsAverage(trades[0]);
    assert OneSided(trades, p.user, Flip(p.side));
    SplitReductionIsOne(r, Announce(s, p.user), trades, p.user, Flip(p.side), p.leverage, actions, h, p);
    TakeOverTakesTheMargin(r, p, TakerLeg(p.user, Flip(p.side), p.leverage, AtVwap(trades)));
  }
}
