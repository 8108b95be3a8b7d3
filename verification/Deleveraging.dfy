/** Auto-deleveraging: which opposing positions are reduced, in which order and by how much. */
module Deleveraging {
  import opened Reals
  import opened PositionMath
  import opened Clearance
  import opened Ledger

  // ---------------------------------------------------------------- ranking

  datatype Ranked = Ranked(position: Position, pnlRatio: real, score: real)

  /** Active, on the target side, and in profit both at the market and at the bankruptcy price. */
  predicate Eligible(p: Position, targetSide: Side, currentPrice: real, bankruptcyPrice: real) {
    && p.side == targetSide && p.state.Active?
    && Pnl(p.entry, currentPrice, p.qty, p.side) > 0.0
    && Pnl(p.entry, bankruptcyPrice, p.qty, p.side) > 0.0
  }

  /** Return in percent times leverage. */
  function RankOf(p: Position, currentPrice: real): Ranked {
    var ratio := Roi(Pnl(p.entry, currentPrice, p.qty, p.side), p.margin);
    Ranked(p, ratio, ratio * p.leverage as real)
  }

  /** Who can be reduced: active positions on the target side whose entry is better than both the market and
      the bankruptcy price. */
  predicate Reachable(p: Position, targetSide: int, currentPrice: real, bankruptcyPrice: real) {
    && p.side == targetSide && p.state == Active
    && if p.side == 1 then p.entry < currentPrice && p.entry < bankruptcyPrice
       else currentPrice < p.entry && bankruptcyPrice < p.entry
  }

  lemma EligibleIsReachable(p: Position, targetSide: Side, currentPrice: real, bankruptcyPrice: real)
    ensures Eligible(p, targetSide, currentPrice, bankruptcyPrice)
       <==> Reachable(p, targetSide, currentPrice, bankruptcyPrice)
  {
    assert p.side == 1 || p.side == -1;
  }

  /** The score is the leverage times the return on the margin in percent. */
  lemma ScoreIs(p: Position, currentPrice: real)
    ensures var s, gain := RankOf(p, currentPrice), (currentPrice - p.entry) * p.qty;
            && s.position == p && (p.margin == 0.0 ==> s.score == 0.0)
            && (p.margin != 0.0 ==>
                  s.score * p.margin == 100.0 * p.leverage as real * if p.side == 1 then gain else -gain)
  {
    assert p.side == 1 || p.side == -1;
  }

  function EligibleRanks(ps: seq<Position>, targetSide: Side, currentPrice: real, bankruptcyPrice: real): seq<Ranked> {
    if ps == [] then []
    else
      var n := |ps| - 1;
      EligibleRanks(ps[..n], targetSide, currentPrice, bankruptcyPrice)
      + if Eligible(ps[n], targetSide, currentPrice, bankruptcyPrice) then [RankOf(ps[n], currentPrice)] else []
  }

  ghost predicate ByScore(ranked: seq<Ranked>) {
    forall i, j | 0 <= i < j < |ranked| :: ranked[i].score >= ranked[j].score
  }

  /** Stands for the library's sort. */
  method SortByScore(ranked: seq<Ranked>) returns (sorted: seq<Ranked>)
    ensures ByScore(sorted) && multiset(sorted) == multiset(ranked)
  {
    hide ByScore;
    sorted := [];
    NoneByScore();
    for i := 0 to |ranked|
      invariant ByScore(sorted) && multiset(sorted) == multiset(ranked[..i])
    {
      var k := |sorted|;
      while k > 0 && sorted[k - 1].score < ranked[i].score
        invariant 0 <= k <= |sorted|
        invariant forall j | k <= j < |sorted| :: sorted[j].score < ranked[i].score
      {
        k := k - 1;
      }
      assert ranked[..i + 1] == ranked[..i] + [ranked[i]];
      InsertedByScore(sorted, ranked[i], k);
      sorted := sorted[..k] + [ranked[i]] + sorted[k..];
    }
    assert ranked[..|ranked|] == ranked;
  }

  lemma NoneByScore()
    ensures ByScore([])
  {
  }

  lemma InsertedByScore(sorted: seq<Ranked>, x: Ranked, k: nat)
    requires k <= |sorted| && ByScore(sorted) && (k > 0 ==> sorted[k - 1].score >= x.score)
    requires forall j | k <= j < |sorted| :: sorted[j].score < x.score
    ensures ByScore(sorted[..k] + [x] + sorted[k..])
    ensures multiset(sorted[..k] + [x] + sorted[k..]) == multiset(sorted) + multiset{x}
  {
    assert sorted == sorted[..k] + sorted[k..];
    FrontOverBack(sorted[..k], x, sorted[k..]);
  }

  lemma FrontOverBack(front: seq<Ranked>, x: Ranked, back: seq<Ranked>)
    requires ByScore(front + back)
    requires front != [] ==> front[|front| - 1].score >= x.score
    requires forall j | 0 <= j < |back| :: back[j].score < x.score
    ensures ByScore(front + [x] + back)
  {
    var n := |front|;
    var all, r := front + back, front + [x] + back;
    forall i, j | 0 <= i < j < |r| ensures r[i].score >= r[j].score {
      if j < n {
        assert all[i].score >= all[j].score;
      } else if j == n {
        assert all[i].score >= all[n - 1].score;
      } else {
        assert r[j] == back[j - n - 1];
        if i < n {
          assert all[i].score >= all[j - 1].score;
        } else if i > n {
          assert all[i - 1].score >= all[j - 1].score;
        }
      }
    }
  }

  /** The eligible positions, highest score first, each exactly once. */
  method RankPositions(positions: seq<Position>, targetSide: Side, currentPrice: real, bankruptcyPrice: real)
    returns (ranked: seq<Ranked>)
    ensures ByScore(ranked)
    ensures multiset(ranked) == multiset(EligibleRanks(positions, targetSide, currentPrice, bankruptcyPrice))
    ensures AllEligible(ranked, targetSide, currentPrice, bankruptcyPrice)
    ensures DistinctIds(positions) ==> DistinctRanks(ranked) && RankedFrom(ranked, positions)
  {
    hide Pnl, Roi;
    ranked := [];
    for i := 0 to |positions|
      invariant ranked == EligibleRanks(positions[..i], targetSide, currentPrice, bankruptcyPrice)
    {
      assert positions[..i + 1][..i] == positions[..i];
      var p := positions[i];
      if p.side == targetSide && p.state.Active? {
        var upnl := Pnl(p.entry, currentPrice, p.qty, p.side);
        if upnl > 0.0 && Pnl(p.entry, bankruptcyPrice, p.qty, p.side) > 0.0 {
          var pnlRatio := Roi(upnl, p.margin);
          ranked := ranked + [Ranked(p, pnlRatio, pnlRatio * p.leverage as real)];
          RankIs(p, currentPrice, pnlRatio);
          assert ranked == EligibleRanks(positions[..i], targetSide, currentPrice, bankruptcyPrice)
                 + [RankOf(p, currentPrice)];
        }
      }
      assert EligibleRanks(positions[..i + 1], targetSide, currentPrice, bankruptcyPrice)
          == EligibleRanks(positions[..i], targetSide, currentPrice, bankruptcyPrice)
             + if Eligible(p, targetSide, currentPrice, bankruptcyPrice) then [RankOf(p, currentPrice)] else [];
    }
    assert positions[..|positions|] == positions;
    ghost var found := ranked;
    ranked := SortByScore(ranked);
    SortedStaysEligible(positions, found, ranked, targetSide, currentPrice, bankruptcyPrice);
    if DistinctIds(positions) {
      RanksAreDistinct(positions, targetSide, currentPrice, bankruptcyPrice);
      SortedStaysDistinct(positions, found, ranked);
    }
  }

  ghost predicate DistinctIds(ps: seq<Position>) {
    forall i, j | 0 <= i < j < |ps| :: ps[i].id != ps[j].id
  }

  ghost predicate DistinctRanks(ranked: seq<Ranked>) {
    forall i, j | 0 <= i < j < |ranked| :: ranked[i].position.id != ranked[j].position.id
  }

  ghost predicate RankedFrom(ranked: seq<Ranked>, ps: seq<Position>) {
    forall k | 0 <= k < |ranked| :: ranked[k].position in ps
  }

  lemma {:induction false} RanksAreDistinct(ps: seq<Position>, targetSide: Side, currentPrice: real,
                                            bankruptcyPrice: real)
    requires DistinctIds(ps)
    ensures var found := EligibleRanks(ps, targetSide, currentPrice, bankruptcyPrice);
            DistinctRanks(found) && RankedFrom(found, ps)
  {
    hide Eligible, RankOf;
    if ps == [] {
    } else {
      var n := |ps| - 1;
      RanksAreDistinct(ps[..n], targetSide, currentPrice, bankruptcyPrice);
      RankKeepsPosition(ps[n], currentPrice);
      assert ps == ps[..n] + [ps[n]];
      assert forall p | p in ps[..n] :: p.id != ps[n].id;
    }
  }

  lemma SortedStaysDistinct(ps: seq<Position>, found: seq<Ranked>, sorted: seq<Ranked>)
    requires DistinctRanks(found) && RankedFrom(found, ps) && multiset(sorted) == multiset(found)
    ensures DistinctRanks(sorted) && RankedFrom(sorted, ps)
  {
    forall k | 0 <= k < |sorted| ensures sorted[k].position in ps && sorted[k] in found {
      assert sorted[k] in multiset(sorted);
    }
    forall i, j | 0 <= i < j < |sorted| ensures sorted[i].position.id != sorted[j].position.id {
      CountedOnce(found, sorted[i]);
      CountedTwice(sorted, i, j);
      assert sorted[i] in found && sorted[j] in found;
    }
  }

  lemma {:induction false} CountedOnce(ranked: seq<Ranked>, x: Ranked)
    requires DistinctRanks(ranked)
    ensures multiset(ranked)[x] <= 1
  {
    if ranked == [] {
    } else {
      var n := |ranked| - 1;
      CountedOnce(ranked[..n], x);
      assert ranked == ranked[..n] + [ranked[n]];
      if x == ranked[n] {
        assert forall y | y in ranked[..n] :: y.position.id != x.position.id;
      }
    }
  }

  lemma CountedTwice(ranked: seq<Ranked>, i: nat, j: nat)
    requires i < j < |ranked|
    ensures ranked[i] == ranked[j] ==> multiset(ranked)[ranked[i]] >= 2
  {
    assert ranked == ranked[..j] + ranked[j..];
    assert ranked[i] in ranked[..j] && ranked[j] in ranked[j..];
  }

  ghost predicate AllEligible(ranked: seq<Ranked>, targetSide: Side, currentPrice: real, bankruptcyPrice: real) {
    forall i | 0 <= i < |ranked| ::
      Eligible(ranked[i].position, targetSide, currentPrice, bankruptcyPrice)
        && ranked[i] == RankOf(ranked[i].position, currentPrice)
  }

  lemma {:induction false} RanksAreEligible(ps: seq<Position>, targetSide: Side, currentPrice: real,
                                            bankruptcyPrice: real)
    ensures AllEligible(EligibleRanks(ps, targetSide, currentPrice, bankruptcyPrice), targetSide, currentPrice,
                        bankruptcyPrice)
  {
    hide Eligible, RankOf;
    if ps == [] {
    } else {
      RanksAreEligible(ps[..|ps| - 1], targetSide, currentPrice, bankruptcyPrice);
      RankKeepsPosition(ps[|ps| - 1], currentPrice);
    }
  }

  lemma RankIs(p: Position, currentPrice: real, ratio: real)
    requires ratio == Roi(Pnl(p.entry, currentPrice, p.qty, p.side), p.margin)
    ensures RankOf(p, currentPrice) == Ranked(p, ratio, ratio * p.leverage as real)
  {
  }

  lemma RankKeepsPosition(p: Position, currentPrice: real)
    ensures RankOf(p, currentPrice).position == p
  {
  }

  lemma SortedStaysEligible(ps: seq<Position>, found: seq<Ranked>, sorted: seq<Ranked>, targetSide: Side,
                            currentPrice: real, bankruptcyPrice: real)
    requires found == EligibleRanks(ps, targetSide, currentPrice, bankruptcyPrice)
             && multiset(sorted) == multiset(found)
    ensures AllEligible(sorted, targetSide, currentPrice, bankruptcyPrice)
  {
    hide Eligible, RankOf;
    RanksAreEligible(ps, targetSide, currentPrice, bankruptcyPrice);
    forall i | 0 <= i < |sorted|
      ensures Eligible(sorted[i].position, targetSide, currentPrice, bankruptcyPrice)
              && sorted[i] == RankOf(sorted[i].position, currentPrice)
    {
      assert sorted[i] in multiset(sorted);
      assert sorted[i] in found;
    }
  }

  // -------------------------------------------------------------- execution

  datatype ADLResult = ADLResult(positionId: int, user: int, reducedQty: Qty, reducedMargin: real, realizedPnl: real,
                                 settlementPrice: Price, remainingQty: real, fullyClosed: bool)

  /** Never worse for the counterparty than its own entry. */
  function SettlementPrice(p: Position, bankruptcyPrice: Price): Price {
    if p.side == 1 && bankruptcyPrice < p.entry then p.entry
    else if p.side == -1 && bankruptcyPrice > p.entry then p.entry
    else bankruptcyPrice
  }

  /** Profit per unit that settling here instead of at the market takes away. */
  function GiveUp(p: Position, bankruptcyPrice: Price, currentPrice: real): real {
    if p.side == 1 then currentPrice - SettlementPrice(p, bankruptcyPrice)
    else SettlementPrice(p, bankruptcyPrice) - currentPrice
  }

  /** The quantity that would cover the deficit, at most the whole position. */
  function ReducedQty(p: Position, deficit: real, perUnit: real): (q: Qty)
    requires deficit > 0.0 && perUnit > 0.0
    ensures q <= p.qty && Mul(q, perUnit) <= deficit
    ensures q < p.qty ==> Mul(q, perUnit) == deficit
  {
    NeededQty(deficit, perUnit, p.qty);
    if deficit / perUnit >= p.qty then p.qty else deficit / perUnit
  }

  lemma NeededQty(deficit: real, perUnit: real, qty: Qty)
    requires deficit > 0.0 && perUnit > 0.0
    ensures deficit / perUnit > 0.0 && Mul(deficit / perUnit, perUnit) == deficit
    ensures deficit / perUnit >= qty ==> Mul(qty, perUnit) <= deficit
  {
  }

  /** How one position is reduced. */
  function Cut(p: Position, deficit: real, bankruptcyPrice: Price, currentPrice: real): ADLResult
    requires deficit > 0.0 && GiveUp(p, bankruptcyPrice, currentPrice) > 0.0
  {
    var q := ReducedQty(p, deficit, GiveUp(p, bankruptcyPrice, currentPrice));
    var price := SettlementPrice(p, bankruptcyPrice);
    ADLResult(p.id, p.user, q, p.margin * (q / p.qty), Pnl(p.entry, price, q, p.side), price, p.qty - q, q == p.qty)
  }

  datatype Execution = Execution(results: seq<ADLResult>, remaining: real)

  /** One position after the other until the deficit is covered. */
  function Execute(ranked: seq<Ranked>, deficit: real, bankruptcyPrice: Price, currentPrice: real): Execution {
    if ranked == [] || deficit <= 0.0 then Execution([], deficit)
    else
      var p := ranked[0].position;
      var perUnit := GiveUp(p, bankruptcyPrice, currentPrice);
      if perUnit <= 0.0 then Execute(ranked[1..], deficit, bankruptcyPrice, currentPrice)
      else
        var cut := Cut(p, deficit, bankruptcyPrice, currentPrice);
        var rest := Execute(ranked[1..], deficit - Mul(cut.reducedQty, perUnit), bankruptcyPrice, currentPrice);
        Execution([cut] + rest.results, rest.remaining)
  }

  /** Per unit: profit at the market minus profit at settlement. */
  lemma GiveUpIs(p: Position, bankruptcyPrice: Price, currentPrice: real)
    ensures (currentPrice - p.entry) * (p.side as int) as real
            - (SettlementPrice(p, bankruptcyPrice) - p.entry) * (p.side as int) as real
            == GiveUp(p, bankruptcyPrice, currentPrice)
  {
  }

  /** The loop, with its guard against covering more than the deficit, which exact arithmetic never needs. */
  method ExecuteADL(ranked: seq<Ranked>, deficit: real, bankruptcyPrice: Price, currentPrice: real)
    returns (results: seq<ADLResult>, remainingDeficit: real)
    ensures Execution(results, remainingDeficit) == Execute(ranked, deficit, bankruptcyPrice, currentPrice)
  {
    hide Mul, Pnl, Execute, GiveUp;
    results, remainingDeficit := [], deficit;
    ghost var whole := Execute(ranked, deficit, bankruptcyPrice, currentPrice);
    assert ranked[0..] == ranked;
    for i := 0 to |ranked|
      invariant SoFar(whole, results, Execute(ranked[i..], remainingDeficit, bankruptcyPrice, currentPrice))
    {
      ExecuteFirst(ranked[i..], remainingDeficit, bankruptcyPrice, currentPrice);
      if remainingDeficit <= 0.0 {
        return;
      }
      var p := ranked[i].position;
      assert ranked[i..][0] == ranked[i] && ranked[i..][1..] == ranked[i + 1..];
      var settlementPrice := bankruptcyPrice;
      if p.side == 1 && bankruptcyPrice < p.entry {
        settlementPrice := p.entry;
      } else if p.side == -1 && bankruptcyPrice > p.entry {
        settlementPrice := p.entry;
      }
      var marketPnlPerUnit := (currentPrice - p.entry) * (p.side as int) as real;
      var settlePnlPerUnit := (settlementPrice - p.entry) * (p.side as int) as real;
      var perUnit := marketPnlPerUnit - settlePnlPerUnit;
      GiveUpIs(p, bankruptcyPrice, currentPrice);
      if perUnit <= 0.0 {
        continue;
      }
      NeededQty(remainingDeficit, perUnit, p.qty);
      var neededQty := remainingDeficit / perUnit;
      var reducedQty: Qty := neededQty;
      var fullyClosed := false;
      if neededQty >= p.qty {
        reducedQty, fullyClosed := p.qty, true;
      }
      var coveredAmount := Mul(reducedQty, perUnit);
      if coveredAmount > remainingDeficit {
        // In exact arithmetic the quantity never covers more than what is left.
        assert false;
      }
      var cut := ADLResult(p.id, p.user, reducedQty, p.margin * (reducedQty / p.qty),
                           Pnl(p.entry, settlementPrice, reducedQty, p.side), settlementPrice, p.qty - reducedQty,
                           fullyClosed);
      CutIs(p, remainingDeficit, bankruptcyPrice, currentPrice, cut);
      remainingDeficit := remainingDeficit - coveredAmount;
      results := results + [cut];
    }
    ExecuteFirst([], remainingDeficit, bankruptcyPrice, currentPrice);
  }

  /** The results so far and those to come are the whole. */
  ghost predicate SoFar(whole: Execution, results: seq<ADLResult>, rest: Execution) {
    whole == Execution(results + rest.results, rest.remaining)
  }

  lemma ExecuteFirst(ranked: seq<Ranked>, deficit: real, bankruptcyPrice: Price, currentPrice: real)
    ensures var e := Execute(ranked, deficit, bankruptcyPrice, currentPrice);
            if ranked == [] || deficit <= 0.0 then e == Execution([], deficit)
            else
              var p := ranked[0].position;
              var perUnit := GiveUp(p, bankruptcyPrice, currentPrice);
              if perUnit <= 0.0 then e == Execute(ranked[1..], deficit, bankruptcyPrice, currentPrice)
              else
                var cut := Cut(p, deficit, bankruptcyPrice, currentPrice);
                var rest := Execute(ranked[1..], deficit - Mul(cut.reducedQty, perUnit), bankruptcyPrice, currentPrice);
                e == Execution([cut] + rest.results, rest.remaining)
  {
  }

  lemma CutIs(p: Position, deficit: real, bankruptcyPrice: Price, currentPrice: real, cut: ADLResult)
    requires deficit > 0.0 && GiveUp(p, bankruptcyPrice, currentPrice) > 0.0
    requires var needed := deficit / GiveUp(p, bankruptcyPrice, currentPrice);
             var price := SettlementPrice(p, bankruptcyPrice);
             && cut.positionId == p.id && cut.user == p.user
             && cut.reducedQty == (if needed >= p.qty then p.qty else needed)
             && cut.reducedMargin == p.margin * (cut.reducedQty / p.qty)
             && cut.realizedPnl == Pnl(p.entry, price, cut.reducedQty, p.side)
             && cut.settlementPrice == price && cut.remainingQty == p.qty - cut.reducedQty
             && (cut.fullyClosed <==> needed >= p.qty)
    ensures cut == Cut(p, deficit, bankruptcyPrice, currentPrice)
  {
  }

  // ---------------------------------------------------- priority and safety

  function ReducedTotal(results: seq<ADLResult>): real {
    if results == [] then 0.0 else results[0].reducedQty + ReducedTotal(results[1..])
  }

  /** Distance between the two prices, positive when the market is past bankruptcy. */
  function Gap(targetSide: Side, bankruptcyPrice: real, currentPrice: real): real {
    if targetSide == 1 then currentPrice - bankruptcyPrice else bankruptcyPrice - currentPrice
  }

  /** An eligible position is in profit at the bankruptcy price, so it settles there and gives up the
      gap to the market. */
  lemma EligibleGivesUpGap(p: Position, targetSide: Side, bankruptcyPrice: Price, currentPrice: real)
    requires Eligible(p, targetSide, currentPrice, bankruptcyPrice)
    ensures SettlementPrice(p, bankruptcyPrice) == bankruptcyPrice
    ensures GiveUp(p, bankruptcyPrice, currentPrice) == Gap(targetSide, bankruptcyPrice, currentPrice)
  {
  }

  lemma PartOfProfit(p: Position, price: real, q: Qty)
    requires Pnl(p.entry, price, p.qty, p.side) > 0.0
    ensures Pnl(p.entry, price, q, p.side) > 0.0
  {
  }

  /** Results follow the ranking from its top; every position in them is closed completely but
      possibly the last, at a profit for its owner and at the bankruptcy price. */
  ghost predicate FairlyReduced(ranked: seq<Ranked>, results: seq<ADLResult>, remaining: real, bankruptcyPrice: Price) {
    && |results| <= |ranked|
    && (forall k | 0 <= k < |results| ::
          var p, c := ranked[k].position, results[k];
          && c.positionId == p.id && c.user == p.user && c.reducedQty <= p.qty && c.remainingQty == p.qty - c.reducedQty
          && (c.fullyClosed <==> c.reducedQty == p.qty)
          && c.settlementPrice == bankruptcyPrice && c.realizedPnl > 0.0)
    && (forall k | 0 <= k < |results| - 1 :: results[k].fullyClosed)
    && (remaining > 0.0 ==> |results| == |ranked| && forall k | 0 <= k < |results| :: results[k].fullyClosed)
  }

  lemma FairStep(ranked: seq<Ranked>, cut: ADLResult, rest: seq<ADLResult>, remaining: real, bankruptcyPrice: Price)
    requires ranked != [] && FairlyReduced(ranked[1..], rest, remaining, bankruptcyPrice)
    requires var p := ranked[0].position;
             && cut.positionId == p.id && cut.user == p.user && cut.reducedQty <= p.qty
                && cut.remainingQty == p.qty - cut.reducedQty
             && (cut.fullyClosed <==> cut.reducedQty == p.qty)
             && cut.settlementPrice == bankruptcyPrice && cut.realizedPnl > 0.0
    requires cut.fullyClosed || (rest == [] && remaining <= 0.0)
    ensures FairlyReduced(ranked, [cut] + rest, remaining, bankruptcyPrice)
  {
  }

  /** Deleveraging past bankruptcy covers the deficit by what the reduced quantities give up and no
      more, goes down the ranking without skipping anybody, and stops short of the deficit only when
      every position has been closed. */
  lemma {:induction false} ExecutionIsFair(ranked: seq<Ranked>, deficit: real, targetSide: Side, bankruptcyPrice: Price,
                                           currentPrice: real)
    requires AllEligible(ranked, targetSide, currentPrice, bankruptcyPrice) && deficit >= 0.0
    requires IsPastPrice(currentPrice, bankruptcyPrice, Flip(targetSide))
    ensures var e := Execute(ranked, deficit, bankruptcyPrice, currentPrice);
            && FairlyReduced(ranked, e.results, e.remaining, bankruptcyPrice)
            && 0.0 <= e.remaining <= deficit
            && Mul(ReducedTotal(e.results), Gap(targetSide, bankruptcyPrice, currentPrice)) + e.remaining == deficit
  {
    hide Mul, Eligible, FairlyReduced, SettlementPrice, GiveUp, RankOf, Pnl;
    var gap := Gap(targetSide, bankruptcyPrice, currentPrice);
    MulLinear(0.0, 0.0, gap);
    if ranked == [] || deficit <= 0.0 {
      NothingReduced(ranked, bankruptcyPrice);
    } else {
      var p := ranked[0].position;
      EligibleGivesUpGap(p, targetSide, bankruptcyPrice, currentPrice);
      var cut := Cut(p, deficit, bankruptcyPrice, currentPrice);
      var left := deficit - Mul(cut.reducedQty, gap);
      MulOrder(0.0, cut.reducedQty, gap);
      ExecutionIsFair(ranked[1..], left, targetSide, bankruptcyPrice, currentPrice);
      var rest := Execute(ranked[1..], left, bankruptcyPrice, currentPrice);
      EligibleProfits(p, targetSide, bankruptcyPrice, currentPrice);
      PartOfProfit(p, bankruptcyPrice, cut.reducedQty);
      FairStep(ranked, cut, rest.results, rest.remaining, bankruptcyPrice);
      MulLinear(cut.reducedQty, ReducedTotal(rest.results), gap);
      assert ([cut] + rest.results)[1..] == rest.results;
    }
  }

  lemma NothingReduced(ranked: seq<Ranked>, bankruptcyPrice: Price)
    ensures FairlyReduced(ranked, [], 0.0, bankruptcyPrice) && forall d :: FairlyReduced([], [], d, bankruptcyPrice)
  {
  }

  lemma EligibleProfits(p: Position, targetSide: Side, bankruptcyPrice: Price, currentPrice: real)
    requires Eligible(p, targetSide, currentPrice, bankruptcyPrice)
    ensures Pnl(p.entry, bankruptcyPrice, p.qty, p.side) > 0.0
  {
  }

  /** No more is reduced than was liquidated, when the deficit is that of the liquidated quantity. */
  lemma ReducedAtMostLiquidated(ranked: seq<Ranked>, deficit: real, quantity: real, targetSide: Side,
                                bankruptcyPrice: Price, currentPrice: real)
    requires AllEligible(ranked, targetSide, currentPrice, bankruptcyPrice)
    requires IsPastPrice(currentPrice, bankruptcyPrice, Flip(targetSide))
    requires 0.0 <= deficit <= Mul(quantity, Gap(targetSide, bankruptcyPrice, currentPrice))
    ensures ReducedTotal(Execute(ranked, deficit, bankruptcyPrice, currentPrice).results) <= quantity
  {
    hide Mul, Eligible, FairlyReduced, Execute;
    ExecutionIsFair(ranked, deficit, targetSide, bankruptcyPrice, currentPrice);
    MulOrder(ReducedTotal(Execute(ranked, deficit, bankruptcyPrice, currentPrice).results), quantity,
             Gap(targetSide, bankruptcyPrice, currentPrice));
  }
}
