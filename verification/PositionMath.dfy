/** Profit, margin and risk prices of a position. */
module PositionMath {
  import opened Reals

  function Pnl(entry: real, price: real, qty: real, side: int): real {
    (price - entry) * qty * side as real
  }

  /** In percent. */
  function Roi(pnl: real, margin: real): real {
    if margin == 0.0 then 0.0 else pnl / margin * 100.0
  }

  function MarginRatio(margin: real, pnl: real, qty: real, price: real): real {
    if qty * price == 0.0 then 0.0 else (margin + pnl) / (qty * price)
  }

  function BankruptcyPrice(entry: real, leverage: int, side: int): real
    requires leverage >= 1
  {
    if side == 1 then entry * (1.0 - 1.0 / leverage as real) else entry * (1.0 + 1.0 / leverage as real)
  }

  function LiquidationPrice(entry: real, leverage: int, side: int, maintRate: real): real
    requires leverage >= 1 && 0.0 <= maintRate < 1.0
  {
    if side == 1 then entry * (1.0 - 1.0 / leverage as real) / (1.0 - maintRate)
    else entry * (1.0 + 1.0 / leverage as real) / (1.0 + maintRate)
  }

  function ForceTpPrice(entry: real, leverage: int, side: int, forceTpRoi: real): real
    requires leverage >= 1
  {
    if side == 1 then entry * (1.0 + forceTpRoi / leverage as real) else entry * (1.0 - forceTpRoi / leverage as real)
  }

  predicate ShouldLiquidate(mark: real, liqPrice: real, side: int) {
    if side == 1 then mark <= liqPrice else mark >= liqPrice
  }

  predicate IsPastPrice(price: real, threshold: real, side: int) {
    if side == 1 then price < threshold else price > threshold
  }

  predicate ShouldTrigger(price: real, trigger: real, side: int, isProfitDirection: bool) {
    if (side == 1) == isProfitDirection then price >= trigger else price <= trigger
  }

  predicate IsSide(side: int) { side == 1 || side == -1 }

  /** What ties a position's margin to its size. */
  predicate Margined(entry: real, qty: real, margin: real, leverage: int) {
    margin * leverage as real == entry * qty
  }

  /** Of a take-profit and a stop-loss at the same price one always triggers, both only at the price itself. */
  lemma TakeProfitOrStopLoss(price: real, trigger: real, side: int)
    requires IsSide(side)
    ensures var profit, loss := ShouldTrigger(price, trigger, side, true), ShouldTrigger(price, trigger, side, false);
            (profit || loss) && (profit && loss <==> price == trigger)
  {
  }

  // -------------------------------------------- the prices without division

  function Inverse(leverage: int): real
    requires leverage >= 1
  {
    1.0 / leverage as real
  }

  lemma InverseIs(leverage: int, rate: real)
    requires leverage >= 1
    ensures 0.0 < Inverse(leverage) <= 1.0 && Mul(Inverse(leverage), leverage as real) == 1.0
    ensures Inverse(leverage) < 1.0 <==> leverage > 1
    ensures rate < Inverse(leverage) <==> leverage as real * rate < 1.0
  {
    DivIs(1.0, leverage as real);
    InverseBounds(Inverse(leverage), leverage, rate);
    assert leverage as real * rate == Mul(rate, leverage as real);
  }

  lemma InverseBounds(inv: real, leverage: int, rate: real)
    requires leverage >= 1 && Mul(inv, leverage as real) == 1.0
    ensures 0.0 < inv <= 1.0 && (inv < 1.0 <==> leverage > 1) && (rate < inv <==> Mul(rate, leverage as real) < 1.0)
  {
  }

  lemma PriceForms(entry: real, leverage: int, side: int, rate: real)
    requires IsSide(side) && leverage >= 1 && 0.0 <= rate < 1.0
    ensures var loss := Mul(Inverse(leverage), entry);
            var bankrupt, liq := BankruptcyPrice(entry, leverage, side), LiquidationPrice(entry, leverage, side, rate);
            && bankrupt == (if side == 1 then entry - loss else entry + loss)
            && (if side == 1 then liq - Mul(rate, liq) else liq + Mul(rate, liq)) == bankrupt
  {
  }

  lemma PnlForm(entry: real, price: real, qty: real, side: int)
    requires IsSide(side)
    ensures Pnl(entry, price, qty, side) == if side == 1 then Mul(price - entry, qty) else Mul(entry - price, qty)
  {
  }

  // ------------------------------------------------- what the prices mean

  /** At the bankruptcy price the loss is exactly the margin. */
  lemma BankruptcyLosesTheMargin(entry: real, qty: real, margin: real, leverage: int, side: int)
    requires IsSide(side) && leverage >= 1 && Margined(entry, qty, margin, leverage)
    ensures margin + Pnl(entry, BankruptcyPrice(entry, leverage, side), qty, side) == 0.0
  {
  }

  /** Margin plus profit at a mark price is the distance of that price from bankruptcy. */
  lemma EquityAt(entry: real, qty: real, margin: real, leverage: int, side: int, mark: real)
    requires IsSide(side) && leverage >= 1 && Margined(entry, qty, margin, leverage)
    ensures var bankrupt := BankruptcyPrice(entry, leverage, side);
            margin + Pnl(entry, mark, qty, side) ==
            if side == 1 then Mul(mark - bankrupt, qty) else Mul(bankrupt - mark, qty)
  {
  }

  /** The liquidation price is where the margin ratio meets the maintenance rate. */
  lemma LiquidationIsMarginRatio(entry: real, qty: real, margin: real, leverage: int, side: int, rate: real, mark: real)
    requires IsSide(side) && leverage >= 1 && 0.0 <= rate < 1.0 && qty > 0.0 && mark > 0.0
    requires Margined(entry, qty, margin, leverage)
    ensures ShouldLiquidate(mark, LiquidationPrice(entry, leverage, side, rate), side)
       <==> MarginRatio(margin, Pnl(entry, mark, qty, side), qty, mark) <= rate
  {
    hide Mul, Pnl, BankruptcyPrice, LiquidationPrice, Margined, MarginRatio;
    var bankrupt, liq := BankruptcyPrice(entry, leverage, side), LiquidationPrice(entry, leverage, side, rate);
    EquityAt(entry, qty, margin, leverage, side, mark);
    RatioForm(margin, Pnl(entry, mark, qty, side), qty, mark, rate);
    PriceForms(entry, leverage, side, rate);
    if side == 1 {
      MulOrder(mark - bankrupt, Mul(rate, mark), qty);
      MulOrder(mark, liq, 1.0 - rate);
      MulLinear(1.0, rate, mark);
      MulLinear(1.0, rate, liq);
      MulLinear(1.0 - rate, rate, mark);
      MulLinear(1.0 - rate, rate, liq);
    } else {
      MulOrder(bankrupt - mark, Mul(rate, mark), qty);
      MulOrder(liq, mark, 1.0 + rate);
      MulLinear(1.0, rate, mark);
      MulLinear(1.0, rate, liq);
      MulLinear(1.0 + rate, rate, mark);
      MulLinear(1.0 + rate, rate, liq);
    }
  }

  lemma RatioForm(margin: real, pnl: real, qty: real, mark: real, rate: real)
    requires qty > 0.0 && mark > 0.0
    ensures MarginRatio(margin, pnl, qty, mark) <= rate <==> margin + pnl <= Mul(Mul(rate, mark), qty)
  {
  }

  function FundingShift(funding: real, qty: real, scale: real): real
    requires qty > 0.0 && scale > 0.0
  {
    MulOrder(0.0, qty, scale);
    assert qty * scale > 0.0;
    funding / (qty * scale)
  }

  /** The liquidation price once funding has accrued, as it is calculated: less for longs and shorts alike. */
  function FundedLiquidationPrice(entry: real, leverage: int, side: int, maintRate: real, funding: real,
                                  qty: real): real
    requires leverage >= 1 && 0.0 <= maintRate < 1.0
  {
    var base := LiquidationPrice(entry, leverage, side, maintRate);
    if qty > 0.0 && funding != 0.0 then
      base - FundingShift(funding, qty, if side == 1 then 1.0 - maintRate else 1.0 + maintRate)
    else base
  }

  /** Where the margin ratio, funding included, meets the maintenance rate. */
  function FundedThreshold(entry: real, leverage: int, side: int, rate: real, funding: real, qty: real): real
    requires leverage >= 1 && 0.0 <= rate < 1.0 && qty > 0.0
  {
    var base := LiquidationPrice(entry, leverage, side, rate);
    if side == 1 then base - FundingShift(funding, qty, 1.0 - rate) else base + FundingShift(funding, qty, 1.0 + rate)
  }

  lemma ThresholdForm(entry: real, leverage: int, side: int, rate: real, funding: real, qty: real)
    requires IsSide(side) && leverage >= 1 && 0.0 <= rate < 1.0 && qty > 0.0
    ensures var t, bankrupt := FundedThreshold(entry, leverage, side, rate, funding, qty),
            BankruptcyPrice(entry, leverage, side);
            var scale := if side == 1 then 1.0 - rate else 1.0 + rate;
            Mul(Mul(scale, t), qty) == if side == 1 then Mul(bankrupt, qty) - funding else Mul(bankrupt, qty) + funding
  {
    hide Mul, LiquidationPrice, BankruptcyPrice, FundingShift;
    var liq, bankrupt := LiquidationPrice(entry, leverage, side, rate), BankruptcyPrice(entry, leverage, side);
    var t := FundedThreshold(entry, leverage, side, rate, funding, qty);
    PriceForms(entry, leverage, side, rate);
    MulLinear(1.0, rate, liq);
    if side == 1 {
      var d := FundingShift(funding, qty, 1.0 - rate);
      ShiftIs(funding, qty, 1.0 - rate);
      MulLinear(liq, d, 1.0 - rate);
      MulLinear(t, t, 1.0 - rate);
      MulLinear(bankrupt, Mul(1.0 - rate, d), qty);
      MulLinear(1.0 - rate, 1.0 - rate, liq);
      assert Mul(1.0 - rate, t) == bankrupt - Mul(1.0 - rate, d);
      assert Mul(Mul(1.0 - rate, t), qty) == Mul(bankrupt, qty) - funding;
    } else {
      var d := FundingShift(funding, qty, 1.0 + rate);
      ShiftIs(funding, qty, 1.0 + rate);
      MulLinear(liq, d, 1.0 + rate);
      MulLinear(t, t, 1.0 + rate);
      MulLinear(bankrupt, Mul(1.0 + rate, d), qty);
      MulLinear(1.0 + rate, 1.0 + rate, liq);
      assert Mul(1.0 + rate, t) == bankrupt + Mul(1.0 + rate, d);
      assert Mul(Mul(1.0 + rate, t), qty) == Mul(bankrupt, qty) + funding;
    }
  }

  lemma ShiftIs(funding: real, qty: real, scale: real)
    requires qty > 0.0 && scale > 0.0
    ensures Mul(Mul(scale, FundingShift(funding, qty, scale)), qty) == funding
  {
    DivIs(funding, qty * scale);
    assert Mul(Mul(scale, FundingShift(funding, qty, scale)), qty)
           == Mul(FundingShift(funding, qty, scale), qty * scale);
  }

  /** The threshold is right for both sides. */
  lemma FundedThresholdIsMarginRatio(entry: real, qty: real, margin: real, leverage: int, side: int, rate: real,
                                     funding: real, mark: real)
    requires IsSide(side) && leverage >= 1 && 0.0 <= rate < 1.0 && qty > 0.0 && mark > 0.0
    requires Margined(entry, qty, margin, leverage)
    ensures ShouldLiquidate(mark, FundedThreshold(entry, leverage, side, rate, funding, qty), side)
       <==> MarginRatio(margin + funding, Pnl(entry, mark, qty, side), qty, mark) <= rate
  {
    hide Mul, Pnl, BankruptcyPrice, FundedThreshold, Margined, MarginRatio;
    var bankrupt, t := BankruptcyPrice(entry, leverage, side),
      FundedThreshold(entry, leverage, side, rate, funding, qty);
    EquityAt(entry, qty, margin, leverage, side, mark);
    RatioForm(margin + funding, Pnl(entry, mark, qty, side), qty, mark, rate);
    ThresholdForm(entry, leverage, side, rate, funding, qty);
    var scale := if side == 1 then 1.0 - rate else 1.0 + rate;
    MulLinear(1.0, rate, mark);
    MulLinear(scale, rate, mark);
    MulLinear(mark, bankrupt, qty);
    MulLinear(bankrupt, mark, qty);
    MulLinear(mark, Mul(rate, mark), qty);
    MulOrder(Mul(scale, mark), Mul(scale, t), qty);
    MulOrder(Mul(scale, t), Mul(scale, mark), qty);
    MulLinear(mark, t, scale);
    MulLinear(t, mark, scale);
    MulOrder(mark, t, scale);
    MulOrder(t, mark, scale);
  }

  /** The calculated price triggers liquidation exactly where the margin ratio, funding included, meets
      the maintenance rate for every long, and for a short only without accrued funding. */
  lemma FundedPriceIsRightIff(entry: real, qty: real, margin: real, leverage: int, side: int, rate: real, funding: real)
    requires IsSide(side) && leverage >= 1 && 0.0 <= rate < 1.0 && qty > 0.0 && entry > 0.0
    requires Margined(entry, qty, margin, leverage)
    ensures (forall mark | mark > 0.0 :: FundedAgrees(entry, qty, margin, leverage, side, rate, funding, mark))
       <==> side == 1 || funding == 0.0
  {
    hide LiquidationPrice, MarginRatio, Pnl, Margined, FundingShift;
    forall mark | mark > 0.0 && (side == 1 || funding == 0.0)
      ensures FundedAgrees(entry, qty, margin, leverage, side, rate, funding, mark)
    {
      FundedThresholdIsMarginRatio(entry, qty, margin, leverage, side, rate, funding, mark);
      NoShift(qty, side, rate);
    }
    if side == -1 && funding != 0.0 {
      var p := FundedLiquidationPrice(entry, leverage, side, rate, funding, qty);
      var t := FundedThreshold(entry, leverage, side, rate, funding, qty);
      ShortShift(entry, leverage, rate, funding, qty);
      var low, high := if p < t then p else t, if p < t then t else p;
      var mark := ((if low > 0.0 then low else 0.0) + high) / 2.0;
      FundedThresholdIsMarginRatio(entry, qty, margin, leverage, side, rate, funding, mark);
      assert !FundedAgrees(entry, qty, margin, leverage, side, rate, funding, mark);
    }
  }

  /** At this mark price the calculated price and the margin ratio agree. */
  ghost predicate FundedAgrees(entry: real, qty: real, margin: real, leverage: int, side: int, rate: real,
                               funding: real, mark: real)
    requires leverage >= 1 && 0.0 <= rate < 1.0
  {
    ShouldLiquidate(mark, FundedLiquidationPrice(entry, leverage, side, rate, funding, qty), side)
    <==> MarginRatio(margin + funding, Pnl(entry, mark, qty, side), qty, mark) <= rate
  }

  lemma NoShift(qty: real, side: int, rate: real)
    requires 0.0 <= rate < 1.0 && qty > 0.0
    ensures FundingShift(0.0, qty, 1.0 - rate) == 0.0 && FundingShift(0.0, qty, 1.0 + rate) == 0.0
  {
  }

  /** For a short with funding the two are apart, on either side of a positive price. */
  lemma ShortShift(entry: real, leverage: int, rate: real, funding: real, qty: real)
    requires leverage >= 1 && 0.0 <= rate < 1.0 && qty > 0.0 && entry > 0.0 && funding != 0.0
    ensures var p, t := FundedLiquidationPrice(entry, leverage, -1, rate, funding, qty),
            FundedThreshold(entry, leverage, -1, rate, funding, qty);
            p != t && p + t > 0.0
  {
    hide Mul, LiquidationPrice, FundingShift;
    var liq, d := LiquidationPrice(entry, leverage, -1, rate), FundingShift(funding, qty, 1.0 + rate);
    ShiftIs(funding, qty, 1.0 + rate);
    MulLinear(0.0, 0.0, 1.0 + rate);
    MulLinear(0.0, 0.0, qty);
    PriceForms(entry, leverage, -1, rate);
    InverseIs(leverage, rate);
    MulOrder(0.0, Inverse(leverage), entry);
    MulLinear(0.0, 0.0, entry);
    MulOrder(liq, 0.0, 1.0 + rate);
    MulLinear(1.0, rate, liq);
    MulLinear(1.0 + rate, 0.0, liq);
  }

  /** The forced take-profit price is where the return reaches the forced rate. */
  lemma ForceTpIsReturn(entry: real, qty: real, margin: real, leverage: int, side: int, roi: real, price: real)
    requires IsSide(side) && leverage >= 1 && qty > 0.0 && entry > 0.0
    requires Margined(entry, qty, margin, leverage)
    ensures ShouldTrigger(price, ForceTpPrice(entry, leverage, side, roi), side, true)
       <==> Roi(Pnl(entry, price, qty, side), margin) >= roi * 100.0
  {
  }

  lemma ForceTpForm(entry: real, leverage: int, side: int, roi: real)
    requires IsSide(side) && leverage >= 1
    ensures var gain := Mul(roi, Mul(Inverse(leverage), entry));
            ForceTpPrice(entry, leverage, side, roi) == if side == 1 then entry + gain else entry - gain
  {
  }

  /** Long prices stand in the order bankruptcy, liquidation, entry, forced take-profit and short
      ones the other way round, exactly when leverage times the maintenance rate is below one. */
  lemma PricesInOrder(entry: real, leverage: int, side: int, rate: real, roi: real)
    requires IsSide(side) && leverage >= 1 && 0.0 < rate < 1.0 && roi > 0.0 && entry > 0.0
    ensures var bankrupt := BankruptcyPrice(entry, leverage, side);
            var liq := LiquidationPrice(entry, leverage, side, rate);
            var ftp := ForceTpPrice(entry, leverage, side, roi);
            && (side == 1 ==> bankrupt <= liq && entry < ftp && (liq < entry <==> leverage as real * rate < 1.0))
            && (side == 1 ==> (bankrupt < liq <==> leverage > 1))
            && (side == -1 ==> liq < bankrupt && ftp < entry && (entry < liq <==> leverage as real * rate < 1.0))
  {
    hide BankruptcyPrice, LiquidationPrice, ForceTpPrice, Inverse, Mul;
    var inv := Inverse(leverage);
    InverseIs(leverage, rate);
    PriceForms(entry, leverage, side, rate);
    ForceTpForm(entry, leverage, side, roi);
    MulOrder(0.0, inv, entry);
    MulLinear(0.0, 0.0, entry);
    MulOrder(0.0, roi, Mul(inv, entry));
    MulLinear(0.0, 0.0, Mul(inv, entry));
    var bankrupt, liq := BankruptcyPrice(entry, leverage, side), LiquidationPrice(entry, leverage, side, rate);
    if side == 1 {
      LongOrder(entry, inv, rate, bankrupt, liq);
    } else {
      ShortOrder(entry, inv, rate, bankrupt, liq);
    }
  }

  lemma LongOrder(entry: real, inv: real, rate: real, bankrupt: real, liq: real)
    requires entry > 0.0 && 0.0 < inv <= 1.0 && 0.0 < rate < 1.0
    requires bankrupt == entry - Mul(inv, entry) && liq - Mul(rate, liq) == bankrupt
    ensures bankrupt <= liq && (bankrupt < liq <==> inv < 1.0) && (liq < entry <==> rate < inv)
  {
    hide Mul;
    MulOrder(liq, entry, 1.0 - rate);
    MulLinear(1.0, rate, entry);
    MulLinear(1.0, rate, liq);
    MulLinear(0.0, 1.0 - rate, entry);
    MulLinear(0.0, 1.0 - rate, liq);
    MulOrder(rate, inv, entry);
    MulOrder(0.0, liq, 1.0 - rate);
    MulLinear(0.0, 0.0, 1.0 - rate);
    MulOrder(inv, 1.0, entry);
    MulOrder(0.0, liq, rate);
    MulLinear(0.0, rate, liq);
    MulLinear(0.0, 0.0, rate);
  }

  lemma ShortOrder(entry: real, inv: real, rate: real, bankrupt: real, liq: real)
    requires entry > 0.0 && 0.0 < inv <= 1.0 && 0.0 < rate < 1.0
    requires bankrupt == entry + Mul(inv, entry) && liq + Mul(rate, liq) == bankrupt
    ensures liq < bankrupt && (entry < liq <==> rate < inv)
  {
  }
}
