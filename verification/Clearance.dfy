/** The clearing calculations between matching and settlement. */
module Clearance {
  import opened Reals
  import opened PositionMath
  import OrderBook

  type Side = s: int | IsSide(s) witness 1
  type Leverage = n: int | n >= 1 witness 1
  type Qty = x: real | x > 0.0 witness 1.0
  type Price = x: real | x >= 0.0
  type Amount = x: real | x >= 0.0
  type FeeRate = x: real | x >= 0.0
  type MaintRate = x: real | 0.0 <= x < 1.0

  function Flip(side: Side): Side { if side == 1 then -1 else 1 }

  datatype Rates = Rates(maker: FeeRate, taker: FeeRate, maint: MaintRate, forceTp: real)

  function FeeOf(r: Rates, positionValue: real, isMaker: bool): real {
    positionValue * if isMaker then r.maker else r.taker
  }

  datatype OpenResult = OpenResult(margin: real, fee: real, totalCost: real, liqPrice: real, forceTpPrice: real)

  function CalcOpen(r: Rates, price: Price, qty: Qty, leverage: Leverage, side: Side, isMaker: bool): OpenResult {
    var positionValue := price * qty;
    var margin := positionValue / leverage as real;
    var fee := FeeOf(r, positionValue, isMaker);
    OpenResult(margin, fee, margin + fee,
               LiquidationPrice(price, leverage, side, r.maint), ForceTpPrice(price, leverage, side, r.forceTp))
  }

  datatype IncreaseResult = IncreaseResult(addMargin: real, newEntry: Price, newQty: Qty, newMargin: real,
                                           liqPrice: real, forceTpPrice: real)

  function CalcIncrease(r: Rates, oldEntry: Price, oldQty: Qty, oldMargin: real, leverage: Leverage, side: Side,
                        addQty: Qty, addPrice: Price): IncreaseResult {
    var newQty := oldQty + addQty;
    WeightedEntryIsPrice(oldEntry, oldQty, addPrice, addQty);
    var newEntry := (oldEntry * oldQty + addPrice * addQty) / newQty;
    var addMargin := addPrice * addQty / leverage as real;
    IncreaseResult(addMargin, newEntry, newQty, oldMargin + addMargin,
                   LiquidationPrice(newEntry, leverage, side, r.maint),
                   ForceTpPrice(newEntry, leverage, side, r.forceTp))
  }

  lemma WeightedEntryIsPrice(oldEntry: Price, oldQty: Qty, addPrice: Price, addQty: Qty)
    ensures (oldEntry * oldQty + addPrice * addQty) / (oldQty + addQty) >= 0.0
  {
  }

  datatype ReduceResult = ReduceResult(closeQty: Qty, closeMargin: real, closeFunding: real, fee: real, rawPnl: real,
                                       realizedPnl: real, netPnl: real, isFullClose: bool,
                                       remainQty: real, remainMargin: real, remainFunding: real,
                                       remainLiqPrice: real, remainFtpPrice: real)

  function CalcReduce(r: Rates, entry: Price, closePrice: Price, existingQty: Qty, existingMargin: real, funding: real,
                      leverage: Leverage, side: Side, tradeQty: Qty): (c: ReduceResult)
    ensures c.closeQty <= tradeQty && c.closeQty <= existingQty
    ensures c.isFullClose <==> tradeQty >= existingQty
    ensures !c.isFullClose ==> c.remainQty > 0.0
  {
    var closeQty: Qty := if tradeQty <= existingQty then tradeQty else existingQty;
    var ratio := closeQty / existingQty;
    var closeMargin, closeFunding := existingMargin * ratio, funding * ratio;
    var rawPnl := Pnl(entry, closePrice, closeQty, side);
    var fee := FeeOf(r, closeQty * closePrice, false);
    var realized := rawPnl - fee;
    var net := realized + closeFunding;
    if closeQty == existingQty then
      ReduceResult(closeQty, closeMargin, closeFunding, fee, rawPnl, realized, net, true, 0.0, 0.0, 0.0, 0.0, 0.0)
    else
      ReduceResult(closeQty, closeMargin, closeFunding, fee, rawPnl, realized, net, false,
                   existingQty - closeQty, existingMargin - closeMargin, funding - closeFunding,
                   LiquidationPrice(entry, leverage, side, r.maint), ForceTpPrice(entry, leverage, side, r.forceTp))
  }

  // ------------------------------------------------------------ worth at a price

  /** What a position adds to its owner's equity when the market stands at p. */
  function Worth(margin: real, funding: real, entry: real, qty: real, side: int, p: real): real {
    margin + funding + Pnl(entry, p, qty, side)
  }

  lemma PnlFlips(e: real, p: real, q: real, side: Side)
    ensures Pnl(e, p, q, Flip(side)) == -Pnl(e, p, q, side)
  {
    hide Mul, Pnl;
    PnlForm(e, p, q, side);
    PnlForm(e, p, q, Flip(side));
    MulLinear(p, e, q);
    MulLinear(e, p, q);
  }

  lemma PnlLaws(e: real, x: real, p: real, q: real, q': real, side: int)
    ensures Pnl(e, p, q, side) == Pnl(e, x, q, side) + Pnl(x, p, q, side)
    ensures Pnl(e, p, q + q', side) == Pnl(e, p, q, side) + Pnl(e, p, q', side)
    ensures Pnl(e, p, 0.0, side) == 0.0
  {
  }

  /** Margin goes with size through every clearing step. */
  lemma OpenIsMargined(r: Rates, price: Price, qty: Qty, leverage: Leverage, side: Side, isMaker: bool)
    ensures Margined(price, qty, CalcOpen(r, price, qty, leverage, side, isMaker).margin, leverage)
  {
  }

  lemma IncreaseForm(r: Rates, oldEntry: Price, oldQty: Qty, oldMargin: real, leverage: Leverage, side: Side,
                     addQty: Qty, addPrice: Price)
    ensures var c := CalcIncrease(r, oldEntry, oldQty, oldMargin, leverage, side, addQty, addPrice);
            && c.newQty == oldQty + addQty && c.newMargin == oldMargin + c.addMargin
            && Mul(c.newEntry, c.newQty) == Mul(oldEntry, oldQty) + Mul(addPrice, addQty)
            && Mul(c.addMargin, leverage as real) == Mul(addPrice, addQty)
  {
  }

  lemma MarginedIs(entry: real, qty: real, margin: real, leverage: int)
    ensures Margined(entry, qty, margin, leverage) <==> Mul(margin, leverage as real) == Mul(entry, qty)
  {
  }

  lemma IncreaseKeepsMargined(r: Rates, oldEntry: Price, oldQty: Qty, oldMargin: real, leverage: Leverage, side: Side,
                              addQty: Qty, addPrice: Price)
    requires Margined(oldEntry, oldQty, oldMargin, leverage)
    ensures var c := CalcIncrease(r, oldEntry, oldQty, oldMargin, leverage, side, addQty, addPrice);
            Margined(c.newEntry, c.newQty, c.newMargin, leverage)
  {
  }

  lemma ReduceForm(r: Rates, entry: Price, price: Price, qty: Qty, margin: real, funding: real,
                   leverage: Leverage, side: Side, tradeQty: Qty)
    ensures var c := CalcReduce(r, entry, price, qty, margin, funding, leverage, side, tradeQty);
            && Mul(c.closeMargin, qty) == Mul(margin, c.closeQty)
               && Mul(c.closeFunding, qty) == Mul(funding, c.closeQty)
            && c.rawPnl == Pnl(entry, price, c.closeQty, side) && c.realizedPnl == c.rawPnl - c.fee
            && c.netPnl == c.realizedPnl + c.closeFunding
            && c.fee == Mul(Mul(r.taker, price), c.closeQty)
            && (c.isFullClose ==>
                  c.closeQty == qty && c.closeMargin == margin && c.closeFunding == funding
                  && c.remainQty == c.remainMargin == c.remainFunding == c.remainLiqPrice == c.remainFtpPrice == 0.0)
            && (!c.isFullClose ==>
                  c.closeQty == tradeQty && c.remainQty == qty - c.closeQty
                  && c.remainMargin == margin - c.closeMargin && c.remainFunding == funding - c.closeFunding)
  {
    var closeQty := if tradeQty <= qty then tradeQty else qty;
    Share(margin, closeQty, qty);
    Share(funding, closeQty, qty);
    FeeForm(r.taker, price, closeQty);
  }

  lemma FeeForm(rate: real, price: real, qty: real)
    ensures qty * price * rate == Mul(Mul(rate, price), qty) && price * qty * rate == Mul(Mul(rate, price), qty)
  {
  }

  lemma Share(x: real, part: real, whole: real)
    requires whole > 0.0
    ensures Mul(x * (part / whole), whole) == Mul(x, part)
    ensures part == whole ==> x * (part / whole) == x
  {
  }

  lemma ReduceKeepsMargined(r: Rates, entry: Price, price: Price, qty: Qty, margin: real, funding: real,
                            leverage: Leverage, side: Side, tradeQty: Qty)
    requires Margined(entry, qty, margin, leverage) && tradeQty < qty
    ensures var c := CalcReduce(r, entry, price, qty, margin, funding, leverage, side, tradeQty);
            Margined(entry, c.remainQty, c.remainMargin, leverage)
  {
  }

  /** Adding to a position costs the margin and is worth, at every price p, what the added part is. */
  lemma IncreaseWorth(r: Rates, oldEntry: Price, oldQty: Qty, oldMargin: real, funding: real, leverage: Leverage,
                      side: Side,
                      addQty: Qty, addPrice: Price, p: real)
    ensures var c := CalcIncrease(r, oldEntry, oldQty, oldMargin, leverage, side, addQty, addPrice);
            Worth(c.newMargin, funding, c.newEntry, c.newQty, side, p) - c.addMargin
            == Worth(oldMargin, funding, oldEntry, oldQty, side, p) + Pnl(addPrice, p, addQty, side)
  {
  }

  /** Reducing pays out margin and profit less the fee; what stays and what was paid are together
      worth, at every price p, the old position plus the trade. */
  lemma ReduceWorth(r: Rates, entry: Price, price: Price, qty: Qty, margin: real, funding: real,
                    leverage: Leverage, side: Side, tradeQty: Qty, p: real)
    ensures var c := CalcReduce(r, entry, price, qty, margin, funding, leverage, side, tradeQty);
            c.closeMargin + c.netPnl
            + (if c.isFullClose then 0.0 else Worth(c.remainMargin, c.remainFunding, entry, c.remainQty, side, p))
            == Worth(margin, funding, entry, qty, side, p) - c.fee + Pnl(price, p, c.closeQty, Flip(side))
  {
    hide Mul, CalcReduce, Pnl;
    var c := CalcReduce(r, entry, price, qty, margin, funding, leverage, side, tradeQty);
    ReduceForm(r, entry, price, qty, margin, funding, leverage, side, tradeQty);
    PnlLaws(entry, price, p, c.closeQty, 0.0, side);
    PnlFlips(price, p, c.closeQty, side);
    PnlLaws(entry, price, p, c.closeQty, qty - c.closeQty, side);
  }

  // ----------------------------------------------------------------- VWAP

  ghost function TradedValue(trades: seq<OrderBook.Trade>): real {
    if trades == [] then 0.0
    else TradedValue(trades[..|trades| - 1]) + trades[|trades| - 1].price * trades[|trades| - 1].quantity
  }

  ghost function TradedQty(trades: seq<OrderBook.Trade>): real {
    if trades == [] then 0.0 else TradedQty(trades[..|trades| - 1]) + trades[|trades| - 1].quantity
  }

  /** The price at which the total quantity would have cost what the trades cost, zeros without quantity. */
  method CalcVWAP(trades: seq<OrderBook.Trade>) returns (avgPrice: real, totalQty: real)
    ensures avgPrice * totalQty == if TradedQty(trades) == 0.0 then 0.0 else TradedValue(trades)
    ensures totalQty == TradedQty(trades)
    ensures avgPrice == if totalQty == 0.0 then 0.0 else TradedValue(trades) / TradedQty(trades)
  {
    avgPrice, totalQty := 0.0, 0.0;
    var totalValue := 0.0;
    for i := 0 to |trades|
      invariant totalValue == TradedValue(trades[..i]) && totalQty == TradedQty(trades[..i])
    {
      assert trades[..i + 1][..i] == trades[..i];
      totalValue := totalValue + trades[i].price * trades[i].quantity;
      totalQty := totalQty + trades[i].quantity;
    }
    assert trades[..|trades|] == trades;
    if totalQty == 0.0 {
      return 0.0, 0.0;
    }
    DivIs(totalValue, totalQty);
    avgPrice := totalValue / totalQty;
  }
}
