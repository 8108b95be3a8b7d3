# Perpetual-futures exchange: a verified model

An in-memory perpetual-futures exchange, in four linked parts and one separate one.

- **Order book** (`PriceTime`, `BestExecution`, `BookSpec`, `OrderBook`).  `Book` keeps sorted price levels,
  first-in-first-out queues, cached totals and an id index, and changes them in place.  Every operation is proved equal
  to the same operation on two flat queues in price-time order, and the laws of matching are proved there.
- **Positions and money** (`PositionMath`, `Clearance`, `Ledger`, `Caches`, `TradingEngine`).  Every fill goes to both sides
  through one open, increase, reduce or flip step.  `Ledger` says what each operation does to accounts, positions, pending
  orders and the settlement queue; `Engine`, with its caches and the real `Book`, is proved to take exactly those steps.
  About all runs of those steps: what they do to equity and exposure (`Conservation`), that margins and risk prices follow
  the entry (`Margins`), who holds what (`Holdings`: legs of others leave a user alone, and each user has at most one
  position), and that fills fold to their average price (`AveragePrice`).  `Cases` has inputs for which a fill, a
  match or a part of a trade is lost.
- **Settlement** (`WriteBehind`).  Memory changes at once, the accounts table later, through a queue of deltas.
  `Backing` ties the book to it: every order of a registered user that rests in the book is pending on the same terms, and
  its money is frozen, in every state of the engine.
- **Liquidation** (`Insurance`, `Deleveraging`, `Reductions`, `Disposing`, `Liquidation`, `Waterfall`, `PaidTwice`).
  Takeover at the bankruptcy price, winding down on the book, the insurance fund, and ranked deleveraging down to the
  positions it leaves behind.
- **Candlesticks** (`DirectKline`, `HierarchicalKline`, `KlineService`, `KlineHistory`, `KlineTable`).  Nine nested intervals kept by a
  recursive cascade and a live update at once, proved equal to aggregating the raw ticks interval by interval.
- **Market maker** (`Ladder`, `MarketMaker`).  Cancels its quotes and places a new ladder.

`Options`, `Reals`, `Sums` and `Rounding` hold what the others share.

Decimals are exact reals.  A public call is one step.  Time enters as whole UTC seconds for ticks, as a counter that orders
arrivals for the book, and as milliseconds for the disposal interval.  The reference price, the current time and the
configuration are parameters.  Where the code takes any position of a user that qualifies, the model lets any be taken, and
every theorem holds for each choice.  The database is one table of balance and frozen amount per user, and transactions
commit.

## Where the code and its promises part

- The zero-sum claim (README.md:30) needs both legs of a trade to be applied to the same extent
  (`TradeBalancesIffBothApply`).  A refused open or increase drops one side.  `RunMoves` says what any run does to equity
  and exposure, refused legs and deleveraging included; `RunConserves` is the case where every trade is applied.
- The money set aside for a resting order is released only on cancellation and on an immediate fill (engine.go:267 and 305),
  not when the order is filled as a maker.  The fill of a whole order that opens a position costs exactly what was set aside,
  so it is applied if and only if the owner has that much available a second time (`MakerIsFilledIff`).  One limit order and
  one market order are enough to leave a short without a long (`OneLimitOneMarketUnbalance`).
- A trade larger than the position it meets opens the other way only if what the owner then has covers the rest
  (`FlipsIff`); otherwise it is reported as a close and the rest is dropped (`UnpaidFlipIsAClose`).
- Deleveraging reduces the counterparty only, so the distance between longs and shorts moves by the reduced quantity.  The
  balance that monitor.go:328-341 looks for holds afterwards exactly when the sides were apart before by just that quantity,
  and so never when they were balanced (`DeleveragingBalancesIff`).  The counterparties are chosen for a profit before the
  fee; after it they gain exactly when profit and funding of the whole position cover the fee of closing it (`NetProfitIff`).
- A limit order that is matched in part rests with its full amount frozen and pending, and its trades are not applied to any
  position (`LimitPlaced` in `TradingEngine`, `HalfMatchedIsNotTraded`; engine.go:265-290).
- Adding to a position is free of charge (`IncreaseMoves`), while opening and reducing are not.
- Taking over past bankruptcy pays for the gap, and disposing of the position pays for the same loss again.  What the fund and
  the counterparties pay is the loss of the disposals, as far as the fund reaches, plus all that was taken at the
  liquidation; that surplus is nothing if and only if the price was not past bankruptcy, or the fund was empty and nobody
  could be deleveraged (`LossIsPaidOnceIff`).  `FundPaysTwice` is a run from empty accounts in which the fund pays
  twice.
- The funding-adjusted liquidation price is right for longs; for shorts the adjustment has the wrong sign, so it is right only
  without funding (`FundedPriceIsRightIff`).
- The rows hold the available balance; a restart reads them as the whole balance, so money set aside for resting orders is
  subtracted twice (`RestartNeedsNothingFrozen`).
- The market maker keeps away from itself, whatever the others quote, if and only if its innermost quotes are apart and every
  further bid is positive (`NeverMeetsItselfIff`); to the book, a price that is not positive is no limit.  With a half spread
  of a half and two levels it takes its own ask (`WideLadderMeetsItself`).  The liquidation engine's limit is one only when it
  does not round to zero.

## Model

| member | source | states |
|---|---|---|
| PriceTime.GreedyIsStrictPriority | internal/engine/orderbook/orderbook.go:137-200 | matching a taker fills a prefix of the opposite queue in (price, arrival) order, each order completely except possibly the last, and stops short only at the end of the queue or at the first price out of the limit |
| PriceTime.GreedyConserves | internal/engine/orderbook/orderbook.go:181-184 | what the taker gets is what it loses and what the resting orders lose |
| BestExecution.FrontIsCheapest | internal/engine/orderbook/orderbook.go:42-48 | any selection of quantities from a sorted queue costs at least what the same quantity costs from the front |
| BestExecution.GreedyIsBestExecution | internal/engine/orderbook/orderbook.go:140-200 | no other feasible selection of resting orders, for the quantity the taker gets, costs a buyer less or pays a seller more |
| BestExecution.SplitOrder | internal/engine/orderbook/orderbook.go:140-200 | filling a and then b leaves the same book and trades the same total value as filling a + b |
| BookSpec.InsertAt | internal/engine/orderbook/orderbook.go:213-237 | a new order queues behind every order that is not strictly worse and before all others |
| BookSpec.PlaceLimitKeepsInv | internal/engine/orderbook/orderbook.go:77-99 | a limit order keeps both sides sorted by price and arrival with positive quantities and unique ids, and the book uncrossed |
| BookSpec.PlaceMarketKeepsInv | internal/engine/orderbook/orderbook.go:103-121 | so does a market order |
| BookSpec.CancelKeepsInv | internal/engine/orderbook/orderbook.go:124-135 | so does a cancellation, after which the id is gone |
| BookSpec.RunKeepsInv | internal/engine/orderbook/orderbook.go:77-264 | the book invariant holds after every run of limit orders, market orders and cancellations |
| BookSpec.CancelUndoesResting | internal/engine/orderbook/orderbook.go:77-135 | placing and cancelling the same order leaves its own side as it was and the opposite side as the match alone would; without a match the whole book is as it was |
| BookSpec.StopsAtLimit | internal/engine/orderbook/orderbook.go:146-153 | an order with quantity left does not reach the best remaining opposite price |
| OrderBook.Book.constructor | internal/engine/orderbook/orderbook.go:58-64 | an empty book represents two empty queues |
| OrderBook.Book.NextOrderId | internal/engine/orderbook/orderbook.go:69-72 | ids count upwards |
| OrderBook.Book.FillFront | internal/engine/orderbook/orderbook.go:156-184 | one fill: the smaller quantity at the maker's price, buyer and seller named by side, both quantities reduced |
| OrderBook.Book.EatLevel | internal/engine/orderbook/orderbook.go:155-191 | the inner loop takes from one level in arrival order, dropping filled orders from level and index, and stays a part of the whole greedy match |
| OrderBook.Book.MatchAgainst | internal/engine/orderbook/orderbook.go:140-200 | the nested loops produce exactly the greedy fill of the flattened side, its remaining queue, and the taker's remaining quantity; level totals and index follow |
| OrderBook.MatchingStep | internal/engine/orderbook/orderbook.go:155-196 | one fill keeps levels, totals, queue and trades in step |
| OrderBook.Book.Search | internal/engine/orderbook/orderbook.go:214-220 | the binary search finds the first level that is not better than the price |
| OrderBook.Book.InsertIntoSide | internal/engine/orderbook/orderbook.go:213-237 | the levels with the order at its place represent the flat queue with the order inserted, with correct level totals |
| OrderBook.Book.InsertOrder | internal/engine/orderbook/orderbook.go:203-211 | index and side take the order in; the book then represents the flat book with it |
| OrderBook.Book.RemoveFromSide | internal/engine/orderbook/orderbook.go:239-264 | finding the level by price and the order by id and cutting it out, with its level when empty, is removal from the flat queue |
| OrderBook.Book.MatchOrder | internal/engine/orderbook/orderbook.go:84-89 | only the opposite side is matched; the own side is untouched |
| OrderBook.Book.PlaceLimit | internal/engine/orderbook/orderbook.go:77-99 | trades, both sides, remaining order and remaining quantity are those of the flat book's limit order; the class invariant is kept |
| OrderBook.Book.PlaceMarket | internal/engine/orderbook/orderbook.go:103-121 | refuses an order that carries a price and leaves everything alone; otherwise matches and never rests |
| OrderBook.Book.Cancel | internal/engine/orderbook/orderbook.go:124-135 | removes exactly the order with that id and returns it, or returns null and changes nothing |
| OrderBook.Book.BestBid | internal/engine/orderbook/orderbook.go:269-276 | price of the first queued bid and the quantity resting at that price anywhere in the queue, zeros without bids |
| OrderBook.Book.BestAsk | internal/engine/orderbook/orderbook.go:279-286 | the same of the asks |
| OrderBook.LevelTotal | internal/engine/orderbook/orderbook.go:35-40 | every cached level total is the quantity resting at its price |
| DirectKline.DirectBarIsOhlc | internal/engine/pricefeed/kline_aggregator.go:96-140 | the reference bar of a period: open is the last price before it (or the first ever), close the last price so far, high and low the extremes of open and the ticks in the period |
| DirectKline.ChildInside | internal/engine/pricefeed/kline_aggregator.go:187-228 | the bar of a period inside a period of the parent interval has its whole range inside the parent bar's range, and the same close once the period is the latest |
| DirectKline.MergeChangesNothing | internal/engine/pricefeed/kline_aggregator.go:217-227 | merging a closed child bar into its parent's bar of the same ticks changes none of its prices |
| DirectKline.TruncUnique | internal/engine/pricefeed/kline_aggregator.go:278-283 | the period of an instant is the only aligned one that contains it |
| DirectKline.ParentAligned | internal/engine/pricefeed/kline_aggregator.go:30-42 | a period of the parent interval begins where a period of the interval begins and is at least twice as long |
| HierarchicalKline.CascadeIsDirect | internal/engine/pricefeed/kline_aggregator.go:189-228 | closing a bar and cascading upwards leaves every level at a bar the raw ticks define |
| HierarchicalKline.FillGapIsDirect | internal/engine/pricefeed/kline_aggregator.go:109-122 | filling a stretch of missing seconds closes exactly the periods that ended in it, at every level |
| HierarchicalKline.BaseIsDirect | internal/engine/pricefeed/kline_aggregator.go:93-140 | the base update closes exactly what is due at the one-second level and leaves each ancestor in its old or its next period |
| HierarchicalKline.AncestorsAreDirect | internal/engine/pricefeed/kline_aggregator.go:142-185 | the live ancestor update completes what the cascade left |
| HierarchicalKline.TickIsDirect | internal/engine/pricefeed/kline_aggregator.go:78-91 | one tick takes all nine intervals from the bars of the ticks before to those of the ticks including it |
| HierarchicalKline.HierarchicalIsDirect | internal/engine/pricefeed/kline_aggregator.go:11-20 | for every non-decreasing tick stream and every interval, the running bar and the closed history are those of aggregating the raw ticks directly |
| KlineHistory.ChartIsSound | internal/engine/pricefeed/kline_aggregator.go:96-247 | bars are aligned, in order, final once closed and open where the one before closed; contiguous when at most sixty seconds are ever missing |
| KlineHistory.NoMissingOrDuplicateBars | internal/engine/pricefeed/kline_aggregator.go:96-247 | the same of the aggregator's own state after any non-decreasing tick stream |
| KlineTable.BarSpansItsInterval | internal/engine/pricefeed/kline_aggregator.go:30-42 | for every tick stream and every instant t, the bar of each of the nine intervals begins at t rounded down to a multiple of 1, 5, 15, 60, 300, 900, 3600, 14400 or 86400 seconds and ends that many seconds later |
| KlineTable.BarsAreOnGrid | internal/engine/pricefeed/kline_aggregator.go:30-42 | so do all bars the cache shows, the running one around the last tick |
| KlineTable.TwoTicks | internal/engine/pricefeed/kline_aggregator.go:30-42 | after ticks at second 0 and one interval later, exactly the first bar has closed |
| KlineTable.CacheReachesBack | internal/engine/pricefeed/kline_aggregator.go:30-42 | the cached bars reach back an hour, a day, two days, a week, thirty days or a year, interval by interval |
| KlineTable.MinutesArePersisted | internal/engine/pricefeed/kline_aggregator.go:242-246 | exactly the closed bars of a minute and more are handed to the callback |
| KlineTable.SilenceIsFilledUpToAMinute | internal/engine/pricefeed/kline_aggregator.go:109-122 | up to sixty missing seconds are filled with bars, a longer silence not at all |
| KlineService.KlineAggregator.CacheBar | internal/engine/pricefeed/kline_aggregator.go:236-247 | the cache stays the newest bars up to the interval's limit, and the callback gets each closed bar of a persisted interval once |
| KlineService.KlineAggregator.CloseAndCascade | internal/engine/pricefeed/kline_aggregator.go:189-228 | the recursion on maps equals the cascade on values |
| KlineService.KlineAggregator.UpdateBase | internal/engine/pricefeed/kline_aggregator.go:96-140 | the base update with its gap loop equals the function on values, also for ticks out of order |
| KlineService.KlineAggregator.UpdateAncestor | internal/engine/pricefeed/kline_aggregator.go:153-181 | one ancestor is started, rolled over without cascading, or updated |
| KlineService.KlineAggregator.UpdateAncestors | internal/engine/pricefeed/kline_aggregator.go:145-185 | the walk up the parents equals the function on values |
| KlineService.KlineAggregator.OnTrade | internal/engine/pricefeed/kline_aggregator.go:81-91 | the object stays equal to the state its whole tick history defines |
| KlineService.KlineAggregator.GetCachedKlines | internal/engine/pricefeed/kline_aggregator.go:250-269 | returns the running bar and the newest closed bars up to the limit; for ordered ticks these are the direct bars, each from a multiple of the interval's seconds on and as long as it, the first around the last tick |
| PositionMath.BankruptcyLosesTheMargin | internal/engine/position/manager.go:36-46 | at the bankruptcy price the loss is exactly the margin |
| PositionMath.LiquidationIsMarginRatio | internal/engine/position/manager.go:48-54 | a mark price is at or past the liquidation price if and only if the margin ratio there is at or below the maintenance rate |
| PositionMath.FundedThresholdIsMarginRatio | internal/engine/position/manager.go:56-77 | with funding counted into the margin, the ratio is at or below the rate exactly at and past the price that moves the base by funding over quantity against the side |
| PositionMath.FundedPriceIsRightIff | internal/engine/position/manager.go:56-77 | the funding-adjusted liquidation price triggers exactly there, at every mark price, if and only if the position is a long or has no funding |
| PositionMath.ForceTpIsReturn | internal/engine/position/manager.go:79-92 | a price triggers forced take-profit if and only if the return there has reached the forced rate |
| PositionMath.TakeProfitOrStopLoss | internal/engine/trading/monitor.go:362-378 | of a take-profit and a stop-loss at one price one always triggers, and both only at the price itself |
| PositionMath.PricesInOrder | internal/engine/position/manager.go:36-92 | bankruptcy, liquidation, entry and forced take-profit stand in order, shorts reversed and strict, exactly when leverage times maintenance rate is below one |
| PositionMath.EquityAt | internal/engine/position/manager.go:26-34 | margin plus profit at a price is the distance of that price from bankruptcy times the quantity |
| Clearance.CalcReduce | internal/engine/clearing/clearance.go:109-143 | closes the smaller of trade and position; full close if and only if the trade is at least the position |
| Clearance.OpenIsMargined | internal/engine/clearing/clearance.go:47-60 | an opened position's margin times leverage is its value |
| Clearance.IncreaseForm | internal/engine/clearing/clearance.go:74-88 | the new entry is the quantity-weighted average, the added margin the added value over leverage |
| Clearance.IncreaseKeepsMargined | internal/engine/clearing/clearance.go:74-88 | adding keeps margin times leverage equal to value |
| Clearance.IncreaseWorth | internal/engine/clearing/clearance.go:74-88 | at every reference price, adding exchanges the added margin for what the added part is worth; no fee is charged |
| Clearance.ReduceForm | internal/engine/clearing/clearance.go:108-143 | margin and funding are paid out in proportion, profit less fee plus funding is the net, and the rest stays, which is nothing of a full close |
| Clearance.ReduceKeepsMargined | internal/engine/clearing/clearance.go:134-140 | reducing keeps margin times leverage equal to value |
| Clearance.ReduceWorth | internal/engine/clearing/clearance.go:108-143 | at every reference price, payout and rest together are the old worth, less the fee, plus the trade |
| Clearance.CalcVWAP | internal/engine/clearing/clearance.go:151-166 | total quantity, and the price at which it would have cost what the trades cost; zeros without quantity |
| Caches.AccountCache.GetBalance | internal/cache/account_cache.go:49-58 | balance less frozen, zero for an unknown user |
| Caches.AccountCache.Load | internal/cache/account_cache.go:30-35 | replaces the account |
| Caches.AccountCache.Deduct | internal/cache/account_cache.go:60-74 | takes the amount if and only if the account exists and has it available |
| Caches.AccountCache.Freeze | internal/cache/account_cache.go:76-90 | sets the amount aside under the same condition |
| Caches.AccountCache.Unfreeze | internal/cache/account_cache.go:92-104 | releases an amount, never below zero |
| Caches.AccountCache.ReturnMarginWithPnl | internal/cache/account_cache.go:106-115 | adds margin and profit to an existing account |
| Caches.PositionCache.Add | internal/cache/position_cache.go:56-62 | position map and user index stay in step |
| Caches.PositionCache.Remove | internal/cache/position_cache.go:64-75 | removes exactly that position from both |
| Caches.PositionCache.Update | internal/cache/position_cache.go:143-149 | changes exactly that position, if it is there |
| Caches.PositionCache.IdsOf | internal/cache/position_cache.go:85-100 | the index names exactly the user's positions |
| Caches.PositionCache.FindOpposite | internal/cache/position_cache.go:102-117 | finds some position the trade may reduce if and only if there is one; closes in progress qualify |
| Caches.PositionCache.FindSameDir | internal/cache/position_cache.go:119-129 | finds some active position of the same side if and only if there is one |
| Caches.PositionCache.GetAll | internal/cache/position_cache.go:131-141 | every active position, each once |
| Caches.PositionCache.TrySetState | internal/cache/position_cache.go:151-162 | changes the state if and only if the position exists and is active |
| Caches.Settler.Submit | internal/engine/clearing/settler.go:98-108 | the event joins the end of the queue |
| Caches.Settler.ProcessEvent | internal/engine/clearing/settler.go:144-245 | each handler adds the event's deltas to an existing row under its own conditions, and touches no other row |
| Caches.Settler.ProcessNext | internal/engine/clearing/settler.go:133-142 | the oldest event is settled first |
| Caches.Settler.Stop | internal/engine/clearing/settler.go:115-126 | everything queued is settled in order |
| Conservation.UpdateMoves | internal/engine/trading/position_update.go:42-56 | a leg moves its owner's exposure by side times the quantity applied and total equity, at any reference price, by the fee and the change of hands; it is applied in full exactly when the guard evaluated beforehand says so |
| Conservation.OpenMoves | internal/engine/trading/position_update.go:58-108 | opening: the whole quantity, at the owner's own fee rate |
| Conservation.IncreaseMoves | internal/engine/trading/position_update.go:110-155 | increasing: the whole quantity, without fee |
| Conservation.ReduceMoves | internal/engine/trading/position_update.go:157-188 | reducing: the closed quantity, at the taker rate |
| Conservation.FlipMoves | internal/engine/trading/position_update.go:217-221 | flipping: closes and opens the other way in one leg, at the taker rate; only the opening part can be refused |
| Conservation.UpdateKeepsLinked | internal/engine/trading/position_update.go:73-78 | position ids stay fresh and every position's owner has an account |
| Conservation.TradesCancel | internal/engine/trading/engine.go:471-509 | both legs of every trade together exchange nothing and buy nothing net |
| Conservation.LegsAreTrades | internal/engine/trading/engine.go:476-507 | what a group of users bought net is what the trades say |
| Conservation.TradesAreZeroSum | internal/engine/trading/engine.go:471-509 | when every leg can be paid, each group of users ends with what it traded, longs minus shorts stay as they were, and everybody's equity at any reference price drops by exactly the fees |
| Conservation.StepMoves | internal/engine/trading/engine.go:471-509 | whatever the operation, paid or refused, with deleveraging and deposits: equity at any price changes by deposit, fees and what the applied legs exchanged, and exposure by what they bought net |
| Conservation.RunMoves | internal/engine/trading/engine.go:149-381 | the same over every run |
| Conservation.RunConserves | internal/engine/trading/engine.go:471-509 | over runs whose trades are applied on both sides: longs minus shorts stay as they were, and equity changes by deposits less fees |
| Conservation.DeleveragingBalancesIff | internal/engine/trading/monitor.go:289-341 | deleveraging moves the distance between longs and shorts by the reduced quantity; they are equal afterwards if and only if they were apart by just that quantity before, and never when they were equal |
| Conservation.TradeBalancesIffBothApply | internal/engine/trading/engine.go:486-499 | a trade keeps the balance if and only if both legs are applied to the same extent |
| Conservation.PaidTradeQualifies | internal/engine/trading/engine.go:486-499 | a concrete trade between two funded users meets every hypothesis of the zero-sum theorem |
| Cases.FillCostsTheHold | internal/engine/trading/engine.go:250-256 | opening a resting order's whole quantity at its price as a maker costs exactly what was frozen for it |
| Cases.MakerIsFilledIff | internal/engine/trading/engine.go:254-291 | among any trades of a taker, the owner of a resting order without positions whose order is filled whole ends with the position of its fill if and only if the frozen amount is available a second time, and otherwise with none |
| Cases.SaleIsMatched | internal/engine/orderbook/orderbook.go:77-121 | a limit order to buy, resting in an empty book, and a market order to sell its quantity trade exactly once, at its price |
| Cases.OneLimitOneMarketUnbalance | internal/engine/trading/engine.go:254-291 | two deposits, one limit order and one market order, after which shorts outweigh longs by one |
| Cases.HalfMatchedIsNotTraded | internal/engine/trading/engine.go:263-290 | a concrete limit order that finds half of its quantity: the book trades the half, the ledger freezes and records the whole and opens no position |
| Cases.FlipsIff | internal/engine/trading/position_update.go:217-221 | a trade larger than the one position it meets leaves the position of the rest if and only if money at hand and payout cover its cost as taker, and otherwise nothing |
| Cases.UnpaidFlipIsAClose | internal/engine/trading/position_update.go:217-221 | a concrete sale of 100 against a long of 1 that ends flat |
| Backing.MarketKeepsBacked | internal/engine/orderbook/orderbook.go:137-200 | matching leaves every resting order of a registered user within its pending record |
| Backing.LimitKeepsBacked | internal/engine/trading/engine.go:263-290 | a limit order that rests is recorded under its id for at least what rests |
| Backing.CancelKeepsBacked | internal/engine/trading/engine.go:296-312 | cancelling takes the order out of book and records together |
| Backing.RestingIsFrozen | internal/engine/trading/engine.go:250-289 | the holds of all orders of a registered user that rest in the book are within its frozen money, and each order's margin at its leverage is worth what is left of it |
| Backing.MakersKeepTheirTerms | internal/engine/trading/engine.go:515-527 | a registered user's resting order trades at its pending price, within its pending quantity, with its pending leverage, as maker |
| Holdings.UpdateLeavesOthers | internal/engine/trading/position_update.go:42-231 | a leg leaves account and positions of everybody else as they were |
| Holdings.LegHolds | internal/engine/trading/position_update.go:42-231 | for an owner of at most one position a leg is open, increase, reduce or flip of exactly that one, whichever choice the code makes |
| Holdings.LegsProject | internal/engine/trading/engine.go:471-509 | after any legs of anybody, such a user has what its own legs alone make |
| Holdings.RunKeepsTidy | internal/engine/trading/position_update.go:42-231 | in every run of public calls in which no close trades with its owner's own order, each user always has at most one position, and it is active |
| AveragePrice.FlatTakerEndsAtVwap | internal/engine/trading/engine.go:471-509 | a taker without positions, on the same side of every trade, ends with the one position of a single fill of the total quantity at the average price if and only if it can pay for all fills; its account is then down by exactly their cost, and what others trade does not matter |
| AveragePrice.OpeningFillsFold | internal/engine/trading/position_update.go:59-155 | the fills of one order build, one by one, the position of one fill at their average price, or stop where the money does |
| AveragePrice.TwoReductions | internal/engine/clearing/clearance.go:108-143 | two partial closes pay out and leave what one of the sum at the average price does |
| AveragePrice.SplitReductionIsOne | internal/engine/trading/engine.go:471-509 | however a reduction or close of one position is split into fills, its owner ends with the account and position that one fill at the average price gives |
| WriteBehind.EventAgrees | internal/engine/clearing/settler.go:160-175 | a queued event and the same change in memory keep row plus queue equal to memory |
| WriteBehind.SettleAgrees | internal/engine/clearing/settler.go:144-245 | settling moves the deltas from the queue to the row and nothing else |
| WriteBehind.ClampNeverFires | internal/cache/account_cache.go:100-103 | releasing a pending order's hold never meets the floor at zero |
| WriteBehind.RestKeepsBooks | internal/engine/trading/engine.go:282-289 | resting an order keeps agreement and the frozen ledger |
| WriteBehind.FillLimitKeepsBooks | internal/engine/trading/engine.go:254-280 | an order filled at once keeps both |
| WriteBehind.CancelKeepsBooks | internal/engine/trading/engine.go:296-312 | cancelling keeps both |
| WriteBehind.UpdateKeepsBooks | internal/engine/trading/position_update.go:42-231 | every leg of every kind keeps both, refused or not |
| WriteBehind.StepKeepsBooks | internal/engine/trading/engine.go:441-464 | every operation keeps both |
| WriteBehind.LoadKeepsBooks | internal/logic/auth_logic.go:66-72 | a new account keeps both |
| WriteBehind.RunKeepsBooks | internal/engine/clearing/settler.go:160-245 | in every run that starts in agreement, after every operation, each user's row plus queued deltas is available balance and frozen money in memory, and frozen money is the sum of what the pending orders set aside |
| WriteBehind.DrainedAgrees | internal/engine/reconcile/reconcile.go:95-130 | with the queue drained, every row holds exactly what the reconciler compares it with |
| WriteBehind.RestartNeedsNothingFrozen | internal/svc/service_context.go:390-411 | reloading memory from a drained database gives back the available balance if and only if nothing was frozen |
| Margins.UpdateKeepsSound | internal/engine/trading/position_update.go:42-231 | every leg keeps margin, liquidation and forced take-profit prices of every position in line with its entry |
| Margins.RunKeepsSound | internal/engine/trading/position_update.go:42-231 | so does every run |
| Margins.RiskPricesMeanWhatTheySay | internal/engine/trading/monitor.go:344-378 | after any run, a position triggers liquidation exactly when its margin ratio is at or below the maintenance rate, forced take-profit exactly when its return reaches the rate, and is worth nothing at bankruptcy |
| TradingEngine.StepKeepsHealthy | internal/engine/trading/engine.go:41-61 | every operation keeps all of the above invariants together |
| TradingEngine.Engine.constructor | internal/engine/trading/engine.go:95-132 | a new engine holds nothing and counts positions from 100000 |
| TradingEngine.Engine.LoadAccount | internal/logic/auth_logic.go:66-72 | a user without account gets one, in memory and in the table alike; every invariant is kept |
| TradingEngine.Engine.HandleOpen | internal/engine/trading/position_update.go:59-108 | state after opening, or nothing when the cost is not available |
| TradingEngine.Engine.HandleIncrease | internal/engine/trading/position_update.go:111-155 | state after increasing, or nothing when the margin is not available |
| TradingEngine.Engine.HandleReduce | internal/engine/trading/position_update.go:158-231 | state after reducing, closing or flipping, with payout and event |
| TradingEngine.Engine.UpdatePosition | internal/engine/trading/position_update.go:42-56 | reduces if any position can be reduced, else increases if any can be, else opens; fails only where the guard says so; keeps every invariant |
| TradingEngine.Engine.ProcessTrades | internal/engine/trading/engine.go:474-509 | both legs of each trade in order, with the leverage and role that the resting order or the taker gives |
| TradingEngine.Engine.SendLimit | internal/engine/trading/engine.go:258-263 | hands the book an order under a fresh id; the trades are good trades |
| TradingEngine.Engine.PlaceLimitOrder | internal/engine/trading/engine.go:229-291 | the answer is the one its arguments and the state call for, and a refusal has no effect; an accepted order is the one requested, is filled at once only if matched completely, and otherwise frozen and pending in full |
| TradingEngine.Engine.SendMarket | internal/engine/trading/engine.go:175-180 | hands the book an order without a limit |
| TradingEngine.Engine.PlaceMarketOrder | internal/engine/trading/engine.go:149-189 | the answer is the one its arguments and the state call for; refused without effect, or matched for margin times leverage over the price and applied to both sides of every trade |
| TradingEngine.Engine.CancelOrder | internal/engine/trading/engine.go:296-312 | only the owner's pending order is cancelled, in book, frozen money, cache and queue |
| TradingEngine.Engine.ExecuteClose | internal/engine/trading/engine.go:365-381 | a reverse market order; exactly when nobody rests on the other side, or there is no quantity to close, nothing is traded and the position is active again |
| TradingEngine.Engine.ClosePosition | internal/engine/trading/engine.go:317-335 | exactly when each refusal happens, the one for want of liquidity included, that refusals have no effect, and what every other close trades |
| TradingEngine.Engine.ClosePositionInternal | internal/engine/trading/engine.go:339-361 | the risk engine's close: refused exactly when the position is not active or not there, or when nobody rests on the other side, and otherwise the whole quantity traded under the state of its reason |
| TradingEngine.Engine.Deleverage | internal/engine/trading/monitor.go:289-304 | one leg for the counterparty only |
| TradingEngine.Engine.SettleOne | internal/engine/clearing/settler.go:133-157 | a settlement between operations keeps all invariants |
| TradingEngine.OrdersInBookAreFrozen | internal/engine/trading/engine.go:254-312 | in every state of the engine, each order of a registered user in the book is pending in that user's name, and the holds of all of them are within its frozen money |
| TradingEngine.AcceptedIsPositive | internal/engine/trading/engine.go:230-252 | an order that passes validation has a positive price, margin and size |
| TradingEngine.MarketIsAnswered | internal/engine/trading/engine.go:149-183 | each answer to a market order if and only if the first bound it breaks is that of side, leverage, margin, held positions, price, balance against margin and taker fee, or liquidity; a fill if and only if it breaks none |
| TradingEngine.LimitIsAnswered | internal/engine/trading/engine.go:229-258 | the same of a limit order, with its price, the deviation from the current price, and margin and maker fee against the available balance |
| TradingEngine.OrderIsFor | internal/engine/trading/engine.go:249-289 | an accepted limit order has the request's user, side, leverage, price and margin, and a quantity worth margin times leverage at its price |
| TradingEngine.FrozenByOrder | internal/engine/trading/engine.go:250-291 | an order that rests raises the user's frozen money by margin plus maker fee on margin times leverage; one that is filled leaves it as it was |
| Insurance.Fund.Contribute | internal/engine/insurance/fund.go:39-49 | adds what is not negative |
| Insurance.Fund.Cover | internal/engine/insurance/fund.go:51-71 | pays what it can; calls for deleveraging if and only if a positive deficit is not fully paid, and then it is empty |
| Deleveraging.SortByScore | internal/engine/adl/engine.go:76-80 | a descending permutation |
| Deleveraging.RankPositions | internal/engine/adl/engine.go:35-83 | exactly the eligible positions, highest score first |
| Deleveraging.EligibleIsReachable | internal/engine/adl/engine.go:38-66 | who is eligible: exactly the active positions of the target side whose entry is better than both the market and the bankruptcy price |
| Deleveraging.ScoreIs | internal/engine/adl/engine.go:66-70 | the score is leverage times the return on the margin in percent |
| Deleveraging.ExecuteADL | internal/engine/adl/engine.go:97-171 | the loop equals the one-after-the-other reduction; its guard against covering too much is never needed |
| Deleveraging.ReducedQty | internal/engine/adl/engine.go:133-150 | at most the position, never covers more than is left, and covers it exactly unless the whole position goes |
| Deleveraging.EligibleGivesUpGap | internal/engine/adl/engine.go:113-126 | an eligible position settles at the bankruptcy price and gives up the gap to the market on every unit |
| Deleveraging.ExecutionIsFair | internal/engine/adl/engine.go:97-171 | results follow the ranking without skipping, all fully closed but possibly the last, each at a profit; the deficit is covered by exactly what they give up, and something remains only when all are closed |
| Deleveraging.ReducedAtMostLiquidated | internal/engine/adl/engine.go:133-142 | no more quantity is reduced than was liquidated |
| Reductions.OneReduction | internal/engine/trading/monitor.go:289-304 | one planned reduction reaches the one position of its user, whatever the choice, and nobody else |
| Reductions.ReductionIsUnlevered | internal/engine/trading/monitor.go:289-304 | the leg of a reduction is the counterparty's, on the opposite side, unlevered and as taker |
| Reductions.PlanIsApplied | internal/engine/trading/monitor.go:289-326 | after all planned reductions every user in the plan has what its reduction makes of its position, and everybody else has what it had |
| Reductions.ReducedLeaves | internal/engine/trading/monitor.go:289-304 | that is no position when fully closed, and otherwise the same position with the planned remaining quantity |
| Reductions.NetProfitIff | internal/engine/clearing/clearance.go:115-119 | a reduction pays out no less than its share of the margin if and only if profit and funding of the whole position at that price cover the taker fee of all of it |
| Disposing.TakeOverTakesTheMargin | internal/engine/trading/liquidation_engine.go:93-99 | taken over at bankruptcy, the owner loses exactly the margin and pays the taker fee; only funding comes back |
| Liquidation.LiquidationEngine.TakeOver | internal/engine/trading/liquidation_engine.go:55-103 | an active position is traded to the liquidation account past the book; any other is left alone |
| Liquidation.LiquidationEngine.SendImmediateOrCancel | internal/engine/trading/liquidation_engine.go:145-158 | place and cancel is matching with a limit: nothing of the order stays in the book |
| Liquidation.LiquidationEngine.Dispose | internal/engine/trading/liquidation_engine.go:124-191 | one disposal: order size and limit, book, both sides of the fills, and the fund |
| Liquidation.LiquidationEngine.OnTick | internal/engine/trading/liquidation_engine.go:105-192 | nothing within the interval; otherwise every position held is disposed of once, one after the other, each meeting the market as far as one percent from the given price and no further; nothing of the liquidation account is left resting, the fund does not go below zero, and a sole position keeps its side and shrinks by what was filled |
| Liquidation.LiquidationEngine.DisposeAll | internal/engine/trading/liquidation_engine.go:124-191 | one disposal for each position, all at the given price, chained from the state before to the state after |
| Liquidation.LiquidationEngine.DisposeOne | internal/engine/trading/liquidation_engine.go:124-191 | one position, if it is still held, with its effect at the given price on ledger, book and fund |
| Liquidation.LiquidationEngine.SettleWithFund | internal/engine/trading/liquidation_engine.go:175-186 | surplus of each fill goes to the fund, a loss comes out of it |
| Disposing.DisposalsAreSafe | internal/engine/trading/liquidation_engine.go:145-186 | whatever the disposals of a tick, nothing of the liquidation account rests afterwards and the fund is not overdrawn |
| Disposing.FundAbsorbs | internal/engine/trading/liquidation_engine.go:178-186 | the fund never goes below zero and never loses more than the trades lost |
| Disposing.FundIsExactWhileItLasts | internal/engine/trading/liquidation_engine.go:178-186 | it moves by exactly their profit and loss if and only if it never ran out on the way |
| Disposing.FundAndUnpaid | internal/engine/trading/liquidation_engine.go:178-186 | profit and loss of the disposals is the fund's movement less what it could not pay, which is nothing exactly while it lasts |
| Disposing.MatchWithinLimit | internal/engine/trading/liquidation_engine.go:136-153 | fills are within the limit and, with what is left, make up the order |
| Disposing.DisposalNeverFlips | internal/engine/trading/liquidation_engine.go:130-186 | if the liquidation account holds one position and rests no order, a disposal leaves it that position on the same side, smaller by exactly what was filled, or none; at most the offered part is filled, within the limit when there is one |
| Disposing.TickNeverFlips | internal/engine/trading/liquidation_engine.go:107-191 | over a whole tick: one disposal, and the one position left is the old one less what was filled |
| Disposing.TickKeepsToLimit | internal/engine/trading/liquidation_engine.go:136-153 | no fill of a tick, whatever is held, is beyond the limit of the tick's price, and no disposal trades more than it set out to |
| Disposing.TickMeetsMarket | internal/engine/trading/liquidation_engine.go:130-153 | a disposal offers half, or all of a tiny position; it takes nothing worse than one percent from mid, to the cent, and stops short of its offer only when the best price left on the other side is further away or nobody is there |
| Disposing.LimitIsNear | internal/engine/trading/liquidation_engine.go:136-150 | the limit is 99 percent of mid for selling and 101 percent for buying back, to the nearest cent |
| Disposing.DisposalsAddUp | internal/engine/trading/liquidation_engine.go:107-186 | over any series of ticks, with others trading in between, the position left is the first one less all fills, the fund has moved by these fills alone, and every offer was the fraction of what was left |
| Disposing.DisposalTerminates | internal/engine/trading/liquidation_engine.go:130-134 | when disposals fill completely, n of them leave the quantity halved n times, until after exactly `Rounds` of them the account holds nothing |
| Disposing.RoundsAreFew | internal/engine/trading/liquidation_engine.go:130-134 | that number exceeds the binary logarithm of quantity over the tiny amount by at most one |
| Disposing.HalvesMakeTheWhole | internal/engine/trading/liquidation_engine.go:130-134 | n halvings are a division by two to the n-th |
| Waterfall.Monitor.TriggerADL | internal/engine/trading/monitor.go:273-326 | ranks exactly the eligible counterparties and reduces each by what the execution says, in that order, as steps of the ledger |
| Waterfall.Monitor.HandleLiquidation | internal/engine/trading/monitor.go:199-217 | an active position is taken over; what its margin and profit at the price fall short of zero by is paid by the fund and then by reducing exactly the positions eligible at that moment, in their ranking and by what the execution says, as steps of the ledger; what is given up is what those reductions give up; when every user has at most one position, each reduced one is left with its planned remainder, nobody else changes, and something uncovered means that every eligible position is gone |
| Waterfall.Monitor.ReduceAll | internal/engine/trading/monitor.go:289-304 | every ranked reduction in order, each a step of the ledger |
| Waterfall.PaymentIsInOrder | internal/engine/trading/monitor.go:207-217 | the deficit is exactly fund cover plus give-up plus remainder; give-up or remainder mean an empty fund, a remainder that every ranked position was closed; the reduced quantity is at most the liquidated one |
| Waterfall.DeficitIsLoss | internal/engine/trading/monitor.go:207-209 | on either side the deficit is the quantity times what the price is beyond bankruptcy, which for a margined position is what margin and profit fall short of zero by |
| Waterfall.LedgerIsAsPaid | internal/engine/trading/monitor.go:286-326 | the planned payment is what the ledger shows after the reductions are applied |
| Waterfall.TakenStaysTidy | internal/engine/trading/liquidation_engine.go:55-103 | a takeover leaves every user with at most one position |
| Waterfall.TakeOverOpens | internal/engine/trading/liquidation_engine.go:55-103 | a liquidation account without positions that can pay holds, after a takeover, exactly the position opened at the bankruptcy price |
| Waterfall.TakeOverEmpties | internal/engine/trading/liquidation_engine.go:93-99 | the owner of a single position holds nothing after its takeover, and its balance has changed by the accrued funding less the taker fee |
| Waterfall.PaidAtLiquidationIff | internal/engine/trading/monitor.go:205-217 | something is taken at the liquidation if and only if the price is past bankruptcy and there is a fund or an eligible counterparty to take it from |
| Waterfall.LossIsPaidOnceIff | internal/engine/trading/monitor.go:205-217 | what fund and counterparties pay for a takeover and the disposals of the position is the loss of the disposals, less what the fund could not pay, plus everything taken at the liquidation; nothing is paid on top of the disposals if and only if the price was not past bankruptcy, or the fund was empty and nobody eligible |
| PaidTwice.FundPaysTwice | internal/engine/trading/monitor.go:205-217 | a run from no accounts, trading with the market maker, a liquidation past bankruptcy and a complete disposal at the same price: the fund loses twice the gap |
| PaidTwice.BookByRun | internal/engine/orderbook/orderbook.go:77-121 | the orders behind that run: placed in turn on an empty book they trade as it says and leave the bid it ends with |
| Rounding.RoundedIsNear | internal/engine/marketmaker/bot.go:140 | rounding to cents moves a price by at most half a cent |
| Ladder.QuoteStep | internal/engine/marketmaker/bot.go:129-168 | a quote within the ladder's bounds keeps the bot's orders known and, if the bounds are apart, trades with others only |
| Ladder.QuotesStandOff | internal/engine/marketmaker/bot.go:129-160 | to the nearest cent, level i quotes i + 1 half spreads below and above the reference price |
| Ladder.QuantitiesGrow | internal/engine/marketmaker/bot.go:131-163 | quantities start from the base and grow by the multiplier from level to level, to the eighth place, the same on both sides |
| Ladder.InnerQuotesApart | internal/engine/marketmaker/bot.go:130-168 | innermost quotes stay apart after rounding when the spread is more than a cent |
| Ladder.ApartIsAlone | internal/engine/marketmaker/bot.go:129-168 | with the innermost quotes apart and every further bid positive, no quote of the ladder meets another, on any book without orders of the bot |
| Ladder.AloneIsApart | internal/engine/marketmaker/bot.go:129-168 | otherwise, with positive level quantities, one of them does on the empty book |
| Ladder.NeverMeetsItselfIff | internal/engine/marketmaker/bot.go:129-168 | with positive level quantities the ladder never meets itself on any such book if and only if the innermost quotes are apart and every further bid is positive |
| Ladder.WideLadderMeetsItself | internal/engine/orderbook/orderbook.go:146-153 | half spread a half, two levels, price 100, empty book: the second bid is at zero and takes the bot's own ask at 150 |
| MarketMaker.CancelStep | internal/engine/marketmaker/bot.go:123-127 | cancelling a remembered order forgets exactly that one |
| MarketMaker.Bot.Quote | internal/engine/marketmaker/bot.go:138-152 | one order of the ladder, remembered under its id |
| MarketMaker.Bot.CancelQuotes | internal/engine/marketmaker/bot.go:123-127 | no order of the bot is left resting |
| MarketMaker.QuotingKeepsBacked | internal/engine/marketmaker/bot.go:129-168 | the bot's quotes leave every order of a registered user within its record |
| MarketMaker.Bot.PlaceLadder | internal/engine/marketmaker/bot.go:129-168 | the book is the ladder placed in order, and the trades handed on are those of each quote in that order, with its side; every order of the bot is a new one, and its trades are all with others exactly when no quote meets another |
| MarketMaker.HardlyMovedIsNear | internal/engine/marketmaker/bot.go:113-121 | the price has hardly moved exactly when it is less than the threshold's part of the last quote away, up or down |
| MarketMaker.Bot.Tick | internal/engine/marketmaker/bot.go:97-182 | re-quotes exactly when the price moved enough, and then hands on every quote's trades in order; the bot's resting orders are then all new and remembered, orders of registered users stay backed, and it trades with itself exactly when quotes meet, never when the inner ones are apart and the further bids positive |

## Left out

- Liquidation.LiquidationEngine.OnTick: positions are looked up again before each disposal, so one that an earlier disposal of the same tick removed or changed is seen as it then is, where the code has collected pointers; with at most one position there is no difference.
- Waterfall.Monitor.HandleLiquidation: the fund is always there, and the notifications are not part of it.
- MarketMaker.Bot.Tick: the callback that books the trades is not called from it; the trades are returned with their sides, and booking them is the engine's `TradeAsTaker`.
- Deleveraging.SortByScore: stands for the library's sort; the order of equal scores is left open, as it is there.
- KlineService.KlineAggregator.OnTrade: ticks fall into whole seconds, and a bar's volume, which is never set, is absent.
- OrderBook.Book.PlaceLimit: levels are values in the two slices while orders are shared objects; the trade time stamps are absent.
- TradingEngine.Engine.PlaceMarketOrder: the reply carries the trades; the averages, fees and the position shown to the user are not computed, and take-profit and stop-loss prices are not attached.
- TradingEngine.Engine.PlaceLimitOrder: likewise.
- TradingEngine.Engine.ClosePosition: the close result, which reports only the first fill, is not computed.
- TradingEngine.Engine.ClosePositionInternal: the closing price, which the code ignores, and the refusal of the two reasons that never call it are absent; nor is there a close result.
- TradingEngine.Engine.LoadAccount: the user's row and its memory are one step; loading over an account that is there, as at a restart, is `RestartNeedsNothingFrozen`.
- TradingEngine.Engine.HandleReduce: the branch for liquidation as a close reason, which no caller passes, and the fields that only go to the trade record.
- Caches.Settler.ProcessEvent: only the accounts table; order, trade and position rows, funding events and direct balance events are absent, and every transaction commits.
- Caches.PositionCache.Update: positions are values that are replaced, not objects changed through a closure, so holding on to a pointer is not modelled.
- Rounding of divisions to sixteen places, and of stored amounts to eight: exact reals instead.
- Fee tiers: one maker and one taker rate, neither negative.
- Conservation.TradesAreZeroSum: holds of trades whose legs can all be paid, where the code promises it of all; `RunMoves` and `TradeBalancesIffBothApply` say what happens to the others.
- Conservation.RunConserves: likewise of runs without refused legs and deleveraging.
- WriteBehind.RunKeepsBooks: of the event types, funding and direct balance events and the rows other than accounts are absent.
- Funding settlement: a position carries its accrued funding as an arbitrary amount, and when prices are recomputed with it is not modelled.
- The monitor's walk over all positions, cross margin (opened positions are always isolated), take-profit and stop-loss: they choose which of the modelled operations to call.
- Depth and spread queries, the deleveraging indicator, pushes to clients, HTTP, price feeds, mark-price smoothing, e-mail: input, output or display.
- Interleavings inside a public call.
