/** The limit order book with its price levels, level totals and order index, updated in place.
    Every operation is proved equal to the flat price-time queue of `BookSpec`. */
module OrderBook {
  import opened Options
  import opened PriceTime
  import opened BookSpec

  /** An order as the caller and the book share it: the index and the levels point to one object. */
  class Order {
    const id: int
    const userId: int
    const isBuy: bool
    const price: real
    var quantity: real
    var timestamp: int
    var isMaker: bool

    constructor (id: int, userId: int, isBuy: bool, price: real, quantity: real)
      ensures this.id == id && this.userId == userId && this.isBuy == isBuy && this.price == price
      ensures this.quantity == quantity
    {
      this.id, this.userId, this.isBuy, this.price := id, userId, isBuy, price;
      this.quantity, this.timestamp, this.isMaker := quantity, 0, false;
    }

    ghost function Snap(): Entry
      reads this
    {
      Entry(id, userId, price, quantity, timestamp)
    }

    ghost function AsIncoming(): Incoming
      reads this
    {
      Incoming(id, userId, isBuy, price, quantity)
    }
  }

  datatype Level = Level(price: real, orders: seq<Order>, total: real)

  datatype Trade = Trade(buyOrderId: int, sellOrderId: int, buyUserId: int, sellUserId: int, price: real,
                         quantity: real)

  function TradeOf(o: Incoming, f: Fill): Trade {
    if o.isBuy then Trade(o.id, f.maker.id, o.user, f.maker.user, f.maker.price, f.qty)
    else Trade(f.maker.id, o.id, f.maker.user, o.user, f.maker.price, f.qty)
  }

  function TradesOf(o: Incoming, fills: seq<Fill>): seq<Trade> {
    if fills == [] then [] else [TradeOf(o, fills[0])] + TradesOf(o, fills[1..])
  }

  // ---------------------------------------------------- levels and objects

  /** The resting orders of a side, best level first. */
  ghost function Objs(levels: seq<Level>): seq<Order> {
    if levels == [] then [] else levels[0].orders + Objs(levels[1..])
  }

  ghost function Snaps(os: seq<Order>): (q: seq<Entry>)
    reads os
    ensures |q| == |os|
  {
    if os == [] then [] else [os[0].Snap()] + Snaps(os[1..])
  }

  /** Levels are non-empty, strictly sorted, and hold orders of their own price and side. */
  ghost predicate Shape(levels: seq<Level>, isBid: bool) {
    && (forall i | 0 <= i < |levels| :: levels[i].orders != [] && LevelShape(levels[i], isBid))
    && (forall i, j | 0 <= i < j < |levels| :: Better(isBid, levels[i].price, levels[j].price))
  }

  ghost predicate LevelShape(level: Level, isBid: bool) {
    forall o | o in level.orders :: o.price == level.price && o.isBuy == isBid
  }

  /** Every cached level total is the sum of the quantities its orders have in queue q. */
  ghost predicate Totals(levels: seq<Level>, q: seq<Entry>) {
    if levels == [] then q == []
    else
      var n := |levels[0].orders|;
      n <= |q| && levels[0].total == Volume(q[..n]) && Totals(levels[1..], q[n..])
  }

  /** Levels of one side together with the flat queue q they stand for. */
  ghost predicate SideOk(levels: seq<Level>, isBid: bool, q: seq<Entry>) {
    Shape(levels, isBid) && Totals(levels, q) && SamePrices(Objs(levels), q)
  }

  ghost predicate SamePrices(os: seq<Order>, q: seq<Entry>) {
    |q| == |os| && forall i | 0 <= i < |q| :: q[i].price == os[i].price
  }

  ghost predicate NoDup(os: seq<Order>) {
    forall i, j | 0 <= i < j < |os| :: os[i] != os[j]
  }

  // ------------------------------------------------------------- matching

  ghost function IdsOf(os: seq<Order>): set<int> {
    set o | o in os :: o.id
  }

  /** The level being eaten, possibly empty by now, in front of the untouched ones. */
  ghost predicate Open(best: Level, tail: seq<Level>, isBid: bool) {
    LevelShape(best, isBid) && Shape(tail, isBid)
      && forall i | 0 <= i < |tail| :: Better(isBid, best.price, tail[i].price)
  }

  ghost predicate OpenTotals(best: Level, tail: seq<Level>, q: seq<Entry>) {
    var n := |best.orders|;
    n <= |q| && best.total == Volume(q[..n]) && Totals(tail, q[n..])
  }

  /** What is still to be matched, together with the trades so far, is the whole match. */
  ghost predicate SoFar(o: Incoming, whole: Match, trades: seq<Trade>, now: Match) {
    trades + TradesOf(o, now.fills) == TradesOf(o, whole.fills) && now.rest == whole.rest && now.left == whole.left
  }

  /** The queue after one fill of its first order. */
  function AfterFill(q: seq<Entry>, f: real): seq<Entry>
    requires q != []
  {
    if f == q[0].qty then q[1..] else [q[0].(qty := q[0].qty - f)] + q[1..]
  }

  /** One fill of the first order is the first step of the greedy match. */
  lemma FillStep(o: Incoming, whole: Match, trades: seq<Trade>, q: seq<Entry>, qty: real)
    requires q != [] && qty > 0.0 && q[0].qty > 0.0 && Reaches(o.isBuy, o.price, q[0].price)
    requires SoFar(o, whole, trades, Greedy(q, o.isBuy, o.price, qty))
    ensures var f := Min(qty, q[0].qty);
            SoFar(o, whole, trades + [TradeOf(o, Fill(q[0], f))], Greedy(AfterFill(q, f), o.isBuy, o.price, qty - f))
  {
    var f := Min(qty, q[0].qty);
    var now, next := Greedy(q, o.isBuy, o.price, qty), Greedy(AfterFill(q, f), o.isBuy, o.price, qty - f);
    assert now == Match([Fill(q[0], f)] + next.fills, next.rest, next.left);
    SoFarStep(o, whole, trades, Fill(q[0], f), now, next);
  }

  lemma MatchEnds(o: Incoming, whole: Match, trades: seq<Trade>, q: seq<Entry>, qty: real)
    requires SoFar(o, whole, trades, Greedy(q, o.isBuy, o.price, qty))
    requires q == [] || qty <= 0.0 || !Reaches(o.isBuy, o.price, q[0].price)
    ensures trades == TradesOf(o, whole.fills) && q == whole.rest && qty == whole.left
  {
  }

  lemma MatchBegins(o: Incoming, whole: Match)
    ensures SoFar(o, whole, [], whole)
  {
  }

  lemma NoLevels()
    ensures Objs([]) == []
  {
  }

  lemma SoFarStep(o: Incoming, whole: Match, trades: seq<Trade>, f: Fill, now: Match, next: Match)
    requires SoFar(o, whole, trades, now)
    requires now == Match([f] + next.fills, next.rest, next.left)
    ensures SoFar(o, whole, trades + [TradeOf(o, f)], next)
  {
  }

  /** The level total follows the fill. */
  lemma FillTotals(best: Level, tail: seq<Level>, q: seq<Entry>, f: real)
    requires best.orders != [] && OpenTotals(best, tail, q) && Positive(q) && 0.0 < f <= q[0].qty
    ensures var orders := if f == q[0].qty then best.orders[1..] else best.orders;
            var after := best.(total := best.total - f, orders := orders);
            OpenTotals(after, tail, AfterFill(q, f)) && Positive(AfterFill(q, f))
  {
    var n := |best.orders|;
    assert q[..n][1..] == q[1..][..n - 1] && q[1..][n - 1..] == q[n..];
    if f != q[0].qty {
      var r := AfterFill(q, f);
      assert r[..n] == [r[0]] + q[..n][1..] && r[..n][1..] == q[..n][1..] && r[n..] == q[n..];
    }
  }

  /** `os` are the orders still resting, `index` the index, after the first n of `all` have gone. */
  ghost predicate Remaining(all: seq<Order>, n: nat, os: seq<Order>, index0: map<int, Order>, index: map<int, Order>) {
    n <= |all| && os == all[n..] && NoDup(os) && index == index0 - IdsOf(all[..n])
  }

  lemma NothingEaten(all: seq<Order>, index: map<int, Order>)
    requires NoDup(all)
    ensures Remaining(all, 0, all, index, index)
  {
  }

  lemma AllRemaining(all: seq<Order>, n: nat, os: seq<Order>, index0: map<int, Order>, index: map<int, Order>)
    requires Remaining(all, n, os, index0, index)
    ensures n <= |all| && os == all[n..] && index == index0 - IdsOf(all[..n])
  {
  }

  lemma OneMoreEaten(all: seq<Order>, n: nat, os: seq<Order>, index0: map<int, Order>, index: map<int, Order>)
    requires Remaining(all, n, os, index0, index) && os != []
    ensures os[0] in all && NoDup(os) && Remaining(all, n + 1, os[1..], index0, index - {os[0].id})
  {
  }

  /** Everything the matching loops rely on, for the queue `os` = the open level's orders and the
      orders of the levels behind it, seen as q. */
  ghost predicate Matching(o: Incoming, whole: Match, trades: seq<Trade>, qty: real,
                           best: Level, tail: seq<Level>, os: seq<Order>, q: seq<Entry>) {
    && best.orders + Objs(tail) == os
    && Open(best, tail, !o.isBuy) && OpenTotals(best, tail, q) && Positive(q)
    && SamePrices(os, q)
    && Reaches(o.isBuy, o.price, best.price)
    && SoFar(o, whole, trades, Greedy(q, o.isBuy, o.price, qty))
  }

  lemma FrontOfLevel(o: Incoming, whole: Match, trades: seq<Trade>, qty: real,
                     best: Level, tail: seq<Level>, os: seq<Order>, q: seq<Entry>)
    requires Matching(o, whole, trades, qty, best, tail, os, q) && best.orders != []
    ensures os != [] && os[0] == best.orders[0]
  {
  }

  lemma MatchingOpens(o: Incoming, whole: Match, trades: seq<Trade>, qty: real, rest: seq<Level>, os: seq<Order>,
                      q: seq<Entry>)
    requires rest != [] && SideOk(rest, !o.isBuy, q) && Positive(q) && Objs(rest) == os
    requires SoFar(o, whole, trades, Greedy(q, o.isBuy, o.price, qty))
    ensures rest[0].orders != [] && q != [] && q[0].price == rest[0].price
    ensures Reaches(o.isBuy, o.price, rest[0].price) ==> Matching(o, whole, trades, qty, rest[0], rest[1..], os, q)
  {
  }

  lemma MatchingCloses(o: Incoming, whole: Match, trades: seq<Trade>, qty: real,
                       best: Level, tail: seq<Level>, os: seq<Order>, q: seq<Entry>)
    requires Matching(o, whole, trades, qty, best, tail, os, q)
    ensures var rest := if |best.orders| == 0 then tail else [best] + tail;
            SideOk(rest, !o.isBuy, q) && Objs(rest) == os
    ensures Positive(q) && SoFar(o, whole, trades, Greedy(q, o.isBuy, o.price, qty))
  {
    CloseSide(best, tail, !o.isBuy, q);
  }

  /** One fill keeps it. */
  lemma MatchingStep(o: Incoming, whole: Match, trades: seq<Trade>, qty: real, best: Level, tail: seq<Level>,
                     os: seq<Order>, q: seq<Entry>, after: Level)
    requires Matching(o, whole, trades, qty, best, tail, os, q) && best.orders != [] && qty > 0.0
    requires var f := Min(qty, q[0].qty);
             after == best.(total := best.total - f, orders := if f == q[0].qty then best.orders[1..] else best.orders)
    ensures os != [] && os[0] == best.orders[0]
    ensures var f := Min(qty, q[0].qty);
            Matching(o, whole, trades + [TradeOf(o, Fill(q[0], f))], qty - f, after, tail,
                     if f == q[0].qty then os[1..] else os, AfterFill(q, f))
  {
    hide Greedy, Totals, Objs, TradesOf, TradeOf, Shape, SoFar, OpenTotals, Better, AfterFill, Positive, Reaches;
    var f := Min(qty, q[0].qty);
    assert os[0] == best.orders[0] && os[0] in best.orders;
    FillQueue(os, q, f);
    FillStep(o, whole, trades, q, qty);
    FillTotals(best, tail, q, f);
    assert best.orders[1..] + Objs(tail) == os[1..];
  }

  lemma FillQueue(os: seq<Order>, q: seq<Entry>, f: real)
    requires q != [] && Positive(q) && SamePrices(os, q)
    ensures q[0].qty > 0.0
    ensures var os', q' := if f == q[0].qty then os[1..] else os, AfterFill(q, f);
            SamePrices(os', q')
  {
  }

  /** Taking the best level out of a side. */
  lemma OpenSide(rest: seq<Level>, isBid: bool, q: seq<Entry>)
    requires rest != [] && Shape(rest, isBid) && Totals(rest, q)
    ensures Open(rest[0], rest[1..], isBid) && OpenTotals(rest[0], rest[1..], q)
    ensures Objs(rest) == rest[0].orders + Objs(rest[1..]) && rest[0].orders != []
    ensures forall o | o in rest[0].orders :: o.price == rest[0].price
  {
  }

  /** Putting it back, or dropping it once it is empty. */
  lemma CloseSide(best: Level, tail: seq<Level>, isBid: bool, q: seq<Entry>)
    requires Open(best, tail, isBid) && OpenTotals(best, tail, q)
    ensures var rest := if |best.orders| == 0 then tail else [best] + tail;
            Shape(rest, isBid) && Totals(rest, q) && Objs(rest) == best.orders + Objs(tail)
  {
  }

  // --------------------------------------------------- splitting a side

  lemma {:induction false} ObjsConcat(a: seq<Level>, b: seq<Level>)
    ensures Objs(a + b) == Objs(a) + Objs(b)
  {
    if a == [] {
      assert a + b == b;
    } else {
      assert (a + b)[1..] == a[1..] + b;
      ObjsConcat(a[1..], b);
    }
  }

  lemma {:induction false} TotalsLength(levels: seq<Level>, q: seq<Entry>)
    requires Totals(levels, q)
    ensures |q| == |Objs(levels)|
  {
    if levels == [] {
    } else {
      TotalsLength(levels[1..], q[|levels[0].orders|..]);
    }
  }

  /** The totals of a side are the totals of its two parts. */
  lemma {:induction false} TotalsConcat(a: seq<Level>, b: seq<Level>, q: seq<Entry>, r: seq<Entry>)
    requires |q| == |Objs(a)|
    ensures Totals(a + b, q + r) == (Totals(a, q) && Totals(b, r))
  {
    if a == [] {
      assert a + b == b && q + r == r;
    } else {
      var n := |a[0].orders|;
      assert (a + b)[1..] == a[1..] + b && (q + r)[n..] == q[n..] + r && (q + r)[..n] == q[..n];
      TotalsConcat(a[1..], b, q[n..], r);
    }
  }

  /** A side around its i-th level: what comes before, the level, what comes after. */
  lemma SplitAt(levels: seq<Level>, i: nat, q: seq<Entry>) returns (n: nat)
    requires i <= |levels| && Totals(levels, q)
    ensures n == |Objs(levels[..i])| <= |q| == |Objs(levels)|
    ensures Objs(levels) == Objs(levels[..i]) + Objs(levels[i..])
    ensures Totals(levels[..i], q[..n]) && Totals(levels[i..], q[n..])
  {
    n := |Objs(levels[..i])|;
    assert levels == levels[..i] + levels[i..];
    ObjsConcat(levels[..i], levels[i..]);
    TotalsLength(levels, q);
    assert q == q[..n] + q[n..];
    TotalsConcat(levels[..i], levels[i..], q[..n], q[n..]);
  }

  /** Orders of the levels before i are better than p, of those from i on not, whenever the levels are. */
  lemma {:induction false} PricesOf(levels: seq<Level>, isBid: bool, os: seq<Order>)
    requires (forall i | 0 <= i < |levels| :: LevelShape(levels[i], isBid)) && os == Objs(levels)
    ensures forall k | 0 <= k < |os| ::
              os[k].isBuy == isBid && exists i | 0 <= i < |levels| :: os[k].price == levels[i].price
  {
    if levels == [] {
    } else {
      PricesOf(levels[1..], isBid, Objs(levels[1..]));
      forall k | 0 <= k < |os| ensures os[k].isBuy == isBid
        && exists i | 0 <= i < |levels| :: os[k].price == levels[i].price {
        var n := |levels[0].orders|;
        if k < n {
          assert os[k] in levels[0].orders;
        } else {
          var i :| 0 <= i < |levels[1..]| && Objs(levels[1..])[k - n].price == levels[1..][i].price;
          assert os[k].price == levels[i + 1].price;
        }
      }
    }
  }

  // ------------------------------------------------------------ insertion

  lemma {:induction false} InsertIs(q: seq<Entry>, e: Entry, k: nat, isBid: bool)
    requires k <= |q|
    requires forall i | 0 <= i < k :: !Better(isBid, e.price, q[i].price)
    requires forall i | k <= i < |q| :: Better(isBid, e.price, q[i].price)
    ensures Insert(q, e, isBid) == Put(q, e, k)
  {
    if k > 0 {
      InsertIs(q[1..], e, k - 1, isBid);
      assert Put(q, e, k) == [q[0]] + Put(q[1..], e, k - 1);
    } else {
      assert Put(q, e, 0) == [e] + q;
    }
  }

  /** Where the levels put an order of price e.price: k is the position, among all orders, behind the
      levels before i. */
  lemma PositionAt(side: seq<Level>, i: nat, isBid: bool, q: seq<Entry>, e: Entry) returns (k: nat)
    requires i <= |side| && SideOk(side, isBid, q)
    requires forall j | 0 <= j < i :: !Better(isBid, e.price, side[j].price)
    requires forall j | i <= j < |side| :: Better(isBid, e.price, side[j].price)
    ensures k == |Objs(side[..i])| <= |q|
    ensures Insert(q, e, isBid) == Put(q, e, k)
    ensures Objs(side) == Objs(side[..i]) + Objs(side[i..])
    ensures Totals(side[..i], q[..k]) && Totals(side[i..], q[k..])
  {
    hide Totals, Insert, Put, Better;
    k := SplitAt(side, i, q);
    PricesOf(side[..i], isBid, Objs(side[..i]));
    PricesOf(side[i..], isBid, Objs(side[i..]));
    forall j | 0 <= j < k ensures !Better(isBid, e.price, q[j].price) {
      var l :| 0 <= l < i && Objs(side[..i])[j].price == side[..i][l].price;
    }
    forall j | k <= j < |q| ensures Better(isBid, e.price, q[j].price) {
      var l :| 0 <= l < |side[i..]| && Objs(side[i..])[j - k].price == side[i..][l].price;
      assert side[i..][l] == side[i + l];
    }
    InsertIs(q, e, k, isBid);
  }

  lemma AppendLevel(levels: seq<Level>, level: Level, q: seq<Entry>)
    requires Totals(levels, q)
    ensures Objs([level]) == level.orders && Objs(levels + [level]) == Objs(levels) + level.orders
    ensures forall r: seq<Entry> :: |r| == |level.orders| && level.total == Volume(r) ==>
            Totals(levels + [level], q + r)
  {
    ObjsConcat(levels, [level]);
    TotalsLength(levels, q);
    forall r: seq<Entry> | |r| == |level.orders| && level.total == Volume(r) ensures Totals(levels + [level], q + r) {
      assert r[..|r|] == r && r[|r|..] == [];
      TotalsConcat(levels, [level], q, r);
    }
  }

  /** A level replaced or inserted between two parts of a side. */
  lemma Around(a: seq<Level>, level: Level, b: seq<Level>, q: seq<Entry>, r: seq<Entry>, s: seq<Entry>)
    requires Totals(a, q) && Totals(b, s) && |r| == |level.orders| && level.total == Volume(r)
    ensures Totals(a + [level] + b, q + r + s)
    ensures Objs(a + [level] + b) == Objs(a) + level.orders + Objs(b)
  {
    AppendLevel(a, level, q);
    TotalsLength(a + [level], q + r);
    TotalsConcat(a + [level], b, q + r, s);
    ObjsConcat(a + [level], b);
  }

  lemma {:induction false} VolumeConcat(q: seq<Entry>, r: seq<Entry>)
    ensures Volume(q + r) == Volume(q) + Volume(r)
  {
    if q == [] {
      assert q + r == r;
    } else {
      assert (q + r)[1..] == q[1..] + r;
      VolumeConcat(q[1..], r);
    }
  }

  /** A new level for an order of a price no level has. */
  lemma NewLevel(side: seq<Level>, i: nat, order: Order, isBid: bool, q: seq<Entry>, e: Entry) returns (k: nat)
    requires i <= |side| && SideOk(side, isBid, q)
    requires order.isBuy == isBid && e.price == order.price
    requires forall j | 0 <= j < i :: Better(isBid, side[j].price, e.price)
    requires forall j | i <= j < |side| :: Better(isBid, e.price, side[j].price)
    ensures var side' := side[..i] + [Level(order.price, [order], e.qty)] + side[i..];
            && k <= |q| && Insert(q, e, isBid) == Put(q, e, k)
            && Objs(side') == Objs(side)[..k] + [order] + Objs(side)[k..]
            && SideOk(side', isBid, Put(q, e, k))
  {
    hide Totals, Insert, Objs;
    k := PositionAt(side, i, isBid, q, e);
    assert Volume([e]) == e.qty by { assert [e][1..] == []; }
    Around(side[..i], Level(order.price, [order], e.qty), side[i..], q[..k], [e], q[k..]);
    PutPrices(Objs(side), q, order, e, k);
  }

  lemma PutPrices(os: seq<Order>, q: seq<Entry>, order: Order, e: Entry, k: nat)
    requires SamePrices(os, q) && k <= |q| && e.price == order.price
    ensures SamePrices(os[..k] + [order] + os[k..], Put(q, e, k))
  {
  }

  /** An order joining the level of its own price, behind its orders. */
  lemma OldLevel(side: seq<Level>, i: nat, order: Order, isBid: bool, q: seq<Entry>, e: Entry) returns (k: nat)
    requires i < |side| && SideOk(side, isBid, q)
    requires order.isBuy == isBid && e.price == order.price == side[i].price
    ensures var side' := side[i := Level(side[i].price, side[i].orders + [order], side[i].total + e.qty)];
            && k <= |q| && Insert(q, e, isBid) == Put(q, e, k)
            && Objs(side') == Objs(side)[..k] + [order] + Objs(side)[k..]
            && SideOk(side', isBid, Put(q, e, k))
  {
    hide Insert, Shape, Put, SamePrices;
    OldLevelShape(side, i, order, isBid, e.qty);
    k := PositionAt(side, i + 1, isBid, q, e);
    OldLevelTotals(side, i, order, q, e, k);
    PutPrices(Objs(side), q, order, e, k);
  }

  lemma OldLevelShape(side: seq<Level>, i: nat, order: Order, isBid: bool, more: real)
    requires i < |side| && Shape(side, isBid) && order.isBuy == isBid && order.price == side[i].price
    ensures Shape(side[i := Level(side[i].price, side[i].orders + [order], side[i].total + more)], isBid)
    ensures forall j | 0 <= j < i + 1 :: !Better(isBid, order.price, side[j].price)
    ensures forall j | i + 1 <= j < |side| :: Better(isBid, order.price, side[j].price)
  {
  }

  lemma OldLevelTotals(side: seq<Level>, i: nat, order: Order, q: seq<Entry>, e: Entry, k: nat)
    requires i < |side| && Totals(side, q) && k == |Objs(side[..i + 1])| <= |q| && Totals(side[..i + 1], q[..k])
    requires Totals(side[i + 1..], q[k..]) && Objs(side) == Objs(side[..i + 1]) + Objs(side[i + 1..])
    ensures var side' := side[i := Level(side[i].price, side[i].orders + [order], side[i].total + e.qty)];
            && |q| == |Objs(side)|
            && Objs(side') == Objs(side)[..k] + [order] + Objs(side)[k..]
            && Totals(side', Put(q, e, k))
  {
    hide Totals, Objs, Volume;
    var level := Level(side[i].price, side[i].orders + [order], side[i].total + e.qty);
    var n := SplitAt(side[..i + 1], i, q[..k]);
    assert side[..i + 1][..i] == side[..i] && side[..i + 1][i..] == [side[i]] && q[..k][..n] == q[..n];
    var r := q[..k][n..];
    OneLevel(side[i], r);
    VolumeConcat(r, [e]);
    VolumeOne(e);
    Around(side[..i], level, side[i + 1..], q[..n], r + [e], q[k..]);
    assert q[..n] + (r + [e]) + q[k..] == Put(q, e, k);
    assert side[i := level] == side[..i] + [level] + side[i + 1..];
    assert Objs(side)[..k] == Objs(side[..i + 1]) && Objs(side)[k..] == Objs(side[i + 1..]);
    TotalsLength(side, q);
  }

  lemma OneLevel(level: Level, r: seq<Entry>)
    requires Totals([level], r)
    ensures |r| == |level.orders| && level.total == Volume(r) && Objs([level]) == level.orders
  {
    assert r[..|r|] == r;
  }

  lemma VolumeOne(e: Entry)
    ensures Volume([e]) == e.qty
  {
  }

  lemma LevelsSorted(side: seq<Level>, isBid: bool, q: seq<Entry>)
    requires SideOk(side, isBid, q)
    ensures forall i, j | 0 <= i < j < |side| :: Better(isBid, side[i].price, side[j].price)
  {
  }

  lemma NoSuchLevel(side: seq<Level>, i: nat, price: real, isBid: bool, q: seq<Entry>)
    requires i <= |side| && SideOk(side, isBid, q) && (i == |side| || side[i].price != price)
    requires forall j | i <= j < |side| :: !Better(isBid, side[j].price, price)
    ensures forall j | i <= j < |side| :: Better(isBid, price, side[j].price)
  {
  }

  lemma {:induction false} SnapsConcat(a: seq<Order>, b: seq<Order>)
    ensures Snaps(a + b) == Snaps(a) + Snaps(b)
  {
    if a == [] {
      assert a + b == b;
    } else {
      assert (a + b)[1..] == a[1..] + b;
      SnapsConcat(a[1..], b);
    }
  }

  lemma SnapsPut(os: seq<Order>, order: Order, k: nat)
    requires k <= |os|
    ensures Snaps(os[..k] + [order] + os[k..]) == Put(Snaps(os), order.Snap(), k)
  {
    assert os == os[..k] + os[k..];
    SnapsConcat(os[..k], os[k..]);
    SnapsConcat(os[..k], [order]);
    SnapsConcat(os[..k] + [order], os[k..]);
    assert Snaps([order]) == [order.Snap()];
  }

  // -------------------------------------------------------------- removal

  /** The side without the j-th order of its i-th level; the level goes with its last order. */
  function CutSide(side: seq<Level>, i: nat, j: nat, qty: real): seq<Level>
    requires i < |side| && j < |side[i].orders|
  {
    if |side[i].orders| == 1 then side[..i] + side[i + 1..]
    else side[i := Level(side[i].price, side[i].orders[..j] + side[i].orders[j + 1..], side[i].total - qty)]
  }

  function Cut<T>(s: seq<T>, k: nat): seq<T>
    requires k < |s|
  {
    s[..k] + s[k + 1..]
  }

  lemma CutShape(side: seq<Level>, i: nat, j: nat, qty: real, isBid: bool)
    requires i < |side| && j < |side[i].orders| && Shape(side, isBid)
    ensures Shape(CutSide(side, i, j, qty), isBid)
  {
  }

  lemma {:induction false} CutVolume(q: seq<Entry>, j: nat)
    requires j < |q|
    ensures Volume(Cut(q, j)) == Volume(q) - q[j].qty
  {
    if j == 0 {
      assert Cut(q, 0) == q[1..];
    } else {
      CutVolume(q[1..], j - 1);
      assert Cut(q, j)[1..] == Cut(q[1..], j - 1);
    }
  }

  /** A side before, in and after its i-th level. */
  lemma SplitLevel(side: seq<Level>, i: nat, q: seq<Entry>) returns (n: nat)
    requires i < |side| && Totals(side, q)
    ensures var m := |side[i].orders|;
            && n == |Objs(side[..i])| && n + m <= |q| == |Objs(side)|
            && Totals(side[..i], q[..n]) && Totals(side[i + 1..], q[n + m..]) && side[i].total == Volume(q[n..n + m])
            && Objs(side) == Objs(side[..i]) + side[i].orders + Objs(side[i + 1..])
  {
    n := SplitAt(side, i, q);
    var m := |side[i].orders|;
    assert side[i..][1..] == side[i + 1..] && q[n..][..m] == q[n..n + m] && q[n..][m..] == q[n + m..];
  }

  /** Cutting out of a level is cutting out of the flat queue. */
  lemma CutFlat(side: seq<Level>, i: nat, j: nat, q: seq<Entry>, isBid: bool) returns (k: nat)
    requires i < |side| && j < |side[i].orders| && SideOk(side, isBid, q)
    ensures k < |q| == |Objs(side)| && Objs(side)[k] == side[i].orders[j]
    ensures Objs(CutSide(side, i, j, q[k].qty)) == Cut(Objs(side), k)
    ensures SideOk(CutSide(side, i, j, q[k].qty), isBid, Cut(q, k))
  {
    hide Shape, SamePrices, Totals, Objs, CutSide;
    var n := SplitLevel(side, i, q);
    k := n + j;
    CutShape(side, i, j, q[k].qty, isBid);
    CutPrices(Objs(side), q, k);
    CutPieces(Objs(side[..i]), side[i].orders, Objs(side[i + 1..]), j);
    if |side[i].orders| == 1 {
      CutWholeLevel(side, i, q, n);
    } else {
      CutInLevel(side, i, j, q, n);
    }
  }

  lemma CutWholeLevel(side: seq<Level>, i: nat, q: seq<Entry>, n: nat)
    requires i < |side| && |side[i].orders| == 1 && n == |Objs(side[..i])| < |q|
    requires Totals(side[..i], q[..n]) && Totals(side[i + 1..], q[n + 1..])
    ensures var r := CutSide(side, i, 0, q[n].qty);
            Totals(r, Cut(q, n)) && Objs(r) == Objs(side[..i]) + Cut(side[i].orders, 0) + Objs(side[i + 1..])
  {
    hide Totals, Objs;
    TotalsConcat(side[..i], side[i + 1..], q[..n], q[n + 1..]);
    ObjsConcat(side[..i], side[i + 1..]);
    assert Cut(side[i].orders, 0) == [];
    assert Objs(side[..i]) + [] == Objs(side[..i]);
  }

  lemma CutInLevel(side: seq<Level>, i: nat, j: nat, q: seq<Entry>, n: nat)
    requires i < |side| && j < |side[i].orders| && |side[i].orders| != 1
    requires n == |Objs(side[..i])| && n + |side[i].orders| <= |q|
             && side[i].total == Volume(q[n..n + |side[i].orders|])
    requires Totals(side[..i], q[..n]) && Totals(side[i + 1..], q[n + |side[i].orders|..])
    ensures var r := CutSide(side, i, j, q[n + j].qty);
            Totals(r, Cut(q, n + j)) && Objs(r) == Objs(side[..i]) + Cut(side[i].orders, j) + Objs(side[i + 1..])
  {
    hide Totals, Objs;
    var k, m := n + j, |side[i].orders|;
    var level := Level(side[i].price, Cut(side[i].orders, j), side[i].total - q[k].qty);
    CutVolume(q[n..n + m], j);
    Around(side[..i], level, side[i + 1..], q[..n], Cut(q[n..n + m], j), q[n + m..]);
    assert side[i := level] == side[..i] + [level] + side[i + 1..];
    assert q == q[..n] + q[n..n + m] + q[n + m..];
    CutPieces(q[..n], q[n..n + m], q[n + m..], j);
  }

  lemma CutPieces<T>(a: seq<T>, os: seq<T>, b: seq<T>, j: nat)
    requires j < |os|
    ensures Cut(a + os + b, |a| + j) == a + Cut(os, j) + b && (a + os + b)[|a| + j] == os[j]
  {
  }

  lemma CutPrices(os: seq<Order>, q: seq<Entry>, k: nat)
    requires SamePrices(os, q) && k < |q|
    ensures SamePrices(Cut(os, k), Cut(q, k))
  {
  }

  lemma {:induction false} RemoveIs(q: seq<Entry>, k: nat)
    requires Distinct(q) && k < |q|
    ensures Remove(q, q[k].id) == Cut(q, k)
  {
    if k == 0 {
    } else {
      RemoveIs(q[1..], k - 1);
      assert Cut(q, k) == [q[0]] + Cut(q[1..], k - 1);
    }
  }

  lemma {:induction false} SnapAt(os: seq<Order>, k: nat)
    requires k < |os|
    ensures Snaps(os)[k] == os[k].Snap()
  {
    if k == 0 {
    } else {
      SnapAt(os[1..], k - 1);
    }
  }

  lemma SnapsSlice(os: seq<Order>, k: nat)
    requires k <= |os|
    ensures Snaps(os[..k]) == Snaps(os)[..k] && Snaps(os[k..]) == Snaps(os)[k..]
  {
    assert os == os[..k] + os[k..];
    SnapsConcat(os[..k], os[k..]);
  }

  lemma SnapsCut(os: seq<Order>, k: nat)
    requires k < |os|
    ensures Snaps(Cut(os, k)) == Cut(Snaps(os), k)
  {
    SnapsSlice(os, k);
    SnapsSlice(os, k + 1);
    SnapsConcat(os[..k], os[k + 1..]);
  }

  lemma {:induction false} SameId(os: seq<Order>, k: nat, order: Order)
    requires Distinct(Snaps(os)) && k < |os| && order in os && os[k].id == order.id
    ensures os[k] == order
  {
    var l :| 0 <= l < |os| && os[l] == order;
    SnapAt(os, k);
    SnapAt(os, l);
  }

  lemma OtherPrice(side: seq<Level>, i: nat, isBid: bool, q: seq<Entry>, order: Order)
    requires i < |side| && SideOk(side, isBid, q) && side[i].price != order.price
    ensures order !in side[i].orders
  {
  }

  /** An order of the side is in one of its levels. */
  lemma {:induction false} Located(side: seq<Level>, order: Order)
    requires order in Objs(side)
    ensures exists a | 0 <= a < |side| :: order in side[a].orders
  {
    if order in side[0].orders {
    } else {
      Located(side[1..], order);
      var a :| 0 <= a < |side[1..]| && order in side[1..][a].orders;
      assert order in side[a + 1].orders;
    }
  }

  // --------------------------------------------------- index and sides

  /** The index holds exactly the orders of both sides, each under its own id. */
  ghost predicate Indexed(index: map<int, Order>, a: seq<Order>, b: seq<Order>) {
    && (forall o | o in a :: o.id in index && index[o.id] == o)
    && (forall o | o in b :: o.id in index && index[o.id] == o)
    && (forall id | id in index :: (index[id] in a || index[id] in b) && index[id].id == id)
  }

  lemma IndexSymmetric(index: map<int, Order>, a: seq<Order>, b: seq<Order>)
    requires Indexed(index, a, b)
    ensures Indexed(index, b, a)
  {
  }

  /** After the first n orders of b have gone. */
  lemma IndexEaten(index: map<int, Order>, a: seq<Order>, b: seq<Order>, n: nat)
    requires Indexed(index, a, b) && n <= |b| && NoDup(b) && (forall o | o in a :: o !in b)
    ensures Indexed(index - IdsOf(b[..n]), a, b[n..])
  {
  }

  lemma IndexAdded(index: map<int, Order>, a: seq<Order>, b: seq<Order>, order: Order, k: nat)
    requires Indexed(index, a, b) && k <= |a| && order.id !in index
    ensures Indexed(index[order.id := order], a[..k] + [order] + a[k..], b)
  {
  }

  lemma IndexCut(index: map<int, Order>, a: seq<Order>, b: seq<Order>, k: nat)
    requires Indexed(index, a, b) && k < |a| && NoDup(a) && a[k] !in b
    ensures Indexed(index - {a[k].id}, Cut(a, k), b)
  {
  }

  lemma DistinctObjects(os: seq<Order>)
    requires Distinct(Snaps(os))
    ensures NoDup(os)
  {
    forall i, j | 0 <= i < j < |os| ensures os[i] != os[j] {
      SnapAt(os, i);
      SnapAt(os, j);
    }
  }

  /** The two sides share no order. */
  lemma SidesApart(bids: seq<Level>, asks: seq<Level>, q: seq<Entry>, r: seq<Entry>)
    requires SideOk(bids, true, q) && SideOk(asks, false, r)
    ensures forall o | o in Objs(bids) :: o.isBuy && o !in Objs(asks)
    ensures forall o | o in Objs(asks) :: !o.isBuy && o !in Objs(bids)
  {
    PricesOf(bids, true, Objs(bids));
    PricesOf(asks, false, Objs(asks));
  }

  lemma FreshId(index: map<int, Order>, a: seq<Order>, b: seq<Order>, id: int)
    requires Indexed(index, a, b) && id !in index
    ensures Fresh(BookState(Snaps(a), Snaps(b)), id)
  {
    forall e | e in Snaps(a) ensures e.id != id {
      var k :| 0 <= k < |a| && Snaps(a)[k] == e;
      SnapAt(a, k);
      assert a[k] in a;
    }
    forall e | e in Snaps(b) ensures e.id != id {
      var k :| 0 <= k < |b| && Snaps(b)[k] == e;
      SnapAt(b, k);
      assert b[k] in b;
    }
  }

  ghost function OrdersIn(index: map<int, Order>): set<Order> {
    set id | id in index :: index[id]
  }

  ghost predicate SubIndex(a: map<int, Order>, b: map<int, Order>) {
    forall id | id in a :: id in b && a[id] == b[id]
  }

  /** Levels and index represent the flat book s, which keeps its invariant. */
  ghost predicate Consistent(bids: seq<Level>, asks: seq<Level>, index: map<int, Order>, s: BookState, now: int) {
    SideOk(bids, true, s.bids) && SideOk(asks, false, s.asks) && Indexed(index, Objs(bids), Objs(asks))
      && BookInv(s, now)
  }

  /** What matching an order that is not resting needs of its two sides. */
  lemma ReadyToMatch(bids: seq<Level>, asks: seq<Level>, index: map<int, Order>, s: BookState, now: int, order: Order)
    requires Consistent(bids, asks, index, s, now) && order.id !in index
    ensures order !in Objs(bids) && order !in Objs(asks)
    ensures (forall o | o in Objs(bids) :: o in OrdersIn(index)) && (forall o | o in Objs(asks) :: o in OrdersIn(index))
    ensures SideOk(bids, true, s.bids) && SideOk(asks, false, s.asks)
    ensures Positive(s.bids) && Positive(s.asks) && Distinct(s.bids) && Distinct(s.asks)
    ensures (forall o | o in Objs(bids) :: o !in Objs(asks)) && (forall o | o in Objs(asks) :: o !in Objs(bids))
  {
  }

  lemma AbsentId(bids: seq<Level>, asks: seq<Level>, index: map<int, Order>, s: BookState, now: int, id: int)
    requires Consistent(bids, asks, index, s, now) && id !in index
    requires s == BookState(Snaps(Objs(bids)), Snaps(Objs(asks)))
    ensures BookSpec.Cancel(s, id) == s
  {
    FreshId(index, Objs(bids), Objs(asks), id);
    RemoveAbsent(s.bids, id);
    RemoveAbsent(s.asks, id);
  }

  /** The book after `eaten` orders of the opposite side have gone. */
  lemma Matched(bids: seq<Level>, asks: seq<Level>, index: map<int, Order>, s: BookState, now: int,
                o: Incoming, rest: seq<Level>, eaten: nat)
    requires Consistent(bids, asks, index, s, now)
    requires var opposite := if o.isBuy then asks else bids;
             && eaten <= |Objs(opposite)| && Objs(rest) == Objs(opposite)[eaten..] && NoDup(Objs(opposite))
             && SideOk(rest, !o.isBuy, MatchOf(s, o).rest)
    ensures var opposite := if o.isBuy then asks else bids;
            Consistent(if o.isBuy then bids else rest, if o.isBuy then rest else asks,
                       index - IdsOf(Objs(opposite)[..eaten]), PlaceMarket(s, o), now)
  {
    hide SideOk, BookInv, Indexed, IdsOf, MatchOf;
    PlaceMarketKeepsInv(s, o, now);
    SidesApart(bids, asks, s.bids, s.asks);
    if o.isBuy {
      IndexEaten(index, Objs(bids), Objs(asks), eaten);
    } else {
      IndexSymmetric(index, Objs(bids), Objs(asks));
      IndexEaten(index, Objs(asks), Objs(bids), eaten);
      IndexSymmetric(index - IdsOf(Objs(bids)[..eaten]), Objs(asks), Objs(rest));
    }
  }

  /** Resting an order that is not in the book, at position k of its own side. */
  lemma Rested(bids: seq<Level>, asks: seq<Level>, index: map<int, Order>, s: BookState, now: int,
               order: Order, side: seq<Level>, q: seq<Entry>, k: nat)
    requires Consistent(bids, asks, index, s, now) && order.id !in index
    requires var own := if order.isBuy then bids else asks;
             && k <= |Objs(own)| && Objs(side) == Objs(own)[..k] + [order] + Objs(own)[k..]
             && SideOk(side, order.isBuy, q)
    requires BookInv(Sides(order.isBuy, q, Opposite(s, order.isBuy)), now + 1)
    ensures Consistent(if order.isBuy then side else bids, if order.isBuy then asks else side, index[order.id := order],
                       Sides(order.isBuy, q, Opposite(s, order.isBuy)), now + 1)
  {
    hide SideOk, BookInv, Indexed;
    if order.isBuy {
      IndexAdded(index, Objs(bids), Objs(asks), order, k);
    } else {
      IndexSymmetric(index, Objs(bids), Objs(asks));
      IndexAdded(index, Objs(asks), Objs(bids), order, k);
      IndexSymmetric(index[order.id := order], Objs(side), Objs(bids));
    }
  }

  lemma IdOfSnap(os: seq<Order>, order: Order)
    requires order in os
    ensures order.id in Ids(Snaps(os))
  {
  }

  /** A resting order is on the side its direction says, and cancelling looks at no other. */
  lemma ReadyToCancel(bids: seq<Level>, asks: seq<Level>, index: map<int, Order>, s: BookState, now: int, id: int)
    requires Consistent(bids, asks, index, s, now) && id in index
    requires s == BookState(Snaps(Objs(bids)), Snaps(Objs(asks)))
    ensures var order := index[id];
            && order.id == id
            && order in Objs(if order.isBuy then bids else asks)
            && SideOk(if order.isBuy then bids else asks, order.isBuy, Own(s, order.isBuy))
               && Distinct(Own(s, order.isBuy))
            && BookSpec.Cancel(s, id) == Sides(order.isBuy, Remove(Own(s, order.isBuy), id), Opposite(s, order.isBuy))
    ensures (forall o | o in Objs(bids) :: o in OrdersIn(index)) && (forall o | o in Objs(asks) :: o in OrdersIn(index))
    ensures (forall o | o in Objs(bids) :: o !in Objs(asks)) && (forall o | o in Objs(asks) :: o !in Objs(bids))
  {
    hide SideOk;
    var order := index[id];
    SidesApart(bids, asks, s.bids, s.asks);
    IdOfSnap(if order.isBuy then Objs(bids) else Objs(asks), order);
    RemoveAbsent(Opposite(s, order.isBuy), id);
  }

  /** The book without the k-th order of one of its sides. */
  lemma Cancelled(bids: seq<Level>, asks: seq<Level>, index: map<int, Order>, s: BookState, now: int,
                  order: Order, side: seq<Level>, q: seq<Entry>, k: nat)
    requires Consistent(bids, asks, index, s, now)
    requires var own, other := if order.isBuy then bids else asks, if order.isBuy then asks else bids;
             && k < |Objs(own)| && Objs(own)[k] == order && Objs(side) == Cut(Objs(own), k)
             && SideOk(side, order.isBuy, q) && NoDup(Objs(own)) && order !in Objs(other)
    requires BookSpec.Cancel(s, order.id) == Sides(order.isBuy, q, Opposite(s, order.isBuy))
    ensures Consistent(if order.isBuy then side else bids, if order.isBuy then asks else side, index - {order.id},
                       BookSpec.Cancel(s, order.id), now)
  {
    hide SideOk, BookInv, Indexed, Cut;
    CancelKeepsInv(s, order.id, now);
    if order.isBuy {
      IndexCut(index, Objs(bids), Objs(asks), k);
    } else {
      IndexSymmetric(index, Objs(bids), Objs(asks));
      IndexCut(index, Objs(asks), Objs(bids), k);
      IndexSymmetric(index - {order.id}, Objs(side), Objs(bids));
    }
  }

  /** An entry resting on its own side. */
  function WithResting(s: BookState, e: Entry, isBuy: bool): BookState {
    Sides(isBuy, Insert(Own(s, isBuy), e, isBuy), Opposite(s, isBuy))
  }

  /** A limit order is a market order whose rest, if any, then rests. */
  lemma BothPlacementsKeepInv(s: BookState, o: Incoming, now: int)
    requires BookInv(s, now) && Fresh(s, o.id)
    ensures var left, matched := MatchOf(s, o).left, PlaceMarket(s, o);
            && PlaceLimit(s, o, now) == (if left <= 0.0 then matched else
                                           WithResting(matched, Entry(o.id, o.user, o.price, left, now), o.isBuy))
            && BookInv(PlaceLimit(s, o, now), now + 1)
  {
    PlaceLimitKeepsInv(s, o, now);
  }

  lemma Aged(bids: seq<Level>, asks: seq<Level>, index: map<int, Order>, s: BookState, now: int)
    requires Consistent(bids, asks, index, s, now)
    ensures Consistent(bids, asks, index, s, now + 1)
  {
  }

  lemma ConsistentParts(bids: seq<Level>, asks: seq<Level>, index: map<int, Order>, s: BookState, now: int, id: int)
    requires Consistent(bids, asks, index, s, now) && id !in index
    requires s == BookState(Snaps(Objs(bids)), Snaps(Objs(asks)))
    ensures BookInv(s, now) && Fresh(s, id)
  {
    FreshId(index, Objs(bids), Objs(asks), id);
  }

  // -------------------------------------------------------------- queries

  /** The quantity resting at exactly price p. */
  ghost function VolumeAt(q: seq<Entry>, p: real): real {
    if q == [] then 0.0 else (if q[0].price == p then q[0].qty else 0.0) + VolumeAt(q[1..], p)
  }

  lemma {:induction false} VolumeAtConcat(q: seq<Entry>, r: seq<Entry>, p: real)
    ensures VolumeAt(q + r, p) == VolumeAt(q, p) + VolumeAt(r, p)
  {
    if q == [] {
      assert q + r == r;
    } else {
      assert (q + r)[1..] == q[1..] + r;
      VolumeAtConcat(q[1..], r, p);
    }
  }

  lemma {:induction false} VolumeAtOnePrice(q: seq<Entry>, p: real)
    ensures (forall i | 0 <= i < |q| :: q[i].price == p) ==> VolumeAt(q, p) == Volume(q)
    ensures (forall i | 0 <= i < |q| :: q[i].price != p) ==> VolumeAt(q, p) == 0.0
  {
    if q == [] {
    } else {
      VolumeAtOnePrice(q[1..], p);
    }
  }

  /** The cached total of a level is the quantity resting at its price anywhere in the queue. */
  lemma LevelTotal(side: seq<Level>, isBid: bool, q: seq<Entry>, i: nat)
    requires i < |side| && SideOk(side, isBid, q)
    ensures side[i].total == VolumeAt(q, side[i].price)
  {
    hide Totals, SamePrices, Objs, Volume, VolumeAt;
    var p, m := side[i].price, |side[i].orders|;
    var n := SplitLevel(side, i, q);
    ThreeParts(q, Objs(side), Objs(side[..i]), side[i].orders, Objs(side[i + 1..]));
    assert q == q[..n] + q[n..n + m] + q[n + m..];
    VolumeAtConcat(q[..n] + q[n..n + m], q[n + m..], p);
    VolumeAtConcat(q[..n], q[n..n + m], p);
    OtherLevels(side[..i], isBid, q[..n], p);
    OwnLevel(side[i], isBid, q[n..n + m]);
    OtherLevels(side[i + 1..], isBid, q[n + m..], p);
  }

  lemma OtherLevels(levels: seq<Level>, isBid: bool, q: seq<Entry>, p: real)
    requires forall l | 0 <= l < |levels| :: LevelShape(levels[l], isBid) && levels[l].price != p
    requires SamePrices(Objs(levels), q)
    ensures VolumeAt(q, p) == 0.0
  {
  }

  lemma OwnLevel(level: Level, isBid: bool, q: seq<Entry>)
    requires LevelShape(level, isBid) && SamePrices(level.orders, q)
    ensures VolumeAt(q, level.price) == Volume(q)
  {
    VolumeAtOnePrice(q, level.price);
  }

  lemma ThreeParts(q: seq<Entry>, os: seq<Order>, a: seq<Order>, b: seq<Order>, c: seq<Order>)
    requires SamePrices(os, q) && os == a + b + c
    ensures SamePrices(a, q[..|a|]) && SamePrices(b, q[|a|..|a| + |b|]) && SamePrices(c, q[|a| + |b|..])
  {
  }

  /** The first level is where the queue begins. */
  lemma BestLevel(side: seq<Level>, isBid: bool, q: seq<Entry>)
    requires SideOk(side, isBid, q)
    ensures (side == []) == (q == [])
    ensures side != [] ==> side[0].price == q[0].price && side[0].total == VolumeAt(q, q[0].price)
  {
    if side != [] {
      OpenSide(side, isBid, q);
      LevelTotal(side, isBid, q, 0);
      assert Objs(side)[0] == side[0].orders[0] && side[0].orders[0] in side[0].orders;
    } else {
      NoLevels();
    }
  }

  /** What a book may change belongs to its index. */
  lemma RestingIsIndexed(bids: seq<Level>, asks: seq<Level>, index: map<int, Order>, s: BookState, now: int)
    requires Consistent(bids, asks, index, s, now)
    ensures (forall o | o in Objs(bids) :: o in OrdersIn(index)) && (forall o | o in Objs(asks) :: o in OrdersIn(index))
    ensures BookInv(s, now)
  {
  }

  class Book {
    /** Best level first. */
    var bids: seq<Level>
    var asks: seq<Level>
    /** Order id to resting order. */
    var orderIndex: map<int, Order>
    var nextId: int
    /** Stands for the wall clock that stamps arrivals: every operation takes place later than the
        one before. */
    var clock: int

    ghost function State(): BookState
      reads this, Objs(bids), Objs(asks)
    {
      BookState(Snaps(Objs(bids)), Snaps(Objs(asks)))
    }

    ghost predicate Valid()
      reads this, Objs(bids), Objs(asks)
    {
      Consistent(bids, asks, orderIndex, State(), clock)
    }

    constructor ()
      ensures Valid() && State() == BookState([], []) && orderIndex == map[]
    {
      bids, asks, orderIndex, nextId, clock := [], [], map[], 1, 0;
    }

    method NextOrderId() returns (id: int)
      modifies `nextId
      ensures id == nextId == old(nextId) + 1
    {
      nextId := nextId + 1;
      id := nextId;
    }

    /** One fill between the taker and the oldest order of the best level. */
    static method FillFront(taker: Order, maker: Order, isBuyer: bool, ghost os: seq<Order>)
      returns (trade: Trade, fillQty: real)
      requires os != [] && os[0] == maker && NoDup(os) && taker !in os && taker.isBuy == isBuyer
      modifies taker`quantity, maker`quantity
      ensures fillQty == old(Min(taker.quantity, maker.quantity))
      ensures trade == TradeOf(old(taker.AsIncoming()), old(PriceTime.Fill(maker.Snap(), fillQty)))
      ensures taker.quantity == old(taker.quantity) - fillQty
      ensures maker.quantity == old(maker.quantity) - fillQty
      ensures Snaps(if maker.quantity == 0.0 then os[1..] else os) == AfterFill(old(Snaps(os)), fillQty)
    {
      fillQty := Min(taker.quantity, maker.quantity);
      trade := if isBuyer then Trade(taker.id, maker.id, taker.userId, maker.userId, maker.price, fillQty)
               else Trade(maker.id, taker.id, maker.userId, taker.userId, maker.price, fillQty);
      taker.quantity := taker.quantity - fillQty;
      maker.quantity := maker.quantity - fillQty;
    }

    /** The inner matching loop: eats one level, oldest order first, until it or the taker is
        exhausted.  The ghost parameters describe the match this level is a part of. */
    method EatLevel(level: Level, taker: Order, isBuyer: bool, trades0: seq<Trade>, ghost tail: seq<Level>,
                    ghost o: Incoming, ghost whole: Match, ghost all: seq<Order>, ghost n0: nat, ghost os0: seq<Order>,
                    ghost index0: map<int, Order>)
      returns (best: Level, trades: seq<Trade>, ghost n: nat, ghost os: seq<Order>)
      requires taker !in all && taker.isBuy == isBuyer && o == taker.AsIncoming().(qty := o.qty)
      requires Remaining(all, n0, os0, index0, orderIndex)
      requires Matching(o, whole, trades0, taker.quantity, level, tail, os0, Snaps(os0))
      requires level.orders != [] && taker.quantity > 0.0
      modifies `orderIndex, taker`quantity, set x | x in all :: x`quantity
      ensures Remaining(all, n, os, index0, orderIndex)
      ensures Matching(o, whole, trades, taker.quantity, best, tail, os, Snaps(os))
      ensures best.orders == [] || taker.quantity <= 0.0
      ensures |os| < |os0| || (|os| == |os0| && taker.quantity <= 0.0)
    {
      hide Matching, Remaining, AfterFill, Positive, NoDup, Greedy, Snaps, Objs;
      best, trades, n, os := level, trades0, n0, os0;
      while |best.orders| > 0 && taker.quantity > 0.0
        invariant Remaining(all, n, os, index0, orderIndex)
        invariant Matching(o, whole, trades, taker.quantity, best, tail, os, Snaps(os))
        invariant |os| < |os0| || (|os| == |os0| && (taker.quantity <= 0.0 || best.orders != []))
        decreases |best.orders|, taker.quantity > 0.0
      {
        var maker := best.orders[0];
        ghost var q, was, os1, trades1, qty1 := Snaps(os), best, os, trades, taker.quantity;
        FrontOfLevel(o, whole, trades, taker.quantity, best, tail, os, q);
        OneMoreEaten(all, n, os, index0, orderIndex);
        SnapAt(os, 0);
        var trade, fillQty := FillFront(taker, maker, isBuyer, os);
        trades := trades + [trade];
        best := best.(total := best.total - fillQty);
        if maker.quantity == 0.0 {
          best := best.(orders := best.orders[1..]);
          orderIndex := orderIndex - {maker.id};
          n, os := n + 1, os[1..];
        }
        MatchingStep(o, whole, trades1, qty1, was, tail, os1, q, best);
      }
    }

    /** Matches `taker` against the front of one side, best level first. */
    method MatchAgainst(opposite: seq<Level>, taker: Order, isBuyer: bool)
      returns (trades: seq<Trade>, rest: seq<Level>, ghost eaten: nat)
      requires SideOk(opposite, !isBuyer, Snaps(Objs(opposite))) && NoDup(Objs(opposite))
      requires Positive(Snaps(Objs(opposite)))
      requires taker.isBuy == isBuyer && taker !in Objs(opposite)
      modifies `orderIndex, taker`quantity, set o | o in Objs(opposite) :: o`quantity
      ensures var o := old(taker.AsIncoming());
              var m := Greedy(old(Snaps(Objs(opposite))), isBuyer, o.price, o.qty);
              trades == TradesOf(o, m.fills) && Snaps(Objs(rest)) == m.rest && taker.quantity == m.left
      ensures eaten <= |Objs(opposite)| && Objs(rest) == Objs(opposite)[eaten..]
      ensures SideOk(rest, !isBuyer, Snaps(Objs(rest)))
      ensures orderIndex == old(orderIndex) - IdsOf(Objs(opposite)[..eaten])
    {
      hide Greedy, SideOk, TradesOf, SoFar, Remaining, Matching, Positive, NoDup, IdsOf;
      ghost var o, all := taker.AsIncoming(), Objs(opposite);
      ghost var whole, os := Greedy(Snaps(all), isBuyer, o.price, o.qty), all;
      trades, rest, eaten := [], opposite, 0;
      MatchBegins(o, whole);
      NothingEaten(all, orderIndex);
      while |rest| > 0 && taker.quantity > 0.0
        invariant Remaining(all, eaten, os, old(orderIndex), orderIndex) && Objs(rest) == os
        invariant SideOk(rest, !isBuyer, Snaps(os)) && Positive(Snaps(os))
        invariant SoFar(o, whole, trades, Greedy(Snaps(os), isBuyer, o.price, taker.quantity))
        decreases |os|, taker.quantity > 0.0
      {
        MatchingOpens(o, whole, trades, taker.quantity, rest, os, Snaps(os));
        var best, tail := rest[0], rest[1..];
        if isBuyer && taker.price > 0.0 && best.price > taker.price {
          break;
        }
        if !isBuyer && taker.price > 0.0 && best.price < taker.price {
          break;
        }
        best, trades, eaten, os := EatLevel(best, taker, isBuyer, trades, tail, o, whole, all, eaten, os,
                                            old(orderIndex));
        MatchingCloses(o, whole, trades, taker.quantity, best, tail, os, Snaps(os));
        rest := if |best.orders| == 0 then tail else [best] + tail;
      }
      NoLevels();
      MatchEnds(o, whole, trades, Snaps(os), taker.quantity);
      AllRemaining(all, eaten, os, old(orderIndex), orderIndex);
    }

    /** Binary search for the first level that is not better than the price. */
    static method Search(side: seq<Level>, price: real, descending: bool) returns (idx: nat)
      requires forall i, j | 0 <= i < j < |side| :: Better(descending, side[i].price, side[j].price)
      ensures idx <= |side|
      ensures forall i | 0 <= i < idx :: Better(descending, side[i].price, price)
      ensures forall i | idx <= i < |side| :: !Better(descending, side[i].price, price)
    {
      var hi := |side|;
      idx := 0;
      while idx < hi
        invariant 0 <= idx <= hi <= |side|
        invariant forall i | 0 <= i < idx :: Better(descending, side[i].price, price)
        invariant forall i | hi <= i < |side| :: !Better(descending, side[i].price, price)
      {
        var mid := (idx + hi) / 2;
        if (if descending then side[mid].price <= price else side[mid].price >= price) {
          hi := mid;
        } else {
          idx := mid + 1;
        }
      }
    }

    /** Queues the order at its price level, or at a new one in its place. */
    static method InsertIntoSide(side: seq<Level>, order: Order, descending: bool)
      returns (side': seq<Level>, ghost k: nat)
      requires SideOk(side, descending, Snaps(Objs(side))) && order.isBuy == descending
      ensures k <= |Objs(side)| && Objs(side') == Objs(side)[..k] + [order] + Objs(side)[k..]
      ensures Snaps(Objs(side')) == Insert(Snaps(Objs(side)), order.Snap(), descending)
      ensures SideOk(side', descending, Snaps(Objs(side')))
    {
      hide SideOk, Put, Better;
      LevelsSorted(side, descending, Snaps(Objs(side)));
      var idx := Search(side, order.price, descending);
      ghost var q, e := Snaps(Objs(side)), order.Snap();
      if idx < |side| && side[idx].price == order.price {
        var level := side[idx];
        side' := side[idx := Level(level.price, level.orders + [order], level.total + order.quantity)];
        k := OldLevel(side, idx, order, descending, q, e);
      } else {
        NoSuchLevel(side, idx, order.price, descending, q);
        side' := side[..idx] + [Level(order.price, [order], order.quantity)] + side[idx..];
        k := NewLevel(side, idx, order, descending, q, e);
      }
      SnapsPut(Objs(side), order, k);
    }

    /** Takes a resting order out of its side: finds its level by price, then the order by id. */
    static method RemoveFromSide(side: seq<Level>, order: Order, isBid: bool) returns (side': seq<Level>, ghost k: nat)
      requires SideOk(side, isBid, Snaps(Objs(side))) && Distinct(Snaps(Objs(side))) && order in Objs(side)
      ensures k < |Objs(side)| && Objs(side)[k] == order && Objs(side') == Cut(Objs(side), k)
      ensures SideOk(side', isBid, Snaps(Objs(side')))
      ensures Snaps(Objs(side')) == Remove(Snaps(Objs(side)), order.id)
    {
      hide SideOk, CutSide, Distinct;
      ghost var os, q := Objs(side), Snaps(Objs(side));
      for i := 0 to |side|
        invariant forall a, b | 0 <= a < i && 0 <= b < |side[a].orders| :: side[a].orders[b] != order
      {
        if side[i].price == order.price {
          for j := 0 to |side[i].orders|
            invariant forall b | 0 <= b < j :: side[i].orders[b] != order
          {
            if side[i].orders[j].id == order.id {
              k := CutFlat(side, i, j, q, isBid);
              SameId(os, k, order);
              side' := CutSide(side, i, j, order.quantity);
              SnapAt(os, k);
              SnapsCut(os, k);
              RemoveIs(q, k);
              return;
            }
          }
        } else {
          OtherPrice(side, i, isBid, q, order);
        }
      }
      Located(side, order);
    }

    /** Matches an order against the opposite side. */
    method MatchOrder(order: Order) returns (trades: seq<Trade>)
      requires Valid() && order.id !in orderIndex
      modifies `bids, `asks, `orderIndex, order`quantity
      modifies set x | x in Objs(bids) :: x`quantity, set x | x in Objs(asks) :: x`quantity
      ensures Valid() && order.id !in orderIndex
      ensures State() == BookSpec.PlaceMarket(old(State()), old(order.AsIncoming()))
      ensures var m := MatchOf(old(State()), old(order.AsIncoming()));
              trades == TradesOf(old(order.AsIncoming()), m.fills) && order.quantity == m.left
      ensures SubIndex(orderIndex, old(orderIndex))
    {
      hide Consistent, SideOk, Greedy, IdsOf, Distinct, Positive, NoDup, Snaps, Objs, TradesOf;
      ghost var s, o := State(), order.AsIncoming();
      ReadyToMatch(bids, asks, orderIndex, s, clock, order);
      var opposite := if order.isBuy then asks else bids;
      ghost var own := if order.isBuy then bids else asks;
      assert forall x | x in Objs(own) :: x !in Objs(opposite) && x != order;
      ghost var before := Snaps(Objs(own));
      DistinctObjects(Objs(opposite));
      ghost var eaten: nat;
      var rest;
      trades, rest, eaten := MatchAgainst(opposite, order, order.isBuy);
      assert Snaps(Objs(own)) == before;
      Matched(bids, asks, old(orderIndex), s, clock, o, rest, eaten);
      if order.isBuy {
        asks := rest;
      } else {
        bids := rest;
      }
    }

    /** Puts an order on its own side and into the index. */
    method InsertOrder(order: Order)
      requires Valid() && order.id !in orderIndex
      requires BookInv(WithResting(State(), order.Snap(), order.isBuy), clock + 1)
      modifies `bids, `asks, `orderIndex
      ensures Consistent(bids, asks, orderIndex, State(), clock + 1)
      ensures State() == WithResting(old(State()), order.Snap(), order.isBuy)
      ensures orderIndex == old(orderIndex)[order.id := order]
    {
      hide Consistent, SideOk, BookInv, Positive, Distinct, Snaps, Objs;
      ghost var s := State();
      ReadyToMatch(bids, asks, orderIndex, s, clock, order);
      assert (forall x | x in Objs(bids) :: allocated(x)) && (forall x | x in Objs(asks) :: allocated(x));
      orderIndex := orderIndex[order.id := order];
      var own := if order.isBuy then bids else asks;
      ghost var other := if order.isBuy then asks else bids;
      label before:
      var side, k := InsertIntoSide(own, order, order.isBuy);
      assert Snaps(Objs(own)) == old@before(Snaps(Objs(own)));
      assert Snaps(Objs(other)) == old@before(Snaps(Objs(other)));
      assert State() == s;
      Rested(bids, asks, old(orderIndex), s, clock, order, side, Snaps(Objs(side)), k);
      if order.isBuy {
        bids := side;
      } else {
        asks := side;
      }
    }

    /** Matches, then rests what is left; the caller's order object goes into the book. */
    method PlaceLimit(order: Order) returns (trades: seq<Trade>, remaining: Order?)
      requires Valid() && order.id !in orderIndex
      modifies this, order, set x | x in Objs(bids) :: x`quantity, set x | x in Objs(asks) :: x`quantity
      ensures Valid() && clock == old(clock) + 1 && nextId == old(nextId)
      ensures State() == BookSpec.PlaceLimit(old(State()), old(order.AsIncoming()), old(clock))
      ensures var m := MatchOf(old(State()), old(order.AsIncoming()));
              && trades == TradesOf(old(order.AsIncoming()), m.fills)
              && order.quantity == m.left
              && remaining == if m.left > 0.0 then order else null
      ensures forall id | id in orderIndex ::
                || (id in old(orderIndex) && orderIndex[id] == old(orderIndex)[id])
                || (remaining == order && id == order.id && orderIndex[id] == order)
    {
      hide Consistent, BookInv, Fresh, TradesOf, WithResting, MatchOf, SideOk, Positive, Distinct, Snaps, Objs;
      ghost var s, o := State(), order.AsIncoming();
      ReadyToMatch(bids, asks, orderIndex, s, clock, order);
      ConsistentParts(bids, asks, orderIndex, s, clock, order.id);
      BothPlacementsKeepInv(s, o, clock);
      order.isMaker := false;
      order.timestamp := clock;
      assert State() == s;
      trades := MatchOrder(order);
      remaining := null;
      if order.quantity > 0.0 {
        ghost var matched := State();
        ReadyToMatch(bids, asks, orderIndex, matched, clock, order);
        order.isMaker := true;
        assert State() == matched;
        InsertOrder(order);
        remaining := order;
      } else {
        Aged(bids, asks, orderIndex, State(), clock);
      }
      clock := clock + 1;
    }

    /** Matches only; refuses an order that carries a limit. */
    method PlaceMarket(order: Order) returns (trades: Option<seq<Trade>>)
      requires Valid() && order.id !in orderIndex
      modifies this, order, set x | x in Objs(bids) :: x`quantity, set x | x in Objs(asks) :: x`quantity
      ensures Valid() && nextId == old(nextId)
      ensures trades.None? <==> order.price > 0.0
      ensures SubIndex(orderIndex, old(orderIndex))
      ensures trades.None? ==> State() == old(State()) && order.quantity == old(order.quantity) && clock == old(clock)
      ensures trades.Some? ==>
                var m := MatchOf(old(State()), old(order.AsIncoming()));
                && State() == BookSpec.PlaceMarket(old(State()), old(order.AsIncoming())) && clock == old(clock) + 1
                && trades.value == TradesOf(old(order.AsIncoming()), m.fills) && order.quantity == m.left
    {
      hide Consistent, TradesOf, MatchOf, Snaps, Objs;
      if order.price > 0.0 {
        return None;
      }
      ghost var s := State();
      ReadyToMatch(bids, asks, orderIndex, s, clock, order);
      order.isMaker := false;
      order.timestamp := clock;
      assert State() == s;
      var fills := MatchOrder(order);
      Aged(bids, asks, orderIndex, State(), clock);
      clock := clock + 1;
      trades := Some(fills);
    }

    /** Takes an order out of the book, or answers null when it is not resting. */
    method Cancel(orderId: int) returns (order: Order?)
      requires Valid()
      modifies `bids, `asks, `orderIndex
      ensures Valid()
      ensures State() == BookSpec.Cancel(old(State()), orderId)
      ensures order == if orderId in old(orderIndex) then old(orderIndex[orderId]) else null
      ensures orderIndex == old(orderIndex) - {orderId}
    {
      hide Consistent, SideOk, BookInv, Indexed, Distinct, Snaps, Objs, Cut;
      ghost var s := State();
      if orderId !in orderIndex {
        AbsentId(bids, asks, orderIndex, s, clock, orderId);
        return null;
      }
      order := orderIndex[orderId];
      ReadyToCancel(bids, asks, orderIndex, s, clock, orderId);
      assert (forall x | x in Objs(bids) :: allocated(x)) && (forall x | x in Objs(asks) :: allocated(x));
      orderIndex := orderIndex - {orderId};
      var own := if order.isBuy then bids else asks;
      ghost var other := if order.isBuy then asks else bids;
      DistinctObjects(Objs(own));
      label before:
      var side, k := RemoveFromSide(own, order, order.isBuy);
      assert Snaps(Objs(own)) == old@before(Snaps(Objs(own)));
      assert Snaps(Objs(other)) == old@before(Snaps(Objs(other)));
      Cancelled(bids, asks, old(orderIndex), s, clock, order, side, Snaps(Objs(side)), k);
      if order.isBuy {
        bids := side;
      } else {
        asks := side;
      }
    }

    /** Highest bid and all that rests at it, zeros when there is none. */
    method BestBid() returns (price: real, total: real)
      requires Valid()
      ensures var q := State().bids;
              if q == [] then price == 0.0 && total == 0.0 else price == q[0].price && total == VolumeAt(q, q[0].price)
    {
      BestLevel(bids, true, State().bids);
      if |bids| == 0 {
        return 0.0, 0.0;
      }
      return bids[0].price, bids[0].total;
    }

    /** Lowest ask and all that rests at it, zeros when there is none. */
    method BestAsk() returns (price: real, total: real)
      requires Valid()
      ensures var q := State().asks;
              if q == [] then price == 0.0 && total == 0.0 else price == q[0].price && total == VolumeAt(q, q[0].price)
    {
      BestLevel(asks, false, State().asks);
      if |asks| == 0 {
        return 0.0, 0.0;
      }
      return asks[0].price, asks[0].total;
    }
  }

  twostate lemma {:induction false} SnapsFramed(os: seq<Order>)
    requires forall o | o in os :: unchanged(o)
    ensures Snaps(os) == old(Snaps(os))
  {
    if os != [] {
      assert os[0] in os && forall o | o in os[1..] :: o in os;
      SnapsFramed(os[1..]);
    }
  }

  /** A book whose fields and orders were left alone is the book it was. */
  twostate lemma BookFramed(book: Book)
    requires old(book.Valid())
    requires book.bids == old(book.bids) && book.asks == old(book.asks) && book.orderIndex == old(book.orderIndex)
    requires book.clock == old(book.clock) && forall o | o in old(OrdersIn(book.orderIndex)) :: unchanged(o)
    ensures book.Valid() && book.State() == old(book.State())
  {
    hide Consistent;
    RestingIsIndexed(book.bids, book.asks, old(book.orderIndex), old(book.State()), old(book.clock));
    assert forall o | o in Objs(book.bids) :: old(allocated(o)) && unchanged(o);
    assert forall o | o in Objs(book.asks) :: old(allocated(o)) && unchanged(o);
    SnapsFramed(Objs(book.bids));
    SnapsFramed(Objs(book.asks));
  }
}
