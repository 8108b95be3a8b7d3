/** The book against the ledger: every order of a registered user that rests in the book is pending
    under its id, and the money for it is frozen. */
module Backing {
  import opened PriceTime
  import opened BookSpec
  import opened Sums
  import opened Clearance
  import opened Ledger
  import opened WriteBehind
  import OrderBook

  type Orders = map<int, Pending>

  /** A pending order's margin, at its leverage, is worth its whole quantity at its price. */
  ghost predicate Sized(o: Pending) {
    o.qty > 0.0 && o.price >= 0.0 && o.price * o.qty == o.marginCost * o.leverage as real
  }

  /** What rests is at most what is pending: same owner, same side, same price. */
  predicate IsPending(e: Entry, orders: Orders, side: int) {
    && e.id in orders && orders[e.id].user == e.user && orders[e.id].side == side
    && orders[e.id].price == e.price && e.qty <= orders[e.id].qty
  }

  /** System users' orders have no records. */
  ghost predicate BackedSide(q: seq<Entry>, orders: Orders, side: int) {
    forall e | e in q && e.user > 0 :: IsPending(e, orders, side)
  }

  ghost predicate Backed(b: BookState, orders: Orders) {
    && BackedSide(b.bids, orders, 1) && BackedSide(b.asks, orders, -1)
    && forall id | id in orders :: Sized(orders[id])
  }

  lemma NothingToBack()
    ensures Backed(BookState([], []), map[])
  {
  }

  // -------------------------------------------------- what the book does

  lemma {:induction false} EatingKeepsBacked(q: seq<Entry>, isBuyer: bool, limit: real, qty: real,
                                             orders: Orders, side: int)
    requires BackedSide(q, orders, side)
    ensures BackedSide(Greedy(q, isBuyer, limit, qty).rest, orders, side)
  {
    hide IsPending;
    if q == [] || qty <= 0.0 || !Reaches(isBuyer, limit, q[0].price) {
    } else {
      assert q[0] in q && forall e | e in q[1..] :: e in q;
      if qty < q[0].qty {
        LessIsPending(q[0], q[0].qty - qty, orders, side);
      } else {
        EatingKeepsBacked(q[1..], isBuyer, limit, qty - q[0].qty, orders, side);
      }
    }
  }

  lemma LessIsPending(e: Entry, qty: real, orders: Orders, side: int)
    requires qty <= e.qty
    ensures IsPending(e, orders, side) ==> IsPending(e.(qty := qty), orders, side)
  {
  }

  lemma {:induction false} InsertKeepsBacked(q: seq<Entry>, e: Entry, isBid: bool, orders: Orders, side: int)
    requires BackedSide(q, orders, side) && (e.user > 0 ==> IsPending(e, orders, side))
    ensures BackedSide(Insert(q, e, isBid), orders, side)
  {
    hide IsPending;
    if q == [] || Better(isBid, e.price, q[0].price) {
    } else {
      assert q[0] in q && forall x | x in q[1..] :: x in q;
      InsertKeepsBacked(q[1..], e, isBid, orders, side);
    }
  }

  lemma {:induction false} RemoveKeepsBacked(q: seq<Entry>, id: int, orders: Orders, side: int)
    requires BackedSide(q, orders, side)
    ensures BackedSide(Remove(q, id), orders, side)
  {
    hide IsPending;
    if q == [] {
    } else {
      assert q[0] in q && forall e | e in q[1..] :: e in q;
      RemoveKeepsBacked(q[1..], id, orders, side);
    }
  }

  lemma MarketKeepsBacked(b: BookState, o: Incoming, orders: Orders)
    requires Backed(b, orders)
    ensures Backed(PlaceMarket(b, o), orders)
  {
    hide BackedSide, Sized;
    EatingKeepsBacked(Opposite(b, o.isBuy), o.isBuy, o.price, o.qty, orders, if o.isBuy then -1 else 1);
  }

  /** A system user's order needs no record. */
  lemma SystemOrderKeepsBacked(b: BookState, o: Incoming, now: int, orders: Orders)
    requires Backed(b, orders) && o.user <= 0
    ensures Backed(PlaceLimit(b, o, now), orders)
  {
    hide BackedSide, Sized;
    MarketKeepsBacked(b, o, orders);
    InsertKeepsBacked(Own(b, o.isBuy), Entry(o.id, o.user, o.price, MatchOf(b, o).left, now), o.isBuy, orders,
                      if o.isBuy then 1 else -1);
  }

  lemma {:induction false} LeftIsLess(q: seq<Entry>, isBuyer: bool, limit: real, qty: real)
    requires Positive(q)
    ensures Greedy(q, isBuyer, limit, qty).left <= qty
  {
    if q == [] || qty <= 0.0 || !Reaches(isBuyer, limit, q[0].price) || qty < q[0].qty {
    } else {
      LeftIsLess(q[1..], isBuyer, limit, qty - q[0].qty);
    }
  }

  lemma MoreOrders(q: seq<Entry>, orders: Orders, id: int, o: Pending, side: int)
    requires BackedSide(q, orders, side) && id !in orders
    ensures BackedSide(q, orders[id := o], side)
  {
  }

  /** A limit order that rests is recorded under its id with its whole quantity; one that is filled
      completely leaves nothing to record. */
  lemma LimitKeepsBacked(b: BookState, o: Pending, id: int, now: int, orders: Orders)
    requires Backed(b, orders) && Positive(b.bids) && Positive(b.asks) && Sized(o) && id !in orders
    ensures var incoming := Incoming(id, o.user, o.side == 1, o.price, o.qty);
            && Backed(PlaceLimit(b, incoming, now), orders[id := o])
            && (MatchOf(b, incoming).left <= 0.0 ==> Backed(PlaceLimit(b, incoming, now), orders))
  {
    hide BackedSide, Sized;
    var incoming := Incoming(id, o.user, o.side == 1, o.price, o.qty);
    var own, all, side := Own(b, incoming.isBuy), orders[id := o], if incoming.isBuy then 1 else -1;
    assert o.side == side;
    var rest := Entry(id, o.user, o.price, MatchOf(b, incoming).left, now);
    LeftIsLess(Opposite(b, incoming.isBuy), incoming.isBuy, o.price, o.qty);
    MarketKeepsBacked(b, incoming, orders);
    MoreOrders(own, orders, id, o, side);
    MoreOrders(MatchOf(b, incoming).rest, orders, id, o, -side);
    InsertKeepsBacked(own, rest, incoming.isBuy, all, side);
  }

  lemma WithoutOrder(q: seq<Entry>, orders: Orders, id: int, side: int)
    requires BackedSide(q, orders, side) && forall e | e in q :: e.id != id
    ensures BackedSide(q, orders - {id}, side)
  {
  }

  lemma CancelKeepsBacked(b: BookState, id: int, now: int, orders: Orders)
    requires Backed(b, orders) && BookInv(b, now)
    ensures Backed(Cancel(b, id), orders) && Backed(Cancel(b, id), orders - {id})
  {
    hide BackedSide, Sized, BookInv;
    CancelKeepsInv(b, id, now);
    RemoveKeepsBacked(b.bids, id, orders, 1);
    RemoveKeepsBacked(b.asks, id, orders, -1);
    WithoutOrder(Remove(b.bids, id), orders, id, 1);
    WithoutOrder(Remove(b.asks, id), orders, id, -1);
  }

  // ------------------------------------------------- what it means

  /** What is set aside for those of a user's orders that rest in a queue. */
  ghost function RestingHolds(r: Rates, q: seq<Entry>, orders: Orders, user: int): real {
    if q == [] then 0.0
    else
      RestingHolds(r, q[1..], orders, user)
      + if q[0].user == user && q[0].id in orders then Hold(r, orders[q[0].id]) else 0.0
  }

  lemma {:induction false} RestingWithin(r: Rates, q: seq<Entry>, orders: Orders, user: int,
                                         some: map<int, real>)
    requires Distinct(q) && (forall id | id in some :: some[id] >= 0.0)
    requires forall e | e in q && e.user == user && e.id in orders ::
               e.id in some && some[e.id] == Hold(r, orders[e.id])
    ensures RestingHolds(r, q, orders, user) <= MapSum(some)
  {
    hide HoldOf, MapSum;
    if q == [] {
      SumNonNegative(some);
    } else {
      var e := q[0];
      assert q[0] in q && forall x | x in q[1..] :: x in q;
      if e.user == user && e.id in orders {
        SumWithout(some, e.id);
        RestingWithin(r, q[1..], orders, user, some - {e.id});
      } else {
        RestingWithin(r, q[1..], orders, user, some);
      }
    }
  }

  lemma ApartIsDistinct(b: BookState, now: int)
    requires BookInv(b, now)
    ensures Distinct(b.bids + b.asks)
  {
    hide Sorted, Positive, Older, Uncrossed;
    var q := b.bids + b.asks;
    forall i, j | 0 <= i < j < |q| ensures q[i].id != q[j].id {
      if i < |b.bids| <= j {
        assert b.bids[i] in b.bids && b.asks[j - |b.bids|] in b.asks;
        assert q[i].id in Ids(b.bids) && q[j].id in Ids(b.asks);
      }
    }
  }

  lemma PartOfValue(price: real, part: real, whole: real)
    requires price >= 0.0 && part <= whole
    ensures PriceTime.Amount(price, part) <= price * whole
  {
  }

  /** All orders of a registered user that rest in the book are within what is frozen for it, each with
      a margin that at its leverage is worth what is left of it. */
  lemma RestingIsFrozen(r: Rates, s: State, b: BookState, now: int, user: int)
    requires BooksRight(r, s) && BookInv(b, now) && Backed(b, s.orders) && user in s.accounts && user > 0
    ensures RestingHolds(r, b.bids + b.asks, s.orders, user) <= s.accounts[user].frozen
    ensures forall e | e in b.bids + b.asks && e.user == user ::
              && e.id in s.orders && s.orders[e.id].user == user
              && PriceTime.Amount(e.price, e.qty) <= s.orders[e.id].marginCost * s.orders[e.id].leverage as real
  {
    hide HoldOf, MapSum, RestingHolds, BookInv, Agrees, NothingDropped, PriceTime.Amount;
    var q := b.bids + b.asks;
    ApartIsDistinct(b, now);
    RestingWithin(r, q, s.orders, user, Holds(r, s.orders, user));
    forall e | e in q && e.user == user
      ensures e.id in s.orders && s.orders[e.id].user == user
      ensures PriceTime.Amount(e.price, e.qty) <= s.orders[e.id].marginCost * s.orders[e.id].leverage as real
    {
      assert IsPending(e, s.orders, 1) || IsPending(e, s.orders, -1);
      var o := s.orders[e.id];
      assert Sized(o);
      PartOfValue(o.price, e.qty, o.qty);
    }
  }

  /** Whoever matches a registered user's resting order meets it on the terms of its record: the trade
      is at the pending price, within the pending quantity, and leaves with the pending leverage. */
  lemma MakersKeepTheirTerms(b: BookState, o: Incoming, orders: Orders, leverage: int,
                            f: PriceTime.Fill)
    requires Backed(b, orders) && f in MatchOf(b, o).fills && f.maker.user > 0 && f.maker.user != o.user
    requires f.qty > 0.0 && f.maker.price >= 0.0
    ensures var e, t := f.maker, OrderBook.TradeOf(o, f);
            var l := if o.isBuy then SellLeg(orders, t, o.user, leverage) else BuyLeg(orders, t, o.user, leverage);
            && e.id in orders && f.qty <= orders[e.id].qty
            && l == Leg(e.user, orders[e.id].side, f.qty, orders[e.id].price, orders[e.id].leverage, true)
  {
    hide Sized;
    MakerWasResting(Opposite(b, o.isBuy), o.isBuy, o.price, o.qty, f);
  }

  lemma {:induction false} MakerWasResting(q: seq<Entry>, isBuyer: bool, limit: real, qty: real, f: PriceTime.Fill)
    requires f in Greedy(q, isBuyer, limit, qty).fills
    ensures f.maker in q && f.qty <= f.maker.qty
  {
    if q == [] || qty <= 0.0 || !Reaches(isBuyer, limit, q[0].price) || qty < q[0].qty {
    } else if f != PriceTime.Fill(q[0], q[0].qty) {
      MakerWasResting(q[1..], isBuyer, limit, qty - q[0].qty, f);
    }
  }
}
