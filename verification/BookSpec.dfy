/** The order book as two flat queues: its operations as functions, and what every run of them keeps. */
module BookSpec {
  import opened PriceTime

  /** Both queues best first. */
  datatype BookState = BookState(bids: seq<Entry>, asks: seq<Entry>)

  /** An order on its way in; a price that is not positive means no limit. */
  datatype Incoming = Incoming(id: int, user: int, isBuy: bool, price: real, qty: real)

  function Opposite(s: BookState, isBuy: bool): seq<Entry> { if isBuy then s.asks else s.bids }

  function Own(s: BookState, isBuy: bool): seq<Entry> { if isBuy then s.bids else s.asks }

  function Sides(isBuy: bool, own: seq<Entry>, opposite: seq<Entry>): BookState {
    if isBuy then BookState(own, opposite) else BookState(opposite, own)
  }

  function MatchOf(s: BookState, o: Incoming): Match {
    Greedy(Opposite(s, o.isBuy), o.isBuy, o.price, o.qty)
  }

  /** Match, then rest what is left. */
  function PlaceLimit(s: BookState, o: Incoming, now: int): BookState {
    var m := MatchOf(s, o);
    Sides(o.isBuy,
          if m.left > 0.0 then Insert(Own(s, o.isBuy), Entry(o.id, o.user, o.price, m.left, now), o.isBuy)
          else Own(s, o.isBuy),
          m.rest)
  }

  /** Match only. */
  function PlaceMarket(s: BookState, o: Incoming): BookState {
    Sides(o.isBuy, Own(s, o.isBuy), MatchOf(s, o).rest)
  }

  function Cancel(s: BookState, id: int): BookState {
    BookState(Remove(s.bids, id), Remove(s.asks, id))
  }

  // ------------------------------------------------------------ invariant

  ghost function Ids(q: seq<Entry>): set<int> {
    set e | e in q :: e.id
  }

  ghost predicate Distinct(q: seq<Entry>) {
    forall i, j | 0 <= i < j < |q| :: q[i].id != q[j].id
  }

  ghost predicate Older(q: seq<Entry>, now: int) {
    forall i | 0 <= i < |q| :: q[i].time < now
  }

  /** One side: sorted by price then arrival, positive quantities, ids used once. */
  ghost predicate SideInv(q: seq<Entry>, isBid: bool, now: int) {
    Sorted(q, isBid) && Positive(q) && Distinct(q) && Older(q, now)
  }

  ghost predicate Uncrossed(bids: seq<Entry>, asks: seq<Entry>) {
    bids != [] && asks != [] ==> bids[0].price < asks[0].price
  }

  ghost predicate BookInv(s: BookState, now: int) {
    && SideInv(s.bids, true, now) && SideInv(s.asks, false, now)
    && Ids(s.bids) !! Ids(s.asks)
    && Uncrossed(s.bids, s.asks)
  }

  // -------------------------------------------------------------- matching

  /** A queue after its front has been eaten. */
  ghost predicate FrontEaten(q: seq<Entry>, rest: seq<Entry>, k: nat) {
    && k <= |q| && |rest| == |q| - k
    && (forall i | 0 < i < |rest| :: rest[i] == q[k + i])
    && (rest != [] ==> rest[0] == q[k].(qty := rest[0].qty) && 0.0 < rest[0].qty <= q[k].qty)
  }

  lemma {:induction false} GreedyEatsFront(q: seq<Entry>, isBuyer: bool, limit: real, qty: real) returns (k: nat)
    requires Positive(q)
    ensures FrontEaten(q, Greedy(q, isBuyer, limit, qty).rest, k)
  {
    k := 0;
    if q == [] || qty <= 0.0 || !Reaches(isBuyer, limit, q[0].price) || qty < q[0].qty {
    } else {
      k := GreedyEatsFront(q[1..], isBuyer, limit, qty - q[0].qty);
      EatenStep(q, Greedy(q[1..], isBuyer, limit, qty - q[0].qty).rest, k);
      k := k + 1;
    }
  }

  lemma EatenStep(q: seq<Entry>, rest: seq<Entry>, k: nat)
    requires q != [] && FrontEaten(q[1..], rest, k)
    ensures FrontEaten(q, rest, k + 1)
  {
  }

  lemma EatenKeepsSide(q: seq<Entry>, rest: seq<Entry>, k: nat, isBid: bool, now: int)
    requires SideInv(q, isBid, now) && FrontEaten(q, rest, k)
    ensures SideInv(rest, isBid, now) && Ids(rest) <= Ids(q)
    ensures rest != [] ==> !Better(isBid, rest[0].price, q[0].price)
  {
  }

  // ------------------------------------------------------------- insertion

  /** Number of resting orders a new one queues behind. */
  ghost function Position(q: seq<Entry>, e: Entry, isBid: bool): (k: nat)
    ensures k <= |q|
  {
    if q == [] || Better(isBid, e.price, q[0].price) then 0 else 1 + Position(q[1..], e, isBid)
  }

  /** Inserting e at position k. */
  function Put(q: seq<Entry>, e: Entry, k: nat): seq<Entry>
    requires k <= |q|
  {
    q[..k] + [e] + q[k..]
  }

  /** Insertion puts the order behind every order that is not strictly worse and before all others. */
  lemma InsertAt(q: seq<Entry>, e: Entry, isBid: bool)
    requires Sorted(q, isBid)
    ensures var k := Position(q, e, isBid);
            && Insert(q, e, isBid) == Put(q, e, k)
            && (forall i | 0 <= i < k :: !Better(isBid, e.price, q[i].price))
            && (forall i | k <= i < |q| :: Better(isBid, e.price, q[i].price))
  {
    hide Put, Insert;
    InsertIsPut(q, e, isBid);
    PositionBounds(q, e, isBid);
    var k := Position(q, e, isBid);
    forall i | k <= i < |q| ensures Better(isBid, e.price, q[i].price) {
      assert i > k ==> !Better(isBid, q[i].price, q[k].price);
    }
  }

  lemma {:induction false} InsertIsPut(q: seq<Entry>, e: Entry, isBid: bool)
    ensures Insert(q, e, isBid) == Put(q, e, Position(q, e, isBid))
  {
    if q != [] && !Better(isBid, e.price, q[0].price) {
      InsertIsPut(q[1..], e, isBid);
      PutStep(q, e, Position(q[1..], e, isBid));
    } else {
      assert Put(q, e, 0) == [e] + q;
    }
  }

  lemma {:induction false} PositionBounds(q: seq<Entry>, e: Entry, isBid: bool)
    ensures var k := Position(q, e, isBid);
            && (forall i | 0 <= i < k :: !Better(isBid, e.price, q[i].price))
            && (k < |q| ==> Better(isBid, e.price, q[k].price))
  {
    if q == [] || Better(isBid, e.price, q[0].price) {
    } else {
      PositionBounds(q[1..], e, isBid);
      forall i | 0 <= i < Position(q, e, isBid) ensures !Better(isBid, e.price, q[i].price) {
        assert i > 0 ==> q[i] == q[1..][i - 1];
      }
    }
  }

  lemma PutStep(q: seq<Entry>, e: Entry, k: nat)
    requires k < |q|
    ensures Put(q, e, k + 1) == [q[0]] + Put(q[1..], e, k)
  {
  }

  lemma PutKeepsSorted(q: seq<Entry>, e: Entry, k: nat, isBid: bool)
    requires k <= |q| && Sorted(q, isBid) && Older(q, e.time)
    requires forall i | 0 <= i < k :: !Better(isBid, e.price, q[i].price)
    requires forall i | k <= i < |q| :: Better(isBid, e.price, q[i].price)
    ensures Sorted(Put(q, e, k), isBid)
  {
  }

  lemma PutKeepsRest(q: seq<Entry>, e: Entry, k: nat)
    requires k <= |q| && Positive(q) && Distinct(q) && Older(q, e.time) && e.qty > 0.0 && e.id !in Ids(q)
    ensures var r := Put(q, e, k); Positive(r) && Distinct(r) && Older(r, e.time + 1)
  {
  }

  lemma PutIds(q: seq<Entry>, e: Entry, k: nat)
    requires k <= |q|
    ensures Ids(Put(q, e, k)) == Ids(q) + {e.id}
  {
  }

  lemma InsertKeepsSide(q: seq<Entry>, e: Entry, isBid: bool)
    requires SideInv(q, isBid, e.time) && e.qty > 0.0 && e.id !in Ids(q)
    ensures SideInv(Insert(q, e, isBid), isBid, e.time + 1)
    ensures Ids(Insert(q, e, isBid)) == Ids(q) + {e.id}
    ensures Insert(q, e, isBid) != []
    ensures Insert(q, e, isBid)[0] == if q == [] || Better(isBid, e.price, q[0].price) then e else q[0]
  {
    hide Sorted, Positive, Distinct, Older, Ids;
    InsertAt(q, e, isBid);
    var k := Position(q, e, isBid);
    PutKeepsSorted(q, e, k, isBid);
    PutKeepsRest(q, e, k);
    PutIds(q, e, k);
  }

  // ------------------------------------------------------------- removal

  lemma {:induction false} RemoveAt(q: seq<Entry>, id: int) returns (k: nat)
    requires Distinct(q) && id in Ids(q)
    ensures k < |q| && q[k].id == id && Remove(q, id) == q[..k] + q[k + 1..]
  {
    k := 0;
    if q[0].id == id {
    } else {
      assert exists e :: e in q[1..] && e.id == id;
      k := RemoveAt(q[1..], id);
      assert q[..k + 1] == [q[0]] + q[1..][..k] && q[k + 2..] == q[1..][k + 1..];
      k := k + 1;
    }
  }

  lemma {:induction false} RemoveAbsent(q: seq<Entry>, id: int)
    requires id !in Ids(q)
    ensures Remove(q, id) == q
  {
    if q == [] {
    } else {
      assert q[0] in q && forall e | e in q[1..] :: e in q;
      RemoveAbsent(q[1..], id);
    }
  }

  lemma RemoveKeepsSide(q: seq<Entry>, id: int, isBid: bool, now: int)
    requires SideInv(q, isBid, now)
    ensures SideInv(Remove(q, id), isBid, now) && Ids(Remove(q, id)) == Ids(q) - {id}
    ensures Remove(q, id) != [] ==> q != [] && !Better(isBid, Remove(q, id)[0].price, q[0].price)
  {
    if id in Ids(q) {
      var k := RemoveAt(q, id);
      CutKeepsSide(q, k, isBid, now);
    } else {
      RemoveAbsent(q, id);
    }
  }

  lemma CutKeepsSide(q: seq<Entry>, k: nat, isBid: bool, now: int)
    requires k < |q| && SideInv(q, isBid, now)
    ensures var r := q[..k] + q[k + 1..];
            && SideInv(r, isBid, now) && Ids(r) == Ids(q) - {q[k].id}
            && (r != [] ==> !Better(isBid, r[0].price, q[0].price))
  {
    hide Ids, Distinct;
    var r := q[..k] + q[k + 1..];
    assert forall i | 0 <= i < |r| :: r[i] == q[if i < k then i else i + 1];
    CutIds(q, k);
  }

  lemma CutIds(q: seq<Entry>, k: nat)
    requires k < |q| && Distinct(q)
    ensures var r := q[..k] + q[k + 1..]; Distinct(r) && Ids(r) == Ids(q) - {q[k].id}
  {
  }

  // ---------------------------------------------------------- the whole book

  predicate Fresh(s: BookState, id: int) {
    (forall e | e in s.bids :: e.id != id) && (forall e | e in s.asks :: e.id != id)
  }

  lemma AgeSide(q: seq<Entry>, isBid: bool, now: int)
    requires SideInv(q, isBid, now)
    ensures SideInv(q, isBid, now + 1)
  {
  }

  lemma MatchKeepsSide(s: BookState, o: Incoming, now: int)
    requires BookInv(s, now)
    ensures var opposite, m := Opposite(s, o.isBuy), MatchOf(s, o);
            && SideInv(m.rest, !o.isBuy, now) && Ids(m.rest) <= Ids(opposite)
            && (m.rest != [] ==> opposite != [] && !Better(!o.isBuy, m.rest[0].price, opposite[0].price))
            && (m.left > 0.0 && m.rest != [] ==> !Reaches(o.isBuy, o.price, m.rest[0].price))
  {
    var opposite := Opposite(s, o.isBuy);
    var k := GreedyEatsFront(opposite, o.isBuy, o.price, o.qty);
    EatenKeepsSide(opposite, MatchOf(s, o).rest, k, !o.isBuy, now);
    StopsAtLimit(opposite, o.isBuy, o.price, o.qty);
  }

  lemma {:induction false} StopsAtLimit(q: seq<Entry>, isBuyer: bool, limit: real, qty: real)
    requires Positive(q)
    ensures var m := Greedy(q, isBuyer, limit, qty);
            m.left > 0.0 && m.rest != [] ==> !Reaches(isBuyer, limit, m.rest[0].price)
  {
    if q == [] || qty <= 0.0 || !Reaches(isBuyer, limit, q[0].price) || qty < q[0].qty {
    } else {
      StopsAtLimit(q[1..], isBuyer, limit, qty - q[0].qty);
    }
  }

  lemma PlaceMarketKeepsInv(s: BookState, o: Incoming, now: int)
    requires BookInv(s, now)
    ensures BookInv(PlaceMarket(s, o), now)
  {
    hide SideInv, Greedy, Ids;
    MatchKeepsSide(s, o, now);
  }

  lemma PlaceLimitKeepsInv(s: BookState, o: Incoming, now: int)
    requires BookInv(s, now) && Fresh(s, o.id)
    ensures BookInv(PlaceLimit(s, o, now), now + 1)
  {
    assert o.id !in Ids(s.bids) && o.id !in Ids(s.asks);
    PlaceLimitSides(s, o, now);
  }

  lemma PlaceLimitSides(s: BookState, o: Incoming, now: int)
    requires BookInv(s, now) && o.id !in Ids(s.bids) && o.id !in Ids(s.asks)
    ensures BookInv(PlaceLimit(s, o, now), now + 1)
  {
    hide SideInv, Greedy, Ids, Insert;
    var own, m := Own(s, o.isBuy), MatchOf(s, o);
    MatchKeepsSide(s, o, now);
    AgeSide(m.rest, !o.isBuy, now);
    if m.left > 0.0 {
      InsertKeepsSide(own, Entry(o.id, o.user, o.price, m.left, now), o.isBuy);
    } else {
      AgeSide(own, o.isBuy, now);
    }
  }

  lemma CancelKeepsInv(s: BookState, id: int, now: int)
    requires BookInv(s, now)
    ensures BookInv(Cancel(s, id), now)
    ensures Fresh(Cancel(s, id), id)
  {
    RemoveKeepsSide(s.bids, id, true, now);
    RemoveKeepsSide(s.asks, id, false, now);
    var r := Cancel(s, id);
    assert (forall e | e in r.bids :: e.id in Ids(r.bids)) && (forall e | e in r.asks :: e.id in Ids(r.asks));
  }

  // ------------------------------------------------------------------- runs

  datatype Op = Limit(order: Incoming) | Market(order: Incoming) | CancelOrder(id: int)

  function Step(s: BookState, op: Op, now: int): BookState {
    match op
    case Limit(o) => PlaceLimit(s, o, now)
    case Market(o) => PlaceMarket(s, o)
    case CancelOrder(id) => Cancel(s, id)
  }

  /** The book after a run; every operation happens at its own instant. */
  function Run(ops: seq<Op>): BookState {
    if ops == [] then BookState([], []) else Step(Run(ops[..|ops| - 1]), ops[|ops| - 1], |ops| - 1)
  }

  /** Limit orders carry ids that are not resting at that moment. */
  ghost predicate Admissible(ops: seq<Op>) {
    forall n | 0 <= n < |ops| :: ops[n].Limit? ==> Fresh(Run(ops[..n]), ops[n].order.id)
  }

  /** In every run both sides stay sorted by price and arrival with positive quantities and unique
      ids, and the best bid stays below the best ask. */
  lemma {:induction false} RunKeepsInv(ops: seq<Op>)
    requires Admissible(ops)
    ensures BookInv(Run(ops), |ops|)
  {
    if ops == [] {
    } else {
      var n := |ops| - 1;
      assert forall k | 0 <= k < n :: ops[..n][..k] == ops[..k];
      RunKeepsInv(ops[..n]);
      StepKeepsInv(Run(ops[..n]), ops[n], n);
    }
  }

  lemma StepKeepsInv(s: BookState, op: Op, now: int)
    requires BookInv(s, now) && (op.Limit? ==> Fresh(s, op.order.id))
    ensures BookInv(Step(s, op, now), now + 1)
  {
    match op
    case Limit(o) => PlaceLimitKeepsInv(s, o, now);
    case Market(o) => PlaceMarketKeepsInv(s, o, now); AgeBook(PlaceMarket(s, o), now);
    case CancelOrder(id) => CancelKeepsInv(s, id, now); AgeBook(Cancel(s, id), now);
  }

  lemma AgeBook(s: BookState, now: int)
    requires BookInv(s, now)
    ensures BookInv(s, now + 1)
  {
  }

  // ------------------------------------------------------------ cancelling

  lemma {:induction false} RemoveInserted(q: seq<Entry>, e: Entry, isBid: bool)
    requires e.id !in Ids(q)
    ensures Remove(Insert(q, e, isBid), e.id) == q
  {
    if q == [] || Better(isBid, e.price, q[0].price) {
    } else {
      assert q[0] in q && forall x | x in q[1..] :: x in q;
      RemoveInserted(q[1..], e, isBid);
    }
  }

  /** Cancelling what a limit order left resting gives back its own side as it was and leaves the
      opposite side as the match alone would; with no match, the whole book is as it was. */
  lemma CancelUndoesResting(s: BookState, o: Incoming, now: int)
    requires BookInv(s, now) && Fresh(s, o.id)
    ensures Cancel(PlaceLimit(s, o, now), o.id) == PlaceMarket(s, o)
    ensures MatchOf(s, o).fills == [] ==> Cancel(PlaceLimit(s, o, now), o.id) == s
  {
    var own, m := Own(s, o.isBuy), MatchOf(s, o);
    assert o.id !in Ids(s.bids) && o.id !in Ids(s.asks);
    MatchKeepsSide(s, o, now);
    RemoveAbsent(m.rest, o.id);
    if m.left > 0.0 {
      RemoveInserted(own, Entry(o.id, o.user, o.price, m.left, now), o.isBuy);
    } else {
      RemoveAbsent(own, o.id);
    }
  }

  // -------------------------------------------------------- resting prices

  ghost predicate Priced(q: seq<Entry>) {
    forall i | 0 <= i < |q| :: q[i].price >= 0.0
  }

  ghost predicate BookPriced(s: BookState) {
    Priced(s.bids) && Priced(s.asks)
  }

  ghost predicate FillsGood(fills: seq<Fill>) {
    forall i | 0 <= i < |fills| :: fills[i].qty > 0.0 && fills[i].maker.price >= 0.0
  }

  lemma {:induction false} GreedyKeepsPriced(q: seq<Entry>, isBuyer: bool, limit: real, qty: real)
    requires Priced(q) && Positive(q)
    ensures var m := Greedy(q, isBuyer, limit, qty); Priced(m.rest) && FillsGood(m.fills)
  {
    if q == [] || qty <= 0.0 || !Reaches(isBuyer, limit, q[0].price) || qty < q[0].qty {
    } else {
      GreedyKeepsPriced(q[1..], isBuyer, limit, qty - q[0].qty);
    }
  }

  lemma {:induction false} InsertKeepsPriced(q: seq<Entry>, e: Entry, isBid: bool)
    requires Priced(q) && e.price >= 0.0
    ensures Priced(Insert(q, e, isBid))
  {
    if q == [] || Better(isBid, e.price, q[0].price) {
    } else {
      InsertKeepsPriced(q[1..], e, isBid);
    }
  }

  lemma {:induction false} RemoveKeepsPriced(q: seq<Entry>, id: int)
    requires Priced(q)
    ensures Priced(Remove(q, id))
  {
    if q == [] {
    } else {
      RemoveKeepsPriced(q[1..], id);
    }
  }

  /** Orders with positive prices keep a book of such orders, and trade at such prices. */
  lemma PlacingKeepsPriced(s: BookState, o: Incoming, now: int)
    requires BookInv(s, now) && BookPriced(s)
    ensures BookPriced(PlaceMarket(s, o)) && FillsGood(MatchOf(s, o).fills)
    ensures o.price >= 0.0 ==> BookPriced(PlaceLimit(s, o, now))
  {
    var m := MatchOf(s, o);
    GreedyKeepsPriced(Opposite(s, o.isBuy), o.isBuy, o.price, o.qty);
    if o.price >= 0.0 {
      InsertKeepsPriced(Own(s, o.isBuy), Entry(o.id, o.user, o.price, m.left, now), o.isBuy);
    }
  }
}
