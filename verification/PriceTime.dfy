/** Price-time priority on a flat queue of resting orders, best first: what matching against one
    side of the book means, without levels, indexes or loops. */
module PriceTime {

  datatype Entry = Entry(id: int, user: int, price: real, qty: real, time: int)

  /** Part of a resting order that a taker gets, at the maker's price. */
  datatype Fill = Fill(maker: Entry, qty: real)

  datatype Match = Match(fills: seq<Fill>, rest: seq<Entry>, left: real)

  function Min(x: real, y: real): real { if x <= y then x else y }

  /** May a taker with this limit trade at this price?  A limit that is not positive is no limit. */
  predicate Reaches(isBuyer: bool, limit: real, price: real) {
    limit <= 0.0 || if isBuyer then price <= limit else price >= limit
  }

  /** Fill from the front, one resting order after the other. */
  function Greedy(q: seq<Entry>, isBuyer: bool, limit: real, qty: real): Match {
    if q == [] || qty <= 0.0 || !Reaches(isBuyer, limit, q[0].price) then Match([], q, qty)
    else if qty < q[0].qty then
      Match([Fill(q[0], qty)], [q[0].(qty := q[0].qty - qty)] + q[1..], 0.0)
    else
      var m := Greedy(q[1..], isBuyer, limit, qty - q[0].qty);
      Match([Fill(q[0], q[0].qty)] + m.fills, m.rest, m.left)
  }

  /** Does a bid (ask) at price p stand strictly before one at price r? */
  predicate Better(isBid: bool, p: real, r: real) {
    if isBid then p > r else p < r
  }

  /** Where a new order queues: behind everything that is not strictly worse. */
  function Insert(q: seq<Entry>, e: Entry, isBid: bool): seq<Entry> {
    if q == [] || Better(isBid, e.price, q[0].price) then [e] + q
    else [q[0]] + Insert(q[1..], e, isBid)
  }

  function Remove(q: seq<Entry>, id: int): seq<Entry> {
    if q == [] then [] else if q[0].id == id then q[1..] else [q[0]] + Remove(q[1..], id)
  }

  ghost predicate Sorted(q: seq<Entry>, isBid: bool) {
    forall i, j | 0 <= i < j < |q| ::
      !Better(isBid, q[j].price, q[i].price) && (q[i].price == q[j].price ==> q[i].time < q[j].time)
  }

  ghost predicate Positive(q: seq<Entry>) {
    forall i | 0 <= i < |q| :: q[i].qty > 0.0
  }

  function Amount(price: real, qty: real): real { price * qty }

  function Volume(q: seq<Entry>): real {
    if q == [] then 0.0 else q[0].qty + Volume(q[1..])
  }

  function Filled(fills: seq<Fill>): real {
    if fills == [] then 0.0 else fills[0].qty + Filled(fills[1..])
  }

  function Value(fills: seq<Fill>): real {
    if fills == [] then 0.0 else Amount(fills[0].maker.price, fills[0].qty) + Value(fills[1..])
  }

  // ---------------------------------------------------------- what Greedy does

  /** Nothing is lost or made: what the taker gets leaves the queue and the order. */
  lemma {:induction false} GreedyConserves(q: seq<Entry>, isBuyer: bool, limit: real, qty: real)
    ensures var m := Greedy(q, isBuyer, limit, qty);
            Filled(m.fills) + m.left == qty && Filled(m.fills) + Volume(m.rest) == Volume(q)
  {
    if q == [] || qty <= 0.0 || !Reaches(isBuyer, limit, q[0].price) {
    } else {
      if qty < q[0].qty {
        var p := q[0].(qty := q[0].qty - qty);
        assert ([p] + q[1..])[1..] == q[1..];
        assert [Fill(q[0], qty)][1..] == [];
      } else {
        GreedyConserves(q[1..], isBuyer, limit, qty - q[0].qty);
        var m := Greedy(q[1..], isBuyer, limit, qty - q[0].qty);
        assert ([Fill(q[0], q[0].qty)] + m.fills)[1..] == m.fills;
      }
    }
  }

  /** What is left of a queue whose first n orders were touched, the last of them for `last`. */
  ghost function Remainder(q: seq<Entry>, n: nat, last: real): seq<Entry>
    requires 0 < n <= |q|
  {
    (if last < q[n - 1].qty then [q[n - 1].(qty := q[n - 1].qty - last)] else []) + q[n..]
  }

  /** The fills are a prefix of the queue, in queue order and within the limit, each complete
      except possibly the last. */
  ghost predicate PrefixFilled(q: seq<Entry>, isBuyer: bool, limit: real, fills: seq<Fill>) {
    && |fills| <= |q|
    && (forall k | 0 <= k < |fills| ::
          fills[k].maker == q[k] && 0.0 < fills[k].qty <= q[k].qty && Reaches(isBuyer, limit, q[k].price))
    && (forall k | 0 <= k < |fills| - 1 :: fills[k].qty == q[k].qty)
  }

  /** Strict priority: a prefix of the queue is filled, the queue loses exactly that, and the taker
      stops short only when the queue is empty or its next order is out of the limit. */
  ghost predicate StrictPriority(q: seq<Entry>, isBuyer: bool, limit: real, qty: real, m: Match) {
    var n := |m.fills|;
    && PrefixFilled(q, isBuyer, limit, m.fills)
    && m.rest == (if n == 0 then q else Remainder(q, n, m.fills[n - 1].qty))
    && (m.left > 0.0 ==> m.rest == q[n..] && (n == |q| || !Reaches(isBuyer, limit, q[n].price)))
    && (qty >= 0.0 ==> m.left >= 0.0)
  }

  lemma {:induction false} GreedyIsStrictPriority(q: seq<Entry>, isBuyer: bool, limit: real, qty: real)
    requires Positive(q)
    ensures StrictPriority(q, isBuyer, limit, qty, Greedy(q, isBuyer, limit, qty))
  {
    if q == [] || qty <= 0.0 || !Reaches(isBuyer, limit, q[0].price) || qty < q[0].qty {
    } else {
      GreedyIsStrictPriority(q[1..], isBuyer, limit, qty - q[0].qty);
      PriorityStep(q, isBuyer, limit, qty, Greedy(q[1..], isBuyer, limit, qty - q[0].qty));
    }
  }

  lemma PrefixStep(q: seq<Entry>, isBuyer: bool, limit: real, fills: seq<Fill>)
    requires q != [] && q[0].qty > 0.0 && Reaches(isBuyer, limit, q[0].price)
    requires PrefixFilled(q[1..], isBuyer, limit, fills)
    ensures PrefixFilled(q, isBuyer, limit, [Fill(q[0], q[0].qty)] + fills)
  {
  }

  /** A complete fill in front of a match that kept strict priority. */
  lemma PriorityStep(q: seq<Entry>, isBuyer: bool, limit: real, qty: real, m: Match)
    requires q != [] && q[0].qty > 0.0 && qty >= q[0].qty && Reaches(isBuyer, limit, q[0].price)
    requires StrictPriority(q[1..], isBuyer, limit, qty - q[0].qty, m)
    ensures StrictPriority(q, isBuyer, limit, qty, Match([Fill(q[0], q[0].qty)] + m.fills, m.rest, m.left))
  {
    hide PrefixFilled, Reaches, Remainder;
    var n := |m.fills|;
    var fills := [Fill(q[0], q[0].qty)] + m.fills;
    PrefixStep(q, isBuyer, limit, m.fills);
    PrefixLength(q[1..], isBuyer, limit, m.fills);
    RemainderStep(q, n, fills[n].qty);
  }

  lemma RemainderStep(q: seq<Entry>, n: nat, last: real)
    requires n < |q|
    ensures q[1..][n..] == q[n + 1..]
    ensures n > 0 ==> Remainder(q, n + 1, last) == Remainder(q[1..], n, last)
    ensures n == 0 && last == q[0].qty ==> Remainder(q, 1, last) == q[1..]
  {
  }

  lemma PrefixLength(q: seq<Entry>, isBuyer: bool, limit: real, fills: seq<Fill>)
    requires PrefixFilled(q, isBuyer, limit, fills)
    ensures |fills| <= |q|
  {
  }
}
