/** Price-time priority is best execution, and splitting a market order changes nothing. */
module BestExecution {
  import opened PriceTime

  /** What a taker minimises: the price paid, or minus the price received. */
  function Key(isBuyer: bool, price: real): real { if isBuyer then price else -price }

  function Sum(x: seq<real>): real {
    if x == [] then 0.0 else x[0] + Sum(x[1..])
  }

  /** Cost of taking x[k] from the k-th resting order. */
  function Cost(q: seq<Entry>, x: seq<real>, isBuyer: bool): real
    requires |x| == |q|
  {
    if q == [] then 0.0 else Amount(Key(isBuyer, q[0].price), x[0]) + Cost(q[1..], x[1..], isBuyer)
  }

  ghost predicate Feasible(q: seq<Entry>, x: seq<real>) {
    |x| == |q| && forall k | 0 <= k < |q| :: 0.0 <= x[k] <= q[k].qty
  }

  /** Cost of the first `qty` units of the queue. */
  ghost function FrontCost(q: seq<Entry>, isBuyer: bool, qty: real): real {
    if q == [] || qty <= 0.0 then 0.0
    else if qty < q[0].qty then Amount(Key(isBuyer, q[0].price), qty)
    else Amount(Key(isBuyer, q[0].price), q[0].qty) + FrontCost(q[1..], isBuyer, qty - q[0].qty)
  }

  ghost predicate AtLeast(q: seq<Entry>, isBuyer: bool, c: real) {
    forall k | 0 <= k < |q| :: c <= Key(isBuyer, q[k].price)
  }

  lemma Within(c: real, k: real, a: real, b: real)
    requires c <= k && a <= b
    ensures Amount(k, a) + Amount(c, b - a) <= Amount(k, b)
  {
  }

  lemma Beyond(c: real, k: real, a: real, n: real, b: real, more: real)
    requires c <= k && a <= n && Amount(c, b - n) <= more
    ensures Amount(k, a) + Amount(c, b - a) <= Amount(k, n) + more
  {
  }

  lemma Exchange(k: real, x: real, n: real, front: real, cost: real)
    requires front + Amount(k, n - x) <= cost
    ensures Amount(k, n) + front <= Amount(k, x) + cost
  {
  }

  lemma FrontStep(q: seq<Entry>, isBuyer: bool, qty: real, rest: real)
    requires q != [] && q[0].qty > 0.0 && qty >= 0.0
    ensures qty < q[0].qty ==> FrontCost(q, isBuyer, qty) == Amount(Key(isBuyer, q[0].price), qty)
    ensures qty >= q[0].qty && rest == qty - q[0].qty ==>
              FrontCost(q, isBuyer, qty) == Amount(Key(isBuyer, q[0].price), q[0].qty)
                + FrontCost(q[1..], isBuyer, rest)
  {
  }

  lemma FrontOfNone(q: seq<Entry>, isBuyer: bool, qty: real)
    requires q == [] || qty == 0.0
    ensures FrontCost(q, isBuyer, qty) == 0.0
  {
  }

  /** Every further unit costs at least the cheapest price in the queue. */
  lemma {:induction false} FrontCostGrows(q: seq<Entry>, isBuyer: bool, a: real, b: real, c: real)
    requires Positive(q) && AtLeast(q, isBuyer, c)
    requires 0.0 <= a <= b <= Volume(q)
    ensures FrontCost(q, isBuyer, a) + Amount(c, b - a) <= FrontCost(q, isBuyer, b)
    decreases q, 1
  {
    hide FrontCost;
    if q == [] {
      FrontOfNone(q, isBuyer, a);
      assert b - a == 0.0;
    } else {
      assert c <= Key(isBuyer, q[0].price) && q[0].qty > 0.0;
      GrowthStep(q, isBuyer, a, b, c);
    }
  }

  lemma GrowthStep(q: seq<Entry>, isBuyer: bool, a: real, b: real, c: real)
    requires q != [] && q[0].qty > 0.0 && c <= Key(isBuyer, q[0].price)
    requires Positive(q[1..]) && AtLeast(q[1..], isBuyer, c)
    requires 0.0 <= a <= b <= Volume(q)
    ensures FrontCost(q, isBuyer, a) + Amount(c, b - a) <= FrontCost(q, isBuyer, b)
    decreases q, 0
  {
    hide FrontCost, Key, Positive, AtLeast, Amount;
    var k, n := Key(isBuyer, q[0].price), q[0].qty;
    FrontStep(q, isBuyer, a, a - n);
    FrontStep(q, isBuyer, b, b - n);
    if b < n {
      Within(c, k, a, b);
    } else if a < n {
      FrontOfNone(q[1..], isBuyer, 0.0);
      FrontCostGrows(q[1..], isBuyer, 0.0, b - n, c);
      assert b - n - 0.0 == b - n;
      Beyond(c, k, a, n, b, FrontCost(q[1..], isBuyer, b - n));
    } else {
      FrontCostGrows(q[1..], isBuyer, a - n, b - n, c);
      assert b - n - (a - n) == b - a;
    }
  }

  lemma SortedTail(q: seq<Entry>, isBuyer: bool)
    requires q != [] && Sorted(q, !isBuyer)
    ensures Sorted(q[1..], !isBuyer) && AtLeast(q[1..], isBuyer, Key(isBuyer, q[0].price))
  {
  }

  /** Taking x0 of the first order and t of the others, instead of from the front, costs no less. */
  lemma CheapestStep(q: seq<Entry>, isBuyer: bool, x0: real, t: real, cost: real)
    requires q != [] && Positive(q[1..]) && AtLeast(q[1..], isBuyer, Key(isBuyer, q[0].price))
    requires 0.0 <= x0 <= q[0].qty && 0.0 < q[0].qty && 0.0 <= t <= Volume(q[1..])
    requires FrontCost(q[1..], isBuyer, t) <= cost
    ensures FrontCost(q, isBuyer, x0 + t) <= Amount(Key(isBuyer, q[0].price), x0) + cost
  {
    hide Key, AtLeast, Positive, Volume, FrontCost, Amount;
    var k, n := Key(isBuyer, q[0].price), q[0].qty;
    FrontStep(q, isBuyer, x0 + t, x0 + t - n);
    FrontOfNone(q[1..], isBuyer, 0.0);
    if x0 + t < n {
      FrontCostGrows(q[1..], isBuyer, 0.0, t, k);
      assert t - 0.0 == t && x0 + t - x0 == t;
      Exchange(k, x0, x0 + t, 0.0, cost);
    } else {
      FrontCostGrows(q[1..], isBuyer, x0 + t - n, t, k);
      assert t - (x0 + t - n) == n - x0;
      Exchange(k, x0, n, FrontCost(q[1..], isBuyer, x0 + t - n), cost);
    }
  }

  /** No feasible choice of resting orders is cheaper than the front of the queue. */
  lemma {:induction false} FrontIsCheapest(q: seq<Entry>, isBuyer: bool, x: seq<real>)
    requires Positive(q) && Sorted(q, !isBuyer) && Feasible(q, x)
    ensures 0.0 <= Sum(x) <= Volume(q)
    ensures FrontCost(q, isBuyer, Sum(x)) <= Cost(q, x, isBuyer)
  {
    hide Sorted, Key, AtLeast, FrontCost, Amount;
    if q != [] {
      SortedTail(q, isBuyer);
      FrontIsCheapest(q[1..], isBuyer, x[1..]);
      CheapestStep(q, isBuyer, x[0], Sum(x[1..]), Cost(q[1..], x[1..], isBuyer));
    } else {
      FrontOfNone(q, isBuyer, 0.0);
    }
  }

  ghost function SignedValue(fills: seq<Fill>, isBuyer: bool): real {
    if isBuyer then Value(fills) else -Value(fills)
  }

  lemma {:induction false} GreedyCostsFront(q: seq<Entry>, isBuyer: bool, limit: real, qty: real)
    requires Positive(q)
    ensures var m := Greedy(q, isBuyer, limit, qty);
            SignedValue(m.fills, isBuyer) == FrontCost(q, isBuyer, Filled(m.fills)) && Filled(m.fills) >= 0.0
  {
    if q == [] || qty <= 0.0 || !Reaches(isBuyer, limit, q[0].price) {
    } else {
      if qty < q[0].qty {
        PartFront(q, isBuyer, limit, qty);
        SignedProduct(isBuyer, q[0].price, qty);
      } else {
        GreedyCostsFront(q[1..], isBuyer, limit, qty - q[0].qty);
        CostsFrontStep(q, isBuyer, limit, qty);
      }
    }
  }

  lemma SignedProduct(isBuyer: bool, price: real, qty: real)
    ensures Amount(Key(isBuyer, price), qty) == if isBuyer then Amount(price, qty) else -Amount(price, qty)
  {
  }

  lemma CostsFrontStep(q: seq<Entry>, isBuyer: bool, limit: real, qty: real)
    requires q != [] && 0.0 < q[0].qty <= qty && Reaches(isBuyer, limit, q[0].price)
    requires var r := Greedy(q[1..], isBuyer, limit, qty - q[0].qty);
             SignedValue(r.fills, isBuyer) == FrontCost(q[1..], isBuyer, Filled(r.fills)) && Filled(r.fills) >= 0.0
    ensures var m := Greedy(q, isBuyer, limit, qty);
            SignedValue(m.fills, isBuyer) == FrontCost(q, isBuyer, Filled(m.fills)) && Filled(m.fills) >= 0.0
  {
  }

  /** For the quantity a taker actually gets, no feasible selection of the resting opposite orders
      costs a buyer less or pays a seller more. */
  lemma GreedyIsBestExecution(q: seq<Entry>, isBuyer: bool, limit: real, qty: real, x: seq<real>)
    requires Positive(q) && Sorted(q, !isBuyer) && Feasible(q, x)
    requires Sum(x) == Filled(Greedy(q, isBuyer, limit, qty).fills)
    ensures SignedValue(Greedy(q, isBuyer, limit, qty).fills, isBuyer) <= Cost(q, x, isBuyer)
  {
    GreedyCostsFront(q, isBuyer, limit, qty);
    FrontIsCheapest(q, isBuyer, x);
  }

  /** Two matches one after the other amount to a third. */
  ghost predicate AddUp(first: Match, second: Match, whole: Match) {
    && second.rest == whole.rest
    && first.left + second.left == whole.left
    && Value(first.fills) + Value(second.fills) == Value(whole.fills)
    && Filled(first.fills) + Filled(second.fills) == Filled(whole.fills)
  }

  /** Filling a, then b, is filling a + b: same queue, same value, same quantity left over. */
  lemma {:induction false} SplitOrder(q: seq<Entry>, isBuyer: bool, limit: real, a: real, b: real)
    requires Positive(q) && a >= 0.0 && b >= 0.0
    ensures var first := Greedy(q, isBuyer, limit, a);
            AddUp(first, Greedy(first.rest, isBuyer, limit, b), Greedy(q, isBuyer, limit, a + b))
  {
    if q == [] || a <= 0.0 || !Reaches(isBuyer, limit, q[0].price) {
    } else {
      if a < q[0].qty {
        SplitFront(q, isBuyer, limit, a, b);
      } else {
        SplitOrder(q[1..], isBuyer, limit, a - q[0].qty, b);
        SplitFull(q, isBuyer, limit, a, b);
      }
    }
  }

  lemma SplitFull(q: seq<Entry>, isBuyer: bool, limit: real, a: real, b: real)
    requires q != [] && 0.0 < q[0].qty <= a && b >= 0.0 && Reaches(isBuyer, limit, q[0].price)
    requires var first := Greedy(q[1..], isBuyer, limit, a - q[0].qty);
             AddUp(first, Greedy(first.rest, isBuyer, limit, b), Greedy(q[1..], isBuyer, limit, a - q[0].qty + b))
    ensures var first := Greedy(q, isBuyer, limit, a);
            AddUp(first, Greedy(first.rest, isBuyer, limit, b), Greedy(q, isBuyer, limit, a + b))
  {
  }

  /** A complete fill of the first order. */
  lemma FullFront(q: seq<Entry>, isBuyer: bool, limit: real, qty: real)
    requires q != [] && 0.0 < q[0].qty <= qty && Reaches(isBuyer, limit, q[0].price)
    ensures var m, r := Greedy(q, isBuyer, limit, qty), Greedy(q[1..], isBuyer, limit, qty - q[0].qty);
            && m.rest == r.rest && m.left == r.left
            && Value(m.fills) == Amount(q[0].price, q[0].qty) + Value(r.fills)
            && Filled(m.fills) == q[0].qty + Filled(r.fills)
  {
  }

  /** A partial fill of the first order. */
  lemma PartFront(q: seq<Entry>, isBuyer: bool, limit: real, qty: real)
    requires q != [] && 0.0 <= qty < q[0].qty && Reaches(isBuyer, limit, q[0].price)
    ensures var m := Greedy(q, isBuyer, limit, qty);
            && m.left == 0.0
            && m.rest == [q[0].(qty := q[0].qty - qty)] + q[1..]
            && Value(m.fills) == Amount(q[0].price, qty)
            && Filled(m.fills) == qty
  {
  }

  /** The first part takes only some of the first order. */
  lemma SplitFront(q: seq<Entry>, isBuyer: bool, limit: real, a: real, b: real)
    requires q != [] && 0.0 < a < q[0].qty && b >= 0.0 && Reaches(isBuyer, limit, q[0].price)
    ensures var first := Greedy(q, isBuyer, limit, a);
            AddUp(first, Greedy(first.rest, isBuyer, limit, b), Greedy(q, isBuyer, limit, a + b))
  {
    hide Greedy, Value, Filled;
    var p := q[0].(qty := q[0].qty - a);
    var rest := [p] + q[1..];
    PartFront(q, isBuyer, limit, a);
    assert rest[1..] == q[1..];
    var price := q[0].price;
    if a + b < q[0].qty {
      PartFront(q, isBuyer, limit, a + b);
      PartFront(rest, isBuyer, limit, b);
      assert price * (a + b) == price * a + price * b;
    } else {
      FullFront(q, isBuyer, limit, a + b);
      FullFront(rest, isBuyer, limit, b);
      assert b - p.qty == a + b - q[0].qty;
      assert price * q[0].qty == price * a + price * p.qty;
    }
  }
}
