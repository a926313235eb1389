/** Walking an order book: the allocation a market order gets, what it costs, and what the estimate says about it. */
module OrderBook {
  import opened Stats

  datatype Level = Level(price: real, amount: real)

  datatype Side = Buy | Sell

  function Notional(l: Level): real { l.price * l.amount }

  function Amount(l: Level): real { l.amount }

  ghost predicate NonNegative(levels: seq<Level>) {
    forall i :: 0 <= i < |levels| ==> levels[i].amount >= 0.0
  }

  /** Asks ascend, bids descend. */
  ghost predicate Ordered(side: Side, levels: seq<Level>) {
    forall i, j :: 0 <= i < j < |levels| ==>
      if side == Buy then levels[i].price <= levels[j].price else levels[i].price >= levels[j].price
  }

  // ----- allocations -----

  /** `xs` takes an admissible amount from every level. */
  ghost predicate Allocation(levels: seq<Level>, xs: seq<real>) {
    |xs| == |levels| && forall i :: 0 <= i < |xs| ==> 0.0 <= xs[i] <= levels[i].amount
  }

  /** The value of taking `xs[i]` from level `i`. */
  function Cost(levels: seq<Level>, xs: seq<real>): real
    requires |xs| == |levels|
  {
    if xs == [] then 0.0 else xs[0] * levels[0].price + Cost(levels[1..], xs[1..])
  }

  function Total(xs: seq<real>): real {
    if xs == [] then 0.0 else xs[0] + Total(xs[1..])
  }

  /** Level by level, as much as is left to take. */
  function Greedy(levels: seq<Level>, q: real): (xs: seq<real>)
    ensures |xs| == |levels|
  {
    if levels == [] then []
    else
      var x := if q <= 0.0 then 0.0 else Min(q, levels[0].amount);
      [x] + Greedy(levels[1..], q - x)
  }

  /** The number of levels that are reached with something left to take. */
  function Reached(levels: seq<Level>, q: real): (n: nat)
    ensures n <= |levels|
    ensures n == 0 <==> levels == [] || q <= 0.0
  {
    if levels == [] || q <= 0.0 then 0
    else 1 + Reached(levels[1..], q - Min(q, levels[0].amount))
  }

  /** The price of the last level reached. */
  function Marginal(levels: seq<Level>, q: real): real
    requires levels != []
  {
    var n := Reached(levels, q);
    levels[if n == 0 then 0 else n - 1].price
  }

  function Filled(levels: seq<Level>, q: real): real { Total(Greedy(levels, q)) }

  function Spent(levels: seq<Level>, q: real): real { Cost(levels, Greedy(levels, q)) }

  function Depth(levels: seq<Level>): real { Total(Map(levels, Amount)) }

  lemma {:induction false} GreedyIdle(levels: seq<Level>, q: real)
    requires q <= 0.0
    ensures Filled(levels, q) == Spent(levels, q) == 0.0
    ensures forall i :: 0 <= i < |levels| ==> Greedy(levels, q)[i] == 0.0
  {
    if levels != [] {
      GreedyIdle(levels[1..], q - 0.0);
    }
  }

  lemma {:induction false} DepthNonNegative(levels: seq<Level>)
    requires NonNegative(levels)
    ensures Depth(levels) >= 0.0
  {
    if levels != [] {
      assert Map(levels, Amount)[1..] == Map(levels[1..], Amount);
      DepthNonNegative(levels[1..]);
    }
  }

  /** The walk is an allocation, and fills the request as far as the book is deep. */
  lemma {:induction false} GreedyFills(levels: seq<Level>, q: real)
    requires NonNegative(levels)
    ensures Allocation(levels, Greedy(levels, q))
    ensures Filled(levels, q) == Min(Max(q, 0.0), Depth(levels))
  {
    if levels != [] {
      assert Map(levels, Amount)[1..] == Map(levels[1..], Amount);
      DepthNonNegative(levels[1..]);
      var x := Greedy(levels, q)[0];
      GreedyFills(levels[1..], q - x);
      assert Greedy(levels, q)[1..] == Greedy(levels[1..], q - x);
    }
  }

  /** A level is reached exactly when the levels before it do not fill the request. */
  lemma {:induction false} ReachedExactly(levels: seq<Level>, q: real, i: nat)
    requires NonNegative(levels) && i < |levels|
    ensures i < Reached(levels, q) <==> Depth(levels[..i]) < q
  {
    DepthNonNegative(levels[..i]);
    if i > 0 {
      var rest := levels[1..];
      assert rest[..i - 1] == levels[..i][1..];
      DepthCons(levels[..i]);
      DepthNonNegative(rest[..i - 1]);
      hide Depth;
      if q > 0.0 {
        ReachedExactly(rest, q - Min(q, levels[0].amount), i - 1);
      }
    }
  }

  lemma DepthCons(levels: seq<Level>)
    requires levels != []
    ensures Depth(levels) == levels[0].amount + Depth(levels[1..])
  {
    assert Map(levels, Amount)[1..] == Map(levels[1..], Amount);
  }

  /** What the walk leaves unfilled is what remains of the request, whatever the book holds. */
  lemma {:induction false} GreedyNeverOverfills(levels: seq<Level>, q: real)
    requires q >= 0.0
    ensures Filled(levels, q) <= q
  {
    if levels != [] {
      var x := Greedy(levels, q)[0];
      GreedyNeverOverfills(levels[1..], q - x);
      assert Greedy(levels, q)[1..] == Greedy(levels[1..], q - x);
    }
  }

  /** One level of the walk, seen from the front of what is left of the book. */
  lemma WalkStep(levels: seq<Level>, q: real, x: real, paid: real)
    requires levels != [] && q > 0.0 && x == Min(q, levels[0].amount) && paid == x * levels[0].price
    ensures Filled(levels, q) == x + Filled(levels[1..], q - x)
    ensures Spent(levels, q) == paid + Spent(levels[1..], q - x)
    ensures Reached(levels, q) == 1 + Reached(levels[1..], q - x)
  {
    assert Greedy(levels, q)[1..] == Greedy(levels[1..], q - x);
  }

  /** A cost relative to paying `w` for everything. */
  function Above(cost: real, filled: real, w: real): real { cost - w * filled }

  lemma AboveOrders(c1: real, c2: real, filled: real, w: real)
    ensures Above(c1, filled, w) >= Above(c2, filled, w) <==> c1 >= c2
  {
  }

  // ----- optimality, by complementary slackness -----

  /** `g` takes all of every level cheaper than `w` and nothing of every level dearer than `w`. */
  ghost predicate Slack(levels: seq<Level>, g: seq<real>, w: real)
    requires |g| == |levels|
  {
    forall i :: 0 <= i < |g| ==>
      && (levels[i].price < w ==> g[i] == levels[i].amount)
      && (levels[i].price > w ==> g[i] == 0.0)
  }

  /** What `xs` pays above a price of `w` for everything. */
  ghost function Excess(levels: seq<Level>, xs: seq<real>, w: real): real
    requires |xs| == |levels|
  {
    if xs == [] then 0.0 else Times(xs[0], levels[0].price - w) + Excess(levels[1..], xs[1..], w)
  }

  lemma {:induction false} ExcessIsCostAbove(levels: seq<Level>, xs: seq<real>, w: real)
    requires |xs| == |levels|
    ensures Excess(levels, xs, w) == Above(Cost(levels, xs), Total(xs), w)
  {
    if xs != [] {
      ExcessIsCostAbove(levels[1..], xs[1..], w);
      var x, p, t := xs[0], levels[0].price, Total(xs[1..]);
      assert w * (x + t) == w * x + w * t;
      assert x * (p - w) == x * p - w * x;
    }
  }

  lemma SlackAtLevel(x: real, g: real, amount: real, d: real)
    requires 0.0 <= x <= amount
    requires d < 0.0 ==> g == amount
    requires d > 0.0 ==> g == 0.0
    ensures Times(x, d) >= Times(g, d)
  {
  }

  lemma {:induction false} SlackBound(levels: seq<Level>, g: seq<real>, w: real, xs: seq<real>)
    requires Allocation(levels, xs) && |g| == |levels| && Slack(levels, g, w)
    ensures Excess(levels, xs, w) >= Excess(levels, g, w)
  {
    hide Times;
    if xs != [] {
      SlackBound(levels[1..], g[1..], w, xs[1..]);
      SlackAtLevel(xs[0], g[0], levels[0].amount, levels[0].price - w);
    }
  }

  /** On an ascending book the walk is slack at its own marginal price. */
  lemma {:induction false} GreedySlack(levels: seq<Level>, q: real)
    requires levels != [] && NonNegative(levels) && Ordered(Buy, levels)
    ensures Slack(levels, Greedy(levels, q), Marginal(levels, q))
  {
    var g := Greedy(levels, q);
    if q <= 0.0 {
      GreedyIdle(levels, q);
    } else {
      var rest := levels[1..];
      var q' := q - g[0];
      assert g[1..] == Greedy(rest, q');
      if rest != [] {
        GreedySlack(rest, q');
        if q' <= 0.0 {
          GreedyIdle(rest, q');
        }
        forall i | 0 <= i < |g|
          ensures levels[i].price < Marginal(levels, q) ==> g[i] == levels[i].amount
          ensures levels[i].price > Marginal(levels, q) ==> g[i] == 0.0
        {
          if i > 0 {
            assert g[i] == Greedy(rest, q')[i - 1] && levels[i] == rest[i - 1];
          }
        }
      }
    }
  }

  lemma EmptyCost(levels: seq<Level>, xs: seq<real>, q: real)
    requires levels == [] && xs == []
    ensures Cost(levels, xs) == Spent(levels, q) == 0.0
  {
  }

  /** The least any allocation of the same total can cost is what the walk over ascending asks pays. */
  lemma GreedyIsCheapest(levels: seq<Level>, q: real, xs: seq<real>)
    requires NonNegative(levels) && Ordered(Buy, levels)
    requires Allocation(levels, xs) && Total(xs) == Filled(levels, q)
    ensures Cost(levels, xs) >= Spent(levels, q)
  {
    hide Greedy, Cost, Total, Excess, Reached, Marginal, Above;
    if levels == [] {
      EmptyCost(levels, xs, q);
    } else {
      GreedyFills(levels, q);
      GreedySlack(levels, q);
      var g, w := Greedy(levels, q), Marginal(levels, q);
      SlackBound(levels, g, w, xs);
      ExcessIsCostAbove(levels, g, w);
      ExcessIsCostAbove(levels, xs, w);
      AboveOrders(Cost(levels, xs), Spent(levels, q), Filled(levels, q), w);
    }
  }

  // ----- averages -----

  lemma ScaleSign(x: real, d: real)
    requires x >= 0.0
    ensures d >= 0.0 ==> Times(x, d) >= 0.0
    ensures d <= 0.0 ==> Times(x, d) <= 0.0
    ensures Times(x, 0.0) == Times(0.0, d) == 0.0
  {
  }

  lemma {:induction false} ExcessOverCheapest(levels: seq<Level>, g: seq<real>, w: real)
    requires Allocation(levels, g)
    requires forall i :: 0 <= i < |levels| ==> levels[i].price >= w
    ensures Excess(levels, g, w) >= 0.0
  {
    hide Times;
    if g != [] {
      ExcessOverCheapest(levels[1..], g[1..], w);
      ScaleSign(g[0], levels[0].price - w);
    }
  }

  lemma {:induction false} ExcessOverDearest(levels: seq<Level>, g: seq<real>, w: real)
    requires Allocation(levels, g)
    requires forall i :: 0 <= i < |levels| && levels[i].price > w ==> g[i] == 0.0
    ensures Excess(levels, g, w) <= 0.0
  {
    hide Times;
    if g != [] {
      ExcessOverDearest(levels[1..], g[1..], w);
      ScaleSign(g[0], levels[0].price - w);
    }
  }

  /** On an ascending book: best price <= average price <= marginal price, stated without division. */
  lemma AscendingBounds(levels: seq<Level>, q: real)
    requires levels != [] && NonNegative(levels) && Ordered(Buy, levels)
    ensures 0.0 <= Filled(levels, q)
    ensures levels[0].price <= Marginal(levels, q)
    ensures Above(Spent(levels, q), Filled(levels, q), levels[0].price) >= 0.0
    ensures Above(Spent(levels, q), Filled(levels, q), Marginal(levels, q)) <= 0.0
  {
    var g, b, w := Greedy(levels, q), levels[0].price, Marginal(levels, q);
    GreedyFills(levels, q);
    DepthNonNegative(levels);
    GreedySlack(levels, q);
    ExcessOverCheapest(levels, g, b);
    ExcessOverDearest(levels, g, w);
    ExcessIsCostAbove(levels, g, b);
    ExcessIsCostAbove(levels, g, w);
  }

  /** Every unit past the first request costs at least the first request's marginal price. */
  lemma AscendingGrowth(levels: seq<Level>, q1: real, q2: real)
    requires levels != [] && NonNegative(levels) && Ordered(Buy, levels)
    requires q1 <= q2
    ensures Filled(levels, q1) <= Filled(levels, q2)
    ensures Above(Spent(levels, q2), Filled(levels, q2), Marginal(levels, q1))
         >= Above(Spent(levels, q1), Filled(levels, q1), Marginal(levels, q1))
  {
    GreedyFills(levels, q1);
    GreedyFills(levels, q2);
    GreedySlack(levels, q1);
    var g1, g2, w := Greedy(levels, q1), Greedy(levels, q2), Marginal(levels, q1);
    SlackBound(levels, g1, w, g2);
    ExcessIsCostAbove(levels, g1, w);
    ExcessIsCostAbove(levels, g2, w);
  }

  function Average(cost: real, filled: real, best: real): real {
    if filled > 0.0 then cost / filled else best
  }

  lemma AverageTimesFilled(cost: real, filled: real, best: real)
    requires filled > 0.0
    ensures Average(cost, filled, best) * filled == cost
  {
  }

  lemma DivideBound(a: real, cost: real, filled: real)
    requires filled > 0.0
    ensures a * filled <= cost ==> a <= cost / filled
    ensures a * filled >= cost ==> a >= cost / filled
  {
    var avg := cost / filled;
    assert avg * filled == cost;
    if a > avg {
      assert (a - avg) * filled > 0.0;
    } else if a < avg {
      assert (avg - a) * filled > 0.0;
    }
  }

  lemma AverageBetween(cost: real, filled: real, best: real, worst: real)
    requires filled >= 0.0 && best <= worst
    requires Above(cost, filled, worst) <= 0.0 <= Above(cost, filled, best)
    ensures best <= Average(cost, filled, best) <= worst
    ensures Abs(Average(cost, filled, best) - best) * filled == Above(cost, filled, best)
  {
    if filled > 0.0 {
      DivideBound(best, cost, filled);
      DivideBound(worst, cost, filled);
      AverageTimesFilled(cost, filled, best);
    }
  }

  lemma WidenGap(k: real, w: real, f1: real, f2: real)
    requires k <= w && f1 <= f2
    ensures k * f2 - k * f1 <= w * f2 - w * f1
  {
    var d, df := w - k, f2 - f1;
    ScaleSign(d, df);
    assert d * df == (w * f2 - w * f1) - (k * f2 - k * f1);
  }

  lemma AverageGrows(c1: real, f1: real, c2: real, f2: real, best: real, w: real)
    requires 0.0 <= f1 <= f2
    requires Above(c1, f1, w) <= 0.0 <= Above(c1, f1, best) && Above(c2, f2, best) >= 0.0 && best <= w
    requires Above(c2, f2, w) >= Above(c1, f1, w)
    ensures Average(c1, f1, best) <= Average(c2, f2, best)
    ensures Above(c1, f1, best) <= Above(c2, f2, best)
  {
    WidenGap(best, w, f1, f2);
    if f1 > 0.0 {
      var a := Average(c1, f1, best);
      AverageBetween(c1, f1, best, w);
      AverageTimesFilled(c1, f1, best);
      WidenGap(a, w, f1, f2);
      DivideBound(a, c2, f2);
    } else if f2 > 0.0 {
      DivideBound(best, c2, f2);
    }
  }

  // ----- selling: the same walk over negated prices -----

  function Negated(l: Level): Level { Level(-l.price, l.amount) }

  function Flip(levels: seq<Level>): (r: seq<Level>)
    ensures |r| == |levels|
  {
    Map(levels, Negated)
  }

  lemma {:induction false} FlipGreedy(levels: seq<Level>, q: real)
    ensures Greedy(Flip(levels), q) == Greedy(levels, q)
    ensures Reached(Flip(levels), q) == Reached(levels, q)
  {
    if levels != [] {
      assert Flip(levels)[1..] == Flip(levels[1..]);
      FlipGreedy(levels[1..], q - Greedy(levels, q)[0]);
      FlipGreedy(levels[1..], q - Min(q, levels[0].amount));
    }
  }

  lemma {:induction false} FlipCost(levels: seq<Level>, xs: seq<real>)
    requires |xs| == |levels|
    ensures Cost(Flip(levels), xs) == -Cost(levels, xs)
  {
    if levels != [] {
      assert Flip(levels)[1..] == Flip(levels[1..]);
      FlipCost(levels[1..], xs[1..]);
      assert xs[0] * -levels[0].price == -(xs[0] * levels[0].price);
    }
  }

  lemma FlipBook(levels: seq<Level>, q: real)
    requires levels != []
    ensures Filled(Flip(levels), q) == Filled(levels, q)
    ensures Spent(Flip(levels), q) == -Spent(levels, q)
    ensures Marginal(Flip(levels), q) == -Marginal(levels, q)
  {
    FlipGreedy(levels, q);
    FlipCost(levels, Greedy(levels, q));
  }

  lemma FlipOrdered(levels: seq<Level>)
    requires NonNegative(levels) && Ordered(Sell, levels)
    ensures NonNegative(Flip(levels)) && Ordered(Buy, Flip(levels))
  {
  }

  lemma DescendingBounds(levels: seq<Level>, q: real)
    requires levels != [] && NonNegative(levels) && Ordered(Sell, levels)
    ensures 0.0 <= Filled(levels, q)
    ensures levels[0].price >= Marginal(levels, q)
    ensures Above(Spent(levels, q), Filled(levels, q), levels[0].price) <= 0.0
    ensures Above(Spent(levels, q), Filled(levels, q), Marginal(levels, q)) >= 0.0
  {
    FlipOrdered(levels);
    FlipBook(levels, q);
    AscendingBounds(Flip(levels), q);
    NegateAbove(Spent(levels, q), Filled(levels, q), levels[0].price);
    NegateAbove(Spent(levels, q), Filled(levels, q), Marginal(levels, q));
  }

  lemma DescendingGrowth(levels: seq<Level>, q1: real, q2: real)
    requires levels != [] && NonNegative(levels) && Ordered(Sell, levels)
    requires q1 <= q2
    ensures Filled(levels, q1) <= Filled(levels, q2)
    ensures Above(Spent(levels, q2), Filled(levels, q2), Marginal(levels, q1))
         <= Above(Spent(levels, q1), Filled(levels, q1), Marginal(levels, q1))
  {
    FlipOrdered(levels);
    FlipBook(levels, q1);
    FlipBook(levels, q2);
    AscendingGrowth(Flip(levels), q1, q2);
    NegateAbove(Spent(levels, q1), Filled(levels, q1), Marginal(levels, q1));
    NegateAbove(Spent(levels, q2), Filled(levels, q2), Marginal(levels, q1));
  }

  lemma NegateAbove(c: real, f: real, w: real)
    ensures Above(-c, f, -w) == -Above(c, f, w)
  {
    NegateProduct(w, f);
  }

  lemma NegateProduct(x: real, y: real)
    ensures (-x) * y == -(x * y)
  {
  }

  lemma NegateAverage(cost: real, filled: real, best: real)
    ensures Average(-cost, filled, -best) == -Average(cost, filled, best)
  {
  }

  /** The most any allocation of the same total can earn is what the walk over descending bids earns. */
  lemma GreedyIsDearest(levels: seq<Level>, q: real, xs: seq<real>)
    requires NonNegative(levels) && Ordered(Sell, levels)
    requires Allocation(levels, xs) && Total(xs) == Filled(levels, q)
    ensures Cost(levels, xs) <= Spent(levels, q)
  {
    if levels != [] {
      FlipOrdered(levels);
      FlipBook(levels, q);
      GreedyIsCheapest(Flip(levels), q, xs);
      FlipCost(levels, xs);
    }
  }
}
