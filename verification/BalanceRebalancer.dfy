/** Detecting uneven balances and suggesting transfers, and exactly when the suggestions overshoot. */
module Rebalancing {
  import opened Wrappers
  import opened Stats

  // ----- every donor against every receiver -----

  /** What one party moves when it is paired with everyone on the other side. */
  function Flow(x: real, others: seq<real>): real {
    if others == [] then 0.0 else Flow(x, others[..|others| - 1]) + Min(x, others[|others| - 1])
  }

  ghost predicate Positive(xs: seq<real>) {
    forall i :: 0 <= i < |xs| ==> xs[i] > 0.0
  }

  /** Nobody is pushed past its own gap. */
  ghost predicate WithinGaps(xs: seq<real>, others: seq<real>) {
    forall i :: 0 <= i < |xs| ==> Flow(xs[i], others) <= xs[i]
  }

  lemma {:induction false} FlowBounds(x: real, others: seq<real>)
    requires x > 0.0 && Positive(others)
    ensures 0.0 <= Flow(x, others) <= Sum(others)
    ensures (forall i :: 0 <= i < |others| ==> others[i] <= x) ==> Flow(x, others) == Sum(others)
    ensures (exists i :: 0 <= i < |others| && others[i] >= x) ==> Flow(x, others) >= x
    ensures (exists i :: 0 <= i < |others| && others[i] >= x) && |others| >= 2 ==> Flow(x, others) > x
    ensures others != [] ==> Flow(x, others) > 0.0
  {
    if others != [] {
      var init := others[..|others| - 1];
      FlowBounds(x, init);
      assert forall i :: 0 <= i < |init| ==> init[i] == others[i];
      if i :| 0 <= i < |others| && others[i] >= x {
        if i < |init| {
          assert init[i] >= x;
        }
      }
    }
  }

  lemma SumOne(xs: seq<real>)
    requires |xs| == 1
    ensures Sum(xs) == xs[0]
  {
    assert xs[..0] == [];
  }

  /** A sole donor stays within its gap iff there is nobody, or one receiver, or no more wanted than it has to give. */
  lemma SoleParty(x: real, others: seq<real>)
    requires x > 0.0 && Positive(others)
    ensures Flow(x, others) <= x <==> |others| <= 1 || Sum(others) <= x
  {
    FlowBounds(x, others);
    if |others| == 1 {
      assert others[..0] == [];
    } else if |others| >= 2 && Sum(others) > x {
      if forall i :: 0 <= i < |others| ==> others[i] <= x {
      } else {
        var i :| 0 <= i < |others| && others[i] > x;
        assert others[i] >= x;
      }
    }
  }

  lemma {:induction false} SmallestOf(xs: seq<real>) returns (m: nat)
    requires xs != []
    ensures m < |xs| && forall i :: 0 <= i < |xs| ==> xs[m] <= xs[i]
  {
    m := 0;
    if |xs| > 1 {
      var init := xs[..|xs| - 1];
      m := SmallestOf(init);
      assert forall i :: 0 <= i < |init| ==> init[i] == xs[i];
      if xs[|xs| - 1] < xs[m] {
        m := |xs| - 1;
      }
    }
  }

  /** With several on both sides, whoever has the smallest gap of all is always pushed past it. */
  lemma SeveralOnBothSidesOvershoot(xs: seq<real>, ys: seq<real>)
    requires Positive(xs) && Positive(ys) && |xs| >= 2 && |ys| >= 2
    ensures !(WithinGaps(xs, ys) && WithinGaps(ys, xs))
  {
    var i := SmallestOf(xs);
    var j := SmallestOf(ys);
    if xs[i] <= ys[j] {
      FlowBounds(xs[i], ys);
      assert ys[j] >= xs[i];
    } else {
      FlowBounds(ys[j], xs);
      assert xs[i] >= ys[j];
    }
  }

  lemma WithinOne(x: real, ys: seq<real>)
    requires x > 0.0 && Positive(ys)
    ensures WithinGaps(ys, [x])
  {
    forall j | 0 <= j < |ys|
      ensures Flow(ys[j], [x]) <= ys[j]
    {
      assert [x][..0] == [];
      assert Flow(ys[j], [x]) == Min(ys[j], x);
    }
  }

  /**
   * When applying every suggestion keeps everyone within its gap, exactly: no donor, no receiver, or one party on a
   * side whose gap is not smaller than all the gaps on the other side together (or faces a single partner).
   */
  lemma OvershootCondition(xs: seq<real>, ys: seq<real>)
    requires Positive(xs) && Positive(ys)
    ensures WithinGaps(xs, ys) && WithinGaps(ys, xs) <==>
            || xs == [] || ys == []
            || (|xs| == 1 && (|ys| == 1 || Sum(ys) <= xs[0]))
            || (|ys| == 1 && Sum(xs) <= ys[0])
  {
    if xs == [] || ys == [] {
    } else if |xs| == 1 {
      SoleParty(xs[0], ys);
      assert xs == [xs[0]];
      WithinOne(xs[0], ys);
      SumOne(xs);
      if |ys| == 1 {
        SumOne(ys);
      }
    } else if |ys| == 1 {
      SoleParty(ys[0], xs);
      assert ys == [ys[0]];
      WithinOne(ys[0], xs);
    } else {
      SeveralOnBothSidesOvershoot(xs, ys);
    }
  }

  // ----- suggestions -----

  datatype Balance = Balance(currency: string, available: real, valueUsd: real)

  datatype Holding = Holding(exchange: string, balances: seq<Balance>)

  datatype Share = Share(exchange: string, available: real, valueUsd: real, sharePercent: real)

  datatype Priority = Low | Medium | High

  /** An amount of `None` has no bound: that is what dividing by a value of zero yields. */
  datatype Suggestion = Suggestion(
    fromExchange: string, toExchange: string, amount: Option<real>, valueUsd: real, priority: Priority)

  datatype Report = Report(exchanges: seq<Share>, maxSharePercent: real, minSharePercent: real, isImbalanced: bool)

  datatype Config = Config(imbalanceThresholdPercent: real, minTransferUsd: real, targetSharePercent: real)

  function ValueOf(s: Share): real { s.valueUsd }

  /** How far a share lies from the target. */
  function Gap(s: Share, target: real): real { Abs(s.valueUsd - target) }

  /** A donor that is not passed over. */
  predicate CanGive(s: Share, target: real, min: real) {
    s.valueUsd - target >= min && s.available > 0.0 && s.valueUsd >= 0.0
  }

  predicate CanTake(s: Share, target: real, min: real) { target - s.valueUsd >= min }

  function PriorityOf(imbalance: real): (r: Priority)
    ensures r == High <==> imbalance > 60.0
    ensures r == Low <==> imbalance <= 40.0
  {
    if imbalance > 60.0 then High else if imbalance > 40.0 then Medium else Low
  }

  /** The part of what a donor has available that is worth `usd`. */
  function AmountFor(over: Share, usd: real): Option<real> {
    if over.available <= 0.0 then Some(0.0)
    else if over.valueUsd == 0.0 then None
    else Some(usd / over.valueUsd * over.available)
  }

  function Suggest(over: Share, under: Share, target: real, imbalance: real): Suggestion
  {
    var usd := Min(Gap(over, target), Gap(under, target));
    Suggestion(over.exchange, under.exchange, AmountFor(over, usd), usd, PriorityOf(imbalance))
  }

  ghost predicate AllOver(os: seq<Share>, target: real) { forall i :: 0 <= i < |os| ==> os[i].valueUsd > target }

  ghost predicate AllUnder(us: seq<Share>, target: real) { forall i :: 0 <= i < |us| ==> us[i].valueUsd < target }

  /** Worth making, within both gaps, and payable from what the donor has available. */
  ghost predicate Sound(x: Suggestion, over: Share, under: Share, target: real, min: real) {
    && x.fromExchange == over.exchange && x.toExchange == under.exchange
    && min <= x.valueUsd && 0.0 < x.valueUsd <= over.valueUsd - target && x.valueUsd <= target - under.valueUsd
    && (target >= 0.0 ==> && x.amount.Some? && 0.0 < x.amount.value <= over.available
                          && Times(x.amount.value, over.valueUsd) == Times(x.valueUsd, over.available))
  }

  lemma SuggestionIsSound(over: Share, under: Share, target: real, min: real, imbalance: real)
    requires over.valueUsd > target && under.valueUsd < target
    requires CanGive(over, target, min) && CanTake(under, target, min)
    ensures Sound(Suggest(over, under, target, imbalance), over, under, target, min)
  {
    if target >= 0.0 {
      AmountIsPart(over, Min(Gap(over, target), Gap(under, target)));
    }
  }

  lemma AmountIsPart(over: Share, usd: real)
    requires 0.0 < usd <= over.valueUsd && over.available > 0.0
    ensures var x := AmountFor(over, usd);
            x.Some? && 0.0 < x.value <= over.available && Times(x.value, over.valueUsd) == Times(usd, over.available)
  {
    var v, a := over.valueUsd, over.available;
    var part := usd / v;
    assert part * v == usd;
    Portion(part, usd, v);
    assert 0.0 < part * a <= a by {
      assert (1.0 - part) * a >= 0.0;
    }
    assert part * a * v == part * v * a;
  }

  /** Which amounts get past the last check. */
  lemma AmountSign(over: Share, usd: real)
    requires usd > 0.0
    ensures var x := AmountFor(over, usd);
            (x.None? || x.value > 0.0) <==> over.available > 0.0 && over.valueUsd >= 0.0
  {
    if over.available > 0.0 && over.valueUsd != 0.0 {
      var part := usd / over.valueUsd;
      assert part * over.valueUsd == usd;
      SameSign(part, over.valueUsd);
      assert part > 0.0 <==> part * over.available > 0.0;
    }
  }

  lemma SameSign(part: real, v: real)
    requires part * v > 0.0
    ensures part > 0.0 <==> v > 0.0
  {
  }

  lemma Portion(part: real, usd: real, v: real)
    requires 0.0 < usd <= v && part * v == usd
    ensures 0.0 < part <= 1.0
  {
  }

  /** The suggestions from one donor, receiver by receiver. */
  function Row(over: Share, us: seq<Share>, target: real, min: real, imbalance: real): seq<Suggestion>
  {
    if us == [] then []
    else
      var u := us[|us| - 1];
      Row(over, us[..|us| - 1], target, min, imbalance)
      + if CanGive(over, target, min) && CanTake(u, target, min) then [Suggest(over, u, target, imbalance)] else []
  }

  function Grid(os: seq<Share>, us: seq<Share>, target: real, min: real, imbalance: real): seq<Suggestion>
  {
    if os == [] then []
    else Grid(os[..|os| - 1], us, target, min, imbalance) + Row(os[|os| - 1], us, target, min, imbalance)
  }

  // ----- what the suggestions move -----

  function MovedFrom(ss: seq<Suggestion>, exchange: string): real {
    if ss == [] then 0.0
    else MovedFrom(ss[..|ss| - 1], exchange)
         + if ss[|ss| - 1].fromExchange == exchange then ss[|ss| - 1].valueUsd else 0.0
  }

  function MovedTo(ss: seq<Suggestion>, exchange: string): real {
    if ss == [] then 0.0
    else MovedTo(ss[..|ss| - 1], exchange)
         + if ss[|ss| - 1].toExchange == exchange then ss[|ss| - 1].valueUsd else 0.0
  }

  lemma {:induction false} MovedConcat(a: seq<Suggestion>, b: seq<Suggestion>, exchange: string)
    ensures MovedFrom(a + b, exchange) == MovedFrom(a, exchange) + MovedFrom(b, exchange)
    ensures MovedTo(a + b, exchange) == MovedTo(a, exchange) + MovedTo(b, exchange)
  {
    if b == [] {
      assert a + b == a;
    } else {
      MovedConcat(a, b[..|b| - 1], exchange);
      assert (a + b)[..|a + b| - 1] == a + b[..|b| - 1];
    }
  }

  /** The gaps of the donors that give. */
  function Givers(os: seq<Share>, target: real, min: real): seq<real> {
    if os == [] then []
    else Givers(os[..|os| - 1], target, min)
         + if CanGive(os[|os| - 1], target, min) then [Gap(os[|os| - 1], target)] else []
  }

  /** The gaps of the receivers that take. */
  function Takers(us: seq<Share>, target: real, min: real): seq<real> {
    if us == [] then []
    else Takers(us[..|us| - 1], target, min)
         + if CanTake(us[|us| - 1], target, min) then [Gap(us[|us| - 1], target)] else []
  }

  lemma FlowSnoc(x: real, ys: seq<real>, y: real)
    ensures Flow(x, ys + [y]) == Flow(x, ys) + Min(x, y)
  {
    assert (ys + [y])[..|ys|] == ys;
  }

  lemma MovedOne(s: Suggestion, exchange: string)
    ensures MovedFrom([s], exchange) == if s.fromExchange == exchange then s.valueUsd else 0.0
    ensures MovedTo([s], exchange) == if s.toExchange == exchange then s.valueUsd else 0.0
  {
    assert [s][..0] == [];
  }

  /** A donor's row moves its flow against the takers, out of its own exchange only. */
  lemma {:induction false} RowMovesFrom(
    over: Share, us: seq<Share>, target: real, min: real, imb: real, exchange: string)
    ensures MovedFrom(Row(over, us, target, min, imb), exchange) ==
            if exchange == over.exchange && CanGive(over, target, min)
            then Flow(Gap(over, target), Takers(us, target, min))
            else 0.0
  {
    if us != [] {
      var init, u := us[..|us| - 1], us[|us| - 1];
      RowMovesFrom(over, init, target, min, imb, exchange);
      var row := Row(over, init, target, min, imb);
      if CanTake(u, target, min) {
        FlowSnoc(Gap(over, target), Takers(init, target, min), Gap(u, target));
        if CanGive(over, target, min) {
          var x := Suggest(over, u, target, imb);
          MovedConcat(row, [x], exchange);
          MovedOne(x, exchange);
        } else {
          assert row + [] == row;
        }
      } else {
        assert row + [] == row;
        assert Takers(init, target, min) + [] == Takers(init, target, min);
      }
    }
  }

  ghost predicate Distinct(ss: seq<Share>) {
    forall i, j :: 0 <= i < j < |ss| ==> ss[i].exchange != ss[j].exchange
  }

  lemma {:induction false} AbsentFrom(
    ss: seq<Share>, us: seq<Share>, target: real, min: real, imb: real, exchange: string)
    requires forall i :: 0 <= i < |ss| ==> ss[i].exchange != exchange
    ensures MovedFrom(Grid(ss, us, target, min, imb), exchange) == 0.0
  {
    if ss != [] {
      var init, o := ss[..|ss| - 1], ss[|ss| - 1];
      AbsentFrom(init, us, target, min, imb, exchange);
      RowMovesFrom(o, us, target, min, imb, exchange);
      MovedConcat(Grid(init, us, target, min, imb), Row(o, us, target, min, imb), exchange);
    }
  }

  lemma {:induction false} GridMovesFrom(os: seq<Share>, us: seq<Share>, target: real, min: real, imb: real, k: nat)
    requires Distinct(os) && k < |os|
    ensures MovedFrom(Grid(os, us, target, min, imb), os[k].exchange) ==
            if CanGive(os[k], target, min) then Flow(Gap(os[k], target), Takers(us, target, min)) else 0.0
  {
    hide Row, Flow, Takers, MovedFrom;
    var init, o := os[..|os| - 1], os[|os| - 1];
    RowMovesFrom(o, us, target, min, imb, os[k].exchange);
    MovedConcat(Grid(init, us, target, min, imb), Row(o, us, target, min, imb), os[k].exchange);
    if k < |init| {
      GridMovesFrom(init, us, target, min, imb, k);
    } else {
      AbsentFrom(init, us, target, min, imb, o.exchange);
    }
  }

  lemma {:induction false} AbsentTo(over: Share, us: seq<Share>, target: real, min: real, imb: real, exchange: string)
    requires forall i :: 0 <= i < |us| ==> us[i].exchange != exchange
    ensures MovedTo(Row(over, us, target, min, imb), exchange) == 0.0
  {
    if us != [] {
      var init, u := us[..|us| - 1], us[|us| - 1];
      var row := Row(over, init, target, min, imb);
      AbsentTo(over, init, target, min, imb, exchange);
      var x := Suggest(over, u, target, imb);
      MovedConcat(row, [x], exchange);
      MovedOne(x, exchange);
      assert row + [] == row;
    }
  }

  /** A donor's row brings each taker the smaller of the two gaps. */
  lemma {:induction false} RowMovesTo(over: Share, us: seq<Share>, target: real, min: real, imb: real, k: nat)
    requires Distinct(us) && k < |us|
    ensures MovedTo(Row(over, us, target, min, imb), us[k].exchange) ==
            if CanGive(over, target, min) && CanTake(us[k], target, min) then Min(Gap(over, target), Gap(us[k], target))
            else 0.0
  {
    var init, u := us[..|us| - 1], us[|us| - 1];
    var row, x := Row(over, init, target, min, imb), Suggest(over, u, target, imb);
    if k < |init| {
      RowMovesTo(over, init, target, min, imb, k);
    } else {
      AbsentTo(over, init, target, min, imb, u.exchange);
    }
    MovedConcat(row, [x], us[k].exchange);
    MovedOne(x, us[k].exchange);
    assert row + [] == row;
  }

  lemma {:induction false} GridMovesTo(os: seq<Share>, us: seq<Share>, target: real, min: real, imb: real, k: nat)
    requires Distinct(us) && k < |us|
    ensures MovedTo(Grid(os, us, target, min, imb), us[k].exchange) ==
            if CanTake(us[k], target, min) then Flow(Gap(us[k], target), Givers(os, target, min)) else 0.0
  {
    hide Row, Flow, MovedTo, CanTake;
    if os == [] {
      NothingMoves(us[k].exchange, Gap(us[k], target));
    } else {
      var init, o := os[..|os| - 1], os[|os| - 1];
      GridMovesTo(init, us, target, min, imb, k);
      RowMovesTo(o, us, target, min, imb, k);
      MovedConcat(Grid(init, us, target, min, imb), Row(o, us, target, min, imb), us[k].exchange);
      if CanGive(o, target, min) {
        FlowSnoc(Gap(us[k], target), Givers(init, target, min), Gap(o, target));
      } else {
        assert Givers(init, target, min) + [] == Givers(init, target, min);
      }
    }
  }

  lemma NothingMoves(exchange: string, x: real)
    ensures MovedTo([], exchange) == Flow(x, []) == 0.0
  {
  }

  /** No donor gives more than its excess, no receiver gets more than its deficit. */
  ghost predicate StaysWithinTarget(os: seq<Share>, us: seq<Share>, ss: seq<Suggestion>, target: real) {
    && (forall i :: 0 <= i < |os| ==> MovedFrom(ss, os[i].exchange) <= os[i].valueUsd - target)
    && (forall j :: 0 <= j < |us| ==> MovedTo(ss, us[j].exchange) <= target - us[j].valueUsd)
  }

  /** Where no party's gap is outrun: the guard a caller can evaluate before applying anything. */
  predicate Unambiguous(givers: seq<real>, takers: seq<real>) {
    || givers == [] || takers == []
    || (|givers| == 1 && (|takers| == 1 || Sum(takers) <= givers[0]))
    || (|takers| == 1 && Sum(givers) <= takers[0])
  }

  lemma {:induction false} GiversContent(os: seq<Share>, target: real, min: real)
    requires AllOver(os, target)
    ensures Positive(Givers(os, target, min))
    ensures forall k :: 0 <= k < |os| && CanGive(os[k], target, min) ==> Gap(os[k], target) in Givers(os, target, min)
    ensures forall g :: g in Givers(os, target, min) ==>
              exists k :: 0 <= k < |os| && CanGive(os[k], target, min) && Gap(os[k], target) == g
  {
    if os != [] {
      var init := os[..|os| - 1];
      GiversContent(init, target, min);
      assert forall k :: 0 <= k < |init| ==> init[k] == os[k];
    }
  }

  lemma {:induction false} TakersContent(us: seq<Share>, target: real, min: real)
    requires AllUnder(us, target)
    ensures Positive(Takers(us, target, min))
    ensures forall k :: 0 <= k < |us| && CanTake(us[k], target, min) ==> Gap(us[k], target) in Takers(us, target, min)
    ensures forall g :: g in Takers(us, target, min) ==>
              exists k :: 0 <= k < |us| && CanTake(us[k], target, min) && Gap(us[k], target) == g
  {
    if us != [] {
      var init := us[..|us| - 1];
      TakersContent(init, target, min);
      assert forall k :: 0 <= k < |init| ==> init[k] == us[k];
    }
  }

  /** Each suggestion is made against the full gaps, so together they overshoot unless the gaps leave no choice. */
  lemma SuggestionsStayWithinTarget(os: seq<Share>, us: seq<Share>, target: real, min: real, imb: real)
    requires AllOver(os, target) && AllUnder(us, target) && Distinct(os) && Distinct(us)
    ensures StaysWithinTarget(os, us, Grid(os, us, target, min, imb), target) <==>
            Unambiguous(Givers(os, target, min), Takers(us, target, min))
  {
    hide Grid, Flow, Givers, Takers, MovedFrom, MovedTo, CanGive, CanTake;
    var ss, xs, ys := Grid(os, us, target, min, imb), Givers(os, target, min), Takers(us, target, min);
    GiversContent(os, target, min);
    TakersContent(us, target, min);
    OvershootCondition(xs, ys);
    DonorSide(os, us, target, min, imb);
    ReceiverSide(os, us, target, min, imb);
  }

  lemma DonorSide(os: seq<Share>, us: seq<Share>, target: real, min: real, imb: real)
    requires AllOver(os, target) && Distinct(os)
    ensures (forall i :: 0 <= i < |os| ==>
               MovedFrom(Grid(os, us, target, min, imb), os[i].exchange) <= os[i].valueUsd - target)
            <==> WithinGaps(Givers(os, target, min), Takers(us, target, min))
  {
    hide Grid, Flow, Givers, Takers, MovedFrom, CanGive;
    var xs, ys := Givers(os, target, min), Takers(us, target, min);
    GiversContent(os, target, min);
    forall i | 0 <= i < |os|
      ensures MovedFrom(Grid(os, us, target, min, imb), os[i].exchange) ==
              if CanGive(os[i], target, min) then Flow(Gap(os[i], target), ys) else 0.0
    {
      GridMovesFrom(os, us, target, min, imb, i);
    }
    if WithinGaps(xs, ys) {
      forall i | 0 <= i < |os| && CanGive(os[i], target, min)
        ensures Flow(Gap(os[i], target), ys) <= Gap(os[i], target)
      {
        var k :| 0 <= k < |xs| && xs[k] == Gap(os[i], target);
      }
    } else {
      var k :| 0 <= k < |xs| && Flow(xs[k], ys) > xs[k];
      assert xs[k] in xs;
    }
  }

  lemma ReceiverSide(os: seq<Share>, us: seq<Share>, target: real, min: real, imb: real)
    requires AllOver(os, target) && AllUnder(us, target) && Distinct(us)
    ensures (forall j :: 0 <= j < |us| ==>
               MovedTo(Grid(os, us, target, min, imb), us[j].exchange) <= target - us[j].valueUsd)
            <==> WithinGaps(Takers(us, target, min), Givers(os, target, min))
  {
    hide Grid, Flow, Givers, Takers, MovedTo, CanTake;
    var xs, ys := Givers(os, target, min), Takers(us, target, min);
    TakersContent(us, target, min);
    forall j | 0 <= j < |us|
      ensures MovedTo(Grid(os, us, target, min, imb), us[j].exchange) ==
              if CanTake(us[j], target, min) then Flow(Gap(us[j], target), xs) else 0.0
    {
      GridMovesTo(os, us, target, min, imb, j);
    }
    if WithinGaps(ys, xs) {
      forall j | 0 <= j < |us| && CanTake(us[j], target, min)
        ensures Flow(Gap(us[j], target), xs) <= Gap(us[j], target)
      {
        var k :| 0 <= k < |ys| && ys[k] == Gap(us[j], target);
      }
    } else {
      var k :| 0 <= k < |ys| && Flow(ys[k], xs) > ys[k];
      assert ys[k] in ys;
    }
  }

  // ----- the automatic target -----

  function GapSum(ss: seq<Share>, target: real): real {
    if ss == [] then 0.0 else GapSum(ss[..|ss| - 1], target) + Gap(ss[|ss| - 1], target)
  }

  lemma {:induction false} GiversWithinGapSum(ss: seq<Share>, target: real, min: real)
    ensures Sum(Givers(ss, target, min)) <= GapSum(ss, target) && |Givers(ss, target, min)| <= |ss|
  {
    if ss != [] {
      var init, s := ss[..|ss| - 1], ss[|ss| - 1];
      GiversWithinGapSum(init, target, min);
      SumSnoc(Givers(init, target, min), Gap(s, target));
      assert Givers(init, target, min) + [] == Givers(init, target, min);
    }
  }

  lemma {:induction false} TakersWithinGapSum(ss: seq<Share>, target: real, min: real)
    ensures Sum(Takers(ss, target, min)) <= GapSum(ss, target) && |Takers(ss, target, min)| <= |ss|
  {
    if ss != [] {
      var init, s := ss[..|ss| - 1], ss[|ss| - 1];
      TakersWithinGapSum(init, target, min);
      SumSnoc(Takers(init, target, min), Gap(s, target));
      assert Takers(init, target, min) + [] == Takers(init, target, min);
    }
  }

  /** With the equal share as target, a single donor or a single receiver is never outrun. */
  lemma OneSidedIsUnambiguous(os: seq<Share>, us: seq<Share>, target: real, min: real)
    requires AllOver(os, target) && AllUnder(us, target)
    requires GapSum(os, target) == GapSum(us, target)
    requires |os| == 1 || |us| == 1
    ensures Unambiguous(Givers(os, target, min), Takers(us, target, min))
  {
    hide Givers, Takers, Sum, GapSum, Gap;
    GiversWithinGapSum(os, target, min);
    TakersWithinGapSum(us, target, min);
    if |os| == 1 {
      AloneGives(os, target, min);
    } else {
      AloneGives(us, target, min);
    }
  }

  lemma AloneGives(ss: seq<Share>, target: real, min: real)
    requires |ss| == 1
    ensures GapSum(ss, target) == Gap(ss[0], target)
    ensures Givers(ss, target, min) == [] || Givers(ss, target, min) == [Gap(ss[0], target)]
    ensures Takers(ss, target, min) == [] || Takers(ss, target, min) == [Gap(ss[0], target)]
  {
    assert ss[..0] == [];
  }

  // ----- from a report to its donors and receivers -----

  function Over(es: seq<Share>, target: real): seq<Share> {
    if es == [] then []
    else Over(es[..|es| - 1], target) + if es[|es| - 1].valueUsd > target then [es[|es| - 1]] else []
  }

  function Under(es: seq<Share>, target: real): seq<Share> {
    if es == [] then []
    else Under(es[..|es| - 1], target) + if es[|es| - 1].valueUsd < target then [es[|es| - 1]] else []
  }

  function TotalValue(es: seq<Share>): real {
    if es == [] then 0.0 else TotalValue(es[..|es| - 1]) + es[|es| - 1].valueUsd
  }

  lemma GapSumSnoc(ss: seq<Share>, s: Share, target: real)
    ensures GapSum(ss + [s], target) == GapSum(ss, target) + Gap(s, target)
  {
    assert (ss + [s])[..|ss|] == ss;
  }

  function ForEveryone(target: real, n: nat): real { if n == 0 then 0.0 else ForEveryone(target, n - 1) + target }

  lemma {:induction false} ForEveryoneIsProduct(target: real, n: nat)
    ensures ForEveryone(target, n) == target * (n as real)
  {
    if n > 0 {
      ForEveryoneIsProduct(target, n - 1);
      var m := (n - 1) as real;
      assert target * (m + 1.0) == target * m + target;
    }
  }

  /** Around any target, what lies over it less what lies under it is the total less the target for everyone. */
  lemma {:induction false} GapsBalance(es: seq<Share>, target: real)
    ensures GapSum(Over(es, target), target) - GapSum(Under(es, target), target)
         == TotalValue(es) - ForEveryone(target, |es|)
  {
    if es != [] {
      var init, e := es[..|es| - 1], es[|es| - 1];
      GapsBalance(init, target);
      GapSumSnoc(Over(init, target), e, target);
      GapSumSnoc(Under(init, target), e, target);
      assert Over(init, target) + [] == Over(init, target) && Under(init, target) + [] == Under(init, target);
    }
  }

  lemma {:induction false} GapSumConcat(a: seq<Share>, b: seq<Share>, target: real)
    ensures GapSum(a + b, target) == GapSum(a, target) + GapSum(b, target)
  {
    if b == [] {
      assert a + b == a;
    } else {
      GapSumConcat(a, b[..|b| - 1], target);
      GapSumSnoc(a + b[..|b| - 1], b[|b| - 1], target);
      assert a + b == (a + b[..|b| - 1]) + [b[|b| - 1]];
    }
  }

  lemma {:induction false} InsertKeepsGapSum(ss: seq<Share>, x: Share, key: Share -> real, target: real)
    ensures GapSum(Insert(ss, x, key), target) == GapSum(ss, target) + Gap(x, target)
  {
    GapSumConcat([x], ss, target);
    GapSumSnoc([], x, target);
    assert [] + [x] == [x];
    if ss == [] || key(x) < key(ss[0]) {
    } else {
      InsertKeepsGapSum(ss[1..], x, key, target);
      GapSumConcat([ss[0]], ss[1..], target);
      GapSumConcat([ss[0]], Insert(ss[1..], x, key), target);
      assert ss == [ss[0]] + ss[1..];
    }
  }

  lemma {:induction false} SortKeepsGapSum(ss: seq<Share>, key: Share -> real, target: real)
    ensures GapSum(SortOn(ss, key), target) == GapSum(ss, target)
  {
    if ss != [] {
      var init, x := ss[..|ss| - 1], ss[|ss| - 1];
      SortKeepsGapSum(init, key, target);
      InsertKeepsGapSum(SortOn(init, key), x, key, target);
    }
  }

  function MostFirst(s: Share): real { -s.valueUsd }

  function Donors(es: seq<Share>, target: real): seq<Share> { SortOn(Over(es, target), MostFirst) }

  function Receivers(es: seq<Share>, target: real): seq<Share> { SortOn(Under(es, target), ValueOf) }

  /** `side` holds some of `es`, each at most once. */
  ghost predicate Selects(side: seq<Share>, es: seq<Share>) {
    Distinct(side) && forall s :: s in side ==> s in es
  }

  lemma SelectOneMore(side: seq<Share>, es: seq<Share>, e: Share)
    requires Selects(side, es) && Distinct(es + [e])
    ensures Selects(side, es + [e]) && Selects(side + [e], es + [e])
  {
    forall s | s in side
      ensures s.exchange != e.exchange
    {
      var i :| 0 <= i < |es| && es[i] == s;
      assert (es + [e])[i] == s && (es + [e])[|es|] == e;
    }
  }

  lemma {:induction false} OverContent(es: seq<Share>, target: real)
    requires Distinct(es)
    ensures AllOver(Over(es, target), target) && Selects(Over(es, target), es)
  {
    if es != [] {
      var init, e := es[..|es| - 1], es[|es| - 1];
      OverContent(init, target);
      hide Selects, Distinct;
      SelectOneMore(Over(init, target), init, e);
      assert es == init + [e];
      assert Over(init, target) + [] == Over(init, target);
    }
  }

  lemma {:induction false} UnderContent(es: seq<Share>, target: real)
    requires Distinct(es)
    ensures AllUnder(Under(es, target), target) && Selects(Under(es, target), es)
  {
    if es != [] {
      var init, e := es[..|es| - 1], es[|es| - 1];
      UnderContent(init, target);
      hide Selects, Distinct;
      SelectOneMore(Under(init, target), init, e);
      assert es == init + [e];
      assert Under(init, target) + [] == Under(init, target);
    }
  }

  /** Sorting keeps the sides what they are. */
  lemma SidesAreSides(es: seq<Share>, target: real)
    requires Distinct(es)
    ensures var os, us := Donors(es, target), Receivers(es, target);
            AllOver(os, target) && AllUnder(us, target) && Distinct(os) && Distinct(us)
  {
    OverContent(es, target);
    UnderContent(es, target);
    SortKeepsContent(Over(es, target), MostFirst);
    SortKeepsContent(Under(es, target), ValueOf);
  }

  lemma SortKeepsContent(ss: seq<Share>, key: Share -> real)
    requires Distinct(ss)
    ensures Distinct(SortOn(ss, key))
    ensures forall i :: 0 <= i < |ss| ==> SortOn(ss, key)[i] in ss
  {
    SortOnSorts(ss, key);
    var r := SortOn(ss, key);
    forall i | 0 <= i < |ss|
      ensures r[i] in ss
    {
      assert r[i] in multiset(r);
    }
    PermutationOfDistinct(ss, r);
  }

  lemma PermutationOfDistinct(ss: seq<Share>, r: seq<Share>)
    requires Distinct(ss) && multiset(r) == multiset(ss)
    ensures Distinct(r)
  {
    forall i, j | 0 <= i < j < |r|
      ensures r[i].exchange != r[j].exchange
    {
      if r[i].exchange == r[j].exchange {
        assert r[i] in multiset(ss) && r[j] in multiset(ss);
        var a :| 0 <= a < |ss| && ss[a] == r[i];
        var b :| 0 <= b < |ss| && ss[b] == r[j];
        assert a == b;
        TwiceInMultiset(r, i, j);
        OnceInMultiset(ss, a);
      }
    }
  }

  lemma TwiceInMultiset(r: seq<Share>, i: nat, j: nat)
    requires i < j < |r| && r[i] == r[j]
    ensures multiset(r)[r[i]] >= 2
  {
    assert r == r[..i] + [r[i]] + r[i + 1..j] + [r[j]] + r[j + 1..];
  }

  lemma OnceInMultiset(ss: seq<Share>, a: nat)
    requires a < |ss| && Distinct(ss)
    ensures multiset(ss)[ss[a]] == 1
  {
    assert ss == ss[..a] + [ss[a]] + ss[a + 1..];
    assert ss[a] !in ss[..a] && ss[a] !in ss[a + 1..];
  }

  /**
   * With the equal share as target and a single exchange over or a single one under it, applying every suggestion
   * pushes nobody past the target.
   */
  lemma EqualShareOneSidedIsSafe(es: seq<Share>, target: real, min: real, imb: real)
    requires Distinct(es) && target * (|es| as real) == TotalValue(es)
    requires |Over(es, target)| == 1 || |Under(es, target)| == 1
    ensures var os, us := Donors(es, target), Receivers(es, target);
            StaysWithinTarget(os, us, Grid(os, us, target, min, imb), target)
  {
    hide Grid, Givers, Takers, GapSum, Unambiguous, StaysWithinTarget, SortOn, Over, Under, TotalValue, ForEveryone;
    var os, us := Donors(es, target), Receivers(es, target);
    SidesAreSides(es, target);
    GapsBalance(es, target);
    ForEveryoneIsProduct(target, |es|);
    SortKeepsGapSum(Over(es, target), MostFirst, target);
    SortKeepsGapSum(Under(es, target), ValueOf, target);
    OneSidedIsUnambiguous(os, us, target, min);
    SuggestionsStayWithinTarget(os, us, target, min, imb);
  }

  /** Two full exchanges and two empty ones: each donor is told to give twice what it has to spare. */
  lemma TwoByTwoOvershoots()
    ensures var full, empty := Share("a", 1.0, 200.0, 50.0), Share("c", 0.0, 0.0, 0.0);
            var os, us := [full, full.(exchange := "b")], [empty, empty.(exchange := "d")];
            MovedFrom(Grid(os, us, 100.0, 50.0, 50.0), "a") == 200.0 && os[0].valueUsd - 100.0 == 100.0
  {
    var full, empty := Share("a", 1.0, 200.0, 50.0), Share("c", 0.0, 0.0, 0.0);
    var os, us := [full, full.(exchange := "b")], [empty, empty.(exchange := "d")];
    hide Grid, MovedFrom, Flow, Takers;
    GridMovesFrom(os, us, 100.0, 50.0, 50.0, 0);
    FlowIntoTwo(us[0], us[1], 100.0, 50.0);
  }

  lemma FlowIntoTwo(u0: Share, u1: Share, x: real, min: real)
    requires u0.valueUsd == u1.valueUsd == 0.0 && x >= min
    ensures x > 0.0 ==> Flow(x, Takers([u0, u1], x, min)) == x + x
  {
    assert [u0, u1][..1] == [u0] && [u0][..0] == [];
    assert Takers([u0], x, min) == [Gap(u0, x)];
    var gaps := Takers([u0, u1], x, min);
    assert gaps[..1] == [Gap(u0, x)] && [Gap(u0, x)][..0] == [];
    assert Flow(x, gaps[..1]) == Min(x, Gap(u0, x));
  }

  // ----- conservation -----

  /** The exchanges after every suggestion has been carried out. */
  function Applied(es: seq<Share>, ss: seq<Suggestion>): (r: seq<Share>)
    ensures |r| == |es|
  {
    seq(|es|, i requires 0 <= i < |es| =>
      es[i].(valueUsd := es[i].valueUsd - MovedFrom(ss, es[i].exchange) + MovedTo(ss, es[i].exchange)))
  }

  ghost predicate Held(es: seq<Share>, exchange: string) {
    exists i :: 0 <= i < |es| && es[i].exchange == exchange
  }

  /** `after` is `before` once `v` has gone from `f` to `t`. */
  ghost predicate Moves(before: seq<Share>, after: seq<Share>, f: string, t: string, v: real) {
    && |before| == |after|
    && forall i :: 0 <= i < |before| ==>
         after[i].valueUsd == before[i].valueUsd - (if before[i].exchange == f then v else 0.0)
                                                 + (if before[i].exchange == t then v else 0.0)
  }

  lemma {:induction false} MoveChangesTotal(before: seq<Share>, after: seq<Share>, f: string, t: string, v: real)
    requires Distinct(before) && Moves(before, after, f, t, v)
    ensures TotalValue(after) == TotalValue(before) - (if Held(before, f) then v else 0.0)
                                                    + (if Held(before, t) then v else 0.0)
  {
    if before != [] {
      var n := |before| - 1;
      var init := before[..n];
      MoveChangesTotal(init, after[..n], f, t, v);
      HeldSnoc(init, before[n], f);
      HeldSnoc(init, before[n], t);
      assert before == init + [before[n]];
      assert Held(init, f) ==> before[n].exchange != f;
      assert Held(init, t) ==> before[n].exchange != t;
    }
  }

  lemma HeldSnoc(es: seq<Share>, e: Share, exchange: string)
    ensures Held(es + [e], exchange) <==> Held(es, exchange) || e.exchange == exchange
  {
    assert (es + [e])[|es|] == e;
    if i :| 0 <= i < |es| && es[i].exchange == exchange {
      assert (es + [e])[i] == es[i];
    }
  }

  lemma {:induction false} TransfersConserve(es: seq<Share>, ss: seq<Suggestion>)
    requires Distinct(es)
    requires forall k :: 0 <= k < |ss| ==> Held(es, ss[k].fromExchange) && Held(es, ss[k].toExchange)
    ensures TotalValue(Applied(es, ss)) == TotalValue(es)
  {
    if ss == [] {
      assert Applied(es, ss) == es;
    } else {
      var x := ss[|ss| - 1];
      var before, after := Applied(es, ss[..|ss| - 1]), Applied(es, ss);
      TransfersConserve(es, ss[..|ss| - 1]);
      MoveChangesTotal(before, after, x.fromExchange, x.toExchange, x.valueUsd);
      SameHolders(es, before, x.fromExchange);
      SameHolders(es, before, x.toExchange);
    }
  }

  lemma SameHolders(es: seq<Share>, fs: seq<Share>, exchange: string)
    requires |es| == |fs| && forall i :: 0 <= i < |es| ==> es[i].exchange == fs[i].exchange
    requires Held(es, exchange)
    ensures Held(fs, exchange)
  {
    var i :| 0 <= i < |es| && es[i].exchange == exchange;
    assert fs[i].exchange == exchange;
  }

  /** Some pair of `os` and `us` for which the suggestion is sound. */
  ghost predicate Backed(x: Suggestion, os: seq<Share>, us: seq<Share>, target: real, min: real) {
    exists i, j :: 0 <= i < |os| && 0 <= j < |us| && Sound(x, os[i], us[j], target, min)
  }

  lemma BackedByMore(
    x: Suggestion, os: seq<Share>, us: seq<Share>, os': seq<Share>, us': seq<Share>, target: real, min: real)
    requires Backed(x, os, us, target, min)
    requires forall i :: 0 <= i < |os| ==> os[i] in os'
    requires forall j :: 0 <= j < |us| ==> us[j] in us'
    ensures Backed(x, os', us', target, min)
  {
    hide Sound;
    var i, j :| 0 <= i < |os| && 0 <= j < |us| && Sound(x, os[i], us[j], target, min);
    var i' :| 0 <= i' < |os'| && os'[i'] == os[i];
    var j' :| 0 <= j' < |us'| && us'[j'] == us[j];
    assert Sound(x, os'[i'], us'[j'], target, min);
  }

  lemma {:induction false} RowIsSound(over: Share, us: seq<Share>, target: real, min: real, imb: real)
    requires over.valueUsd > target && AllUnder(us, target)
    ensures forall x :: x in Row(over, us, target, min, imb) ==> Backed(x, [over], us, target, min)
  {
    hide Sound, Backed, Suggest, CanGive, CanTake;
    if us != [] {
      var init, u := us[..|us| - 1], us[|us| - 1];
      RowIsSound(over, init, target, min, imb);
      forall x | x in Row(over, us, target, min, imb)
        ensures Backed(x, [over], us, target, min)
      {
        if x in Row(over, init, target, min, imb) {
          BackedByMore(x, [over], init, [over], us, target, min);
        } else {
          SuggestionIsSound(over, u, target, min, imb);
          BackedBy(x, [over], us, 0, |us| - 1, target, min);
        }
      }
    }
  }

  lemma BackedBy(x: Suggestion, os: seq<Share>, us: seq<Share>, i: nat, j: nat, target: real, min: real)
    requires i < |os| && j < |us| && Sound(x, os[i], us[j], target, min)
    ensures Backed(x, os, us, target, min)
  {
  }

  lemma {:induction false} GridIsSound(os: seq<Share>, us: seq<Share>, target: real, min: real, imb: real)
    requires AllOver(os, target) && AllUnder(us, target)
    ensures forall x :: x in Grid(os, us, target, min, imb) ==> Backed(x, os, us, target, min)
  {
    hide Row, Backed;
    if os != [] {
      var init, o := os[..|os| - 1], os[|os| - 1];
      GridIsSound(init, us, target, min, imb);
      RowIsSound(o, us, target, min, imb);
      forall x | x in Grid(os, us, target, min, imb)
        ensures Backed(x, os, us, target, min)
      {
        if x in Grid(init, us, target, min, imb) {
          BackedByMore(x, init, us, os, us, target, min);
        } else {
          BackedByMore(x, [o], us, os, us, target, min);
        }
      }
    }
  }

  /** A pair is suggested exactly when both gaps are worth a transfer and the donor has something to give. */
  lemma GridExactly(os: seq<Share>, us: seq<Share>, target: real, min: real, imb: real, i: nat, j: nat)
    requires i < |os| && j < |us| && AllOver(os, target) && AllUnder(us, target)
    ensures os[i].valueUsd - target >= min && target - us[j].valueUsd >= min
            && os[i].available > 0.0 && os[i].valueUsd >= 0.0 ==>
            exists x :: x in Grid(os, us, target, min, imb)
                        && x.fromExchange == os[i].exchange && x.toExchange == us[j].exchange
                        && (x.valueUsd == os[i].valueUsd - target || x.valueUsd == target - us[j].valueUsd)
    ensures forall x :: x in Grid(os, us, target, min, imb) ==>
              exists k, m :: 0 <= k < |os| && 0 <= m < |us| && Pairs(x, os[k], us[m], target, min, imb)
  {
    if os[i].valueUsd - target >= min && target - us[j].valueUsd >= min
       && os[i].available > 0.0 && os[i].valueUsd >= 0.0 {
      GridHas(os, us, target, min, imb, i, j);
    }
    GridOnly(os, us, target, min, imb);
  }

  /** The suggestion for a pair, and why there is one. */
  ghost predicate Pairs(x: Suggestion, over: Share, under: Share, target: real, min: real, imb: real) {
    && x.fromExchange == over.exchange && x.toExchange == under.exchange
    && over.valueUsd - target >= min && target - under.valueUsd >= min
    && over.available > 0.0 && over.valueUsd >= 0.0
    && (x.priority == High <==> imb > 60.0) && (x.priority == Low <==> imb <= 40.0)
  }

  lemma {:induction false} RowHas(over: Share, us: seq<Share>, target: real, min: real, imb: real, j: nat)
    requires j < |us| && CanGive(over, target, min) && CanTake(us[j], target, min)
    ensures Suggest(over, us[j], target, imb) in Row(over, us, target, min, imb)
  {
    hide Suggest, CanGive, CanTake;
    if j < |us| - 1 {
      RowHas(over, us[..|us| - 1], target, min, imb, j);
    }
  }

  lemma {:induction false} GridHas(os: seq<Share>, us: seq<Share>, target: real, min: real, imb: real, i: nat, j: nat)
    requires i < |os| && j < |us| && CanGive(os[i], target, min) && CanTake(us[j], target, min)
    ensures Suggest(os[i], us[j], target, imb) in Grid(os, us, target, min, imb)
  {
    hide Suggest, CanGive, CanTake, Row;
    if i < |os| - 1 {
      GridHas(os[..|os| - 1], us, target, min, imb, i, j);
    } else {
      RowHas(os[i], us, target, min, imb, j);
    }
  }

  lemma {:induction false} RowOnly(over: Share, us: seq<Share>, target: real, min: real, imb: real)
    ensures forall x :: x in Row(over, us, target, min, imb) ==>
              exists m :: 0 <= m < |us| && Pairs(x, over, us[m], target, min, imb)
  {
    hide Pairs;
    if us != [] {
      var n := |us| - 1;
      RowOnly(over, us[..n], target, min, imb);
      PairOf(over, us[n], target, min, imb);
      forall x | x in Row(over, us, target, min, imb)
        ensures exists m :: 0 <= m < |us| && Pairs(x, over, us[m], target, min, imb)
      {
        if x in Row(over, us[..n], target, min, imb) {
          var m :| 0 <= m < n && Pairs(x, over, us[..n][m], target, min, imb);
          assert us[m] == us[..n][m];
        } else {
          assert Pairs(x, over, us[n], target, min, imb);
        }
      }
    }
  }

  lemma PairOf(over: Share, under: Share, target: real, min: real, imb: real)
    ensures CanGive(over, target, min) && CanTake(under, target, min) ==>
            Pairs(Suggest(over, under, target, imb), over, under, target, min, imb)
  {
  }

  lemma {:induction false} GridOnly(os: seq<Share>, us: seq<Share>, target: real, min: real, imb: real)
    ensures forall x :: x in Grid(os, us, target, min, imb) ==>
              exists k, m :: 0 <= k < |os| && 0 <= m < |us| && Pairs(x, os[k], us[m], target, min, imb)
  {
    hide Pairs, Row;
    if os != [] {
      var n := |os| - 1;
      GridOnly(os[..n], us, target, min, imb);
      RowOnly(os[n], us, target, min, imb);
      forall x | x in Grid(os, us, target, min, imb)
        ensures exists k, m :: 0 <= k < |os| && 0 <= m < |us| && Pairs(x, os[k], us[m], target, min, imb)
      {
        if x in Grid(os[..n], us, target, min, imb) {
          var k, m :| 0 <= k < n && 0 <= m < |us| && Pairs(x, os[..n][k], us[m], target, min, imb);
          assert os[k] == os[..n][k];
        } else {
          var m :| 0 <= m < |us| && Pairs(x, os[n], us[m], target, min, imb);
        }
      }
    }
  }

  /** Donors are exactly the exchanges over the target, richest first; receivers those under it, poorest first. */
  lemma SidesExactly(es: seq<Share>, target: real, s: Share)
    ensures var os, us := Donors(es, target), Receivers(es, target);
            && (s in os <==> s in es && s.valueUsd > target)
            && (s in us <==> s in es && s.valueUsd < target)
            && (forall i, j :: 0 <= i < j < |os| ==> os[i].valueUsd >= os[j].valueUsd)
            && (forall i, j :: 0 <= i < j < |us| ==> us[i].valueUsd <= us[j].valueUsd)
  {
    hide SortOn, Over, Under;
    var os, us := Donors(es, target), Receivers(es, target);
    SortOnSorts(Over(es, target), MostFirst);
    SortOnSorts(Under(es, target), ValueOf);
    SelectedExactly(es, target, s);
    assert s in os <==> s in multiset(os);
    assert s in us <==> s in multiset(us);
    assert s in Over(es, target) <==> s in multiset(Over(es, target));
    assert s in Under(es, target) <==> s in multiset(Under(es, target));
    assert forall i, j :: 0 <= i < j < |os| ==> MostFirst(os[i]) <= MostFirst(os[j]);
    assert forall i, j :: 0 <= i < j < |us| ==> ValueOf(us[i]) <= ValueOf(us[j]);
  }

  lemma {:induction false} SelectedExactly(es: seq<Share>, target: real, s: Share)
    ensures s in Over(es, target) <==> s in es && s.valueUsd > target
    ensures s in Under(es, target) <==> s in es && s.valueUsd < target
  {
    if es != [] {
      SelectedExactly(es[..|es| - 1], target, s);
      assert es == es[..|es| - 1] + [es[|es| - 1]];
    }
  }

  /** Every suggestion made from a report is sound for two of its exchanges. */
  lemma SuggestionsAreSound(es: seq<Share>, target: real, min: real, imb: real)
    requires Distinct(es)
    ensures forall x :: x in Grid(Donors(es, target), Receivers(es, target), target, min, imb) ==>
              Backed(x, es, es, target, min)
  {
    hide Grid, Backed;
    var os, us := Donors(es, target), Receivers(es, target);
    SidesAreSides(es, target);
    SidesAmong(es, target);
    GridIsSound(os, us, target, min, imb);
    forall x | x in Grid(os, us, target, min, imb)
      ensures Backed(x, es, es, target, min)
    {
      BackedByMore(x, os, us, es, es, target, min);
    }
  }

  lemma SidesAmong(es: seq<Share>, target: real)
    requires Distinct(es)
    ensures forall i :: 0 <= i < |Donors(es, target)| ==> Donors(es, target)[i] in es
    ensures forall j :: 0 <= j < |Receivers(es, target)| ==> Receivers(es, target)[j] in es
  {
    hide Over, Under, SortOn;
    OverContent(es, target);
    UnderContent(es, target);
    SortKeepsContent(Over(es, target), MostFirst);
    SortKeepsContent(Under(es, target), ValueOf);
  }

  /** Whatever the imbalance, carrying out every suggestion moves value and neither creates nor destroys any. */
  lemma SuggestionsConserve(es: seq<Share>, target: real, min: real, imb: real)
    requires Distinct(es)
    ensures var os, us := Donors(es, target), Receivers(es, target);
            TotalValue(Applied(es, Grid(os, us, target, min, imb))) == TotalValue(es)
  {
    hide Grid, Donors, Receivers, TotalValue, Applied, Held, Backed;
    var ss := Grid(Donors(es, target), Receivers(es, target), target, min, imb);
    SuggestionsAreSound(es, target, min, imb);
    forall k | 0 <= k < |ss|
      ensures Held(es, ss[k].fromExchange) && Held(es, ss[k].toExchange)
    {
      assert ss[k] in ss;
      PartiesHeld(ss[k], es, target, min);
    }
    TransfersConserve(es, ss);
  }

  lemma PartiesHeld(x: Suggestion, es: seq<Share>, target: real, min: real)
    requires Backed(x, es, es, target, min)
    ensures Held(es, x.fromExchange) && Held(es, x.toExchange)
  {
  }

  // ----- the rebalancer -----

  function FindBalance(bs: seq<Balance>, currency: string): Option<Balance> {
    if bs == [] then None else if bs[0].currency == currency then Some(bs[0]) else FindBalance(bs[1..], currency)
  }

  /** The holding's row for a currency, with zeros where it has none. */
  function RowOf(h: Holding, currency: string): Share {
    var b := FindBalance(h.balances, currency);
    if b.None? then Share(h.exchange, 0.0, 0.0, 0.0) else Share(h.exchange, b.value.available, b.value.valueUsd, 0.0)
  }

  function Rows(hs: seq<Holding>, currency: string): (r: seq<Share>)
    ensures |r| == |hs|
  {
    seq(|hs|, i requires 0 <= i < |hs| => RowOf(hs[i], currency))
  }

  /** Rows with each one's percentage of the total. */
  function WithShares(rows: seq<Share>, total: real): (r: seq<Share>)
    ensures |r| == |rows|
  {
    seq(|rows|, i requires 0 <= i < |rows| =>
      rows[i].(sharePercent := if total > 0.0 then rows[i].valueUsd / total * 100.0 else 0.0))
  }

  ghost predicate SolventHoldings(hs: seq<Holding>) {
    forall i, j :: 0 <= i < |hs| && 0 <= j < |hs[i].balances| ==> hs[i].balances[j].valueUsd >= 0.0
  }

  ghost predicate HasHolding(hs: seq<Holding>, exchange: string) {
    exists i :: 0 <= i < |hs| && hs[i].exchange == exchange
  }

  ghost predicate DistinctHoldings(hs: seq<Holding>) {
    forall i, j :: 0 <= i < j < |hs| ==> hs[i].exchange != hs[j].exchange
  }

  lemma {:induction false} FoundIsHeld(bs: seq<Balance>, currency: string)
    requires forall j :: 0 <= j < |bs| ==> bs[j].valueUsd >= 0.0
    ensures var b := FindBalance(bs, currency);
            b.Some? ==> b.value.valueUsd >= 0.0 && b.value in bs && b.value.currency == currency
  {
    if bs != [] && bs[0].currency != currency {
      FoundIsHeld(bs[1..], currency);
    }
  }

  lemma {:induction false} TotalIsNonNegative(es: seq<Share>)
    requires forall i :: 0 <= i < |es| ==> es[i].valueUsd >= 0.0
    ensures TotalValue(es) >= 0.0
  {
    if es != [] {
      TotalIsNonNegative(es[..|es| - 1]);
    }
  }

  lemma {:induction false} FoundExactly(bs: seq<Balance>, currency: string)
    ensures FindBalance(bs, currency).None? ==> forall j :: 0 <= j < |bs| ==> bs[j].currency != currency
    ensures FindBalance(bs, currency).Some? ==>
            exists j :: 0 <= j < |bs| && bs[j] == FindBalance(bs, currency).value && bs[j].currency == currency
                        && forall k :: 0 <= k < j ==> bs[k].currency != currency
  {
    if bs != [] && bs[0].currency != currency {
      FoundExactly(bs[1..], currency);
      if FindBalance(bs, currency).Some? {
        var j :| 0 <= j < |bs[1..]| && bs[1..][j] == FindBalance(bs, currency).value
                 && bs[1..][j].currency == currency && forall k :: 0 <= k < j ==> bs[1..][k].currency != currency;
        assert bs[j + 1] == bs[1..][j];
        assert forall k :: 1 <= k < j + 1 ==> bs[k] == bs[1..][k - 1];
      }
    }
  }

  /** The row of a holding: its first balance in the currency, or nothing. */
  lemma RowWrittenOut(h: Holding, currency: string)
    ensures var row := RowOf(h, currency);
            && row.exchange == h.exchange
            && ((forall j :: 0 <= j < |h.balances| ==> h.balances[j].currency != currency) ==>
                  row.available == 0.0 && row.valueUsd == 0.0)
            && ((exists j :: 0 <= j < |h.balances| && h.balances[j].currency == currency) ==>
                  exists j :: 0 <= j < |h.balances| && h.balances[j].currency == currency
                              && row.available == h.balances[j].available && row.valueUsd == h.balances[j].valueUsd
                              && forall k :: 0 <= k < j ==> h.balances[k].currency != currency)
  {
    hide FindBalance;
    FoundExactly(h.balances, currency);
  }

  lemma {:induction false} TotalIsSum(es: seq<Share>)
    ensures TotalValue(es) == Sum(Map(es, ValueOf))
  {
    if es != [] {
      var init, e := es[..|es| - 1], es[|es| - 1];
      TotalIsSum(init);
      assert Map(es, ValueOf) == Map(init, ValueOf) + [e.valueUsd];
      SumSnoc(Map(init, ValueOf), e.valueUsd);
    }
  }

  /** The shares of a report are percentages of the total value, and zero when there is none to share. */
  lemma SharesWrittenOut(r: Report, hs: seq<Holding>, currency: string, threshold: real, i: nat)
    requires IsReport(r, hs, currency, threshold) && i < |hs|
    ensures |r.exchanges| == |hs|
    ensures var e, row := r.exchanges[i], RowOf(hs[i], currency);
            var total := Sum(Map(r.exchanges, ValueOf));
            && e.exchange == row.exchange && e.available == row.available && e.valueUsd == row.valueUsd
            && (total > 0.0 ==> e.sharePercent * total == 100.0 * e.valueUsd)
            && (total <= 0.0 ==> e.sharePercent == 0.0)
  {
    hide RowOf, TotalValue, Sum;
    TotalIsSum(r.exchanges);
    SharesKeepTotal(Rows(hs, currency), r.exchanges);
    ShareOfTotal(r.exchanges[i].valueUsd, TotalValue(r.exchanges));
  }

  lemma ShareOfTotal(value: real, total: real)
    ensures total > 0.0 ==> value / total * 100.0 * total == 100.0 * value
  {
    if total > 0.0 {
      var x := value / total;
      assert x * total == value;
      assert x * 100.0 * total == 100.0 * (x * total);
    }
  }

  ghost predicate IsReport(r: Report, hs: seq<Holding>, currency: string, threshold: real) {
    && r.exchanges == WithShares(Rows(hs, currency), TotalValue(Rows(hs, currency)))
    && (forall i :: 0 <= i < |hs| ==> r.minSharePercent <= r.exchanges[i].sharePercent <= r.maxSharePercent)
    && (hs != [] ==> exists i, j :: && 0 <= i < |hs| && 0 <= j < |hs|
                                    && r.exchanges[i].sharePercent == r.maxSharePercent
                                    && r.exchanges[j].sharePercent == r.minSharePercent)
    && (r.isImbalanced <==> r.maxSharePercent - r.minSharePercent > threshold)
    && (hs == [] ==> r.maxSharePercent == r.minSharePercent == 0.0)
  }

  class BalanceRebalancer {
    const cfg: Config
    var holdings: seq<Holding> // in insertion order, as a JavaScript Map keeps them

    ghost predicate Valid()
      reads this
    {
      DistinctHoldings(holdings)
    }

    constructor (cfg: Config)
      ensures Valid() && this.cfg == cfg && holdings == []
    {
      this.cfg, holdings := cfg, [];
    }

    method UpdateBalances(exchange: string, balances: seq<Balance>)
      requires Valid()
      modifies this
      ensures Valid()
      // As a map in insertion order: a known exchange keeps its place, a new one comes last.
      ensures |holdings| == |old(holdings)| + if HasHolding(old(holdings), exchange) then 0 else 1
      ensures forall i :: 0 <= i < |old(holdings)| ==>
                holdings[i] == if old(holdings)[i].exchange == exchange then Holding(exchange, balances)
                               else old(holdings)[i]
      ensures !HasHolding(old(holdings), exchange) ==> holdings == old(holdings) + [Holding(exchange, balances)]
    {
      var k := 0;
      while k < |holdings| && holdings[k].exchange != exchange
        invariant 0 <= k <= |holdings|
        invariant forall i :: 0 <= i < k ==> holdings[i].exchange != exchange
      {
        k := k + 1;
      }
      if k < |holdings| {
        holdings := holdings[k := Holding(exchange, balances)];
      } else {
        holdings := holdings + [Holding(exchange, balances)];
      }
    }

    method DetectImbalance(currency: string) returns (r: Report)
      requires Valid()
      ensures IsReport(r, holdings, currency, cfg.imbalanceThresholdPercent)
    {
      hide WithShares, TotalValue;
      var rows: seq<Share> := [];
      var totalValue, i := 0.0, 0;
      NoValue();
      while i < |holdings|
        invariant 0 <= i <= |holdings|
        invariant rows == Rows(holdings[..i], currency) && totalValue == TotalValue(rows)
      {
        TotalSnoc(rows, RowOf(holdings[i], currency));
        rows := rows + [RowOf(holdings[i], currency)];
        totalValue := totalValue + rows[i].valueUsd;
        i := i + 1;
      }
      assert holdings[..|holdings|] == holdings;
      var shares := WithShares(rows, totalValue);
      var maxShare, minShare := Extremes(shares);
      r := Report(shares, maxShare, minShare, maxShare - minShare > cfg.imbalanceThresholdPercent);
    }

    /** Suggestions for every donor and receiver that can move at least the minimum. */
    method SuggestTransfers(currency: string) returns (ss: seq<Suggestion>, ghost report: Report, ghost target: real)
      requires Valid()
      ensures IsReport(report, holdings, currency, cfg.imbalanceThresholdPercent)
      ensures !report.isImbalanced || |holdings| < 2 ==> ss == []
      ensures report.isImbalanced && |holdings| >= 2 ==>
              && target == TotalValue(report.exchanges) * (TargetShare(cfg, |holdings|) / 100.0)
              && (cfg.targetSharePercent > 0.0 ==>
                    target == TotalValue(report.exchanges) * (cfg.targetSharePercent / 100.0))
              && (cfg.targetSharePercent <= 0.0 ==>
                    target == TotalValue(report.exchanges) * (100.0 / (|holdings| as real) / 100.0))
              && (SolventHoldings(holdings) ==> target >= 0.0)
              && Distinct(report.exchanges)
              && (forall x :: x in ss ==> Backed(x, report.exchanges, report.exchanges, target, cfg.minTransferUsd))
              && ss == Grid(Donors(report.exchanges, target), Receivers(report.exchanges, target), target,
                            cfg.minTransferUsd, report.maxSharePercent - report.minSharePercent)
    {
      hide IsReport, TotalValue, Grid, Donors, Receivers, DistinctHoldings, SolventHoldings, Backed;
      var r := DetectImbalance(currency);
      ReportSize(r, holdings, currency, cfg.imbalanceThresholdPercent);
      report, target := r, 0.0;
      if !r.isImbalanced || |r.exchanges| < 2 {
        return [], report, target;
      }
      var n := |r.exchanges|;
      var totalValue := TotalValue(r.exchanges);
      var targetValue := totalValue * (TargetShare(cfg, n) / 100.0);
      target := targetValue;
      ReportFacts(r, holdings, currency, cfg.imbalanceThresholdPercent);
      if SolventHoldings(holdings) {
        TargetNonNegative(cfg, n, totalValue);
      }
      SuggestionsAreSound(r.exchanges, targetValue, cfg.minTransferUsd, r.maxSharePercent - r.minSharePercent);
      SidesAreSides(r.exchanges, targetValue);
      ss := PairAll(Donors(r.exchanges, targetValue), Receivers(r.exchanges, targetValue), targetValue,
                    r.maxSharePercent - r.minSharePercent);
    }

    /** The double loop over donors and receivers. */
    method PairAll(os: seq<Share>, us: seq<Share>, target: real, imbalance: real) returns (ss: seq<Suggestion>)
      requires AllOver(os, target) && AllUnder(us, target)
      ensures ss == Grid(os, us, target, cfg.minTransferUsd, imbalance)
    {
      ss := [];
      var i := 0;
      while i < |os|
        invariant 0 <= i <= |os|
        invariant ss == Grid(os[..i], us, target, cfg.minTransferUsd, imbalance)
      {
        assert os[..i + 1][..i] == os[..i];
        var row := PairOne(os[i], us, target, imbalance);
        ss := ss + row;
        i := i + 1;
      }
      assert os[..|os|] == os;
    }

    method PairOne(over: Share, us: seq<Share>, target: real, imbalance: real) returns (row: seq<Suggestion>)
      requires over.valueUsd > target && AllUnder(us, target)
      ensures row == Row(over, us, target, cfg.minTransferUsd, imbalance)
    {
      hide Row, AmountFor;
      NoRow(over, target, cfg.minTransferUsd, imbalance);
      row := [];
      var excessUsd := over.valueUsd - target;
      if excessUsd < cfg.minTransferUsd {
        NobodyPaired(over, us, target, cfg.minTransferUsd, imbalance);
        return;
      }
      var j := 0;
      while j < |us|
        invariant 0 <= j <= |us|
        invariant row == Row(over, us[..j], target, cfg.minTransferUsd, imbalance)
      {
        var under := us[j];
        RowSnoc(over, us, j, target, cfg.minTransferUsd, imbalance);
        j := j + 1;
        var deficitUsd := target - under.valueUsd;
        if deficitUsd < cfg.minTransferUsd {
          continue;
        }
        var transferUsd := Min(excessUsd, deficitUsd);
        var transferAmount := AmountFor(over, transferUsd);
        assert excessUsd == Gap(over, target) && deficitUsd == Gap(under, target);
        AmountSign(over, transferUsd);
        if transferAmount.Some? && transferAmount.value <= 0.0 {
          continue;
        }
        row := row + [Suggestion(over.exchange, under.exchange, transferAmount, transferUsd, PriorityOf(imbalance))];
      }
      assert us[..|us|] == us;
    }
  }

  function TargetShare(cfg: Config, n: nat): real
    requires n >= 1
  {
    if cfg.targetSharePercent > 0.0 then cfg.targetSharePercent else 100.0 / (n as real)
  }

  lemma Reassociate(a: real, b: real, c: real)
    ensures (a * b) * c == a * (b * c)
  {
  }

  lemma ProductNonNegative(a: real, b: real)
    requires a >= 0.0 && b >= 0.0
    ensures a * b >= 0.0
  {
  }

  lemma TargetNonNegative(cfg: Config, n: nat, total: real)
    requires n >= 1 && total >= 0.0
    ensures total * (TargetShare(cfg, n) / 100.0) >= 0.0
  {
    var m := n as real;
    assert 100.0 / m > 0.0;
    ProductNonNegative(total, TargetShare(cfg, n) / 100.0);
  }

  /** With no target configured, the target is the equal share. */
  lemma AutomaticTargetIsEqualShare(cfg: Config, n: nat, total: real)
    requires n >= 1 && cfg.targetSharePercent <= 0.0
    ensures total * (TargetShare(cfg, n) / 100.0) * (n as real) == total
  {
    ShareOfN(cfg, n);
    hide TargetShare;
    ScaleByOne(total, TargetShare(cfg, n) / 100.0, n as real);
  }

  lemma ShareOfN(cfg: Config, n: nat)
    requires n >= 1 && cfg.targetSharePercent <= 0.0
    ensures TargetShare(cfg, n) / 100.0 * (n as real) == 1.0
  {
    var u := TargetShare(cfg, n);
    OneOverN(n as real);
  }

  lemma ScaleByOne(total: real, w: real, m: real)
    requires w * m == 1.0
    ensures total * w * m == total
  {
    Reassociate(total, w, m);
  }

  lemma OneOverN(m: real)
    requires m >= 1.0
    ensures 100.0 / m / 100.0 * m == 1.0
  {
    var u := 100.0 / m;
    assert u * m == 100.0;
    assert u / 100.0 * m == u * m / 100.0;
  }

  lemma RowSnoc(over: Share, us: seq<Share>, j: nat, target: real, min: real, imb: real)
    requires j < |us|
    ensures Row(over, us[..j + 1], target, min, imb) ==
            if CanGive(over, target, min) && CanTake(us[j], target, min)
            then Row(over, us[..j], target, min, imb) + [Suggest(over, us[j], target, imb)]
            else Row(over, us[..j], target, min, imb)
  {
    assert us[..j + 1][..j] == us[..j];
    var row := Row(over, us[..j], target, min, imb);
    assert row + [] == row;
  }

  lemma NoRow(over: Share, target: real, min: real, imb: real)
    ensures Row(over, [], target, min, imb) == []
  {
  }

  /** The two together: the suggestions of a one-sided imbalance can all be applied when no target is configured. */
  lemma AutomaticOneSidedIsSafe(cfg: Config, es: seq<Share>, target: real, min: real, imb: real)
    requires cfg.targetSharePercent <= 0.0 && |es| >= 2
    requires target == TotalValue(es) * (TargetShare(cfg, |es|) / 100.0)
    requires Distinct(es)
    requires |Over(es, target)| == 1 || |Under(es, target)| == 1
    ensures var os, us := Donors(es, target), Receivers(es, target);
            StaysWithinTarget(os, us, Grid(os, us, target, min, imb), target)
  {
    hide Grid, Donors, Receivers, TotalValue, TargetShare, StaysWithinTarget, Over, Under;
    AutomaticTargetIsEqualShare(cfg, |es|, TotalValue(es));
    EqualShareOneSidedIsSafe(es, target, min, imb);
  }

  lemma {:induction false} NobodyPaired(over: Share, us: seq<Share>, target: real, min: real, imb: real)
    requires !CanGive(over, target, min)
    ensures Row(over, us, target, min, imb) == []
  {
    if us != [] {
      NobodyPaired(over, us[..|us| - 1], target, min, imb);
    }
  }

  lemma NoValue()
    ensures TotalValue([]) == 0.0
  {
  }

  lemma TotalSnoc(es: seq<Share>, s: Share)
    ensures TotalValue(es + [s]) == TotalValue(es) + s.valueUsd
  {
    assert (es + [s])[..|es|] == es;
  }

  lemma {:induction false} SharesKeepTotal(rows: seq<Share>, es: seq<Share>)
    requires |rows| == |es| && forall i :: 0 <= i < |es| ==> es[i].valueUsd == rows[i].valueUsd
    ensures TotalValue(es) == TotalValue(rows)
  {
    if es != [] {
      SharesKeepTotal(rows[..|rows| - 1], es[..|es| - 1]);
    }
  }

  lemma ReportFacts(r: Report, hs: seq<Holding>, currency: string, threshold: real)
    requires IsReport(r, hs, currency, threshold) && DistinctHoldings(hs)
    ensures Distinct(r.exchanges)
    ensures SolventHoldings(hs) ==> TotalValue(r.exchanges) >= 0.0
    ensures TotalValue(r.exchanges) == TotalValue(Rows(hs, currency))
  {
    forall i | 0 <= i < |hs|
      ensures r.exchanges[i].exchange == hs[i].exchange && (SolventHoldings(hs) ==> r.exchanges[i].valueUsd >= 0.0)
    {
      if SolventHoldings(hs) {
        FoundIsHeld(hs[i].balances, currency);
      }
    }
    SharesKeepTotal(Rows(hs, currency), r.exchanges);
    if SolventHoldings(hs) {
      TotalIsNonNegative(r.exchanges);
    }
  }

  lemma ReportSize(r: Report, hs: seq<Holding>, currency: string, threshold: real)
    requires IsReport(r, hs, currency, threshold)
    ensures |r.exchanges| == |hs|
  {
  }

  method Extremes(shares: seq<Share>) returns (maxShare: real, minShare: real)
    ensures shares == [] ==> maxShare == minShare == 0.0
    ensures forall i :: 0 <= i < |shares| ==> minShare <= shares[i].sharePercent <= maxShare
    ensures shares != [] ==> exists i, j :: && 0 <= i < |shares| && 0 <= j < |shares|
                                            && shares[i].sharePercent == maxShare && shares[j].sharePercent == minShare
  {
    if |shares| == 0 {
      return 0.0, 0.0;
    }
    maxShare, minShare := shares[0].sharePercent, shares[0].sharePercent;
    var i, hi, lo := 1, 0, 0;
    while i < |shares|
      invariant 1 <= i <= |shares| && 0 <= hi < i && 0 <= lo < i
      invariant maxShare == shares[hi].sharePercent && minShare == shares[lo].sharePercent
      invariant forall k :: 0 <= k < i ==> minShare <= shares[k].sharePercent <= maxShare
    {
      if shares[i].sharePercent > maxShare {
        maxShare, hi := shares[i].sharePercent, i;
      }
      if shares[i].sharePercent < minShare {
        minShare, lo := shares[i].sharePercent, i;
      }
      i := i + 1;
    }
  }
}
