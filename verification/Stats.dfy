/** Sums, runs, windows and stable sorting over sequences, shared by the models of the trading engine. */
module Stats {

  function Max(a: real, b: real): real { if a >= b then a else b }

  function Min(a: real, b: real): real { if a <= b then a else b }

  /** A product that proofs can treat as a name. */
  function Times(a: real, b: real): real { a * b }

  function Abs(a: real): real { if a >= 0.0 then a else -a }

  function MaxNat(a: nat, b: nat): nat { if a >= b then a else b }

  /** The sum of a sequence. */
  function Sum(s: seq<real>): real {
    if s == [] then 0.0 else Sum(s[..|s| - 1]) + s[|s| - 1]
  }

  lemma SumSnoc(s: seq<real>, x: real)
    ensures Sum(s + [x]) == Sum(s) + x
  {
    assert (s + [x])[..|s|] == s;
  }

  lemma {:induction false} SumConcat(s: seq<real>, t: seq<real>)
    ensures Sum(s + t) == Sum(s) + Sum(t)
  {
    if t == [] {
      assert s + t == s;
    } else {
      var init, x := t[..|t| - 1], t[|t| - 1];
      assert s + t == (s + init) + [x];
      SumSnoc(s + init, x);
      SumConcat(s, init);
    }
  }

  /** The last `k` elements, or all of them when there are fewer. */
  function Last<T>(s: seq<T>, k: nat): (r: seq<T>)
    ensures |r| <= k && |r| <= |s| && r == s[|s| - |r|..]
    ensures |s| >= k ==> |r| == k
    ensures |s| <= k ==> r == s
  {
    if |s| <= k then s else s[|s| - k..]
  }

  /** Trimming to the last `k` after every append keeps the last `k` of everything appended. */
  lemma LastSnoc<T>(s: seq<T>, x: T, k: nat)
    ensures Last(Last(s, k) + [x], k) == Last(s + [x], k)
  {
  }

  /** Drops the oldest elements beyond `size`, as splicing off the excess does. */
  function Trim<T>(s: seq<T>, size: int): seq<T> {
    if |s| <= size then s
    else
      var excess := |s| - size;
      s[if excess > |s| then |s| else excess..]
  }

  lemma TrimIsLast<T>(s: seq<T>, x: T, size: int, k: nat)
    requires k == if size < 0 then 0 else size
    ensures Trim(Last(s, k) + [x], size) == Last(s + [x], k)
    ensures Trim(s + [x], size) == Last(s + [x], k)
  {
    LastSnoc(s, x, k);
  }

  lemma TrimKeepsNewest<T>(s: seq<T>, x: T, size: int)
    ensures size >= 1 ==> var r := Trim(s + [x], size); r != [] && r[|r| - 1] == x
  {
  }

  // ----- profits and losses -----

  /** The classes of trade result that the statistics select. */
  datatype Outcome = Win | Loss | Decided | NotWin

  predicate Is(o: Outcome, pnl: real) {
    match o
    case Win => pnl > 0.0
    case Loss => pnl < 0.0
    case Decided => pnl != 0.0
    case NotWin => pnl <= 0.0
  }

  /** The results of class `o`, in order. */
  function Filter(s: seq<real>, o: Outcome): seq<real>
  {
    if s == [] then []
    else
      var init := Filter(s[..|s| - 1], o);
      if Is(o, s[|s| - 1]) then init + [s[|s| - 1]] else init
  }

  lemma FilterSnoc(s: seq<real>, x: real, o: Outcome)
    ensures Filter(s + [x], o) == if Is(o, x) then Filter(s, o) + [x] else Filter(s, o)
  {
    assert (s + [x])[..|s|] == s;
  }

  /** Wins and losses make up the whole. */
  lemma {:induction false} SumSplits(s: seq<real>)
    ensures Sum(s) == Sum(Filter(s, Win)) + Sum(Filter(s, Loss))
    ensures Sum(s) == Sum(Filter(s, Win)) + Sum(Filter(s, NotWin))
    ensures |s| == |Filter(s, Win)| + |Filter(s, NotWin)|
    ensures Sum(Filter(s, Win)) >= 0.0 >= Sum(Filter(s, NotWin))
    ensures Sum(Filter(s, Win)) > 0.0 <==> Filter(s, Win) != []
  {
    if s != [] {
      var init, x := s[..|s| - 1], s[|s| - 1];
      SumSplits(init);
      SumSnoc(Filter(init, Win), x);
      SumSnoc(Filter(init, Loss), x);
      SumSnoc(Filter(init, NotWin), x);
    }
  }

  function Map<T, U>(s: seq<T>, f: T -> U): (r: seq<U>)
    ensures |r| == |s|
    ensures forall i :: 0 <= i < |s| ==> r[i] == f(s[i])
  {
    seq(|s|, i requires 0 <= i < |s| => f(s[i]))
  }

  lemma MapSnoc<T, U>(s: seq<T>, x: T, f: T -> U)
    ensures Map(s + [x], f) == Map(s, f) + [f(x)]
  {
  }

  // ----- runs -----

  /** `s[i..i+m]` is a block of elements that all are of class `o`. */
  ghost predicate Block(s: seq<real>, o: Outcome, i: nat, m: nat) {
    i + m <= |s| && forall k :: i <= k < i + m ==> Is(o, s[k])
  }

  /** `m` is the length of the longest block of `s` whose elements all are of class `o`. */
  ghost predicate IsLongestRun(s: seq<real>, o: Outcome, m: nat) {
    && (exists i: nat :: Block(s, o, i, m))
    && (forall i: nat, n: nat :: Block(s, o, i, n) ==> n <= m)
  }

  /** The number of results of class `o` at the end of `s`. */
  function Trailing(s: seq<real>, o: Outcome): nat {
    if s == [] || !Is(o, s[|s| - 1]) then 0 else Trailing(s[..|s| - 1], o) + 1
  }

  lemma {:induction false} TrailingBlock(s: seq<real>, o: Outcome)
    ensures var r := Trailing(s, o);
            r <= |s| && Block(s, o, |s| - r, r) && (r < |s| ==> !Is(o, s[|s| - r - 1]))
  {
    if s != [] && Is(o, s[|s| - 1]) {
      TrailingBlock(s[..|s| - 1], o);
      assert forall k :: 0 <= k < |s| - 1 ==> s[..|s| - 1][k] == s[k];
    }
  }

  lemma TrailingSnoc(s: seq<real>, x: real, o: Outcome)
    ensures Trailing(s + [x], o) == if Is(o, x) then Trailing(s, o) + 1 else 0
  {
    assert (s + [x])[..|s|] == s;
  }

  /** The longest run in one pass: at every position, the best so far or the run that ends there. */
  function LongestRun(s: seq<real>, o: Outcome): nat {
    if s == [] then 0 else MaxNat(LongestRun(s[..|s| - 1], o), Trailing(s, o))
  }

  lemma LongestRunSnoc(s: seq<real>, x: real, o: Outcome)
    ensures LongestRun(s + [x], o) == MaxNat(LongestRun(s, o), Trailing(s + [x], o))
  {
    assert (s + [x])[..|s|] == s;
  }

  lemma {:induction false} LongestRunIsLongest(s: seq<real>, o: Outcome)
    ensures IsLongestRun(s, o, LongestRun(s, o))
  {
    var best := LongestRun(s, o);
    if s == [] {
      assert Block(s, o, 0, 0);
    } else {
      var init, tail := s[..|s| - 1], Trailing(s, o);
      TrailingBlock(s, o);
      LongestRunIsLongest(init, o);
      if best == tail {
        assert Block(s, o, |s| - tail, best);
      } else {
        var i: nat :| Block(init, o, i, best);
        assert Block(s, o, i, best);
      }
      forall i: nat, n: nat | Block(s, o, i, n)
        ensures n <= best
      {
        if i + n < |s| {
          assert forall k :: i <= k < i + n ==> init[k] == s[k];
          assert Block(init, o, i, n);
        }
      }
    }
  }

  // ----- stable sorting -----

  ghost predicate SortedOn<T>(s: seq<T>, key: T -> real) {
    forall i, j :: 0 <= i < j < |s| ==> key(s[i]) <= key(s[j])
  }

  function Insert<T>(s: seq<T>, x: T, key: T -> real): (r: seq<T>)
    ensures |r| == |s| + 1
  {
    if s == [] || key(x) < key(s[0]) then [x] + s else [s[0]] + Insert(s[1..], x, key)
  }

  lemma {:induction false} InsertContent<T>(s: seq<T>, x: T, key: T -> real)
    ensures multiset(Insert(s, x, key)) == multiset(s) + multiset{x}
    ensures forall y :: y in Insert(s, x, key) ==> y in s || y == x
  {
    if s == [] || key(x) < key(s[0]) {
    } else {
      InsertContent(s[1..], x, key);
      assert s == [s[0]] + s[1..];
    }
  }

  lemma {:induction false} InsertSorted<T>(s: seq<T>, x: T, key: T -> real)
    requires SortedOn(s, key)
    ensures SortedOn(Insert(s, x, key), key)
  {
    if s == [] || key(x) < key(s[0]) {
    } else {
      var r := Insert(s[1..], x, key);
      InsertSorted(s[1..], x, key);
      InsertContent(s[1..], x, key);
      forall j | 0 <= j < |r|
        ensures key(s[0]) <= key(r[j])
      {
        assert r[j] in r;
      }
    }
  }

  /** Stable ascending order on `key`, as a comparison sort on `key(a) - key(b)` yields. */
  function SortOn<T>(s: seq<T>, key: T -> real): (r: seq<T>)
    ensures |r| == |s|
  {
    if s == [] then [] else Insert(SortOn(s[..|s| - 1], key), s[|s| - 1], key)
  }

  lemma {:induction false} SortOnSorts<T>(s: seq<T>, key: T -> real)
    ensures SortedOn(SortOn(s, key), key)
    ensures multiset(SortOn(s, key)) == multiset(s)
  {
    hide Insert;
    if s != [] {
      var init, x := s[..|s| - 1], s[|s| - 1];
      SortOnSorts(init, key);
      InsertSorted(SortOn(init, key), x, key);
      InsertContent(SortOn(init, key), x, key);
      assert s == init + [x];
    }
  }

  lemma SortedHead<T>(s: seq<T>, key: T -> real)
    requires s != []
    ensures SortOn(s, key)[0] in s
    ensures forall x | x in s :: key(SortOn(s, key)[0]) <= key(x)
  {
    var r := SortOn(s, key);
    SortOnSorts(s, key);
    assert r[0] in multiset(r);
    forall x | x in s
      ensures key(r[0]) <= key(x)
    {
      assert x in multiset(r);
      var i :| 0 <= i < |r| && r[i] == x;
    }
  }
}
