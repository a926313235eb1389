/** Latency profiles over a bounded history: what the percentiles cover, and when an exchange meets its target. */
module LatencyProfiles {
  import opened Stats

  datatype Operation = Ticker | OrderPlaced | BalanceQuery

  datatype Record = Record(latencyMs: real, operation: Operation, success: bool, timestamp: int)

  datatype Profile = Profile(p50Ms: real, p95Ms: real, p99Ms: real, sampleCount: nat, successRate: real)

  function Itself(x: real): real { x }

  function Sorted(s: seq<real>): seq<real> { SortOn(s, Itself) }

  /** How many samples are at most `v`. */
  function CountAtMost(s: seq<real>, v: real): nat {
    if s == [] then 0 else CountAtMost(s[..|s| - 1], v) + if s[|s| - 1] <= v then 1 else 0
  }

  /** The number of samples that make up `p` percent of `n`, rounded up. */
  function Quota(p: nat, n: nat): nat { (p * n + 99) / 100 }

  /** The sample at the nearest rank. */
  function Percentile(sorted: seq<real>, p: nat): real
    requires p <= 100
  {
    if |sorted| == 0 then 0.0
    else
      var idx := Quota(p, |sorted|) - 1;
      QuotaInRange(p, |sorted|);
      sorted[if idx < 0 then 0 else idx]
  }

  lemma QuotaInRange(p: nat, n: nat)
    requires p <= 100
    ensures Quota(p, n) <= n
    ensures p >= 1 && n >= 1 ==> Quota(p, n) >= 1
  {
    assert p * n <= 100 * n;
    if p >= 1 && n >= 1 {
      assert p * n >= 1;
    }
  }

  lemma QuotaIsCeiling(p: nat, n: nat, c: nat)
    ensures c >= Quota(p, n) <==> 100 * c >= p * n
  {
  }

  lemma QuotaGrows(p: nat, q: nat, n: nat)
    requires p <= q
    ensures Quota(p, n) <= Quota(q, n)
  {
    assert p * n <= q * n;
  }

  lemma CountSnoc(s: seq<real>, x: real, v: real)
    ensures CountAtMost(s + [x], v) == CountAtMost(s, v) + if x <= v then 1 else 0
  {
    assert (s + [x])[..|s|] == s;
  }

  lemma {:induction false} CountConcat(a: seq<real>, b: seq<real>, v: real)
    ensures CountAtMost(a + b, v) == CountAtMost(a, v) + CountAtMost(b, v)
  {
    if b == [] {
      assert a + b == a;
    } else {
      var init, x := b[..|b| - 1], b[|b| - 1];
      CountConcat(a, init, v);
      CountSnoc(a + init, x, v);
      assert a + b == (a + init) + [x];
    }
  }

  lemma {:induction false} InsertKeepsCount(s: seq<real>, x: real, v: real)
    ensures CountAtMost(Insert(s, x, Itself), v) == CountAtMost(s, v) + if x <= v then 1 else 0
  {
    CountConcat([x], s, v);
    CountSnoc([], x, v);
    assert [] + [x] == [x];
    if s == [] || x < s[0] {
    } else {
      InsertKeepsCount(s[1..], x, v);
      CountConcat([s[0]], s[1..], v);
      CountConcat([s[0]], Insert(s[1..], x, Itself), v);
      assert s == [s[0]] + s[1..];
    }
  }

  lemma {:induction false} SortKeepsCount(s: seq<real>, v: real)
    ensures CountAtMost(Sorted(s), v) == CountAtMost(s, v)
  {
    if s != [] {
      SortKeepsCount(s[..|s| - 1], v);
      InsertKeepsCount(Sorted(s[..|s| - 1]), s[|s| - 1], v);
    }
  }

  /** In ascending order the first k samples are below anything under sample k, and k + 1 samples reach it. */
  lemma {:induction false} RankCounts(t: seq<real>, k: nat, v: real)
    requires SortedOn(t, Itself) && k < |t|
    ensures v < t[k] ==> CountAtMost(t, v) <= k
    ensures v >= t[k] ==> CountAtMost(t, v) >= k + 1
  {
    var init := t[..|t| - 1];
    assert forall i :: 0 <= i < |init| ==> Itself(init[i]) == Itself(t[i]);
    assert SortedOn(init, Itself);
    if k < |init| {
      assert Itself(t[k]) <= Itself(t[|t| - 1]);
      RankCounts(init, k, v);
    } else if k > 0 {
      assert Itself(t[k - 1]) <= Itself(t[k]);
      RankCounts(init, k - 1, v);
      CountAtMostSize(init, v);
    }
  }

  lemma {:induction false} CountAtMostSize(s: seq<real>, v: real)
    ensures CountAtMost(s, v) <= |s|
  {
    if s != [] {
      CountAtMostSize(s[..|s| - 1], v);
    }
  }

  /** A percentile is the least value under which its quota of the samples lies, and it is one of the samples. */
  lemma PercentileCovers(s: seq<real>, p: nat, v: real)
    requires s != [] && 1 <= p <= 100
    ensures Percentile(Sorted(s), p) <= v <==> CountAtMost(s, v) >= Quota(p, |s|)
    ensures Percentile(Sorted(s), p) in s
  {
    hide Quota, SortOn, CountAtMost;
    var t := Sorted(s);
    SortOnSorts(s, Itself);
    QuotaInRange(p, |s|);
    RankCounts(t, Quota(p, |s|) - 1, v);
    SortKeepsCount(s, v);
    assert t[Quota(p, |s|) - 1] in multiset(t);
  }

  lemma PercentilesAscend(s: seq<real>, p: nat, q: nat)
    requires p <= q <= 100
    ensures Percentile(Sorted(s), p) <= Percentile(Sorted(s), q)
  {
    hide Quota, SortOn;
    SortOnSorts(s, Itself);
    var t := Sorted(s);
    if t != [] {
      QuotaInRange(p, |t|);
      QuotaInRange(q, |t|);
      QuotaGrows(p, q, |t|);
      var i := if Quota(p, |t|) == 0 then 0 else Quota(p, |t|) - 1;
      var j := if Quota(q, |t|) == 0 then 0 else Quota(q, |t|) - 1;
      if i < j {
        assert Itself(t[i]) <= Itself(t[j]);
      }
    }
  }

  /** The latencies of the successful records, in order. */
  function Successes(rs: seq<Record>): seq<real> {
    if rs == [] then []
    else if rs[|rs| - 1].success then Successes(rs[..|rs| - 1]) + [rs[|rs| - 1].latencyMs]
    else Successes(rs[..|rs| - 1])
  }

  function ProfileOf(rs: seq<Record>): Profile {
    if rs == [] then Profile(0.0, 0.0, 0.0, 0, 0.0)
    else
      var ok := Successes(rs);
      Profile(Percentile(Sorted(ok), 50), Percentile(Sorted(ok), 95), Percentile(Sorted(ok), 99), |rs|,
              (|ok| as real) / (|rs| as real) * 100.0)
  }

  /** The records that succeeded within `v`. */
  ghost function Within(rs: seq<Record>, v: real): set<int> {
    set i | 0 <= i < |rs| && rs[i].success && rs[i].latencyMs <= v
  }

  ghost function Succeeded(rs: seq<Record>): set<int> { set i | 0 <= i < |rs| && rs[i].success }

  lemma {:induction false} SuccessesExactly(rs: seq<Record>, v: real)
    ensures |Successes(rs)| == |Succeeded(rs)| && CountAtMost(Successes(rs), v) == |Within(rs, v)|
  {
    if rs == [] {
      assert Succeeded(rs) == {} && Within(rs, v) == {};
    } else {
      var k := |rs| - 1;
      SuccessesExactly(rs[..k], v);
      WithinSnoc(rs, v);
      if rs[k].success {
        CountSnoc(Successes(rs[..k]), rs[k].latencyMs, v);
      }
    }
  }

  lemma WithinSnoc(rs: seq<Record>, v: real)
    requires rs != []
    ensures var k := |rs| - 1;
            && |Succeeded(rs)| == |Succeeded(rs[..k])| + (if rs[k].success then 1 else 0)
            && |Within(rs, v)| == |Within(rs[..k], v)| + (if rs[k].success && rs[k].latencyMs <= v then 1 else 0)
  {
    var k := |rs| - 1;
    var s, w := Succeeded(rs[..k]), Within(rs[..k], v);
    assert k !in s && k !in w;
    assert Succeeded(rs) == if rs[k].success then s + {k} else s;
    assert Within(rs, v) == if rs[k].success && rs[k].latencyMs <= v then w + {k} else w;
  }

  /** What a profile says of the records: each percentile is the least to cover its share of the successes. */
  lemma ProfileWrittenOut(rs: seq<Record>, v: real)
    requires rs != []
    ensures var p := ProfileOf(rs);
            var ok := |set i | 0 <= i < |rs| && rs[i].success|;
            var within := |set i | 0 <= i < |rs| && rs[i].success && rs[i].latencyMs <= v|;
            && p.sampleCount == |rs|
            && p.successRate * (|rs| as real) == 100.0 * (ok as real)
            && (ok > 0 ==> (p.p50Ms <= v <==> 100 * within >= 50 * ok))
            && (ok > 0 ==> (p.p95Ms <= v <==> 100 * within >= 95 * ok))
            && (ok > 0 ==> (p.p99Ms <= v <==> 100 * within >= 99 * ok))
            && (ok == 0 ==> p.p50Ms == p.p95Ms == p.p99Ms == 0.0)
  {
    hide Quota, CountAtMost, Sorted, Percentile, Successes;
    var ok := Successes(rs);
    SuccessesExactly(rs, v);
    RateTimes(|ok|, |rs|);
    if ok != [] {
      RankWrittenOut(ok, 50, v);
      RankWrittenOut(ok, 95, v);
      RankWrittenOut(ok, 99, v);
    } else {
      NoSamples();
    }
  }

  lemma NoSamples()
    ensures Percentile(Sorted([]), 50) == Percentile(Sorted([]), 95) == Percentile(Sorted([]), 99) == 0.0
  {
  }

  lemma RateTimes(ok: nat, n: nat)
    requires n > 0
    ensures (ok as real) / (n as real) * 100.0 * (n as real) == 100.0 * (ok as real)
  {
    var x, m := (ok as real) / (n as real), n as real;
    assert x * m == ok as real;
    assert x * 100.0 * m == 100.0 * (x * m);
  }

  lemma RankWrittenOut(ok: seq<real>, p: nat, v: real)
    requires ok != [] && 1 <= p <= 100
    ensures Percentile(Sorted(ok), p) <= v <==> 100 * CountAtMost(ok, v) >= p * |ok|
  {
    PercentileCovers(ok, p, v);
    QuotaIsCeiling(p, |ok|, CountAtMost(ok, v));
  }

  /** Meets the target: no record at all, or p95 within bounds. */
  predicate Meets(rs: seq<Record>, maxAcceptableMs: real) {
    var p := ProfileOf(rs);
    p.sampleCount == 0 || p.p95Ms <= maxAcceptableMs
  }

  /**
   * An exchange with successes meets the target iff at least 95 in 100 of them are within bounds. One that has never
   * answered has a p95 of zero, so it meets any target that is not negative.
   */
  lemma MeetsTargetExactly(rs: seq<Record>, maxAcceptableMs: real)
    ensures var ok := Successes(rs);
            Meets(rs, maxAcceptableMs) <==>
            || rs == []
            || (ok == [] && maxAcceptableMs >= 0.0)
            || (ok != [] && 100 * CountAtMost(ok, maxAcceptableMs) >= 95 * |ok|)
  {
    var ok := Successes(rs);
    if rs != [] && ok != [] {
      hide Quota, CountAtMost, Sorted, Percentile, Successes;
      PercentileCovers(ok, 95, maxAcceptableMs);
      QuotaIsCeiling(95, |ok|, CountAtMost(ok, maxAcceptableMs));
    }
  }

  lemma KeptOf(kept: map<string, seq<Record>>, all: map<string, seq<Record>>, k: nat, e: string)
    requires KeepsNewest(kept, all, k)
    ensures (if e in kept then kept[e] else []) == Last(if e in all then all[e] else [], k)
  {
  }

  ghost predicate KeepsNewest(kept: map<string, seq<Record>>, all: map<string, seq<Record>>, k: nat) {
    forall e :: (e in kept <==> e in all) && (e in kept ==> kept[e] == Last(all[e], k))
  }

  lemma KeepsNewestUpdate(kept: map<string, seq<Record>>, all: map<string, seq<Record>>, k: nat,
                          e: string, rs: seq<Record>, was: seq<Record>)
    requires KeepsNewest(kept, all, k) && rs == Last(was, k)
    ensures KeepsNewest(kept[e := rs], all[e := was], k)
  {
    hide Last;
  }

  class LatencyOptimizer {
    const historySize: int
    const maxAcceptableMs: real
    var history: map<string, seq<Record>>

    ghost var everything: map<string, seq<Record>> // untrimmed

    ghost function Kept(): nat { if historySize < 0 then 0 else historySize }

    /** What is kept of an exchange is the newest of everything recorded for it. */
    ghost predicate Valid()
      reads this
    {
      KeepsNewest(history, everything, Kept())
    }

    constructor (historySize: int, maxAcceptableMs: real)
      ensures Valid() && everything == map[]
      ensures this.historySize == historySize && this.maxAcceptableMs == maxAcceptableMs
    {
      this.historySize, this.maxAcceptableMs := historySize, maxAcceptableMs;
      history, everything := map[], map[];
    }

    method RecordLatency(exchange: string, r: Record)
      requires Valid()
      modifies this
      ensures Valid()
      ensures everything ==
              old(everything)[exchange := (if exchange in old(everything) then old(everything)[exchange] else []) + [r]]
    {
      hide Last, Trim;
      var known := if exchange in history then history[exchange] else [];
      ghost var all := if exchange in everything then everything[exchange] else [];
      KeptOf(history, everything, Kept(), exchange);
      hide KeepsNewest;
      TrimIsLast(all, r, historySize, Kept());
      KeepsNewestUpdate(history, everything, Kept(), exchange, Trim(known + [r], historySize), all + [r]);
      history := history[exchange := Trim(known + [r], historySize)];
      everything := everything[exchange := all + [r]];
    }

    method GetProfile(exchange: string) returns (p: Profile)
      requires Valid()
      ensures p == ProfileOf(if exchange in everything then Last(everything[exchange], Kept()) else [])
      ensures p.p50Ms <= p.p95Ms <= p.p99Ms
    {
      hide Sorted, Percentile, Successes;
      var records := if exchange in history then history[exchange] else [];
      p := ProfileOf(records);
      PercentilesAscend(Successes(records), 50, 95);
      PercentilesAscend(Successes(records), 95, 99);
    }

    method MeetsTarget(exchange: string) returns (ok: bool)
      requires Valid()
      ensures ok <==> Meets(if exchange in everything then Last(everything[exchange], Kept()) else [], maxAcceptableMs)
    {
      var profile := GetProfile(exchange);
      if profile.sampleCount == 0 {
        return true;
      }
      return profile.p95Ms <= maxAcceptableMs;
    }
  }
}
