/** The local buffer of usage events: rows enter when tracked and leave when their batch is acknowledged. */
module MetricsBuffer {
  import opened Wrappers
  import opened UsageMetering

  datatype Key = Key(eventType: string, tenantId: string, timestamp: string)

  datatype Event = Event(key: Key, durationMs: Option<int>, metadata: string)

  /** A buffered event; its status never leaves 'pending', since sent rows are deleted and failed ones are re-marked. */
  datatype Row = Row(event: Event, retryCount: nat, lastError: Option<string>)

  function Events(rows: seq<Row>): (r: seq<Event>)
    ensures |r| == |rows|
  {
    seq(|rows|, i requires 0 <= i < |rows| => rows[i].event)
  }

  /** How often each key occurs. */
  ghost function Keys(es: seq<Event>): multiset<Key> {
    if es == [] then multiset{} else Keys(es[..|es| - 1]) + multiset{es[|es| - 1].key}
  }

  lemma KeysSnoc(es: seq<Event>, e: Event)
    ensures Keys(es + [e]) == Keys(es) + multiset{e.key}
  {
    assert (es + [e])[..|es|] == es;
  }

  lemma AddToEither<T>(whole: multiset<T>, a: multiset<T>, b: multiset<T>, x: T)
    requires whole == a + b
    ensures whole + multiset{x} == (a + multiset{x}) + b
    ensures whole + multiset{x} == a + (b + multiset{x})
  {
  }

  lemma CancelOne<T>(left: multiset<T>, a: multiset<T>, b: multiset<T>, x: T)
    requires left + multiset{x} == (multiset{x} + a) + b
    ensures left == a + b
  {
    assert forall y :: left[y] == (left + multiset{x})[y] - multiset{x}[y];
  }

  lemma NoKeys()
    ensures Keys([]) == multiset{}
  {
  }

  lemma {:induction false} KeysConcat(a: seq<Event>, b: seq<Event>)
    ensures Keys(a + b) == Keys(a) + Keys(b)
  {
    hide Keys;
    NoKeys();
    if b == [] {
      assert a + b == a;
    } else {
      var init, e := b[..|b| - 1], b[|b| - 1];
      KeysConcat(a, init);
      assert a + b == (a + init) + [e] && b == init + [e];
      KeysSnoc(a + init, e);
      KeysSnoc(init, e);
      AddToEither(Keys(a + init), Keys(a), Keys(init), e.key);
    }
  }

  lemma {:induction false} KeysSize(es: seq<Event>)
    ensures |Keys(es)| == |es|
  {
    if es != [] {
      KeysSize(es[..|es| - 1]);
    }
  }

  lemma {:induction false} KeyHasAnEvent(es: seq<Event>, k: Key)
    requires k in Keys(es)
    ensures exists i :: 0 <= i < |es| && es[i].key == k
  {
    var init := es[..|es| - 1];
    if es[|es| - 1].key != k {
      KeyHasAnEvent(init, k);
      var i :| 0 <= i < |init| && init[i].key == k;
      assert es[i].key == k;
    }
  }

  lemma KeyHasARow(rows: seq<Row>, k: Key)
    requires k in Keys(Events(rows))
    ensures exists i :: 0 <= i < |rows| && rows[i].event.key == k
  {
    KeyHasAnEvent(Events(rows), k);
    var j :| 0 <= j < |rows| && Events(rows)[j].key == k;
    assert rows[j].event.key == k;
  }

  lemma KeysWithout(rows: seq<Row>, i: nat)
    requires i < |rows|
    ensures Keys(Events(rows)) == Keys(Events(rows[..i] + rows[i + 1..])) + multiset{rows[i].event.key}
  {
    var a, b, e := Events(rows[..i]), Events(rows[i + 1..]), rows[i].event;
    assert Events(rows) == (a + [e]) + b;
    assert Events(rows[..i] + rows[i + 1..]) == a + b;
    KeysConcat(a + [e], b);
    KeysSnoc(a, e);
    KeysConcat(a, b);
  }

  // ----- tenants -----

  function OfTenant(es: seq<Event>, tenant: string): seq<Event> {
    if es == [] then []
    else if es[|es| - 1].key.tenantId == tenant then OfTenant(es[..|es| - 1], tenant) + [es[|es| - 1]]
    else OfTenant(es[..|es| - 1], tenant)
  }

  /** The events of all tenants but those in `done`. */
  ghost function Others(es: seq<Event>, done: set<string>): seq<Event> {
    if es == [] then []
    else if es[|es| - 1].key.tenantId !in done then Others(es[..|es| - 1], done) + [es[|es| - 1]]
    else Others(es[..|es| - 1], done)
  }

  /** The events of the tenants in `done`. */
  ghost function Chosen(es: seq<Event>, done: set<string>): seq<Event> {
    if es == [] then []
    else if es[|es| - 1].key.tenantId in done then Chosen(es[..|es| - 1], done) + [es[|es| - 1]]
    else Chosen(es[..|es| - 1], done)
  }

  lemma {:induction false} TenantSplit(es: seq<Event>, done: set<string>, tenant: string)
    requires tenant !in done
    ensures Keys(Others(es, done)) == Keys(OfTenant(es, tenant)) + Keys(Others(es, done + {tenant}))
    ensures Keys(Chosen(es, done + {tenant})) == Keys(Chosen(es, done)) + Keys(OfTenant(es, tenant))
  {
    hide Keys;
    NoKeys();
    if es != [] {
      var init, e := es[..|es| - 1], es[|es| - 1];
      TenantSplit(init, done, tenant);
      var t, o, o', c, c' := OfTenant(init, tenant), Others(init, done), Others(init, done + {tenant}),
                             Chosen(init, done), Chosen(init, done + {tenant});
      KeysSnoc(t, e);
      KeysSnoc(o, e);
      KeysSnoc(o', e);
      KeysSnoc(c, e);
      KeysSnoc(c', e);
      AddToEither(Keys(o), Keys(t), Keys(o'), e.key);
      AddToEither(Keys(c'), Keys(c), Keys(t), e.key);
    }
  }

  lemma {:induction false} NoneDone(es: seq<Event>)
    ensures Others(es, {}) == es && Chosen(es, {}) == []
  {
    if es != [] {
      NoneDone(es[..|es| - 1]);
    }
  }

  lemma {:induction false} AllDone(es: seq<Event>, done: set<string>)
    requires forall i :: 0 <= i < |es| ==> es[i].key.tenantId in done
    ensures Chosen(es, done) == es
  {
    if es != [] {
      AllDone(es[..|es| - 1], done);
    }
  }

  // ----- which rows a flush removes -----

  /** The table without its oldest row of key `k`. */
  function DeleteOldest(rows: seq<Row>, k: Key): seq<Row> {
    if rows == [] then []
    else if rows[0].event.key == k then rows[1..]
    else [rows[0]] + DeleteOldest(rows[1..], k)
  }

  function DeleteEach(rows: seq<Row>, es: seq<Event>): seq<Row>
    decreases |es|
  {
    if es == [] then rows else DeleteEach(DeleteOldest(rows, es[0].key), es[1..])
  }

  function WithoutTenant(rows: seq<Row>, tenant: string): seq<Row> {
    if rows == [] then []
    else if rows[0].event.key.tenantId == tenant then WithoutTenant(rows[1..], tenant)
    else [rows[0]] + WithoutTenant(rows[1..], tenant)
  }

  lemma {:induction false} DeleteBehind(row: Row, rows: seq<Row>, es: seq<Event>)
    requires forall i :: 0 <= i < |es| ==> es[i].key != row.event.key
    ensures DeleteEach([row] + rows, es) == [row] + DeleteEach(rows, es)
    decreases |es|
  {
    if es != [] {
      assert ([row] + rows)[1..] == rows;
      DeleteBehind(row, DeleteOldest(rows, es[0].key), es[1..]);
    }
  }

  lemma {:induction false} OfTenantCons(e: Event, es: seq<Event>, tenant: string)
    ensures OfTenant([e] + es, tenant) == (if e.key.tenantId == tenant then [e] else []) + OfTenant(es, tenant)
    ensures forall i :: 0 <= i < |OfTenant(es, tenant)| ==> OfTenant(es, tenant)[i].key.tenantId == tenant
  {
    if es == [] {
      assert [e] + es == [e] && [e][..0] == [];
    } else {
      OfTenantCons(e, es[..|es| - 1], tenant);
      assert ([e] + es)[..|es|] == [e] + es[..|es| - 1];
    }
  }

  /**
   * Rows are deleted by key, not by identity. When the oldest match goes, and a batch holds the oldest rows, the rows
   * that leave are the very rows that were sent, even where keys repeat.
   */
  lemma {:induction false} OldestMatchesAreTheSentRows(fetched: seq<Row>, rest: seq<Row>, tenant: string)
    ensures DeleteEach(fetched + rest, OfTenant(Events(fetched), tenant)) == WithoutTenant(fetched, tenant) + rest
  {
    if fetched == [] {
      assert fetched + rest == rest;
    } else {
      var row, tail := fetched[0], fetched[1..];
      assert fetched + rest == [row] + (tail + rest);
      assert Events(fetched) == [row.event] + Events(tail);
      OldestMatchesAreTheSentRows(tail, rest, tenant);
      OfTenantCons(row.event, Events(tail), tenant);
      var es := OfTenant(Events(tail), tenant);
      if row.event.key.tenantId == tenant {
        assert ([row.event] + es)[1..] == es;
        assert ([row] + (tail + rest))[1..] == tail + rest;
      } else {
        assert [] + es == es;
        DeleteBehind(row, tail + rest, es);
      }
    }
  }

  function Without(rows: seq<Row>, i: nat): seq<Row>
    requires i < |rows|
  {
    rows[..i] + rows[i + 1..]
  }

  /** No row shares its key with a sent event that it does not hold. */
  ghost predicate Unmistakable(rows: seq<Row>, e: Event) {
    forall i :: 0 <= i < |rows| && rows[i].event.key == e.key ==> rows[i].event == e
  }

  lemma WithoutRemoves(rows: seq<Row>, i: nat)
    requires i < |rows|
    ensures multiset(Events(rows)) == multiset(Events(Without(rows, i))) + multiset{rows[i].event}
  {
    var a, b := Events(rows[..i]), Events(rows[i + 1..]);
    assert Events(rows) == a + [rows[i].event] + b;
    assert Events(Without(rows, i)) == a + b;
  }

  /** Deleting by key removes the sent event, whichever row goes, iff no row with that key holds another event. */
  lemma AnyMatchIsSafeExactly(rows: seq<Row>, e: Event)
    ensures (forall i :: 0 <= i < |rows| && rows[i].event.key == e.key ==>
               multiset(Events(rows)) == multiset(Events(Without(rows, i))) + multiset{e})
            <==> Unmistakable(rows, e)
  {
    hide Without, Events;
    forall i | 0 <= i < |rows| && rows[i].event.key == e.key
      ensures multiset(Events(rows)) == multiset(Events(Without(rows, i))) + multiset{e} <==> rows[i].event == e
    {
      WithoutRemoves(rows, i);
      var m := multiset(Events(Without(rows, i)));
      assert (m + multiset{rows[i].event})[e] == m[e] + if rows[i].event == e then 1 else 0;
    }
  }

  /** SQL promises no order without ORDER BY: deleting the newer match keeps the sent row and loses the unsent one. */
  lemma AnotherMatchLosesAPayload(k: Key)
    ensures var sent, unsent := Row(Event(k, Some(1), ""), 0, None), Row(Event(k, Some(2), ""), 0, None);
            var left := [sent, unsent][..1] + [sent, unsent][2..];
            Keys(Events([sent, unsent])) == Keys(Events(left)) + multiset{k} && sent in left && unsent !in left
  {
    KeysWithout([Row(Event(k, Some(1), ""), 0, None), Row(Event(k, Some(2), ""), 0, None)], 1);
  }

  // ----- draining -----

  /** Every event still in the buffer was there before, as often. */
  ghost predicate NothingNew(after: seq<Row>, before: seq<Row>) {
    multiset(Events(after)) <= multiset(Events(before))
  }

  lemma StillThere(before: seq<Row>, after: seq<Row>)
    requires exists i :: 0 <= i < |before| && after == Without(before, i)
    ensures multiset(after) <= multiset(before) && NothingNew(after, before)
  {
    var i :| 0 <= i < |before| && after == Without(before, i);
    assert before == before[..i] + [before[i]] + before[i + 1..];
    WithoutRemoves(before, i);
  }

  // ----- rows that are tried again -----

  /** `after` is `before` with every row counted once for each event of `batch` that has its key. */
  ghost predicate Remarked(after: seq<Row>, before: seq<Row>, batch: seq<Event>) {
    && |after| == |before|
    && forall i :: 0 <= i < |before| ==>
         && after[i].event == before[i].event
         && after[i].retryCount == before[i].retryCount + Keys(batch)[before[i].event.key]
         && after[i].lastError == if before[i].event.key in Keys(batch) then Some("Batch send failed")
                                  else before[i].lastError
  }

  lemma NothingRemarked(rows: seq<Row>)
    ensures Remarked(rows, rows, [])
  {
  }

  lemma RemarkedSnoc(after: seq<Row>, mid: seq<Row>, before: seq<Row>, batch: seq<Event>, e: Event)
    requires Remarked(mid, before, batch) && |after| == |mid|
    requires forall i :: 0 <= i < |mid| ==>
               after[i] == if mid[i].event.key != e.key then mid[i]
                           else mid[i].(retryCount := mid[i].retryCount + 1, lastError := Some("Batch send failed"))
    ensures Remarked(after, before, batch + [e])
  {
    hide Keys;
    KeysSnoc(batch, e);
  }

  function Limit(batchSize: int, n: nat): (r: nat)
    ensures r <= n
    ensures 0 <= batchSize <= n ==> r == batchSize
    ensures batchSize < 0 || batchSize > n ==> r == n
  {
    if batchSize < 0 || batchSize > n then n else batchSize
  }

  /** Buffer sizes under flushes that are acknowledged throughout. */
  ghost predicate Draining(sizes: seq<nat>, batchSize: nat) {
    forall i :: 0 <= i < |sizes| - 1 ==> sizes[i + 1] == sizes[i] - Limit(batchSize, sizes[i])
  }

  lemma {:induction false} SizeAfter(sizes: seq<nat>, batchSize: nat, k: nat)
    requires Draining(sizes, batchSize) && k < |sizes|
    ensures sizes[k] == if k * batchSize >= sizes[0] then 0 else sizes[0] - k * batchSize
  {
    if k > 0 {
      SizeAfter(sizes, batchSize, k - 1);
      assert sizes[(k - 1) + 1] == sizes[k - 1] - Limit(batchSize, sizes[k - 1]);
      assert k * batchSize == (k - 1) * batchSize + batchSize;
    }
  }

  /** A buffer of `n` rows is empty after k acknowledged flushes iff k reaches n / batchSize rounded up. */
  lemma DrainsInCeiling(sizes: seq<nat>, batchSize: nat, k: nat)
    requires Draining(sizes, batchSize) && k < |sizes| && batchSize >= 1
    ensures sizes[k] == 0 <==> k >= (sizes[0] + batchSize - 1) / batchSize
  {
    SizeAfter(sizes, batchSize, k);
    CeilingDivides(sizes[0], batchSize, k);
  }

  lemma CeilingDivides(n: nat, b: nat, k: nat)
    requires b >= 1
    ensures k * b >= n <==> k >= (n + b - 1) / b
  {
    var c := (n + b - 1) / b;
    assert c * b <= n + b - 1 < c * b + b;
    if k >= c {
      assert k * b >= c * b;
    } else {
      assert (k + 1) * b <= c * b;
    }
  }

  // ----- the service's buffer -----

  datatype Group = Group(tenant: string, events: seq<Event>)

  /** The groups hold each tenant of `es` once, with its events in order. */
  ghost predicate Grouped(groups: seq<Group>, es: seq<Event>) {
    && (forall i, j :: 0 <= i < j < |groups| ==> groups[i].tenant != groups[j].tenant)
    && (forall i :: 0 <= i < |groups| ==> groups[i].events == OfTenant(es, groups[i].tenant))
    && (forall k :: 0 <= k < |es| ==> HasTenant(groups, es[k].key.tenantId))
    && |groups| <= |es|
  }

  ghost predicate HasTenant(groups: seq<Group>, tenant: string) {
    exists i :: 0 <= i < |groups| && groups[i].tenant == tenant
  }

  function IndexOfTenant(groups: seq<Group>, tenant: string): (r: Option<nat>)
    ensures r.Some? ==> r.value < |groups| && groups[r.value].tenant == tenant
    ensures r.None? ==> !HasTenant(groups, tenant)
  {
    if groups == [] then None
    else if groups[|groups| - 1].tenant == tenant then Some(|groups| - 1)
    else IndexOfTenant(groups[..|groups| - 1], tenant)
  }

  lemma {:induction false} AbsentTenant(es: seq<Event>, tenant: string)
    requires forall k :: 0 <= k < |es| ==> es[k].key.tenantId != tenant
    ensures OfTenant(es, tenant) == []
  {
    if es != [] {
      AbsentTenant(es[..|es| - 1], tenant);
    }
  }

  lemma OfTenantSnoc(es: seq<Event>, e: Event, tenant: string)
    ensures OfTenant(es + [e], tenant) == OfTenant(es, tenant) + if e.key.tenantId == tenant then [e] else []
  {
    assert (es + [e])[..|es|] == es;
  }

  /** The groups after one more event. */
  function AddToGroups(groups: seq<Group>, e: Event): seq<Group> {
    var i := IndexOfTenant(groups, e.key.tenantId);
    if i.None? then groups + [Group(e.key.tenantId, [e])]
    else groups[i.value := Group(e.key.tenantId, groups[i.value].events + [e])]
  }

  lemma AddToGroupsGroups(groups: seq<Group>, es: seq<Event>, e: Event)
    requires Grouped(groups, es)
    ensures Grouped(AddToGroups(groups, e), es + [e])
  {
    hide OfTenant, IndexOfTenant;
    var t := e.key.tenantId;
    var i := IndexOfTenant(groups, t);
    var after := AddToGroups(groups, e);
    if i.None? {
      forall k | 0 <= k < |es|
        ensures es[k].key.tenantId != t
      {
        assert HasTenant(groups, es[k].key.tenantId);
      }
      AbsentTenant(es, t);
    }
    forall j | 0 <= j < |after|
      ensures after[j].events == OfTenant(es + [e], after[j].tenant)
    {
      OfTenantSnoc(es, e, after[j].tenant);
    }
    forall k | 0 <= k < |es + [e]|
      ensures HasTenant(after, (es + [e])[k].key.tenantId)
    {
      if k < |es| {
        assert HasTenant(groups, es[k].key.tenantId);
        var j :| 0 <= j < |groups| && groups[j].tenant == es[k].key.tenantId;
        assert after[j].tenant == es[k].key.tenantId;
      } else {
        assert after[if i.None? then |groups| else i.value].tenant == t;
      }
    }
  }

  lemma NoGroups()
    ensures Grouped([], [])
  {
  }

  method GroupByTenant(es: seq<Event>) returns (groups: seq<Group>)
    ensures Grouped(groups, es)
  {
    hide Grouped, AddToGroups;
    groups := [];
    NoGroups();
    var i := 0;
    while i < |es|
      invariant 0 <= i <= |es|
      invariant Grouped(groups, es[..i])
    {
      AddToGroupsGroups(groups, es[..i], es[i]);
      assert es[..i + 1] == es[..i] + [es[i]];
      groups := AddToGroups(groups, es[i]);
      i := i + 1;
    }
    assert es[..|es|] == es;
  }

  class UsageMeteringService {
    const sender: BatchSender
    const batchSize: int
    var rows: seq<Row> // oldest first

    ghost var tracked: multiset<Key>
    ghost var acknowledged: multiset<Key>
    ghost var delivered: multiset<Key>

    /** Nothing is lost and nothing leaves early: kept by every single row operation, so by a crash between any two. */
    ghost predicate Safe()
      reads this
    {
      && Keys(Events(rows)) + delivered == tracked
      && delivered <= acknowledged
    }

    constructor (sender: BatchSender, batchSize: int)
      ensures Safe() && rows == [] && tracked == multiset{}
      ensures this.sender == sender && this.batchSize == batchSize
    {
      this.sender, this.batchSize := sender, batchSize;
      rows := [];
      tracked, acknowledged, delivered := multiset{}, multiset{}, multiset{};
    }

    method StoreEvent(e: Event)
      requires Safe()
      modifies this`rows, this`tracked
      ensures Safe()
      ensures rows == old(rows) + [Row(e, 0, None)] && tracked == old(tracked) + multiset{e.key}
    {
      hide Keys;
      assert Events(rows + [Row(e, 0, None)]) == Events(rows) + [e];
      KeysSnoc(Events(rows), e);
      rows := rows + [Row(e, 0, None)];
      tracked := tracked + multiset{e.key};
    }

    method GetPendingEvents(limit: int) returns (events: seq<Event>)
      ensures events == Events(rows[..Limit(limit, |rows|)])
    {
      events := [];
      var n, i := Limit(limit, |rows|), 0;
      while i < n
        invariant 0 <= i <= n
        invariant events == Events(rows[..i])
      {
        events := events + [rows[i].event];
        i := i + 1;
      }
    }

    /** Deletes some row with the event's key: which one, the statement leaves open. */
    method MarkSent(e: Event)
      requires Safe() && e.key in Keys(Events(rows))
      requires delivered + multiset{e.key} <= acknowledged
      modifies this`rows, this`delivered
      ensures Safe()
      ensures exists i :: 0 <= i < |old(rows)| && old(rows)[i].event.key == e.key && rows == Without(old(rows), i)
      ensures Keys(Events(old(rows))) == Keys(Events(rows)) + multiset{e.key}
      ensures delivered == old(delivered) + multiset{e.key} && |rows| == |old(rows)| - 1
      ensures Unmistakable(old(rows), e) ==> multiset(Events(old(rows))) == multiset(Events(rows)) + multiset{e}
    {
      hide Keys, Unmistakable, Events;
      KeyHasARow(rows, e.key);
      var i :| 0 <= i < |rows| && rows[i].event.key == e.key;
      KeysWithout(rows, i);
      AnyMatchIsSafeExactly(rows, e);
      rows := Without(rows, i);
      delivered := delivered + multiset{e.key};
    }

    /** Re-marks every row with the event's key. */
    method MarkPending(k: Key, error: string)
      requires Safe()
      modifies this`rows
      ensures Safe() && Events(rows) == Events(old(rows))
      ensures forall i :: 0 <= i < |rows| ==>
                rows[i] == if old(rows)[i].event.key != k then old(rows)[i]
                           else old(rows)[i].(retryCount := old(rows)[i].retryCount + 1, lastError := Some(error))
    {
      hide Keys;
      var before := rows;
      rows := seq(|before|, i requires 0 <= i < |before| =>
        if before[i].event.key == k then before[i].(retryCount := before[i].retryCount + 1, lastError := Some(error))
        else before[i]);
      assert Events(rows) == Events(before);
    }

    /** Takes an acknowledged batch out of the buffer, row by row. */
    method RemoveBatch(batch: seq<Event>, ghost rest: multiset<Key>)
      requires Safe() && Keys(Events(rows)) == Keys(batch) + rest
      requires delivered + Keys(batch) <= acknowledged
      modifies this`rows, this`delivered
      ensures Safe() && Keys(Events(rows)) == rest
      ensures delivered == old(delivered) + Keys(batch) && |rows| == |old(rows)| - |batch|
      ensures multiset(rows) <= multiset(old(rows)) && NothingNew(rows, old(rows))
    {
      hide Keys, Safe, Events, Unmistakable, Without;
      NoKeys();
      var i := 0;
      assert batch[..|batch|] == batch;
      while i < |batch|
        invariant 0 <= i <= |batch|
        invariant Safe()
        invariant Keys(Events(rows)) == Keys(batch[i..]) + rest
        invariant Keys(batch) == Keys(batch[..i]) + Keys(batch[i..])
        invariant delivered == old(delivered) + Keys(batch[..i])
        invariant |rows| == |old(rows)| - i
        invariant multiset(rows) <= multiset(old(rows)) && NothingNew(rows, old(rows))
      {
        SplitFirst(batch, i);
        ghost var before := rows;
        MarkSent(batch[i]);
        StillThere(before, rows);
        CancelOne(Keys(Events(rows)), Keys(batch[i + 1..]), rest, batch[i].key);
        i := i + 1;
      }
      assert batch[|batch|..] == [];
    }

    /** Marks each event of a refused batch: a row is counted once for every event of the batch that has its key. */
    method RetryBatch(batch: seq<Event>)
      requires Safe()
      modifies this`rows
      ensures Safe() && Events(rows) == Events(old(rows))
      ensures Remarked(rows, old(rows), batch)
    {
      hide Safe, Events, Remarked;
      assert batch[..0] == [];
      NothingRemarked(rows);
      var i := 0;
      while i < |batch|
        invariant 0 <= i <= |batch|
        invariant Safe() && Events(rows) == Events(old(rows))
        invariant Remarked(rows, old(rows), batch[..i])
      {
        ghost var before := rows;
        MarkPending(batch[i].key, "Batch send failed");
        assert Events(rows) == Events(before);
        assert batch[..i + 1] == batch[..i] + [batch[i]];
        RemarkedSnoc(rows, before, old(rows), batch[..i], batch[i]);
        i := i + 1;
      }
      assert batch[..|batch|] == batch;
    }

    /** What has left the buffer when the tenants `acked` of `batch` are done and `later` is not in the batch. */
    ghost predicate Progress(batch: seq<Event>, acked: set<string>, later: multiset<Key>, d0: multiset<Key>, n0: nat)
      reads this
    {
      && Safe()
      && Keys(Events(rows)) == Keys(Others(batch, acked)) + later
      && delivered == d0 + Keys(Chosen(batch, acked))
      && |rows| + |Chosen(batch, acked)| == n0
    }

    /** Sends one tenant's events: acknowledged exactly if the breaker lets them out and a post is answered well. */
    method SendGroup(group: Group, replies: seq<Reply>, now: real) returns (ok: bool)
      requires sender.breaker.Valid() && |replies| >= sender.Allowance()
      modifies this`acknowledged, sender.breaker
      ensures sender.breaker.Valid()
      ensures ok <==>
              old(Admits(sender.breaker.cfg, sender.breaker.View(), now)) && SettledWell(replies, sender.Allowance())
      ensures acknowledged == old(acknowledged) + if ok then Keys(group.events) else multiset{}
      ensures sender.breaker.View()
           == AfterSend(sender.breaker.cfg, old(sender.breaker.View()), replies, now, sender.Allowance())
    {
      hide Keys, Posts, RunCircuit, Admits, ReplyEvents, SettledWell, AfterSend;
      var posts, slept;
      ok, posts, slept := sender.SendBatch(replies, now);
      if ok {
        acknowledged := acknowledged + Keys(group.events);
      }
    }

    /** Sends one tenant's events and settles their rows. */
    method FlushGroup(group: Group, replies: seq<Reply>, now: real,
                      ghost batch: seq<Event>, ghost acked: set<string>, ghost later: multiset<Key>,
                      ghost d0: multiset<Key>, ghost n0: nat)
      returns (ok: bool)
      requires sender.breaker.Valid() && |replies| >= sender.Allowance()
      requires Progress(batch, acked, later, d0, n0) && delivered == acknowledged
      requires group.events == OfTenant(batch, group.tenant) && group.tenant !in acked
      modifies this`rows, this`acknowledged, this`delivered, sender.breaker
      ensures sender.breaker.Valid()
      ensures Progress(batch, if ok then acked + {group.tenant} else acked, later, d0, n0) && delivered == acknowledged
      ensures ok <==>
              old(Admits(sender.breaker.cfg, sender.breaker.View(), now)) && SettledWell(replies, sender.Allowance())
      ensures sender.breaker.View()
           == AfterSend(sender.breaker.cfg, old(sender.breaker.View()), replies, now, sender.Allowance())
      // Acknowledged rows go and the others stay as they are; refused rows stay and are counted as tried.
      ensures ok ==> multiset(rows) <= multiset(old(rows))
      ensures !ok ==> Remarked(rows, old(rows), group.events)
      ensures NothingNew(rows, old(rows))
    {
      hide Keys, OfTenant, Others, Chosen, Admits, AfterSend, SettledWell, CircuitBreaker.Valid, Remarked;
      ok := SendGroup(group, replies, now);
      if ok {
        AcceptGroup(group, batch, acked, later, d0, n0);
      } else {
        RetryBatch(group.events);
      }
    }

    lemma StartProgress(later: multiset<Key>)
      requires Safe() && later == Keys(Events(rows[Limit(batchSize, |rows|)..]))
      ensures var batch := Events(rows[..Limit(batchSize, |rows|)]);
              Progress(batch, {}, later, delivered, |rows|) && Chosen(batch, {}) == []
    {
      var n := Limit(batchSize, |rows|);
      var batch := Events(rows[..n]);
      NoneDone(batch);
      assert Events(rows) == batch + Events(rows[n..]);
      KeysConcat(batch, Events(rows[n..]));
    }

    method AcceptGroup(group: Group, ghost batch: seq<Event>, ghost acked: set<string>, ghost later: multiset<Key>,
                       ghost d0: multiset<Key>, ghost n0: nat)
      requires Progress(batch, acked, later, d0, n0) && acknowledged == delivered + Keys(group.events)
      requires group.events == OfTenant(batch, group.tenant) && group.tenant !in acked
      modifies this`rows, this`delivered
      ensures Progress(batch, acked + {group.tenant}, later, d0, n0) && delivered == acknowledged
      ensures multiset(rows) <= multiset(old(rows)) && NothingNew(rows, old(rows))
    {
      hide Keys, OfTenant, Others, Chosen, Events;
      TenantSplit(batch, acked, group.tenant);
      ChosenSize(batch, acked, group.tenant);
      RemoveBatch(group.events, Keys(Others(batch, acked + {group.tenant})) + later);
    }

    /** The network that the next flush meets. */
    ghost function Facing(replies: seq<seq<Reply>>, times: seq<real>): Network
      reads sender.breaker
    {
      Network(sender.breaker.cfg, sender.breaker.View(), replies, times, sender.Allowance())
    }

    /** Sends the oldest rows, tenant by tenant, and reports how many left the buffer. */
    method Flush(replies: seq<seq<Reply>>, times: seq<real>)
      returns (flushed: nat, ghost groups: seq<Group>, ghost acked: set<string>)
      requires Safe() && sender.breaker.Valid() && delivered == acknowledged
      requires Covers(Facing(replies, times), |rows|)
      modifies this`rows, this`acknowledged, this`delivered, sender.breaker
      ensures Safe() && sender.breaker.Valid() && delivered == acknowledged
      // The rows that leave are exactly those of the acknowledged tenants of the batch, key for key.
      ensures var batch := Events(old(rows)[..Limit(batchSize, |old(rows)|)]);
              && Grouped(groups, batch)
              && Keys(Events(old(rows))) == Keys(Events(rows)) + Keys(Chosen(batch, acked))
              && delivered == old(delivered) + Keys(Chosen(batch, acked))
              && flushed == |Chosen(batch, acked)| == |old(rows)| - |rows|
      ensures NothingNew(rows, old(rows))
      // A tenant is acknowledged exactly when the breaker lets its group out and a post for it is answered well.
      ensures |groups| <= |old(rows)| && AckedBy(groups, |groups|, old(Facing(replies, times)), acked)
      ensures sender.breaker.View() == CircuitAfter(old(Facing(replies, times)), |groups|)
      // With every send acknowledged the whole batch leaves.
      ensures AllAcked(groups, acked) ==> flushed == Limit(batchSize, |old(rows)|)
      ensures Smooth(old(Facing(replies, times)), |groups|) ==> flushed == Limit(batchSize, |old(rows)|)
    {
      hide Keys, OfTenant, Chosen, Others, Posts, SettledWell, Events, Admits, RunCircuit, CircuitAfter, AckedBy,
           Enough, Smooth;
      var events := GetPendingEvents(batchSize);
      ghost var net := Facing(replies, times);
      ghost var d0, n0, later := delivered, |rows|, Keys(Events(rows[Limit(batchSize, |rows|)..]));
      StartProgress(later);
      var gs := GroupByTenant(events);
      groups := gs;
      CoversFewer(net, |rows|, |gs|);
      flushed, acked := FlushGroups(gs, replies, times, events, later, d0, n0);
      CancelAll(Keys(Events(old(rows))), d0, Keys(Events(rows)), Keys(Chosen(events, acked)));
      if Smooth(net, |gs|) {
        SmoothMeansAcked(net, gs, acked);
      }
      if AllAcked(gs, acked) {
        EveryTenantAcked(gs, events, acked);
      }
    }

    /** Flushes one after the other, with nothing tracked in between; `log` tells what the network did to each. */
    method Drain(replies: seq<seq<seq<Reply>>>, times: seq<seq<real>>) returns (ghost log: seq<Round>)
      requires Safe() && sender.breaker.Valid() && delivered == acknowledged
      requires |times| == |replies|
      requires forall i :: 0 <= i < |replies| ==> Enough(replies[i], times[i], sender.Allowance(), |rows|)
      modifies this`rows, this`acknowledged, this`delivered, sender.breaker
      ensures Safe() && sender.breaker.Valid() && delivered == acknowledged
      ensures |log| == |replies| && Logged(log, sender.breaker.cfg, old(sender.breaker.View()), sender.Allowance())
      ensures forall i :: 0 <= i < |log| ==> log[i].net.replies == replies[i] && log[i].net.times == times[i]
      // With every send acknowledged, the buffer is empty exactly when the flushes cover it.
      ensures batchSize >= 1 && EverySendAcked(log) ==>
              (rows == [] <==> |replies| >= (|old(rows)| + batchSize - 1) / batchSize)
      // So it is from a breaker at rest, when every send is acknowledged before its retries reach the threshold.
      ensures batchSize >= 1 && old(AtRest(sender.breaker.View()))
              && (forall i :: 0 <= i < |replies| ==> Calm(sender.breaker.cfg, replies[i], sender.Allowance())) ==>
              (rows == [] <==> |replies| >= (|old(rows)| + batchSize - 1) / batchSize)
    {
      hide Safe, CircuitBreaker.Valid, Enough, Logged, Draining, Limit, EverySendAcked;
      log := [];
      ghost var start, sizes: seq<nat> := sender.breaker.View(), [|rows|];
      NothingLogged(sender.breaker.cfg, start, sender.Allowance(), sizes, batchSize);
      var i := 0;
      while i < |replies|
        invariant 0 <= i <= |replies| && |log| == i && |sizes| == i + 1
        invariant Safe() && sender.breaker.Valid() && delivered == acknowledged
        invariant Logged(log, sender.breaker.cfg, start, sender.Allowance())
        invariant sender.breaker.View() == Reached(log, start)
        invariant forall j :: 0 <= j < i ==> log[j].net.replies == replies[j] && log[j].net.times == times[j]
        invariant sizes[0] == |old(rows)| && sizes[i] == |rows| <= |old(rows)|
        invariant batchSize >= 1 && EverySendAcked(log) ==> Draining(sizes, batchSize)
      {
        ghost var round := FlushRound(replies[i], times[i], |old(rows)|);
        LogSnoc(log, sender.breaker.cfg, start, sender.Allowance(), round, sizes, |rows|, batchSize);
        log, sizes := log + [round], sizes + [|rows|];
        i := i + 1;
      }
      if batchSize >= 1 && EverySendAcked(log) {
        DrainsInCeiling(sizes, batchSize, i);
      }
      if AtRest(start) && forall i :: 0 <= i < |replies| ==> Calm(sender.breaker.cfg, replies[i], sender.Allowance()) {
        CalmRounds(log, sender.breaker.cfg, start, sender.Allowance());
      }
    }

    /** A flush, told as a round of a drain. */
    method FlushRound(replies: seq<seq<Reply>>, times: seq<real>, ghost n: nat) returns (ghost round: Round)
      requires Safe() && sender.breaker.Valid() && delivered == acknowledged
      requires |rows| <= n && Enough(replies, times, sender.Allowance(), n)
      modifies this`rows, this`acknowledged, this`delivered, sender.breaker
      ensures Safe() && sender.breaker.Valid() && delivered == acknowledged
      ensures round.net == old(Facing(replies, times)) && Covers(round.net, |round.groups|)
      ensures AckedBy(round.groups, |round.groups|, round.net, round.acked)
      ensures sender.breaker.View() == CircuitAfter(round.net, |round.groups|)
      ensures |rows| <= |old(rows)|
      ensures AllAcked(round.groups, round.acked) ==> |rows| == |old(rows)| - Limit(batchSize, |old(rows)|)
    {
      hide Safe, CircuitBreaker.Valid, Enough, AckedBy, AllAcked, CircuitAfter, Limit, Grouped, Chosen, Keys, Events;
      ghost var net := Facing(replies, times);
      CoversFewer(net, n, |rows|);
      ghost var most := |rows|;
      var flushed;
      ghost var groups, acked;
      flushed, groups, acked := Flush(replies, times);
      CoversFewer(net, most, |groups|);
      round := Round(net, groups, acked);
    }

    method FlushGroups(gs: seq<Group>, replies: seq<seq<Reply>>, times: seq<real>,
                       ghost batch: seq<Event>, ghost later: multiset<Key>, ghost d0: multiset<Key>, ghost n0: nat)
      returns (flushed: nat, ghost acked: set<string>)
      requires sender.breaker.Valid() && Grouped(gs, batch)
      requires Progress(batch, {}, later, d0, n0) && Chosen(batch, {}) == [] && delivered == acknowledged
      requires Covers(Facing(replies, times), |gs|)
      modifies this`rows, this`acknowledged, this`delivered, sender.breaker
      ensures sender.breaker.Valid() && Progress(batch, acked, later, d0, n0) && delivered == acknowledged
      ensures flushed == |Chosen(batch, acked)| && NothingNew(rows, old(rows))
      ensures AckedBy(gs, |gs|, old(Facing(replies, times)), acked)
      ensures sender.breaker.View() == CircuitAfter(old(Facing(replies, times)), |gs|)
    {
      hide Keys, OfTenant, Chosen, Others, Posts, SettledWell, Events, Admits, RunCircuit, Progress, AckedBy, SendAcked,
           CircuitBreaker.Valid, AfterSend;
      flushed, acked := 0, {};
      ghost var net := Facing(replies, times);
      var g := 0;
      NobodyAcked(gs, net);
      while g < |gs|
        invariant 0 <= g <= |gs|
        invariant sender.breaker.Valid() && Progress(batch, acked, later, d0, n0) && delivered == acknowledged
        invariant flushed == |Chosen(batch, acked)| && NothingNew(rows, old(rows))
        invariant AckedBy(gs, g, net, acked)
        invariant sender.breaker.View() == CircuitAfter(net, g)
      {
        var group := gs[g];
        AckedBySnoc(gs, g, net, acked);
        ChosenSize(batch, acked, group.tenant);
        var ok := FlushGroup(group, replies[g], times[g], batch, acked, later, d0, n0);
        SendAckedMeans(net, g);
        if ok {
          flushed := flushed + |group.events|;
          acked := acked + {group.tenant};
        }
        g := g + 1;
      }
    }
  }

  // ----- what the network does -----

  /** The breaker before a flush, and what each of its sends would meet. */
  datatype Network = Network(
    cfg: CircuitConfig, start: Circuit, replies: seq<seq<Reply>>, times: seq<real>, allowance: nat)

  /** There are replies enough for `n` sends. */
  ghost predicate Enough(replies: seq<seq<Reply>>, times: seq<real>, allowance: nat, n: nat) {
    && n <= |replies| && n <= |times|
    && forall i :: 0 <= i < |replies| ==> |replies[i]| >= allowance
  }

  ghost predicate Covers(net: Network, n: nat) { Enough(net.replies, net.times, net.allowance, n) }

  lemma CoversFewer(net: Network, n: nat, m: nat)
    requires Covers(net, n) && m <= n
    ensures Covers(net, m)
  {
  }

  /** The breaker after the first `n` sends. */
  ghost function CircuitAfter(net: Network, n: nat): Circuit
    requires Covers(net, n)
  {
    if n == 0 then net.start
    else AfterSend(net.cfg, CircuitAfter(net, n - 1), net.replies[n - 1], net.times[n - 1], net.allowance)
  }

  /** Send `k` is let out and acknowledged, at once or on a retry. */
  ghost predicate SendAcked(net: Network, k: nat)
    requires Covers(net, k + 1)
  {
    Admits(net.cfg, CircuitAfter(net, k), net.times[k]) && SettledWell(net.replies[k], net.allowance)
  }

  lemma SendAckedMeans(net: Network, k: nat)
    requires Covers(net, k + 1)
    ensures SendAcked(net, k) <==>
            Admits(net.cfg, CircuitAfter(net, k), net.times[k]) && SettledWell(net.replies[k], net.allowance)
  {
  }

  /** Of the first `n` groups, `acked` holds exactly the tenants of those whose send is acknowledged. */
  ghost predicate AckedBy(groups: seq<Group>, n: nat, net: Network, acked: set<string>)
    requires n <= |groups| && Covers(net, n)
  {
    && (forall k :: 0 <= k < n ==> (groups[k].tenant in acked <==> SendAcked(net, k)))
    && (forall t :: t in acked ==> HasTenant(groups[..n], t))
  }

  lemma NobodyAcked(groups: seq<Group>, net: Network)
    requires Covers(net, 0)
    ensures AckedBy(groups, 0, net, {})
  {
  }

  lemma AckedBySnoc(groups: seq<Group>, n: nat, net: Network, acked: set<string>)
    requires n < |groups| && Covers(net, n + 1)
    requires AckedBy(groups, n, net, acked)
    requires forall i, j :: 0 <= i < j < |groups| ==> groups[i].tenant != groups[j].tenant
    ensures groups[n].tenant !in acked
    ensures AckedBy(groups, n + 1, net, if SendAcked(net, n) then acked + {groups[n].tenant} else acked)
  {
    hide SendAcked;
    assert groups[..n + 1][n] == groups[n];
    forall t | t in acked
      ensures HasTenant(groups[..n + 1], t) && t != groups[n].tenant
    {
      var i :| 0 <= i < n && groups[..n][i].tenant == t;
      assert groups[..n + 1][i] == groups[..n][i];
    }
  }

  /** Every send of the flush was acknowledged. */
  ghost predicate AllAcked(groups: seq<Group>, acked: set<string>) {
    forall k :: 0 <= k < |groups| ==> groups[k].tenant in acked
  }

  // ----- several flushes in a row -----

  /** One flush: what the network was about to do, the groups sent, and the tenants acknowledged. */
  datatype Round = Round(net: Network, groups: seq<Group>, acked: set<string>)

  /** The breaker after the rounds of `log`. */
  ghost function Reached(log: seq<Round>, start: Circuit): Circuit {
    if log == [] then start
    else
      var last := log[|log| - 1];
      if Covers(last.net, |last.groups|) then CircuitAfter(last.net, |last.groups|) else start
  }

  /** Every round starts from the breaker the one before it left, and its acknowledgements are the network's. */
  ghost predicate Logged(log: seq<Round>, cfg: CircuitConfig, start: Circuit, allowance: nat) {
    forall i {:trigger log[i]} :: 0 <= i < |log| ==>
      && log[i].net.cfg == cfg && log[i].net.allowance == allowance
      && log[i].net.start == Reached(log[..i], start)
      && Covers(log[i].net, |log[i].groups|)
      && AckedBy(log[i].groups, |log[i].groups|, log[i].net, log[i].acked)
  }

  ghost predicate EverySendAcked(log: seq<Round>) {
    forall i :: 0 <= i < |log| ==> AllAcked(log[i].groups, log[i].acked)
  }

  lemma NothingLogged(cfg: CircuitConfig, start: Circuit, allowance: nat, sizes: seq<nat>, batchSize: int)
    requires |sizes| == 1
    ensures Logged([], cfg, start, allowance) && (batchSize >= 1 ==> Draining(sizes, batchSize))
  {
  }

  lemma LogSnoc(log: seq<Round>, cfg: CircuitConfig, start: Circuit, allowance: nat, round: Round,
                sizes: seq<nat>, size: nat, batchSize: int)
    requires Logged(log, cfg, start, allowance) && |sizes| >= 1
    requires round.net.cfg == cfg && round.net.allowance == allowance && round.net.start == Reached(log, start)
    requires Covers(round.net, |round.groups|) && AckedBy(round.groups, |round.groups|, round.net, round.acked)
    ensures Logged(log + [round], cfg, start, allowance)
    ensures Reached(log + [round], start) == CircuitAfter(round.net, |round.groups|)
    ensures EverySendAcked(log + [round]) ==> EverySendAcked(log) && AllAcked(round.groups, round.acked)
    ensures batchSize >= 1 && Draining(sizes, batchSize)
            && size == sizes[|sizes| - 1] - Limit(batchSize, sizes[|sizes| - 1]) ==>
            Draining(sizes + [size], batchSize)
  {
    hide Reached, AckedBy, AllAcked, Covers, CircuitAfter;
    var all := log + [round];
    assert forall i :: 0 <= i < |log| ==> all[i] == log[i];
    assert forall i :: 0 <= i <= |log| ==> all[..i] == log[..i];
    assert log[..|log|] == log;
    assert all[|log|] == round;
    ReachedSnoc(log, start, round);
  }

  lemma ReachedSnoc(log: seq<Round>, start: Circuit, round: Round)
    requires Covers(round.net, |round.groups|)
    ensures Reached(log + [round], start) == CircuitAfter(round.net, |round.groups|)
  {
  }

  // ----- when every send is acknowledged -----

  /** Closed, with no failure on record. */
  predicate AtRest(c: Circuit) { c.state == Closed && c.failures == 0 }

  /** Every send is answered well before its retries could open a breaker at rest. */
  ghost predicate Calm(cfg: CircuitConfig, replies: seq<seq<Reply>>, allowance: nat) {
    forall k :: 0 <= k < |replies| ==>
      && |replies[k]| >= allowance && SettledWell(replies[k], allowance)
      && (Posts(replies[k], allowance) == 1 || Posts(replies[k], allowance) <= cfg.failureThreshold)
  }

  /** Calm replies, and a first send that the breaker lets out and that closes it. */
  ghost predicate Smooth(net: Network, n: nat)
    requires Covers(net, n)
  {
    && Calm(net.cfg, net.replies, net.allowance)
    && (n > 0 ==>
          && Admits(net.cfg, net.start, net.times[0])
          && ClosesAfter(net.cfg, StepCircuit(net.cfg, net.start, Asked(net.times[0])),
                         Posts(net.replies[0], net.allowance) - 1))
  }

  lemma SendCloses(cfg: CircuitConfig, c: Circuit, replies: seq<Reply>, now: real, allowance: nat)
    requires |replies| >= allowance && SettledWell(replies, allowance) && Admits(cfg, c, now)
    requires ClosesAfter(cfg, StepCircuit(cfg, c, Asked(now)), Posts(replies, allowance) - 1)
    ensures AtRest(AfterSend(cfg, c, replies, now, allowance))
  {
    AcknowledgedClosesExactly(cfg, c, replies, now, allowance);
    AcknowledgedClears(cfg, c, replies, now, allowance);
  }

  lemma RestIsReady(cfg: CircuitConfig, c: Circuit, posts: nat, now: real)
    requires AtRest(c) && posts > 0 && (posts == 1 || posts <= cfg.failureThreshold)
    ensures Admits(cfg, c, now) && ClosesAfter(cfg, StepCircuit(cfg, c, Asked(now)), posts - 1)
  {
  }

  lemma {:induction false} SmoothSends(net: Network, n: nat)
    requires Covers(net, n) && Smooth(net, n)
    ensures n > 0 ==> AtRest(CircuitAfter(net, n))
    ensures forall k :: 0 <= k < n ==> SendAcked(net, k)
  {
    hide AfterSend, Admits, AtRest, StepCircuit, ClosesAfter, Posts;
    if n > 0 {
      if n > 1 {
        SmoothSends(net, n - 1);
        RestIsReady(net.cfg, CircuitAfter(net, n - 1), Posts(net.replies[n - 1], net.allowance), net.times[n - 1]);
      }
      SendCloses(net.cfg, CircuitAfter(net, n - 1), net.replies[n - 1], net.times[n - 1], net.allowance);
    }
  }

  lemma SmoothMeansAcked(net: Network, groups: seq<Group>, acked: set<string>)
    requires Covers(net, |groups|) && Smooth(net, |groups|) && AckedBy(groups, |groups|, net, acked)
    ensures AllAcked(groups, acked)
  {
    SmoothSends(net, |groups|);
  }

  lemma {:induction false} CalmRounds(log: seq<Round>, cfg: CircuitConfig, start: Circuit, allowance: nat)
    requires Logged(log, cfg, start, allowance) && AtRest(start)
    requires forall i :: 0 <= i < |log| ==> Calm(cfg, log[i].net.replies, allowance)
    ensures EverySendAcked(log) && AtRest(Reached(log, start))
  {
    hide AtRest, Calm, Logged;
    if log != [] {
      var n := |log| - 1;
      LoggedBefore(log, cfg, start, allowance);
      CalmRounds(log[..n], cfg, start, allowance);
      assert forall i :: 0 <= i < n ==> log[..n][i] == log[i];
      CalmRound(log[n]);
    }
  }

  lemma LoggedBefore(log: seq<Round>, cfg: CircuitConfig, start: Circuit, allowance: nat)
    requires Logged(log, cfg, start, allowance) && log != []
    ensures Logged(log[..|log| - 1], cfg, start, allowance)
    ensures var last := log[|log| - 1];
            && last.net.cfg == cfg && last.net.allowance == allowance
            && last.net.start == Reached(log[..|log| - 1], start)
            && Covers(last.net, |last.groups|)
            && AckedBy(last.groups, |last.groups|, last.net, last.acked)
  {
    hide Reached, AckedBy, Enough;
    var init := log[..|log| - 1];
    assert forall i :: 0 <= i < |init| ==> init[i] == log[i];
    assert forall i :: 0 <= i < |init| ==> init[..i] == log[..i];
  }

  lemma CalmRound(round: Round)
    requires Covers(round.net, |round.groups|) && AtRest(round.net.start)
    requires Calm(round.net.cfg, round.net.replies, round.net.allowance)
    requires AckedBy(round.groups, |round.groups|, round.net, round.acked)
    ensures AllAcked(round.groups, round.acked) && AtRest(CircuitAfter(round.net, |round.groups|))
  {
    hide SendAcked, Admits, StepCircuit, ClosesAfter;
    var net, n := round.net, |round.groups|;
    if n > 0 {
      RestIsReady(net.cfg, net.start, Posts(net.replies[0], net.allowance), net.times[0]);
      SmoothSends(net, n);
    }
  }

  lemma CancelAll<T>(a: multiset<T>, d: multiset<T>, b: multiset<T>, c: multiset<T>)
    requires a + d == b + (d + c)
    ensures a == b + c
  {
    assert forall x :: a[x] == (a + d)[x] - d[x];
  }

  lemma EveryTenantAcked(groups: seq<Group>, es: seq<Event>, acked: set<string>)
    requires Grouped(groups, es) && AllAcked(groups, acked)
    ensures Chosen(es, acked) == es
  {
    forall k | 0 <= k < |es|
      ensures es[k].key.tenantId in acked
    {
      assert HasTenant(groups, es[k].key.tenantId);
    }
    AllDone(es, acked);
  }

  lemma {:induction false} ChosenSize(es: seq<Event>, done: set<string>, tenant: string)
    requires tenant !in done
    ensures |Chosen(es, done + {tenant})| == |Chosen(es, done)| + |OfTenant(es, tenant)|
  {
    if es != [] {
      ChosenSize(es[..|es| - 1], done, tenant);
    }
  }

  lemma SplitFirst(batch: seq<Event>, i: nat)
    requires i < |batch|
    ensures Keys(batch[i..]) == multiset{batch[i].key} + Keys(batch[i + 1..])
    ensures Keys(batch[..i + 1]) == Keys(batch[..i]) + multiset{batch[i].key}
  {
    hide Keys;
    NoKeys();
    KeysSnoc(batch[..i], batch[i]);
    assert batch[..i + 1] == batch[..i] + [batch[i]];
    assert batch[i..] == [batch[i]] + batch[i + 1..];
    KeysConcat([batch[i]], batch[i + 1..]);
    assert [batch[i]] == [] + [batch[i]];
    KeysSnoc([], batch[i]);
  }
}
