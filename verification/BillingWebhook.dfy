/** Webhook deliveries with replays: what is dispatched, and what the organisations and the event ledger end up as. */
module BillingWebhook {
  import opened Wrappers

  datatype Fields = Fields(id: string, orgId: string, periodEnd: string)

  /** A parsed body: the type, the top-level fields, and the nested `data` object if there is one. */
  datatype Body = Body(eventType: string, top: Fields, data: Option<Fields>)

  /** Where a handler raises: not at all, before it changes anything, or in the audit call after its commit. */
  datatype Fault = NoFault | BeforeChange | AfterChange

  datatype Delivery = Delivery(body: Body, fault: Fault)

  datatype Status = Pending | Active | Cancelled

  datatype Org = Org(status: Status, subscription: Option<string>, paidUntil: string)

  datatype Row = Row(eventType: string, processedOk: bool)

  datatype Response = InvalidEvent | Accepted(replayed: bool) | Failed

  // ----- parsing -----

  predicate WellFormed(d: Delivery) { d.body.eventType != "" }

  /** The id of the nested object where it has one, else the top-level id. */
  function EventId(d: Delivery): string {
    if d.body.data.Some? && d.body.data.value.id != "" then d.body.data.value.id else d.body.top.id
  }

  /** The object the handlers read. */
  function Subject(d: Delivery): Fields { if d.body.data.Some? then d.body.data.value else d.body.top }

  // ----- handlers -----

  /** The organisations after one dispatch, and whether it raised. */
  datatype Effect = Effect(orgs: map<string, Org>, raised: bool)

  function MarkPaid(orgs: map<string, Org>, orgId: string, subscription: string, periodEnd: string): map<string, Org> {
    if orgId !in orgs || (orgs[orgId].status == Active && orgs[orgId].subscription == Some(subscription)) then orgs
    else orgs[orgId := Org(Active, Some(subscription), periodEnd)]
  }

  function MarkCancelled(orgs: map<string, Org>, orgId: string): map<string, Org> {
    if orgId !in orgs then orgs else orgs[orgId := orgs[orgId].(status := Cancelled)]
  }

  /** The audit call comes after the commit, and only where there was something to commit. */
  predicate Audited(orgs: map<string, Org>, d: Delivery) {
    var s := Subject(d);
    && s.orgId in orgs
    && (d.body.eventType == "subscription.created" ==>
          !(orgs[s.orgId].status == Active && orgs[s.orgId].subscription == Some(s.id)))
  }

  function Dispatch(orgs: map<string, Org>, d: Delivery): Effect {
    var s := Subject(d);
    if d.body.eventType != "subscription.created" && d.body.eventType != "subscription.cancelled" then
      Effect(orgs, false)
    else if s.orgId == "" then Effect(orgs, false)
    else if d.fault == BeforeChange then Effect(orgs, true)
    else
      Effect(if d.body.eventType == "subscription.created" then MarkPaid(orgs, s.orgId, s.id, s.periodEnd)
             else MarkCancelled(orgs, s.orgId),
             d.fault == AfterChange && Audited(orgs, d))
  }

  /** Dispatching never adds or removes an organisation, and leaves all but its own alone. */
  lemma DispatchIsLocal(orgs: map<string, Org>, d: Delivery)
    ensures Dispatch(orgs, d).orgs.Keys == orgs.Keys
    ensures forall o :: o in orgs && o != Subject(d).orgId ==> Dispatch(orgs, d).orgs[o] == orgs[o]
  {
  }

  /** What a dispatch does to the organisation it names, and when it raises, written out. */
  lemma DispatchWrittenOut(orgs: map<string, Org>, d: Delivery)
    ensures var s := if d.body.data.Some? then d.body.data.value else d.body.top;
            var created := d.body.eventType == "subscription.created";
            var cancelled := d.body.eventType == "subscription.cancelled";
            var known := s.orgId != "" && s.orgId in orgs;
            var paid := known && orgs[s.orgId].status == Active && orgs[s.orgId].subscription == Some(s.id);
            var e := Dispatch(orgs, d);
            // Created: paid up to the period end under this subscription, unless it already is, or nothing was reached.
            && (created && known && !paid && d.fault != BeforeChange ==>
                  e.orgs == orgs[s.orgId := Org(Active, Some(s.id), s.periodEnd)])
            // Cancelled: the status alone changes.
            && (cancelled && known && d.fault != BeforeChange ==>
                  e.orgs == orgs[s.orgId := Org(Cancelled, orgs[s.orgId].subscription, orgs[s.orgId].paidUntil)])
            && (!(created || cancelled) || !known || (created && paid) || d.fault == BeforeChange ==> e.orgs == orgs)
            // It raises when the handler fails, and in the audit call if something was committed before it.
            && (e.raised <==>
                  && (created || cancelled) && s.orgId != ""
                  && (d.fault == BeforeChange || (d.fault == AfterChange && known && !(created && paid))))
  {
    var s := Subject(d);
    if s.orgId in orgs && orgs[s.orgId].status == Active && orgs[s.orgId].subscription == Some(s.id) {
      assert MarkPaid(orgs, s.orgId, s.id, s.periodEnd) == orgs;
    }
  }

  /** The event id: that of the nested object where it is given, else the top-level one. */
  lemma EventIdWrittenOut(d: Delivery)
    ensures d.body.data.Some? && d.body.data.value.id != "" ==> EventId(d) == d.body.data.value.id
    ensures d.body.data.None? || d.body.data.value.id == "" ==> EventId(d) == d.body.top.id
  {
  }

  // ----- first occurrences -----

  /** The event ids that well-formed deliveries of `ds` carry. */
  ghost function Ids(ds: seq<Delivery>): set<string> {
    if ds == [] then {}
    else Ids(ds[..|ds| - 1]) + if WellFormed(ds[|ds| - 1]) then {EventId(ds[|ds| - 1])} else {}
  }

  /** The deliveries whose id has not come before. */
  ghost function Firsts(ds: seq<Delivery>): seq<Delivery> {
    if ds == [] then []
    else
      var before, d := Firsts(ds[..|ds| - 1]), ds[|ds| - 1];
      if WellFormed(d) && EventId(d) !in Ids(ds[..|ds| - 1]) then before + [d] else before
  }

  /** The organisations after dispatching each of `ds`, in order. */
  ghost function OrgsAfter(start: map<string, Org>, ds: seq<Delivery>): map<string, Org> {
    if ds == [] then start else Dispatch(OrgsAfter(start, ds[..|ds| - 1]), ds[|ds| - 1]).orgs
  }

  /** The ledger after dispatching each of `ds`: a row per event, marked by whether its dispatch raised. */
  ghost function RowsAfter(start: map<string, Org>, ds: seq<Delivery>): map<string, Row> {
    if ds == [] then map[]
    else
      var init, d := ds[..|ds| - 1], ds[|ds| - 1];
      RowsAfter(start, init)[EventId(d) := Row(d.body.eventType, !Dispatch(OrgsAfter(start, init), d).raised)]
  }

  lemma FirstsSnoc(ds: seq<Delivery>, d: Delivery)
    ensures Ids(ds + [d]) == Ids(ds) + if WellFormed(d) then {EventId(d)} else {}
    ensures Firsts(ds + [d]) == if WellFormed(d) && EventId(d) !in Ids(ds) then Firsts(ds) + [d] else Firsts(ds)
  {
    assert (ds + [d])[..|ds|] == ds;
  }

  lemma AfterSnoc(start: map<string, Org>, ds: seq<Delivery>, d: Delivery)
    ensures OrgsAfter(start, ds + [d]) == Dispatch(OrgsAfter(start, ds), d).orgs
    ensures RowsAfter(start, ds + [d]) ==
            RowsAfter(start, ds)[EventId(d) := Row(d.body.eventType, !Dispatch(OrgsAfter(start, ds), d).raised)]
  {
    assert (ds + [d])[..|ds|] == ds;
  }

  /** The ledger knows exactly the ids that have been delivered. */
  lemma {:induction false} LedgerKnowsIds(start: map<string, Org>, ds: seq<Delivery>)
    ensures RowsAfter(start, Firsts(ds)).Keys == Ids(ds)
  {
    if ds != [] {
      var init, d := ds[..|ds| - 1], ds[|ds| - 1];
      LedgerKnowsIds(start, init);
      if WellFormed(d) && EventId(d) !in Ids(init) {
        AfterSnoc(start, Firsts(init), d);
      }
    }
  }

  /** No id is dispatched twice. */
  lemma {:induction false} DispatchedAtMostOnce(ds: seq<Delivery>)
    ensures forall i, j :: 0 <= i < j < |Firsts(ds)| ==> EventId(Firsts(ds)[i]) != EventId(Firsts(ds)[j])
    ensures forall i :: 0 <= i < |Firsts(ds)| ==> EventId(Firsts(ds)[i]) in Ids(ds) && Firsts(ds)[i] in ds
  {
    if ds != [] {
      DispatchedAtMostOnce(ds[..|ds| - 1]);
    }
  }

  /** Replays, in any number and order, leave what is dispatched as it was. */
  lemma {:induction false} ReplaysChangeNothing(ds: seq<Delivery>, replays: seq<Delivery>)
    requires forall i :: 0 <= i < |replays| && WellFormed(replays[i]) ==> EventId(replays[i]) in Ids(ds)
    ensures Firsts(ds + replays) == Firsts(ds) && Ids(ds + replays) == Ids(ds)
  {
    if replays == [] {
      assert ds + replays == ds;
    } else {
      var init, d := replays[..|replays| - 1], replays[|replays| - 1];
      ReplaysChangeNothing(ds, init);
      assert ds + replays == (ds + init) + [d];
      FirstsSnoc(ds + init, d);
    }
  }

  /**
   * The event id of a subscription event is the id of the subscription, so after a subscription's first event no later
   * event about it is dispatched, its cancellation included.
   */
  lemma CancellationIsTakenForAReplay(ds: seq<Delivery>, created: Delivery, cancelled: Delivery)
    requires WellFormed(created) && created in ds
    requires created.body.data.Some? && cancelled.body.data.Some?
    requires created.body.data.value.id == cancelled.body.data.value.id != ""
    ensures Firsts(ds + [cancelled]) == Firsts(ds)
  {
    IdsExactly(ds, EventId(created));
    FirstsSnoc(ds, cancelled);
  }

  /** A delivery is dispatched exactly when it is well formed and no well-formed one before it carries its id. */
  lemma {:induction false} DispatchedExactly(ds: seq<Delivery>, d: Delivery)
    ensures Firsts(ds + [d]) == Firsts(ds) + [d] <==>
            WellFormed(d) && forall i :: 0 <= i < |ds| && WellFormed(ds[i]) ==> EventId(ds[i]) != EventId(d)
    ensures Firsts(ds + [d]) == Firsts(ds) || Firsts(ds + [d]) == Firsts(ds) + [d]
  {
    FirstsSnoc(ds, d);
    IdsExactly(ds, EventId(d));
  }

  lemma {:induction false} IdsExactly(ds: seq<Delivery>, id: string)
    ensures id in Ids(ds) <==> exists i :: 0 <= i < |ds| && WellFormed(ds[i]) && EventId(ds[i]) == id
  {
    if ds != [] {
      var init := ds[..|ds| - 1];
      IdsExactly(init, id);
      assert forall i :: 0 <= i < |init| ==> init[i] == ds[i];
    }
  }

  // ----- the endpoint -----

  class WebhookEndpoint {
    var events: map<string, Row>
    var orgs: map<string, Org>

    ghost const orgsAtStart: map<string, Org>
    ghost var deliveries: seq<Delivery>

    /** Ledger and organisations are what the first occurrences alone would have made them. */
    ghost predicate Valid()
      reads this
    {
      && events == RowsAfter(orgsAtStart, Firsts(deliveries))
      && orgs == OrgsAfter(orgsAtStart, Firsts(deliveries))
    }

    constructor (orgs: map<string, Org>)
      ensures Valid() && deliveries == [] && orgsAtStart == orgs && this.orgs == orgs && events == map[]
    {
      this.orgs, events := orgs, map[];
      orgsAtStart, deliveries := orgs, [];
    }

    /** One delivery with a good signature. */
    method WebhookOrg(d: Delivery) returns (r: Response)
      requires Valid()
      modifies this
      ensures Valid() && deliveries == old(deliveries) + [d]
      ensures !WellFormed(d) ==> r == InvalidEvent
      ensures WellFormed(d) && EventId(d) in Ids(old(deliveries)) ==>
              r == Accepted(true) && orgs == old(orgs) && events == old(events)
      ensures WellFormed(d) && EventId(d) !in Ids(old(deliveries)) ==>
              && EventId(d) in events
              && orgs == Dispatch(old(orgs), d).orgs
              && r == (if Dispatch(old(orgs), d).raised then Failed else Accepted(false))
              && (events[EventId(d)].processedOk <==> !Dispatch(old(orgs), d).raised)
    {
      hide Ids, Firsts, OrgsAfter, RowsAfter, Dispatch;
      FirstsSnoc(deliveries, d);
      LedgerKnowsIds(orgsAtStart, deliveries);
      AfterSnoc(orgsAtStart, Firsts(deliveries), d);
      deliveries := deliveries + [d];
      if d.body.eventType == "" {
        return InvalidEvent;
      }
      var eventId := EventId(d);
      if eventId in events {
        return Accepted(true);
      }
      events := events[eventId := Row(d.body.eventType, true)];
      var raised := DispatchEvent(d);
      if raised {
        events := events[eventId := Row(d.body.eventType, false)];
        return Failed;
      }
      return Accepted(false);
    }

    method DispatchEvent(d: Delivery) returns (raised: bool)
      modifies this`orgs
      ensures orgs == Dispatch(old(orgs), d).orgs && raised == Dispatch(old(orgs), d).raised
    {
      var s := Subject(d);
      if d.body.eventType == "subscription.created" {
        if s.orgId == "" {
          return false;
        }
        if d.fault == BeforeChange {
          return true;
        }
        if s.orgId !in orgs {
          return false;
        }
        raised := d.fault == AfterChange && Audited(orgs, d);
        orgs := MarkPaid(orgs, s.orgId, s.id, s.periodEnd);
      } else if d.body.eventType == "subscription.cancelled" {
        if s.orgId == "" {
          return false;
        }
        if d.fault == BeforeChange {
          return true;
        }
        raised := d.fault == AfterChange && Audited(orgs, d);
        orgs := MarkCancelled(orgs, s.orgId);
      } else {
        return false;
      }
    }
  }

  // ----- outcomes over a whole history -----

  /** A row is marked failed iff the one dispatch of its event raised. */
  lemma {:induction false} FailedRowsAreRaisedDispatches(start: map<string, Org>, ds: seq<Delivery>, i: nat)
    requires i < |Firsts(ds)|
    ensures var id := EventId(Firsts(ds)[i]);
            && id in RowsAfter(start, Firsts(ds))
            && (RowsAfter(start, Firsts(ds))[id].processedOk <==>
                !Dispatch(OrgsAfter(start, Firsts(ds)[..i]), Firsts(ds)[i]).raised)
  {
    DispatchedAtMostOnce(ds);
    RowOfDistinct(start, Firsts(ds), i);
  }

  lemma {:induction false} RowOfDistinct(start: map<string, Org>, fs: seq<Delivery>, i: nat)
    requires i < |fs|
    requires forall a, b :: 0 <= a < b < |fs| ==> EventId(fs[a]) != EventId(fs[b])
    ensures EventId(fs[i]) in RowsAfter(start, fs)
    ensures RowsAfter(start, fs)[EventId(fs[i])] ==
            Row(fs[i].body.eventType, !Dispatch(OrgsAfter(start, fs[..i]), fs[i]).raised)
  {
    hide Dispatch, OrgsAfter, RowsAfter;
    var n := |fs| - 1;
    assert fs == fs[..n] + [fs[n]];
    AfterSnoc(start, fs[..n], fs[n]);
    if i < n {
      RowOfDistinct(start, fs[..n], i);
      assert fs[..n][..i] == fs[..i];
    }
  }
}
