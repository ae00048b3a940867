/**
  Webhook payloads and their cleaning. `clean_webhook_payload` rebuilds the event list from a
  dict comprehension keyed by the reservation id: inserting into a Python dict keeps the
  position of a key's first insertion and overwrites its value, so each reservation id appears
  once, in the order of its first event, carrying its last event. `EventIndex` is that dict
  (its keys in insertion order, and their values), and `Index` is the comprehension.
 */
module Payload {

  type ReservationId = string

  /** One `{"Name": ..., "Value": {"ReservationId": ...}}` entry of `Events`. */
  datatype Event = Event(name: string, reservationId: ReservationId)

  /** The parsed webhook body `{"HotelId", "IntegrationId", "Events"}`. */
  datatype WebhookPayload = WebhookPayload(hotelId: string, integrationId: string, events: seq<Event>)

  function Ids(events: seq<Event>): seq<ReservationId> {
    seq(|events|, i requires 0 <= i < |events| => events[i].reservationId)
  }

  predicate Distinct(ids: seq<ReservationId>) {
    forall i, j :: 0 <= i < j < |ids| ==> ids[i] != ids[j]
  }

  /** Position of the first event for `id`, or -1 when there is none. */
  function FirstIndex(events: seq<Event>, id: ReservationId): (r: int)
    ensures -1 <= r < |events|
    ensures r == -1 <==> id !in Ids(events)
    ensures r >= 0 ==> events[r].reservationId == id &&
                       forall k :: 0 <= k < r ==> events[k].reservationId != id
  {
    if events == [] then -1
    else
      var n := |events| - 1;
      var f := FirstIndex(events[..n], id);
      assert forall k :: 0 <= k < n ==> Ids(events[..n])[k] == events[k].reservationId;
      assert Ids(events) == Ids(events[..n]) + [events[n].reservationId];
      if f >= 0 then f else if events[n].reservationId == id then n else -1
  }

  /** Position of the last event for `id`, or -1 when there is none. */
  function LastIndex(events: seq<Event>, id: ReservationId): (r: int)
    ensures -1 <= r < |events|
    ensures r == -1 <==> id !in Ids(events)
    ensures r >= 0 ==> events[r].reservationId == id &&
                       forall k :: r < k < |events| ==> events[k].reservationId != id
  {
    if events == [] then -1
    else
      var n := |events| - 1;
      assert forall k :: 0 <= k < n ==> events[..n][k] == events[k];
      assert Ids(events) == Ids(events[..n]) + [events[n].reservationId];
      if events[n].reservationId == id then n else LastIndex(events[..n], id)
  }

  /** An insertion-ordered dict from reservation id to event. */
  datatype EventIndex = EventIndex(order: seq<ReservationId>, latest: map<ReservationId, Event>)

  predicate WellFormed(d: EventIndex) {
    && Distinct(d.order)
    && (forall i :: 0 <= i < |d.order| ==> d.order[i] in d.latest)
    && (forall id :: id in d.latest ==> id in d.order && d.latest[id].reservationId == id)
  }

  /** `d[e.reservationId] = e` on a Python dict. */
  function Insert(d: EventIndex, e: Event): EventIndex {
    var id := e.reservationId;
    EventIndex(if id in d.latest then d.order else d.order + [id], d.latest[id := e])
  }

  /** The dict comprehension over `events`, inserting them in order. */
  function Index(events: seq<Event>): (d: EventIndex)
    ensures WellFormed(d)
    ensures forall id :: id in d.latest <==> id in Ids(events)
  {
    if events == [] then EventIndex([], map[])
    else
      var n := |events| - 1;
      assert Ids(events) == Ids(events[..n]) + [events[n].reservationId];
      Insert(Index(events[..n]), events[n])
  }

  /** `list(dict.values())`: the dict's values, in the order of its keys. */
  function Dedup(events: seq<Event>): (r: seq<Event>)
    ensures Ids(r) == Index(events).order
    ensures forall i :: 0 <= i < |r| ==>
              r[i].reservationId in Index(events).latest && r[i] == Index(events).latest[r[i].reservationId]
  {
    var d := Index(events);
    seq(|d.order|, i requires 0 <= i < |d.order| => d.latest[d.order[i]])
  }

  lemma DropLast(events: seq<Event>)
    requires events != []
    ensures var n := |events| - 1;
            Ids(events) == Ids(events[..n]) + [events[n].reservationId] &&
            forall k :: 0 <= k < n ==> events[..n][k] == events[k]
  {
  }

  /** The dict's value for an id is the last event carrying it. */
  lemma {:induction false} IndexKeepsLast(events: seq<Event>, id: ReservationId)
    requires id in Index(events).latest
    ensures LastIndex(events, id) >= 0
    ensures Index(events).latest[id] == events[LastIndex(events, id)]
  {
    var n := |events| - 1;
    DropLast(events);
    if events[n].reservationId != id {
      IndexKeepsLast(events[..n], id);
    }
  }

  /** The dict's keys are in the order of their first occurrence. */
  lemma {:induction false} IndexFirstOccurrenceOrder(events: seq<Event>, i: nat, j: nat)
    requires i < j < |Index(events).order|
    ensures FirstIndex(events, Index(events).order[i]) < FirstIndex(events, Index(events).order[j])
  {
    var n := |events| - 1;
    DropLast(events);
    var prefix := events[..n];
    var before := Index(prefix).order;
    var a := before[i];
    assert a in Index(prefix).latest;
    assert FirstIndex(events, a) == FirstIndex(prefix, a) < n;
    if j < |before| {
      IndexFirstOccurrenceOrder(prefix, i, j);
      assert before[j] in Index(prefix).latest;
    }
  }

  /** After cleaning, no two events share a reservation id. */
  lemma DedupDistinct(events: seq<Event>)
    ensures Distinct(Ids(Dedup(events)))
  {
  }

  /** Cleaning keeps exactly the reservation ids of the input. */
  lemma DedupSameIds(events: seq<Event>)
    ensures forall id :: id in Ids(Dedup(events)) <==> id in Ids(events)
  {
    var d := Index(events);
    assert Ids(Dedup(events)) == d.order;
  }

  /** Each kept event is the last input event with its reservation id. */
  lemma DedupLastWins(events: seq<Event>)
    ensures var r := Dedup(events);
            forall i :: 0 <= i < |r| ==>
              LastIndex(events, r[i].reservationId) >= 0 &&
              r[i] == events[LastIndex(events, r[i].reservationId)]
  {
    var d := Index(events);
    forall i | 0 <= i < |d.order|
      ensures LastIndex(events, d.order[i]) >= 0 && d.latest[d.order[i]] == events[LastIndex(events, d.order[i])]
    {
      IndexKeepsLast(events, d.order[i]);
    }
  }

  /** Kept events are in the order in which their ids first appear in the input. */
  lemma DedupFirstOccurrenceOrder(events: seq<Event>)
    ensures var r := Dedup(events);
            forall i, j :: 0 <= i < j < |r| ==>
              FirstIndex(events, r[i].reservationId) < FirstIndex(events, r[j].reservationId)
  {
    var d := Index(events);
    var r := Dedup(events);
    forall i, j | 0 <= i < j < |r|
      ensures FirstIndex(events, r[i].reservationId) < FirstIndex(events, r[j].reservationId)
    {
      IndexFirstOccurrenceOrder(events, i, j);
      assert r[i].reservationId == d.order[i] && r[j].reservationId == d.order[j];
    }
  }

  /** A list whose ids are already distinct inserts every id anew, in its own order. */
  lemma {:induction false} IndexOfDistinct(events: seq<Event>)
    requires Distinct(Ids(events))
    ensures Index(events).order == Ids(events)
  {
    if events != [] {
      var n := |events| - 1;
      DropLast(events);
      assert forall i :: 0 <= i < n ==> Ids(events[..n])[i] == Ids(events)[i];
      IndexOfDistinct(events[..n]);
      forall k | 0 <= k < n ensures Ids(events[..n])[k] != events[n].reservationId {
        assert Ids(events)[k] != Ids(events)[n];
      }
    }
  }

  /** Cleaning leaves a list with distinct ids as it is. */
  lemma DedupOfDistinct(events: seq<Event>)
    requires Distinct(Ids(events))
    ensures Dedup(events) == events
  {
    IndexOfDistinct(events);
    var r := Dedup(events);
    forall i | 0 <= i < |events| ensures r[i] == events[i] {
      var id := events[i].reservationId;
      assert Ids(events)[i] == id;
      IndexKeepsLast(events, id);
      var k := LastIndex(events, id);
      assert Ids(events)[k] == id;
    }
  }

  /** Cleaning twice gives the same result as cleaning once. */
  lemma DedupIdempotent(events: seq<Event>)
    ensures Dedup(Dedup(events)) == Dedup(events)
  {
    DedupDistinct(events);
    DedupOfDistinct(Dedup(events));
  }

  /** Any number of events for one reservation collapse to the last of them. */
  lemma {:induction false} DedupOfRepeated(events: seq<Event>)
    requires events != []
    requires forall i :: 0 <= i < |events| ==> events[i].reservationId == events[0].reservationId
    ensures Index(events).order == [events[0].reservationId]
    ensures Dedup(events) == [events[|events| - 1]]
  {
    var n := |events| - 1;
    var id := events[0].reservationId;
    DropLast(events);
    if n > 0 {
      DedupOfRepeated(events[..n]);
    }
    IndexKeepsLast(events, id);
  }

  /** `clean_webhook_payload`, after JSON decoding: the event list is replaced by its cleaned form. */
  function CleanWebhookPayload(p: WebhookPayload): (q: WebhookPayload)
    ensures q.hotelId == p.hotelId && q.integrationId == p.integrationId
    ensures Distinct(Ids(q.events))
    ensures forall id :: id in Ids(q.events) <==> id in Ids(p.events)
    ensures forall i :: 0 <= i < |q.events| ==>
              LastIndex(p.events, q.events[i].reservationId) >= 0 &&
              q.events[i] == p.events[LastIndex(p.events, q.events[i].reservationId)]
    ensures forall i, j :: 0 <= i < j < |q.events| ==>
              FirstIndex(p.events, q.events[i].reservationId) < FirstIndex(p.events, q.events[j].reservationId)
  {
    DedupDistinct(p.events);
    DedupSameIds(p.events);
    DedupLastWins(p.events);
    DedupFirstOccurrenceOrder(p.events);
    p.(events := Dedup(p.events))
  }

  /** Cleaning a cleaned payload changes nothing. */
  lemma CleanIdempotent(p: WebhookPayload)
    ensures CleanWebhookPayload(CleanWebhookPayload(p)) == CleanWebhookPayload(p)
  {
    DedupIdempotent(p.events);
  }
}
