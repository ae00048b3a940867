/**
  The Mews adapter's state-changing operations on the record store: the body of the event loop
  (with its field-by-field diff before each save), `handle_webhook`, and the batch driver of
  `update_tomorrows_stays`. Each is proved against the functions of `Reconcile`.
 */
module Mews {
  import opened Wrappers
  import opened Records
  import opened Reconcile
  import Lookup
  import Payload

  /** A reservation from `get_reservations_between_dates`. */
  datatype ReservationSummary = ReservationSummary(hotelId: HotelId, reservationId: ReservationId)

  /** The event name `update_tomorrows_stays` gives its synthesized events. */
  const AUTO_EVENT_NAME: string := " "
  const AUTO_INTEGRATION_ID: string := "Auto Update"

  function SummaryIds(reservations: seq<ReservationSummary>): seq<ReservationId> {
    seq(|reservations|, i requires 0 <= i < |reservations| => reservations[i].reservationId)
  }

  /**
    Guest resolution and save: an invalid phone links nobody; otherwise the guest under that
    phone is updated field by field where it differs, or created. A missing default language
    raises before anything is saved.
   */
  method ResolveGuest(store: RecordStore, details: GuestDetails, countryLanguage: map<string, string>)
    returns (r: Result<Option<Phone>, Error>)
    modifies store
    ensures store.hotels == old(store.hotels) && store.stays == old(store.stays)
    ensures var linked := LinkGuest(old(store.guests), details, countryLanguage);
            match linked
            case Failure(e) => r == Failure(e) && store.guests == old(store.guests)
            case Success(l) => r == Success(l.guest) && store.guests == l.guests
  {
    var name := NameOrEmpty(details.name);
    if !ValidPhone(details.phone) {
      return Success(None);
    }
    var phone := details.phone.value;
    if phone in store.guests {
      var g := store.guests[phone];
      if g.name != name {
        g := g.(name := name);
      }
      var language := Lookup.GetLanguage(countryLanguage, details.country);
      if language.None? {
        return Failure(NoDefaultLanguage);
      }
      if g.language != language.value {
        g := g.(language := language.value);
      }
      store.guests := store.guests[phone := g];
    } else {
      var language := Lookup.GetLanguage(countryLanguage, details.country);
      if language.None? {
        return Failure(NoDefaultLanguage);
      }
      store.guests := store.guests[phone := Guest(name, language.value)];
    }
    return Success(Some(phone));
  }

  /**
    Stay resolution and save: an existing stay is rewritten field by field where it differs
    (its status compared with the raw vendor status), a missing one is created; an unmapped
    status raises before the save.
   */
  method ResolveStay(store: RecordStore, guest: Option<Phone>, details: ReservationDetails,
                     statusMap: map<string, string>)
    returns (error: Option<Error>)
    modifies store
    ensures store.hotels == old(store.hotels) && store.guests == old(store.guests)
    ensures var key := KeyOf(details);
            match StayAfter(Existing(old(store.stays), key), guest, details, statusMap)
            case Failure(e) => error == Some(e) && store.stays == old(store.stays)
            case Success(s) => error == None && store.stays == old(store.stays)[key := s]
  {
    var key := KeyOf(details);
    if key in store.stays {
      var s := store.stays[key];
      if s.guest != guest {
        s := s.(guest := guest);
      }
      if s.pmsGuestId != details.guestId {
        s := s.(pmsGuestId := details.guestId);
      }
      if s.status != details.status {
        if details.status !in statusMap {
          return Some(UnmappedStatus(details.status));
        }
        s := s.(status := statusMap[details.status]);
      }
      if s.checkin != details.checkIn {
        s := s.(checkin := details.checkIn);
      }
      if s.checkout != details.checkOut {
        s := s.(checkout := details.checkOut);
      }
      store.stays := store.stays[key := s];
    } else {
      if details.status !in statusMap {
        return Some(UnmappedStatus(details.status));
      }
      store.stays := store.stays[key := Stay(guest, details.guestId, statusMap[details.status],
                                             details.checkIn, details.checkOut)];
    }
    return None;
  }

  /** One iteration of the loop in `handle_webhook`, for the event's reservation id. */
  method ProcessEvent(store: RecordStore, gw: Gateway, t: Tables, reservationId: ReservationId)
    returns (error: Option<Error>)
    modifies store
    ensures Outcome(store.Snapshot(), error) == Step(old(store.Snapshot()), gw, t, reservationId)
  {
    if reservationId !in gw.reservations {
      return Some(ReservationUnavailable(reservationId));
    }
    var details := gw.reservations[reservationId];
    if details.hotelId !in store.hotels {
      return Some(HotelNotFound(details.hotelId));
    }
    if details.guestId !in gw.guests {
      return Some(GuestUnavailable(details.guestId));
    }
    var guest := ResolveGuest(store, gw.guests[details.guestId], t.countryLanguage);
    if guest.Failure? {
      return Some(guest.error);
    }
    error := ResolveStay(store, guest.value, details, t.reservationStatus);
  }

  /**
    `handle_webhook`: the events in order; the first error escapes (as `Failure`) and leaves
    the writes of the events before it, and of its own guest resolution, in place. When no
    error escapes the result is always `true`.
   */
  method HandleWebhook(store: RecordStore, gw: Gateway, t: Tables, payload: Payload.WebhookPayload)
    returns (r: Result<bool, Error>)
    modifies store
    ensures var o := Run(old(store.Snapshot()), gw, t, Payload.Ids(payload.events));
            && store.Snapshot() == o.db
            && r == (if o.error.None? then Success(true) else Failure(o.error.value))
    ensures old(store.Valid()) ==> store.Valid()
  {
    ghost var db0 := store.Snapshot();
    var ids := Payload.Ids(payload.events);
    var i := 0;
    while i < |payload.events|
      invariant 0 <= i <= |ids|
      invariant Run(db0, gw, t, ids[..i]) == Outcome(store.Snapshot(), None)
    {
      var error := ProcessEvent(store, gw, t, payload.events[i].reservationId);
      RunAppend(db0, gw, t, ids[..i], [ids[i]]);
      assert ids[..i] + [ids[i]] == ids[..i + 1];
      if error.Some? {
        RunAppend(db0, gw, t, ids[..i + 1], ids[i + 1..]);
        assert ids[..i + 1] + ids[i + 1..] == ids;
        if Consistent(db0) {
          RunPreservesConsistent(db0, gw, t, ids);
        }
        return Failure(error.value);
      }
      i := i + 1;
    }
    assert ids[..i] == ids;
    if Consistent(db0) {
      RunPreservesConsistent(db0, gw, t, ids);
    }
    return Success(true);
  }

  /**
    The loop of `update_tomorrows_stays` over the reservations the gateway returned for
    tomorrow: each becomes a one-event payload handed to `HandleWebhook`, whose result is
    ignored; an error escapes and stops the loop. Otherwise the result is `true`.
   */
  method UpdateTomorrowsStays(store: RecordStore, gw: Gateway, t: Tables, reservations: seq<ReservationSummary>)
    returns (r: Result<bool, Error>)
    modifies store
    ensures var o := Run(old(store.Snapshot()), gw, t, SummaryIds(reservations));
            && store.Snapshot() == o.db
            && r == (if o.error.None? then Success(true) else Failure(o.error.value))
    ensures old(store.Valid()) ==> store.Valid()
  {
    ghost var db0 := store.Snapshot();
    ghost var ids := SummaryIds(reservations);
    for i := 0 to |reservations|
      invariant Run(db0, gw, t, ids[..i]) == Outcome(store.Snapshot(), None)
    {
      var res := reservations[i];
      var payload := Payload.WebhookPayload(res.hotelId, AUTO_INTEGRATION_ID,
                                            [Payload.Event(AUTO_EVENT_NAME, res.reservationId)]);
      assert Payload.Ids(payload.events) == [ids[i]];
      var handled := HandleWebhook(store, gw, t, payload);
      RunAppend(db0, gw, t, ids[..i], [ids[i]]);
      assert ids[..i] + [ids[i]] == ids[..i + 1];
      if handled.Failure? {
        RunAppend(db0, gw, t, ids[..i + 1], ids[i + 1..]);
        assert ids[..i + 1] + ids[i + 1..] == ids;
        if Consistent(db0) {
          RunPreservesConsistent(db0, gw, t, ids);
        }
        return Failure(handled.error);
      }
    }
    assert ids[..|reservations|] == ids;
    if Consistent(db0) {
      RunPreservesConsistent(db0, gw, t, ids);
    }
    return Success(true);
  }
}
