/**
  What one webhook event does to the record store, and what a batch of events does, as
  functions. The gateway calls are given maps (a missing key is a failed call) and the two
  lookup tables are given maps. A raised exception is an `error`; the store it leaves behind
  keeps every write saved before the raise.
 */
module Reconcile {
  import opened Wrappers
  import opened Records
  import Lookup

  /** `get_reservation_details(id)`, parsed. */
  datatype ReservationDetails = ReservationDetails(
    hotelId: HotelId, reservationId: ReservationId, guestId: GuestId,
    status: string, checkIn: string, checkOut: string)

  /** `get_guest_details(id)`, parsed; JSON null is `None`. */
  datatype GuestDetails = GuestDetails(name: Option<string>, phone: Option<string>, country: Option<string>)

  /** The external PMS gateway: the answers it would give, by id. */
  datatype Gateway = Gateway(
    reservations: map<ReservationId, ReservationDetails>,
    guests: map<GuestId, GuestDetails>)

  /** `country_language_map` and `reservation_status_map`. */
  datatype Tables = Tables(countryLanguage: map<string, string>, reservationStatus: map<string, string>)

  /** The exceptions that can escape from processing one event. */
  datatype Error =
    | ReservationUnavailable(reservationId: ReservationId)  // get_reservation_details failed
    | HotelNotFound(hotelId: HotelId)                       // get_object_or_404 raised
    | GuestUnavailable(guestId: GuestId)                    // get_guest_details failed
    | NoDefaultLanguage                                     // country_language_map["GB"] raised
    | UnmappedStatus(status: string)                        // reservation_status_map[...] raised

  datatype Outcome = Outcome(db: Db, error: Option<Error>)

  /** The guest table after guest resolution, and the guest the stay will link. */
  datatype Linked = Linked(guests: map<Phone, Guest>, guest: Option<Phone>)

  /** A missing (null) name becomes the empty string. */
  function NameOrEmpty(name: Option<string>): (r: string)
    ensures name.Some? ==> r == name.value
    ensures name.None? ==> r == ""
  {
    if name.None? then "" else name.value
  }

  /**
    Guest resolution: an invalid phone leaves the guests alone and links nobody; a valid one
    creates or updates the guest stored under that phone, and only that guest.
   */
  function LinkGuest(guests: map<Phone, Guest>, details: GuestDetails, countryLanguage: map<string, string>)
    : (r: Result<Linked, Error>)
    ensures !ValidPhone(details.phone) ==> r == Success(Linked(guests, None))
    ensures ValidPhone(details.phone) ==>
              (r.Failure? <==> Lookup.GetLanguage(countryLanguage, details.country).None?)
    ensures r.Failure? ==> r.error == NoDefaultLanguage
    ensures ValidPhone(details.phone) && r.Success? ==>
              var p := details.phone.value;
              && r.value.guest == Some(p)
              && p in r.value.guests
              && r.value.guests[p] == Guest(NameOrEmpty(details.name),
                                            Lookup.GetLanguage(countryLanguage, details.country).value)
              && (forall q :: q in r.value.guests <==> q in guests || q == p)
              && (forall q :: q in guests && q != p ==> r.value.guests[q] == guests[q])
  {
    if !ValidPhone(details.phone) then Success(Linked(guests, None))
    else
      match Lookup.GetLanguage(countryLanguage, details.country)
      case None => Failure(NoDefaultLanguage)
      case Some(language) =>
        var p := details.phone.value;
        Success(Linked(guests[p := Guest(NameOrEmpty(details.name), language)], Some(p)))
  }

  /**
    Stay resolution. A new stay takes the mapped status. An existing stay is compared with the
    RAW vendor status: when they differ it takes the mapped status, when they are equal it keeps
    what it had, without any lookup. A lookup of an unmapped status raises.
   */
  function StayAfter(existing: Option<Stay>, guest: Option<Phone>, d: ReservationDetails,
                     statusMap: map<string, string>): (r: Result<Stay, Error>)
    ensures r.Failure? <==> d.status !in statusMap && (existing.None? || existing.value.status != d.status)
    ensures r.Failure? ==> r.error == UnmappedStatus(d.status)
    ensures r.Success? ==>
              && r.value.guest == guest
              && r.value.pmsGuestId == d.guestId
              && r.value.checkin == d.checkIn
              && r.value.checkout == d.checkOut
    ensures r.Success? && existing.None? ==> d.status in statusMap && r.value.status == statusMap[d.status]
    ensures existing.Some? && existing.value.status == d.status ==>
              r.Success? && r.value.status == existing.value.status
    ensures existing.Some? && existing.value.status != d.status && d.status in statusMap ==>
              r.Success? && r.value.status == statusMap[d.status]
  {
    var status :=
      if existing.Some? && existing.value.status == d.status then Success(existing.value.status)
      else if d.status in statusMap then Success(statusMap[d.status])
      else Failure(UnmappedStatus(d.status));
    match status
    case Failure(e) => Failure(e)
    case Success(s) => Success(Stay(guest, d.guestId, s, d.checkIn, d.checkOut))
  }

  /**
    The stored status is compared with the RAW vendor status. Under the table {A: B, B: C}, a
    stay stored as "B" that receives raw "B" keeps "B", although the canonical status of "B" is
    "C"; and a stored status equal to an unmapped raw status is kept without failing.
   */
  lemma StatusComparedWithRaw()
    ensures var statusMap := map["A" := "B", "B" := "C"];
            var stored := Stay(None, "G1", "B", "2024-05-01", "2024-05-03");
            var d := ReservationDetails("H1", "R1", "G1", "B", "2024-05-01", "2024-05-03");
            && StayAfter(Some(stored), None, d, statusMap) == Success(stored)
            && statusMap[d.status] == "C"
    ensures var stored := Stay(None, "G1", "Walk-in", "2024-05-01", "2024-05-03");
            var d := ReservationDetails("H1", "R1", "G1", "Walk-in", "2024-05-01", "2024-05-03");
            && "Walk-in" !in map["A" := "B"]
            && StayAfter(Some(stored), None, d, map["A" := "B"]) == Success(stored)
  {
  }

  function KeyOf(d: ReservationDetails): StayKey {
    StayKey(d.hotelId, d.reservationId)
  }

  function Existing(stays: map<StayKey, Stay>, key: StayKey): Option<Stay> {
    if key in stays then Some(stays[key]) else None
  }

  /**
    One pass of the loop in `handle_webhook` for the event's reservation id: fetch the details,
    find the hotel, fetch the guest, resolve (and save) the guest, then resolve and save the stay.
   */
  function Step(db: Db, gw: Gateway, t: Tables, id: ReservationId): (o: Outcome)
    ensures o.db.hotels == db.hotels
    ensures db.guests.Keys <= o.db.guests.Keys && db.stays.Keys <= o.db.stays.Keys
    ensures o.error.Some? ==> o.db.stays == db.stays
    ensures o.error.Some? && !o.error.value.UnmappedStatus? ==> o.db == db
    ensures o.error.None? ==>
              && id in gw.reservations
              && gw.reservations[id].hotelId in db.hotels
              && gw.reservations[id].guestId in gw.guests
              && var key := KeyOf(gw.reservations[id]);
                 key in o.db.stays && o.db.stays == db.stays[key := o.db.stays[key]]
  {
    if id !in gw.reservations then Outcome(db, Some(ReservationUnavailable(id)))
    else
      var d := gw.reservations[id];
      if d.hotelId !in db.hotels then Outcome(db, Some(HotelNotFound(d.hotelId)))
      else if d.guestId !in gw.guests then Outcome(db, Some(GuestUnavailable(d.guestId)))
      else
        match LinkGuest(db.guests, gw.guests[d.guestId], t.countryLanguage)
        case Failure(e) => Outcome(db, Some(e))
        case Success(linked) =>
          var saved := db.(guests := linked.guests);
          var key := KeyOf(d);
          match StayAfter(Existing(db.stays, key), linked.guest, d, t.reservationStatus)
          case Failure(e) => Outcome(saved, Some(e))
          case Success(stay) => Outcome(saved.(stays := db.stays[key := stay]), None)
  }

  /** The event loop: events in order, the first error stops the batch. */
  function Run(db: Db, gw: Gateway, t: Tables, ids: seq<ReservationId>): (o: Outcome)
    ensures o.db.hotels == db.hotels
    ensures db.stays.Keys <= o.db.stays.Keys && db.guests.Keys <= o.db.guests.Keys
    decreases |ids|
  {
    if ids == [] then Outcome(db, None)
    else
      var first := Step(db, gw, t, ids[0]);
      if first.error.Some? then first else Run(first.db, gw, t, ids[1..])
  }

  /** The guest details the event's reservation points at (when the gateway has both). */
  function GuestOf(gw: Gateway, id: ReservationId): GuestDetails
    requires id in gw.reservations && gw.reservations[id].guestId in gw.guests
  {
    gw.guests[gw.reservations[id].guestId]
  }

  /** An invalid phone never touches the guests, and the stay links no guest. */
  lemma StepSkipsInvalidPhone(db: Db, gw: Gateway, t: Tables, id: ReservationId)
    requires id in gw.reservations && gw.reservations[id].guestId in gw.guests
    requires !ValidPhone(GuestOf(gw, id).phone)
    ensures Step(db, gw, t, id).db.guests == db.guests
    ensures Step(db, gw, t, id).error.None? ==>
              Step(db, gw, t, id).db.stays[KeyOf(gw.reservations[id])].guest == None
  {
  }

  /**
    A valid phone leaves exactly the guest under that phone with the incoming name (or '') and
    the language of the incoming country, every other guest as it was, and the stay linked to it.
    Without a language (no country match and no "GB" entry) the event fails and nothing changes.
   */
  lemma StepUpsertsGuest(db: Db, gw: Gateway, t: Tables, id: ReservationId)
    requires id in gw.reservations && gw.reservations[id].hotelId in db.hotels
    requires gw.reservations[id].guestId in gw.guests
    requires ValidPhone(GuestOf(gw, id).phone)
    ensures var g := GuestOf(gw, id);
            var o := Step(db, gw, t, id);
            var language := Lookup.GetLanguage(t.countryLanguage, g.country);
            if language.None? then o == Outcome(db, Some(NoDefaultLanguage))
            else
              && g.phone.value in o.db.guests
              && o.db.guests[g.phone.value] == Guest(NameOrEmpty(g.name), language.value)
              && (forall q :: q in o.db.guests <==> q in db.guests || q == g.phone.value)
              && (forall q :: q in db.guests && q != g.phone.value ==> o.db.guests[q] == db.guests[q])
              && (o.error.None? ==> o.db.stays[KeyOf(gw.reservations[id])].guest == g.phone)
  {
  }

  /**
    After a successful event the stay for (hotel, reservation id) carries the incoming guest,
    vendor guest id, check-in and check-out; a new stay has the mapped status, an existing one the
    mapped status when its old status differs from the raw one, and its old status otherwise.
   */
  lemma StepUpsertsStay(db: Db, gw: Gateway, t: Tables, id: ReservationId)
    requires Step(db, gw, t, id).error.None?
    ensures id in gw.reservations && gw.reservations[id].guestId in gw.guests
    ensures var d := gw.reservations[id];
            var g := GuestOf(gw, id);
            var key := KeyOf(d);
            var s := Step(db, gw, t, id).db.stays[key];
            && s.guest == (if ValidPhone(g.phone) then g.phone else None)
            && s.pmsGuestId == d.guestId && s.checkin == d.checkIn && s.checkout == d.checkOut
            && (key !in db.stays ==> d.status in t.reservationStatus && s.status == t.reservationStatus[d.status])
            && (key in db.stays && db.stays[key].status == d.status ==> s.status == db.stays[key].status)
            && (key in db.stays && db.stays[key].status != d.status ==>
                  d.status in t.reservationStatus && s.status == t.reservationStatus[d.status])
  {
  }

  /**
    Once the guest is resolved, the event fails exactly when the raw status must be looked up
    and is not in the table; the stays are then untouched but the guest write stays saved.
   */
  lemma StepUnmappedStatus(db: Db, gw: Gateway, t: Tables, id: ReservationId)
    requires id in gw.reservations && gw.reservations[id].hotelId in db.hotels
    requires gw.reservations[id].guestId in gw.guests
    requires LinkGuest(db.guests, GuestOf(gw, id), t.countryLanguage).Success?
    ensures var d := gw.reservations[id];
            var o := Step(db, gw, t, id);
            && (o.error.Some? <==>
                  d.status !in t.reservationStatus &&
                  (KeyOf(d) !in db.stays || db.stays[KeyOf(d)].status != d.status))
            && (o.error.Some? ==> o.error.value == UnmappedStatus(d.status) && o.db.stays == db.stays)
            && o.db.guests == LinkGuest(db.guests, GuestOf(gw, id), t.countryLanguage).value.guests
  {
  }

  /** Processing the same event again, with the same gateway answers, changes nothing more. */
  lemma StepIdempotent(db: Db, gw: Gateway, t: Tables, id: ReservationId)
    requires Step(db, gw, t, id).error.None?
    ensures Step(Step(db, gw, t, id).db, gw, t, id) == Step(db, gw, t, id)
  {
  }

  /** One event keeps the store consistent. */
  lemma StepPreservesConsistent(db: Db, gw: Gateway, t: Tables, id: ReservationId)
    requires Consistent(db)
    ensures Consistent(Step(db, gw, t, id).db)
  {
  }

  /** A batch split in two runs the second part on what the first left, unless the first failed. */
  lemma {:induction false} RunAppend(db: Db, gw: Gateway, t: Tables, a: seq<ReservationId>, b: seq<ReservationId>)
    ensures Run(db, gw, t, a + b) ==
              var o := Run(db, gw, t, a);
              if o.error.Some? then o else Run(o.db, gw, t, b)
    decreases |a|
  {
    if a != [] {
      assert (a + b)[0] == a[0] && (a + b)[1..] == a[1..] + b;
      var first := Step(db, gw, t, a[0]);
      if first.error.None? {
        RunAppend(first.db, gw, t, a[1..], b);
      }
    } else {
      assert a + b == b;
    }
  }

  /** A failure aborts the batch: events after it are not processed. */
  lemma RunStopsAtFailure(db: Db, gw: Gateway, t: Tables, a: seq<ReservationId>, b: seq<ReservationId>)
    requires Run(db, gw, t, a).error.Some?
    ensures Run(db, gw, t, a + b) == Run(db, gw, t, a)
  {
    RunAppend(db, gw, t, a, b);
  }

  /** A batch keeps the store consistent, even when it stops early. */
  lemma {:induction false} RunPreservesConsistent(db: Db, gw: Gateway, t: Tables, ids: seq<ReservationId>)
    requires Consistent(db)
    ensures Consistent(Run(db, gw, t, ids).db)
    decreases |ids|
  {
    if ids != [] {
      StepPreservesConsistent(db, gw, t, ids[0]);
      var first := Step(db, gw, t, ids[0]);
      if first.error.None? {
        RunPreservesConsistent(first.db, gw, t, ids[1..]);
      }
    }
  }

  /** After a successful batch, every event's reservation has its stay. */
  lemma {:induction false} RunCreatesStays(db: Db, gw: Gateway, t: Tables, ids: seq<ReservationId>)
    requires Run(db, gw, t, ids).error.None?
    ensures forall i :: 0 <= i < |ids| ==>
              ids[i] in gw.reservations && KeyOf(gw.reservations[ids[i]]) in Run(db, gw, t, ids).db.stays
    decreases |ids|
  {
    if ids != [] {
      var first := Step(db, gw, t, ids[0]);
      RunCreatesStays(first.db, gw, t, ids[1..]);
      forall i | 0 <= i < |ids|
        ensures ids[i] in gw.reservations && KeyOf(gw.reservations[ids[i]]) in Run(db, gw, t, ids).db.stays
      {
        if i > 0 {
          assert ids[i] == ids[1..][i - 1];
        }
      }
    }
  }
}
