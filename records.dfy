/**
  The record store: hotels (read-only here), guests keyed by phone and stays keyed by
  (hotel, reservation id). `Db` is its value; `RecordStore` is the store the adapter updates
  in place, one record at a time.
 */
module Records {
  import opened Wrappers

  type HotelId = string
  type ReservationId = string
  type GuestId = string
  type Phone = string

  datatype Guest = Guest(name: string, language: string)

  /** The natural key of a stay. */
  datatype StayKey = StayKey(hotel: HotelId, reservationId: ReservationId)

  /** A stay's fields besides its key; `guest` is the phone of the linked guest, if any. */
  datatype Stay = Stay(guest: Option<Phone>, pmsGuestId: GuestId, status: string, checkin: string, checkout: string)

  datatype Db = Db(hotels: set<HotelId>, guests: map<Phone, Guest>, stays: map<StayKey, Stay>)

  /** The vendor's sentinel for an unknown phone number. */
  const NOT_AVAILABLE: string := "Not available"

  /** A phone that identifies a guest: present, non-empty and not the sentinel. */
  predicate ValidPhone(phone: Option<string>)
    ensures ValidPhone(phone) <==> phone.Some? && phone.value != "" && phone.value != NOT_AVAILABLE
  {
    var invalid := [Some(NOT_AVAILABLE), Some(""), None];
    assert phone in invalid <==> phone == invalid[0] || phone == invalid[1] || phone == invalid[2];
    phone !in invalid
  }

  /**
    The store's integrity: no guest is stored under an invalid phone, and every stay belongs to
    a known hotel and links only a stored guest.
   */
  predicate Consistent(db: Db) {
    && (forall p :: p in db.guests ==> ValidPhone(Some(p)))
    && (forall k :: k in db.stays ==> k.hotel in db.hotels)
    && (forall k :: k in db.stays && db.stays[k].guest.Some? ==> db.stays[k].guest.value in db.guests)
  }

  class RecordStore {
    var hotels: set<HotelId>
    var guests: map<Phone, Guest>
    var stays: map<StayKey, Stay>

    constructor (hotels: set<HotelId>)
      ensures Snapshot() == Db(hotels, map[], map[])
      ensures Valid()
    {
      this.hotels := hotels;
      guests := map[];
      stays := map[];
    }

    function Snapshot(): Db
      reads this
    {
      Db(hotels, guests, stays)
    }

    ghost predicate Valid()
      reads this
    {
      Consistent(Snapshot())
    }
  }
}
