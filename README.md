# Mews reservation reconciliation, modelled in Dafny

This project models the Mews adapter of a hotel integration service (`hotel/pms_systems.py`).
A Property Management System (PMS) sends webhooks naming reservations. The adapter cleans the
payload, so that each reservation id appears once and carries its last event. For each event it
asks the PMS gateway for the reservation and the guest, then upserts a Guest, keyed by phone,
and a Stay, keyed by (hotel, reservation id), in the record store. A daily job does the same for
tomorrow's reservations: each one becomes a one-event payload for the same code path. Around this
core sit two small helpers: the registry, which resolves a vendor name to an adapter, and the
language policy, which maps a country to a language with a fallback to "GB".

Modules:

- `Wrappers` (`wrappers.dfy`): `Option` and `Result`.
- `Registry` (`registry.dfy`): `get_pms` and the adapter's `name` property.
- `Lookup` (`lookup.dfy`): `get_language`.
- `Payload` (`payload.dfy`): webhook payloads and `clean_webhook_payload`. The cleaning is
  modelled as the Python dict it builds: keys keep the position where they were first inserted,
  and later values overwrite earlier ones.
- `Records` (`records.dfy`): Guest, Stay and the store. `Db` is the store as a value.
  `RecordStore` is the class the adapter updates in place.
- `Reconcile` (`reconcile.dfy`): what one event does (`Step`) and what a batch does (`Run`), as
  functions, with the lemmas about them.
- `Mews` (`mews.dfy`): the imperative operations on a `RecordStore`. `ResolveGuest` and
  `ResolveStay` find or create one record and rewrite only the fields that differ; they are proved
  equal to `LinkGuest` and `StayAfter`. `ProcessEvent` chains them and is proved equal to `Step`.
  `HandleWebhook` and `UpdateTomorrowsStays` loop over `ProcessEvent` and are proved equal to `Run`.

The gateway (`get_reservation_details`, `get_guest_details`) is a pair of maps, and a missing key
stands for a failed call. The reservation list of the daily job is a parameter. The two lookup
tables are maps too. An exception that escapes an operation is a `Failure` or an `error`. The
store it leaves keeps every write saved before the raise, because the source runs no
transaction.

Where the code and the written design disagree, the model follows the code:

- A failing event does not make `handle_webhook` return False. The exception escapes, so the
  result is `Failure(...)`; when nothing escapes, the result is always `true` (line 191).
  `update_tomorrows_stays` ignores that result and lets exceptions escape (lines 209-212).
- The status is not always looked up. An existing stay whose stored status equals the RAW vendor
  status keeps that stored status, with no lookup. In that case an unmapped raw status does not
  fail (lines 169-170).
- The stay key uses the reservation id and hotel id from the gateway's details, not from the
  event or the payload. The payload's own `HotelId` is never read.
- Within one event, the guest is saved (lines 145, 148) before the status lookup (lines 170, 187).
  An unmapped status therefore leaves that guest write in place while the stay is untouched.

## Model

| member | source | states |
|---|---|---|
| `Registry.Name` | hotel/pms_systems.py:30-33 | the adapter name is the class name without its first four characters (empty for shorter names) |
| `Registry.GetPms` | hotel/pms_systems.py:225-233 | an adapter exists exactly when "PMS_" + capitalize(name) is a registered class; its `name` is capitalize(name) |
| `Registry.GetPmsIgnoresCase` | hotel/pms_systems.py:225-233 | a vendor name resolves if and only if it spells "mews" in any letter case, and then the adapter's name is "Mews" |
| `Registry.MewsInAnyCase` | hotel/pms_systems.py:226 | "mews", "MEWS" and "mEwS" resolve to the same Mews adapter; "opera" does not resolve |
| `Lookup.GetLanguage` | hotel/pms_systems.py:235-246 | a mapped country gives its language; any other (or null) country gives the "GB" language; it never fails when "GB" is mapped and fails only when neither is mapped |
| `Payload.Dedup` | hotel/pms_systems.py:90 | the cleaned list holds the dict's values in the order of its keys: its ids are the dict's keys, and each event is the dict's value for its id |
| `Payload.Index` | hotel/pms_systems.py:90 | the dict built from the events has distinct keys, each with an event carrying that id, and exactly the ids of the input |
| `Payload.IndexKeepsLast` | hotel/pms_systems.py:90 | the dict's value for an id is the input's last event with that id |
| `Payload.IndexFirstOccurrenceOrder` | hotel/pms_systems.py:90 | the dict's keys are in strictly increasing order of their first occurrence in the input |
| `Payload.DedupDistinct` | hotel/pms_systems.py:90 | after cleaning, no two events share a reservation id |
| `Payload.DedupSameIds` | hotel/pms_systems.py:90 | cleaning keeps exactly the reservation ids of the input |
| `Payload.DedupLastWins` | hotel/pms_systems.py:90 | each kept event is the last input event with its reservation id |
| `Payload.DedupFirstOccurrenceOrder` | hotel/pms_systems.py:90 | kept events are ordered by the first appearance of their ids |
| `Payload.DedupOfDistinct` | hotel/pms_systems.py:90 | a list whose ids are already distinct is left unchanged |
| `Payload.DedupIdempotent` | hotel/pms_systems.py:90 | cleaning twice gives the same list as cleaning once |
| `Payload.DedupOfRepeated` | hotel/pms_systems.py:90 | any number of events for one reservation collapse to the last of them |
| `Payload.CleanWebhookPayload` | hotel/pms_systems.py:85-91 | the cleaned payload keeps hotel and integration ids; its events have distinct ids, the same id set, the last event per id, in first-occurrence order |
| `Payload.CleanIdempotent` | hotel/pms_systems.py:85-91 | cleaning a cleaned payload changes nothing |
| `Records.ValidPhone` | hotel/pms_systems.py:132 | a phone identifies a guest exactly when it is present, non-empty and not "Not available" |
| `Reconcile.NameOrEmpty` | hotel/pms_systems.py:122-123 | a null guest name becomes the empty string; any other name is kept |
| `Reconcile.LinkGuest` | hotel/pms_systems.py:132-151 | an invalid phone (null, "", "Not available") leaves the guests alone and links nobody; a valid phone leaves exactly that guest with the incoming name and derived language, links it, and changes no other guest; it fails only when no language can be derived |
| `Reconcile.StayAfter` | hotel/pms_systems.py:157-188 | the stay carries the incoming guest, guest id and dates; a new stay gets the mapped status; an existing stay whose status equals the raw status keeps it, and one whose status differs gets the mapped status; it fails exactly when an unmapped raw status must be looked up |
| `Reconcile.StatusComparedWithRaw` | hotel/pms_systems.py:169-170 | under the table {A: B, B: C}, a stay stored as "B" that receives raw "B" keeps "B" rather than "C"; a stored status equal to an unmapped raw status is kept without failing |
| `Reconcile.Step` | hotel/pms_systems.py:99-188 | one event never changes hotels and removes no guest and no stay; any failure leaves the stays alone, and a failure other than an unmapped status leaves the store alone; success means the gateway answered, the hotel exists, and only the stay for (hotel, reservation id) changed |
| `Reconcile.Run` | hotel/pms_systems.py:96-191 | a batch never changes hotels and removes no stay and no guest, whether it finishes or aborts |
| `Reconcile.StepSkipsInvalidPhone` | hotel/pms_systems.py:132-134 | with an invalid phone the guests are unchanged and the resulting stay has no guest |
| `Reconcile.StepUpsertsGuest` | hotel/pms_systems.py:137-151 | with a valid phone exactly one guest under it holds the incoming name (or '') and the language of the country; others are unchanged; the stay links it; without a language the event fails and the store is unchanged |
| `Reconcile.StepUpsertsStay` | hotel/pms_systems.py:157-188 | after a successful event the stay for (hotel, reservation id) has the incoming guest link, guest id, check-in and check-out; a new stay has the mapped status, an existing one keeps its status when it equalled the raw status and otherwise has the mapped status |
| `Reconcile.StepUnmappedStatus` | hotel/pms_systems.py:169-187 | once the guest is resolved, the event fails if and only if the raw status is unmapped and the stay is new or holds a different status; the stays are then unchanged while the guest write persists |
| `Reconcile.StepIdempotent` | hotel/pms_systems.py:137-188 | processing the same event a second time, with the same gateway answers, changes nothing |
| `Reconcile.StepPreservesConsistent` | hotel/pms_systems.py:132-188 | an event keeps the store consistent: guests only under valid phones, stays only for known hotels and stored guests |
| `Reconcile.RunAppend` | hotel/pms_systems.py:96-191 | running a + b is running a, then b on its result, unless a failed |
| `Reconcile.RunStopsAtFailure` | hotel/pms_systems.py:108-111 | after a failure no later event is processed, and the writes of earlier events remain |
| `Reconcile.RunPreservesConsistent` | hotel/pms_systems.py:96-191 | a batch keeps the store consistent, even when it stops early |
| `Reconcile.RunCreatesStays` | hotel/pms_systems.py:157-188 | after a successful batch every event's reservation has its stay |
| `Mews.ResolveGuest` | hotel/pms_systems.py:122-151 | the in-place guest lookup, diff and save leaves the guests exactly as `LinkGuest` says and the stays untouched |
| `Mews.ResolveStay` | hotel/pms_systems.py:157-188 | the in-place stay lookup, field-by-field diff and save leaves the stays exactly as `StayAfter` says, and nothing on failure |
| `Mews.ProcessEvent` | hotel/pms_systems.py:99-188 | one loop iteration leaves the store and reports the error exactly as `Step` says |
| `Mews.HandleWebhook` | hotel/pms_systems.py:93-191 | the store ends as `Run` over the events' ids; the result is `true` when no error escapes, else the first error; consistency is kept |
| `Mews.UpdateTomorrowsStays` | hotel/pms_systems.py:200-212 | feeding each reservation as a one-event payload leaves the store as `Run` over the reservation ids (the same path as a webhook); the result is `true` unless an error escapes |

## Left out

- `stay_has_breakfast` (lines 215-222): it passes one gateway field through and has nothing to verify.
- Tomorrow's date (lines 195-197): the date depends on the clock and on the format `'%Y-%M-%D'`. The
  reservation list the gateway returns for it is a parameter of `UpdateTomorrowsStays`.
- JSON and UTF-8 decoding (lines 87-88, 108, 113, 197): payloads and gateway answers are parsed
  records. Malformed bodies and records that lack a key (a `KeyError` on `details['HotelId']`, say) are
  not modelled. A failed gateway call is a missing map key.
- `IntegrationId` of the synthesized payload (line 205): the trailing comma makes it a
  one-element tuple. It is modelled as the string "Auto Update"; `handle_webhook` never reads it.
- The diff-before-write (lines 139-143, 161-174): it is kept in the methods' bodies, but the contracts
  state only the final store. Django's `save()` writes every column, so whether a field was
  written is not observable.
- Lines 161-162 and 165-166 compare the stay's hotel and reservation id with the lookup key. They
  can never differ, so `Stay` stores neither; the key holds them.
- Check-in and check-out are opaque strings. A stored date compared with a string always differs,
  but assigning the same value leaves the same state.
- Several guests with one phone, or several stays with one key (`.first()`), cannot occur: the
  store is a map. Concurrent webhooks and transactions are not modelled.
- `get_language` is called twice on the update path (lines 142-143). Both calls give the same
  value, so the model calls it once.
- `print`, and the reflection in `get_pms` (`sys.modules`, `inspect`): the class registry is the
  fixed set {"PMS", "PMS_Mews"}. The other classes imported into the module do not start with
  "PMS_" and can never match.
- `Registry.GetPms`: `str.capitalize` is modelled on ASCII letters only; other characters are left
  unchanged.
- Idempotence of a whole multi-event batch is not stated. Two events whose details name the same
  stay, under a status table that maps one raw code to another raw code, can end differently on a
  second run because of the status rule at lines 169-170. `StepIdempotent` covers a single event.
- `hotel/views.py` (the HTTP endpoint and the scheduler) is not part of this model.
