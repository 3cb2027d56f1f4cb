# BookIT booking ledger and review store, in Dafny

This project models the core of BookIT, a booking platform where users reserve
time slots on services and review completed bookings. It covers:

- the **booking ledger**: a table of bookings keyed by id, with the conflict
  query (the half-open overlap filter for one service that ignores cancelled
  bookings), the listing queries, and create, partial update and delete;
- the **booking request handlers**: the guard chains that answer 404, 403 or
  409, or let the ledger change;
- the **review store** and its handlers: the create precondition chain (owned,
  completed, not yet reviewed) and the update and delete authorization.

Layout, one module per source file plus two:

| file | module | models |
|---|---|---|
| domain.dfy | `Domain` | records, PATCH payloads, caller, outcomes |
| tables.dfy | `Tables` | what both tables share: the key invariant, lookup by key, the table scan and OFFSET/LIMIT |
| crud_booking.dfy | `BookingCrud` | crud/crud_booking.py: queries as functions, `BookingTable` class |
| routes_booking.dfy | `BookingRoutes` | routes/booking.py: decision functions, handler methods |
| schedule.dfy | `Schedule` | the no-overlap invariant: what the handlers keep, where they break it, corrected guards |
| crud_review.dfy | `ReviewCrud` | crud/crud_review.py: lookups as functions, `ReviewTable` class |
| routes_review.dfy | `ReviewRoutes` | routes/review.py: decision functions, handler methods |

Each table is a class whose `rows: map<int, _>` field the methods reassign; what the two tables share lives in `Tables`.
`nextId` is the next id to hand out. `Valid()` says that every row sits under
its own id and every id is between 1 and `nextId - 1`. Each handler is split
in two parts:

- a pure decision function over the caller, the table's rows and the request;
- a method that applies that decision to the table.

Times are integers. The clock reading `now` is a parameter: it is the
deletion-window test of routes/booking.py:162 and the creation timestamp.

The model follows the code as written in these places:

- an administrator cannot set `completed`;
- an update runs the conflict check only when both times are sent;
- nothing checks that a booking starts before it ends;
- only the author may update a review, and administrators are not exempt;
- deleting a review is allowed to the owner of the reviewed booking or an
  administrator, not to its author as such;
- deleting a booking removes it even when a review still points at it
  (crud/crud_booking.py:40-45), and the review keeps that booking's id;
  deleting that review afterwards then fails with 500, as
  `DeleteReviewDecision` states.

## Model

| member | source | states |
|---|---|---|
| `Domain.Surfaced` | routes/booking.py:39-40 | the catch-all wrapper answers 200 exactly on success and 500 for every failure; the handler's own 404, 403, 409 or 400 never reaches the client, only a 500 does |
| `BookingCrud.Conflicting` | crud/crud_booking.py:47-59 | a row is returned iff it is for the service, not cancelled, overlaps the half-open query interval, and is not the booking named by a truthy id; the result is a sub-table |
| `BookingCrud.TouchingNeverConflicts` | crud/crud_booking.py:53-54 | a booking ending exactly at the query start, or starting exactly at its end, is never reported |
| `BookingCrud.CancelledNeverConflicts` | crud/crud_booking.py:51 | a cancelled booking is never reported, whatever its interval |
| `BookingCrud.ExcludedNeverConflicts` | crud/crud_booking.py:57-58 | the booking named by a non-zero id is never reported |
| `Tables.Lookup` | crud/crud_booking.py:16-18 | none exactly when no row has the key, otherwise the row stored under it; used by get_booking and get_review (crud/crud_review.py:15-17) alike |
| `Tables.Scan` | crud/crud_booking.py:21-22 | every row returned passes the filter and is in the table; every row below the bound that passes it is returned |
| `Tables.ScanCount` | crud/crud_booking.py:21-22 | the scan returns exactly as many rows as there are matching keys |
| `Tables.ScanExcludesAbove` | crud/crud_booking.py:21-22 | when no two keys hold the same row, a row stored at or above the bound is not in the scan |
| `Tables.ScanDistinct` | crud/crud_booking.py:21-22 | when no two keys hold the same row, the scan lists each row at most once |
| `Tables.PageOfScanDistinct` | crud/crud_booking.py:22 | when every row carries its own key, an OFFSET/LIMIT page of the scan lists each row at most once |
| `BookingCrud.OwnedCount` | crud/crud_booking.py:22 | the scan for one user has one entry per booking of that user |
| `Tables.Page` | crud/crud_booking.py:22 | OFFSET/LIMIT: the result has min(limit, rows after skip) elements, equal to the input's from position skip on |
| `BookingCrud.UserBookings` | crud/crud_booking.py:20-22 | all of them the user's bookings from the table; as many as OFFSET/LIMIT keeps of the user's n bookings (none if skip >= n, else the lesser of n - skip and limit); with no offset and n <= limit, every booking of the user; when every row is stored under its own id, no booking twice |
| `BookingCrud.AllBookings` | crud/crud_booking.py:24-26 | rows of the table, as many as OFFSET/LIMIT keeps of all of them; with no offset and room under the limit, every row; when every row is stored under its own id, no row twice |
| `BookingCrud.AssignSuppliedIsPatched` | crud/crud_booking.py:32-34 | the `setattr` loop over the supplied items yields the record whose supplied fields are new and all others old |
| `BookingCrud.AssignItems` | crud/crud_booking.py:33-34 | the loop over the items leaves the record that assigning them one after another, in order, yields |
| `BookingCrud.ApplyPatch` | crud/crud_booking.py:32-34 | the loop leaves the record with every supplied field replaced and every other field as it was |
| `BookingCrud.PatchedKeepsUnsupplied` | crud/crud_booking.py:29-37 | id, owner, service and creation time never change; an unsupplied field keeps its value; an empty patch changes nothing |
| `BookingCrud.BookingTable.Create` | crud/crud_booking.py:8-14 | adds exactly one row, under a fresh id, status pending, stamped `now`; nothing else changes |
| `BookingCrud.BookingTable.Update` | crud/crud_booking.py:28-37 | a present id gets the patched record and every other row is unchanged; a missing id returns none and changes nothing |
| `BookingCrud.BookingTable.Delete` | crud/crud_booking.py:39-45 | removes exactly the named row and returns it; a missing id returns none with the table unchanged |
| `BookingRoutes.CreateDecision` | routes/booking.py:24-34 | refused, with 409 only, iff an active booking of the service overlaps the request; on acceptance the owner is the caller, whatever was submitted |
| `BookingRoutes.ResubmissionConflicts` | tests/test_booking.py:21-41 | submitting the interval of an existing active booking again is refused as a conflict |
| `BookingRoutes.CreateBookingHandler` | routes/booking.py:14-37 | on conflict nothing is added and the client sees 500; otherwise exactly one pending booking owned by the caller is added |
| `BookingRoutes.ReadDecision` | routes/booking.py:65-82 | 404 iff missing; 403 iff present, not owned and caller not admin; otherwise the stored row |
| `BookingRoutes.ListDecision` | routes/booking.py:43-60 | bookings from the table, an administrator's page as long as the lesser of the table size and 100, anyone else's only their own and as long as the lesser of their count and 100; a page shorter than 100 holds every booking the caller may see; when every row is stored under its own id, no booking twice |
| `BookingRoutes.UpdatePolicy` | routes/booking.py:104-118 | allowed iff the role rules hold, both roles' rules for a caller with both; every refusal is 403; a non-owner non-admin, or an owner of a cancelled or completed booking, gets that denial; completed is never accepted |
| `BookingRoutes.UpdateDecision` | routes/booking.py:99-130 | 404 iff missing; role refusals pass through; 409 only on a full reschedule; a permitted full reschedule gets 409 iff the conflict query for the other bookings is non-empty and is allowed iff it is empty; an allowed full reschedule overlaps no other active booking of the service; without both times a permitted patch is allowed |
| `BookingRoutes.RescheduleIgnoresSelf` | routes/booking.py:121-128 | a booking alone on its service may be rescheduled onto an interval overlapping its own old one |
| `BookingRoutes.UpdateBookingHandler` | routes/booking.py:87-134 | on any refusal the table is unchanged and the client sees 500; otherwise only that booking changes, to its patched record |
| `BookingRoutes.DeleteDecision` | routes/booking.py:152-163 | 404 iff missing; allowed iff owner or admin and, for an owner, now is before the start; an admin who is not the owner may always delete |
| `BookingRoutes.DeleteBookingHandler` | routes/booking.py:140-165 | on refusal nothing changes and the client sees 500; otherwise exactly that booking is removed and returned |
| `Schedule.CreateKeepsNoOverlap` | routes/booking.py:25-35 | a booking the create guard accepts keeps "no two active bookings of a service overlap" |
| `Schedule.DeleteKeepsNoOverlap` | crud/crud_booking.py:40-45 | deleting keeps the invariant |
| `Schedule.UpdateKeepsNoOverlap` | routes/booking.py:120-132 | an allowed full reschedule, or a status-only change that does not revive a cancelled booking, keeps the invariant |
| `Schedule.PartialRescheduleBreaksNoOverlap` | routes/booking.py:121 | an administrator moving only the start of a booking is allowed with no check and creates an overlap |
| `Schedule.ReactivationBreaksNoOverlap` | routes/booking.py:116-118 | an admin reviving a cancelled booking gets no check and creates an overlap |
| `Schedule.InvertedIntervalAccepted` | routes/booking.py:25-35 | an interval whose end precedes its start is accepted |
| `Schedule.CheckedCreateDecision` | routes/booking.py:25-34 | the corrected create: refuses an empty or inverted interval, otherwise decides like the code |
| `Schedule.CheckedUpdateDecision` | routes/booking.py:100-130 | the corrected update: a permitted patch is allowed only if the patched interval is non-empty and, when active, clears every other active booking of the service; a permitted patch meeting both conditions is allowed |
| `Schedule.CheckedCreateKeepsConsistent` | routes/booking.py:25-35 | the corrected create keeps both no-overlap and non-empty intervals |
| `Schedule.CheckedUpdateKeepsConsistent` | routes/booking.py:110-132 | the corrected update keeps both invariants, for partial reschedules and revivals too |
| `ReviewCrud.NewReview` | crud/crud_review.py:8-13 | the new record carries the request's booking, rating and comment and the given author |
| `ReviewCrud.ReviewsByService` | crud/crud_review.py:19-21 | every review returned is in the table and has a booking for the service; every such review of the table is returned, and the result has exactly one entry per such review |
| `ReviewCrud.AssignItemsIsOverwritten` | crud/crud_review.py:27-28 | the `setattr` loop over `review.dict()` overwrites rating and comment with the payload's values |
| `ReviewCrud.ApplyUpdate` | crud/crud_review.py:27-28 | the loop leaves the record with rating and comment overwritten by the payload and nothing else changed |
| `ReviewCrud.OverwriteClearsUnset` | crud/crud_review.py:24-31 | a field left out of the payload becomes none; id, booking, author and creation time are kept |
| `ReviewCrud.ReviewTable.Create` | crud/crud_review.py:8-13 | adds exactly one review under a fresh id |
| `ReviewCrud.ReviewTable.Update` | crud/crud_review.py:23-31 | a present id is overwritten, other reviews unchanged; a missing id returns none and changes nothing |
| `ReviewCrud.ReviewTable.Delete` | crud/crud_review.py:33-39 | removes only the named review and returns it; a missing id returns none |
| `ReviewRoutes.CreateReviewDecision` | routes/review.py:17-24 | 404 iff not the caller's booking; then 400 iff not completed; then 400 iff already reviewed; allowed iff none of these |
| `ReviewRoutes.CreateReviewHandler` | routes/review.py:14-27 | on any refusal nothing is created and the client sees 500; otherwise one review by the caller is added |
| `ReviewRoutes.CreateKeepsOneReviewPerBooking` | routes/review.py:22-25 | an accepted review keeps at most one review per booking |
| `ReviewRoutes.UpdateAndDeleteKeepOneReviewPerBooking` | crud/crud_review.py:24-39 | update and delete keep at most one review per booking |
| `ReviewRoutes.UpdateReviewDecision` | routes/review.py:43-47 | 404 iff missing; allowed iff the caller wrote the review, admins included; otherwise 403 |
| `ReviewRoutes.UpdateReviewHandler` | routes/review.py:40-50 | on refusal the review is unchanged and the client sees 500; otherwise it is overwritten |
| `ReviewRoutes.DeleteReviewDecision` | routes/review.py:58-65 | 404 iff missing; 500 iff its booking is gone; allowed iff the caller owns the booking or is an admin; a caller who is neither gets 403 |
| `ReviewRoutes.DeleteReviewHandler` | routes/review.py:55-68 | on refusal nothing changes and the client sees 500; otherwise exactly that review is removed and returned |

## Findings

| source | as written | input that shows it | evidently intended | confidence | as-written member | corrected member |
|---|---|---|---|---|---|---|
| routes/booking.py:121 | the conflict check runs only when both start and end are sent | bookings [0,10) and [10,20) of one service; an administrator sends only start = 5 for the second | check the interval the booking will have after the patch, whichever times were sent | high, not executed | `Schedule.PartialRescheduleBreaksNoOverlap` | `Schedule.CheckedUpdateKeepsConsistent` |
| routes/booking.py:116-118 | an admin may set a cancelled booking back to pending or confirmed with no conflict check | a cancelled [0,10) and an active [0,10) on one service; admin sets the first to pending | check conflicts whenever the patched booking ends up active | medium, not executed | `Schedule.ReactivationBreaksNoOverlap` | `Schedule.CheckedUpdateKeepsConsistent` |
| routes/booking.py:25-35 | neither create nor update checks that start precedes end | create [10,5) on an empty ledger | refuse an empty or inverted interval | high, not executed | `Schedule.InvertedIntervalAccepted` | `Schedule.CheckedCreateKeepsConsistent` |

The handler methods keep the code's decisions: `UpdateDecision` and
`CreateDecision`. The corrected guards are `CheckedUpdateDecision` and
`CheckedCreateDecision`. The lemmas about the full invariant (no overlap and
non-empty intervals) are stated about the corrected guards.

## Left out

- Authentication: JWT issuing and checking and bcrypt hashing (security.py, routes/auth.py) call foreign libraries. The caller is a given `Actor(id, role)`.
- The service catalog, user CRUD, app wiring and test fixtures: plain ORM pass-through with no decision logic.
- Sessions and transactions: flush, commit and rollback are not modelled, and handlers run one at a time. The check-then-insert race of routes/booking.py:25-35 is therefore not represented.
- The catch-all `except Exception` blocks: the model keeps only the status code they produce (`Surfaced`, stated for every handler method), not the detail text `str(e)` they put in the body. The tests expect 400 on a conflict; the code raises 409 and the wrapper turns it into 500, and the model follows the code.
- Python type quirks, modelled by their evident intent:
  - routes/booking.py:111 and routes/review.py:20 compare the stored status, a plain `Enum` (models/booking.py:7), with strings. As written every update by the booking's owner is refused with 403 at routes/booking.py:111-112. Every review request for a booking the caller owns is refused with 400 at routes/review.py:20-21; a booking the caller does not own still gets 404 first, at lines 17-19. The wrapper turns both refusals into 500. The model compares statuses.
  - routes/review.py:64 reads `current_user.is_admin`, which models/user.py:11-21 does not define. The model uses role == admin.
  - Review has no `user_id` column (models/review.py:6-15), yet crud/crud_review.py:9 and routes/review.py:46 use one. The model gives each review an author id.
  - routes/booking.py:58 passes filter arguments that get_all_bookings (crud/crud_booking.py:25) does not accept. The model lists all bookings for an administrator.
  - BookingCreate requires a `user_id` (schemas/booking.py:12). The model takes it from the request and then replaces it.
- Admin filtering of the list by status or date: the CRUD layer does not implement it.
- The `/bookings/{id}/complete` endpoint used by tests/test_review.py:23 is not part of this model. No modelled path sets `completed`.
- Id assignment: SQLite gives a new row one more than the largest id present, so a deleted last id can come back. The model uses a counter that never reuses an id.
- Row order: the listing queries have no ORDER BY. The model scans in ascending id order.
- `skip` and `limit` are natural numbers. SQL's treatment of negative values is not modelled.
- A PATCH that sends an explicit `null` for a booking field: `exclude_unset` would assign it. The model treats every field as either sent with a value or not sent.
- Timestamps are integers. Time zones and `datetime` parsing are not modelled.
- Tables.Scan: states which rows appear, how many, and (through ScanDistinct) that none appears twice, but not that they come in key order. So UserBookings and AllBookings state the size of a page, that its rows qualify and that none repeats, but not which of the qualifying rows a non-zero offset skips.
- BookingCrud.BookingTable.Delete: the one-to-one `review` relationship at models/booking.py:26 has no cascade, so on flush SQLAlchemy's default would set the orphaned review's `booking_id` to NULL; the model leaves the review's `bookingId` as it was. That id names no booking in either case, so `DeleteReviewDecision` gives the same 500 for that review afterwards.
