/** Values shared by the booking ledger and the review store: booking and
    review records, the partial-update payloads, the authenticated caller and
    the outcomes a request handler can produce. Times are integers (seconds
    on one clock); `now` is always passed in by the caller. */
module Domain {

  datatype Option<T> = None | Some(value: T)

  /** The four booking states (models/booking.py:7-11). */
  datatype Status = Pending | Confirmed | Cancelled | Completed

  /** The two user roles (models/user.py:7-9). */
  datatype Role = User | Admin

  /** The authenticated caller, as the identity provider hands it over. */
  datatype Actor = Actor(id: int, role: Role)

  predicate IsAdmin(a: Actor) { a.role == Admin }

  /** A row of the bookings table (models/booking.py:13-22). */
  datatype Booking = Booking(
    id: int,
    userId: int,
    serviceId: int,
    start: int,
    end: int,
    status: Status,
    createdAt: int)

  /** The body of a create request (schemas/booking.py:11-18). */
  datatype BookingRequest = BookingRequest(userId: int, serviceId: int, start: int, end: int)

  /** The body of a booking PATCH: every field optional, `None` when the
      client did not send it (schemas/booking.py:20-23). */
  datatype BookingPatch = BookingPatch(start: Option<int>, end: Option<int>, status: Option<Status>)

  /** A row of the reviews table, with the author id the handlers rely on.
      Rating and comment are nullable columns: an update may store `None`. */
  datatype Review = Review(
    id: int,
    bookingId: int,
    userId: int,
    rating: Option<int>,
    comment: Option<string>,
    createdAt: int)

  /** The body of a review create request (schemas/review.py:4-10). */
  datatype ReviewRequest = ReviewRequest(bookingId: int, rating: int, comment: string)

  /** The body of a review PATCH (schemas/review.py:12-14). */
  datatype ReviewPatch = ReviewPatch(rating: Option<int>, comment: Option<string>)

  /** Why a request was refused with 403. */
  datatype Denial =
    | NotOwnerOrAdmin        // neither the booking's owner nor an administrator
    | StatusLocked           // owner, but the booking is cancelled or completed
    | OwnerStatusNotAllowed  // owner asked for a status other than pending/cancelled
    | AdminStatusNotAllowed  // administrator asked for completed
    | AlreadyStarted         // owner deleting a booking whose start has passed
    | NotAuthor              // caller did not write the review

  /** Why a review request was refused with 400. */
  datatype Rejection = NotCompleted | AlreadyReviewed

  /** The business outcomes a handler decides on, before the catch-all
      wrapper turns them into an HTTP response. */
  datatype Failure =
    | NotFound                    // 404
    | Forbidden(denial: Denial)   // 403
    | Conflict                    // 409
    | BadRequest(why: Rejection)  // 400
    | InvalidInterval             // start not before end; only the corrected guards use it
    | Internal                    // 500: the code itself raised

  datatype Result<T> = Ok(value: T) | Err(failure: Failure)

  /** The outcome of a guard chain: go ahead, or stop with a failure. */
  datatype Verdict = Allow | Deny(failure: Failure)

  /** The status code the handler raises for a failure. */
  function StatusCode(f: Failure): int
  {
    match f
    case NotFound => 404
    case Forbidden(_) => 403
    case Conflict => 409
    case BadRequest(_) => 400
    case InvalidInterval => 422
    case Internal => 500
  }

  /** Every booking and review handler wraps its body in `except Exception`,
      which also catches the HTTPException it raised itself and re-raises it
      as a 500. `Surfaced` is the status the client finally sees for a
      decided outcome `inner` (200 on success). */
  function Surfaced<T>(inner: Result<T>): (code: int)
    ensures code == 200 <==> inner.Ok?
    ensures inner.Err? ==> code == 500
    ensures inner.Err? ==> (code == StatusCode(inner.failure) <==> inner.failure == Internal)
  {
    if inner.Ok? then 200 else 500
  }
}
