/** The review request handlers (routes/review.py). Review creation reads
    the booking ledger to check ownership, completion and that no review
    exists yet; update and delete have their own authorization rules. */
module ReviewRoutes {
  import opened Domain
  import opened Tables
  import opened ReviewCrud

  /** Some review already points at the booking. */
  predicate HasReview(reviews: map<int, Review>, bookingId: int)
  {
    exists k :: k in reviews && reviews[k].bookingId == bookingId
  }

  /** The booking exists and belongs to the caller: the combined filter of
      routes/review.py:17. */
  predicate OwnsBooking(bookings: map<int, Booking>, actor: Actor, bookingId: int)
  {
    bookingId in bookings && bookings[bookingId].userId == actor.id
  }

  /** create_review's guard chain (routes/review.py:17-24): 404 unless the
      caller owns the booking, then 400 unless it is completed, then 400 if
      it already has a review; the first failing guard decides. */
  function CreateReviewDecision(bookings: map<int, Booking>, reviews: map<int, Review>, actor: Actor,
                                req: ReviewRequest): (r: Verdict)
    ensures r == Deny(NotFound) <==> !OwnsBooking(bookings, actor, req.bookingId)
    ensures r == Deny(BadRequest(NotCompleted)) <==>
      OwnsBooking(bookings, actor, req.bookingId) && bookings[req.bookingId].status != Completed
    ensures r == Deny(BadRequest(AlreadyReviewed)) <==>
      OwnsBooking(bookings, actor, req.bookingId) && bookings[req.bookingId].status == Completed
      && HasReview(reviews, req.bookingId)
    ensures r.Allow? <==>
      OwnsBooking(bookings, actor, req.bookingId) && bookings[req.bookingId].status == Completed
      && !HasReview(reviews, req.bookingId)
  {
    if !OwnsBooking(bookings, actor, req.bookingId) then Deny(NotFound)
    else if bookings[req.bookingId].status != Completed then Deny(BadRequest(NotCompleted))
    else if HasReview(reviews, req.bookingId) then Deny(BadRequest(AlreadyReviewed))
    else Allow
  }

  method CreateReviewHandler(bookings: map<int, Booking>, t: ReviewTable, actor: Actor, req: ReviewRequest, now: int)
    returns (res: Result<Review>)
    requires t.Valid()
    modifies t
    ensures t.Valid()
    ensures Surfaced(res) == 500 <==> CreateReviewDecision(bookings, old(t.rows), actor, req).Deny?
    ensures CreateReviewDecision(bookings, old(t.rows), actor, req).Deny? ==>
      res == Err(CreateReviewDecision(bookings, old(t.rows), actor, req).failure)
      && t.rows == old(t.rows) && t.nextId == old(t.nextId)
    ensures CreateReviewDecision(bookings, old(t.rows), actor, req).Allow? ==>
      && res == Ok(NewReview(old(t.nextId), req, actor.id, now))
      && res.value.id !in old(t.rows)
      && t.rows == old(t.rows)[res.value.id := res.value]
      && t.nextId == old(t.nextId) + 1
  {
    var decision := CreateReviewDecision(bookings, t.rows, actor, req);
    if decision.Deny? {
      return Err(decision.failure);
    }
    var r := t.Create(req, actor.id, now);
    res := Ok(r);
  }

  /** At most one review per booking. */
  predicate OneReviewPerBooking(reviews: map<int, Review>)
  {
    forall i, j :: i in reviews && j in reviews && reviews[i].bookingId == reviews[j].bookingId ==> i == j
  }

  /** Reviews enter the table only through the create guard, which refuses
      a second review for a booking; so the table never holds two. */
  lemma CreateKeepsOneReviewPerBooking(bookings: map<int, Booking>, reviews: map<int, Review>, actor: Actor,
                                       req: ReviewRequest, id: int, now: int)
    requires OneReviewPerBooking(reviews) && id !in reviews
    requires CreateReviewDecision(bookings, reviews, actor, req).Allow?
    ensures OneReviewPerBooking(reviews[id := NewReview(id, req, actor.id, now)])
  {
  }

  /** Updating rating and comment or deleting keeps at most one review per
      booking. */
  lemma UpdateAndDeleteKeepOneReviewPerBooking(reviews: map<int, Review>, id: int, u: ReviewPatch)
    requires OneReviewPerBooking(reviews)
    ensures id in reviews ==> OneReviewPerBooking(reviews[id := Overwritten(reviews[id], u)])
    ensures OneReviewPerBooking(reviews - {id})
  {
  }

  /** update_review's guards (routes/review.py:43-47): 404 for a missing
      review, 403 unless the caller wrote it. There is no exemption for
      administrators. */
  function UpdateReviewDecision(reviews: map<int, Review>, actor: Actor, id: int): (r: Verdict)
    ensures r == Deny(NotFound) <==> id !in reviews
    ensures r.Allow? <==> id in reviews && reviews[id].userId == actor.id
    ensures r.Deny? && id in reviews ==> r == Deny(Forbidden(NotAuthor))
  {
    match Lookup(reviews, id)
    case None => Deny(NotFound)
    case Some(v) => if v.userId != actor.id then Deny(Forbidden(NotAuthor)) else Allow
  }

  method UpdateReviewHandler(t: ReviewTable, actor: Actor, id: int, u: ReviewPatch)
    returns (res: Result<Review>)
    requires t.Valid()
    modifies t
    ensures t.Valid() && t.nextId == old(t.nextId)
    ensures Surfaced(res) == 500 <==> UpdateReviewDecision(old(t.rows), actor, id).Deny?
    ensures UpdateReviewDecision(old(t.rows), actor, id).Deny? ==>
      res == Err(UpdateReviewDecision(old(t.rows), actor, id).failure) && t.rows == old(t.rows)
    ensures UpdateReviewDecision(old(t.rows), actor, id).Allow? ==>
      res == Ok(Overwritten(old(t.rows)[id], u)) && t.rows == old(t.rows)[id := res.value]
  {
    var decision := UpdateReviewDecision(t.rows, actor, id);
    if decision.Deny? {
      return Err(decision.failure);
    }
    var updated := t.Update(id, u);
    res := Ok(updated.value);
  }

  /** delete_review's guards (routes/review.py:58-65): 404 for a missing
      review; the reviewed booking is then read without a check, so a
      review whose booking is gone makes the handler raise (500); otherwise
      403 unless the caller owns that booking or is an administrator. */
  function DeleteReviewDecision(bookings: map<int, Booking>, reviews: map<int, Review>, actor: Actor, id: int)
    : (r: Verdict)
    ensures r == Deny(NotFound) <==> id !in reviews
    ensures r == Deny(Internal) <==> id in reviews && reviews[id].bookingId !in bookings
    ensures r.Allow? <==>
      id in reviews && reviews[id].bookingId in bookings
      && (bookings[reviews[id].bookingId].userId == actor.id || IsAdmin(actor))
    ensures id in reviews && reviews[id].bookingId in bookings && !r.Allow? ==> r == Deny(Forbidden(NotOwnerOrAdmin))
  {
    match Lookup(reviews, id)
    case None => Deny(NotFound)
    case Some(v) =>
      if v.bookingId !in bookings then Deny(Internal)
      else if bookings[v.bookingId].userId != actor.id && !IsAdmin(actor) then Deny(Forbidden(NotOwnerOrAdmin))
      else Allow
  }

  method DeleteReviewHandler(bookings: map<int, Booking>, t: ReviewTable, actor: Actor, id: int)
    returns (res: Result<Review>)
    requires t.Valid()
    modifies t
    ensures t.Valid() && t.nextId == old(t.nextId)
    ensures Surfaced(res) == 500 <==> DeleteReviewDecision(bookings, old(t.rows), actor, id).Deny?
    ensures DeleteReviewDecision(bookings, old(t.rows), actor, id).Deny? ==>
      res == Err(DeleteReviewDecision(bookings, old(t.rows), actor, id).failure) && t.rows == old(t.rows)
    ensures DeleteReviewDecision(bookings, old(t.rows), actor, id).Allow? ==>
      res == Ok(old(t.rows)[id]) && t.rows == old(t.rows) - {id}
  {
    var decision := DeleteReviewDecision(bookings, t.rows, actor, id);
    if decision.Deny? {
      return Err(decision.failure);
    }
    var removed := t.Delete(id);
    res := Ok(removed.value);
  }
}
