/** The review table and its data-access operations (crud/crud_review.py).
    `ReviewTable` holds the rows and changes them in place; the lookups are
    pure functions over its map. */
module ReviewCrud {
  import opened Domain
  import opened Tables

  /** The record create_review builds (crud/crud_review.py:9): the request's
      booking, rating and comment plus the author id. */
  function NewReview(id: int, req: ReviewRequest, userId: int, now: int): (r: Review)
    ensures r.id == id && r.bookingId == req.bookingId && r.userId == userId
    ensures r.rating == Some(req.rating) && r.comment == Some(req.comment)
  {
    Review(id, req.bookingId, userId, Some(req.rating), Some(req.comment), now)
  }

  /** get_reviews_by_service (crud/crud_review.py:19-21): the reviews joined
      to their booking, kept when that booking is for the service. A review
      whose booking row is gone drops out of the inner join. */
  function ReviewsByService(rows: map<int, Review>, hi: int, bookings: map<int, Booking>, serviceId: int)
    : (r: seq<Review>)
    requires KeysBelow(rows, hi)
    ensures forall i :: 0 <= i < |r| ==>
      r[i] in rows.Values && r[i].bookingId in bookings && bookings[r[i].bookingId].serviceId == serviceId
    ensures forall k ::
      (k in rows && rows[k].bookingId in bookings && bookings[rows[k].bookingId].serviceId == serviceId)
      ==> rows[k] in r
    ensures |r| == |set k | k in rows && rows[k].bookingId in bookings && bookings[rows[k].bookingId].serviceId == serviceId|
  {
    var keep := (v: Review) => v.bookingId in bookings && bookings[v.bookingId].serviceId == serviceId;
    ScanCount(rows, keep, hi);
    assert Matching(rows, keep, hi) ==
      set k | k in rows && rows[k].bookingId in bookings && bookings[rows[k].bookingId].serviceId == serviceId;
    Scan(rows, keep, hi)
  }

  /** One `(key, value)` item of `review.dict()`. */
  datatype ReviewField = RatingField(rating: Option<int>) | CommentField(comment: Option<string>)

  /** `review.dict()` without `exclude_unset`: every field of the payload,
      sent or not (crud/crud_review.py:27). */
  function UpdateItems(u: ReviewPatch): seq<ReviewField>
  {
    [RatingField(u.rating), CommentField(u.comment)]
  }

  /** `setattr(db_review, key, value)` for one item. */
  function SetField(r: Review, f: ReviewField): Review
  {
    match f
    case RatingField(v) => r.(rating := v)
    case CommentField(v) => r.(comment := v)
  }

  /** The record after the `setattr` loop has run over `fs`. */
  function AssignAll(r: Review, fs: seq<ReviewField>): Review
    decreases |fs|
  {
    if |fs| == 0 then r else SetField(AssignAll(r, fs[..|fs| - 1]), fs[|fs| - 1])
  }

  /** What update_review leaves behind: rating and comment replaced by the
      payload's, whatever it holds, and nothing else touched. */
  function Overwritten(r: Review, u: ReviewPatch): Review
  {
    Review(r.id, r.bookingId, r.userId, u.rating, u.comment, r.createdAt)
  }

  lemma AssignItemsIsOverwritten(r: Review, u: ReviewPatch)
    ensures AssignAll(r, UpdateItems(u)) == Overwritten(r, u)
  {
    var items := UpdateItems(u);
    var first := items[..1];
    assert first == [RatingField(u.rating)] && first[..0] == [];
    assert AssignAll(r, first) == r.(rating := u.rating);
    assert AssignAll(r, items) == SetField(AssignAll(r, first), CommentField(u.comment));
  }

  /** The overwrite quirk: a field left out of the PATCH body is cleared,
      not kept; identity, booking, author and creation time never change. */
  lemma OverwriteClearsUnset(r: Review, u: ReviewPatch)
    ensures u.rating.None? ==> Overwritten(r, u).rating.None?
    ensures u.comment.None? ==> Overwritten(r, u).comment.None?
    ensures Overwritten(r, u).id == r.id && Overwritten(r, u).bookingId == r.bookingId
    ensures Overwritten(r, u).userId == r.userId && Overwritten(r, u).createdAt == r.createdAt
  {
  }

  /** The `setattr` loop of update_review (crud/crud_review.py:27-28), run
      over a copy of the row: every item of the payload is assigned in turn. */
  method ApplyUpdate(current: Review, u: ReviewPatch) returns (v: Review)
    ensures v == Overwritten(current, u)
  {
    v := current;
    var items := UpdateItems(u);
    var i := 0;
    while i < |items|
      invariant 0 <= i <= |items|
      invariant v == AssignAll(current, items[..i])
    {
      assert items[..i + 1][..i] == items[..i];
      v := SetField(v, items[i]);
      i := i + 1;
    }
    assert items[..|items|] == items;
    AssignItemsIsOverwritten(current, u);
  }

  class ReviewTable {
    var rows: map<int, Review>
    var nextId: int

    ghost predicate Valid()
      reads this
    {
      WellKeyed(rows, nextId, (r: Review) => r.id)
    }

    constructor ()
      ensures Valid() && rows == map[] && nextId == 1
    {
      rows := map[];
      nextId := 1;
    }

    /** create_review (crud/crud_review.py:7-13). */
    method Create(req: ReviewRequest, userId: int, now: int) returns (r: Review)
      requires Valid()
      modifies this
      ensures Valid()
      ensures r == NewReview(old(nextId), req, userId, now)
      ensures r.id !in old(rows) && rows == old(rows)[r.id := r]
      ensures nextId == old(nextId) + 1
    {
      r := NewReview(nextId, req, userId, now);
      rows := rows[nextId := r];
      nextId := nextId + 1;
    }

    /** update_review (crud/crud_review.py:23-31): assign every item of the
        payload in turn; a missing id changes nothing. */
    method Update(id: int, u: ReviewPatch) returns (r: Option<Review>)
      requires Valid()
      modifies this
      ensures Valid() && nextId == old(nextId)
      ensures id in old(rows) ==> r == Some(Overwritten(old(rows)[id], u)) && rows == old(rows)[id := r.value]
      ensures id !in old(rows) ==> r == None && rows == old(rows)
    {
      if id !in rows {
        return None;
      }
      var v := ApplyUpdate(rows[id], u);
      rows := rows[id := v];
      r := Some(v);
    }

    /** delete_review (crud/crud_review.py:33-39). */
    method Delete(id: int) returns (r: Option<Review>)
      requires Valid()
      modifies this
      ensures Valid() && nextId == old(nextId)
      ensures r == Lookup(old(rows), id)
      ensures rows == old(rows) - {id}
    {
      r := Lookup(rows, id);
      rows := rows - {id};
    }
  }
}
