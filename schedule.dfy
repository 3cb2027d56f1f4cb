/** The ledger's scheduling invariants: no two active bookings of one
    service overlap, and every interval is non-empty. This module proves
    which handler steps keep them, exhibits the steps of the code that do
    not, and gives corrected guards that keep them always. */
module Schedule {
  import opened Domain
  import opened Tables
  import opened BookingCrud
  import opened BookingRoutes

  predicate Active(b: Booking)
  {
    b.status != Cancelled
  }

  /** No two active bookings of the same service overlap (half-open test). */
  predicate NoOverlap(rows: map<int, Booking>)
  {
    forall i, j :: i in rows && j in rows && i != j
      && rows[i].serviceId == rows[j].serviceId && Active(rows[i]) && Active(rows[j])
      ==> !Overlaps(rows[i].start, rows[i].end, rows[j].start, rows[j].end)
  }

  /** Every booking starts strictly before it ends. */
  predicate ValidIntervals(rows: map<int, Booking>)
  {
    forall k :: k in rows ==> rows[k].start < rows[k].end
  }

  predicate Consistent(rows: map<int, Booking>)
  {
    NoOverlap(rows) && ValidIntervals(rows)
  }

  /** Writing `b` under a key whose active same-service neighbours it does
      not overlap keeps the no-overlap invariant. The body spells out the
      three cases of a pair: the new row first, the new row second, or
      neither. */
  lemma PutKeepsNoOverlap(rows: map<int, Booking>, id: int, b: Booking)
    requires NoOverlap(rows)
    requires forall k :: k in rows && k != id && rows[k].serviceId == b.serviceId && Active(rows[k]) && Active(b)
               ==> !Overlaps(b.start, b.end, rows[k].start, rows[k].end)
    ensures NoOverlap(rows[id := b])
  {
    var next := rows[id := b];
    forall i, j | i in next && j in next && i != j
      && next[i].serviceId == next[j].serviceId && Active(next[i]) && Active(next[j])
      ensures !Overlaps(next[i].start, next[i].end, next[j].start, next[j].end)
    {
      if i == id {
        assert next[j] == rows[j];
      } else if j == id {
        assert next[i] == rows[i];
        OverlapsSymmetric(b.start, b.end, rows[i].start, rows[i].end);
      } else {
        assert next[i] == rows[i] && next[j] == rows[j];
      }
    }
  }

  // ---------------------------------------------------------------------
  // What the code does guarantee
  // ---------------------------------------------------------------------

  /** A booking the create handler accepts overlaps no active booking of its
      service, so creation keeps the invariant. */
  lemma CreateKeepsNoOverlap(rows: map<int, Booking>, actor: Actor, req: BookingRequest, id: int, now: int)
    requires NoOverlap(rows) && id !in rows
    requires CreateDecision(rows, actor, req).Ok?
    ensures NoOverlap(rows[id := Booking(id, actor.id, req.serviceId, req.start, req.end, Pending, now)])
  {
    PutKeepsNoOverlap(rows, id, Booking(id, actor.id, req.serviceId, req.start, req.end, Pending, now));
  }

  /** Removing a booking keeps the invariant. */
  lemma DeleteKeepsNoOverlap(rows: map<int, Booking>, id: int)
    requires NoOverlap(rows)
    ensures NoOverlap(rows - {id})
  {
  }

  /** The update leaves a cancelled booking active again. */
  predicate Reactivates(b: Booking, u: BookingPatch)
  {
    b.status == Cancelled && u.status.Some? && u.status.value != Cancelled
  }

  /** An allowed update keeps the invariant when it is a full reschedule
      (then the conflict check ran) or when it moves neither time and does
      not bring a cancelled booking back. */
  lemma UpdateKeepsNoOverlap(rows: map<int, Booking>, actor: Actor, id: int, u: BookingPatch)
    requires NoOverlap(rows)
    requires UpdateDecision(rows, actor, id, u).Allow?
    requires Reschedules(u) || (u.start.None? && u.end.None? && !Reactivates(rows[id], u))
    ensures NoOverlap(rows[id := Patched(rows[id], u)])
  {
    var p := Patched(rows[id], u);
    if !Reschedules(u) {
      forall k | k in rows && k != id && rows[k].serviceId == p.serviceId && Active(rows[k]) && Active(p)
        ensures !Overlaps(p.start, p.end, rows[k].start, rows[k].end)
      {
        assert Active(rows[id]);
      }
    }
    PutKeepsNoOverlap(rows, id, p);
  }

  // ---------------------------------------------------------------------
  // Where the code does not
  // ---------------------------------------------------------------------

  /** Two back-to-back bookings of user 7 on service 1. */
  function BackToBack(): map<int, Booking>
  {
    map[1 := Booking(1, 7, 1, 0, 10, Pending, 0), 2 := Booking(2, 7, 1, 10, 20, Pending, 0)]
  }

  /** An administrator moving only the start of booking 2 back to 5 skips
      the conflict check (it runs only when both times are sent) and leaves two overlapping
      active bookings. */
  lemma PartialRescheduleBreaksNoOverlap()
    ensures NoOverlap(BackToBack())
    ensures UpdateDecision(BackToBack(), Actor(9, Admin), 2, BookingPatch(Some(5), None, None)) == Allow
    ensures !NoOverlap(BackToBack()[2 := Patched(BackToBack()[2], BookingPatch(Some(5), None, None))])
  {
    var next := BackToBack()[2 := Patched(BackToBack()[2], BookingPatch(Some(5), None, None))];
    assert next[1].start < next[2].end && next[2].start < next[1].end;
  }

  /** A cancelled booking and an active one on the same interval. */
  function CancelledTwin(): map<int, Booking>
  {
    map[1 := Booking(1, 7, 1, 0, 10, Cancelled, 0), 2 := Booking(2, 8, 1, 0, 10, Pending, 0)]
  }

  /** An administrator setting the cancelled twin back to pending meets no
      conflict check and leaves two overlapping active bookings. */
  lemma ReactivationBreaksNoOverlap()
    ensures NoOverlap(CancelledTwin())
    ensures UpdateDecision(CancelledTwin(), Actor(9, Admin), 1, BookingPatch(None, None, Some(Pending))) == Allow
    ensures !NoOverlap(CancelledTwin()[1 := Patched(CancelledTwin()[1], BookingPatch(None, None, Some(Pending)))])
  {
    var next := CancelledTwin()[1 := Patched(CancelledTwin()[1], BookingPatch(None, None, Some(Pending)))];
    assert Active(next[1]) && Active(next[2]);
  }

  /** Neither create nor update checks that the start precedes the end:
      on an empty ledger the inverted interval [10, 5) is accepted. */
  lemma InvertedIntervalAccepted(actor: Actor, now: int)
    ensures CreateDecision(map[], actor, BookingRequest(actor.id, 1, 10, 5)).Ok?
    ensures !ValidIntervals(map[1 := Booking(1, actor.id, 1, 10, 5, Pending, now)])
  {
    var next := map[1 := Booking(1, actor.id, 1, 10, 5, Pending, now)];
    assert next[1].start >= next[1].end;
  }

  // ---------------------------------------------------------------------
  // Corrected guards
  // ---------------------------------------------------------------------

  /** Create, refusing an empty or inverted interval before the conflict
      check. */
  function CheckedCreateDecision(rows: map<int, Booking>, actor: Actor, req: BookingRequest)
    : (r: Result<BookingRequest>)
    ensures r.Ok? ==> r == CreateDecision(rows, actor, req) && req.start < req.end
    ensures req.start < req.end ==> r == CreateDecision(rows, actor, req)
  {
    if req.start >= req.end then Err(InvalidInterval) else CreateDecision(rows, actor, req)
  }

  /** Update, judging the record as it would be after the patch: its
      interval must be non-empty and, when it ends up active, must clear
      every other active booking of the service, whichever fields were
      sent. */
  function CheckedUpdateDecision(rows: map<int, Booking>, actor: Actor, id: int, u: BookingPatch): (r: Verdict)
    ensures r == Deny(NotFound) <==> id !in rows
    ensures r.Allow? ==> id in rows && RolePermits(actor, rows[id], u)
    ensures r.Allow? ==> Patched(rows[id], u).start < Patched(rows[id], u).end
    ensures r.Allow? && Active(Patched(rows[id], u)) ==>
      forall k :: k in rows && k != id && rows[k].serviceId == rows[id].serviceId && Active(rows[k])
        ==> !Overlaps(Patched(rows[id], u).start, Patched(rows[id], u).end, rows[k].start, rows[k].end)
    ensures id in rows && id != 0 && RolePermits(actor, rows[id], u)
      && Patched(rows[id], u).start < Patched(rows[id], u).end
      && (Active(Patched(rows[id], u)) ==>
            forall k :: k in rows && k != id && rows[k].serviceId == rows[id].serviceId && Active(rows[k])
              ==> !Overlaps(Patched(rows[id], u).start, Patched(rows[id], u).end, rows[k].start, rows[k].end))
      ==> r == Allow
  {
    match Lookup(rows, id)
    case None => Deny(NotFound)
    case Some(b) =>
      var policy := UpdatePolicy(actor, b, u);
      var p := Patched(b, u);
      if policy.Deny? then policy
      else if p.start >= p.end then Deny(InvalidInterval)
      else if Active(p) && Conflicting(rows, p.start, p.end, b.serviceId, Some(id)) != map[] then Deny(Conflict)
      else
        assert Active(p) ==> forall k :: k in rows && k != id ==> k !in Conflicting(rows, p.start, p.end, b.serviceId, Some(id));
        Allow
  }

  lemma CheckedCreateKeepsConsistent(rows: map<int, Booking>, actor: Actor, req: BookingRequest, id: int, now: int)
    requires Consistent(rows) && id !in rows
    requires CheckedCreateDecision(rows, actor, req).Ok?
    ensures Consistent(rows[id := Booking(id, actor.id, req.serviceId, req.start, req.end, Pending, now)])
  {
    CreateKeepsNoOverlap(rows, actor, req, id, now);
  }

  /** With the corrected guard every allowed update keeps both invariants:
      partial reschedules and reactivations included. */
  lemma CheckedUpdateKeepsConsistent(rows: map<int, Booking>, actor: Actor, id: int, u: BookingPatch)
    requires Consistent(rows)
    requires CheckedUpdateDecision(rows, actor, id, u).Allow?
    ensures Consistent(rows[id := Patched(rows[id], u)])
  {
    PutKeepsNoOverlap(rows, id, Patched(rows[id], u));
  }
}
