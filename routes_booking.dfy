/** The booking request handlers (routes/booking.py). Each handler is a
    sequential guard chain; the chain is a pure decision function over the
    caller, the table and the request, and a handler method applies the
    decision to a `BookingTable`. */
module BookingRoutes {
  import opened Domain
  import opened Tables
  import opened BookingCrud

  /** Page size the list handler inherits from the CRUD defaults. */
  const DefaultLimit: nat := 100

  // ---------------------------------------------------------------------
  // Create
  // ---------------------------------------------------------------------

  /** create_booking's guard (routes/booking.py:24-34): refuse with 409 when
      any booking conflicts with the requested interval on that service;
      otherwise the request goes to the table with its owner replaced by the
      caller. */
  function CreateDecision(rows: map<int, Booking>, actor: Actor, req: BookingRequest)
    : (r: Result<BookingRequest>)
    ensures r.Err? ==> r.failure == Conflict
    ensures r.Ok? <==> forall k :: k in rows && rows[k].serviceId == req.serviceId && rows[k].status != Cancelled
                                   ==> !Overlaps(req.start, req.end, rows[k].start, rows[k].end)
    ensures r.Ok? ==> r.value.userId == actor.id
    ensures r.Ok? ==> r.value.serviceId == req.serviceId && r.value.start == req.start && r.value.end == req.end
  {
    var clash := Conflicting(rows, req.start, req.end, req.serviceId, None);
    if clash != map[] then
      NonEmptyHasKey(clash);
      Err(Conflict)
    else
      assert forall k :: k in rows ==> k !in clash;
      Ok(req.(userId := actor.id))
  }

  /** The identical interval submitted twice is refused the second time. */
  lemma ResubmissionConflicts(rows: map<int, Booking>, actor: Actor, req: BookingRequest, k: int)
    requires k in rows && rows[k].serviceId == req.serviceId && rows[k].status != Cancelled
    requires rows[k].start == req.start && rows[k].end == req.end && req.start < req.end
    ensures CreateDecision(rows, actor, req) == Err(Conflict)
  {
  }

  method CreateBookingHandler(t: BookingTable, actor: Actor, req: BookingRequest, now: int)
    returns (res: Result<Booking>)
    requires t.Valid()
    modifies t
    ensures t.Valid()
    ensures Surfaced(res) == 500 <==> CreateDecision(old(t.rows), actor, req).Err?
    ensures CreateDecision(old(t.rows), actor, req).Err? ==>
      res == Err(Conflict) && t.rows == old(t.rows) && t.nextId == old(t.nextId)
    ensures CreateDecision(old(t.rows), actor, req).Ok? ==>
      && res.Ok?
      && res.value == Booking(old(t.nextId), actor.id, req.serviceId, req.start, req.end, Pending, now)
      && res.value.id !in old(t.rows)
      && t.rows == old(t.rows)[res.value.id := res.value]
      && t.nextId == old(t.nextId) + 1
  {
    var decision := CreateDecision(t.rows, actor, req);
    if decision.Err? {
      return Err(decision.failure);
    }
    var b := t.Create(decision.value, now);
    res := Ok(b);
  }

  // ---------------------------------------------------------------------
  // Read
  // ---------------------------------------------------------------------

  /** get_booking (routes/booking.py:76-82): 404 for a missing id, then 403
      unless the caller owns the booking or is an administrator. */
  function ReadDecision(rows: map<int, Booking>, actor: Actor, id: int): (r: Result<Booking>)
    ensures r == Err(NotFound) <==> id !in rows
    ensures r == Err(Forbidden(NotOwnerOrAdmin)) <==>
      id in rows && rows[id].userId != actor.id && !IsAdmin(actor)
    ensures r.Ok? <==> id in rows && (rows[id].userId == actor.id || IsAdmin(actor))
    ensures r.Ok? ==> r.value == rows[id]
  {
    match Lookup(rows, id)
    case None => Err(NotFound)
    case Some(b) =>
      if !IsAdmin(actor) && b.userId != actor.id then Err(Forbidden(NotOwnerOrAdmin)) else Ok(b)
  }

  /** get_bookings (routes/booking.py:43-60): an administrator sees every
      booking, anyone else only their own; the first page of 100. */
  function ListDecision(rows: map<int, Booking>, hi: int, actor: Actor): (r: seq<Booking>)
    requires KeysBelow(rows, hi)
    ensures forall i :: 0 <= i < |r| ==> r[i] in rows.Values
    ensures IsAdmin(actor) ==> |r| == PageSize(|rows|, 0, DefaultLimit)
    ensures !IsAdmin(actor) ==>
      && (forall i :: 0 <= i < |r| ==> r[i].userId == actor.id)
      && |r| == PageSize(|set k | k in rows && rows[k].userId == actor.id|, 0, DefaultLimit)
    ensures |r| <= DefaultLimit
    ensures |r| < DefaultLimit ==>
      forall k :: k in rows && (IsAdmin(actor) || rows[k].userId == actor.id) ==> rows[k] in r
    ensures (forall k :: k in rows ==> rows[k].id == k) ==> forall i, j :: 0 <= i < j < |r| ==> r[i] != r[j]
  {
    if IsAdmin(actor) then AllBookings(rows, hi, 0, DefaultLimit)
    else UserBookings(rows, hi, actor.id, 0, DefaultLimit)
  }

  // ---------------------------------------------------------------------
  // Update
  // ---------------------------------------------------------------------

  predicate StatusIn(u: BookingPatch, allowed: set<Status>)
  {
    u.status.Some? ==> u.status.value in allowed
  }

  /** The role rules for a PATCH, stated one role at a time: the caller must
      own the booking or be an administrator; an owner may touch only a
      pending or confirmed booking and may only ask for pending or
      cancelled; an administrator may only ask for pending, confirmed or
      cancelled. A caller with both roles is bound by both. */
  predicate RolePermits(actor: Actor, b: Booking, u: BookingPatch)
  {
    var isOwner := b.userId == actor.id;
    && (isOwner || IsAdmin(actor))
    && (isOwner ==> b.status in {Pending, Confirmed} && StatusIn(u, {Pending, Cancelled}))
    && (IsAdmin(actor) ==> StatusIn(u, {Pending, Confirmed, Cancelled}))
  }

  /** The authorization part of update_booking (routes/booking.py:104-118),
      in the code's order; the first failing check names the denial. */
  function UpdatePolicy(actor: Actor, b: Booking, u: BookingPatch): (r: Verdict)
    ensures r.Allow? <==> RolePermits(actor, b, u)
    ensures r.Deny? ==> r.failure.Forbidden?
    ensures b.userId != actor.id && !IsAdmin(actor) ==> r == Deny(Forbidden(NotOwnerOrAdmin))
    ensures b.userId == actor.id && b.status in {Cancelled, Completed} ==> r == Deny(Forbidden(StatusLocked))
    ensures r.Allow? ==> u.status != Some(Completed)
  {
    var isOwner := b.userId == actor.id;
    var isAdmin := IsAdmin(actor);
    if !isOwner && !isAdmin then
      Deny(Forbidden(NotOwnerOrAdmin))
    else if isOwner && b.status !in {Pending, Confirmed} then
      Deny(Forbidden(StatusLocked))
    else if isOwner && u.status.Some? && u.status.value !in {Pending, Cancelled} then
      Deny(Forbidden(OwnerStatusNotAllowed))
    else if isAdmin && u.status.Some? && u.status.value !in {Pending, Confirmed, Cancelled} then
      Deny(Forbidden(AdminStatusNotAllowed))
    else
      Allow
  }

  /** A full reschedule: both new times supplied (routes/booking.py:121). */
  predicate Reschedules(u: BookingPatch)
  {
    u.start.Some? && u.end.Some?
  }

  /** update_booking's whole guard chain (routes/booking.py:100-130): 404,
      then the role rules, then, only on a full reschedule, the conflict
      check against the other bookings of the same service. */
  function UpdateDecision(rows: map<int, Booking>, actor: Actor, id: int, u: BookingPatch): (r: Verdict)
    ensures r == Deny(NotFound) <==> id !in rows
    ensures id in rows && !RolePermits(actor, rows[id], u) ==> r == UpdatePolicy(actor, rows[id], u)
    ensures r.Allow? ==> id in rows && RolePermits(actor, rows[id], u)
    ensures r.Allow? ==> u.status != Some(Completed)
    ensures r == Deny(Conflict) ==> Reschedules(u)
    ensures id in rows && RolePermits(actor, rows[id], u) && Reschedules(u) ==>
      && (r == Deny(Conflict) <==> Conflicting(rows, u.start.value, u.end.value, rows[id].serviceId, Some(id)) != map[])
      && (r.Allow? <==> Conflicting(rows, u.start.value, u.end.value, rows[id].serviceId, Some(id)) == map[])
    ensures r.Allow? && Reschedules(u) ==>
      forall k :: k in rows && k != id && rows[k].serviceId == rows[id].serviceId && rows[k].status != Cancelled
        ==> !Overlaps(u.start.value, u.end.value, rows[k].start, rows[k].end)
    ensures id in rows && RolePermits(actor, rows[id], u) && !Reschedules(u) ==> r.Allow?
  {
    match Lookup(rows, id)
    case None => Deny(NotFound)
    case Some(b) =>
      var policy := UpdatePolicy(actor, b, u);
      if policy.Deny? then policy
      else if Reschedules(u) && Conflicting(rows, u.start.value, u.end.value, b.serviceId, Some(id)) != map[] then
        Deny(Conflict)
      else
        assert Reschedules(u) ==> forall k :: k in rows ==> k !in Conflicting(rows, u.start.value, u.end.value, b.serviceId, Some(id));
        Allow
  }

  /** Rescheduling a booking onto an interval that overlaps only its own
      old interval is allowed: the check leaves the booking itself out. */
  lemma RescheduleIgnoresSelf(rows: map<int, Booking>, actor: Actor, id: int, u: BookingPatch)
    requires id in rows && id != 0 && RolePermits(actor, rows[id], u) && Reschedules(u)
    requires forall k :: k in rows && k != id ==> rows[k].serviceId != rows[id].serviceId
    ensures UpdateDecision(rows, actor, id, u) == Allow
  {
    assert Conflicting(rows, u.start.value, u.end.value, rows[id].serviceId, Some(id)) == map[];
  }

  method UpdateBookingHandler(t: BookingTable, actor: Actor, id: int, u: BookingPatch)
    returns (res: Result<Booking>)
    requires t.Valid()
    modifies t
    ensures t.Valid() && t.nextId == old(t.nextId)
    ensures Surfaced(res) == 500 <==> UpdateDecision(old(t.rows), actor, id, u).Deny?
    ensures UpdateDecision(old(t.rows), actor, id, u).Deny? ==>
      res == Err(UpdateDecision(old(t.rows), actor, id, u).failure) && t.rows == old(t.rows)
    ensures UpdateDecision(old(t.rows), actor, id, u).Allow? ==>
      res == Ok(Patched(old(t.rows)[id], u)) && t.rows == old(t.rows)[id := res.value]
  {
    var decision := UpdateDecision(t.rows, actor, id, u);
    if decision.Deny? {
      return Err(decision.failure);
    }
    var updated := t.Update(id, u);
    res := Ok(updated.value);
  }

  // ---------------------------------------------------------------------
  // Delete
  // ---------------------------------------------------------------------

  /** delete_booking's guard chain (routes/booking.py:152-163): 404, then
      403 for a caller who is neither owner nor administrator, then 403 for
      an owner once the start time has been reached; `now` stands for the
      clock reading. */
  function DeleteDecision(rows: map<int, Booking>, actor: Actor, id: int, now: int): (r: Verdict)
    ensures r == Deny(NotFound) <==> id !in rows
    ensures r.Allow? <==>
      id in rows && (rows[id].userId == actor.id || IsAdmin(actor)) && (rows[id].userId == actor.id ==> now < rows[id].start)
    ensures id in rows && rows[id].userId != actor.id && IsAdmin(actor) ==> r.Allow?
    ensures id in rows && rows[id].userId == actor.id && now >= rows[id].start ==> r == Deny(Forbidden(AlreadyStarted))
    ensures r.Deny? && id in rows ==> r.failure.Forbidden?
  {
    match Lookup(rows, id)
    case None => Deny(NotFound)
    case Some(b) =>
      var isOwner := b.userId == actor.id;
      if !isOwner && !IsAdmin(actor) then Deny(Forbidden(NotOwnerOrAdmin))
      else if isOwner && now >= b.start then Deny(Forbidden(AlreadyStarted))
      else Allow
  }

  method DeleteBookingHandler(t: BookingTable, actor: Actor, id: int, now: int)
    returns (res: Result<Booking>)
    requires t.Valid()
    modifies t
    ensures t.Valid() && t.nextId == old(t.nextId)
    ensures Surfaced(res) == 500 <==> DeleteDecision(old(t.rows), actor, id, now).Deny?
    ensures DeleteDecision(old(t.rows), actor, id, now).Deny? ==>
      res == Err(DeleteDecision(old(t.rows), actor, id, now).failure) && t.rows == old(t.rows)
    ensures DeleteDecision(old(t.rows), actor, id, now).Allow? ==>
      res == Ok(old(t.rows)[id]) && t.rows == old(t.rows) - {id}
  {
    var decision := DeleteDecision(t.rows, actor, id, now);
    if decision.Deny? {
      return Err(decision.failure);
    }
    var removed := t.Delete(id);
    res := Ok(removed.value);
  }
}
