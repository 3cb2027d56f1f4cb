/** The booking table and its data-access operations (crud/crud_booking.py).
    Reads are pure functions over the table's map; create, update and delete
    are methods of `BookingTable`, which holds the rows and changes them in
    place. */
module BookingCrud {
  import opened Domain
  import opened Tables

  // ---------------------------------------------------------------------
  // Conflict detection
  // ---------------------------------------------------------------------

  /** Half-open overlap of [s1, e1) and [s2, e2): each starts before the
      other ends. */
  predicate Overlaps(s1: int, e1: int, s2: int, e2: int)
  {
    s1 < e2 && s2 < e1
  }

  lemma OverlapsSymmetric(s1: int, e1: int, s2: int, e2: int)
    ensures Overlaps(s1, e1, s2, e2) <==> Overlaps(s2, e2, s1, e1)
  {
  }

  /** The first filter of the conflict query (crud/crud_booking.py:49-56):
      rows for the service that are not cancelled and whose interval meets
      [start, end). */
  function ServiceQuery(rows: map<int, Booking>, start: int, end: int, serviceId: int): map<int, Booking>
  {
    map k | k in rows
              && rows[k].serviceId == serviceId
              && rows[k].status != Cancelled
              && rows[k].start < end && rows[k].end > start
      :: rows[k]
  }

  /** Python truthiness of the optional `booking_id` argument: `None` and 0
      are false (crud/crud_booking.py:57). */
  predicate Truthy(id: Option<int>)
  {
    id.Some? && id.value != 0
  }

  /** get_conflicting_bookings (crud/crud_booking.py:48-59): the conflict
      query, narrowed by `id != booking_id` when a truthy id is given. The
      result is a sub-table of `rows`. */
  function Conflicting(rows: map<int, Booking>, start: int, end: int, serviceId: int, exclude: Option<int>)
    : (r: map<int, Booking>)
    ensures forall k :: k in r ==> k in rows && r[k] == rows[k]
    ensures forall k :: k in r <==>
      k in rows
      && rows[k].serviceId == serviceId
      && rows[k].status != Cancelled
      && Overlaps(start, end, rows[k].start, rows[k].end)
      && !(Truthy(exclude) && k == exclude.value)
  {
    var query := ServiceQuery(rows, start, end, serviceId);
    if Truthy(exclude) then query - {exclude.value} else query
  }

  /** A non-empty result has a member (what "if conflicting_bookings:"
      tests). */
  lemma NonEmptyHasKey(m: map<int, Booking>)
    requires m != map[]
    ensures exists k :: k in m
  {
    if forall k :: k !in m {
      assert false;
    }
  }

  /** Touching intervals are never reported: a booking that ends exactly at
      the query's start, or starts exactly at its end, is not a conflict. */
  lemma TouchingNeverConflicts(rows: map<int, Booking>, start: int, end: int, serviceId: int,
                               exclude: Option<int>, k: int)
    requires k in rows && (rows[k].end == start || rows[k].start == end)
    ensures k !in Conflicting(rows, start, end, serviceId, exclude)
  {
  }

  /** A cancelled booking is never a conflict, whatever its interval. */
  lemma CancelledNeverConflicts(rows: map<int, Booking>, start: int, end: int, serviceId: int,
                                exclude: Option<int>, k: int)
    requires k in rows && rows[k].status == Cancelled
    ensures k !in Conflicting(rows, start, end, serviceId, exclude)
  {
  }

  /** The booking named by a truthy `booking_id` is never in the result. */
  lemma ExcludedNeverConflicts(rows: map<int, Booking>, start: int, end: int, serviceId: int, id: int)
    requires id != 0
    ensures id !in Conflicting(rows, start, end, serviceId, Some(id))
  {
  }

  // ---------------------------------------------------------------------
  // Listing queries
  // ---------------------------------------------------------------------

  /** The bookings of one user. */
  function OwnedBy(userId: int): Booking -> bool
  {
    (b: Booking) => b.userId == userId
  }

  /** The scan for one user finds one row per booking of that user. */
  lemma OwnedCount(rows: map<int, Booking>, hi: int, userId: int)
    requires KeysBelow(rows, hi)
    ensures |Scan(rows, OwnedBy(userId), hi)| == |set k | k in rows && rows[k].userId == userId|
  {
    ScanCount(rows, OwnedBy(userId), hi);
    assert Matching(rows, OwnedBy(userId), hi) == set k | k in rows && rows[k].userId == userId;
  }

  /** get_bookings (crud/crud_booking.py:20-22): the user's bookings in key
      order, at most `limit` of them after skipping the first `skip`. `hi`
      bounds the keys in use (the table's next id). */
  function UserBookings(rows: map<int, Booking>, hi: int, userId: int, skip: nat, limit: nat)
    : (r: seq<Booking>)
    requires KeysBelow(rows, hi)
    ensures |r| == PageSize(|set k | k in rows && rows[k].userId == userId|, skip, limit)
    ensures forall i :: 0 <= i < |r| ==> r[i].userId == userId && r[i] in rows.Values
    ensures skip == 0 && |set k | k in rows && rows[k].userId == userId| <= limit ==>
      forall k :: k in rows && rows[k].userId == userId ==> rows[k] in r
    ensures (forall k :: k in rows ==> rows[k].id == k) ==> forall i, j :: 0 <= i < j < |r| ==> r[i] != r[j]
  {
    var s := Scan(rows, OwnedBy(userId), hi);
    OwnedCount(rows, hi, userId);
    PageOfScanDistinct(rows, OwnedBy(userId), hi, skip, limit, (b: Booking) => b.id);
    Page(s, skip, limit)
  }

  /** get_all_bookings (crud/crud_booking.py:24-26): every booking in key
      order, at most `limit` of them after skipping the first `skip`. */
  function AllBookings(rows: map<int, Booking>, hi: int, skip: nat, limit: nat): (r: seq<Booking>)
    requires KeysBelow(rows, hi)
    ensures |r| == PageSize(|rows|, skip, limit)
    ensures forall i :: 0 <= i < |r| ==> r[i] in rows.Values
    ensures skip == 0 && |rows| <= limit ==> forall k :: k in rows ==> rows[k] in r
    ensures (forall k :: k in rows ==> rows[k].id == k) ==> forall i, j :: 0 <= i < j < |r| ==> r[i] != r[j]
  {
    var all := (b: Booking) => true;
    var s := Scan(rows, all, hi);
    ScanCount(rows, all, hi);
    assert Matching(rows, all, hi) == rows.Keys;
    PageOfScanDistinct(rows, all, hi, skip, limit, (b: Booking) => b.id);
    Page(s, skip, limit)
  }

  // ---------------------------------------------------------------------
  // Partial update
  // ---------------------------------------------------------------------

  /** One `(key, value)` item of `booking.dict(exclude_unset=True)`. */
  datatype BookingField = StartField(t: int) | EndField(t: int) | StatusField(s: Status)

  /** The items of the PATCH payload that were supplied, in schema order
      (crud/crud_booking.py:32). */
  function SuppliedFields(u: BookingPatch): seq<BookingField>
  {
    (if u.start.Some? then [StartField(u.start.value)] else [])
    + (if u.end.Some? then [EndField(u.end.value)] else [])
    + (if u.status.Some? then [StatusField(u.status.value)] else [])
  }

  /** `setattr(db_booking, key, value)` for one item. */
  function SetField(b: Booking, f: BookingField): Booking
  {
    match f
    case StartField(t) => b.(start := t)
    case EndField(t) => b.(end := t)
    case StatusField(s) => b.(status := s)
  }

  /** The record after the `setattr` loop has run over `fs`. */
  function AssignAll(b: Booking, fs: seq<BookingField>): Booking
    decreases |fs|
  {
    if |fs| == 0 then b else SetField(AssignAll(b, fs[..|fs| - 1]), fs[|fs| - 1])
  }

  /** The intended meaning of a partial update, field by field: a supplied
      field takes its new value, every other field keeps its old one. */
  function Patched(b: Booking, u: BookingPatch): (p: Booking)
  {
    Booking(b.id, b.userId, b.serviceId,
            if u.start.Some? then u.start.value else b.start,
            if u.end.Some? then u.end.value else b.end,
            if u.status.Some? then u.status.value else b.status,
            b.createdAt)
  }

  /** Running the loop one item further assigns that item last. */
  lemma AssignAllSnoc(b: Booking, fs: seq<BookingField>, f: BookingField)
    ensures AssignAll(b, fs + [f]) == SetField(AssignAll(b, fs), f)
  {
    assert (fs + [f])[..|fs|] == fs;
  }

  /** The loop over the supplied items computes exactly the patched record. */
  lemma AssignSuppliedIsPatched(b: Booking, u: BookingPatch)
    ensures AssignAll(b, SuppliedFields(u)) == Patched(b, u)
  {
    var a := if u.start.Some? then [StartField(u.start.value)] else [];
    var e := if u.end.Some? then [EndField(u.end.value)] else [];
    var s := if u.status.Some? then [StatusField(u.status.value)] else [];
    assert SuppliedFields(u) == a + e + s;
    if u.start.Some? { AssignAllSnoc(b, [], StartField(u.start.value)); assert [] + a == a; }
    if u.end.Some? { AssignAllSnoc(b, a, EndField(u.end.value)); }
    if u.status.Some? { AssignAllSnoc(b, a + e, StatusField(u.status.value)); }
    assert AssignAll(b, a + e + s) == Patched(b, u) by {
      if s == [] { assert a + e + s == a + e; }
      if e == [] { assert a + e == a; }
    }
  }

  /** A partial update leaves every unsupplied field, and the identity,
      owner, service and creation time, exactly as they were. */
  lemma PatchedKeepsUnsupplied(b: Booking, u: BookingPatch)
    ensures Patched(b, u).id == b.id && Patched(b, u).userId == b.userId
    ensures Patched(b, u).serviceId == b.serviceId && Patched(b, u).createdAt == b.createdAt
    ensures u.start.None? ==> Patched(b, u).start == b.start
    ensures u.end.None? ==> Patched(b, u).end == b.end
    ensures u.status.None? ==> Patched(b, u).status == b.status
    ensures u == BookingPatch(None, None, None) ==> Patched(b, u) == b
  {
  }

  /** The `setattr` loop of update_booking (crud/crud_booking.py:33-34),
      run over a copy of the row: each item is assigned in turn. */
  method AssignItems(current: Booking, items: seq<BookingField>) returns (b: Booking)
    ensures b == AssignAll(current, items)
  {
    b := current;
    var i := 0;
    while i < |items|
      invariant 0 <= i <= |items|
      invariant b == AssignAll(current, items[..i])
    {
      assert items[..i + 1] == items[..i] + [items[i]];
      AssignAllSnoc(current, items[..i], items[i]);
      b := SetField(b, items[i]);
      i := i + 1;
    }
    assert items[..|items|] == items;
  }

  /** The update of one row: the loop over the supplied items leaves the
      patched record. */
  method ApplyPatch(current: Booking, u: BookingPatch) returns (b: Booking)
    ensures b == Patched(current, u)
  {
    b := AssignItems(current, SuppliedFields(u));
    AssignSuppliedIsPatched(current, u);
  }

  // ---------------------------------------------------------------------
  // The table
  // ---------------------------------------------------------------------

  class BookingTable {
    var rows: map<int, Booking>
    var nextId: int

    ghost predicate Valid()
      reads this
    {
      WellKeyed(rows, nextId, (b: Booking) => b.id)
    }

    constructor ()
      ensures Valid() && rows == map[] && nextId == 1
    {
      rows := map[];
      nextId := 1;
    }

    /** create_booking (crud/crud_booking.py:8-14): a new row from the
        request, with a fresh id, status pending (models/booking.py:21) and
        creation time `now`. */
    method Create(req: BookingRequest, now: int) returns (b: Booking)
      requires Valid()
      modifies this
      ensures Valid()
      ensures b == Booking(old(nextId), req.userId, req.serviceId, req.start, req.end, Pending, now)
      ensures b.id !in old(rows) && rows == old(rows)[b.id := b]
      ensures nextId == old(nextId) + 1
    {
      b := Booking(nextId, req.userId, req.serviceId, req.start, req.end, Pending, now);
      rows := rows[nextId := b];
      nextId := nextId + 1;
    }

    /** update_booking (crud/crud_booking.py:28-37): look the row up and
        assign each supplied field in turn. A missing id changes nothing. */
    method Update(id: int, u: BookingPatch) returns (r: Option<Booking>)
      requires Valid()
      modifies this
      ensures Valid() && nextId == old(nextId)
      ensures id in old(rows) ==> r == Some(Patched(old(rows)[id], u)) && rows == old(rows)[id := r.value]
      ensures id !in old(rows) ==> r == None && rows == old(rows)
    {
      if id !in rows {
        return None;
      }
      var b := ApplyPatch(rows[id], u);
      rows := rows[id := b];
      r := Some(b);
    }

    /** delete_booking (crud/crud_booking.py:39-45): remove the row and
        hand it back; a missing id changes nothing. */
    method Delete(id: int) returns (r: Option<Booking>)
      requires Valid()
      modifies this
      ensures Valid() && nextId == old(nextId)
      ensures r == Lookup(old(rows), id)
      ensures rows == old(rows) - {id}
      ensures id !in old(rows) ==> rows == old(rows)
    {
      r := Lookup(rows, id);
      rows := rows - {id};
    }
  }
}
