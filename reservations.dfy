/** The booking rules of backend/controllers/reservationController.js: the
    date and overlap checks and the price of a new booking, the host's
    status update, and the guest's and host's reservation lists. The writes
    themselves are the methods of Store.Store; this module holds the rules
    they follow and what those rules guarantee. */
module Reservations {
  import opened Query
  import opened Tables

  /** The overlap test of the conflict query: the existing stay starts
      before the requested end and ends after the requested start. Both
      comparisons are strict, so stays are half-open ranges of days. */
  predicate Overlaps(r: Reservation, start: Day, end: Day) {
    r.startDate < end && r.endDate > start
  }

  /** `r` is a row the conflict query returns for this request. */
  predicate Blocks(r: Reservation, propertyId: Id, start: Day, end: Day) {
    r.propertyId == propertyId && r.status != Cancelled && Overlaps(r, start, end)
  }

  predicate HasConflict(rs: seq<Reservation>, propertyId: Id, start: Day, end: Day) {
    exists i :: 0 <= i < |rs| && Blocks(rs[i], propertyId, start, end)
  }

  /** The availability invariant: no two non-cancelled bookings of one
      property overlap. */
  ghost predicate NoOverlap(rs: seq<Reservation>) {
    forall i, j :: 0 <= i < |rs| && 0 <= j < |rs| && i != j && rs[j].status != Cancelled ==>
      !Blocks(rs[i], rs[j].propertyId, rs[j].startDate, rs[j].endDate)
  }

  /** The nights between two day numbers; with whole days the ceiling of the
      millisecond difference is the difference itself. */
  function Nights(start: Day, end: Day): int {
    end - start
  }

  /** What createReservation decides before it writes anything. */
  datatype Booking = Refused(code: int) | Accepted(totalPrice: int)

  /** The checks of createReservation in their order: the date range, the
      conflict query, the property lookup, the self-booking test. */
  function Book(rs: seq<Reservation>, ps: seq<Property>, guest: Id, propertyId: Id, start: Day, end: Day): (b: Booking)
    ensures start >= end ==> b == Refused(400)
    ensures start < end && HasConflict(rs, propertyId, start, end) ==> b == Refused(409)
    ensures start < end && !HasConflict(rs, propertyId, start, end) && !PropertyExists(ps, propertyId) ==> b == Refused(404)
    ensures b.Accepted? ==> start < end && !HasConflict(rs, propertyId, start, end)
    ensures b.Accepted? ==>
      exists p :: p in ps && p.id == propertyId && p.hostId != guest
        && b.totalPrice == Nights(start, end) * p.listing.pricePerNight
    ensures start < end && !HasConflict(rs, propertyId, start, end) && FindProperty(ps, propertyId).Some? ==>
      b == (if FindProperty(ps, propertyId).value.hostId == guest then Refused(400)
            else Accepted(Nights(start, end) * FindProperty(ps, propertyId).value.listing.pricePerNight))
    ensures b.Refused? ==> b.code in {400, 404, 409}
  {
    if start >= end then Refused(400)
    else if HasConflict(rs, propertyId, start, end) then Refused(409)
    else match FindProperty(ps, propertyId)
      case None => Refused(404)
      case Some(p) =>
        if p.hostId == guest then Refused(400)
        else Accepted(Nights(start, end) * p.listing.pricePerNight)
  }

  /** The row createReservation inserts: the caller as guest, the computed
      price, the table's default status. */
  function NewBooking(id: Id, propertyId: Id, guest: Id, start: Day, end: Day, totalPrice: int, now: int): Reservation {
    Reservation(id, propertyId, guest, start, end, totalPrice, Pending, now)
  }

  /** A booking the checks accept keeps the availability invariant. */
  lemma AcceptedBookingKeepsNoOverlap(rs: seq<Reservation>, ps: seq<Property>, guest: Id, propertyId: Id,
                                      start: Day, end: Day, id: Id, now: int)
    requires NoOverlap(rs)
    requires Book(rs, ps, guest, propertyId, start, end).Accepted?
    ensures NoOverlap(rs + [NewBooking(id, propertyId, guest, start, end,
                                       Book(rs, ps, guest, propertyId, start, end).totalPrice, now)])
  {
    var r := NewBooking(id, propertyId, guest, start, end, Book(rs, ps, guest, propertyId, start, end).totalPrice, now);
    var rs' := rs + [r];
    forall i, j | 0 <= i < |rs'| && 0 <= j < |rs'| && i != j && rs'[j].status != Cancelled
      ensures !Blocks(rs'[i], rs'[j].propertyId, rs'[j].startDate, rs'[j].endDate)
    {
      if i == |rs| {
        // the new stay against an existing one: the conflict query found none
        assert !Blocks(rs[j], propertyId, start, end);
      } else if j == |rs| {
        assert !Blocks(rs[i], propertyId, start, end);
      } else {
        assert rs'[i] == rs[i] && rs'[j] == rs[j];
      }
    }
  }

  /** Back-to-back stays are legal: a stay that ends on the requested first
      day, or starts on the requested last day, is no conflict. */
  lemma BackToBackBookingsDoNotConflict(rs: seq<Reservation>, propertyId: Id, start: Day, end: Day)
    requires forall i :: 0 <= i < |rs| && rs[i].propertyId == propertyId && rs[i].status != Cancelled ==>
      rs[i].endDate <= start || rs[i].startDate >= end
    ensures !HasConflict(rs, propertyId, start, end)
  {
  }

  /** The worked scenario: a confirmed stay over days 1 to 5 blocks a
      request for days 4 to 6 and lets one for days 5 to 7 through at 50 a
      night. */
  lemma BookingScenario()
    ensures
      var ps := [Property(1, 9, Listing("Villa", "", 50, "Cotonou", 4, []), 0)];
      var rs := [Reservation(1, 1, 2, 1, 5, 200, Confirmed, 0)];
      && Book(rs, ps, 3, 1, 4, 6) == Refused(409)
      && Book(rs, ps, 3, 1, 5, 7) == Accepted(100)
      && Book(rs, ps, 9, 1, 5, 7) == Refused(400)
  {
    var rs := [Reservation(1, 1, 2, 1, 5, 200, Confirmed, 0)];
    assert Blocks(rs[0], 1, 4, 6);
  }

  // ---------------------------------------------------------------------
  // updateReservationStatus

  /** The body's status, accepted only when it names one of the two targets. */
  function ParseStatus(s: string): (r: Option<Status>)
    ensures r.Some? <==> s == "confirmed" || s == "cancelled"
    ensures r == Some(Confirmed) <==> s == "confirmed"
    ensures r.Some? ==> r.value != Pending
  {
    if s == "confirmed" then Some(Confirmed)
    else if s == "cancelled" then Some(Cancelled)
    else None
  }

  /** The ownership query: a reservation with this id on a property of `caller`. */
  predicate HostOfReservation(rs: seq<Reservation>, ps: seq<Property>, caller: Id, id: Id) {
    exists i :: 0 <= i < |rs| && rs[i].id == id && OwnedBy(ps, rs[i].propertyId, caller)
  }

  /** The status code of updateReservationStatus, as written: it never looks
      at the current status and never repeats the overlap check. */
  function StatusUpdateCode(rs: seq<Reservation>, ps: seq<Property>, caller: Id, id: Id, status: string): (code: int)
    ensures code == 400 <==> ParseStatus(status).None?
    ensures code == 403 <==> ParseStatus(status).Some? && !HostOfReservation(rs, ps, caller, id)
    ensures code == 200 <==> ParseStatus(status).Some? && HostOfReservation(rs, ps, caller, id)
  {
    if ParseStatus(status).None? then 400
    else if !HostOfReservation(rs, ps, caller, id) then 403
    else 200
  }

  /** `UPDATE reservations SET status = $1 WHERE id = $2`. */
  function WithStatus(rs: seq<Reservation>, id: Id, st: Status): (r: seq<Reservation>)
    ensures |r| == |rs|
    ensures forall i :: 0 <= i < |rs| && rs[i].id != id ==> r[i] == rs[i]
    ensures forall i :: 0 <= i < |rs| && rs[i].id == id ==> r[i].status == st && r[i].(status := rs[i].status) == rs[i]
  {
    seq(|rs|, i requires 0 <= i < |rs| => if rs[i].id == id then rs[i].(status := st) else rs[i])
  }

  /** With distinct ids the update touches exactly the named row, whatever
      its previous status was. */
  lemma StatusUpdateTouchesOneRow(rs: seq<Reservation>, k: int, st: Status)
    requires DistinctKeys(rs, ReservationKey)
    requires 0 <= k < |rs|
    ensures WithStatus(rs, rs[k].id, st)[k] == rs[k].(status := st)
    ensures forall i :: 0 <= i < |rs| && i != k ==> WithStatus(rs, rs[k].id, st)[i] == rs[i]
  {
    forall i | 0 <= i < |rs| && i != k ensures rs[i].id != rs[k].id {
      DistinctAt(rs, ReservationKey, i, k);
    }
  }

  /** Finding, as written: a host can confirm a cancelled booking whose days
      were booked again meanwhile, and two confirmed stays then overlap. */
  lemma ReopeningBreaksNoOverlap()
    ensures
      var ps := [Property(7, 10, Listing("Loft", "", 80, "Paris", 2, []), 0)];
      var rs := [Reservation(1, 7, 20, 1, 5, 320, Cancelled, 0), Reservation(2, 7, 21, 3, 6, 240, Confirmed, 1)];
      && NoOverlap(rs)
      && StatusUpdateCode(rs, ps, 10, 1, "confirmed") == 200
      && !NoOverlap(WithStatus(rs, 1, Confirmed))
  {
    var ps := [Property(7, 10, Listing("Loft", "", 80, "Paris", 2, []), 0)];
    var rs := [Reservation(1, 7, 20, 1, 5, 320, Cancelled, 0), Reservation(2, 7, 21, 3, 6, 240, Confirmed, 1)];
    assert OwnedBy(ps, rs[0].propertyId, 10) by { assert ps[0].id == 7 && ps[0].hostId == 10; }
    assert HostOfReservation(rs, ps, 10, 1);
    var rs' := WithStatus(rs, 1, Confirmed);
    assert Blocks(rs'[0], rs'[1].propertyId, rs'[1].startDate, rs'[1].endDate);
  }

  /** A cancelled booking that some other non-cancelled booking overlaps. */
  predicate ReopensIntoConflict(rs: seq<Reservation>, id: Id) {
    exists i, j :: 0 <= i < |rs| && 0 <= j < |rs| && rs[i].id == id && rs[i].status == Cancelled
      && rs[j].id != id && Blocks(rs[j], rs[i].propertyId, rs[i].startDate, rs[i].endDate)
  }

  /** The evidently intended status update: confirming a cancelled booking
      repeats the conflict check of createReservation and answers 409 when
      its days are taken. */
  function CheckedStatusUpdateCode(rs: seq<Reservation>, ps: seq<Property>, caller: Id, id: Id, status: string): (code: int)
    ensures code == 409 <==>
      StatusUpdateCode(rs, ps, caller, id, status) == 200 && ParseStatus(status) == Some(Confirmed) && ReopensIntoConflict(rs, id)
    ensures code != 409 ==> code == StatusUpdateCode(rs, ps, caller, id, status)
  {
    var c := StatusUpdateCode(rs, ps, caller, id, status);
    if c == 200 && ParseStatus(status) == Some(Confirmed) && ReopensIntoConflict(rs, id) then 409 else c
  }

  /** The corrected update keeps the availability invariant. */
  lemma CheckedStatusUpdateKeepsNoOverlap(rs: seq<Reservation>, ps: seq<Property>, caller: Id, id: Id, status: string)
    requires DistinctKeys(rs, ReservationKey)
    requires NoOverlap(rs)
    requires CheckedStatusUpdateCode(rs, ps, caller, id, status) == 200
    ensures NoOverlap(WithStatus(rs, id, ParseStatus(status).value))
  {
    var st := ParseStatus(status).value;
    var rs' := WithStatus(rs, id, st);
    forall i, j | 0 <= i < |rs'| && 0 <= j < |rs'| && i != j && rs'[j].status != Cancelled
      ensures !Blocks(rs'[i], rs'[j].propertyId, rs'[j].startDate, rs'[j].endDate)
    {
      DistinctAt(rs, ReservationKey, i, j);
      if rs'[i].status != Cancelled {
        if rs[i].id == id {
          assert rs'[j] == rs[j];
          if rs[i].status == Cancelled {
            // the reopened row: the corrected check found nothing in its way
            assert st == Confirmed;
            assert !Blocks(rs[j], rs[i].propertyId, rs[i].startDate, rs[i].endDate);
          } else {
            assert !Blocks(rs[i], rs[j].propertyId, rs[j].startDate, rs[j].endDate);
          }
        } else if rs[j].id == id {
          assert rs'[i] == rs[i];
          if rs[j].status == Cancelled {
            assert st == Confirmed;
            assert !Blocks(rs[i], rs[j].propertyId, rs[j].startDate, rs[j].endDate);
          } else {
            assert !Blocks(rs[i], rs[j].propertyId, rs[j].startDate, rs[j].endDate);
          }
        } else {
          assert rs'[i] == rs[i] && rs'[j] == rs[j];
        }
      }
    }
  }

  // ---------------------------------------------------------------------
  // getMyTrips and getHostReservations

  /** ORDER BY start_date DESC. */
  function StartsLater(a: Reservation, b: Reservation): bool {
    a.startDate >= b.startDate
  }

  /** ORDER BY created_at DESC. */
  function BookedLater(a: Reservation, b: Reservation): bool {
    a.createdAt >= b.createdAt
  }

  /** The guest's trips: their reservations whose property still exists
      (the query joins properties), latest stay first. */
  function MyTrips(rs: seq<Reservation>, ps: seq<Property>, user: Id): (r: seq<Reservation>)
    ensures forall x :: multiset(r)[x] == if x.guestId == user && PropertyExists(ps, x.propertyId) then multiset(rs)[x] else 0
    ensures forall x :: x in r <==> x in rs && x.guestId == user && PropertyExists(ps, x.propertyId)
    ensures SortedBy(r, StartsLater)
  {
    var mine := Filter(rs, (x: Reservation) => x.guestId == user && PropertyExists(ps, x.propertyId));
    var r := Sort(mine, StartsLater);
    assert forall x :: x in r <==> x in multiset(mine);
    r
  }

  /** The host's bookings: every reservation on one of their properties,
      newest request first. */
  function HostReservations(rs: seq<Reservation>, ps: seq<Property>, host: Id): (r: seq<Reservation>)
    ensures forall x :: multiset(r)[x] == if OwnedBy(ps, x.propertyId, host) then multiset(rs)[x] else 0
    ensures forall x :: x in r <==> x in rs && OwnedBy(ps, x.propertyId, host)
    ensures SortedBy(r, BookedLater)
  {
    var theirs := Filter(rs, (x: Reservation) => OwnedBy(ps, x.propertyId, host));
    var r := Sort(theirs, BookedLater);
    assert forall x :: x in r <==> x in multiset(theirs);
    r
  }
}
