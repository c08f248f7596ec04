/** The rows of the marketplace's relational tables, as the controllers read
    and write them. Dates are day numbers, prices are whole currency units,
    and `createdAt` is the value the database's clock gave the row. */
module Tables {
  import opened Query

  datatype Option<+T> = None | Some(value: T)

  type Id = nat
  type Day = int

  datatype Status = Pending | Confirmed | Cancelled

  /** The columns of a property that its host writes (create and update). */
  datatype Listing = Listing(
    title: string,
    description: string,
    pricePerNight: int,
    location: string,
    maxGuests: int,
    amenities: seq<string>)

  datatype Property = Property(id: Id, hostId: Id, listing: Listing, createdAt: int)

  datatype Image = Image(id: Id, propertyId: Id, imageUrl: string, isMain: bool)

  datatype Reservation = Reservation(
    id: Id,
    propertyId: Id,
    guestId: Id,
    startDate: Day,
    endDate: Day,
    totalPrice: int,
    status: Status,
    createdAt: int)

  datatype Review = Review(id: Id, propertyId: Id, guestId: Id, rating: int, comment: string, createdAt: int)

  datatype Message = Message(
    id: Id,
    senderId: Id,
    receiverId: Id,
    propertyId: Id,
    content: string,
    isRead: bool,
    createdAt: int)

  /** `SELECT ... FROM properties WHERE id = $1`, first row. */
  function FindProperty(ps: seq<Property>, id: Id): (r: Option<Property>)
    ensures r.Some? ==> r.value in ps && r.value.id == id
    ensures r.None? <==> forall i :: 0 <= i < |ps| ==> ps[i].id != id
  {
    if ps == [] then None
    else if ps[0].id == id then Some(ps[0])
    else FindProperty(ps[1..], id)
  }

  predicate PropertyExists(ps: seq<Property>, id: Id) {
    exists i :: 0 <= i < |ps| && ps[i].id == id
  }

  /** A property row with this id whose host is `host` exists: the
      `JOIN properties p ... WHERE p.host_id = $n` of the ownership checks. */
  predicate OwnedBy(ps: seq<Property>, id: Id, host: Id) {
    exists i :: 0 <= i < |ps| && ps[i].id == id && ps[i].hostId == host
  }

  /** Row keys as SERIAL columns hand them out: increasing in table order,
      and all below the next key to be issued. */
  ghost predicate Keyed<T>(rows: seq<T>, key: T -> Id, next: Id) {
    && (forall i, j :: 0 <= i < j < |rows| ==> key(rows[i]) < key(rows[j]))
    && (forall i :: 0 <= i < |rows| ==> key(rows[i]) < next)
  }

  function PropertyKey(p: Property): Id { p.id }
  function ImageKey(m: Image): Id { m.id }
  function ReservationKey(r: Reservation): Id { r.id }
  function ReviewKey(r: Review): Id { r.id }
  function MessageKey(m: Message): Id { m.id }

  lemma KeyedAppend<T>(rows: seq<T>, key: T -> Id, next: Id, row: T)
    requires Keyed(rows, key, next)
    requires key(row) == next
    ensures Keyed(rows + [row], key, next + 1)
  {
  }

  lemma KeyedGrow<T>(rows: seq<T>, key: T -> Id, next: Id, next': Id)
    requires Keyed(rows, key, next) && next <= next'
    ensures Keyed(rows, key, next')
  {
  }

  /** Deleting rows keeps the keys increasing. */
  lemma {:induction false} KeyedFilter<T(!new)>(rows: seq<T>, key: T -> Id, next: Id, keep: T -> bool)
    requires Keyed(rows, key, next)
    ensures Keyed(Filter(rows, keep), key, next)
    decreases |rows|
  {
    if rows != [] {
      assert Keyed(rows[1..], key, next) by {
        forall i, j | 0 <= i < j < |rows[1..]| ensures key(rows[1..][i]) < key(rows[1..][j]) {
          assert rows[1..][i] == rows[i + 1] && rows[1..][j] == rows[j + 1];
        }
      }
      KeyedFilter(rows[1..], key, next, keep);
      var rest := Filter(rows[1..], keep);
      if keep(rows[0]) {
        forall x | x in rest ensures key(rows[0]) < key(x) {
          var j :| 0 <= j < |rows[1..]| && rows[1..][j] == x;
          assert rows[j + 1] == x;
        }
        KeyedCons(rows[0], rest, key, next);
      }
    }
  }

  lemma KeyedCons<T>(row: T, rest: seq<T>, key: T -> Id, next: Id)
    requires Keyed(rest, key, next) && key(row) < next
    requires forall x :: x in rest ==> key(row) < key(x)
    ensures Keyed([row] + rest, key, next)
  {
    var rows := [row] + rest;
    forall i, j | 0 <= i < j < |rows| ensures key(rows[i]) < key(rows[j]) {
      assert rows[j] == rest[j - 1];
      if i > 0 {
        assert rows[i] == rest[i - 1];
      }
    }
  }

  /** Updating columns other than the key keeps the keys increasing. */
  lemma KeyedSameKeys<T>(rows: seq<T>, rows': seq<T>, key: T -> Id, next: Id)
    requires Keyed(rows, key, next)
    requires |rows'| == |rows|
    requires forall i :: 0 <= i < |rows| ==> key(rows'[i]) == key(rows[i])
    ensures Keyed(rows', key, next)
  {
  }

  /** Keyed rows have pairwise different keys. */
  lemma KeyedDistinct<T>(rows: seq<T>, key: T -> Id, next: Id)
    requires Keyed(rows, key, next)
    ensures DistinctKeys(rows, key)
  {
  }
}
