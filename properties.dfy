/** The listing rules of backend/controllers/propertyController.js: the
    ownership and "active bookings" guards on image upload and deletion,
    update and deletion, the main-image choice of an upload, the catalogue
    and detail queries, and the host dashboard. The writes are the methods
    of Store.Store; this module holds the rules they follow. */
module Properties {
  import opened Query
  import opened Tables
  import Reservations

  /** A reservation that still blocks edits: pending or confirmed, ending
      today or later. */
  predicate IsActive(r: Reservation, propertyId: Id, today: Day) {
    r.propertyId == propertyId && (r.status == Pending || r.status == Confirmed) && r.endDate >= today
  }

  predicate HasActiveBookings(rs: seq<Reservation>, propertyId: Id, today: Day) {
    exists i :: 0 <= i < |rs| && IsActive(rs[i], propertyId, today)
  }

  /** The `COUNT(*)` of active bookings the dashboard and deleteProperty read. */
  function ActiveBookingCount(rs: seq<Reservation>, propertyId: Id, today: Day): (n: nat)
    ensures n > 0 <==> HasActiveBookings(rs, propertyId, today)
    ensures n <= |rs|
  {
    var active := Filter(rs, ActiveOn(propertyId, today));
    assert |active| > 0 ==> active[0] in active;
    assert HasActiveBookings(rs, propertyId, today) ==> |active| > 0 by {
      if HasActiveBookings(rs, propertyId, today) {
        var i :| 0 <= i < |rs| && IsActive(rs[i], propertyId, today);
        assert rs[i] in active;
      }
    }
    |active|
  }

  function ActiveOn(propertyId: Id, today: Day): Reservation -> bool {
    (r: Reservation) => IsActive(r, propertyId, today)
  }

  /** The count is exact: an empty table counts 0, and one more row adds one
      exactly when that row is an active booking of the property. */
  lemma ActiveBookingCountAppend(rs: seq<Reservation>, r: Reservation, propertyId: Id, today: Day)
    ensures ActiveBookingCount([], propertyId, today) == 0
    ensures ActiveBookingCount(rs + [r], propertyId, today)
         == ActiveBookingCount(rs, propertyId, today) + (if IsActive(r, propertyId, today) then 1 else 0)
  {
    FilterAppend(rs, r, ActiveOn(propertyId, today));
  }

  // ---------------------------------------------------------------------
  // uploadPropertyImages

  /** The checks of uploadPropertyImages in their order: some file, an
      existing property, its host. */
  function UploadCode(ps: seq<Property>, caller: Id, propertyId: Id, fileCount: nat): (code: int)
    ensures fileCount == 0 ==> code == 400
    ensures fileCount > 0 && !PropertyExists(ps, propertyId) ==> code == 404
    ensures code == 201 ==> fileCount > 0 && FindProperty(ps, propertyId).Some?
                            && FindProperty(ps, propertyId).value.hostId == caller
    ensures fileCount > 0 && FindProperty(ps, propertyId).Some? ==>
      code == (if FindProperty(ps, propertyId).value.hostId != caller then 403 else 201)
    ensures code in {201, 400, 403, 404}
  {
    if fileCount == 0 then 400
    else match FindProperty(ps, propertyId)
      case None => 404
      case Some(p) => if p.hostId != caller then 403 else 201
  }

  /** The url stored for an uploaded file. */
  function UploadUrl(filename: string): (url: string)
    ensures |url| == 9 + |filename|
    ensures url[..9] == "/uploads/" && url[9..] == filename
  {
    "/uploads/" + filename
  }

  /** The rows the upload loop inserts, one per file in order, with keys
      from `first` on; only the first file becomes a main image. */
  function UploadedImages(first: Id, propertyId: Id, files: seq<string>): (r: seq<Image>)
    ensures |r| == |files|
    ensures forall i :: 0 <= i < |files| ==>
      r[i].propertyId == propertyId && r[i].imageUrl == UploadUrl(files[i]) && r[i].id == first + i
    ensures |files| > 0 ==> r[0].isMain
  {
    seq(|files|, i requires 0 <= i < |files| => Image(first + i, propertyId, UploadUrl(files[i]), i == 0))
  }

  /** One more file adds one more row to the upload. */
  lemma UploadedImagesStep(first: Id, propertyId: Id, files: seq<string>, i: int)
    requires 0 <= i < |files|
    ensures UploadedImages(first, propertyId, files[..i + 1])
         == UploadedImages(first, propertyId, files[..i]) + [Image(first + i, propertyId, UploadUrl(files[i]), i == 0)]
  {
    var a := UploadedImages(first, propertyId, files[..i + 1]);
    var b := UploadedImages(first, propertyId, files[..i]) + [Image(first + i, propertyId, UploadUrl(files[i]), i == 0)];
    forall k | 0 <= k < |a| ensures a[k] == b[k] {
      assert files[..i + 1][k] == files[k];
      if k < i {
        assert files[..i][k] == files[k];
      }
    }
  }

  /** An upload names exactly one main image: two different rows of one
      upload are never both main. */
  lemma UploadHasOneMainImage(first: Id, propertyId: Id, files: seq<string>, i: int, j: int)
    requires 0 <= i < j < |files|
    ensures !(UploadedImages(first, propertyId, files)[i].isMain && UploadedImages(first, propertyId, files)[j].isMain)
  {
  }

  /** Images added after a table without a main image of the property
      decide the catalogue picture alone. */
  lemma {:induction false} MainImageUrlAfter(images: seq<Image>, more: seq<Image>, propertyId: Id)
    requires forall i :: 0 <= i < |images| ==> !(images[i].propertyId == propertyId && images[i].isMain)
    ensures MainImageUrl(images + more, propertyId) == MainImageUrl(more, propertyId)
    decreases |images|
  {
    if images != [] {
      assert (images + more)[1..] == images[1..] + more;
      MainImageUrlAfter(images[1..], more, propertyId);
    } else {
      assert images + more == more;
    }
  }

  /** The first upload to a property with no main image makes its first
      file the catalogue picture. */
  lemma FirstUploadSetsCatalogueImage(images: seq<Image>, first: Id, propertyId: Id, files: seq<string>)
    requires |files| > 0
    requires forall i :: 0 <= i < |images| ==> !(images[i].propertyId == propertyId && images[i].isMain)
    ensures MainImageUrl(images + UploadedImages(first, propertyId, files), propertyId) == Some(UploadUrl(files[0]))
  {
    MainImageUrlAfter(images, UploadedImages(first, propertyId, files), propertyId);
  }

  // ---------------------------------------------------------------------
  // deleteImage

  /** The check of deleteImage: the image exists and its property is the caller's. */
  predicate ImageOwned(images: seq<Image>, ps: seq<Property>, caller: Id, imageId: Id) {
    exists i :: 0 <= i < |images| && images[i].id == imageId && OwnedBy(ps, images[i].propertyId, caller)
  }

  /** `DELETE FROM property_images WHERE id = $1` keeps the other rows. */
  function KeepsImage(imageId: Id): Image -> bool {
    (m: Image) => m.id != imageId
  }

  // ---------------------------------------------------------------------
  // updateProperty and deleteProperty

  /** updateProperty checks active bookings first, for any caller, and only
      then whether the caller owns the property (the UPDATE's WHERE clause). */
  function UpdateCode(rs: seq<Reservation>, ps: seq<Property>, caller: Id, propertyId: Id, today: Day): (code: int)
    ensures HasActiveBookings(rs, propertyId, today) ==> code == 403
    ensures !HasActiveBookings(rs, propertyId, today) && !OwnedBy(ps, propertyId, caller) ==> code == 404
    ensures code == 200 <==> !HasActiveBookings(rs, propertyId, today) && OwnedBy(ps, propertyId, caller)
  {
    if HasActiveBookings(rs, propertyId, today) then 403
    else if !OwnedBy(ps, propertyId, caller) then 404
    else 200
  }

  /** `UPDATE properties SET ... WHERE id = $7 AND host_id = $8`. */
  function WithListing(ps: seq<Property>, caller: Id, propertyId: Id, listing: Listing): (r: seq<Property>)
    ensures |r| == |ps|
    ensures forall i :: 0 <= i < |ps| && !(ps[i].id == propertyId && ps[i].hostId == caller) ==> r[i] == ps[i]
    ensures forall i :: 0 <= i < |ps| && ps[i].id == propertyId && ps[i].hostId == caller ==>
      r[i].listing == listing && r[i].(listing := ps[i].listing) == ps[i]
  {
    seq(|ps|, i requires 0 <= i < |ps| =>
      if ps[i].id == propertyId && ps[i].hostId == caller then ps[i].(listing := listing) else ps[i])
  }

  /** deleteProperty checks ownership first (a missing and a foreign
      property look alike) and only then active bookings. */
  function DeleteCode(rs: seq<Reservation>, ps: seq<Property>, caller: Id, propertyId: Id, today: Day): (code: int)
    ensures !OwnedBy(ps, propertyId, caller) ==> code == 404
    ensures OwnedBy(ps, propertyId, caller) && HasActiveBookings(rs, propertyId, today) ==> code == 403
    ensures code == 200 <==> OwnedBy(ps, propertyId, caller) && !HasActiveBookings(rs, propertyId, today)
  {
    if !OwnedBy(ps, propertyId, caller) then 404
    else if ActiveBookingCount(rs, propertyId, today) > 0 then 403
    else 200
  }

  /** `DELETE FROM properties WHERE id = $1 AND host_id = $2` keeps the other rows. */
  function KeepsProperty(propertyId: Id, caller: Id): Property -> bool {
    (p: Property) => !(p.id == propertyId && p.hostId == caller)
  }

  /** The two handlers order their guards differently: a stranger editing a
      booked property hears 403, the same stranger deleting it hears 404. */
  lemma GuardOrderDiffers(rs: seq<Reservation>, ps: seq<Property>, caller: Id, propertyId: Id, today: Day)
    requires !OwnedBy(ps, propertyId, caller)
    requires HasActiveBookings(rs, propertyId, today)
    ensures UpdateCode(rs, ps, caller, propertyId, today) == 403
    ensures DeleteCode(rs, ps, caller, propertyId, today) == 404
  {
  }

  // ---------------------------------------------------------------------
  // getAllProperties

  /** One catalogue row: the property, its first main image, and the sum
      and number of its reviews' ratings. */
  datatype Ranked = Ranked(property: Property, imageUrl: Option<string>, ratingSum: int, reviewCount: nat)

  /** `COALESCE(AVG(r.rating), 0)`. */
  function AverageRating(r: Ranked): real {
    if r.reviewCount == 0 then 0.0 else r.ratingSum as real / r.reviewCount as real
  }

  /** ORDER BY average_rating DESC, review_count DESC. */
  function RanksBefore(a: Ranked, b: Ranked): bool {
    AverageRating(a) > AverageRating(b)
    || (AverageRating(a) == AverageRating(b) && a.reviewCount >= b.reviewCount)
  }

  /** `(SELECT image_url ... AND is_main = true LIMIT 1)`, taking the first in table order. */
  function MainImageUrl(images: seq<Image>, propertyId: Id): (r: Option<string>)
    ensures r.Some? <==> exists i :: 0 <= i < |images| && images[i].propertyId == propertyId && images[i].isMain
    ensures r.Some? ==> exists i :: 0 <= i < |images| && images[i].propertyId == propertyId && images[i].isMain
                                    && images[i].imageUrl == r.value
  {
    if images == [] then None
    else if images[0].propertyId == propertyId && images[0].isMain then Some(images[0].imageUrl)
    else
      var r := MainImageUrl(images[1..], propertyId);
      assert forall i :: 1 <= i < |images| ==> images[i] == images[1..][i - 1];
      r
  }

  function SumRatings(reviews: seq<Review>): int {
    if reviews == [] then 0 else reviews[0].rating + SumRatings(reviews[1..])
  }

  function ReviewsOf(reviews: seq<Review>, propertyId: Id): (r: seq<Review>)
    ensures forall x :: x in r <==> x in reviews && x.propertyId == propertyId
  {
    Filter(reviews, (x: Review) => x.propertyId == propertyId)
  }

  function RankRow(p: Property, images: seq<Image>, reviews: seq<Review>): Ranked {
    var mine := ReviewsOf(reviews, p.id);
    Ranked(p, MainImageUrl(images, p.id), SumRatings(mine), |mine|)
  }

  lemma RanksBeforeIsTotal()
    ensures TotalPreorder(RanksBefore)
  {
  }

  /** The catalogue: one row per property, best rated first. */
  function AllProperties(ps: seq<Property>, images: seq<Image>, reviews: seq<Review>): (r: seq<Ranked>)
    ensures |r| == |ps|
    ensures forall x :: x in r ==> x.property in ps && x == RankRow(x.property, images, reviews)
    ensures forall p :: p in ps ==> RankRow(p, images, reviews) in r
    ensures SortedBy(r, RanksBefore)
  {
    var rows := Map(ps, (p: Property) => RankRow(p, images, reviews));
    RanksBeforeIsTotal();
    var r := Sort(rows, RanksBefore);
    assert |r| == |multiset(r)| == |multiset(rows)| == |rows|;
    forall x | x in r ensures x.property in ps && x == RankRow(x.property, images, reviews) {
      assert x in multiset(rows);
      var i :| 0 <= i < |rows| && rows[i] == x;
    }
    forall p | p in ps ensures RankRow(p, images, reviews) in r {
      var i :| 0 <= i < |ps| && ps[i] == p;
      assert rows[i] in multiset(r);
    }
    r
  }

  /** A property nobody reviewed shows an average of 0. */
  lemma UnreviewedAveragesZero(p: Property, images: seq<Image>, reviews: seq<Review>)
    requires forall i :: 0 <= i < |reviews| ==> reviews[i].propertyId != p.id
    ensures RankRow(p, images, reviews).reviewCount == 0
    ensures AverageRating(RankRow(p, images, reviews)) == 0.0
  {
    var mine := ReviewsOf(reviews, p.id);
    assert multiset(mine) == multiset{};
  }

  // ---------------------------------------------------------------------
  // getPropertyById

  datatype PropertyView = PropertyView(property: Property, averageRating: real, images: seq<Image>)

  /** ORDER BY is_main DESC. */
  function MainFirst(a: Image, b: Image): bool {
    a.isMain || !b.isMain
  }

  /** The detail page's data: 404 (None) for an unknown id, otherwise the
      property, its average rating and its images, main ones first. */
  function PropertyById(ps: seq<Property>, images: seq<Image>, reviews: seq<Review>, id: Id): (r: Option<PropertyView>)
    ensures r.None? <==> !PropertyExists(ps, id)
    ensures r.Some? ==> r.value.property in ps && r.value.property.id == id
    ensures r.Some? ==> forall x :: multiset(r.value.images)[x] == if x.propertyId == id then multiset(images)[x] else 0
    ensures r.Some? ==> forall i, j :: 0 <= i < j < |r.value.images| && r.value.images[j].isMain ==> r.value.images[i].isMain
  {
    match FindProperty(ps, id)
    case None => None
    case Some(p) =>
      var pics := Sort(Filter(images, (m: Image) => m.propertyId == id), MainFirst);
      assert SortedBy(pics, MainFirst);
      Some(PropertyView(p, AverageRating(RankRow(p, images, reviews)), pics))
  }

  // ---------------------------------------------------------------------
  // getHostStats

  datatype HostSummary = HostSummary(totalPosts: nat, totalClients: nat, totalRevenue: int, pendingRequests: nat)

  datatype HostProperty = HostProperty(property: Property, activeBookings: nat)

  /** The reservation side of `LEFT JOIN reservations r ON p.id = r.property_id
      AND r.status = 'confirmed' WHERE p.host_id = $1`. */
  function JoinedBookings(ps: seq<Property>, rs: seq<Reservation>, host: Id): (r: seq<Reservation>)
    ensures forall x :: x in r <==> x in rs && x.status == Confirmed && OwnedBy(ps, x.propertyId, host)
  {
    Filter(rs, IsJoined(ps, host))
  }

  function IsJoined(ps: seq<Property>, host: Id): Reservation -> bool {
    (x: Reservation) => x.status == Confirmed && OwnedBy(ps, x.propertyId, host)
  }

  function SumPrices(rs: seq<Reservation>): int {
    if rs == [] then 0 else rs[0].totalPrice + SumPrices(rs[1..])
  }

  /** `COALESCE(SUM(r.total_price), 0)` over the joined rows. */
  function Revenue(ps: seq<Property>, rs: seq<Reservation>, host: Id): int {
    SumPrices(JoinedBookings(ps, rs, host))
  }

  /** The dashboard summary as written. Its pending count reads the same
      joined rows as the rest, which are all confirmed. */
  function Summary(ps: seq<Property>, rs: seq<Reservation>, host: Id): (r: HostSummary)
    ensures r.totalPosts == |PostIds(ps, host)|
    ensures r.totalClients == |Clients(ps, rs, host)|
    ensures r.totalRevenue == Revenue(ps, rs, host)
  {
    var joined := JoinedBookings(ps, rs, host);
    HostSummary(
      |PostIds(ps, host)|,
      |Clients(ps, rs, host)|,
      Revenue(ps, rs, host),
      |set r | r in joined && r.status == Pending :: r.id|)
  }

  /** `COUNT(DISTINCT p.id)`: the ids of the host's properties. */
  function PostIds(ps: seq<Property>, host: Id): (ids: set<Id>)
    ensures forall id :: id in ids <==> exists i :: 0 <= i < |ps| && ps[i].hostId == host && ps[i].id == id
  {
    set p | p in ps && p.hostId == host :: p.id
  }

  /** `COUNT(DISTINCT r.guest_id)` over the joined rows: the guests with a
      confirmed stay at one of the host's properties. */
  function Clients(ps: seq<Property>, rs: seq<Reservation>, host: Id): (guests: set<Id>)
    ensures forall g :: g in guests <==> exists i :: 0 <= i < |rs| && IsJoined(ps, host)(rs[i]) && rs[i].guestId == g
  {
    var joined := JoinedBookings(ps, rs, host);
    assert forall x :: x in joined <==> x in rs && IsJoined(ps, host)(x);
    set x | x in joined :: x.guestId
  }

  /** A new property of the host is one more post; the other figures do not
      move unless bookings already pointed at its id. */
  lemma NewPropertyAddsPost(ps: seq<Property>, rs: seq<Reservation>, host: Id, p: Property)
    requires p.hostId == host
    requires forall i :: 0 <= i < |ps| ==> ps[i].id != p.id
    ensures Summary(ps + [p], rs, host).totalPosts == Summary(ps, rs, host).totalPosts + 1
  {
    var ps' := ps + [p];
    assert PostIds(ps', host) == PostIds(ps, host) + {p.id} by {
      forall id ensures id in PostIds(ps', host) <==> id in PostIds(ps, host) + {p.id} {
        if id in PostIds(ps', host) {
          var i :| 0 <= i < |ps'| && ps'[i].hostId == host && ps'[i].id == id;
          if i < |ps| {
            assert ps[i] == ps'[i];
          }
        }
        if id in PostIds(ps, host) {
          var i :| 0 <= i < |ps| && ps[i].hostId == host && ps[i].id == id;
          assert ps'[i] == ps[i];
        }
        assert ps'[|ps|] == p;
      }
    }
    assert p.id !in PostIds(ps, host);
  }

  /** A new booking waits for the host: nothing on the summary moves. */
  lemma NewBookingKeepsSummary(ps: seq<Property>, rs: seq<Reservation>, host: Id, r: Reservation)
    requires r.status == Pending
    ensures Summary(ps, rs + [r], host) == Summary(ps, rs, host)
  {
    FilterAppend(rs, r, IsJoined(ps, host));
    assert !IsJoined(ps, host)(r);
    assert JoinedBookings(ps, rs + [r], host) == JoinedBookings(ps, rs, host) + [];
    assert JoinedBookings(ps, rs, host) + [] == JoinedBookings(ps, rs, host);
  }

  /** Summing the prices after one row starts to pass the filter adds that
      row's price. */
  lemma {:induction false} SumAfterJoining(s: seq<Reservation>, s': seq<Reservation>, k: int, f: Reservation -> bool)
    requires |s'| == |s| && 0 <= k < |s|
    requires forall i :: 0 <= i < |s| && i != k ==> s'[i] == s[i]
    requires !f(s[k]) && f(s'[k]) && s'[k].totalPrice == s[k].totalPrice
    ensures SumPrices(Filter(s', f)) == SumPrices(Filter(s, f)) + s[k].totalPrice
    decreases |s|
  {
    assert s[1..] == s'[1..] ==> Filter(s[1..], f) == Filter(s'[1..], f);
    if k == 0 {
      assert s[1..] == s'[1..];
      var rest := Filter(s'[1..], f);
      assert Filter(s', f) == [s'[0]] + rest;
      assert ([s'[0]] + rest)[1..] == rest;
    } else {
      assert s[0] == s'[0];
      forall i | 0 <= i < |s[1..]| && i != k - 1 ensures s'[1..][i] == s[1..][i] {
        assert s'[1..][i] == s'[i + 1] && s[1..][i] == s[i + 1];
      }
      SumAfterJoining(s[1..], s'[1..], k - 1, f);
      if f(s[0]) {
        var a := Filter(s[1..], f);
        var b := Filter(s'[1..], f);
        assert ([s[0]] + a)[1..] == a;
        assert ([s[0]] + b)[1..] == b;
      }
    }
  }

  /** Confirming a request on one of the host's properties adds its price to
      the revenue and leaves the posts. */
  lemma ConfirmingAddsRevenue(ps: seq<Property>, rs: seq<Reservation>, host: Id, k: int)
    requires DistinctKeys(rs, ReservationKey)
    requires 0 <= k < |rs| && rs[k].status != Confirmed && OwnedBy(ps, rs[k].propertyId, host)
    ensures Revenue(ps, Reservations.WithStatus(rs, rs[k].id, Confirmed), host) == Revenue(ps, rs, host) + rs[k].totalPrice
    ensures Summary(ps, Reservations.WithStatus(rs, rs[k].id, Confirmed), host).totalPosts == Summary(ps, rs, host).totalPosts
  {
    var rs' := Reservations.WithStatus(rs, rs[k].id, Confirmed);
    Reservations.StatusUpdateTouchesOneRow(rs, k, Confirmed);
    SumAfterJoining(rs, rs', k, IsJoined(ps, host));
  }

  /** Confirming a request on one of the host's properties makes its guest a
      client, and nobody else. */
  lemma ConfirmingAddsClient(ps: seq<Property>, rs: seq<Reservation>, host: Id, k: int)
    requires DistinctKeys(rs, ReservationKey)
    requires 0 <= k < |rs| && rs[k].status != Confirmed && OwnedBy(ps, rs[k].propertyId, host)
    ensures Clients(ps, Reservations.WithStatus(rs, rs[k].id, Confirmed), host) == Clients(ps, rs, host) + {rs[k].guestId}
  {
    var rs' := Reservations.WithStatus(rs, rs[k].id, Confirmed);
    Reservations.StatusUpdateTouchesOneRow(rs, k, Confirmed);
    var before := Clients(ps, rs, host);
    var after := Clients(ps, rs', host);
    assert IsJoined(ps, host)(rs'[k]);
    forall g | g in after ensures g in before + {rs[k].guestId} {
      var i :| 0 <= i < |rs'| && IsJoined(ps, host)(rs'[i]) && rs'[i].guestId == g;
      if i != k {
        assert rs'[i] == rs[i];
      }
    }
    forall g | g in before ensures g in after {
      var i :| 0 <= i < |rs| && IsJoined(ps, host)(rs[i]) && rs[i].guestId == g;
      assert rs'[i] == rs[i];
    }
  }

  /** Finding, as written: the summary never reports a pending request. */
  lemma PendingRequestsAlwaysZero(ps: seq<Property>, rs: seq<Reservation>, host: Id)
    ensures Summary(ps, rs, host).pendingRequests == 0
  {
    var joined := JoinedBookings(ps, rs, host);
    assert (set r | r in joined && r.status == Pending :: r.id) == {};
  }

  /** The evidently intended count: pending reservations on the host's properties. */
  function PendingRequests(ps: seq<Property>, rs: seq<Reservation>, host: Id): (n: nat)
    ensures n > 0 <==> exists i :: 0 <= i < |rs| && WaitingFor(ps, host)(rs[i])
  {
    var waiting := Filter(rs, WaitingFor(ps, host));
    assert |waiting| > 0 ==> waiting[0] in waiting;
    assert (exists i :: 0 <= i < |rs| && WaitingFor(ps, host)(rs[i])) ==> |waiting| > 0 by {
      if exists i :: 0 <= i < |rs| && WaitingFor(ps, host)(rs[i]) {
        var i :| 0 <= i < |rs| && WaitingFor(ps, host)(rs[i]);
        assert rs[i] in waiting;
      }
    }
    |waiting|
  }

  function WaitingFor(ps: seq<Property>, host: Id): Reservation -> bool {
    (x: Reservation) => x.status == Pending && OwnedBy(ps, x.propertyId, host)
  }

  /** Every new booking on a host's property is one more pending request for
      the corrected count. */
  lemma NewBookingIsPendingRequest(ps: seq<Property>, rs: seq<Reservation>, host: Id, r: Reservation)
    requires r.status == Pending && OwnedBy(ps, r.propertyId, host)
    ensures PendingRequests(ps, rs + [r], host) == PendingRequests(ps, rs, host) + 1
  {
    FilterAppend(rs, r, WaitingFor(ps, host));
  }

  /** The two counts differ as soon as one request waits. */
  lemma PendingRequestExample()
    ensures
      var ps := [Property(1, 9, Listing("Villa", "", 50, "Cotonou", 4, []), 0)];
      var rs := [Reservation(1, 1, 2, 3, 6, 150, Pending, 0)];
      Summary(ps, rs, 9).pendingRequests == 0 && PendingRequests(ps, rs, 9) == 1
  {
    var ps := [Property(1, 9, Listing("Villa", "", 50, "Cotonou", 4, []), 0)];
    var rs := [Reservation(1, 1, 2, 3, 6, 150, Pending, 0)];
    PendingRequestsAlwaysZero(ps, rs, 9);
    assert OwnedBy(ps, rs[0].propertyId, 9) by { assert ps[0].id == 1; }
    NewBookingIsPendingRequest(ps, [], 9, rs[0]);
    assert [] + [rs[0]] == rs;
  }

  /** Revenue counts confirmed stays only: a new (pending) booking leaves it
      unchanged. */
  lemma NewBookingKeepsRevenue(ps: seq<Property>, rs: seq<Reservation>, host: Id, r: Reservation)
    requires r.status == Pending
    ensures Revenue(ps, rs + [r], host) == Revenue(ps, rs, host)
  {
    FilterAppend(rs, r, IsJoined(ps, host));
    assert !IsJoined(ps, host)(r);
    assert JoinedBookings(ps, rs + [r], host) == JoinedBookings(ps, rs, host) + [];
    assert JoinedBookings(ps, rs, host) + [] == JoinedBookings(ps, rs, host);
  }

  /** `myProperties`: the host's properties with their active-booking counts. */
  function HostProperties(ps: seq<Property>, rs: seq<Reservation>, host: Id, today: Day): (r: seq<HostProperty>)
    ensures |r| <= |ps|
    ensures forall i :: 0 <= i < |r| ==> r[i].property in ps && r[i].property.hostId == host
    ensures forall i :: 0 <= i < |r| ==> r[i].activeBookings == ActiveBookingCount(rs, r[i].property.id, today)
    ensures forall p :: p in ps && p.hostId == host ==> HostProperty(p, ActiveBookingCount(rs, p.id, today)) in r
    ensures |r| == |Filter(ps, HostedBy(host))|
    ensures forall i :: 0 <= i < |r| ==> r[i].property == Filter(ps, HostedBy(host))[i]
  {
    MapFilterMembers(ps, HostedBy(host), WithActiveCount(rs, today));
    Map(Filter(ps, HostedBy(host)), WithActiveCount(rs, today))
  }

  /** Whatever order the database returns them in, the dashboard rows hold
      each of the host's properties exactly as often as the table does. */
  lemma HostPropertiesArePermutation(ps: seq<Property>, rs: seq<Reservation>, host: Id, today: Day)
    ensures multiset(Map(HostProperties(ps, rs, host, today), PropertyOf)) == multiset(Filter(ps, HostedBy(host)))
  {
    var r := HostProperties(ps, rs, host, today);
    var kept := Filter(ps, HostedBy(host));
    assert Map(r, PropertyOf) == kept;
  }

  function PropertyOf(row: HostProperty): Property {
    row.property
  }

  function HostedBy(host: Id): Property -> bool {
    (p: Property) => p.hostId == host
  }

  function WithActiveCount(rs: seq<Reservation>, today: Day): Property -> HostProperty {
    (p: Property) => HostProperty(p, ActiveBookingCount(rs, p.id, today))
  }

  /** The dashboard's active-booking badge is exactly the condition under
      which the backend refuses to edit or delete that property. */
  lemma DashboardBadgeMatchesGuards(ps: seq<Property>, rs: seq<Reservation>, host: Id, today: Day, i: int)
    requires 0 <= i < |HostProperties(ps, rs, host, today)|
    ensures var row := HostProperties(ps, rs, host, today)[i];
      && (row.activeBookings > 0 <==> UpdateCode(rs, ps, host, row.property.id, today) == 403)
      && (row.activeBookings > 0 <==> DeleteCode(rs, ps, host, row.property.id, today) == 403)
  {
    var row := HostProperties(ps, rs, host, today)[i];
    var k :| 0 <= k < |ps| && ps[k] == row.property;
    assert OwnedBy(ps, row.property.id, host);
  }
}
