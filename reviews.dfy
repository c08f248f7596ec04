/** The review rules of backend/controllers/reviewController.js: only a guest
    with a confirmed stay may review a property, and only once; a
    property's reviews are listed newest first. */
module Reviews {
  import opened Query
  import opened Tables

  /** The eligibility query: a confirmed reservation of `guest` on the property. */
  predicate HasConfirmedStay(rs: seq<Reservation>, guest: Id, propertyId: Id) {
    exists i :: 0 <= i < |rs| && rs[i].propertyId == propertyId && rs[i].guestId == guest && rs[i].status == Confirmed
  }

  /** The duplicate query: a review of `guest` on the property. */
  predicate HasReviewed(reviews: seq<Review>, guest: Id, propertyId: Id) {
    exists i :: 0 <= i < |reviews| && reviews[i].propertyId == propertyId && reviews[i].guestId == guest
  }

  /** The checks of addReview in their order: eligibility (403), then an
      earlier review (400). The rating is not range-checked. */
  function ReviewCode(rs: seq<Reservation>, reviews: seq<Review>, guest: Id, propertyId: Id): (code: int)
    ensures !HasConfirmedStay(rs, guest, propertyId) ==> code == 403
    ensures HasConfirmedStay(rs, guest, propertyId) && HasReviewed(reviews, guest, propertyId) ==> code == 400
    ensures code == 201 <==> HasConfirmedStay(rs, guest, propertyId) && !HasReviewed(reviews, guest, propertyId)
  {
    if !HasConfirmedStay(rs, guest, propertyId) then 403
    else if HasReviewed(reviews, guest, propertyId) then 400
    else 201
  }

  /** The row addReview inserts: rating and comment exactly as given. */
  function NewReview(id: Id, propertyId: Id, guest: Id, rating: int, comment: string, now: int): Review {
    Review(id, propertyId, guest, rating, comment, now)
  }

  /** At most one review per (guest, property). */
  ghost predicate OneReviewPerGuest(reviews: seq<Review>) {
    forall i, j :: 0 <= i < j < |reviews| ==>
      !(reviews[i].guestId == reviews[j].guestId && reviews[i].propertyId == reviews[j].propertyId)
  }

  /** A review the checks accept keeps one review per guest and property. */
  lemma AcceptedReviewKeepsOnePerGuest(rs: seq<Reservation>, reviews: seq<Review>, guest: Id, propertyId: Id,
                                       id: Id, rating: int, comment: string, now: int)
    requires OneReviewPerGuest(reviews)
    requires ReviewCode(rs, reviews, guest, propertyId) == 201
    ensures OneReviewPerGuest(reviews + [NewReview(id, propertyId, guest, rating, comment, now)])
  {
    var reviews' := reviews + [NewReview(id, propertyId, guest, rating, comment, now)];
    forall i, j | 0 <= i < j < |reviews'|
      ensures !(reviews'[i].guestId == reviews'[j].guestId && reviews'[i].propertyId == reviews'[j].propertyId)
    {
      if j == |reviews| {
        assert reviews'[i] == reviews[i];
        assert !(reviews[i].propertyId == propertyId && reviews[i].guestId == guest);
      } else {
        assert reviews'[i] == reviews[i] && reviews'[j] == reviews[j];
      }
    }
  }

  /** Once a guest's review is stored, the same guest is refused a second
      one on that property, with 400 while the stay stays confirmed. */
  lemma SecondReviewRefused(rs: seq<Reservation>, reviews: seq<Review>, guest: Id, propertyId: Id,
                            id: Id, rating: int, comment: string, now: int)
    ensures ReviewCode(rs, reviews + [NewReview(id, propertyId, guest, rating, comment, now)], guest, propertyId) != 201
    ensures HasConfirmedStay(rs, guest, propertyId) ==>
      ReviewCode(rs, reviews + [NewReview(id, propertyId, guest, rating, comment, now)], guest, propertyId) == 400
  {
    var reviews' := reviews + [NewReview(id, propertyId, guest, rating, comment, now)];
    assert reviews'[|reviews|].guestId == guest && reviews'[|reviews|].propertyId == propertyId;
  }

  /** ORDER BY created_at DESC. */
  function WrittenLater(a: Review, b: Review): bool {
    a.createdAt >= b.createdAt
  }

  /** getPropertyReviews: the property's reviews, newest first. */
  function PropertyReviews(reviews: seq<Review>, propertyId: Id): (r: seq<Review>)
    ensures forall x :: multiset(r)[x] == if x.propertyId == propertyId then multiset(reviews)[x] else 0
    ensures forall x :: x in r <==> x in reviews && x.propertyId == propertyId
    ensures SortedBy(r, WrittenLater)
  {
    var theirs := Filter(reviews, (x: Review) => x.propertyId == propertyId);
    var r := Sort(theirs, WrittenLater);
    assert forall x :: x in r <==> x in multiset(theirs);
    r
  }
}
