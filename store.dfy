/** The database the controllers write, as one object whose tables the
    handlers update in place. Each method performs one write handler of
    backend/controllers: it runs the handler's checks (the functions of
    Reservations, Properties, Reviews and Messages), answers with the
    handler's status code, and changes exactly the rows the handler's SQL
    changes. Keys are handed out the way SERIAL columns do. */
module Store {
  import opened Query
  import opened Tables
  import opened Reservations
  import opened Properties
  import opened Reviews
  import opened Messages

  class Store {
    var properties: seq<Property>
    var images: seq<Image>
    var reservations: seq<Reservation>
    var reviews: seq<Review>
    var messages: seq<Message>

    var nextPropertyId: Id
    var nextImageId: Id
    var nextReservationId: Id
    var nextReviewId: Id
    var nextMessageId: Id

    /** Every table's keys are increasing and below the next key issued. */
    ghost predicate Valid()
      reads this
    {
      && Keyed(properties, PropertyKey, nextPropertyId)
      && Keyed(images, ImageKey, nextImageId)
      && Keyed(reservations, ReservationKey, nextReservationId)
      && Keyed(reviews, ReviewKey, nextReviewId)
      && Keyed(messages, MessageKey, nextMessageId)
    }

    /** An empty database; SERIAL keys start at 1. */
    constructor ()
      ensures Valid()
      ensures properties == [] && images == [] && reservations == [] && reviews == [] && messages == []
      ensures nextPropertyId == 1 && nextImageId == 1 && nextReservationId == 1
      ensures nextReviewId == 1 && nextMessageId == 1
    {
      properties, images, reservations, reviews, messages := [], [], [], [], [];
      nextPropertyId, nextImageId, nextReservationId, nextReviewId, nextMessageId := 1, 1, 1, 1, 1;
    }

    // ------------------------------------------------------------ properties

    /** createProperty: inserts the listing with the caller as host. */
    method CreateProperty(caller: Id, listing: Listing, now: int) returns (p: Property)
      requires Valid()
      modifies this
      ensures Valid()
      ensures p == Property(old(nextPropertyId), caller, listing, now)
      ensures properties == old(properties) + [p] && nextPropertyId == old(nextPropertyId) + 1
      ensures images == old(images) && reservations == old(reservations)
      ensures reviews == old(reviews) && messages == old(messages)
      ensures nextImageId == old(nextImageId) && nextReservationId == old(nextReservationId)
      ensures nextReviewId == old(nextReviewId) && nextMessageId == old(nextMessageId)
    {
      p := Property(nextPropertyId, caller, listing, now);
      KeyedAppend(properties, PropertyKey, nextPropertyId, p);
      properties := properties + [p];
      nextPropertyId := nextPropertyId + 1;
    }

    /** uploadPropertyImages: after its checks, inserts one image row per
        file, in order, the first one as main. */
    method UploadPropertyImages(caller: Id, propertyId: Id, files: seq<string>) returns (code: int, inserted: seq<Image>)
      requires Valid()
      modifies this
      ensures Valid()
      ensures code == UploadCode(properties, caller, propertyId, |files|)
      ensures code == 201 ==> inserted == UploadedImages(old(nextImageId), propertyId, files)
      ensures code != 201 ==> inserted == []
      ensures images == old(images) + inserted && nextImageId == old(nextImageId) + |inserted|
      ensures properties == old(properties) && reservations == old(reservations)
      ensures reviews == old(reviews) && messages == old(messages)
      ensures nextPropertyId == old(nextPropertyId) && nextReservationId == old(nextReservationId)
      ensures nextReviewId == old(nextReviewId) && nextMessageId == old(nextMessageId)
    {
      code := UploadCode(properties, caller, propertyId, |files|);
      inserted := [];
      if code != 201 {
        return;
      }
      var first := nextImageId;
      ghost var before := images;
      var i := 0;
      while i < |files|
        invariant 0 <= i <= |files|
        invariant inserted == UploadedImages(first, propertyId, files[..i])
        invariant images == before + inserted && nextImageId == first + i
        invariant Keyed(images, ImageKey, nextImageId)
        invariant properties == old(properties) && reservations == old(reservations)
        invariant reviews == old(reviews) && messages == old(messages)
        invariant nextPropertyId == old(nextPropertyId) && nextReservationId == old(nextReservationId)
        invariant nextReviewId == old(nextReviewId) && nextMessageId == old(nextMessageId)
      {
        // one INSERT ... RETURNING * per file
        var image := Image(nextImageId, propertyId, UploadUrl(files[i]), i == 0);
        KeyedAppend(images, ImageKey, nextImageId, image);
        UploadedImagesStep(first, propertyId, files, i);
        images := images + [image];
        inserted := inserted + [image];
        nextImageId := nextImageId + 1;
        i := i + 1;
      }
      assert files[..i] == files;
    }

    /** deleteImage: 403 unless the image belongs to one of the caller's
        properties, otherwise removes that image row. */
    method DeleteImage(caller: Id, imageId: Id) returns (code: int)
      requires Valid()
      modifies this
      ensures Valid()
      ensures code == (if ImageOwned(old(images), properties, caller, imageId) then 200 else 403)
      ensures images == if code == 200 then Filter(old(images), KeepsImage(imageId)) else old(images)
      ensures properties == old(properties) && reservations == old(reservations)
      ensures reviews == old(reviews) && messages == old(messages)
      ensures nextPropertyId == old(nextPropertyId) && nextImageId == old(nextImageId)
      ensures nextReservationId == old(nextReservationId)
      ensures nextReviewId == old(nextReviewId) && nextMessageId == old(nextMessageId)
    {
      if !ImageOwned(images, properties, caller, imageId) {
        return 403;
      }
      KeyedFilter(images, ImageKey, nextImageId, KeepsImage(imageId));
      images := Filter(images, KeepsImage(imageId));
      code := 200;
    }

    /** updateProperty: 403 while the property has active bookings, 404
        unless the caller hosts it, otherwise rewrites its listing. */
    method UpdateProperty(caller: Id, propertyId: Id, listing: Listing, today: Day) returns (code: int)
      requires Valid()
      modifies this
      ensures Valid()
      ensures code == UpdateCode(reservations, old(properties), caller, propertyId, today)
      ensures properties == if code == 200 then WithListing(old(properties), caller, propertyId, listing) else old(properties)
      ensures images == old(images) && reservations == old(reservations)
      ensures reviews == old(reviews) && messages == old(messages)
      ensures nextPropertyId == old(nextPropertyId) && nextImageId == old(nextImageId)
      ensures nextReservationId == old(nextReservationId)
      ensures nextReviewId == old(nextReviewId) && nextMessageId == old(nextMessageId)
    {
      code := UpdateCode(reservations, properties, caller, propertyId, today);
      if code == 200 {
        KeyedSameKeys(properties, WithListing(properties, caller, propertyId, listing), PropertyKey, nextPropertyId);
        properties := WithListing(properties, caller, propertyId, listing);
      }
    }

    /** deleteProperty: 404 unless the caller hosts it, 403 while it has
        active bookings, otherwise removes the property row. */
    method DeleteProperty(caller: Id, propertyId: Id, today: Day) returns (code: int)
      requires Valid()
      modifies this
      ensures Valid()
      ensures code == DeleteCode(reservations, old(properties), caller, propertyId, today)
      ensures properties == if code == 200 then Filter(old(properties), KeepsProperty(propertyId, caller)) else old(properties)
      ensures images == old(images) && reservations == old(reservations)
      ensures reviews == old(reviews) && messages == old(messages)
      ensures nextPropertyId == old(nextPropertyId) && nextImageId == old(nextImageId)
      ensures nextReservationId == old(nextReservationId)
      ensures nextReviewId == old(nextReviewId) && nextMessageId == old(nextMessageId)
    {
      code := DeleteCode(reservations, properties, caller, propertyId, today);
      if code == 200 {
        KeyedFilter(properties, PropertyKey, nextPropertyId, KeepsProperty(propertyId, caller));
        properties := Filter(properties, KeepsProperty(propertyId, caller));
      }
    }

    // ---------------------------------------------------------- reservations

    /** createReservation: after its checks, inserts a pending booking at
        the computed price; no two live bookings of a property overlap
        afterwards if none did before. */
    method CreateReservation(caller: Id, propertyId: Id, start: Day, end: Day, now: int) returns (b: Booking)
      requires Valid()
      modifies this
      ensures Valid()
      ensures b == Book(old(reservations), properties, caller, propertyId, start, end)
      ensures reservations == if b.Accepted?
        then old(reservations) + [NewBooking(old(nextReservationId), propertyId, caller, start, end, b.totalPrice, now)]
        else old(reservations)
      ensures nextReservationId == if b.Accepted? then old(nextReservationId) + 1 else old(nextReservationId)
      ensures NoOverlap(old(reservations)) ==> NoOverlap(reservations)
      ensures properties == old(properties) && images == old(images)
      ensures reviews == old(reviews) && messages == old(messages)
      ensures nextPropertyId == old(nextPropertyId) && nextImageId == old(nextImageId)
      ensures nextReviewId == old(nextReviewId) && nextMessageId == old(nextMessageId)
    {
      b := Book(reservations, properties, caller, propertyId, start, end);
      if b.Accepted? {
        var r := NewBooking(nextReservationId, propertyId, caller, start, end, b.totalPrice, now);
        if NoOverlap(reservations) {
          AcceptedBookingKeepsNoOverlap(reservations, properties, caller, propertyId, start, end, nextReservationId, now);
        }
        KeyedAppend(reservations, ReservationKey, nextReservationId, r);
        reservations := reservations + [r];
        nextReservationId := nextReservationId + 1;
      }
    }

    /** updateReservationStatus as written: after its checks, sets the
        status of the named booking whatever it was before. */
    method UpdateReservationStatus(caller: Id, id: Id, status: string) returns (code: int)
      requires Valid()
      modifies this
      ensures Valid()
      ensures code == StatusUpdateCode(old(reservations), properties, caller, id, status)
      ensures reservations ==
        if code == 200 then WithStatus(old(reservations), id, ParseStatus(status).value) else old(reservations)
      ensures properties == old(properties) && images == old(images)
      ensures reviews == old(reviews) && messages == old(messages)
      ensures nextPropertyId == old(nextPropertyId) && nextImageId == old(nextImageId)
      ensures nextReservationId == old(nextReservationId)
      ensures nextReviewId == old(nextReviewId) && nextMessageId == old(nextMessageId)
    {
      code := StatusUpdateCode(reservations, properties, caller, id, status);
      if code == 200 {
        var rs' := WithStatus(reservations, id, ParseStatus(status).value);
        KeyedSameKeys(reservations, rs', ReservationKey, nextReservationId);
        reservations := rs';
      }
    }

    /** The corrected status update: it also refuses (409) to confirm a
        cancelled booking whose days were taken meanwhile, and so keeps the
        availability invariant. */
    method UpdateReservationStatusChecked(caller: Id, id: Id, status: string) returns (code: int)
      requires Valid()
      modifies this
      ensures Valid()
      ensures code == CheckedStatusUpdateCode(old(reservations), properties, caller, id, status)
      ensures reservations ==
        if code == 200 then WithStatus(old(reservations), id, ParseStatus(status).value) else old(reservations)
      ensures NoOverlap(old(reservations)) ==> NoOverlap(reservations)
      ensures properties == old(properties) && images == old(images)
      ensures reviews == old(reviews) && messages == old(messages)
      ensures nextPropertyId == old(nextPropertyId) && nextImageId == old(nextImageId)
      ensures nextReservationId == old(nextReservationId)
      ensures nextReviewId == old(nextReviewId) && nextMessageId == old(nextMessageId)
    {
      code := CheckedStatusUpdateCode(reservations, properties, caller, id, status);
      if code == 200 {
        var rs' := WithStatus(reservations, id, ParseStatus(status).value);
        KeyedDistinct(reservations, ReservationKey, nextReservationId);
        if NoOverlap(reservations) {
          CheckedStatusUpdateKeepsNoOverlap(reservations, properties, caller, id, status);
        }
        KeyedSameKeys(reservations, rs', ReservationKey, nextReservationId);
        reservations := rs';
      }
    }

    // --------------------------------------------------------------- reviews

    /** addReview: after its checks, inserts the review; at most one review
        per guest and property if that held before. */
    method AddReview(caller: Id, propertyId: Id, rating: int, comment: string, now: int) returns (code: int)
      requires Valid()
      modifies this
      ensures Valid()
      ensures code == ReviewCode(reservations, old(reviews), caller, propertyId)
      ensures reviews == if code == 201
        then old(reviews) + [NewReview(old(nextReviewId), propertyId, caller, rating, comment, now)]
        else old(reviews)
      ensures nextReviewId == if code == 201 then old(nextReviewId) + 1 else old(nextReviewId)
      ensures OneReviewPerGuest(old(reviews)) ==> OneReviewPerGuest(reviews)
      ensures properties == old(properties) && images == old(images)
      ensures reservations == old(reservations) && messages == old(messages)
      ensures nextPropertyId == old(nextPropertyId) && nextImageId == old(nextImageId)
      ensures nextReservationId == old(nextReservationId) && nextMessageId == old(nextMessageId)
    {
      code := ReviewCode(reservations, reviews, caller, propertyId);
      if code == 201 {
        var r := NewReview(nextReviewId, propertyId, caller, rating, comment, now);
        if OneReviewPerGuest(reviews) {
          AcceptedReviewKeepsOnePerGuest(reservations, reviews, caller, propertyId, nextReviewId, rating, comment, now);
        }
        KeyedAppend(reviews, ReviewKey, nextReviewId, r);
        reviews := reviews + [r];
        nextReviewId := nextReviewId + 1;
      }
    }

    // -------------------------------------------------------------- messages

    /** sendMessage: inserts an unread message from the caller. */
    method SendMessage(caller: Id, receiver: Id, propertyId: Id, content: string, now: int) returns (m: Message)
      requires Valid()
      modifies this
      ensures Valid()
      ensures m == NewMessage(old(nextMessageId), caller, receiver, propertyId, content, now)
      ensures messages == old(messages) + [m] && nextMessageId == old(nextMessageId) + 1
      ensures properties == old(properties) && images == old(images)
      ensures reservations == old(reservations) && reviews == old(reviews)
      ensures nextPropertyId == old(nextPropertyId) && nextImageId == old(nextImageId)
      ensures nextReservationId == old(nextReservationId) && nextReviewId == old(nextReviewId)
    {
      m := NewMessage(nextMessageId, caller, receiver, propertyId, content, now);
      KeyedAppend(messages, MessageKey, nextMessageId, m);
      messages := messages + [m];
      nextMessageId := nextMessageId + 1;
    }

    /** markAsRead: marks read what the contact sent the caller about the
        property. */
    method MarkAsRead(caller: Id, propertyId: Id, contact: Id)
      requires Valid()
      modifies this
      ensures Valid()
      ensures messages == MarkedRead(old(messages), propertyId, contact, caller)
      ensures properties == old(properties) && images == old(images)
      ensures reservations == old(reservations) && reviews == old(reviews)
      ensures nextPropertyId == old(nextPropertyId) && nextImageId == old(nextImageId)
      ensures nextReservationId == old(nextReservationId) && nextReviewId == old(nextReviewId)
      ensures nextMessageId == old(nextMessageId)
    {
      var ms' := MarkedRead(messages, propertyId, contact, caller);
      KeyedSameKeys(messages, ms', MessageKey, nextMessageId);
      messages := ms';
    }
  }
}
