/** The listing page of frontend/src/pages/PropertyDetails.jsx: the price
    preview the page recomputes as dates are picked, the client-side guard
    on the booking button, and the photo gallery it assembles from the
    property's images. */
module DetailsPage {
  import opened Query
  import opened Tables
  import Reservations

  // ---------------------------------------------------------- price preview

  /** The preview for a date range: the nights (the ceiling of the day
      difference, which is the difference for whole days) times the nightly
      price when there is at least one night, and 0 otherwise. */
  function PricePreview(start: Day, end: Day, pricePerNight: int): (price: int)
    ensures start < end ==> price == Reservations.Nights(start, end) * pricePerNight
    ensures start >= end ==> price == 0
    ensures price != 0 ==> start < end
  {
    var days := end - start;
    if days > 0 then days * pricePerNight else 0
  }

  /** The price effect: it recomputes the preview only when both dates and
      the property are present, and otherwise keeps the current value. */
  function PriceAfterEffect(start: Option<Day>, end: Option<Day>, property: Option<Property>, current: int): (price: int)
    ensures start.Some? && end.Some? && property.Some? ==>
      price == PricePreview(start.value, end.value, property.value.listing.pricePerNight)
    ensures start.None? || end.None? || property.None? ==> price == current
  {
    if start.Some? && end.Some? && property.Some? then
      PricePreview(start.value, end.value, property.value.listing.pricePerNight)
    else current
  }

  /** The preview shows what createReservation will charge: for the
      property the page loaded, an accepted booking costs the previewed
      price. */
  lemma PreviewIsTheChargedPrice(rs: seq<Reservation>, ps: seq<Property>, guest: Id, p: Property, start: Day, end: Day)
    requires FindProperty(ps, p.id) == Some(p)
    requires Reservations.Book(rs, ps, guest, p.id, start, end).Accepted?
    ensures PricePreview(start, end, p.listing.pricePerNight) == Reservations.Book(rs, ps, guest, p.id, start, end).totalPrice
  {
  }

  /** What the booking button does. */
  datatype BookingStep = AskToLogIn | AskForDates | SendRequest

  /** handleBooking: a visitor is sent to log in, a non-positive total is
      refused, and only then is the request posted. */
  function BookingStepFor(loggedIn: bool, totalPrice: int): (step: BookingStep)
    ensures !loggedIn ==> step == AskToLogIn
    ensures step == SendRequest <==> loggedIn && totalPrice > 0
    ensures step == AskForDates <==> loggedIn && totalPrice <= 0
  {
    if !loggedIn then AskToLogIn
    else if totalPrice <= 0 then AskForDates
    else SendRequest
  }

  /** A request the page sends after a fresh preview carries a range the
      server's date check accepts. */
  lemma SentRequestHasValidRange(start: Day, end: Day, pricePerNight: int)
    requires BookingStepFor(true, PricePreview(start, end, pricePerNight)) == SendRequest
    ensures start < end
  {
  }

  /** A listing with a price of 0 or less can never be booked from the
      page: the preview is never positive. */
  lemma FreeListingIsNeverSent(start: Day, end: Day, pricePerNight: int, loggedIn: bool)
    requires pricePerNight <= 0
    ensures BookingStepFor(loggedIn, PricePreview(start, end, pricePerNight)) != SendRequest
  {
    if start < end {
      assert (end - start) * pricePerNight <= 0 by {
        assert end - start > 0;
      }
    }
  }

  // ---------------------------------------------------------------- gallery

  /** The address the page prefixes to a stored image url. */
  const Backend: string := "http://localhost:5000"

  /** The four stock photos that pad a short gallery. */
  const DefaultImages: seq<string> := [
    "https://images.unsplash.com/photo-1502672260266-1c1ef2d93688?auto=format&fit=crop&w=800&q=80",
    "https://images.unsplash.com/photo-1484154218962-a197022b5858?auto=format&fit=crop&w=800&q=80",
    "https://images.unsplash.com/photo-1584622650111-993a426fbf0a?auto=format&fit=crop&w=800&q=80",
    "https://images.unsplash.com/photo-1560185007-cde436f6a4d0?auto=format&fit=crop&w=800&q=80"
  ]

  /** The smallest gallery the page shows. */
  const GallerySize: nat := 5

  function Url(image: Image): string {
    Backend + image.imageUrl
  }

  /** `images.find(img => img.is_main)`, as an index. */
  function FirstMain(images: seq<Image>): (r: Option<nat>)
    ensures r.Some? ==> r.value < |images| && images[r.value].isMain
    ensures r.Some? ==> forall k :: 0 <= k < r.value ==> !images[k].isMain
    ensures r.None? <==> forall k :: 0 <= k < |images| ==> !images[k].isMain
  {
    if images == [] then None
    else if images[0].isMain then Some(0)
    else match FirstMain(images[1..])
      case None => None
      case Some(k) => Some(k + 1)
  }

  /** The cover: the first main image, falling back to the first image. */
  function CoverIndex(images: seq<Image>): (r: Option<nat>)
    ensures r.Some? <==> |images| > 0
    ensures r.Some? ==> r.value < |images|
    ensures r.Some? && (exists k :: 0 <= k < |images| && images[k].isMain) ==> images[r.value].isMain
    ensures r.Some? && !images[r.value].isMain ==> r.value == 0
    ensures r.Some? ==> forall k :: 0 <= k < r.value ==> !images[k].isMain
  {
    match FirstMain(images)
    case Some(k) => Some(k)
    case None => if |images| > 0 then Some(0) else None
  }

  /** The urls the forEach pushes after the cover: those of the first `j`
      images, skipping the one at index `cover`. */
  function OtherUrls(images: seq<Image>, cover: int, j: nat): seq<string>
    requires j <= |images|
  {
    if j == 0 then []
    else OtherUrls(images, cover, j - 1) + (if j - 1 == cover then [] else [Url(images[j - 1])])
  }

  /** Before the cover, every image is pushed in order. */
  lemma {:induction false} OtherUrlsBeforeCover(images: seq<Image>, cover: int, j: nat)
    requires 0 <= cover < |images| && j <= cover
    ensures OtherUrls(images, cover, j) == Map(images[..j], Url)
    decreases j
  {
    if j > 0 {
      OtherUrlsBeforeCover(images, cover, j - 1);
      assert images[..j] == images[..j - 1] + [images[j - 1]];
      MapAppend(images[..j - 1], images[j - 1], Url);
    }
  }

  /** Every image but the cover follows it exactly once, in table order. */
  lemma {:induction false} OtherUrlsSkipCover(images: seq<Image>, cover: int, j: nat)
    requires 0 <= cover < j <= |images|
    ensures OtherUrls(images, cover, j) == Map(images[..cover] + images[cover + 1..j], Url)
    decreases j
  {
    if j - 1 == cover {
      OtherUrlsBeforeCover(images, cover, cover);
      assert images[..cover] + images[cover + 1..j] == images[..cover];
    } else {
      OtherUrlsSkipCover(images, cover, j - 1);
      var before := images[..cover] + images[cover + 1..j - 1];
      assert images[..cover] + images[cover + 1..j] == before + [images[j - 1]];
      MapAppend(before, images[j - 1], Url);
    }
  }

  /** The gallery before padding: cover first, then the others. */
  function ImageUrls(images: seq<Image>): (r: seq<string>)
    ensures |r| == |images|
  {
    match CoverIndex(images)
    case None => []
    case Some(c) => OtherUrlsLength(images, c, |images|); [Url(images[c])] + OtherUrls(images, c, |images|)
  }

  lemma {:induction false} OtherUrlsLength(images: seq<Image>, cover: int, j: nat)
    requires 0 <= cover < |images| && j <= |images|
    ensures |OtherUrls(images, cover, j)| == if j <= cover then j else j - 1
    decreases j
  {
    if j > 0 {
      OtherUrlsLength(images, cover, j - 1);
    }
  }

  /** The padding loop: stock photos, picked by position, until there are
      five entries. */
  function Pad(gallery: seq<string>): seq<string>
    decreases GallerySize - |gallery|
  {
    if |gallery| >= GallerySize then gallery
    else Pad(gallery + [DefaultImages[|gallery| % |DefaultImages|]])
  }

  /** Padding keeps what is there, reaches five entries, and fills slot i
      with stock photo i mod 4. */
  lemma {:induction false} PadShape(gallery: seq<string>)
    ensures |Pad(gallery)| == if |gallery| >= GallerySize then |gallery| else GallerySize
    ensures Pad(gallery)[..|gallery|] == gallery
    ensures forall i :: |gallery| <= i < |Pad(gallery)| ==> Pad(gallery)[i] == DefaultImages[i % 4]
    decreases GallerySize - |gallery|
  {
    if |gallery| < GallerySize {
      var next := gallery + [DefaultImages[|gallery| % |DefaultImages|]];
      PadShape(next);
      assert Pad(gallery)[..|gallery|] == Pad(gallery)[..|next|][..|gallery|];
    }
  }

  /** The gallery the page renders: max(5, n) entries for n images, the
      image urls first, then stock photos by slot. */
  function Gallery(images: seq<Image>): (g: seq<string>)
    ensures |g| == if |images| >= GallerySize then |images| else GallerySize
    ensures g[..|images|] == ImageUrls(images)
    ensures forall i :: |images| <= i < |g| ==> g[i] == DefaultImages[i % 4]
  {
    PadShape(ImageUrls(images));
    Pad(ImageUrls(images))
  }

  /** What the image part of the gallery shows: the cover first, every
      other image once, in order. */
  lemma GalleryShape(images: seq<Image>)
    ensures |images| > 0 ==> Gallery(images)[0] == Url(images[CoverIndex(images).value])
    ensures |images| > 0 ==> var c := CoverIndex(images).value;
      Gallery(images)[1..|images|] == Map(images[..c] + images[c + 1..], Url)
  {
    var urls := ImageUrls(images);
    if |images| > 0 {
      var c := CoverIndex(images).value;
      OtherUrlsSkipCover(images, c, |images|);
      assert images[c + 1..|images|] == images[c + 1..];
      assert Gallery(images)[..|urls|] == urls;
      assert Gallery(images)[1..|images|] == urls[1..];
    }
  }

  /** The gallery construction as the page performs it: find the cover,
      push it, push every other image, then pad. */
  method BuildGallery(images: seq<Image>) returns (gallery: seq<string>)
    ensures gallery == Gallery(images)
  {
    var k := 0;
    while k < |images| && !images[k].isMain
      invariant 0 <= k <= |images|
      invariant forall j :: 0 <= j < k ==> !images[j].isMain
    {
      k := k + 1;
    }
    gallery := [];
    if |images| == 0 {
      assert ImageUrls(images) == [];
    } else {
      var cover := if k < |images| then k else 0;
      assert CoverIndex(images) == Some(cover) by {
        if k < |images| {
          assert FirstMain(images) == Some(k);
        } else {
          assert FirstMain(images) == None;
        }
      }
      gallery := gallery + [Url(images[cover])];
      var j := 0;
      while j < |images|
        invariant 0 <= j <= |images|
        invariant gallery == [Url(images[cover])] + OtherUrls(images, cover, j)
      {
        if j != cover {
          gallery := gallery + [Url(images[j])];
        }
        j := j + 1;
      }
    }
    while |gallery| < GallerySize
      invariant Pad(gallery) == Gallery(images)
      decreases GallerySize - |gallery|
    {
      gallery := gallery + [DefaultImages[|gallery| % |DefaultImages|]];
    }
  }
}
