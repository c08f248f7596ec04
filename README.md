# nestflow marketplace: a Dafny model of the booking core

nestflow is a vacation-rental marketplace. Hosts list properties with
photos. Guests request stays, the host confirms or cancels them, and guests
with a confirmed stay review the property. Guests and hosts exchange messages
about a property. This project models the four Express controllers that hold
the business rules, and the four React pages that compute on the data they
return:

- `reservations.dfy` (module `Reservations`) models `backend/controllers/reservationController.js`: the date and overlap checks, the price of a booking, the host's status update, and the trip and booking lists.
- `properties.dfy` (module `Properties`) models `backend/controllers/propertyController.js`: the upload, image, update and delete guards, the catalogue and detail queries, and the host dashboard.
- `reviews.dfy` (module `Reviews`) models `backend/controllers/reviewController.js`: one review per guest with a confirmed stay.
- `messages.dfy` (module `Messages`) models `backend/controllers/messageController.js`: sending, the inbox, marking read, and the chat history.
- `store.dfy` (class `Store.Store`) holds the five tables as fields that the write handlers update in place. It has one method per handler that writes. Each method keeps the id counters ahead of every key.
- `property_details.dfy` (module `DetailsPage`) models `frontend/src/pages/PropertyDetails.jsx`: the price preview, the booking guard and the gallery loop.
- `all_properties.dfy` (module `CataloguePage`) models `frontend/src/pages/AllProperties.jsx`: the price ceiling and the filter engine.
- `add_property.dfy` (module `AddPropertyPage`) models `frontend/src/pages/AddProperty.jsx`: the photo list, amenity toggling and the form guards.
- `home.dfy` (module `HomePage`) models `frontend/src/pages/Home.jsx`: image urls and the listing strip.
- `query.dfy`, `tables.dfy` and `text.dfy` hold shared parts:
  - SQL-like `Filter`, `Map` and a stable sort.
  - The row datatypes and the rule that a key counter is always ahead of every key.
  - Substring tests.

Dates are day numbers, so `Math.ceil` of a whole-day difference is the
difference itself. "Now" and "today" are parameters. Each SQL query is a
function over the table sequences. Where the SQL sorts, the contracts claim
only what `ORDER BY` promises: the rows are sorted, and they are a
permutation of the selected rows. Where the SQL leaves the order open, the
model returns the rows in table order; "## Left out" names those queries.

## Model

| member | source | states |
|---|---|---|
| Reservations.Book | backend/controllers/reservationController.js:9-46 | Checks run in source order. `start >= end` gives 400. A non-cancelled overlapping stay gives 409. A missing property gives 404. Past those checks, self-booking gives 400, and any other booking is accepted at nights times the nightly price. |
| Reservations.AcceptedBookingKeepsNoOverlap | backend/controllers/reservationController.js:17-27 | A booking the checks accept keeps the invariant that no two non-cancelled stays of one property overlap. |
| Reservations.BackToBackBookingsDoNotConflict | backend/controllers/reservationController.js:21 | The strict comparisons make stays half-open: a stay ending on the requested start day is no conflict. |
| Reservations.BookingScenario | backend/controllers/reservationController.js:10-46 | Worked case: an overlap gives 409, a back-to-back stay is accepted at 2 nights times 50, and the host booking their own property gives 400. |
| Reservations.ParseStatus | backend/controllers/reservationController.js:118-120 | Only "confirmed" and "cancelled" are accepted, never pending. |
| Reservations.StatusUpdateCode | backend/controllers/reservationController.js:118-133 | A bad status gives 400. A caller who does not host the reservation's property gives 403. Otherwise 200 (both directions). |
| Reservations.WithStatus | backend/controllers/reservationController.js:136-139 | Rows with the id get the new status, with every other column unchanged. Every other row is unchanged. |
| Reservations.StatusUpdateTouchesOneRow | backend/controllers/reservationController.js:136-139 | With distinct ids, the update changes exactly the named row. |
| Reservations.ReopeningBreaksNoOverlap | backend/controllers/reservationController.js:136-139 | As written: confirming a cancelled booking whose days were rebooked breaks the no-overlap invariant. |
| Reservations.CheckedStatusUpdateCode | backend/controllers/reservationController.js:113-147 | Corrected: 409 exactly when the update as written would answer 200 while confirming a cancelled booking into a conflict, so a stranger still gets 403 and a bad status 400. Every other answer is the one as written. |
| Reservations.CheckedStatusUpdateKeepsNoOverlap | backend/controllers/reservationController.js:136-139 | The corrected update preserves no-overlap. |
| Reservations.MyTrips | backend/controllers/reservationController.js:67-83 | Exactly the caller's reservations on existing properties, with multiplicities, sorted by start date descending. |
| Reservations.HostReservations | backend/controllers/reservationController.js:87-110 | Exactly the reservations on the caller's properties, with multiplicities, sorted by creation descending. |
| Properties.ActiveBookingCount | backend/controllers/propertyController.js:136-148 | The count is positive iff a pending or confirmed stay of the property ends today or later. |
| Properties.ActiveBookingCountAppend | backend/controllers/propertyController.js:181-185 | The `COUNT(*)` is exact: 0 on an empty table, and one more row adds one iff it is an active booking of the property. |
| Properties.UploadCode | backend/controllers/propertyController.js:28-33 | No files gives 400. An unknown property gives 404. With files and a known property: 403 for a foreign host, 201 for its host. |
| Properties.UploadUrl | backend/controllers/propertyController.js:37 | The stored url is "/uploads/" followed by the file name. |
| Properties.UploadedImages | backend/controllers/propertyController.js:35-45 | One row per file, in order, with consecutive ids and the property's id and upload url. The first row is the main image. |
| Properties.UploadedImagesStep | backend/controllers/propertyController.js:36-44 | Each loop pass appends exactly the row for file i. |
| Properties.UploadHasOneMainImage | backend/controllers/propertyController.js:38 | No two rows of one upload are both main. |
| Properties.FirstUploadSetsCatalogueImage | backend/controllers/propertyController.js:35-45 | If the property has no main image, its first uploaded file becomes the catalogue picture. |
| Properties.UpdateCode | backend/controllers/propertyController.js:136-158 | Active bookings give 403 for any caller. Otherwise not the owner gives 404. 200 iff the owner and no active bookings. |
| Properties.WithListing | backend/controllers/propertyController.js:150-158 | Only the caller's row with that id takes the new listing. Every other row and column is unchanged. |
| Properties.DeleteCode | backend/controllers/propertyController.js:205-217 | Not the owner gives 404. Otherwise active bookings give 403. 200 iff the owner and no active bookings. |
| Properties.GuardOrderDiffers | backend/controllers/propertyController.js:136-217 | A stranger editing a booked property gets 403, but deleting it gets 404. |
| Properties.MainImageUrl | backend/controllers/propertyController.js:79 | Some iff the property has a main image, and then the url of one of them. |
| Properties.AllProperties | backend/controllers/propertyController.js:75-97 | One row per property with its image, rating sum and review count, sorted by average then count, both descending. |
| Properties.RanksBeforeIsTotal | backend/controllers/propertyController.js:85 | The catalogue order is a total preorder. |
| Properties.UnreviewedAveragesZero | backend/controllers/propertyController.js:80-83 | A property nobody reviewed shows an average rating of 0. |
| Properties.PropertyById | backend/controllers/propertyController.js:100-128 | None (404) iff the id is unknown. Otherwise the property and exactly its images, main ones first. |
| Properties.JoinedBookings | backend/controllers/propertyController.js:169-178 | The joined rows are exactly the confirmed reservations on the host's properties. |
| Properties.Summary | backend/controllers/propertyController.js:169-178 | totalPosts counts the distinct ids of the host's properties, totalClients the distinct guests of the joined rows, and totalRevenue the sum of their prices. |
| Properties.PostIds | backend/controllers/propertyController.js:171 | An id is counted iff some property of the host has it. |
| Properties.Clients | backend/controllers/propertyController.js:172 | A guest is counted iff they hold a confirmed reservation on one of the host's properties. |
| Properties.NewPropertyAddsPost | backend/controllers/propertyController.js:171 | A new property of the host, with a fresh id, adds one post. |
| Properties.NewBookingKeepsSummary | backend/controllers/propertyController.js:169-178 | A new (pending) booking changes nothing on the summary. |
| Properties.ConfirmingAddsRevenue | backend/controllers/propertyController.js:173-176 | Confirming a request on the host's property adds its price to the revenue, and leaves the post count unchanged. |
| Properties.ConfirmingAddsClient | backend/controllers/propertyController.js:172-176 | Confirming a request on the host's property adds exactly its guest to the clients. |
| Properties.PendingRequestsAlwaysZero | backend/controllers/propertyController.js:174-176 | As written: the dashboard's pending count is always 0. |
| Properties.PendingRequestExample | backend/controllers/propertyController.js:174-176 | One waiting request: as written the count is 0, corrected it is 1. |
| Properties.PendingRequests | backend/controllers/propertyController.js:174-176 | Corrected count: positive iff some pending reservation waits on one of the host's properties. |
| Properties.NewBookingIsPendingRequest | backend/controllers/propertyController.js:174-176 | Corrected count: each new booking on the host's property adds one. |
| Properties.NewBookingKeepsRevenue | backend/controllers/propertyController.js:173-176 | Revenue counts confirmed stays only, so a new pending booking leaves it unchanged. |
| Properties.HostProperties | backend/controllers/propertyController.js:180-188 | Exactly the host's properties, each once, each with its active-booking count (in table order, see "## Left out"). |
| Properties.HostPropertiesArePermutation | backend/controllers/propertyController.js:180-188 | In any order, the rows hold each of the host's properties exactly as often as the table does. |
| Properties.DashboardBadgeMatchesGuards | backend/controllers/propertyController.js:180-217 | A dashboard row shows active bookings iff updating or deleting that property is refused with 403. |
| Reviews.ReviewCode | backend/controllers/reviewController.js:12-32 | No confirmed stay gives 403. An earlier review gives 400. 201 iff a confirmed stay and no earlier review. |
| Reviews.AcceptedReviewKeepsOnePerGuest | backend/controllers/reviewController.js:25-38 | An accepted review keeps at most one review per guest and property. |
| Reviews.SecondReviewRefused | backend/controllers/reviewController.js:25-32 | After a stored review, the same guest is never accepted again, and gets 400 while the stay stays confirmed. |
| Reviews.PropertyReviews | backend/controllers/reviewController.js:49-65 | Exactly the property's reviews, with multiplicities, newest first. |
| Messages.MarkedRead | backend/controllers/messageController.js:57-69 | A row becomes read iff it was read or matches (property, contact to caller). No other column changes. |
| Messages.MarkedReadIdempotent | backend/controllers/messageController.js:61-64 | Marking twice is marking once. |
| Messages.MarkedReadOnlyOwnInbox | backend/controllers/messageController.js:61-64 | Read messages stay read, and messages not addressed to the caller are untouched. |
| Messages.ChatHistory | backend/controllers/messageController.js:72-88 | Exactly the property's messages between the two parties, in either direction, with multiplicities, oldest first. |
| Messages.ChatHistorySymmetric | backend/controllers/messageController.js:76-81 | Both parties see the same messages. |
| Messages.SentMessageInHistory | backend/controllers/messageController.js:4-19 | A sent message appears in the history of both sender and receiver. |
| Messages.LatestIdsAreGroupMaxima | backend/controllers/messageController.js:42-46 | An id is selected iff it belongs to a message of the caller that is the largest of its (pair, property) group. |
| Messages.Entries | backend/controllers/messageController.js:28-46 | One entry per listed message and nothing else. The contact is never the caller. |
| Messages.Conversations | backend/controllers/messageController.js:24-54 | Same entries as Entries, newest first. |
| Messages.ListedIsLatest | backend/controllers/messageController.js:42-46 | With distinct ids, a listed message is the latest of its conversation. |
| Messages.ListedDifferentGroups | backend/controllers/messageController.js:42-46 | Two different listed messages show different (contact, property) pairs. |
| Messages.ConversationsOnePerContactAndProperty | backend/controllers/messageController.js:24-54 | The inbox lists each (contact, property) conversation at most once. |
| Messages.ConversationShowsLatest | backend/controllers/messageController.js:42-46 | Every inbox entry comes from the latest message of its conversation. |
| Messages.GroupHasTop | backend/controllers/messageController.js:42-46 | Every group that holds a message of the caller has a message with the largest id. |
| Messages.ConversationsListEveryConversation | backend/controllers/messageController.js:24-54 | Every conversation of the caller with another party, about an existing property, has an entry with that contact and property. |
| Messages.UnreadFrom | backend/controllers/messageController.js:36-37 | As written: positive iff some message from the contact to the caller is unread, whatever its property. |
| Messages.UnreadFromAppend | backend/controllers/messageController.js:36-37 | The count is exact: one more message adds one iff it is unread, from the contact and to the caller, whatever its property. |
| Messages.UnreadInConversation | backend/controllers/messageController.js:36-37 | Corrected: positive iff some message of this conversation from the contact to the caller is unread. Never above the count as written. |
| Messages.UnreadInConversationAppend | backend/controllers/messageController.js:36-37 | The corrected count is exact: one more message adds one iff it is unread, from the contact, to the caller and about this property. |
| Messages.OpeningClearsConversation | backend/controllers/messageController.js:57-69 | After markAsRead, the corrected unread count of that conversation is 0. |
| Messages.UnreadCountSpansProperties | backend/controllers/messageController.js:36-37 | As written: an opened conversation still shows 1 unread when the contact wrote about another property. |
| Store.Store.CreateProperty | backend/controllers/propertyController.js:4-21 | Appends the caller's property with the next id. Nothing else changes. |
| Store.Store.UploadPropertyImages | backend/controllers/propertyController.js:24-51 | Returns UploadCode. On 201 the loop appends exactly UploadedImages. Otherwise nothing changes. |
| Store.Store.DeleteImage | backend/controllers/propertyController.js:54-72 | 200 iff the image is on the caller's property, and then only that image row is removed. Otherwise 403 and nothing changes. |
| Store.Store.UpdateProperty | backend/controllers/propertyController.js:131-163 | Returns UpdateCode. On 200 the table becomes WithListing. |
| Store.Store.DeleteProperty | backend/controllers/propertyController.js:200-224 | Returns DeleteCode. On 200 the caller's row with that id is removed. |
| Store.Store.CreateReservation | backend/controllers/reservationController.js:4-64 | Returns Book. An accepted booking appends a pending row at the computed price. No-overlap is preserved. |
| Store.Store.UpdateReservationStatus | backend/controllers/reservationController.js:113-147 | As written: returns StatusUpdateCode, and on 200 the table becomes WithStatus. |
| Store.Store.UpdateReservationStatusChecked | backend/controllers/reservationController.js:113-147 | Corrected update: the same, but preserves no-overlap. |
| Store.Store.AddReview | backend/controllers/reviewController.js:4-46 | Returns ReviewCode. On 201 the review is appended. At most one review per guest and property is preserved. |
| Store.Store.SendMessage | backend/controllers/messageController.js:4-19 | Appends an unread message from the caller with the next id. |
| Store.Store.MarkAsRead | backend/controllers/messageController.js:57-69 | The messages table becomes MarkedRead. Nothing else changes. |
| Tables.KeyedFilter | backend/controllers/propertyController.js:67 | Deleting rows keeps keys increasing and below the counter. |
| DetailsPage.PricePreview | frontend/src/pages/PropertyDetails.jsx:56-57 | Nights times the price when the range is non-empty, otherwise 0. Never non-zero for an empty range. |
| DetailsPage.PriceAfterEffect | frontend/src/pages/PropertyDetails.jsx:52-59 | Recomputes only when both dates and the property are present. Otherwise keeps the shown total. |
| DetailsPage.PreviewIsTheChargedPrice | frontend/src/pages/PropertyDetails.jsx:52-59 | The preview equals the total that createReservation charges when it accepts. |
| DetailsPage.BookingStepFor | frontend/src/pages/PropertyDetails.jsx:62-70 | A visitor is sent to log in. A request is sent iff logged in with a positive total. |
| DetailsPage.SentRequestHasValidRange | frontend/src/pages/PropertyDetails.jsx:62-78 | A request sent after a fresh preview has a range the server accepts. |
| DetailsPage.FreeListingIsNeverSent | frontend/src/pages/PropertyDetails.jsx:57-70 | A listing priced at 0 or less can never be booked from the page. |
| DetailsPage.CoverIndex | frontend/src/pages/PropertyDetails.jsx:109 | Some iff there are images. The cover is the first main image (no main image before it), or index 0 when there is none. |
| DetailsPage.OtherUrlsSkipCover | frontend/src/pages/PropertyDetails.jsx:110-112 | The forEach pushes every image but the cover, once each, in order. |
| DetailsPage.PadShape | frontend/src/pages/PropertyDetails.jsx:113 | Padding keeps the prefix, reaches 5 entries, and fills slot i with stock photo i mod 4. |
| DetailsPage.Gallery | frontend/src/pages/PropertyDetails.jsx:107-113 | max(5, n) entries: the image urls first, then stock photo i mod 4 in slot i. |
| DetailsPage.GalleryShape | frontend/src/pages/PropertyDetails.jsx:107-112 | The cover first, then every other image once, in order. |
| DetailsPage.BuildGallery | frontend/src/pages/PropertyDetails.jsx:107-113 | The page's find, push and pad loops build exactly Gallery. |
| CataloguePage.HighestPrice | frontend/src/pages/AllProperties.jsx:30 | An upper bound of every price that is itself some listing's price. |
| CataloguePage.Ceiling | frontend/src/pages/AllProperties.jsx:31 | A multiple of 100, at least the price and less than 100 above it. |
| CataloguePage.CeilingIsSmallest | frontend/src/pages/AllProperties.jsx:31 | No smaller multiple of 100 reaches the price. |
| CataloguePage.Loaded | frontend/src/pages/AllProperties.jsx:14-34 | After loading, the slider sits at its bound, which is 1000 with no listings and otherwise a multiple of 100 covering every price. |
| CataloguePage.Reset | frontend/src/pages/AllProperties.jsx:135 | Reset clears the term and puts the slider back at its bound. |
| CataloguePage.LowerIdempotent | frontend/src/pages/AllProperties.jsx:52 | Lowercasing twice is lowercasing once. |
| CataloguePage.TextTestIgnoresCase | frontend/src/pages/AllProperties.jsx:52-56 | The text test does not depend on the case of the term. |
| CataloguePage.Filtered | frontend/src/pages/AllProperties.jsx:48-61 | The two passes equal one filter by both tests (the text test only for a non-empty term), so each kept listing appears as often as in the catalogue and in its order. |
| CataloguePage.LoadedShowsEverything | frontend/src/pages/AllProperties.jsx:29-61 | Right after loading, and after a reset whatever term and slider position the user had set, every listing is shown. |
| AddPropertyPage.AddFiles | frontend/src/pages/AddProperty.jsx:42-52 | More than 5 in all changes nothing. Otherwise files and previews are appended in order. |
| AddPropertyPage.AddFilesKeepsConsistent | frontend/src/pages/AddProperty.jsx:42-52 | One preview per file, and at most 5 files, are preserved. |
| AddPropertyPage.Spliced | frontend/src/pages/AddProperty.jsx:56 | Removes the element at the splice position, or nothing when that is past the end. |
| AddPropertyPage.RemoveImage | frontend/src/pages/AddProperty.jsx:54-62 | Both lists lose the same position: at most one photo goes, equal lengths stay equal, and each remaining file and its preview are the ones from its old position. |
| AddPropertyPage.RemoveImageKeepsPairs | frontend/src/pages/AddProperty.jsx:54-62 | On a consistent form, removal keeps it consistent, drops one pair for an index in range and changes nothing past the end. |
| AddPropertyPage.RemoveLastByNegativeIndex | frontend/src/pages/AddProperty.jsx:54-62 | Index -1 removes the last photo. |
| AddPropertyPage.ToggleAmenity | frontend/src/pages/AddProperty.jsx:64-71 | A present id is removed everywhere, an absent one appended. Other fields are untouched. |
| AddPropertyPage.ToggleFlipsOnlyThatAmenity | frontend/src/pages/AddProperty.jsx:64-71 | Membership of the id flips, and every other id keeps its membership. |
| AddPropertyPage.ToggleTwiceRestores | frontend/src/pages/AddProperty.jsx:64-71 | Ticking then unticking a new amenity restores the form. |
| AddPropertyPage.InitialPageGuards | frontend/src/pages/AddProperty.jsx:24-34 | The initial page cannot submit and offers the add-photo control. |
| AddPropertyPage.HiddenControlMeansFull | frontend/src/pages/AddProperty.jsx:191 | A hidden control means 5 photos, and any further selection is refused. |
| HomePage.ReplaceFirstAbsent | frontend/src/pages/Home.jsx:74 | `replace` leaves a string without the pattern unchanged. |
| HomePage.ReplaceFirstAfter | frontend/src/pages/Home.jsx:74 | `replace` removes the first occurrence only. |
| HomePage.BackendUrl | frontend/src/pages/Home.jsx:74 | As written: the configured url with its first "/api" removed, or the fallback address when that is missing or leaves nothing. Never empty. |
| HomePage.ImageUrl | frontend/src/pages/Home.jsx:71-76 | A missing or empty url gives the stock photo. An http url is unchanged. Anything else gets the backend prefix. |
| HomePage.UploadedImageResolvesAlike | frontend/src/pages/Home.jsx:71-76 | Without configuration, the home page and the listing page resolve an uploaded image alike. |
| HomePage.ApiHostIsMangled | frontend/src/pages/Home.jsx:74 | As written: "https://api.io/api" becomes "https:/.io/api". |
| HomePage.StripApiSuffix | frontend/src/pages/Home.jsx:74 | Corrected: a url longer than "/api" that ends in it loses exactly that suffix. Any other url that neither is empty nor ends in "/api" is kept unchanged. A missing url, "" and "/api" give the fallback. Never empty. |
| HomePage.ApiHostIsKept | frontend/src/pages/Home.jsx:74 | The corrected address keeps the api host. |
| HomePage.SuffixOnlyAgrees | frontend/src/pages/Home.jsx:74 | Where "/api" occurs only as the suffix, the address as written equals the corrected one. |
| HomePage.PlainUrlAgrees | frontend/src/pages/Home.jsx:74 | A configured url without "/api" is kept unchanged, as written and corrected. |
| HomePage.Displayed | frontend/src/pages/Home.jsx:102-104 | At most 8 listings: a prefix for "all", otherwise positions 0, 2, 4 and so on. |

## Left out

- The users table, registration, login and the JWT middleware are left out. Each caller id is a parameter, and joins on users are assumed to find the row.
- Cloudinary and multer are left out: an uploaded file is just its stored file name.
- Date parsing and the day length in milliseconds are left out: dates are integer day numbers.
- Prices are integers. `parseFloat`, `toFixed` and floating point are not modelled.
- `toLowerCase` is modelled on ASCII letters only.
- Concurrency between requests is left out. Each handler is one atomic step, so the race between the conflict query and the INSERT is not captured.
- The 500 error paths, HTTP response bodies and rendering are left out.
- Reservations.MyTrips: the `LEFT JOIN property_images ... AND pi.is_cover = true` of getMyTrips is left out. That join repeats a trip once per cover image of its property; MyTrips returns each reservation row once.
- The table defaults are assumed, since the schema is not part of this model: a new reservation is pending, a new message unread.
- `URL.createObjectURL` is a parameter of AddFiles.
- AddPropertyPage.RemoveImage is modelled on values rather than as a splice on an array copy; the model does not capture the in-place update.
- Store.Store.DeleteProperty removes the property row only. Cascades depend on the schema, which is not part of this model.
- SQL `ORDER BY` ties are resolved by a stable sort. The contracts state only sortedness and permutation.
- Properties.HostProperties returns the host's properties in table order. The getHostStats query has no `ORDER BY`, so the database may return them in any order; HostPropertiesArePermutation states the order-free content.
- Properties.AllProperties does not say which of several main images `LIMIT 1` returns. MainImageUrl takes the first in table order.
- The getAllProperties review join is modelled as a sum and a count of the property's reviews.

## Findings

| source | as written | input that shows it | evidently intended | confidence | as-written member | corrected member |
|---|---|---|---|---|---|---|
| backend/controllers/reservationController.js:136-139 | The status update never rechecks availability, so a cancelled booking can be confirmed over a newer stay. | Property 7: booking 1 (days 1-5) cancelled, booking 2 (days 3-6) confirmed, host sets booking 1 to confirmed. | Confirming a cancelled booking reruns the overlap check and answers 409. | not executed | Reservations.ReopeningBreaksNoOverlap | Reservations.CheckedStatusUpdateCode, Reservations.CheckedStatusUpdateKeepsNoOverlap |
| backend/controllers/propertyController.js:174-176 | pending_requests counts pending rows among rows already joined on `status = 'confirmed'`, so it is always 0. | One pending reservation on the host's only property. | Count the pending reservations on the host's properties. | not executed | Properties.PendingRequestsAlwaysZero, Properties.PendingRequestExample | Properties.PendingRequests, Properties.NewBookingIsPendingRequest |
| backend/controllers/messageController.js:36-37 | unread_count ignores the property, so every conversation with a contact shows all their unread messages. | Contact 5 writes to user 3 about properties 1 and 2. User 3 opens the property-1 conversation, which still shows 1 unread. | Count the unread messages of that conversation, the set markAsRead clears. | not executed | Messages.UnreadCountSpansProperties | Messages.UnreadInConversation, Messages.OpeningClearsConversation |
| frontend/src/pages/Home.jsx:74 | `replace('/api', '')` removes the first "/api", which can sit inside the host name. | VITE_API_URL = "https://api.io/api" gives "https:/.io/api". | Strip only a trailing "/api". | not executed | HomePage.ApiHostIsMangled | HomePage.StripApiSuffix, HomePage.ApiHostIsKept |
