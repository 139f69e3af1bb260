# GumDrop, modelled in Dafny

GumDrop is a browser extension that books a hotel near an Eventbrite event,
with a small Express backend in front of the LiteAPI travel API. This project
models the deterministic core of the extension and the backend. The network,
the DOM and browser storage become parameters or fields:

- **Stay window** (`backend/index.js`). The event date string (`"Saturday,
  October 4"`) is parsed into a Gregorian date. Check-in is the day before
  and check-out the day after, each rendered as `YYYY-MM-DD`. The pricing
  reply carries these derived values whatever upstream sent.
- **Booking endpoint** (`backend/index.js`). `/api/book` is a chain of early
  refusals (500, 400). It then shapes the reply from the provider's answer and
  adds `bookingMeta` with a `GD…` base-36 booking id.
- **Recommendation fallback** (`backend/index.js`). When the model's content
  cannot be parsed, the picks fall back to indices 0, `min(1, n-1)` and
  `min(2, n-1)`.
- **Geocoding fallback** (`backend/index.js`). The location query is sent
  first and the address query only when the first finds nothing.
- **Popup** (`src/popup.js`):
  - reconciliation of inventory and pricing: the cheapest room per hotel, in
    the pricing response's order, with the hotel objects updated in place;
  - `findHotelByName`;
  - the two-form guest container;
  - holder and guest collection on confirm;
  - the carousel index behind the previous and next buttons;
  - the setup redirect check.
- **Bookings page** (`src/all-bookings.js`):
  - cancel (a `map`) and delete (a `filter`);
  - the in-place newest-first sort and the empty-list view;
  - status colours and labels, and the nights label;
  - `safeGet`.
- **Setup page** (`src/setup.js`). The phone formatter, the all-fields rule,
  and the completed and skipped flags.
- **Content script** (`src/content.js`):
  - the selector chains, the location block and the structured-data fill;
  - whitespace clean-up;
  - the event-page test and the `lastScrapedData` cache.
- **Payment server** (`backend/payment-server.js`). The in-memory
  `paymentDataStore` with put, get and per-key eviction, and the completion
  handler.

Shared modules:

| module | file | provides |
|---|---|---|
| `Json` | `json.dfy` | JSON values, JavaScript truthiness, `===` and property access |
| `Text` | `text.dfy` | the JavaScript string operations used, e.g. `trim`, `\s+` collapsing, `indexOf`, `split`, `\D` stripping, `String(n)`, `padStart` and base 36 |
| `Calendar` | `calendar.dfy` | proleptic Gregorian dates, `setDate` overflow and the `YYYY-MM-DD` rendering |
| `Http` | `http.dfy` | Express replies |

Where the source mutates state, the model does too:

- `Reconcile.Hotel` objects get their `pricing` written in place.
- `BookingForm.GuestForms`, `Carousel.Carousel`, `Bookings.BookingStore`,
  `Setup.PhoneInput`, `Setup.SetupStorage`, `Content.ContentScript` and
  `PaymentServer.PaymentStore` are classes whose methods update their fields.
- The bookings sort works in place on an `array`.
- The selector chains, reconciliation and guest collection are loops.

Each such method is proved against a specification function. That function's
properties are proved as lemmas.

## Model

| member | source | states |
|---|---|---|
| Json.Get | src/popup.js:286 | `v[key]` is defined exactly for an own field of an object, and is that field's value |
| Json.Or | backend/index.js:223 | `a \|\| b` is `a` when `a` is truthy and `b` otherwise |
| Json.Assign | backend/index.js:104-105 | after `o[k] = v` the field `k` reads `v` and every other field reads as before |
| Http.Failure | backend/index.js:238-241 | a caught error answers status 500, which is not a 2xx status |
| Text.TrimStartSpec | src/content.js:32-33 | the leading trim removes exactly the leading white space, and the result does not start with white space |
| Text.TrimEndSpec | src/content.js:32-33 | the trailing trim removes exactly the trailing white space, and the result does not end with white space |
| Text.Trim | src/content.js:32-33 | `trim()` is no longer than its input (its ends are stated by TrimEnds and TrimEmpty) |
| Text.TrimEnds | src/setup.js:42-45 | a trimmed value starts and ends with a non-space character, or is empty |
| Text.TrimEmpty | src/setup.js:50 | a trimmed value is empty exactly when the input is all white space |
| Text.TrimIdempotent | src/popup.js:1292-1297 | trimming twice is trimming once |
| Text.CollapseSpaces | src/content.js:135 | `replace(/\s+/g, ' ')` is no longer than its input, empty only for empty input, and starts with a space exactly when the input starts with white space |
| Text.CollapseSpacesCollapsed | src/content.js:135 | after collapsing, the only white space left is single spaces, none of them adjacent |
| Text.CollapseSpacesFixes | src/content.js:135 | collapsing an already collapsed string changes nothing |
| Text.CollapsedTrim | src/content.js:135 | trimming keeps a string collapsed |
| Text.CleanIdempotent | src/content.js:134-142 | cleaning a cleaned field again changes nothing |
| Text.CleanShape | src/content.js:134-142 | a cleaned field has single inner spaces only and no white space at either end |
| Text.Clean | src/content.js:134-142 | the clean-up `replace(/\s+/g, ' ').trim()` of one field (its shape and idempotence are stated by CleanShape and CleanIdempotent) |
| Text.IndexFromFirst | src/content.js:74 | `indexOf` returns the first occurrence, and none only when there is no occurrence |
| Text.ReplaceFirst | src/content.js:76 | `replace(venue, '')` returns the input when the pattern does not occur; otherwise the first occurrence, and only it, is exchanged and the text around it kept |
| Text.SplitJoin | backend/index.js:58-59 | joining the pieces of `split(sep)` with `sep` gives back the input |
| Text.Split | backend/index.js:58-59 | `split(sep)` gives at least one piece |
| Text.SplitPiecesFree | src/all-bookings.js:49 | no piece of `split(sep)` contains `sep` |
| Text.Digits | src/setup.js:109 | `replace(/\D/g, '')` keeps only digits |
| Text.DigitsAppend | src/setup.js:109 | stripping non-digits distributes over concatenation |
| Text.NatToString | backend/index.js:74-76 | `String(n)` is non-empty decimal digits without a leading zero |
| Text.ParseNatToString | backend/index.js:74-76 | reading `String(n)` back as decimal gives `n` |
| Text.NatToStringLength | backend/index.js:74 | `String(n)` has 1 to 4 digits for `n` below 10, 100, 1000 and 10000 |
| Text.Pad2 | backend/index.js:75-76 | `padStart(2, '0')` gives two characters for one- or two-character input |
| Text.ToBase36Upper | backend/index.js:233 | `toString(36).toUpperCase()` is non-empty upper-case base-36 digits |
| Text.Base36RoundTrip | backend/index.js:233 | the base-36 rendering reads back as the number |
| Calendar.DaysInMonth | backend/index.js:63 | every month has 28 to 31 days |
| Calendar.NextDay | backend/index.js:69-70 | the day after a valid date is a valid date |
| Calendar.PrevDay | backend/index.js:66-67 | the day before a valid date is a valid date |
| Calendar.NextPrev | backend/index.js:66-70 | the previous day of the next day, and the next day of the previous day, are the date itself |
| Calendar.NextDayNumber | backend/index.js:69-70 | the next day is exactly one day later on an independent day count |
| Calendar.DayNumberInjective | backend/index.js:66-70 | different valid dates have different day counts |
| Calendar.AddDays | backend/index.js:66-70 | adding days to a valid date gives a valid date |
| Calendar.AddDaysNumber | backend/index.js:66-70 | adding `k` days moves the day count by exactly `k` |
| Calendar.MakeDay | backend/index.js:63 | `new Date(y, m - 1, n)` always lands on a valid date, rolling an overflowing day over |
| Calendar.MakeDayWithin | backend/index.js:63 | a day within its month is taken as is |
| Calendar.SetDate | backend/index.js:67 | `setDate(n)` always lands on a valid date |
| Calendar.SetDateNeighbours | backend/index.js:66-70 | `setDate(getDate() - 1)` is the previous calendar day and `setDate(getDate() + 1)` the next, across month and year ends |
| Calendar.ParseFullDate | backend/index.js:73-78 | a `YYYY-MM-DD` text read back is a valid date |
| Calendar.Pad2Digits | backend/index.js:75-76 | a padded month or day is two digits that read back as the number |
| Calendar.FormatDateRoundTrip | backend/index.js:73-78 | for four-digit years the rendering has 10 characters and reads back as the same date |
| Calendar.FormatDateShape | backend/index.js:73-78 | the rendering is four digits, `-`, two digits, `-`, two digits |
| Calendar.FormatDate | backend/index.js:73-78 | `formatDate` of a valid date (its shape and round trip are stated by FormatDateShape and FormatDateRoundTrip) |
| StayWindow.MonthOf | backend/index.js:63 | a recognised month word names a month 1 to 12 |
| StayWindow.MonthIndexFrom | backend/index.js:63 | the month found is the first whose prefix matches, and none matches when none is found |
| StayWindow.ParseMonthDay | backend/index.js:63 | `new Date("month day, year")` is a date only for a month word and a non-empty decimal day |
| StayWindow.ParseMonthDayWithin | backend/index.js:63 | a month word and a day that exists in that month give exactly that day |
| StayWindow.EventDay | backend/index.js:58-63 | the event day is missing, because the handler throws, exactly when the date string holds no `", "` |
| StayWindow.DeriveStayWindow | backend/index.js:57-81 | a window is derived exactly when the date string holds `", "` |
| StayWindow.WindowOf | backend/index.js:62-81 | an invalid event date gives `NaN-NaN-NaN` twice; a valid one gives the previous and next day rendered |
| StayWindow.StayWindowSpan | backend/index.js:57-81 | check-in is exactly one day before the event and check-out exactly one day after |
| StayWindow.StampWindow | backend/index.js:102-106 | an object reply carries `checkin` and `checkout` equal to the derived values, with every other field as upstream sent it; a null body gives no reply |
| StayWindow.PricingReply | backend/index.js:51-108 | an event date without `", "` gives no reply, since the handler throws; for a date with one and an object upstream, the reply is 200 with `checkin` and `checkout` equal to the window of the event day and every other upstream field kept |
| StayWindow.OctoberExample | backend/index.js:57-81 | "October" "4" in 2025 gives the window 2025-10-03 to 2025-10-05 |
| StayWindow.YearEndExample | backend/index.js:57-81 | "December" "31" in 2025 gives the window 2025-12-30 to 2026-01-01 |
| BookHandler.Strings | backend/index.js:152-165 | the `required` list holds the field names as strings, in order |
| BookHandler.Refusal | backend/index.js:147-169 | 500 without an API key; 400 for a missing holder, guests or prebook id, an incomplete holder, or guests that are not a non-empty array; no refusal exactly when every check passes |
| BookHandler.BookingId | backend/index.js:233 | the booking id is `GD` followed by upper-case base-36 digits |
| BookHandler.BookingIdDecodes | backend/index.js:233 | the booking id decodes to the clock reading it was made from |
| BookHandler.BookingIdInjective | backend/index.js:233 | different clock readings give different booking ids |
| BookHandler.IndexFieldsKeys | backend/index.js:228-229 | spreading an array gives a field for every index |
| BookHandler.Spread | backend/index.js:228-229 | `{...j}` copies an object's own fields and nothing from a null, boolean or number |
| BookHandler.IndexFieldsAt | backend/index.js:228-229 | spreading an array puts element `i` under the key `String(i)` |
| BookHandler.SpreadIndexed | backend/index.js:228-229 | `{...j}` of an array gives its elements under their decimal indices, and of a string its characters as one-character strings |
| BookHandler.MetaFields | backend/index.js:230-234 | `bookingMeta` holds the request's holder, guests and payment and the generated booking id |
| BookHandler.ProviderReply | backend/index.js:195-236 | an unreachable provider gives 500 with the error text; an empty body gives 500; a non-JSON body gives 500 with `raw`; a non-2xx status is passed through with `message` or "Booking failed"; success is 200 with exactly the spread upstream keys plus `bookingMeta`, each upstream field kept |
| BookHandler.Book | backend/index.js:141-242 | the provider is called exactly when no refusal applies, and a reply is always sent |
| BookHandler.RefusalIgnoresProvider | backend/index.js:147-169 | a refused request is answered 400 or 500 whatever the provider and the clock would give |
| BookHandler.SuccessfulBooking | backend/index.js:227-237 | a successful booking answers 200 with `bookingMeta` carrying holder, guests, payment and a `GD` id |
| Recommend.First | backend/index.js:292-294 | `v[0]` is the first element of a non-empty array and undefined on a null, boolean or number |
| Recommend.Content | backend/index.js:293-295 | `choices[0]?.message?.content`, read only when `choices` is truthy (stated through Recommendations) |
| Recommend.PromptBuilds | backend/index.js:254-260 | the prompt builds only from an array of non-null hotels whose truthy distances are numbers (stated through Recommendations) |
| Recommend.FallbackIndices | backend/index.js:302-304 | the fallback has three indices |
| Recommend.Recommendations | backend/index.js:244-316 | an unbuildable prompt, a thrown call or a null body gives 500; missing `choices` or falsy content gives 500 with `Invalid AI response`; parsed content is returned; unparseable content gives the fallback picks; only 200 or 500 is ever sent |
| Recommend.FallbackSpread | backend/index.js:302-304 | the indices are `[0, 1, 2]` for three or more hotels, `[0, 1, 1]` for two and `[0, 0, 0]` for one, always valid positions when there is a hotel, and `[0, -1, -1]` for none |
| Recommend.FallbackPicksIndices | backend/index.js:299-305 | best budget, most luxurious and best overall carry those indices |
| Geolocate.Coordinates | backend/index.js:373-377 | the reply carries `lat` and `lon` of the first result; a null first result gives no reply |
| Geolocate.Geolocate | backend/index.js:344-378 | the address is queried exactly when the location result is JSON but not a non-empty array; non-JSON gives 500 with the raw text; both empty gives 404 |
| Geolocate.LocationFirst | backend/index.js:353-355 | when the location query finds a place, the address query is not sent and does not matter |
| Geolocate.NotFoundOnlyWhenBothEmpty | backend/index.js:364-366 | a 404 comes only when both queries came back as JSON without a result |
| Reconcile.Hotel.constructor | src/popup.js:264 | a hotel from the inventory starts without pricing |
| Reconcile.FindById | src/popup.js:286 | `find(h => h.id === id)` gives the first hotel whose id is strictly equal, and none when no hotel's is |
| Reconcile.Cheapest | src/popup.js:289-291 | the kept room has the least amount, and every earlier room costs strictly more (the earliest wins ties) |
| Reconcile.Offer | src/popup.js:293-302 | the pricing is the cheapest room of the entry: its amount, currency and offer id; the first rate's id, its name or `Standard Room`, its board name or empty; check-in and check-out come from the pricing response |
| Reconcile.Used | src/popup.js:285-287 | every used entry names an inventory hotel and has a room |
| Reconcile.LastUse | src/popup.js:285-305 | the last entry used for a hotel is found, or none is used for it |
| Reconcile.ApplyEntry | src/popup.js:284-304 | a found hotel with rooms gets the entry's offer and is returned to be pushed; every other hotel keeps its pricing |
| Reconcile.Reconcile | src/popup.js:282-310 | the kept hotels are those of the used entries in response order, and each hotel's pricing is the offer of the last entry used for it, or unchanged |
| Reconcile.PriceHotels | src/popup.js:261-321 | with no hotels or no event date the list is untouched; a failed or non-OK pricing call empties it; otherwise the list is the kept hotels; pricing changes only when the call is OK with data, and then each hotel gets the offer of its matching entry or keeps its pricing |
| Reconcile.UsedExactly | src/popup.js:282-310 | used entries follow the response order, and every entry naming an inventory hotel with a room is used |
| Reconcile.AssignedCheapest | src/popup.js:285-305 | a hotel is assigned pricing exactly when some entry is used for it, and then from the last such entry |
| Reconcile.FindByName | src/popup.js:766 | the first hotel with that name, or none |
| Reconcile.FindHotelByName | src/popup.js:763-774 | a result exactly when the first hotel of that name has a truthy `rateId`, returned with that `rateId` |
| BookingForm.GuestForms.constructor | src/popup.js:841-855 | the container starts with the primary form and add enabled |
| BookingForm.GuestForms.Reset | src/popup.js:841-855 | only the first form stays and add is enabled |
| BookingForm.GuestForms.Add | src/popup.js:859-925 | nothing happens at two forms; otherwise a blank form is appended, and add is disabled at two |
| BookingForm.GuestForms.Remove | src/popup.js:910-917 | removing an added form keeps the others in order and re-enables add |
| BookingForm.GuestForms.Fill | src/popup.js:1308-1316 | typing into one form changes only that form |
| BookingForm.Kept | src/popup.js:1323-1326 | only complete guests are pushed, each one of the guests read |
| BookingForm.Collected | src/popup.js:1305-1326 | every collected guest is complete and numbered within the forms |
| BookingForm.CollectGuests | src/popup.js:1305-1332 | an incomplete primary guest is refused; no forms means no guests; otherwise the complete guests in form order |
| BookingForm.KeptFirst | src/popup.js:1323-1326 | a complete first guest is the first guest pushed |
| BookingForm.PrimaryFirst | src/popup.js:1319-1326 | a complete primary guest is the first guest sent |
| BookingForm.KeptOrdered | src/popup.js:1308-1326 | guests numbered by position are pushed with strictly increasing numbers |
| BookingForm.KeptExactly | src/popup.js:1308-1326 | a guest numbered by position is pushed exactly when it is complete |
| BookingForm.CollectedOrdered | src/popup.js:1308-1326 | the guests sent have strictly increasing occupancy numbers, in form order |
| BookingForm.CollectedExactly | src/popup.js:1308-1326 | the guest of a form, numbered by position plus one, is sent exactly when it is complete |
| BookingForm.Confirm | src/popup.js:1280-1345 | a missing or demo prebook is a demo, and a real prebook never is; an incomplete trimmed holder is refused as such; the booking is submitted exactly when the trimmed holder and the primary guest are complete, with a non-empty guest list, and its payment method is the checked one or `TRANSACTION_ID` |
| Carousel.PrevIndex | src/popup.js:1018-1024 | previous moves down one unless on the first card |
| Carousel.NextIndex | src/popup.js:1026-1032 | next moves up one unless on the last card |
| Carousel.Carousel.constructor | src/popup.js:364-365 | index 0, no cards, and the buttons' flags as the page's markup sets them |
| Carousel.Carousel.Show | src/popup.js:364-373 | the list is stored, the index resets to 0 only when there is a card, and the button flags are left as they were |
| Carousel.Carousel.UpdateStack | src/popup.js:1014-1015 | previous is disabled exactly on the first card and next exactly on the last; the index and list stay |
| Carousel.Carousel.Previous | src/popup.js:1018-1024 | the previous handler moves back one card and keeps the index on a card; a move rewrites both flags for the new index, no move leaves them |
| Carousel.Carousel.Next | src/popup.js:1026-1032 | the next handler moves on one card and keeps the index on a card; a move rewrites both flags for the new index, no move leaves them |
| Carousel.Carousel.GoToPrevious | src/popup.js:1063-1070 | moves like previous, reports whether it moved, and rewrites the flags only when it did |
| Carousel.Carousel.GoToNext | src/popup.js:1072-1079 | moves like next, reports whether it moved, and rewrites the flags only when it did |
| Carousel.Carousel.NextClick | src/popup.js:1026-1032 | a click on a disabled next button does nothing; otherwise, with `n` listeners installed, it moves next `n` times |
| Carousel.Carousel.PreviousClick | src/popup.js:1018-1024 | a click on a disabled previous button does nothing; otherwise, with `n` listeners installed, it moves previous `n` times |
| Carousel.DisabledIffStuck | src/popup.js:1014-1015 | with the flags `updateStack` writes for the current index (as after a move), previous is disabled exactly when it would not move, and next likewise |
| Carousel.StaleNextAfterNewList | src/popup.js:549 | after moving to card 3 of 3, a new list of 5 opens on card 1 with next still disabled, so a click on next does not move |
| Carousel.NextPrevious | src/popup.js:1018-1032 | next then previous comes back except on the last card, and previous then next likewise except on the first |
| Carousel.ClicksReachEnds | src/popup.js:1018-1032 | `k` next clicks reach `min(i + k, n - 1)`, and `k` previous clicks reach `max(i - k, 0)` |
| Carousel.Iterate | src/popup.js:1018-1032 | repeated clicks keep the index on a card |
| Bookings.Cancelled | src/all-bookings.js:386 | the copy keeps id, time and other fields, with status `cancelled` |
| Bookings.Cancel | src/all-bookings.js:385-387 | same length, and each record is cancelled exactly when its id matches |
| Bookings.Delete | src/all-bookings.js:407 | deleting never lengthens the list |
| Bookings.DeleteKeeps | src/all-bookings.js:407 | the result holds exactly the records whose id does not match |
| Bookings.Matching | src/all-bookings.js:407 | never counts more matches than records |
| Bookings.CancelKeepsRecords | src/all-bookings.js:385-387 | cancelling keeps each record's id, time and fields, and changes status only where the id matches |
| Bookings.CancelIdempotent | src/all-bookings.js:385-387 | cancelling twice is cancelling once |
| Bookings.CancelCommutes | src/all-bookings.js:385-387 | two cancellations give the same list in either order |
| Bookings.CancelledNotCancellable | src/all-bookings.js:351-355 | a cancelled booking is no longer offered the cancel action |
| Bookings.CanCancel | src/all-bookings.js:351-355 | the cancel button is shown only for status `confirmed` (stated by CancelledNotCancellable) |
| Bookings.DeleteAppend | src/all-bookings.js:407 | deleting works record by record, so the kept records keep their order |
| Bookings.DeleteCount | src/all-bookings.js:407 | exactly the matching records go, and nothing goes when none matches |
| Bookings.DeleteIdempotent | src/all-bookings.js:407 | deleting twice is deleting once |
| Bookings.MatchingNone | src/all-bookings.js:407 | a list without matches counts none |
| Bookings.DeleteAfterCancel | src/all-bookings.js:385-387 | deleting after cancelling gives the same list as deleting |
| Bookings.BookingStore.constructor | src/all-bookings.js:55-63 | the store holds the stored list |
| Bookings.BookingStore.CancelBooking | src/all-bookings.js:381-401 | a confirmed cancel overwrites storage with the cancelled list; a declined one changes nothing |
| Bookings.BookingStore.DeleteBooking | src/all-bookings.js:403-409 | a confirmed delete overwrites storage with the filtered list; a declined one changes nothing |
| Bookings.SortNewestFirst | src/all-bookings.js:91 | the array ends newest first and is a permutation of what it held |
| Bookings.Insert | src/all-bookings.js:91 | one insertion step leaves the prefix newest first, as a permutation |
| Bookings.LoadBookings | src/all-bookings.js:55-99 | a missing or empty list shows no bookings; otherwise the list is shown newest first, as a permutation |
| Bookings.StatusColor | src/all-bookings.js:34-45 | `confirmed`, `cancelled` and `pending` get their own styles and every other value the gray default, each exactly |
| Bookings.UpperAscii | src/all-bookings.js:131 | lower-case ASCII letters map to upper case and everything else stays |
| Bookings.StatusLabel | src/all-bookings.js:131 | the label is the status with its first character upper-cased |
| Bookings.StatusLabelIdempotent | src/all-bookings.js:131 | capitalising a label again changes nothing |
| Bookings.NightsPlural | src/all-bookings.js:171 | the label ends in `s` exactly when nights is not 1 |
| Bookings.NightsLabel | src/all-bookings.js:171 | `N night` with `s` unless N is 1 (stated by NightsPlural) |
| Bookings.ArrayIndexOfNat | src/all-bookings.js:50 | the decimal rendering of an index reads as that array index |
| Bookings.Property | src/all-bookings.js:50 | `current[key]` is an object's own field and undefined on null, booleans and numbers |
| Bookings.FoldWalk | src/all-bookings.js:48-51 | when every key along the path is defined, `safeGet` returns the value at its end |
| Bookings.SafeGet | src/all-bookings.js:48-52 | `safeGet` walks the dot-separated path, falling back to the default (stated by FoldWalk and FoldDefault) |
| Bookings.FoldDefault | src/all-bookings.js:48-51 | once a key is missing, the default is returned (when the default has none of the remaining keys) |
| Bookings.KeepsDefault | src/all-bookings.js:48-51 | a default without the remaining keys is carried through |
| Bookings.DefaultHasLength | src/all-bookings.js:48-51 | a missing key followed by `length` gives 3, the length of `'N/A'` |
| Setup.PhoneInput.constructor | src/setup.js:106 | the phone field starts empty |
| Setup.PhoneInput.OnInput | src/setup.js:107-119 | the field becomes the digits cut to ten, rendered `+1 (AAA) BBB-CCCC`, `(AAA) BBB-rest`, `(AAA) rest` or bare by digit count |
| Setup.FormatPhone | src/setup.js:109-117 | ten or more digits give the 17-character `+1 (AAA) BBB-CCCC`; three to nine digits give a form opening with `(`, three or four characters longer than the digits |
| Setup.PhoneDigits | src/setup.js:109-117 | the output's digits are the input's digits cut to ten, after a `1` at ten digits |
| Setup.PhoneIdempotentShort | src/setup.js:107-118 | below ten digits, formatting again gives the same string |
| Setup.PhoneNotIdempotentLong | src/setup.js:107-118 | at ten digits, formatting again gives the same string only when all ten digits are `1` |
| Setup.ProfileOf | src/setup.js:40-55 | a profile exactly when all four trimmed fields are non-empty, holding the trimmed values |
| Setup.SetupStorage.constructor | src/popup.js:4 | nothing stored yet |
| Setup.SetupStorage.Submit | src/setup.js:13-86 | an incomplete form writes nothing; a successful write stores the profile stamped with the first clock reading, the completed flag, the second clock reading as setup date, and ends the setup redirect; a failed write stores nothing |
| Setup.SetupStorage.Skip | src/setup.js:89-103 | skip stores the skipped flag and date and ends the setup redirect, touching nothing else |
| Setup.SetupStorage.NeedsSetup | src/popup.js:7 | the popup redirects to setup exactly when neither the completed nor the skipped flag is set (kept false by Submit and Skip) |
| Setup.StoredProfileComplete | src/setup.js:50-55 | a stored profile has all four fields non-empty and trimmed |
| Content.FirstIndex | src/content.js:30-36 | the index found names a selector with text |
| Content.FirstIndexFirst | src/content.js:30-36 | the chain stops at the first selector with text, and finds nothing only when none has text |
| Content.FirstMatch | src/content.js:30-36 | the loop finds the trimmed text of the first selector with text |
| Content.DirectionsFrom | src/content.js:76 | `/Get directions.*$/` matches where the phrase occurs with no line terminator after it |
| Content.DirectionsFirst | src/content.js:76 | no earlier position matches |
| Content.DropDirections | src/content.js:76 | the text is cut at the match, or kept whole without one |
| Content.Address | src/content.js:70-78 | an address is found only when the venue is non-empty and contained in the block's text |
| Content.Composed | src/content.js:57-90 | `venue, address` for both, the venue alone, never the address alone, and never an empty location |
| Content.Filled | src/content.js:114-131 | structured data never overwrites a scraped title, date or location; without an Event it changes nothing; with one, a missing title comes from `name`, a missing date from `startDate` or else `doorTime`, a missing location from the place's `name` or else its `addressLocality` |
| Content.CleanField | src/content.js:133-142 | absent and falsy fields stay, strings are cleaned, and a truthy non-string throws |
| Content.ScrapeEventDetails | src/content.js:10-146 | the scrape follows the selector chains, the location block, the fallbacks, the structured data and the clean-up |
| Content.Scrape | src/content.js:10-146 | `scrapeEventDetails`: a result carries the page URL |
| Content.SelectorsWin | src/content.js:30-55 | a title or date found by a selector is the one reported, cleaned |
| Content.FoundPresent | src/content.js:32 | a found text is non-empty |
| Content.BlockLocationWins | src/content.js:57-90 | a location composed from the block is the one reported, cleaned |
| Content.FallbackLocation | src/content.js:93-111 | without a block location, the first fallback selector with text gives the location |
| Content.StructuredTitle | src/content.js:115-121 | with no title on the page, an Event's `name` becomes the title |
| Content.ScrapeClean | src/content.js:133-142 | every reported field is absent, falsy, or a string that cleaning leaves unchanged |
| Content.ScrapingCaches | src/content.js:149-176 | the cache changes only on an event page, only to a fresh scrape with a title that differs from the cache |
| Content.IsEventPage | src/content.js:157-160 | a URL is an event page when it contains `/e/` or `/events/` (used by ScrapingCaches) |
| Content.AfterScraping | src/content.js:163-175 | the cache after `performScraping` (stated by ScrapingCaches and ScrapingSettles) |
| Content.ScrapingSettles | src/content.js:164-176 | scraping the same page again leaves the cache as it is |
| Content.ContentScript.constructor | src/content.js:7 | the cache starts empty |
| Content.ContentScript.CacheEventData | src/content.js:149-155 | only data with a title is cached |
| Content.ContentScript.PerformScraping | src/content.js:164-176 | the cache follows the scrape rule and only ever holds data with a title |
| Content.ContentScript.GetEventData | src/content.js:187-194 | the cache when it holds data, otherwise a fresh scrape, with the cache unchanged |
| PaymentServer.PaymentKey | backend/payment-server.js:85 | every generated key starts with `pay_` |
| PaymentServer.BookingKey | backend/payment-server.js:114 | the completion key starts with `booking_` |
| PaymentServer.BookingKeyNeverPaymentKey | backend/payment-server.js:85-114 | a booking key is never a generated payment key |
| PaymentServer.NoBookingData | backend/payment-server.js:83-118 | a store holding only generated keys has nothing under any booking key |
| PaymentServer.Lookup | backend/payment-server.js:99-106 | a present, truthy payload is answered with 200, anything else with 404 `Payment data not found` |
| PaymentServer.PutThenLookup | backend/payment-server.js:83-106 | a stored truthy payload reads back unchanged, and other keys are unaffected |
| PaymentServer.PaymentStore.constructor | backend/payment-server.js:152 | the store starts empty |
| PaymentServer.PaymentStore.Put | backend/payment-server.js:83-96 | the payload is stored under a new `pay_` key, one eviction is scheduled for it, and the key is returned |
| PaymentServer.PaymentStore.Get | backend/payment-server.js:99-106 | the reply is the lookup, and 200 exactly for a present, truthy payload |
| PaymentServer.PaymentStore.Evict | backend/payment-server.js:91-93 | an eviction deletes its own key and nothing else |
| PaymentServer.PaymentStore.Complete | backend/payment-server.js:109-150 | missing booking data, a rejected finalisation or a null result fails and keeps the store; success confirms with the booking id and deletes only `booking_<tid>`; with generated keys only, completion always fails |

## Left out

- DOM rendering, templating, CSS classes and notifications are not modelled.
  Only the values the handlers compute are, e.g. the status style strings
  and the carousel's button `disabled` flags.
- The calls to LiteAPI, geocode.maps.co and OpenAI, and the Express wiring,
  are not modelled. Each call's result is a parameter, and the prompt text is
  not modelled.
- `chrome.storage`, message passing and `window.close` are not modelled.
  Stored values are parameters or class fields.
  - A write that fails is the `writes` flag of `Setup.SetupStorage`.
  - The storage-error branches of the bookings page are not modelled.
- Timers, `MutationObserver`, swipe gestures with their float velocity
  threshold, and the one-second auto-scrape are not modelled. The eviction
  timer is the explicit `PaymentServer.PaymentStore.Evict`.
- `Date.now()`, `new Date()`, `toISOString()` and `Math.random()` are
  parameters (`now`, `year`, `clientId`, `suffix`, and the two readings
  `createdAt` and `savedAt` of the setup page).
  - `toLocaleDateString` display is not modelled.
  - The radius `toFixed` display is not modelled.
- Floating-point numbers are not modelled: JSON numbers are integers.
  - Room amounts compare as integers.
  - `Bookings.SortNewestFirst` orders by an integer instant. It leaves out
    `NaN` timestamps, and it does not state that the engine's sort is stable.
- Strings are sequences of Unicode scalar values, not of UTF-16 code units
  as in JavaScript. This differs only for characters outside the Basic
  Multilingual Plane, such as emoji. For one, `{...j}` of a string gives
  two surrogate entries per such character in the source and one in
  `BookHandler.SpreadIndexed`. For another, `charAt(0)` in
  `Bookings.StatusLabel` takes half of such a character.
- `Bookings.StatusLabel` upper-cases ASCII letters only; the engine's full
  Unicode case mapping is not modelled.
- `Bookings.NightsPlural` covers a numeric `nights`. A string `"1"` would be
  plural in the source and is not modelled.
- `Bookings.Property` and `PaymentServer.PaymentStore.Get` see own fields
  only. Inherited prototype members (a key like `constructor`) are not
  modelled.
- `Bookings.LoadBookings` takes the stored list as a sequence. A stored value
  that is not an array, which would throw on `sort`, is not modelled.
- The full message text of an engine `TypeError` is not modelled. It is the
  constant `EngineTypeError`.
- `finalizeBooking` is called by the completion handler but defined nowhere
  in `backend/payment-server.js`. Its outcome is the parameter `finalize`,
  and the HTML of both pages is reduced to the reference or the message.
- The hosted payment page and the payment SDK wrapper are not part of this
  model. Neither are the background worker, the one-off request script and
  the `/api/hotels` and `/api/prebook` proxies.
- Dot navigation: `dots` is never declared in
  `setupHotelNavigation`. The dot listeners, the swipe handlers and the first
  `updateStack` call therefore never run. `Carousel.Carousel.GoToPrevious` and
  `Carousel.Carousel.GoToNext` still model the swipe navigation as written.
  Since that first `updateStack` never runs, the button flags are written
  only after a move. They keep their old values when a new list is shown.
- `Carousel.Carousel.Show` does not reset the index for an empty list,
  because `prepareDetailedView` is only called when there are hotels. So
  `Valid` only requires the index to name a card when there are cards.
- `StayWindow.PricingReply` uses English month words and a decimal day. Other
  date strings that the engine's lenient parser would accept give the
  Invalid Date in the model. For example, "Saturday, October" becomes
  "October undefined, 2025". The engine may read that as 1 October, which
  would give the window 30 September to 2 October; the model gives
  `NaN-NaN-NaN` for both ends.
- `Reconcile.PriceHotels`: the malformed pricing entries are folded into the
  `Threw` response. These are a null entry, a non-array `roomTypes`, a room
  without `offerRetailRate`, a cheapest room without `rates` and a null
  inventory hotel; each throws inside the `forEach` and is caught at
  `src/popup.js:317-320`. In the source, hotels priced by earlier entries
  keep that pricing before the throw. The model leaves pricing unchanged on
  `Threw`. The list shown is emptied either way.
- `Content.Composed`: the address-only branch of the location block can
  never be taken, since an address is only computed from a non-empty venue.
- The first date selector, `location-info__address-text`, lacks its leading
  dot. It is kept as written and only matches an element of that tag name.
- `Bookings.DefaultHasLength` records that `safeGet`, whose default is the
  string `'N/A'`, reads `length` through it. `safeGet` is not called anywhere
  in the page.
- `PaymentServer.PaymentStore.Complete`: the store only ever receives `pay_`
  keys, yet completion reads `booking_` keys. On data stored through this
  server, completion therefore always fails with "Booking data not found".
