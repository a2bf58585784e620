# TimskiMilenici core, modelled in Dafny

TimskiMilenici is a marketplace for pet services and pet products. Its core
business rules are modelled here: the Spring back end and the React front end.

- **Booking capacity.** A service takes at most `capacity` bookings that are
  not cancelled per day. `createBooking` checks this before it stores a
  booking. `getFullDates` lists the days that have no place left. Status
  changes and deletes can only free places.
- **The booking wire format.** The browser sends `bookingTime` as
  `date + "T" + time + ":00"`. The server may answer with that string or with
  an array `[y, m, d, h, min, ...]`. `parseBookingDateTime` reduces both to a
  `(dateStr, timeStr)` pair.
- **The availability views.** These are derived from a list of bookings:
  date → reserved times, the full dates, date → time → customer names, and the
  full dates of a store merged from its services.
- **The booking screen.** It has a grid of half-hour slots, its form handlers
  and its submit outcome.
- **The cart.** `addItem` merges lines. `updateItemQuantity` caps the
  quantity at the product's stock. There are also `removeItem`,
  `getItemCount` and `checkout`, which copies the cart into an order and
  clears it.
- **Orders of a business.** These are the orders holding one of its
  products, newest first, and the order items that belong to it.
- **Notifications.** A notification is created for a receiver. The inbox
  shows a receiver's notifications that are not dismissed, newest first. The
  owner may dismiss a notification. Booking and purchase events send their
  messages.
- **Businesses.** Saving a business keeps the stored owner. Deleting a
  business first removes the bookings that point at its services. The
  database refuses the deletion while a cart line or an order item still
  refers to one of its products.
- **Transactions.** A notice sent from inside a booking or checkout
  transaction shares that transaction. When the notice throws, the caller
  catches the exception, but the whole transaction is still rolled back.
- **The one-line store address.** `buildAddress` / `parseAddress` work on
  `"Street, PostalCode City, Country"`.
- **Store editor.** The store editor keeps its item lists and its queues of
  pending saves and deletes.
- **Store page.** The store page builds a gallery and moves an image
  carousel.
- **Home screen.** The home screen filters stores by search term and type.

There is one module per source file:

| module | file |
|---|---|
| `BookingService` | `booking_service.dfy` |
| `BookingCodec` | `booking_codec.dfy` |
| `Availability` | `availability.dfy` |
| `BookingScreen` | `booking_screen.dfy` |
| `CartService` | `cart_service.dfy` |
| `OrderService` | `order_service.dfy` |
| `NotificationService` | `notification_service.dfy` |
| `BusinessService` | `business_service.dfy` |
| `Address` | `address.dfy` |
| `StoreEditor` | `store_editor.dfy` |
| `StoreDetails` | `store_details.dfy` |
| `HomeScreen` | `home_screen.dfy` |

The shared modules are:

- `Common`: `Option`, `Result` and the booking status.
- `Text`: trimming, white space, number text and lower case.
- `Seqs`: filter, sort and subsequence.
- `Records`: JavaScript objects used as dictionaries of lists.

How the state is modelled:

- **Repositories** are maps from id to record, held as fields of a class
  (`Bookings`, `Carts`, `Notifications`, `Businesses`). Their methods change
  those fields.
- **React component state** is modelled the same way, as fields of a class
  (`BookingScreen.Screen`, `StoreEditor.Editor`, `StoreDetails.Screen`).
- **Pure helpers** are functions. Each comes with a lemma that ties it to an
  independent reference definition, or to the inverse it completes.
- **Outside input** is passed in as a parameter: the clock, the HTTP
  answers, and the repository's answer to a join query.

## Model

| member | source | states |
|---|---|---|
| BookingService.DayWindow | TimskiMilenici/src/main/java/com/example/timskimilenici/services/BookingService.java:45-46 | the closed window from the start of a day to `LocalTime.MAX` holds exactly the instants of that day |
| BookingService.IsAvailable | TimskiMilenici/src/main/java/com/example/timskimilenici/services/BookingService.java:41-50 | an unknown service fails with "Service not found"; otherwise the answer is true exactly when the number of bookings of that service on that day that are not cancelled is below its capacity |
| BookingService.CountAsWritten | TimskiMilenici/src/main/java/com/example/timskimilenici/repositories/BookingRepository.java:17-18 | the query as written never counts more than the bookings that take a place that day. It counts fewer exactly when one of them is at the day's last nanosecond |
| BookingService.LastNanosecondNotCounted | TimskiMilenici/src/main/java/com/example/timskimilenici/repositories/BookingRepository.java:17-18 | the count query as written (`< :end`) misses a booking at the day's last nanosecond, which does take a place that day |
| BookingService.CreateKeepsCapacity | TimskiMilenici/src/main/java/com/example/timskimilenici/services/BookingService.java:33-39 | a booking stored only when its day has a place left keeps every service within capacity on every day |
| BookingService.Bookings.CreateBooking | TimskiMilenici/src/main/java/com/example/timskimilenici/services/BookingService.java:33-39 | unknown service: fails and stores nothing. Full day: fails with "Service is full for the selected date" and stores nothing. Otherwise: stores the booking under a fresh id. Never overbooks a service that was within capacity |
| BookingService.Bookings.GetFullDates | TimskiMilenici/src/main/java/com/example/timskimilenici/services/BookingService.java:52-60 | an empty range gives []. An unknown service fails when the range holds a day. Otherwise the result is strictly ascending and holds exactly the days of the range that isAvailable calls full |
| BookingService.Bookings.UpdateBookingStatus | TimskiMilenici/src/main/java/com/example/timskimilenici/services/BookingService.java:82-95 | an unknown id changes nothing. Otherwise only that booking's status changes, and a notice is requested exactly for CANCELLED. When that notice fails, the transaction is rolled back: the call fails with Spring's rollback message and the status is unchanged |
| BookingService.StatusChangeKeepsCapacity | TimskiMilenici/src/main/java/com/example/timskimilenici/services/BookingService.java:82-95 | cancelling, or moving between two active statuses, keeps every service within capacity |
| BookingService.ReviveCanOverbook | TimskiMilenici/src/main/java/com/example/timskimilenici/services/BookingService.java:82-95 | setting a cancelled booking back to PENDING on a day that has filled up takes the service over capacity: capacity is checked only on create |
| BookingService.Bookings.DeleteBooking | TimskiMilenici/src/main/java/com/example/timskimilenici/services/BookingService.java:100-110 | an unknown id fails with "Booking not found". When the notice fails, the transaction is rolled back: the call fails with the rollback message and nothing is removed. Otherwise exactly that booking is removed, and capacity is kept |
| BookingService.DeleteKeepsCapacity | TimskiMilenici/src/main/java/com/example/timskimilenici/services/BookingService.java:100-110 | removing a booking never takes a service over capacity |
| BookingService.BookingsInRange | TimskiMilenici/src/main/java/com/example/timskimilenici/services/BookingService.java:76-80 | a booking is in the result exactly when it belongs to a service of the business and its day lies between the two dates, both included |
| BookingCodec.Parse | frontend/src/features/booking/services/bookingService.ts:9-28 | null and other values give null. An array gives a moment exactly when it has at least 5 elements. A string is handled by ParseText |
| BookingCodec.ParseText | frontend/src/features/booking/services/bookingService.ts:11-20 | the trimmed text gives a moment exactly when it has a 'T' that is neither first nor followed by fewer than 5 characters. The date is the text before the first 'T', and the time is the 5 characters after it |
| BookingCodec.SplitAtT | frontend/src/features/booking/services/bookingService.ts:13-19 | the split at the first 'T' succeeds exactly when the date and the 5-character time are both non-empty, and then gives those slices |
| BookingCodec.ParseBookingTimeText | frontend/src/features/booking/services/bookingService.ts:149 | round trip: the `bookingTime` text createBooking sends parses back to the same date and time |
| BookingCodec.ParseArray | frontend/src/features/booking/services/bookingService.ts:21-26 | an array with two-digit fields becomes "y-MM-DD" and "HH:mm", zero-padded; later elements are ignored |
| BookingCodec.ArrayMatchesString | frontend/src/features/booking/services/bookingService.ts:9-28 | the array shape and the string shape of the same moment normalise to the same pair |
| BookingCodec.CreateBookingPayload | frontend/src/features/booking/services/bookingService.ts:146-152 | the payload is PENDING and carries the service, user and notes. Its time text is the date, "T", the time and ":00", and it parses back to the requested date and time |
| BookingCodec.CreateBookingError | frontend/src/features/booking/services/bookingService.ts:163-166 | there is an error exactly when the response is not ok. It is the server's message when that is present, and the fixed text "Failed to create booking" when the message is missing or empty, so it is never empty |
| Availability.DisplayName | frontend/src/features/booking/services/bookingService.ts:64 | the full name, else the user name, else "Guest"; never empty |
| Availability.EntryOf | frontend/src/features/booking/services/bookingService.ts:34-38 | a booking contributes an entry exactly when it is not cancelled and its time parses; the entry is its slot and display name |
| Availability.EntrySlot | frontend/src/features/booking/services/bookingService.ts:33-41 | an entry for a slot is derived exactly when some booking holds that slot |
| Availability.BuildBookedTimesByDate | frontend/src/features/booking/services/bookingService.ts:31-43 | equals the reference grouping. It is a well-formed dictionary that lists a time under a date exactly when some booking that is not cancelled holds that slot, with no time listed twice |
| Availability.BookedTimesProperties | frontend/src/features/booking/services/bookingService.ts:31-43 | the reference view has every key once, no empty list, the right times, and no time listed twice |
| Availability.BuildFullDates | frontend/src/features/booking/services/bookingService.ts:46-53 | a date is listed exactly when it is a key whose list has at least `totalSlots` times. The dates keep the key order, with no repeats |
| Availability.FullDatesProperties | frontend/src/features/booking/services/bookingService.ts:46-53 | the reference full-date list holds the keys with at least `totalSlots` entries, in key order |
| Availability.FullDatesOfBookings | frontend/src/features/booking/services/bookingService.ts:46-53 | applied to the booked-times view, a date is listed, once, exactly when some booking holds a slot on it and at least `totalSlots` distinct times are reserved on it |
| Availability.BuildBookedSlotUserByDate | frontend/src/features/booking/services/bookingService.ts:56-70 | equals the reference view. Its dates and each date's times are those of the booked-times view. A name is listed exactly when a booking holds the slot under that name, with no repeats |
| Availability.SlotUsersProperties | frontend/src/features/booking/services/bookingService.ts:56-70 | the slot-user view agrees with the booked-times view on its keys, and its names are the bookers' display names, each once |
| Availability.FullDatesByStore | frontend/src/features/booking/services/bookingService.ts:91-99 | no services gives []. Otherwise the dates are strictly ascending without repeats, and a date is present exactly when a service's request succeeded with it |
| Records.GroupProperties | frontend/src/features/booking/services/bookingService.ts:39-40 | the create-then-push idiom keeps every key once, in first-seen order, and lists under a key exactly the values paired with it, each once |
| Records.PushStep | frontend/src/features/booking/services/bookingService.ts:39-40 | one more run of the idiom on the grouping of a list gives the grouping of the longer list |
| BookingScreen.GenerateTimeSlots | frontend/src/features/booking/BookingScreen.tsx:42-53 | 22 labels "HH:MM", from "09:00" to "19:30"; each denotes 540 + 30k minutes, 30 after the one before |
| BookingScreen.LabelOf | frontend/src/features/booking/BookingScreen.tsx:49 | the padded hour and the minutes form a slot label that reads back as that time of day |
| BookingScreen.SlotLabelsDetermined | frontend/src/features/booking/BookingScreen.tsx:42-53 | a slot label is determined by the minutes it denotes, so the grid has no repeated label |
| BookingScreen.Screen.LoadAvailability | frontend/src/features/booking/BookingScreen.tsx:28-40 | with a non-empty route id and a successful fetch the unavailable dates become the fetched list; otherwise nothing changes |
| BookingScreen.Screen.HandleDateSelect | frontend/src/features/booking/BookingScreen.tsx:57-59 | only the date changes |
| BookingScreen.Screen.HandleInputChange | frontend/src/features/booking/BookingScreen.tsx:61-64 | only the field named by the input changes |
| BookingScreen.Screen.HandleTimeSelect | frontend/src/features/booking/BookingScreen.tsx:66-68 | only the time changes |
| BookingScreen.SubmitError | frontend/src/features/booking/BookingScreen.tsx:89-93 | no error exactly when the booking was created. The thrown message is shown when it is non-empty, the default text otherwise, so the error is never empty |
| BookingScreen.ParseInt | frontend/src/features/booking/BookingScreen.tsx:85 | `parseInt` of the route id: NaN (None) exactly when no digit follows the leading white space and sign; an all-digit text gives its decimal value |
| BookingScreen.ParseIntOfNatText | frontend/src/features/booking/BookingScreen.tsx:85 | the decimal text of a number parses back to that number |
| BookingScreen.Screen.HandleSubmit | frontend/src/features/booking/BookingScreen.tsx:77-97 | without a route id (absent or empty) nothing is sent and the error stays cleared. Otherwise the form is sent with `parseInt` of the route id, NaN included. Success marks the screen submitted; failure shows the error. Loading ends false |
| CartService.FirstIndex | TimskiMilenici/src/main/java/com/example/timskimilenici/services/CartService.java:65-68 | the index of the first line that satisfies the filter, or -1 exactly when none does |
| CartService.MergeLine | TimskiMilenici/src/main/java/com/example/timskimilenici/services/CartService.java:65-75 | the total grows by exactly the quantity; a line is added exactly when no line is for the product, and at most one; afterwards the product has a line, and lines for other products are unchanged |
| CartService.MergeLineProperties | TimskiMilenici/src/main/java/com/example/timskimilenici/services/CartService.java:65-75 | merging adds exactly the quantity to the total. It keeps one line per product and leaves the other lines alone |
| CartService.Carts.AddItem | TimskiMilenici/src/main/java/com/example/timskimilenici/services/CartService.java:58-77 | the checks run in order: quantity, then user, then product. A failure changes nothing. A positive quantity for a known user and product always succeeds; success merges into the user's cart and raises the item count by the quantity |
| CartService.Capped | TimskiMilenici/src/main/java/com/example/timskimilenici/services/CartService.java:91-94 | the stored quantity is the request or the stock, and never above either |
| CartService.Carts.UpdateItemQuantity | TimskiMilenici/src/main/java/com/example/timskimilenici/services/CartService.java:83-97 | fails for a quantity below 1, an unknown user or a line not in the cart, and changes nothing then. Otherwise the call succeeds and only that line's quantity changes, to the capped value |
| CartService.RemoveLine | TimskiMilenici/src/main/java/com/example/timskimilenici/services/CartService.java:104-111 | at most one line goes, and the lines are unchanged exactly when none has that id |
| CartService.RemoveLineKeepsIds | TimskiMilenici/src/main/java/com/example/timskimilenici/services/CartService.java:102-112 | with distinct ids, removing leaves no line with that id and keeps ids and products distinct. An id that no line has leaves the cart unchanged |
| CartService.RemoveLineKeepsOthers | TimskiMilenici/src/main/java/com/example/timskimilenici/services/CartService.java:102-112 | removing keeps every other line and adds none. When the cart has a line with that id, the total drops by that line's quantity |
| CartService.Carts.RemoveItem | TimskiMilenici/src/main/java/com/example/timskimilenici/services/CartService.java:102-112 | unknown user: fails and changes nothing. Otherwise the user's cart, created when missing, loses the first line with that id |
| CartService.Carts.ItemCount | TimskiMilenici/src/main/java/com/example/timskimilenici/services/CartService.java:117-121 | the sum of the quantities of the user's cart, 0 without a cart |
| CartService.CopiedTotal | TimskiMilenici/src/main/java/com/example/timskimilenici/services/CartService.java:142-146 | an order copied line by line holds the cart's item count |
| CartService.Carts.Checkout | TimskiMilenici/src/main/java/com/example/timskimilenici/services/CartService.java:126-171 | the errors come in order: user, address, phone, cart, empty cart. A failure changes nothing. When every check passes and no owner's notice fails, the call succeeds: it stores an order copied from the cart with the same item count and empties the cart. When a notice fails, the transaction is rolled back: the call fails with the rollback message and nothing changes |
| OrderService.ItemsForBusiness | TimskiMilenici/src/main/java/com/example/timskimilenici/services/OrderService.java:34-38 | an item is kept exactly when it is in the order and its product belongs to the business |
| OrderService.ItemsForBusinessExact | TimskiMilenici/src/main/java/com/example/timskimilenici/services/OrderService.java:34-38 | the kept items are exactly the order's items of the business, in the order's own order |
| OrderService.ItemsForBusinessAll | TimskiMilenici/src/main/java/com/example/timskimilenici/services/OrderService.java:34-38 | an order of only the business's items is returned whole |
| OrderService.MatchingIds | TimskiMilenici/src/main/java/com/example/timskimilenici/services/OrderService.java:26 | an order matches exactly when it has an item of the business |
| OrderService.GetOrdersByBusinessId | TimskiMilenici/src/main/java/com/example/timskimilenici/services/OrderService.java:25-31 | nothing when no order matches. Otherwise it is a permutation of the fetched orders, sorted newest first; a fetch already newest first, as the repository's `ORDER BY o.createdAt DESC` gives it, comes back unchanged |
| OrderService.OrdersTiesKeepFetchedOrder | TimskiMilenici/src/main/java/com/example/timskimilenici/services/OrderService.java:29 | orders created at the same instant keep the fetched order, as Java's stable `List.sort` keeps them |
| Seqs.SortDescStable | TimskiMilenici/src/main/java/com/example/timskimilenici/services/OrderService.java:29 | the newest-first sort is stable: the elements with any one key come out in the order they went in |
| Seqs.SortDescOfSorted | TimskiMilenici/src/main/java/com/example/timskimilenici/services/OrderService.java:29 | sorting a list that is already newest first leaves it unchanged |
| OrderService.OrdersByBusinessExact | TimskiMilenici/src/main/java/com/example/timskimilenici/services/OrderService.java:25-31 | given the repository's answer, the result holds exactly the stored orders that contain a product of the business, each once |
| NotificationService.StoreName | TimskiMilenici/src/main/java/com/example/timskimilenici/services/NotificationService.java:83-84 | the business name unless it is missing or blank, then "your store"; never blank |
| NotificationService.CustomerName | TimskiMilenici/src/main/java/com/example/timskimilenici/services/NotificationService.java:85-86 | the full name, else the user name, else "a customer" |
| NotificationService.BookingCreatedMessageParts | TimskiMilenici/src/main/java/com/example/timskimilenici/services/NotificationService.java:87 | the message is the fixed text with the store name and then the customer name |
| NotificationService.PurchaseMessage | TimskiMilenici/src/main/java/com/example/timskimilenici/services/NotificationService.java:116 | the detail when given, the default text otherwise |
| NotificationService.Inbox | TimskiMilenici/src/main/java/com/example/timskimilenici/services/NotificationService.java:50-52 | exactly the receiver's notifications that are not dismissed, each as many times as it is stored, newest first |
| NotificationService.Notifications.GetByReceiver | TimskiMilenici/src/main/java/com/example/timskimilenici/services/NotificationService.java:50-52 | exactly the stored notifications of that receiver that are not dismissed, each as many times as it is stored, sorted newest first |
| NotificationService.InboxTiesKeepStoreOrder | TimskiMilenici/src/main/java/com/example/timskimilenici/repositories/NotificationRepository.java:12 | inbox entries created at the same instant keep the order in which they were stored |
| NotificationService.Notifications.CreateNotification | TimskiMilenici/src/main/java/com/example/timskimilenici/services/NotificationService.java:42-48 | an unknown receiver fails with "Receiver user not found" and stores nothing. Otherwise one notification is appended that is not dismissed. A sender that is not a user is dropped |
| NotificationService.Notifications.Dismiss | TimskiMilenici/src/main/java/com/example/timskimilenici/services/NotificationService.java:55-62 | an unknown id or a caller who is not the receiver changes nothing. Otherwise only that notification becomes dismissed |
| NotificationService.DismissLeavesInbox | TimskiMilenici/src/main/java/com/example/timskimilenici/services/NotificationService.java:55-62 | dismissing takes the notification out of its receiver's inbox and leaves every other inbox entry in place |
| NotificationService.Notifications.NotifyBookingCreated | TimskiMilenici/src/main/java/com/example/timskimilenici/services/NotificationService.java:66-90 | a notification is created exactly when the booking, its service and user, the business and its owner are all there. It goes to the owner, from the customer, with the store and customer names |
| NotificationService.Notifications.NotifyBookingCancelledByBusiness | TimskiMilenici/src/main/java/com/example/timskimilenici/services/NotificationService.java:94-99 | the booking's user gets the fixed message exactly when the booking and its user exist |
| NotificationService.Notifications.NotifyBookingCancelledByUser | TimskiMilenici/src/main/java/com/example/timskimilenici/services/NotificationService.java:103-111 | the owner gets the fixed message from the customer exactly when the booking, service, business, owner and user all exist |
| NotificationService.Notifications.NotifyProductPurchase | TimskiMilenici/src/main/java/com/example/timskimilenici/services/NotificationService.java:115-118 | the owner gets the detail message, or the default one. An unknown owner fails |
| BusinessService.WithOwner | TimskiMilenici/src/main/java/com/example/timskimilenici/services/BusinessService.java:37-42 | an update that has no owner takes the stored business's owner; anything else is kept as given |
| BusinessService.WithOwnerStable | TimskiMilenici/src/main/java/com/example/timskimilenici/services/BusinessService.java:36-44 | saving the same update again keeps the owner it got the first time |
| BusinessService.Businesses.SaveBusiness | TimskiMilenici/src/main/java/com/example/timskimilenici/services/BusinessService.java:36-44 | a stored id is replaced in place, with the owner preserved. Otherwise the business is inserted under a new id |
| BusinessService.WithoutBusiness | TimskiMilenici/src/main/java/com/example/timskimilenici/entities/Business.java:47-53 | the cascade keeps exactly the child rows of other businesses, unchanged |
| BusinessService.BookingsKept | TimskiMilenici/src/main/java/com/example/timskimilenici/services/BusinessService.java:64-67 | exactly the bookings whose service is not the business's are kept, unchanged |
| BusinessService.DeleteKeepsKeys | TimskiMilenici/src/main/java/com/example/timskimilenici/services/BusinessService.java:63-68 | when no cart line or order item is for one of the business's products, deleting the bookings first, then the business with its services and products, leaves every foreign key resolved, the cart-line and order-item keys to products included |
| BusinessService.DeleteAloneBreaksKeys | TimskiMilenici/src/main/java/com/example/timskimilenici/services/BusinessService.java:63-68 | removing the business alone breaks a key whenever one of its services has a booking |
| BusinessService.DeleteInUseBreaksKeys | TimskiMilenici/src/main/java/com/example/timskimilenici/services/BusinessService.java:68 | removing the business while a cart line or an order item is for one of its products breaks a key, whatever bookings are deleted: the deletion the database refuses |
| BusinessService.Businesses.DeleteBusiness | TimskiMilenici/src/main/java/com/example/timskimilenici/services/BusinessService.java:58-69 | an unknown id fails with "Business not found: <id>" and changes nothing. When a cart line or an order item is for one of the business's products, the call fails and the transaction undoes everything. Otherwise exactly the business's bookings, services and products go with it, and the keys stay resolved |
| Address.BuildAddress | frontend/src/features/business/utils/addressUtils.ts:5-17 | the address is empty exactly when the trimmed street, the middle and the trimmed country are all empty; a filled street comes first |
| Address.BuildEmpty | frontend/src/features/business/utils/addressUtils.ts:5-17 | four empty fields build the empty address |
| Address.ParseAddress | frontend/src/features/business/utils/addressUtils.ts:23-49 | a blank address gives four empty fields. Street and country hold no comma. A postal code is empty or a single digit-led token |
| Address.RoundTrip | frontend/src/features/business/utils/addressUtils.ts:5-49 | a full address with a postal code and a city parses back to the fields it was built from |
| Address.CityLosesFirstWord | frontend/src/features/business/utils/addressUtils.ts:39 | with no postal code, the parser as written drops the city's first word |
| Address.NewYork | frontend/src/features/business/utils/addressUtils.ts:39 | "Main St", "New York", "USA" reads back with city "York"; the corrected parser gives "New York" |
| Address.CityRepeatsPostalCode | frontend/src/features/business/utils/addressUtils.ts:39 | with a postal code and no city, the parser as written returns the postal code as the city too |
| Address.PostalOnly | frontend/src/features/business/utils/addressUtils.ts:39 | "Main St", postal code "1000", "USA" reads back with city "1000"; the corrected parser leaves it empty |
| Address.ParseAddressFixed | frontend/src/features/business/utils/addressUtils.ts:23-49 | the corrected parser keeps the blank case and the comma-free street and country, and its postal code is a digit-led token or empty |
| Address.RoundTripFixed | frontend/src/features/business/utils/addressUtils.ts:5-49 | the corrected parser gives back every built address with a postal code, a city, or both (a city without a postal code must not start with a digit) |
| Address.ParseTwo | frontend/src/features/business/utils/addressUtils.ts:42-44 | two segments are the street and the city |
| Address.ParseOne | frontend/src/features/business/utils/addressUtils.ts:45-47 | one segment is the street |
| StoreEditor.NewForm | frontend/src/features/business/components/StoreModals/ManageStoreModal.tsx:56-65 | a new form is empty, has the given type and has a "temp-" id |
| StoreEditor.TempNeverQueued | frontend/src/features/business/components/StoreModals/ManageStoreModal.tsx:64 | a new item's "temp-" id is never sent for deletion |
| StoreEditor.Editor.OpenItem | frontend/src/features/business/components/StoreModals/ManageStoreModal.tsx:43-68 | the form is filled from the item with the given type, or emptied with a temporary id. The modal opens |
| StoreEditor.Upsert | frontend/src/features/business/components/StoreModals/ManageStoreModal.tsx:76-91 | the first entry with the item's id is replaced in place; without one, the item is appended |
| StoreEditor.UpsertUnique | frontend/src/features/business/components/StoreModals/ManageStoreModal.tsx:76-91 | saving keeps ids unique and leaves the saved item as the only entry with its id |
| StoreEditor.RequeueProperties | frontend/src/features/business/components/StoreModals/ManageStoreModal.tsx:96-99 | the save queue keeps one entry per (id, type), and the form is its last entry |
| StoreEditor.Editor.SaveItem | frontend/src/features/business/components/StoreModals/ManageStoreModal.tsx:70-102 | only the list of the form's type changes, by Upsert. The save queue is re-queued and stays one entry per key. The modal closes |
| StoreEditor.WithoutIdProperties | frontend/src/features/business/components/StoreModals/ManageStoreModal.tsx:107-110 | after a delete no entry has the id. Every other entry remains, in order |
| StoreEditor.UnqueueProperties | frontend/src/features/business/components/StoreModals/ManageStoreModal.tsx:118 | dropping a key's pending save keeps one entry per key, keeps every other entry, and keeps the order |
| StoreEditor.Editor.DeleteItem | frontend/src/features/business/components/StoreModals/ManageStoreModal.tsx:104-119 | only the list of the type loses the id. The id is queued for deletion only when it is a real one. The pending save of (id, type) is dropped |
| StoreEditor.DeleteUndoesUpsert | frontend/src/features/business/components/StoreModals/ManageStoreModal.tsx:70-119 | deleting a just-saved item's id gives the list that deleting it before the save would give |
| StoreEditor.DeleteUndoesRequeue | frontend/src/features/business/components/StoreModals/ManageStoreModal.tsx:70-119 | deleting a just-saved item drops its queue entry again |
| StoreEditor.NewItemLeavesNoTrace | frontend/src/features/business/components/StoreModals/ManageStoreModal.tsx:43-119 | a new item saved and then deleted leaves the list and the save queue as they were, and queues nothing for deletion |
| StoreDetails.Gallery | frontend/src/features/business/StoreDetailsScreen.tsx:28-31 | the store's images, with the main image in front exactly when it is set and not already among them |
| StoreDetails.Screen.LoadStore | frontend/src/features/business/StoreDetailsScreen.tsx:21-47 | no id loads nothing. A fetched store is shown with its gallery. A failure shows the error. Loading ends false |
| StoreDetails.JsRem | frontend/src/features/business/StoreDetailsScreen.tsx:51 | JavaScript's remainder: Euclidean for a non-negative dividend, and otherwise in (-divisor, 0] |
| StoreDetails.SlotCount | frontend/src/features/business/StoreDetailsScreen.tsx:51 | the image count, or 1 for an empty list |
| StoreDetails.NextIndex | frontend/src/features/business/StoreDetailsScreen.tsx:49-52 | one further, wrapping from the last slot to the first; it stays in range |
| StoreDetails.PrevIndex | frontend/src/features/business/StoreDetailsScreen.tsx:54-58 | one back, wrapping from the first slot to the last; it stays in range |
| StoreDetails.NextPrevRoundTrip | frontend/src/features/business/StoreDetailsScreen.tsx:49-58 | next and previous undo each other |
| StoreDetails.ForwardWraps | frontend/src/features/business/StoreDetailsScreen.tsx:49-52 | n steps forward move by n modulo the slot count |
| StoreDetails.EmptyGalleryStaysAtZero | frontend/src/features/business/StoreDetailsScreen.tsx:51 | with no images both arrows land on 0 |
| StoreDetails.Screen.NextImage | frontend/src/features/business/StoreDetailsScreen.tsx:49-52 | without a store or an image list nothing changes; otherwise the index becomes NextIndex |
| StoreDetails.Screen.PrevImage | frontend/src/features/business/StoreDetailsScreen.tsx:54-58 | without a store or an image list nothing changes; otherwise the index becomes PrevIndex |
| StoreDetails.Screen.DotClick | frontend/src/features/business/StoreDetailsScreen.tsx:60-62 | the index becomes the dot clicked |
| HomeScreen.TypeOf | frontend/src/features/business/HomeScreen.tsx:43 | the type when it is set and not empty, otherwise the category |
| HomeScreen.FilteredStores | frontend/src/features/business/HomeScreen.tsx:41-46 | a store is shown exactly when it is in the list, its lower-cased name contains the lower-cased term and its type matches the filter |
| HomeScreen.FilteredStoresExact | frontend/src/features/business/HomeScreen.tsx:41-46 | the filter keeps the list's order. It keeps a store exactly when its lower-cased name contains the lower-cased term and its type matches the filter |
| HomeScreen.EmptySearchShowsAll | frontend/src/features/business/HomeScreen.tsx:41-46 | no search term and the "All" filter show every store |
| HomeScreen.SearchIgnoresCase | frontend/src/features/business/HomeScreen.tsx:42 | a name equal to the term up to case is found |

## Left out

- I/O is not modelled: HTTP, local storage, logging, the clock and
  `Date.now()`. Their results are parameters: the fetched lists, the POST
  answer, the thrown message and `now`.
- The default range of the front-end `getFullDates` (today to +30 days,
  bookingService.ts:78-79) is not modelled. It needs the clock. Callers pass
  the range.
- The check-then-save in createBooking is not modelled as a race. Two
  concurrent requests can both pass the check. The model runs each call alone.
- `getBookingsByStoreAndDate` is the one-day case of the store range query. Only
  `BookingsInRange` is modelled.
- Two definitions of "full" are not related to each other in the model. The
  back end counts a service's bookings against its capacity. The front-end
  views count reserved slots against `totalSlots`.
- Prices are BigDecimal on the server and floats in the browser. They are
  copied, never computed with, and modelled as an opaque value.
- Cart quantities are Java `int`. CartService.Carts.AddItem: does not model
  32-bit wrap-around when merged quantities overflow. Integers are unbounded
  here.
- CartService.Carts.Checkout: the notices to business owners
  (CartService.java:149-166) are reduced to whether one of them fails, the
  parameter `noticeFails`. Their grouping by business and their texts are not
  modelled. A failing notice is caught, but it has already marked the shared
  transaction rollback-only, so the commit fails and the order is not stored.
  The empty catch shows the order was meant to stand; the model follows the
  code.
- BookingService.Bookings.UpdateBookingStatus: a failing cancellation notice
  rolls the status change back, as above. The source's comment ("do not fail
  status update if notification fails") intends the change to stand; the
  model follows the code.
- BookingService.Bookings.DeleteBooking: a failing notice rolls the deletion
  back, as above. The source's comment ("do not fail delete if notification
  fails") intends the deletion to stand; the model follows the code.
- Records: Object.keys lists keys that are array indices ("1", "42") first,
  in numeric order, before the others in insertion order. The model keeps
  every key in insertion order. The keys used are dates and times of day,
  which are never array indices.
- `notifyMessageReceived` is not modelled. It is a single call of
  createNotification with a fixed text, and that call is modelled.
- NotificationService.Notifications.GetByReceiver: notifications created at the
  same instant keep their insertion order (InboxTiesKeepStoreOrder). The
  database's order among equal timestamps is unspecified.
- BookingScreen.ParseInt: reads decimal text only. `parseInt` without a radix
  reads a "0x" prefix as hexadecimal; here "0x1A" gives 0. Numbers beyond
  2^53, which JavaScript rounds, are exact here.
- BookingScreen.Screen.HandleSubmit: what the server answers to a NaN service
  id (sent as JSON null) is not modelled; it is part of the `outcome`
  parameter, like every other answer.
- Notification and business ids are modelled as positions or as counters.
  The identity column's actual values are not modelled.
- Foreign keys are the `LinksResolve` / `KeysResolve` preconditions. The
  database enforces them.
- BusinessService.Businesses.DeleteBusiness: the failure when a cart line or
  an order item still refers to one of the business's products carries the
  fixed text `ProductStillReferenced`. The database's own message and the
  exception type are not modelled. The CartItem and OrderItem entities are
  not part of this model; their reference to a product is taken from
  `getProduct()` in CartService.java and OrderService.java, and is assumed
  to be a plain foreign key without a cascade.
- ManageStoreModal's `handleChange` and `handleSubmit` are not modelled. They
  edit the store's other fields and send the queues to the server; the server
  calls are outside this model.
- Number parsing of form fields (`parseFloat`, `parseInt` in
  ManageStoreModal.tsx:81-84) is not modelled. The saved entry keeps the
  form's text.
- Text.ToLower: lower-cases ASCII letters only. JavaScript's `toLowerCase`
  also folds the other Unicode letters; that folding is not modelled.
- White space has two definitions. `Text.IsSpace` is JavaScript's (used by
  `trim`, `\s` and the front end). `Text.IsJavaSpace` is Java's
  `Character.isWhitespace` (used through `Text.IsJavaBlank` by
  `String.isBlank()` in CartService.java and NotificationService.java). They
  differ: Java also counts U+001C to U+001F, and it does not count U+00A0,
  U+2007, U+202F or U+FEFF.
- Strings are sequences of Unicode code points. JavaScript and Java count
  UTF-16 code units, so a character outside the Basic Multilingual Plane has
  length 2 there and 1 here. Lengths and indices in the model count code
  points.
- StoreDetails.Screen.DotClick: the index is not range-checked, and neither is
  the source's.
- Address.CityLosesFirstWord: states only the parser as written. The
  corrected parser's half is RoundTripFixed.
- BookingCodec.Parse: its string case is stated through ParseText, which
  carries the full contract.
- A two-segment address "street, city" cannot be told apart from a one-line
  "street, country". Both parse as street and city, as the source does.

## Findings

| source | as written | input that shows it | evidently intended | confidence | as-written member | corrected member |
|---|---|---|---|---|---|---|
| TimskiMilenici/src/main/java/com/example/timskimilenici/repositories/BookingRepository.java:17 | the day count uses `bookingTime < :end`, and isAvailable passes `end = date.atTime(LocalTime.MAX)` | a booking at 23:59:59.999999999 is not counted for its day | count every booking of the day: `<=` the end, or `<` the next day's start | not executed | BookingService.LastNanosecondNotCounted | BookingService.IsAvailable |
| frontend/src/features/business/utils/addressUtils.ts:39 | with no postal code, the middle's first word is dropped from the city | street "Main St", city "New York", country "USA" reads back with city "York" | the whole middle is the city when it has no postal code | not executed | Address.NewYork | Address.RoundTripFixed |
| frontend/src/features/business/utils/addressUtils.ts:39 | with a postal code and no city, the city is the whole middle | street "Main St", postal code "1000", country "USA" reads back with city "1000" | the city is empty when only a postal code was given | not executed | Address.PostalOnly | Address.RoundTripFixed |
