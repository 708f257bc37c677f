# ParkEase, modelled in Dafny

ParkEase is a parking finder. Owners list parking locations and keep their
free-space counts up to date. Drivers see nearby locations on a map, search
them, open a sheet with a location's details and book it by the hour.

This project models the core of that system and proves properties about it:

- **The parking backend.** This covers the `ParkingSpot` Mongoose schema
  (`spot_schema.dfy`) and the REST handlers of `routes/parking.js`
  (`parking_routes.dfy`). The collection is a map from id to document. Every
  `statusUpdate` broadcast is an append to an event log. Each handler is a
  function over the whole state, and the `SpotStore` class is proved to do
  what those functions say.
- **The dashboard client's merge of `statusUpdate` broadcasts**
  (`use_parking.dfy`).
- **The owner pages.**
  - The "Manage Spots" page (`manage_spots.dfy`): the availability badge,
    "last updated" text, totals, and a class whose methods edit the list in
    place.
  - The dashboard (`owner_dashboard.dfy`): sums, occupancy and bar colour.
- **The driver app.**
  - The home page's search and location handling (`driver_page.dfy`).
  - The booking modal's price and step machine (`booking.dfy`).
  - The map's marker reconciliation (`parking_map.dfy`).
  - The location sheet's stars, badge and flags (`bottom_sheet.dfy`).
- **Shared definitions.** The JavaScript built-ins all of these lean on live
  in `js_builtins.dfy`: `trim`, case mapping, `includes`, `parseInt`,
  `parseFloat`, `filter`, the digits-only `replace`, the rounded percentage
  and the clamp. `driver_types.dfy` holds the driver-side records, and
  `wrappers.dfy` holds `Option`.

Modelling choices:

- **Numbers.** Integers are unbounded and coordinates are exact reals.
- **Ratings** are integer tenths of a star.
- **Clocks.** A clock reading (`now`, the elapsed milliseconds) is a
  parameter.
- **Geolocation** is a parameter: the browser's answer.
- **Mock data.** The mock generator of the driver app is a parameter
  `generate` that maps a location to a list of spots.
- **Distance.** The store's spherical distance for `$near` is a parameter
  `distance`.
- **Timers and callbacks** (`setTimeout`, script load, marker clicks) are
  separate methods, to be called when they fire.
- **Clicks.** A click on a button that the current state does not render, or
  renders disabled, changes nothing.

## Model

| member | source | states |
|---|---|---|
| SpotSchema.Status.Text | models/ParkingSpot.js:41-45 | each enum value's text is one of the three strings the enum admits |
| SpotSchema.ParseStatus | models/ParkingSpot.js:41-45 | a stored status string is read back exactly when it is one of `available`, `limited`, `full`, and reading it back gives the same text |
| SpotSchema.StatusRoundTrip | models/ParkingSpot.js:41-45 | enum value → text → enum value is the identity |
| SpotSchema.CastAll | models/ParkingSpot.js:23-26 | casting the coordinates keeps their number and order |
| SpotSchema.Construct | models/ParkingSpot.js:3-50 | `save()` succeeds iff a name that does not trim to nothing is present, the type is `Point`, every coordinate is a number, and capacity and price are present and ≥ 0 (and a given status is in the enum); the saved document is valid, owned as drafted, its name trimmed, its capacity, price, description, type, address and coordinates those drafted, its status defaulting to `available` and `createdAt` to now |
| ParkingRoutes.CreateRequiresOwner | routes/parking.js:12-14 | a caller who is neither owner nor admin gets 403 and the store is unchanged |
| ParkingRoutes.CreateStoresCaller | routes/parking.js:9-32 | a created spot is new, owned by the caller, carries the body's name (trimmed), description, address, capacity and price, is a `Point` at `[lng, lat]` as parsed, `available`, dated now, and takes the next id; nothing is broadcast |
| ParkingRoutes.CreateSteps | routes/parking.js:9-38 | the three outcomes of POST in order: 403, 500 (save or index rejects), 200 with the document stored under the next id |
| ParkingRoutes.CreateKeepsStore | routes/parking.js:18-31 | POST keeps every stored document valid, indexable and under its own id |
| ParkingRoutes.PutAsWritten | routes/parking.js:70-81 | the as-written update leaves id, owner, location and creation date alone |
| ParkingRoutes.PutAsWrittenBreaksSchema | routes/parking.js:77-81 | the update without validators stores an invalid document for a status outside the enum, a negative capacity or price, or a blank name |
| ParkingRoutes.PutValidated | routes/parking.js:70-81 | the validated update yields the as-written document iff it is valid, and the result is storable |
| ParkingRoutes.PutChangesTruthyFieldsOnly | routes/parking.js:70-75 | PUT changes exactly the fields given with truthy values (a 0 capacity or price is ignored), name trimmed; owner, location and date are unchanged |
| ParkingRoutes.WriteUnknownIsNotFound | routes/parking.js:60-62 | PUT and PATCH on an unknown id answer 404 whoever the caller is, before the ownership check |
| ParkingRoutes.WriteByStrangerIsUnauthorized | routes/parking.js:65-67 | PUT and PATCH by a caller who is neither owner nor admin answer 401 and change nothing |
| ParkingRoutes.PutAsWrittenStoresInvalid | routes/parking.js:56-94 | as written, the owner's PUT with a status outside the enum, a negative capacity or price, or a blank name gets 200, stores the update, broadcasts a given status, and leaves the store violating the schema |
| ParkingRoutes.PutClosedIsAccepted | routes/parking.js:75-88 | as written, the owner's `{ "status": "closed" }` gets 200, stores "closed" and broadcasts it |
| ParkingRoutes.PutCorrectedAgrees | routes/parking.js:56-94 | the validated PUT answers 500 and changes nothing exactly where the update breaks the schema, otherwise is the handler as written, and keeps every stored document valid |
| ParkingRoutes.PutBroadcastsStatusOnly | routes/parking.js:84-86 | the corrected (validated) PUT succeeds iff found, authorised and valid; it appends exactly one `{id, status}` with the stored status iff a status is given, and leaves every other document as it was |
| ParkingRoutes.PatchStoresThenBroadcasts | routes/parking.js:112-116 | PATCH succeeds iff found, authorised and the status is in the enum; it then stores the status and appends exactly one event with that id and status; otherwise nothing changes |
| ParkingRoutes.WritesKeepStore | routes/parking.js:56-124 | PUT (validated) and PATCH keep every stored document valid and indexable |
| ParkingRoutes.SortedCons | routes/parking.js:45 | an element no larger than the head of a sorted list keeps it sorted in front |
| ParkingRoutes.InsertBy | routes/parking.js:45 | inserting into a sorted list keeps it sorted and adds exactly one element |
| ParkingRoutes.SortBy | routes/parking.js:45 | the query's sort is a permutation and is sorted by the key |
| ParkingRoutes.RecordsOnce | routes/parking.js:45 | the natural-order scan lists each stored document with an id in range exactly once |
| ParkingRoutes.StoredOnce | routes/parking.js:45 | the full scan lists each stored document exactly once and nothing else |
| ParkingRoutes.MineIsCallersSpots | routes/parking.js:43-51 | GET `/mine` lists each of the caller's documents exactly once and no other, newest `createdAt` first |
| ParkingRoutes.NearbyDefaults | routes/parking.js:134-138 | a missing or empty lat or lng is 400; without a radius the search reaches 5000; the point is `[lng, lat]` |
| ParkingRoutes.NearbyIsWithinRadius | routes/parking.js:140-152 | GET `/nearby` lists each document within `maxDistance` of the point exactly once, nearest first |
| ParkingRoutes.SpotStore.constructor | routes/parking.js:9-38 | an empty, consistent collection with no broadcasts |
| ParkingRoutes.SpotStore.Create | routes/parking.js:9-38 | the method's new state, status code and body are those of the POST specification, and the store stays consistent |
| ParkingRoutes.SpotStore.Mine | routes/parking.js:43-51 | exactly the caller's documents, newest first |
| ParkingRoutes.SpotStore.Put | routes/parking.js:56-94 | the corrected PUT: the method's new state, code and body are those of the validated PUT specification, which answers 500 where the handler as written stores the invalid update |
| ParkingRoutes.SpotStore.Patch | routes/parking.js:99-124 | the method's new state, code and body are those of the PATCH specification |
| ParkingRoutes.SpotStore.Nearby | routes/parking.js:130-158 | 400 iff lat or lng is missing; 200 iff the query is well formed; then exactly the documents within the radius, nearest first |
| UseParking.ApplyStatus | frontend/hooks/useParking.ts:36-40 | the merge keeps length and order; a spot with the event's id takes its status, every other spot is unchanged |
| UseParking.ApplyStatusTargets | frontend/hooks/useParking.ts:38 | position by position: same id, only `status` may change, and it changes to the event's status (unvalidated) exactly on the matching id |
| UseParking.ApplyStatusAbsent | frontend/hooks/useParking.ts:37-39 | an event for an id not in the list leaves the list identical |
| UseParking.ApplyStatusIdempotent | frontend/hooks/useParking.ts:36-40 | applying the same event twice is applying it once |
| UseParking.ApplyStatusLatestWins | frontend/hooks/useParking.ts:36-40 | a later event for an id overrides an earlier one |
| UseParking.ApplyStatusCommutes | frontend/hooks/useParking.ts:36-40 | events for different ids can be applied in either order |
| UseParking.PatchReachesClient | frontend/hooks/useParking.ts:35-41 | after a successful PATCH, a client holding the spot that applies the broadcast holds exactly the stored document |
| UseParking.SpotFeed.constructor | frontend/hooks/useParking.ts:17 | the hook starts with an empty list and no handler |
| UseParking.SpotFeed.Mount | frontend/hooks/useParking.ts:30-41 | the initial fetch is sent iff lat and lng are both non-zero; the handler is attached |
| UseParking.SpotFeed.FetchResolved | frontend/hooks/useParking.ts:23-24 | the fetched list replaces the state |
| UseParking.SpotFeed.OnStatusUpdate | frontend/hooks/useParking.ts:35-41 | while attached, a broadcast is merged by `ApplyStatus`; otherwise ignored |
| UseParking.SpotFeed.Unmount | frontend/hooks/useParking.ts:43-46 | the handler is detached and the list is kept |
| ManageSpots.AvailabilityBand | smart-parking-finder/app/owner/manage-spots/page.tsx:97-102 | High iff more than 30 per cent free, Low iff at most 10 per cent, Medium between; with no spaces High iff something is free |
| ManageSpots.BandMonotone | smart-parking-finder/app/owner/manage-spots/page.tsx:97-102 | more free spaces never lower the badge |
| ManageSpots.LowAlertShowsLow | smart-parking-finder/app/owner/manage-spots/page.tsx:375 | when the low-availability alert shows, some row shows a Low badge |
| ManageSpots.LastUpdated | smart-parking-finder/app/owner/manage-spots/page.tsx:104-114 | "Just now" under a minute, whole minutes (floored) under an hour, whole hours 1..23 under a day, the date otherwise |
| ManageSpots.FloorTwice | smart-parking-finder/app/owner/manage-spots/page.tsx:107-111 | flooring to minutes then to hours is flooring to hours |
| ManageSpots.TotalsInRange | smart-parking-finder/app/owner/manage-spots/page.tsx:166-167 | with every row in range, total free is between 0 and total spaces |
| ManageSpots.OccupancyRate | smart-parking-finder/app/owner/manage-spots/page.tsx:224 | undefined iff there are no spaces, else a percentage in 0..100 |
| ManageSpots.Usage | smart-parking-finder/app/owner/manage-spots/page.tsx:237 | occupied + free = total, occupied ≥ 0, usage in 0..100 |
| ManageSpots.SetAvailable | smart-parking-finder/app/owner/manage-spots/page.tsx:128-142 | length kept; the rows with the id get the new count and time, every other row is unchanged |
| ManageSpots.SetAvailableTotal | smart-parking-finder/app/owner/manage-spots/page.tsx:166-167 | updating one row moves the free total by exactly that row's change and keeps the space total |
| ManageSpots.Unchanged | smart-parking-finder/app/owner/manage-spots/page.tsx:139 | an update for an id no row has leaves the list identical |
| ManageSpots.SteppedInRange | smart-parking-finder/app/owner/manage-spots/page.tsx:132 | `max(0, min(total, available + change))` stays in range, and equals `available + change` when that fits |
| ManageSpots.PresetValue | smart-parking-finder/app/owner/manage-spots/page.tsx:442-477 | "Full" enters no free spaces and "Empty" all of them; 25% and 50% are the nearest whole counts, halves rounded up; every preset is within the spaces |
| ManageSpots.ManageSpotsPage.constructor | smart-parking-finder/app/owner/manage-spots/page.tsx:117-121 | the initial list, no dialog, no toast |
| ManageSpots.ManageSpotsPage.EditSpot | smart-parking-finder/app/owner/manage-spots/page.tsx:123-126 | the dialog opens on the row with its current count |
| ManageSpots.ManageSpotsPage.QuickUpdate | smart-parking-finder/app/owner/manage-spots/page.tsx:128-142 | the rows with the id take the clamped count and the time; the rest are unchanged; rows stay in range |
| ManageSpots.ManageSpotsPage.SaveSpot | smart-parking-finder/app/owner/manage-spots/page.tsx:144-164 | with no dialog open nothing changes; otherwise the edited rows take the entered count, the dialog closes and the toast names the location |
| ManageSpots.ManageSpotsPage.MarkAllAvailable | smart-parking-finder/app/owner/manage-spots/page.tsx:343-350 | the rows with the clicked id become completely free, the rest are unchanged, and the toast shows |
| ManageSpots.ManageSpotsPage.ManualInput | smart-parking-finder/app/owner/manage-spots/page.tsx:434-437 | the entered count is `parseInt` (0 for NaN) clamped to `[0, total]` |
| ManageSpots.ManageSpotsPage.SliderChange | smart-parking-finder/app/owner/manage-spots/page.tsx:411-416 | the slider sets the entered count within `[0, total]` |
| ManageSpots.ManageSpotsPage.ChoosePreset | smart-parking-finder/app/owner/manage-spots/page.tsx:442-477 | the entered free count becomes the pressed button's value (0 for "Full", the total for "Empty") and stays within the spaces |
| ManageSpots.ManageSpotsPage.CloseDialog | smart-parking-finder/app/owner/manage-spots/page.tsx:394 | the dialog closes without changing the list |
| ManageSpots.ManageSpotsPage.HideToast | smart-parking-finder/app/owner/manage-spots/page.tsx:163 | the toast's timer hides it and changes nothing else |
| OwnerDashboard.SumsSplit | frontend/app/owner/dashboard/page.tsx:73-75 | the three sums are folds from 0: the sum over a concatenation is the sum of the sums |
| OwnerDashboard.AvailableAddsUp | frontend/app/owner/dashboard/page.tsx:194 | the cards' free counts add up to total minus occupied, and consistent locations keep occupied ≤ total |
| OwnerDashboard.OccupancyRate | frontend/app/owner/dashboard/page.tsx:193 | NaN iff no spaces and no cars, Infinity iff no spaces but cars; otherwise a percentage in 0..100 when occupied ≤ total, 100 when full, 0 when empty |
| OwnerDashboard.OverallOccupancy | frontend/app/owner/dashboard/page.tsx:146 | NaN iff no spaces at all, otherwise in 0..100 |
| OwnerDashboard.Bar | frontend/app/owner/dashboard/page.tsx:286-292 | red iff the rate is above 85, amber iff in (60, 85], green iff at most 60 |
| OwnerDashboard.BarOf | frontend/app/owner/dashboard/page.tsx:286-292 | a location with no spaces has a green bar when it has no cars (NaN rate) and a red one when it has cars (Infinity); otherwise the bar of its rate |
| OwnerDashboard.BarByCounts | frontend/app/owner/dashboard/page.tsx:193-194 | in counts: red iff at least 85.5 per cent occupied, green iff less than 60.5 per cent |
| DriverPage.BlankQueryShowsAll | smart-parking-finder/app/page.tsx:84-87 | an empty or white-space-only query shows all spots in order |
| DriverPage.SearchKeepsOrder | smart-parking-finder/app/page.tsx:83-95 | what the search shows is always a subsequence of all spots |
| DriverPage.SearchKeepsMatches | smart-parking-finder/app/page.tsx:89-94 | for a query that does not trim to nothing, a spot is shown iff its lower-cased name or address contains the lower-cased query, as often as listed |
| DriverPage.SearchIgnoresCase | smart-parking-finder/app/page.tsx:91-92 | matching depends only on the lower-cased query |
| DriverPage.LongQueryMatchesNothing | smart-parking-finder/app/page.tsx:91-92 | a query longer than name and address matches nothing |
| DriverPage.UntrimmedQueryMisses | smart-parking-finder/app/page.tsx:84-92 | the query is trimmed only for the blank test: "mall " is not blank but does not match a spot named "Mall" that "mall" matches |
| DriverPage.Located | smart-parking-finder/app/page.tsx:19-53 | the reported position, or (12.9716, 77.5946) when geolocation fails or is unsupported |
| DriverPage.ParkEasePage.constructor | smart-parking-finder/app/page.tsx:11-16 | loading, nothing located, listed or selected |
| DriverPage.ParkEasePage.MoveTo | smart-parking-finder/app/page.tsx:56-62 | a new location regenerates all spots around it and re-applies the search |
| DriverPage.ParkEasePage.LocateUser | smart-parking-finder/app/page.tsx:19-53 | the location becomes the reported one or the default, loading ends, the live badge shows, the list is regenerated and filtered |
| DriverPage.ParkEasePage.WatchPosition | smart-parking-finder/app/page.tsx:65-80 | each watched position becomes the location and regenerates the list |
| DriverPage.ParkEasePage.SetSearchQuery | smart-parking-finder/app/page.tsx:83-95 | the shown list is the search over all spots for the new query |
| DriverPage.ParkEasePage.SelectSpot | smart-parking-finder/app/page.tsx:97-99 | the selection becomes the given spot (or none), nothing else changes |
| DriverPage.ParkEasePage.CloseSheet | smart-parking-finder/app/page.tsx:101-103 | nothing is selected, nothing else changes |
| Booking.PricePerHour | smart-parking-finder/components/booking-modal.tsx:39 | the hourly price is the value of the string's decimal digits, NaN iff it has none |
| Booking.TotalPrice | smart-parking-finder/components/booking-modal.tsx:40 | total = price × hours, NaN iff the price is |
| Booking.DisplayedPrice | smart-parking-finder/components/booking-modal.tsx:38-40 | a price shown as a number between digit-free text (e.g. "₹40") reads back as that number, and the total is it times the hours |
| Booking.Increase | smart-parking-finder/components/booking-modal.tsx:42-44 | in the select step, one more hour below 24; otherwise nothing |
| Booking.Decrease | smart-parking-finder/components/booking-modal.tsx:46-48 | in the select step, one hour less above 1; otherwise nothing |
| Booking.TypeVehicle | smart-parking-finder/components/booking-modal.tsx:183 | the vehicle number is stored upper-cased, with no lower-case letter |
| Booking.Continue | smart-parking-finder/components/booking-modal.tsx:206-207 | the confirm step is reached iff the trimmed vehicle number is not empty; only the step changes |
| Booking.Back | smart-parking-finder/components/booking-modal.tsx:279 | confirm goes back to select; otherwise nothing |
| Booking.ConfirmBooking | smart-parking-finder/components/booking-modal.tsx:285-286 | in the confirm step and not processing, processing starts; otherwise nothing |
| Booking.TimerFires | smart-parking-finder/components/booking-modal.tsx:53-56 | the timer ends processing in the success step |
| Booking.Close | smart-parking-finder/components/booking-modal.tsx:59-64 | close resets to select, 1 hour, empty vehicle number, leaving processing alone |
| Booking.TransitionsKeepValid | smart-parking-finder/components/booking-modal.tsx:42-64 | every transition keeps hours in 1..24 and a non-blank vehicle number in the confirm step |
| Booking.InitialValid | smart-parking-finder/components/booking-modal.tsx:27-36 | the initial state satisfies that invariant |
| Booking.IncreaseThenDecrease | smart-parking-finder/components/booking-modal.tsx:42-48 | in the select step, one hour more then one less is the identity |
| Booking.ConfirmEndsInSuccess | smart-parking-finder/components/booking-modal.tsx:50-57 | confirming and letting the timer fire ends in success with processing off, hours and vehicle kept |
| Booking.CloseDoesNotCancel | smart-parking-finder/components/booking-modal.tsx:50-64 | closing while processing does not stop the timer: it still ends in the success step, now with no vehicle number |
| Booking.BookingModal.constructor | smart-parking-finder/components/booking-modal.tsx:27-36 | select step, 1 hour, empty vehicle, not processing |
| Booking.BookingModal.IncreaseHours | smart-parking-finder/components/booking-modal.tsx:42-44 | the new state is `Increase` of the old |
| Booking.BookingModal.DecreaseHours | smart-parking-finder/components/booking-modal.tsx:46-48 | the new state is `Decrease` of the old |
| Booking.BookingModal.SetVehicleNumber | smart-parking-finder/components/booking-modal.tsx:183 | the new state is `TypeVehicle` of the old |
| Booking.BookingModal.ClickContinue | smart-parking-finder/components/booking-modal.tsx:206-207 | the new state is `Continue` of the old |
| Booking.BookingModal.ClickBack | smart-parking-finder/components/booking-modal.tsx:279 | the new state is `Back` of the old |
| Booking.BookingModal.ClickConfirm | smart-parking-finder/components/booking-modal.tsx:285-286 | the new state is `ConfirmBooking` of the old |
| Booking.BookingModal.BookingTimer | smart-parking-finder/components/booking-modal.tsx:53-56 | the new state is `TimerFires` of the old |
| Booking.BookingModal.HandleClose | smart-parking-finder/components/booking-modal.tsx:59-64 | the new state is `Close` of the old |
| ParkingMap.StatusColor | smart-parking-finder/components/parking-map.tsx:146-151 | #10b981 iff high, #f59e0b iff medium, #ef4444 iff low |
| ParkingMap.IconFor | smart-parking-finder/components/parking-map.tsx:145-172 | the icon is marked selected iff the selected spot has this id, with the status colour, name and free count |
| ParkingMap.Pruned | smart-parking-finder/components/parking-map.tsx:136-141 | exactly the markers whose id is listed survive, unchanged |
| ParkingMap.PlacedKeys | smart-parking-finder/components/parking-map.tsx:144-185 | the second loop adds exactly the listed ids and gives new markers identities from the next serial on |
| ParkingMap.IdsSplit | smart-parking-finder/components/parking-map.tsx:144 | the listed ids are the first one plus those of the rest |
| ParkingMap.PlacedKeeps | smart-parking-finder/components/parking-map.tsx:174-175 | an existing marker keeps identity, position and click target; only its icon may change, and not at all if its id is not listed |
| ParkingMap.PlacedFresh | smart-parking-finder/components/parking-map.tsx:176-183 | marker identities stay below the next serial and distinct |
| ParkingMap.PlacedNewAtFirst | smart-parking-finder/components/parking-map.tsx:176-183 | a new marker stands at the first listed spot with its id and selects that spot on click |
| ParkingMap.PlacedIconOfLast | smart-parking-finder/components/parking-map.tsx:174-175 | each marker shows the icon of the last listed spot with its id |
| ParkingMap.Reconciliation | smart-parking-finder/components/parking-map.tsx:128-186 | after the effect the marker keys are exactly the listed ids; kept markers keep identity, position and click target; new ones get unused identities; icons are current |
| ParkingMap.NewMarkerPosition | smart-parking-finder/components/parking-map.tsx:176-183 | after the effect a new marker stands at its spot's position |
| ParkingMap.ParkingMapView.constructor | smart-parking-finder/components/parking-map.tsx:28-32 | no map, no markers, no device marker |
| ParkingMap.ParkingMapView.LeafletLoaded | smart-parking-finder/components/parking-map.tsx:55-59 | the library is marked loaded, nothing else changes |
| ParkingMap.ParkingMapView.InitMap | smart-parking-finder/components/parking-map.tsx:63-89 | once loaded and with no map, a map is made at the device (or Bangalore) at zoom 15; otherwise nothing |
| ParkingMap.ParkingMapView.RemoveMap | smart-parking-finder/components/parking-map.tsx:91-96 | the map is removed and the marker dictionary kept |
| ParkingMap.ParkingMapView.UpdateUserMarker | smart-parking-finder/components/parking-map.tsx:100-125 | with a map and a location, the device marker is at the location; otherwise unchanged |
| ParkingMap.ParkingMapView.Reconcile | smart-parking-finder/components/parking-map.tsx:128-186 | before the map exists nothing changes; otherwise the markers become `Reconciled` of the old ones |
| ParkingMap.PruneMarkers | smart-parking-finder/components/parking-map.tsx:136-141 | the first loop leaves exactly the markers whose id is listed, unchanged (`Pruned`) |
| ParkingMap.PlaceMarkers | smart-parking-finder/components/parking-map.tsx:144-185 | the second loop's dictionary and next identity are `Placed` of its input |
| ParkingMap.PlacedStep | smart-parking-finder/components/parking-map.tsx:144-185 | one step of the second loop followed by the rest is the whole loop |
| ParkingMap.ParkingMapView.Recenter | smart-parking-finder/components/parking-map.tsx:202-207 | with a map and a location, the view centres on it at zoom 15; otherwise nothing |
| ParkingMap.ParkingMapView.PanToSelected | smart-parking-finder/components/parking-map.tsx:189-192 | with a map and a selection, the view pans to it keeping the zoom |
| BottomSheet.StarRating | smart-parking-finder/components/parking-bottom-sheet.tsx:31-57 | exactly five stars: full below floor(rating), half at floor(rating) iff the fraction is ≥ 0.5, empty otherwise |
| BottomSheet.ShownUpToValue | smart-parking-finder/components/parking-bottom-sheet.tsx:37-54 | the first k stars are worth 10 each up to floor(rating), then one half star when due |
| BottomSheet.ShownNothing | smart-parking-finder/components/parking-bottom-sheet.tsx:33-34 | a negative rating draws only empty stars |
| BottomSheet.StarsShowRating | smart-parking-finder/components/parking-bottom-sheet.tsx:31-57 | the stars show the rating rounded down to a half star; above 5 all full, below 0 all empty |
| BottomSheet.OneHalfStarAtMost | smart-parking-finder/components/parking-bottom-sheet.tsx:39-50 | at most one half star, at floor(rating), after only full stars |
| BottomSheet.StatusColor | smart-parking-finder/components/parking-bottom-sheet.tsx:100-111 | muted iff there is no availability |
| BottomSheet.StatusText | smart-parking-finder/components/parking-bottom-sheet.tsx:113-124 | "Unknown" iff there is no availability |
| BottomSheet.StatusDistinct | smart-parking-finder/components/parking-bottom-sheet.tsx:100-124 | different availabilities get different texts and colours |
| BottomSheet.ParkingBottomSheet.constructor | smart-parking-finder/components/parking-bottom-sheet.tsx:84-87 | all flags off, nothing rendered |
| BottomSheet.ParkingBottomSheet.SpotChanged | smart-parking-finder/components/parking-bottom-sheet.tsx:89-98 | a spot shows the sheet collapsed with reviews and booking closed; no spot hides it and renders nothing |
| BottomSheet.ParkingBottomSheet.ToggleExpand | smart-parking-finder/components/parking-bottom-sheet.tsx:139-144 | the height flips; expanding shows the reviews, collapsing leaves them |
| BottomSheet.ParkingBottomSheet.OpenBooking | smart-parking-finder/components/parking-bottom-sheet.tsx:285 | "Book Now" opens the modal |
| BottomSheet.ParkingBottomSheet.CloseBooking | smart-parking-finder/components/parking-bottom-sheet.tsx:324-328 | the modal's close closes it |
| JsBuiltins.Trim | models/ParkingSpot.js:12 | `trim()` returns a piece no longer than the input that neither starts nor ends with ECMAScript white space or a line terminator |
| JsBuiltins.TrimStartSuffix | models/ParkingSpot.js:12 | `trimStart` drops only white space and keeps the rest of the string |
| JsBuiltins.TrimEndPrefix | models/ParkingSpot.js:12 | `trimEnd` drops only white space and keeps the start of the string |
| JsBuiltins.TrimBlank | smart-parking-finder/app/page.tsx:84 | `!s.trim()` holds iff `s` is white space only |
| JsBuiltins.TrimFixed | models/ParkingSpot.js:12 | trimming leaves exactly the trimmed strings alone |
| JsBuiltins.TrimIdempotent | models/ParkingSpot.js:12 | trimming twice is trimming once |
| JsBuiltins.Lower | smart-parking-finder/app/page.tsx:91-92 | lower-casing maps each character and keeps the length |
| JsBuiltins.Upper | smart-parking-finder/components/booking-modal.tsx:183 | upper-casing maps each character and keeps the length |
| JsBuiltins.UpperIsUpper | smart-parking-finder/components/booking-modal.tsx:183 | an upper-cased string has no lower-case letter and is a fixed point |
| JsBuiltins.LowerIdempotent | smart-parking-finder/app/page.tsx:91-92 | lower-casing twice is lower-casing once |
| JsBuiltins.IncludesAt | smart-parking-finder/app/page.tsx:91-92 | `includes` holds iff the piece occurs at some offset |
| JsBuiltins.DecimalValue | frontend/app/owner/dashboard/page.tsx:146 | the digits of `${n}` read back as `n` |
| JsBuiltins.ParseIntDecimal | smart-parking-finder/app/owner/manage-spots/page.tsx:435 | `parseInt` reads back `${n}` followed by any non-digit text |
| JsBuiltins.ParseIntNegative | smart-parking-finder/app/owner/manage-spots/page.tsx:435 | `parseInt` reads back `${-n}` |
| JsBuiltins.ParseIntDigits | smart-parking-finder/components/booking-modal.tsx:39 | on digits alone `parseInt` is their value, NaN for the empty string |
| JsBuiltins.ParseFloatDecimal | routes/parking.js:24 | `parseFloat` of a whole number's text is that number |
| JsBuiltins.Filter | smart-parking-finder/app/page.tsx:89-93 | `filter` keeps each accepted element as often as it occurs and drops the rest |
| JsBuiltins.FilterIsSubsequence | smart-parking-finder/app/page.tsx:89-93 | `filter` keeps the order |
| JsBuiltins.FilterAll | smart-parking-finder/app/page.tsx:85 | when every element is accepted, `filter` is the identity |
| JsBuiltins.DigitsOnly | smart-parking-finder/components/booking-modal.tsx:39 | the result is digits only and no longer than the input |
| JsBuiltins.DigitsOnlyAppend | smart-parking-finder/components/booking-modal.tsx:39 | removing non-digits distributes over concatenation |
| JsBuiltins.DigitsOnlyKeeps | smart-parking-finder/components/booking-modal.tsx:39 | digit-free text vanishes, a digit string is kept whole |
| JsBuiltins.RoundPercent | frontend/app/owner/dashboard/page.tsx:193 | the percentage rounded half up: within half a point of the exact value; NaN iff the whole is 0 |
| JsBuiltins.RoundPercentRange | frontend/app/owner/dashboard/page.tsx:193 | a part between 0 and the whole gives 0..100 |
| JsBuiltins.RoundPercentEnds | frontend/app/owner/dashboard/page.tsx:193 | none of a non-empty whole is 0 per cent and all of it is 100 |
| JsBuiltins.Clamp | smart-parking-finder/app/owner/manage-spots/page.tsx:132 | `max(0, min(hi, v))` is ≥ 0, ≤ hi, `v` when in range, 0 below and hi above |

## Left out

- MongoDB's `$near` search and the `2dsphere` index are not computed. `$near` is a `distance` parameter. The index is reduced to its acceptance check: two coordinates, longitude in ±180 and latitude in ±90. A `NaN` or negative `$maxDistance` is modelled as a failing query (500).
- `$near` and `sort` are not specified among equal keys. Their order there is left open: the model only proves the order by key.
- The natural order of the collection is taken to be ascending id, which is insertion order for ObjectIds made by one process.
- Mongoose casting is not modelled beyond what is shown. Request numbers arrive as numbers. A malformed `:id` (`CastError`, 500) cannot occur, because ids are naturals.
- PATCH with no `status` in the body is not modelled: the status is always a string.
- Express routing and the `auth` middleware are not part of this model. The caller is a given `(id, role)`.
- `server.js`, the Socket.io wiring and `lib/api.ts` are not part of this model. A broadcast is an append to the log. Delivery, its timing and ordering across clients are not modelled, and neither is concurrency between requests.
- `lib/parking-data.ts` is not part of this model. Its mock spots are the `generate` parameter, and the `distance` strings it formats are kept as text.
- Floating point is not modelled. Arithmetic is exact, so `Math.round(o / t * 100)` can differ from the model by one when the float quotient falls just below a half (23 of 40 gives 57 in JavaScript, 58 here). The same applies to `ManageSpots.OccupancyRate`, `ManageSpots.Usage`, `OwnerDashboard.OccupancyRate` and `OwnerDashboard.OverallOccupancy`, whose results are the exact rounding.
- The dashboard's average rating, bar widths and `toLocaleString`/`toLocaleDateString` output are not modelled. An "on date" age is not rendered.
- `parseInt` with a `0x` prefix and `parseFloat` with an exponent or `Infinity` are not modelled, because none of them reaches the parking code's inputs in the model. A leading `.` is read as JavaScript reads it (".5" is 0.5).
- Prices are whole rupees: `pricePerHour` is an integer in `SpotSchema.Spot`, `ManageSpots.OwnerSpot` and `OwnerDashboard.DashSpot`, while the schema's `Number` also accepts a price such as 49.5.
- Case mapping covers the ASCII letters only.
- Leaflet's DOM work is not modelled: script and CSS injection, tiles, HTML marker strings, animations, and the zoom-in/out buttons, whose limits are Leaflet's. Markers left on a removed map are not tracked; only the id-keyed dictionary is.
- The booking modal's date and time pickers, the phone and navigation buttons (`window.open`), the reviews list and the header are not modelled. They are presentational or open other pages.
- `setTimeout` delays are not modelled. Each callback is a method called when it fires, and the toast and booking timers are not cancelled, as in the source. When the bottom sheet unmounts, the booking modal's state is discarded; the model does not track that.
- `ManageSpots.ManageSpotsPage.SliderChange` requires the value to be within the slider's range, which the slider component guarantees.
- The "+"/"−" buttons on the Manage Spots page are disabled at the bounds, which only spares the timestamp update; the model's `QuickUpdate` is the handler as written.

## Findings

| source | as written | input that shows it | evidently intended | confidence | as-written member | corrected member |
|---|---|---|---|---|---|---|
| routes/parking.js:77-81 | `findByIdAndUpdate` runs without `runValidators`, so the schema's enum, `min: 0` and `required` checks are skipped on PUT | the owner's PUT with body `{ "status": "closed" }`, `{ "capacity": -5 }` or `{ "name": "   " }` gets 200 and stores that value (and broadcasts "closed") | every stored document satisfies the schema; an invalid update is rejected (500) like a save | medium, not executed | ParkingRoutes.PutAsWrittenStoresInvalid | ParkingRoutes.PutCorrectedAgrees |
