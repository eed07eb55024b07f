# Group trip planner — a Dafny model of its booking and trip core

The system is an Express/knex backend for planning trips with friends and
booking catalogue tours, plus a Next.js front end. This project models its
core in Dafny:

- the relational state that migration 004 sets up: tables, unique keys,
  foreign keys and their ON DELETE actions;
- the bookings router: resolving the caller, tour booking with a capacity
  rule and cancel-then-rebook, custom-trip booking priced from the trip's
  flights and accommodations, cancellation, and the merged listing;
- the trips router: the owner-or-collaborator guard, listing, creating,
  building, renaming, reading and deleting trips;
- the nested destination, flight and accommodation routers;
- invitation links, created by the owner and redeemed once;
- the planning-phase router;
- migration 005, which removes duplicate travel plans and adds a unique
  index;
- the client-side list dedupe keyed by `String(id)`;
- the trip-creation form's validator and the payload it builds.

## How the model is built

- Every uuid is an `Id`, the 128-bit number Postgres orders uuids by. An
  id that reaches a `uuid` column as text (the cancel id, the path ids of
  the unguarded trip routes and of the item deletes, the flight and
  accommodation endpoint ids) is read with `Uuid.DbParse`. A text the
  column refuses makes the query throw, and the route answers 500.
- A table is a sequence of rows in scan order. `where(...).first()` is the
  first matching row (`Common.FindFirst`); `where(...)` is `Common.Filter`.
- A route handler is a pure function. It takes the database, the caller,
  the request, the clock reading and any fresh ids. It returns a `Step`:
  the database afterwards and the reply.
- A reply is `Success(status, message, data)` or `Failure(status, error)`.
  Where a route answers with no `message`, `Success` carries `""`.
- A knex transaction is a `Tx`: `Commit` with the new state, or `Abort` with
  the database error. `Schema.Settle` keeps the old database on `Abort`,
  which is the rollback.
- A fresh id that is already taken is a unique violation, as the database
  would raise it. It is not ruled out by a precondition.
- `Ledger.LedgerOk` is the invariant every handler is proved to keep:
  - the schema constraints hold;
  - every booking has at least one traveller;
  - no tour has more active seats booked than its capacity.

## Model

| member | source | states |
|---|---|---|
| Common.FindFirst | api/src/routers/bookings.js:51-54 | `where(p).first()` gives the first row satisfying `p`, and none when no row does |
| Common.Filter | api/src/routers/trips.js:61-63 | a `where` scan returns exactly the rows of the table that satisfy the condition, in table order |
| Hex.Encode | api/src/routers/invitations.js:25 | `toString("hex")` gives two lower-case hex digits per byte, 40 for 20 random bytes |
| Hex.DecodeEncode | api/src/routers/invitations.js:25 | decoding the hex text gives back the random bytes, so the token determines them |
| Hex.EncodeInjective | api/src/routers/invitations.js:25 | different random buffers give different tokens |
| Uuid.ParseFormat | api/src/routers/bookings.js:12 | every uuid value survives formatting to its canonical text and parsing back |
| Uuid.FormatParse | api/src/routers/bookings.js:12 | a text zod accepts as a uuid parses to a value whose canonical text is the lower-cased input |
| Uuid.DbParse | api/src/migrations/004_apply_full_schema.js:84 | a text a `uuid` column accepts (32 hex digits, an optional hyphen after any group of four, optional braces) reads as a value below 16^32 |
| Uuid.DbParseAgrees | api/src/migrations/004_apply_full_schema.js:84 | every text zod accepts as a uuid is read by the column as the same value |
| Uuid.DbParseBare | api/src/migrations/004_apply_full_schema.js:84 | the column also takes the 32 digits without hyphens, which zod refuses |
| Uuid.DbParseBraced | api/src/migrations/004_apply_full_schema.js:84 | the column also takes a uuid text wrapped in braces, as the same value |
| Schema.InsertBooking | api/src/migrations/004_apply_full_schema.js:82-92 | an insert into a booking table succeeds exactly when the row fits its columns, its id and its (user, plan) pair are new and its plan exists; it appends the row and keeps every constraint |
| Schema.UpdateBooking | api/src/migrations/004_apply_full_schema.js:82-92 | an update that keeps id, user and plan succeeds exactly when the row fits its columns, and keeps every constraint |
| Schema.DeletePlan | api/src/migrations/004_apply_full_schema.js:86 | after deleting a plan no booking, collaborator, invitation or state row refers to it; users, other plans and the other tour bookings are all kept |
| Schema.DeletePlanKeepsWellformed | api/src/migrations/004_apply_full_schema.js:215 | after the cascade no row refers to the deleted plan and every constraint still holds |
| Schema.DeleteUserKeepsWellformed | api/src/migrations/004_apply_full_schema.js:72-73 | deleting a user sets `owner_id` of their plans to NULL, and every constraint still holds |
| Ledger.CancelledHoldsNoSeats | api/src/routers/bookings.js:60-62 | a booking whose status is 'cancelled' holds no seats on any tour, and neither does 'Cancelled' or 'CANCELLED', since the status is lower-cased first; 'canceled' and 'cancelled ' still hold seats |
| Ledger.BookedSeatsAppend | api/src/routers/bookings.js:63-66 | a new booking adds its own travellers to its tour's booked total and nothing to other tours |
| Ledger.DeletePlanKeepsLedger | api/src/migrations/004_apply_full_schema.js:86 | a plan delete keeps the ledger invariant |
| Permissions.Authorize | api/src/routers/trips.js:37-55 | the verdict is NoTrip exactly when no plan has the id, and Granted exactly for the plan's owner or a collaborator, carrying the first plan with that id |
| Permissions.CheckPermissions | api/src/routers/trips.js:37-55 | the guard passes exactly for the owner or a collaborator of an existing trip and hands on that plan; it refuses with "Trip not found." for a missing trip and with the permission error for an outsider |
| Permissions.GuardOwnerOrCollaborator | api/src/routers/tripDestinations.js:9-27 | in a well-formed database the guard's verdict is about the one row with that id |
| Bookings.ResolveDbUserId | api/src/routers/bookings.js:27-39 | no principal gives null; otherwise the id of the first users row matching any of id/sub, username or email |
| Bookings.ResolveNoPrecedence | api/src/routers/bookings.js:32-37 | the claimed id does not win over an earlier username match, so another user's id can be returned |
| Bookings.CallerId | api/src/routers/bookings.js:220-221 | the listing and cancel routes fall back to the token's id when the users lookup fails |
| Bookings.ValidateBooking | api/src/routers/bookings.js:11-25 | a body passes exactly when the plan id is a uuid text and `num_travelers` is an integer of at least 1 |
| Bookings.BookTour | api/src/routers/bookings.js:41-134 | 400 exactly for a bad body, 401 exactly for an unresolved caller; a failure changes nothing; success adds or rewrites one row and keeps every row's id |
| Bookings.BookTourTx | api/src/routers/bookings.js:45-114 | inside the transaction: 401 exactly when the caller has no users row; only the tour bookings change; a failure (401, 404 or 409) changes nothing; a success returns a row of the table, adds at most one row and keeps every row's id |
| Bookings.BookTourMissingTour | api/src/routers/bookings.js:51-59 | for a valid body and a resolved caller, 404 exactly when no plan of type 'tour' has the id, and then "The requested tour does not exist." with nothing changed |
| Bookings.BookTourCapacity | api/src/routers/bookings.js:60-71 | for a resolved caller and an existing tour, the reply is 409 "not enough spots" exactly when the active seats plus the request exceed the capacity |
| Bookings.BookTourDuplicate | api/src/routers/bookings.js:73-83 | a caller whose booking is not cancelled gets 409 "already booked" and nothing changes |
| Bookings.BookTourRebook | api/src/routers/bookings.js:84-98 | a cancelled booking is reused in place with the new count, the price times the count, 'confirmed' and the current time |
| Bookings.BookTourInsert | api/src/routers/bookings.js:99-108 | a first booking appends one row for the resolved caller with the tour price times the count |
| Bookings.BookTourIdCollision | api/src/routers/bookings.js:121-126 | a unique violation is reported as 409 "already booked" and the transaction rolls back |
| Bookings.BookTourKeepsLedger | api/src/routers/bookings.js:41-134 | every outcome of a tour booking keeps the ledger invariant, so no tour is ever overbooked |
| Bookings.FlightsTotalAppend | api/src/routers/bookings.js:165-170 | a new flight adds its own price to its trip's sum, and NULL prices count as 0 |
| Bookings.AccommodationsTotalAppend | api/src/routers/bookings.js:161-169 | a new accommodation adds its own price to its trip's sum |
| Bookings.CustomTripPriceOwnRows | api/src/routers/bookings.js:161-172 | the price of a custom trip reads only that trip's accommodation and flight rows: the database cut down to them gives the same price |
| Bookings.BookCustomTrip | api/src/routers/bookings.js:136-217 | 400 exactly for a bad body; a failure changes nothing; success books the trip at the accommodation total plus the flight total times the travellers |
| Bookings.BookCustomTripTx | api/src/routers/bookings.js:145-208 | inside the transaction only the custom bookings change; a failure is 404 or 403 and changes nothing; a success is the caller's 'confirmed' booking of the trip for the requested travellers at the computed price and the current time, adding at most one row and keeping every row's id |
| Bookings.BookCustomTripAccess | api/src/routers/bookings.js:146-158 | 404 exactly when no plan has the id, and 403 exactly when the caller neither owns it nor collaborates on it |
| Bookings.BookCustomTripOverwrite | api/src/routers/bookings.js:175-190 | an existing booking, even a confirmed one, is overwritten in place |
| Bookings.BookCustomTripKeepsLedger | api/src/routers/bookings.js:136-217 | a custom-trip booking keeps the ledger invariant |
| Bookings.ParseKind | api/src/routers/bookings.js:271-277 | the path type is a tour booking exactly for "tour" and a custom booking exactly for "custom" |
| Bookings.CancelRowsSeats | api/src/routers/bookings.js:283-286 | cancelling frees exactly the seats of the cancelled rows: every tour keeps the seats of the rows with other ids, as if the cancelled rows were deleted |
| Bookings.CancelBooking | api/src/routers/bookings.js:266-292 | 400 exactly for an unknown type; 500 for a missing caller id or an id the `uuid` column refuses; only the status of the found row changes, and a success returns it 'cancelled' |
| Bookings.CancelIn | api/src/routers/bookings.js:278-287 | 404 "Booking not found." exactly when no row of the table has the id and the caller's id, with nothing changed; otherwise at most the rows with that id are cancelled and the reply is 200 with a 'cancelled' row |
| Bookings.CancelOne | api/src/routers/bookings.js:278-287 | a found row of the caller that is not cancelled is the only row changed: it is set to 'cancelled' and returned with 200 "Booking cancelled successfully." |
| Bookings.CancelFinds | api/src/routers/bookings.js:278-279 | 404 exactly when no row of that table has the id and the caller's id |
| Bookings.CancelIdempotent | api/src/routers/bookings.js:280-282 | a second cancel answers 200 "already cancelled" and changes nothing |
| Bookings.CancelKeepsLedger | api/src/routers/bookings.js:266-292 | a cancel keeps the ledger invariant |
| Bookings.MyBookings | api/src/routers/bookings.js:219-264 | the listing changes nothing and succeeds exactly when a caller id is found |
| Bookings.UnsortedComplete | api/src/routers/bookings.js:223-252 | every booking of the caller, of either kind, is in the merged list |
| Bookings.UnsortedSound | api/src/routers/bookings.js:223-252 | everything in the merged list is one of the caller's bookings |
| Bookings.MyBookingsListing | api/src/routers/bookings.js:253-255 | the listing is newest first, a permutation of the merged list, and bookings made at the same time keep their merged order, tour bookings before custom ones |
| StableSort.SortCorrect | api/src/routers/bookings.js:253-255 | the sort orders by key, keeps every element, and keeps equal keys in their input order |
| Trips.ValidateTrip | api/src/routers/trips.js:19-34 | a body passes exactly when it meets `createTripSchema`; each parsed stop keeps the city, country and order it was sent with |
| Trips.ListTrips | api/src/routers/trips.js:58-76 | the listing changes nothing |
| Trips.ListTripsOwned | api/src/routers/trips.js:61-63 | the listing starts with the summaries of exactly the caller's own 'user' trips, in table order |
| Trips.ListTripsShared | api/src/routers/trips.js:64-68 | the collaborator trips follow, without dedupe |
| Trips.ListTripsSound | api/src/routers/trips.js:58-76 | every listed trip is a 'user' trip the caller owns or collaborates on |
| Trips.ListTripsContents | api/src/routers/trips.js:58-76 | every 'user' trip the caller owns is in the first part of the listing, every 'user' trip shared with the caller is in the rest, and nothing else is listed |
| Trips.CreateTrip | api/src/routers/trips.js:116-138 | 400 exactly for a body the schema refuses; a new trip gets the fresh id, the caller as owner and type 'user', and is the only change |
| Trips.CreateTripSucceeds | api/src/routers/trips.js:120-129 | a body the schema accepts, from a known caller with a fresh id, creates the trip under the given name |
| Trips.BuildTrip | api/src/routers/trips.js:141-181 | missing or empty destinations give 400 before any write |
| Trips.BuildTripStops | api/src/routers/trips.js:152-176 | the trip and all its destinations are inserted together: one stored stop per requested stop, in request order, each pointing to the new trip with the city, country and order it was sent with |
| Trips.UpdateTrip | api/src/routers/trips.js:184-200 | a rename passes the guard and then touches only the named trip: every plan row with another id is left as it was |
| Trips.UpdateTripKeepsLedger | api/src/routers/trips.js:184-200 | a rename keeps the ledger invariant |
| Trips.UpdateTripFields | api/src/routers/trips.js:186-191 | only `name` and `description` change |
| Trips.DeleteTrip | api/src/routers/trips.js:203-223 | a path id text the `uuid` column refuses gets 500 "Failed to delete trip." and changes nothing; otherwise only the owner deletes, the delete cascades, and a missing trip and a non-owner both get 404 |
| Trips.GetTrip | api/src/routers/trips.js:79-113 | the detail changes nothing, is served exactly when the owner-or-collaborator guard passes, and otherwise answers with the guard's refusal |
| Trips.GetTripContents | api/src/routers/trips.js:86-98 | a permitted reader gets the trip's row, the collaborators that have a user account, and exactly the trip's accommodations and flights |
| Trips.GetTripStops | api/src/routers/trips.js:83-85 | the destinations are exactly the trip's stops, sorted by `stop_order`; stops of equal order come in table order, which is the model's choice of tie-break |
| Trips.CreateTripKeepsLedger | api/src/routers/trips.js:116-138 | creating a trip keeps the ledger invariant |
| Trips.BuildTripKeepsLedger | api/src/routers/trips.js:141-181 | building a trip keeps the ledger invariant |
| Trips.DeleteTripKeepsLedger | api/src/routers/trips.js:203-223 | deleting a trip keeps the ledger invariant |
| TripItems.AddDestination | api/src/routers/tripDestinations.js:30-56 | the guard decides first; then 400 exactly when a field is falsy, so 0 and "" are refused; success appends one row of the path trip with 201 |
| TripItems.RemoveDestination | api/src/routers/tripDestinations.js:59-76 | the guard decides first; then an id text the `uuid` column refuses gets 500 "Failed to remove destination." and changes nothing; success exactly when a row has both the id read and the path trip, removing just the rows that match both; otherwise 404 and nothing changes |
| TripItems.RemoveDestinationById | api/src/routers/tripDestinations.js:59-76 | the delete removes exactly the rows with both the id and the path trip, and answers 404 with nothing changed when there is none |
| TripItems.AddRemoveDestination | api/src/routers/tripDestinations.js:30-76 | removing a destination just added, through any text that reads as its id, restores the database |
| TripItems.AddFlight | api/src/routers/tripFlights.js:30-63 | 400 exactly when an endpoint id is falsy; success exactly when the guard passes, both endpoint ids are texts a `uuid` column accepts and the row id is fresh; it appends one row of the path trip with 201 |
| TripItems.RemoveFlight | api/src/routers/tripFlights.js:66-80 | the guard decides first; then an id text the `uuid` column refuses gets 500 "Failed to remove flight." and changes nothing; success exactly when a row has both the id read and the path trip, removing just the rows that match both; otherwise 404 and nothing changes |
| TripItems.RemoveFlightById | api/src/routers/tripFlights.js:66-80 | the delete removes exactly the rows with both the id and the path trip, and answers 404 with nothing changed when there is none |
| TripItems.AddRemoveFlight | api/src/routers/tripFlights.js:30-80 | removing a flight just added, through any text that reads as its id, restores the database |
| TripItems.AddFlightKeepsPrices | api/src/routers/tripFlights.js:46-54 | a flight added without a price leaves every custom-trip price as it was |
| TripItems.AddAccommodation | api/src/routers/tripAccommodations.js:30-56 | 400 exactly when `destination_id` or `name` is falsy; success exactly when the guard passes, `destination_id` is a text a `uuid` column accepts and the row id is fresh; it appends one row of the path trip with 201 |
| TripItems.RemoveAccommodation | api/src/routers/tripAccommodations.js:59-74 | the guard decides first; then an id text the `uuid` column refuses gets 500 "Failed to remove accommodation." and changes nothing; success exactly when a row has both the id read and the path trip, removing just the rows that match both; otherwise 404 and nothing changes |
| TripItems.RemoveAccommodationById | api/src/routers/tripAccommodations.js:59-74 | the delete removes exactly the rows with both the id and the path trip, and answers 404 with nothing changed when there is none |
| TripItems.AddRemoveAccommodation | api/src/routers/tripAccommodations.js:30-74 | removing an accommodation just added, through any text that reads as its id, restores the database |
| TripItems.AddAccommodationKeepsPrices | api/src/routers/tripAccommodations.js:39-47 | an accommodation added without a price leaves every custom-trip price as it was |
| TripItems.DestinationsKeepLedger | api/src/routers/tripDestinations.js:30-76 | both destination routes keep the ledger invariant |
| TripItems.FlightsKeepLedger | api/src/routers/tripFlights.js:30-80 | both flight routes keep the ledger invariant |
| TripItems.AccommodationsKeepLedger | api/src/routers/tripAccommodations.js:30-74 | both accommodation routes keep the ledger invariant |
| Invitations.InsertInvitation | api/src/migrations/004_apply_full_schema.js:224-231 | an invitation insert succeeds exactly when its id and token are new and its trip exists |
| Invitations.InsertCollaborator | api/src/migrations/004_apply_full_schema.js:212-220 | a collaborator insert succeeds exactly when its id and its (trip, user) pair are new and the trip exists |
| Invitations.TokenShape | api/src/routers/invitations.js:25 | the token has 40 lower-case hex digits and decodes to the random bytes |
| Invitations.CreateInvitation | api/src/routers/invitations.js:8-43 | a path id text the `uuid` column refuses gets 500 "Failed to create invitation link." and changes nothing; any other text is handled for the trip it reads as |
| Invitations.CreateInvitationById | api/src/routers/invitations.js:13-38 | 404 for a missing trip, 403 for anyone but the owner; success stores one invitation by the caller that expires seven days later |
| Invitations.CreateInvitationLink | api/src/routers/invitations.js:36-38 | the link is the frontend URL, then `/join-trip?token=`, then the stored token |
| Invitations.CreateInvitationKeepsLedger | api/src/routers/invitations.js:8-43 | creating an invitation keeps the ledger invariant |
| Invitations.AcceptInvitation | api/src/routers/invitations.js:45-115 | 400 exactly for a falsy token, 403 for a caller with no users row, 404 exactly when no unexpired invitation has the token; only a join changes the database |
| Invitations.AcceptJoins | api/src/routers/invitations.js:88-100 | a non-member joins as 'editor' and the invitation is deleted |
| Invitations.AcceptAlreadyMember | api/src/routers/invitations.js:83-86 | for a member the delete rolls back: nothing changes, the invitation survives, and the reply names the trip |
| Invitations.AcceptExpired | api/src/routers/invitations.js:64-71 | an invitation past its expiry gives 404 |
| Invitations.AcceptSingleUse | api/src/routers/invitations.js:94 | once redeemed, the token gives 404 to everyone |
| Invitations.AcceptGrantsAccess | api/src/routers/invitations.js:88-92 | after joining, the caller passes the owner-or-collaborator guard |
| Invitations.AcceptKeepsLedger | api/src/routers/invitations.js:45-115 | accepting keeps the ledger invariant |
| TripStates.GetState | api/src/routers/tripState.js:6-17 | no guard is applied; a path id text the `uuid` column refuses gets 500 "Failed to get trip state."; otherwise 404 exactly when the trip read has no state row, and that trip's row when it has one |
| TripStates.SetState | api/src/routers/tripState.js:19-48 | 400 for a falsy phase first, then 500 "Failed to update trip state." for a path id text the `uuid` column refuses, with nothing changed; any other text is handled for the trip it reads as |
| TripStates.SetStateById | api/src/routers/tripState.js:24-44 | 400 for a falsy phase first, 500 for a missing trip, 403 for a non-owner; success sets the phase and time on every row of the trip and nothing else |
| TripStates.SetThenGet | api/src/routers/tripState.js:36-44 | after the owner sets a phase, reading the state gives that phase and time |
| TripStates.SetStateNoInsert | api/src/routers/tripState.js:36-42 | a trip without a state row does not get one |
| TripStates.SetStateKeepsLedger | api/src/routers/tripState.js:19-48 | a phase write keeps the ledger invariant |
| PlanDedupe.MinId | api/src/migrations/005_remove_duplicate_travel_plans.js:16 | the kept id is one of the group's ids and the least of them |
| PlanDedupe.UpMembership | api/src/migrations/005_remove_duplicate_travel_plans.js:13-25 | a row stays exactly when it has its group's least id; a row alone in its group always stays |
| PlanDedupe.UpKeysUnique | api/src/migrations/005_remove_duplicate_travel_plans.js:13-25 | afterwards no two rows share the five grouping columns |
| PlanDedupe.UpKeepsEveryKey | api/src/migrations/005_remove_duplicate_travel_plans.js:13-25 | every group keeps its least-id row, so no group disappears |
| PlanDedupe.UpNoDuplicates | api/src/migrations/005_remove_duplicate_travel_plans.js:19-20 | a table without duplicate groups is left as it is |
| PlanDedupe.UpIdempotent | api/src/migrations/005_remove_duplicate_travel_plans.js:13-25 | running the delete step again deletes nothing |
| PlanDedupe.DownRestoresNothing | api/src/migrations/005_remove_duplicate_travel_plans.js:35-38 | `down` only drops the index; up then down gives the table back exactly when it had no duplicates |
| PlanDedupe.UpSatisfiesIndex | api/src/migrations/005_remove_duplicate_travel_plans.js:29-32 | after the delete step the unique index can be built |
| PlanDedupe.IndexAdmitsNullCopy | api/src/migrations/005_remove_duplicate_travel_plans.js:29-32 | the index still lets in a copy of a plan with a NULL grouping column, which the delete step would group together |
| PlanDedupe.DeletePlansRows | api/src/migrations/005_remove_duplicate_travel_plans.js:22-24 | deleting a list of plans leaves exactly the plans whose ids are not in the list |
| PlanDedupe.UpDbPlans | api/src/migrations/005_remove_duplicate_travel_plans.js:13-25 | on the whole database the migration leaves exactly the plans the delete step keeps |
| PlanDedupe.UpDbKeepsLedger | api/src/migrations/005_remove_duplicate_travel_plans.js:13-25 | the migration, with its cascades, keeps every constraint and the seat ledger |
| ListDedupe.FirstWith | tmp/dedupe_test.js:13 | `findIndex` gives the first position with that key, and none exactly when no element has it |
| ListDedupe.Dedupe | tmp/dedupe_test.js:13 | anything that is not an array is returned unchanged |
| ListDedupe.DedupeIsSeen | tmp/dedupe_test.js:13 | the filter equals a one-pass dedupe that remembers the keys already emitted |
| ListDedupe.DedupeSubsequence | tmp/dedupe_test.js:13 | the output is an order-preserving subsequence of the input |
| ListDedupe.DedupeKeys | tmp/dedupe_test.js:13 | no two outputs share `String(id)`, and every key of the input is still present |
| ListDedupe.DedupeFirstOccurrence | tmp/dedupe_test.js:13 | each output element is the first element of the input with its key |
| ListDedupe.DedupeKeepsUnique | tmp/dedupe_test.js:13 | a list whose keys are already distinct comes back unchanged |
| ListDedupe.DedupeIdempotent | tmp/dedupe_test.js:13 | deduping twice is deduping once |
| ListDedupe.NumberAndTextCollide | tmp/dedupe_test.js:13 | the number 1 and the text "1" are the same id, so only the first survives |
| ListDedupe.HoleAndUndefinedCollide | tmp/dedupe_test.js:13 | a null element, an element with an undefined id and one with the id "undefined" are all the same id |
| TripForm.Trim | app-next/components/Planner/CreateTripForm/CreateTripForm.jsx:24 | the trimmed text is an infix that neither starts nor ends with white space, and only white space is cut away |
| TripForm.TrimIdempotent | app-next/components/Planner/CreateTripForm/CreateTripForm.jsx:24 | trimming twice is trimming once |
| TripForm.Split | app-next/components/Planner/CreateTripForm/CreateTripForm.jsx:24 | `split(",")` gives one part more than there are commas, no part holds a comma, and joining the parts gives the text back |
| TripForm.PartsOfOneComma | app-next/components/Planner/CreateTripForm/CreateTripForm.jsx:24-30 | the destination has two parts exactly when it holds one comma, and they are the trimmed texts on either side |
| TripForm.CeilDiv | app-next/components/Planner/CreateTripForm/CreateTripForm.jsx:33 | `Math.ceil(a / b)` is the least integer whose multiple of `b` reaches `a` |
| TripForm.DayNumberOrder | app-next/components/Planner/CreateTripForm/CreateTripForm.jsx:31-33 | an earlier calendar date has a smaller day count |
| TripForm.DurationOfDates | app-next/components/Planner/CreateTripForm/CreateTripForm.jsx:31-35 | for two picked dates the duration is the day count between them, and it is at least 1 exactly when the end is after the start |
| TripForm.HandleCreate | app-next/components/Planner/CreateTripForm/CreateTripForm.jsx:17-55 | the error is dismissed first on every path and the parent is called once; each error message appears exactly under its condition; the draft has one destination with stop 1 and the trip's duration |
| TripForm.DatesDecide | app-next/components/Planner/CreateTripForm/CreateTripForm.jsx:31-38 | with valid dates the form refuses exactly when the end is not after the start |
| TripForm.UnparsedDatePasses | app-next/components/Planner/CreateTripForm/CreateTripForm.jsx:31-38 | a date that does not parse makes the duration NaN, which the `< 1` test lets through |
| TripForm.DraftAcceptedIff | app-next/components/Planner/CreateTripForm/CreateTripForm.jsx:40-54 | the server's schema accepts the draft exactly when the city and country are non-empty and the duration is a number |
| TripForm.TrailingCommaRefused | app-next/components/Planner/CreateTripForm/CreateTripForm.jsx:24-30 | "Paris," passes the form's format check with an empty country, and the server then refuses the draft |

## Code and design that disagree

- `resolveDbUserId` gives the claimed id no precedence. One OR query
  matches id/sub, username and email, and the first matching users row wins.
  The model follows the code (`Bookings.ResolveNoPrecedence`).
- When an invitation is redeemed by someone already a member, the code
  deletes the invitation and then throws inside the transaction. The delete
  is rolled back, so the invitation stays usable. The catch block reads it
  again without checking expiry to report the trip. The model follows the
  code (`Invitations.AcceptAlreadyMember`).
- Custom-trip bookings have no capacity check and accept any plan type.
  They also overwrite an existing booking, even a confirmed one.
- `SUM(price_minor)` is returned by the driver as a string, so
  `accommodationPrice + flightPrice * num_travelers` concatenates text. The
  model uses integer arithmetic instead.
- The tour-capacity rule, the rebook rule and the cancel route use three
  different tests for "cancelled":
  - capacity: the lower-cased status is not exactly 'cancelled', and NULL
    counts as active;
  - rebook: the lower-cased status contains "cancel";
  - cancel route: the status is exactly 'cancelled'.

  All three are modelled as written.
- The nested destination, flight and accommodation routes run the same
  owner-or-collaborator test twice: once when `trips.js` mounts them and
  once in each router. The test writes nothing and gives the same verdict
  both times, so it is modelled once.

## Left out

- Concurrency: the row lock, transaction isolation and races. Each handler
  is one atomic step.
- The clock and `crypto.randomBytes` are parameters (`now`, `random`). Fresh
  row ids are parameters too.
- Invitations.CreateInvitation: `setDate(getDate() + 7)` is modelled as
  exactly seven days of milliseconds. A daylight-saving change in the
  server's time zone is not modelled.
- `FRONTEND_URL` is a parameter of `Invitations.CreateInvitation`.
- The auth middleware is not part of this model. The caller is a
  parameter: the claimed `id || sub`, or the full principal for bookings.
  A claimed id that is not a uuid text would make the queries comparing it
  with `uuid` columns throw; the caller is taken to be an `Id`.
- Permissions.CheckPermissions, Trips.GetTrip, Trips.UpdateTrip,
  TripItems.AddDestination, TripItems.AddFlight, TripItems.AddAccommodation,
  TripItems.RemoveDestination, TripItems.RemoveFlight,
  TripItems.RemoveAccommodation: the path trip id of a guarded route is an
  `Id`. The guard's query has no `try`, so a text the `uuid` column refuses
  rejects the middleware's promise and the routers send no answer of their
  own; what reaches the client then depends on the Express version, which
  is not part of this model. The model has no such outcome.
- The zod internals and `validateRequest` are replaced by the predicates
  they stand for (`Bookings.ValidateBooking`, `Trips.ValidateTrip`).
- Request bodies check uuid texts with zod's 8-4-4-4-12 hex shape; values
  stored in or looked up by a `uuid` column are read with PostgreSQL's input
  forms (`Uuid.DbParse`). The version and variant digits zod also checks are
  not modelled.
- `ORDER BY name` and `ORDER BY airline` in the trip detail depend on the
  database collation. Those lists keep table order; only `stop_order`
  sorting is modelled.
- Trips.GetTripStops: SQL leaves the order of stops with equal `stop_order`
  unspecified. The model keeps them in table order, which is one order the
  database may return; the source does not promise it.
- Trips.CreateTrip, Trips.CreateTripSucceeds, PlanDedupe.KeyOf,
  PlanDedupe.Up: `start_date` is stored as the text it was sent as. The
  `date` column refuses a text that is not a date, which makes the source
  answer 500; the model accepts every text there, so these contracts do not
  promise the 500 for a bad date. The column also stores two spellings of
  one date as the same value, so the migration groups them together; the
  model groups by the text and keeps them apart.
- Bookings.BookCustomTrip: the driver returns `SUM` as a string and the
  code concatenates. The model adds integers.
- Bookings.BookTour: `price_minor * num_travelers` is computed in JavaScript
  doubles from the driver's text, which rounds once the product passes 2^53.
  The model multiplies exactly, so its price matches only below that bound.
- The item routers' body fields arrive as typed options (text, integer,
  decimal). Other JSON types in those fields are not modelled.
- The definitions of `travel_plan_destinations`, `travel_plan_flights`,
  `travel_plan_accommodations` and `trip_states` are not in the full-schema
  migration. The model assumes a unique id, a cascade on plan delete, and no
  other constraint.
- Routers outside the core are not modelled: tours, admin, AI planner,
  shortlist, itinerary and chat.
- ListDedupe.Key: numeric ids are integers written in decimal.
  `String(n)` for fractions and for magnitudes of 1e21 and above uses other
  forms, and those are not modelled.
- TripForm.TimeValue: only the `YYYY-MM-DD` text a date input produces is
  parsed. Other texts `new Date` might accept are treated as NaN.
- The React state, rendering and the `isLoading` flag of the form are not
  modelled; only `handleCreate` is.
