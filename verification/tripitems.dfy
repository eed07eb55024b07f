/** The three routers nested under a trip that add and remove its
    destinations, flights and accommodations. Each one repeats the
    owner-or-collaborator check of the trips router before every route, ties
    every new row to the trip in the path, and deletes only a row that matches
    both the item id and that trip. */
module TripItems {
  import opened Common
  import opened Schema
  import opened Ledger
  import Uuid
  import Permissions
  import Bookings

  // ------------------------------------------------------------ shared

  /** The rows a `where(hit).del()` leaves behind. */
  function DeleteMatching<T>(t: seq<T>, hit: T -> bool): seq<T> {
    Filter(t, (x: T) => !hit(x))
  }

  /** A filter returns the whole table exactly when every row passes. */
  lemma FilterKeepsAll<T>(t: seq<T>, p: T -> bool)
    ensures |Filter(t, p)| == |t| <==> (forall i :: 0 <= i < |t| ==> p(t[i]))
    ensures (forall i :: 0 <= i < |t| ==> p(t[i])) ==> Filter(t, p) == t
  {
    if forall i :: 0 <= i < |t| ==> p(t[i]) {
      FilterAllKept(t, p);
    } else {
      var k :| 0 <= k < |t| && !p(t[k]);
      FilterDropsOne(t, p, k);
    }
  }

  /** The delete count is zero exactly when no row matches; a row survives
      exactly when it does not match. */
  lemma DeleteMatchingSpec<T>(t: seq<T>, hit: T -> bool)
    ensures |DeleteMatching(t, hit)| == |t| <==> (forall i :: 0 <= i < |t| ==> !hit(t[i]))
    ensures forall x :: x in DeleteMatching(t, hit) <==> x in t && !hit(x)
  {
    FilterKeepsAll(t, (x: T) => !hit(x));
    forall x ensures x in DeleteMatching(t, hit) <==> x in t && !hit(x) {
      FilterMember(t, (y: T) => !hit(y), x);
    }
  }

  /** A delete keeps a unique key unique. */
  lemma DeleteMatchingUnique<T, K>(t: seq<T>, hit: T -> bool, key: T -> K)
    requires UniqueBy(t, key)
    ensures UniqueBy(DeleteMatching(t, hit), key)
  {
    UniqueFilter(t, (x: T) => !hit(x), key);
  }

  /** Deleting the one row just appended, when no older row matches, gives
      back the table as it was. */
  lemma DeleteAppended<T>(t: seq<T>, x: T, hit: T -> bool)
    requires hit(x)
    requires forall i :: 0 <= i < |t| ==> !hit(t[i])
    ensures DeleteMatching(t + [x], hit) == t
  {
    var keep := (y: T) => !hit(y);
    FilterAppend(t, [x], keep);
    FilterKeepsAll(t, keep);
    assert Filter([x], keep) == [];
  }

  /** The reply of a route whose guard refused the caller. */
  ghost predicate Refused<T>(db: Db, tripId: Id, caller: Id, r: Step<T>) {
    && (tripId !in PlanIds(db) ==> r == Step(db, Failure(NOT_FOUND, Permissions.TRIP_NOT_FOUND)))
    && (Permissions.Authorize(db, tripId, caller).Denied? ==> r == Step(db, Failure(FORBIDDEN, Permissions.NO_PERMISSION)))
  }

  const MISSING_FIELDS: string := "Missing required fields."

  // ------------------------------------------------------------ destinations

  /** The body of POST `/trips/:tripId/destinations`. */
  datatype DestinationFields = DestinationFields(
    cityName: Option<string>, countryName: Option<string>, durationDays: Option<int>, stopOrder: Option<int>)

  /** All four fields truthy: an empty name or a zero number is missing. */
  predicate DestinationComplete(b: DestinationFields) {
    TruthyStr(b.cityName) && TruthyStr(b.countryName) && TruthyInt(b.durationDays) && TruthyInt(b.stopOrder)
  }

  const DESTINATION_ADDED: string := "Destination added successfully."
  const ADD_DESTINATION_FAILED: string := "Failed to add destination."
  const DESTINATION_NOT_FOUND: string := "Destination not found."
  const DESTINATION_REMOVED: string := "Destination removed successfully."
  const REMOVE_DESTINATION_FAILED: string := "Failed to remove destination."

  /** POST `/trips/:tripId/destinations`. The new row belongs to the trip in
      the path, whatever the body says. */
  function AddDestination(db: Db, caller: Id, tripId: Id, body: DestinationFields, freshId: Id): (r: Step<Destination>)
    ensures Refused(db, tripId, caller, r)
    ensures Permissions.Authorize(db, tripId, caller).Granted? && !DestinationComplete(body) ==>
      r == Step(db, Failure(BAD_REQUEST, MISSING_FIELDS))
    ensures r.reply.Success? <==> (Permissions.Authorize(db, tripId, caller).Granted? && DestinationComplete(body)
      && freshId !in KeySet(db.destinations, DestinationId))
    ensures r.reply.Success? ==> (r.reply.status == CREATED
      && r.reply.data == Destination(freshId, tripId, body.cityName.value, body.countryName.value,
                                     body.durationDays.value, body.stopOrder.value)
      && r.db == db.(destinations := db.destinations + [r.reply.data]))
    ensures r.reply.Failure? ==> r.db == db
  {
    if !Permissions.Authorize(db, tripId, caller).Granted? then Step(db, Permissions.Refusal(db, tripId))
    else if !DestinationComplete(body) then Step(db, Failure(BAD_REQUEST, MISSING_FIELDS))
    else if freshId in KeySet(db.destinations, DestinationId) then Step(db, Failure(SERVER_ERROR, ADD_DESTINATION_FAILED))
    else
      var d := Destination(freshId, tripId, body.cityName.value, body.countryName.value,
                           body.durationDays.value, body.stopOrder.value);
      Step(db.(destinations := db.destinations + [d]), Success(CREATED, DESTINATION_ADDED, d))
  }

  /** The row `where({ id, travel_plan_id })` matches. */
  predicate DestinationHit(d: Destination, id: Id, tripId: Id) {
    d.id == id && d.planId == tripId
  }

  function DestinationsLeft(t: seq<Destination>, id: Id, tripId: Id): seq<Destination> {
    DeleteMatching(t, (d: Destination) => DestinationHit(d, id, tripId))
  }

  /** The delete of the route once the guard has passed and the path id has
      been read: only a row with both the id and the path trip is removed. */
  function RemoveDestinationById(db: Db, tripId: Id, destinationId: Id): (r: Step<()>)
    ensures r.reply.Success? <==> exists i :: 0 <= i < |db.destinations| && DestinationHit(db.destinations[i], destinationId, tripId)
    ensures r.reply.Success? ==> (r.reply.status == OK
      && r.db == db.(destinations := DestinationsLeft(db.destinations, destinationId, tripId))
      && (forall d :: d in r.db.destinations <==> d in db.destinations && !DestinationHit(d, destinationId, tripId)))
    ensures r.reply.Failure? ==> r == Step(db, Failure(NOT_FOUND, DESTINATION_NOT_FOUND))
  {
    var left := DestinationsLeft(db.destinations, destinationId, tripId);
    DeleteMatchingSpec(db.destinations, (d: Destination) => DestinationHit(d, destinationId, tripId));
    if |left| == |db.destinations| then Step(db, Failure(NOT_FOUND, DESTINATION_NOT_FOUND))
    else Step(db.(destinations := left), Success(OK, DESTINATION_REMOVED, ()))
  }

  /** DELETE `/trips/:tripId/destinations/:destinationId`: a destination of
      another trip is not found through this one. The path id is text; one a
      `uuid` column refuses makes the delete throw, which answers 500. */
  function RemoveDestination(db: Db, caller: Id, tripId: Id, idText: string): (r: Step<()>)
    ensures Refused(db, tripId, caller, r)
    ensures r.reply.Success? <==> (Permissions.Authorize(db, tripId, caller).Granted? && Uuid.DbParse(idText).Some? &&
      exists i :: 0 <= i < |db.destinations| && DestinationHit(db.destinations[i], Uuid.DbParse(idText).value, tripId))
    ensures r.reply.Success? ==> (r.reply.status == OK
      && r.db == db.(destinations := DestinationsLeft(db.destinations, Uuid.DbParse(idText).value, tripId))
      && (forall d :: d in r.db.destinations <==> d in db.destinations && !DestinationHit(d, Uuid.DbParse(idText).value, tripId)))
    ensures Permissions.Authorize(db, tripId, caller).Granted? && r.reply.Failure? ==>
      r == Step(db, if Uuid.DbParse(idText).None? then Failure(SERVER_ERROR, REMOVE_DESTINATION_FAILED)
                    else Failure(NOT_FOUND, DESTINATION_NOT_FOUND))
  {
    if !Permissions.Authorize(db, tripId, caller).Granted? then Step(db, Permissions.Refusal(db, tripId))
    else match Uuid.DbParse(idText)
    case None => Step(db, Failure(SERVER_ERROR, REMOVE_DESTINATION_FAILED))
    case Some(destinationId) => RemoveDestinationById(db, tripId, destinationId)
  }

  /** Deleting by the id of a row just appended for the path trip gives the
      table back as it was. */
  lemma RemoveDestinationAppended(db: Db, tripId: Id, x: Destination)
    requires x.planId == tripId && x.id !in KeySet(db.destinations, DestinationId)
    ensures RemoveDestinationById(db.(destinations := db.destinations + [x]), tripId, x.id) == Step(db, Success(OK, DESTINATION_REMOVED, ()))
  {
    var hit := (d: Destination) => DestinationHit(d, x.id, tripId);
    forall i | 0 <= i < |db.destinations| ensures !hit(db.destinations[i]) {
      KeySetMember(db.destinations, i, DestinationId);
    }
    DeleteAppended(db.destinations, x, hit);
    assert (db.destinations + [x])[|db.destinations|] == x;
  }

  /** Removing a destination just added through the same trip, by any text
      naming its id, undoes the add. */
  lemma AddRemoveDestination(db: Db, caller: Id, tripId: Id, body: DestinationFields, freshId: Id, idText: string)
    requires Wellformed(db)
    requires AddDestination(db, caller, tripId, body, freshId).reply.Success?
    requires Uuid.DbParse(idText) == Some(freshId)
    ensures RemoveDestination(AddDestination(db, caller, tripId, body, freshId).db, caller, tripId, idText)
         == Step(db, Success(OK, DESTINATION_REMOVED, ()))
  {
    var a := AddDestination(db, caller, tripId, body, freshId);
    AuthorizeFrame(db, a.db, tripId, caller);
    RemoveDestinationAppended(db, tripId, a.reply.data);
    assert RemoveDestination(a.db, caller, tripId, idText) == RemoveDestinationById(a.db, tripId, freshId);
  }

  /** The guard reads only the plans and the collaborators. */
  lemma AuthorizeFrame(db: Db, r: Db, tripId: Id, caller: Id)
    requires r.plans == db.plans && r.collaborators == db.collaborators
    ensures Permissions.Authorize(r, tripId, caller) == Permissions.Authorize(db, tripId, caller)
  {
    assert Permissions.FindPlan(r, tripId) == Permissions.FindPlan(db, tripId);
    assert Permissions.IsCollaborator(r, tripId, caller) == Permissions.IsCollaborator(db, tripId, caller);
  }

  // ------------------------------------------------------------ flights

  /** The body of POST `/trips/:tripId/flights`; the destination ids are
      uuid texts. */
  datatype FlightFields = FlightFields(
    departsFrom: Option<string>, arrivesAt: Option<string>, airline: Option<string>, flightNumber: Option<string>)

  predicate FlightComplete(b: FlightFields) {
    TruthyStr(b.departsFrom) && TruthyStr(b.arrivesAt)
  }

  const MISSING_ENDPOINTS: string := "Missing departure or arrival destination."
  const FLIGHT_ADDED: string := "Flight added successfully."
  const ADD_FLIGHT_FAILED: string := "Failed to add flight."
  const FLIGHT_NOT_FOUND: string := "Flight not found."
  const FLIGHT_REMOVED: string := "Flight removed successfully."
  const REMOVE_FLIGHT_FAILED: string := "Failed to remove flight."

  /** POST `/trips/:tripId/flights`. No price is written, and the two
      destination ids are not checked to belong to the trip; a text that is
      not a uuid is refused by the database. */
  function AddFlight(db: Db, caller: Id, tripId: Id, body: FlightFields, freshId: Id): (r: Step<Flight>)
    ensures Refused(db, tripId, caller, r)
    ensures Permissions.Authorize(db, tripId, caller).Granted? && !FlightComplete(body) ==>
      r == Step(db, Failure(BAD_REQUEST, MISSING_ENDPOINTS))
    ensures r.reply.Success? <==> (Permissions.Authorize(db, tripId, caller).Granted? && FlightComplete(body)
      && Uuid.DbParse(body.departsFrom.value).Some? && Uuid.DbParse(body.arrivesAt.value).Some?
      && freshId !in KeySet(db.flights, FlightId))
    ensures r.reply.Success? ==> (r.reply.status == CREATED
      && r.reply.data.id == freshId && r.reply.data.planId == tripId
      && Uuid.DbParse(body.departsFrom.value) == Some(r.reply.data.departsFrom)
      && Uuid.DbParse(body.arrivesAt.value) == Some(r.reply.data.arrivesAt)
      && r.reply.data.airline == body.airline && r.reply.data.flightNumber == body.flightNumber
      && r.reply.data.priceMinor.None?
      && r.db == db.(flights := db.flights + [r.reply.data]))
    ensures r.reply.Failure? ==> r.db == db
  {
    if !Permissions.Authorize(db, tripId, caller).Granted? then Step(db, Permissions.Refusal(db, tripId))
    else if !FlightComplete(body) then Step(db, Failure(BAD_REQUEST, MISSING_ENDPOINTS))
    else
      match (Uuid.DbParse(body.departsFrom.value), Uuid.DbParse(body.arrivesAt.value))
      case (Some(from), Some(to)) =>
        if freshId in KeySet(db.flights, FlightId) then Step(db, Failure(SERVER_ERROR, ADD_FLIGHT_FAILED))
        else
          var f := Flight(freshId, tripId, from, to, body.airline, body.flightNumber, None);
          Step(db.(flights := db.flights + [f]), Success(CREATED, FLIGHT_ADDED, f))
      case _ => Step(db, Failure(SERVER_ERROR, ADD_FLIGHT_FAILED))
  }

  predicate FlightHit(f: Flight, id: Id, tripId: Id) {
    f.id == id && f.planId == tripId
  }

  function FlightsLeft(t: seq<Flight>, id: Id, tripId: Id): seq<Flight> {
    DeleteMatching(t, (f: Flight) => FlightHit(f, id, tripId))
  }

  /** The delete of the route once the guard has passed and the path id has
      been read: only a row with both the id and the path trip is removed. */
  function RemoveFlightById(db: Db, tripId: Id, flightId: Id): (r: Step<()>)
    ensures r.reply.Success? <==> exists i :: 0 <= i < |db.flights| && FlightHit(db.flights[i], flightId, tripId)
    ensures r.reply.Success? ==> (r.reply.status == OK
      && r.db == db.(flights := FlightsLeft(db.flights, flightId, tripId))
      && (forall f :: f in r.db.flights <==> f in db.flights && !FlightHit(f, flightId, tripId)))
    ensures r.reply.Failure? ==> r == Step(db, Failure(NOT_FOUND, FLIGHT_NOT_FOUND))
  {
    var left := FlightsLeft(db.flights, flightId, tripId);
    DeleteMatchingSpec(db.flights, (f: Flight) => FlightHit(f, flightId, tripId));
    if |left| == |db.flights| then Step(db, Failure(NOT_FOUND, FLIGHT_NOT_FOUND))
    else Step(db.(flights := left), Success(OK, FLIGHT_REMOVED, ()))
  }

  /** DELETE `/trips/:tripId/flights/:flightId`. The path id is text; one a
      `uuid` column refuses makes the delete throw, which answers 500. */
  function RemoveFlight(db: Db, caller: Id, tripId: Id, idText: string): (r: Step<()>)
    ensures Refused(db, tripId, caller, r)
    ensures r.reply.Success? <==> (Permissions.Authorize(db, tripId, caller).Granted? && Uuid.DbParse(idText).Some? &&
      exists i :: 0 <= i < |db.flights| && FlightHit(db.flights[i], Uuid.DbParse(idText).value, tripId))
    ensures r.reply.Success? ==> (r.reply.status == OK
      && r.db == db.(flights := FlightsLeft(db.flights, Uuid.DbParse(idText).value, tripId))
      && (forall f :: f in r.db.flights <==> f in db.flights && !FlightHit(f, Uuid.DbParse(idText).value, tripId)))
    ensures Permissions.Authorize(db, tripId, caller).Granted? && r.reply.Failure? ==>
      r == Step(db, if Uuid.DbParse(idText).None? then Failure(SERVER_ERROR, REMOVE_FLIGHT_FAILED)
                    else Failure(NOT_FOUND, FLIGHT_NOT_FOUND))
  {
    if !Permissions.Authorize(db, tripId, caller).Granted? then Step(db, Permissions.Refusal(db, tripId))
    else match Uuid.DbParse(idText)
    case None => Step(db, Failure(SERVER_ERROR, REMOVE_FLIGHT_FAILED))
    case Some(flightId) => RemoveFlightById(db, tripId, flightId)
  }

  /** Deleting by the id of a row just appended for the path trip gives the
      table back as it was. */
  lemma RemoveFlightAppended(db: Db, tripId: Id, x: Flight)
    requires x.planId == tripId && x.id !in KeySet(db.flights, FlightId)
    ensures RemoveFlightById(db.(flights := db.flights + [x]), tripId, x.id) == Step(db, Success(OK, FLIGHT_REMOVED, ()))
  {
    var hit := (f: Flight) => FlightHit(f, x.id, tripId);
    forall i | 0 <= i < |db.flights| ensures !hit(db.flights[i]) {
      KeySetMember(db.flights, i, FlightId);
    }
    DeleteAppended(db.flights, x, hit);
    assert (db.flights + [x])[|db.flights|] == x;
  }

  /** Removing a flight just added through the same trip, by any text
      naming its id, undoes the add. */
  lemma AddRemoveFlight(db: Db, caller: Id, tripId: Id, body: FlightFields, freshId: Id, idText: string)
    requires Wellformed(db)
    requires AddFlight(db, caller, tripId, body, freshId).reply.Success?
    requires Uuid.DbParse(idText) == Some(freshId)
    ensures RemoveFlight(AddFlight(db, caller, tripId, body, freshId).db, caller, tripId, idText)
         == Step(db, Success(OK, FLIGHT_REMOVED, ()))
  {
    var a := AddFlight(db, caller, tripId, body, freshId);
    AuthorizeFrame(db, a.db, tripId, caller);
    RemoveFlightAppended(db, tripId, a.reply.data);
    assert RemoveFlight(a.db, caller, tripId, idText) == RemoveFlightById(a.db, tripId, freshId);
  }

  /** A new flight carries no price, so the price of every custom trip is
      what it was. */
  lemma AddFlightKeepsPrices(db: Db, caller: Id, tripId: Id, body: FlightFields, freshId: Id, trip: Id, n: int)
    ensures Bookings.CustomTripPrice(AddFlight(db, caller, tripId, body, freshId).db, trip, n)
         == Bookings.CustomTripPrice(db, trip, n)
  {
    var r := AddFlight(db, caller, tripId, body, freshId);
    if r.reply.Success? {
      Bookings.FlightsTotalAppend(db.flights, r.reply.data, trip);
    }
  }

  // ------------------------------------------------------------ accommodations

  /** The body of POST `/trips/:tripId/accommodations`; the destination id is
      a uuid text. */
  datatype AccommodationFields = AccommodationFields(
    destinationId: Option<string>, name: Option<string>, kind: Option<string>, rating: Option<real>)

  predicate AccommodationComplete(b: AccommodationFields) {
    TruthyStr(b.destinationId) && TruthyStr(b.name)
  }

  const ACCOMMODATION_ADDED: string := "Accommodation added successfully."
  const ADD_ACCOMMODATION_FAILED: string := "Failed to add accommodation."
  const ACCOMMODATION_NOT_FOUND: string := "Accommodation not found."
  const ACCOMMODATION_REMOVED: string := "Accommodation removed successfully."
  const REMOVE_ACCOMMODATION_FAILED: string := "Failed to remove accommodation."

  /** POST `/trips/:tripId/accommodations`: name, type and rating are
      written, and no price. */
  function AddAccommodation(db: Db, caller: Id, tripId: Id, body: AccommodationFields, freshId: Id): (r: Step<Accommodation>)
    ensures Refused(db, tripId, caller, r)
    ensures Permissions.Authorize(db, tripId, caller).Granted? && !AccommodationComplete(body) ==>
      r == Step(db, Failure(BAD_REQUEST, MISSING_FIELDS))
    ensures r.reply.Success? <==> (Permissions.Authorize(db, tripId, caller).Granted? && AccommodationComplete(body)
      && Uuid.DbParse(body.destinationId.value).Some? && freshId !in KeySet(db.accommodations, AccommodationId))
    ensures r.reply.Success? ==> (r.reply.status == CREATED
      && r.reply.data.id == freshId && r.reply.data.planId == tripId
      && Uuid.DbParse(body.destinationId.value) == Some(r.reply.data.destinationId)
      && r.reply.data.name == body.name.value
      && r.reply.data.kind == body.kind && r.reply.data.rating == body.rating
      && r.reply.data.priceMinor.None?
      && r.db == db.(accommodations := db.accommodations + [r.reply.data]))
    ensures r.reply.Failure? ==> r.db == db
  {
    if !Permissions.Authorize(db, tripId, caller).Granted? then Step(db, Permissions.Refusal(db, tripId))
    else if !AccommodationComplete(body) then Step(db, Failure(BAD_REQUEST, MISSING_FIELDS))
    else
      match Uuid.DbParse(body.destinationId.value)
      case None => Step(db, Failure(SERVER_ERROR, ADD_ACCOMMODATION_FAILED))
      case Some(dest) =>
        if freshId in KeySet(db.accommodations, AccommodationId) then Step(db, Failure(SERVER_ERROR, ADD_ACCOMMODATION_FAILED))
        else
          var a := Accommodation(freshId, tripId, dest, body.name.value, body.kind, body.rating, None);
          Step(db.(accommodations := db.accommodations + [a]), Success(CREATED, ACCOMMODATION_ADDED, a))
  }

  predicate AccommodationHit(a: Accommodation, id: Id, tripId: Id) {
    a.id == id && a.planId == tripId
  }

  function AccommodationsLeft(t: seq<Accommodation>, id: Id, tripId: Id): seq<Accommodation> {
    DeleteMatching(t, (a: Accommodation) => AccommodationHit(a, id, tripId))
  }

  /** The delete of the route once the guard has passed and the path id has
      been read: only a row with both the id and the path trip is removed. */
  function RemoveAccommodationById(db: Db, tripId: Id, accommodationId: Id): (r: Step<()>)
    ensures r.reply.Success? <==> exists i :: 0 <= i < |db.accommodations| && AccommodationHit(db.accommodations[i], accommodationId, tripId)
    ensures r.reply.Success? ==> (r.reply.status == OK
      && r.db == db.(accommodations := AccommodationsLeft(db.accommodations, accommodationId, tripId))
      && (forall a :: a in r.db.accommodations <==> a in db.accommodations && !AccommodationHit(a, accommodationId, tripId)))
    ensures r.reply.Failure? ==> r == Step(db, Failure(NOT_FOUND, ACCOMMODATION_NOT_FOUND))
  {
    var left := AccommodationsLeft(db.accommodations, accommodationId, tripId);
    DeleteMatchingSpec(db.accommodations, (a: Accommodation) => AccommodationHit(a, accommodationId, tripId));
    if |left| == |db.accommodations| then Step(db, Failure(NOT_FOUND, ACCOMMODATION_NOT_FOUND))
    else Step(db.(accommodations := left), Success(OK, ACCOMMODATION_REMOVED, ()))
  }

  /** DELETE `/trips/:tripId/accommodations/:accommodationId`. The path id is
      text; one a `uuid` column refuses makes the delete throw, which answers
      500. */
  function RemoveAccommodation(db: Db, caller: Id, tripId: Id, idText: string): (r: Step<()>)
    ensures Refused(db, tripId, caller, r)
    ensures r.reply.Success? <==> (Permissions.Authorize(db, tripId, caller).Granted? && Uuid.DbParse(idText).Some? &&
      exists i :: 0 <= i < |db.accommodations| && AccommodationHit(db.accommodations[i], Uuid.DbParse(idText).value, tripId))
    ensures r.reply.Success? ==> (r.reply.status == OK
      && r.db == db.(accommodations := AccommodationsLeft(db.accommodations, Uuid.DbParse(idText).value, tripId))
      && (forall a :: a in r.db.accommodations <==> a in db.accommodations && !AccommodationHit(a, Uuid.DbParse(idText).value, tripId)))
    ensures Permissions.Authorize(db, tripId, caller).Granted? && r.reply.Failure? ==>
      r == Step(db, if Uuid.DbParse(idText).None? then Failure(SERVER_ERROR, REMOVE_ACCOMMODATION_FAILED)
                    else Failure(NOT_FOUND, ACCOMMODATION_NOT_FOUND))
  {
    if !Permissions.Authorize(db, tripId, caller).Granted? then Step(db, Permissions.Refusal(db, tripId))
    else match Uuid.DbParse(idText)
    case None => Step(db, Failure(SERVER_ERROR, REMOVE_ACCOMMODATION_FAILED))
    case Some(accommodationId) => RemoveAccommodationById(db, tripId, accommodationId)
  }

  /** Deleting by the id of a row just appended for the path trip gives the
      table back as it was. */
  lemma RemoveAccommodationAppended(db: Db, tripId: Id, x: Accommodation)
    requires x.planId == tripId && x.id !in KeySet(db.accommodations, AccommodationId)
    ensures RemoveAccommodationById(db.(accommodations := db.accommodations + [x]), tripId, x.id) == Step(db, Success(OK, ACCOMMODATION_REMOVED, ()))
  {
    var hit := (y: Accommodation) => AccommodationHit(y, x.id, tripId);
    forall i | 0 <= i < |db.accommodations| ensures !hit(db.accommodations[i]) {
      KeySetMember(db.accommodations, i, AccommodationId);
    }
    DeleteAppended(db.accommodations, x, hit);
    assert (db.accommodations + [x])[|db.accommodations|] == x;
  }

  /** Removing an accommodation just added through the same trip, by any text
      naming its id, undoes the add. */
  lemma AddRemoveAccommodation(db: Db, caller: Id, tripId: Id, body: AccommodationFields, freshId: Id, idText: string)
    requires Wellformed(db)
    requires AddAccommodation(db, caller, tripId, body, freshId).reply.Success?
    requires Uuid.DbParse(idText) == Some(freshId)
    ensures RemoveAccommodation(AddAccommodation(db, caller, tripId, body, freshId).db, caller, tripId, idText)
         == Step(db, Success(OK, ACCOMMODATION_REMOVED, ()))
  {
    var a := AddAccommodation(db, caller, tripId, body, freshId);
    AuthorizeFrame(db, a.db, tripId, caller);
    RemoveAccommodationAppended(db, tripId, a.reply.data);
    assert RemoveAccommodation(a.db, caller, tripId, idText) == RemoveAccommodationById(a.db, tripId, freshId);
  }

  /** A new accommodation carries no price, so the price of every custom trip
      is what it was. */
  lemma AddAccommodationKeepsPrices(db: Db, caller: Id, tripId: Id, body: AccommodationFields, freshId: Id, trip: Id, n: int)
    ensures Bookings.CustomTripPrice(AddAccommodation(db, caller, tripId, body, freshId).db, trip, n)
         == Bookings.CustomTripPrice(db, trip, n)
  {
    var r := AddAccommodation(db, caller, tripId, body, freshId);
    if r.reply.Success? {
      Bookings.AccommodationsTotalAppend(db.accommodations, r.reply.data, trip);
    }
  }

  // ------------------------------------------------------------ invariant

  /** The insert alone keeps the ledger invariant. */
  lemma AddDestinationKeepsLedger(db: Db, caller: Id, tripId: Id, body: DestinationFields, freshId: Id)
    requires LedgerOk(db)
    ensures LedgerOk(AddDestination(db, caller, tripId, body, freshId).db)
  {
    var a := AddDestination(db, caller, tripId, body, freshId);
    if a.reply.Success? {
      UniqueAppend(db.destinations, a.reply.data, DestinationId);
      LedgerFrame(db, a.db);
    }
  }

  /** The delete route keeps the ledger invariant whatever the path id text. */
  lemma RemoveDestinationKeepsLedger(db: Db, caller: Id, tripId: Id, itemText: string)
    requires LedgerOk(db)
    ensures LedgerOk(RemoveDestination(db, caller, tripId, itemText).db)
  {
    var r := RemoveDestination(db, caller, tripId, itemText);
    if Permissions.Authorize(db, tripId, caller).Granted? && Uuid.DbParse(itemText).Some? {
      var id := Uuid.DbParse(itemText).value;
      assert r == RemoveDestinationById(db, tripId, id);
      RemoveDestinationByIdKeepsLedger(db, tripId, id);
    } else {
      assert r.db == db;
    }
  }

  /** The delete alone keeps the ledger invariant. */
  lemma RemoveDestinationByIdKeepsLedger(db: Db, tripId: Id, id: Id)
    requires LedgerOk(db)
    ensures LedgerOk(RemoveDestinationById(db, tripId, id).db)
  {
    var r := RemoveDestinationById(db, tripId, id);
    if r.reply.Success? {
      DeleteMatchingUnique(db.destinations, (d: Destination) => DestinationHit(d, id, tripId), DestinationId);
      LedgerFrame(db, r.db);
    }
  }

  /** Adding or removing a destination keeps the ledger invariant. */
  lemma DestinationsKeepLedger(db: Db, caller: Id, tripId: Id, body: DestinationFields, freshId: Id, itemText: string)
    requires LedgerOk(db)
    ensures LedgerOk(AddDestination(db, caller, tripId, body, freshId).db)
    ensures LedgerOk(RemoveDestination(db, caller, tripId, itemText).db)
  {
    AddDestinationKeepsLedger(db, caller, tripId, body, freshId);
    RemoveDestinationKeepsLedger(db, caller, tripId, itemText);
  }

  /** The insert alone keeps the ledger invariant. */
  lemma AddFlightKeepsLedger(db: Db, caller: Id, tripId: Id, body: FlightFields, freshId: Id)
    requires LedgerOk(db)
    ensures LedgerOk(AddFlight(db, caller, tripId, body, freshId).db)
  {
    var a := AddFlight(db, caller, tripId, body, freshId);
    if a.reply.Success? {
      UniqueAppend(db.flights, a.reply.data, FlightId);
      LedgerFrame(db, a.db);
    }
  }

  /** The delete route keeps the ledger invariant whatever the path id text. */
  lemma RemoveFlightKeepsLedger(db: Db, caller: Id, tripId: Id, itemText: string)
    requires LedgerOk(db)
    ensures LedgerOk(RemoveFlight(db, caller, tripId, itemText).db)
  {
    var r := RemoveFlight(db, caller, tripId, itemText);
    if Permissions.Authorize(db, tripId, caller).Granted? && Uuid.DbParse(itemText).Some? {
      var id := Uuid.DbParse(itemText).value;
      assert r == RemoveFlightById(db, tripId, id);
      RemoveFlightByIdKeepsLedger(db, tripId, id);
    } else {
      assert r.db == db;
    }
  }

  /** The delete alone keeps the ledger invariant. */
  lemma RemoveFlightByIdKeepsLedger(db: Db, tripId: Id, id: Id)
    requires LedgerOk(db)
    ensures LedgerOk(RemoveFlightById(db, tripId, id).db)
  {
    var r := RemoveFlightById(db, tripId, id);
    if r.reply.Success? {
      DeleteMatchingUnique(db.flights, (f: Flight) => FlightHit(f, id, tripId), FlightId);
      LedgerFrame(db, r.db);
    }
  }

  /** Adding or removing a flight keeps the ledger invariant. */
  lemma FlightsKeepLedger(db: Db, caller: Id, tripId: Id, body: FlightFields, freshId: Id, itemText: string)
    requires LedgerOk(db)
    ensures LedgerOk(AddFlight(db, caller, tripId, body, freshId).db)
    ensures LedgerOk(RemoveFlight(db, caller, tripId, itemText).db)
  {
    AddFlightKeepsLedger(db, caller, tripId, body, freshId);
    RemoveFlightKeepsLedger(db, caller, tripId, itemText);
  }

  /** The insert alone keeps the ledger invariant. */
  lemma AddAccommodationKeepsLedger(db: Db, caller: Id, tripId: Id, body: AccommodationFields, freshId: Id)
    requires LedgerOk(db)
    ensures LedgerOk(AddAccommodation(db, caller, tripId, body, freshId).db)
  {
    var a := AddAccommodation(db, caller, tripId, body, freshId);
    if a.reply.Success? {
      UniqueAppend(db.accommodations, a.reply.data, AccommodationId);
      LedgerFrame(db, a.db);
    }
  }

  /** The delete route keeps the ledger invariant whatever the path id text. */
  lemma RemoveAccommodationKeepsLedger(db: Db, caller: Id, tripId: Id, itemText: string)
    requires LedgerOk(db)
    ensures LedgerOk(RemoveAccommodation(db, caller, tripId, itemText).db)
  {
    var r := RemoveAccommodation(db, caller, tripId, itemText);
    if Permissions.Authorize(db, tripId, caller).Granted? && Uuid.DbParse(itemText).Some? {
      var id := Uuid.DbParse(itemText).value;
      assert r == RemoveAccommodationById(db, tripId, id);
      RemoveAccommodationByIdKeepsLedger(db, tripId, id);
    } else {
      assert r.db == db;
    }
  }

  /** The delete alone keeps the ledger invariant. */
  lemma RemoveAccommodationByIdKeepsLedger(db: Db, tripId: Id, id: Id)
    requires LedgerOk(db)
    ensures LedgerOk(RemoveAccommodationById(db, tripId, id).db)
  {
    var r := RemoveAccommodationById(db, tripId, id);
    if r.reply.Success? {
      DeleteMatchingUnique(db.accommodations, (y: Accommodation) => AccommodationHit(y, id, tripId), AccommodationId);
      LedgerFrame(db, r.db);
    }
  }

  /** Adding or removing an accommodation keeps the ledger invariant. */
  lemma AccommodationsKeepLedger(db: Db, caller: Id, tripId: Id, body: AccommodationFields, freshId: Id, itemText: string)
    requires LedgerOk(db)
    ensures LedgerOk(AddAccommodation(db, caller, tripId, body, freshId).db)
    ensures LedgerOk(RemoveAccommodation(db, caller, tripId, itemText).db)
  {
    AddAccommodationKeepsLedger(db, caller, tripId, body, freshId);
    RemoveAccommodationKeepsLedger(db, caller, tripId, itemText);
  }
}
