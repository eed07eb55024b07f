/** The trips router: the caller's trip list, creating an empty trip or a trip
    with its destinations in one transaction, and reading, renaming and
    deleting a trip. Reading and renaming pass the owner-or-collaborator
    guard; deleting is for the owner alone. */
module Trips {
  import opened Common
  import opened Schema
  import opened Ledger
  import Permissions
  import StableSort
  import Uuid

  // ------------------------------------------------------------ request body

  /** One element of `destinations` as received. */
  datatype DestinationBody = DestinationBody(
    cityName: Option<Json>, countryName: Option<Json>, stopOrder: Option<Json>, durationDays: Option<Json>)

  /** The body of POST `/trips` and POST `/trips/build` as received. */
  datatype TripBody = TripBody(
    name: Option<Json>,
    description: Option<Json>,
    startDate: Option<Json>,
    durationDays: Option<Json>,
    destinations: Option<seq<DestinationBody>>)

  datatype DestinationInput = DestinationInput(cityName: string, countryName: string, stopOrder: int, durationDays: int)

  datatype TripInput = TripInput(
    name: string,
    description: Option<string>,
    startDate: Option<string>,
    durationDays: Option<int>,
    destinations: Option<seq<DestinationInput>>)

  /** `z.string().min(n)`. */
  predicate IsText(f: Option<Json>, minLength: nat) {
    f.Some? && f.value.JStr? && |f.value.s| >= minLength
  }

  /** `z.string().optional()`: absent, or a string (null is refused). */
  predicate IsOptionalText(f: Option<Json>) {
    f.None? || f.value.JStr?
  }

  /** `z.number().int()`. */
  predicate IsInt(f: Option<Json>) {
    f.Some? && f.value.JNum? && IsInteger(f.value.n)
  }

  predicate IsOptionalInt(f: Option<Json>) {
    f.None? || IsInt(f)
  }

  predicate IsDestination(d: DestinationBody) {
    IsText(d.cityName, 1) && IsText(d.countryName, 1) && IsInt(d.stopOrder) && IsInt(d.durationDays)
  }

  /** `createTripSchema`. */
  predicate IsTripBody(body: TripBody) {
    && IsText(body.name, 1)
    && IsOptionalText(body.description)
    && IsOptionalText(body.startDate)
    && IsOptionalInt(body.durationDays)
    && (body.destinations.Some? ==>
          forall i :: 0 <= i < |body.destinations.value| ==> IsDestination(body.destinations.value[i]))
  }

  function TextOf(f: Option<Json>): Option<string> {
    if f.Some? && f.value.JStr? then Some(f.value.s) else None
  }

  function IntOf(f: Option<Json>): Option<int> {
    if f.Some? && f.value.JNum? then Some(f.value.n.Floor) else None
  }

  function DestinationOf(d: DestinationBody): DestinationInput
    requires IsDestination(d)
  {
    DestinationInput(d.cityName.value.s, d.countryName.value.s, d.stopOrder.value.n.Floor, d.durationDays.value.n.Floor)
  }

  /** The validated body: 400 before the handler runs when the schema refuses
      it. Every destination has a non-empty city and country. */
  function ValidateTrip(body: TripBody): (r: Option<TripInput>)
    ensures r.Some? <==> IsTripBody(body)
    ensures r.Some? ==> |r.value.name| >= 1 && Some(r.value.name) == TextOf(body.name)
    ensures r.Some? ==> r.value.description == TextOf(body.description) && r.value.startDate == TextOf(body.startDate)
    ensures r.Some? ==> (r.value.destinations.Some? <==> body.destinations.Some?)
    ensures r.Some? && r.value.destinations.Some? ==>
      && |r.value.destinations.value| == |body.destinations.value|
      && forall i :: 0 <= i < |r.value.destinations.value| ==>
           |r.value.destinations.value[i].cityName| >= 1 && |r.value.destinations.value[i].countryName| >= 1
           && r.value.destinations.value[i].stopOrder as real == body.destinations.value[i].stopOrder.value.n
           && Some(r.value.destinations.value[i].cityName) == TextOf(body.destinations.value[i].cityName)
           && Some(r.value.destinations.value[i].countryName) == TextOf(body.destinations.value[i].countryName)
  {
    if !IsTripBody(body) then None
    else
      var ds := if body.destinations.None? then None
        else Some(seq(|body.destinations.value|, i requires 0 <= i < |body.destinations.value| =>
                      DestinationOf(body.destinations.value[i])));
      Some(TripInput(body.name.value.s, TextOf(body.description), TextOf(body.startDate), IntOf(body.durationDays), ds))
  }

  // ---------------------------------------------------------- writing plans

  /** The `travel_plans` columns a statement can overflow: `name` is
      varchar(100) and `duration_days` an integer. */
  predicate PlanColumnsFit(p: Plan) {
    |p.name| <= 100 && (p.durationDays.Some? ==> Int32(p.durationDays.value))
  }

  /** `insert` of one travel plan: column sizes, then the primary key, then
      the owner reference. */
  function InsertPlan(db: Db, p: Plan): (r: Result<Db>)
    ensures r.Ok? <==> PlanColumnsFit(p) && p.id !in PlanIds(db) && (p.ownerId.Some? ==> p.ownerId.value in UserIds(db))
    ensures r.Ok? ==> r.value == db.(plans := db.plans + [p])
  {
    if !PlanColumnsFit(p) then Err(OutOfRange)
    else if p.id in PlanIds(db) then Err(UniqueViolation)
    else if p.ownerId.Some? && p.ownerId.value !in UserIds(db) then Err(ForeignKeyViolation)
    else Ok(db.(plans := db.plans + [p]))
  }

  /** A new plan without capacity, bookings or price keeps the ledger
      invariant: nothing refers to its fresh id yet. */
  lemma InsertPlanKeepsLedger(db: Db, p: Plan)
    requires LedgerOk(db)
    requires InsertPlan(db, p).Ok?
    requires p.capacity.None?
    ensures LedgerOk(InsertPlan(db, p).value)
  {
    var r := InsertPlan(db, p).value;
    UniqueAppend(db.plans, p, PlanId);
    KeySetAppend(db.plans, p, PlanId);
    assert UserIds(r) == UserIds(db);
    BookedSeatsUnreferenced(db.tourBookings, p.id);
    forall i | 0 <= i < |r.plans| ensures BookedSeats(r.tourBookings, r.plans[i].id) <= Capacity(r.plans[i]) {
      if i < |db.plans| {
        assert r.plans[i] == db.plans[i];
      }
    }
  }

  /** The plan a trip request creates: owned by the caller, of type 'user',
      with no price, currency, capacity or cover image. */
  function NewTrip(id: Id, caller: Id, name: string, description: Option<string>,
                   startDate: Option<string>, durationDays: Option<int>): Plan {
    Plan(id, name, description, startDate, durationDays, None, None, None, None, Some(caller), USER_TRIP)
  }

  // --------------------------------------------------------------- GET /trips

  /** The columns GET `/trips` selects. */
  datatype TripSummary = TripSummary(id: Id, name: string, description: Option<string>, coverImageUrl: Option<string>)

  function Summary(p: Plan): TripSummary {
    TripSummary(p.id, p.name, p.description, p.coverImageUrl)
  }

  function Summaries(ps: seq<Plan>): (r: seq<TripSummary>)
    ensures |r| == |ps|
    ensures forall i :: 0 <= i < |ps| ==> r[i] == Summary(ps[i])
  {
    seq(|ps|, i requires 0 <= i < |ps| => Summary(ps[i]))
  }

  /** `where({owner_id: caller, plan_type: 'user'})`. */
  function OwnedTrips(plans: seq<Plan>, caller: Id): seq<Plan> {
    Filter(plans, (p: Plan) => p.ownerId == Some(caller) && p.planType == USER_TRIP)
  }

  /** The inner join of the caller's collaborator rows with 'user' plans, one
      result per matching pair, in collaborator-table order. */
  function SharedTrips(cs: seq<Collaborator>, plans: seq<Plan>, caller: Id): seq<Plan> {
    if |cs| == 0 then []
    else
      (if cs[0].userId == caller then Filter(plans, (p: Plan) => p.id == cs[0].tripId && p.planType == USER_TRIP) else [])
      + SharedTrips(cs[1..], plans, caller)
  }

  lemma {:induction false} SharedTripsMember(cs: seq<Collaborator>, plans: seq<Plan>, caller: Id, p: Plan)
    ensures p in SharedTrips(cs, plans, caller) <==>
      p in plans && p.planType == USER_TRIP && exists i :: 0 <= i < |cs| && CollaboratorKey(cs[i]) == (p.id, caller)
  {
    if |cs| > 0 {
      var q := (x: Plan) => x.id == cs[0].tripId && x.planType == USER_TRIP;
      FilterMember(plans, q, p);
      SharedTripsMember(cs[1..], plans, caller, p);
      if exists i :: 0 <= i < |cs[1..]| && CollaboratorKey(cs[1..][i]) == (p.id, caller) {
        var i :| 0 <= i < |cs[1..]| && CollaboratorKey(cs[1..][i]) == (p.id, caller);
        assert CollaboratorKey(cs[i + 1]) == (p.id, caller);
      }
      if exists i :: 0 <= i < |cs| && CollaboratorKey(cs[i]) == (p.id, caller) {
        var i :| 0 <= i < |cs| && CollaboratorKey(cs[i]) == (p.id, caller);
        if i > 0 {
          assert CollaboratorKey(cs[1..][i - 1]) == (p.id, caller);
        }
      }
    }
  }

  const TRIPS_RETRIEVED: string := "Trips retrieved successfully."

  /** GET `/trips`: the caller's own 'user' trips, then the 'user' trips they
      collaborate on, without removing a trip listed in both. */
  function ListTrips(db: Db, caller: Id): (s: Step<seq<TripSummary>>)
    ensures s.db == db && s.reply.Success? && s.reply.status == OK
  {
    Step(db, Success(OK, TRIPS_RETRIEVED,
      Summaries(OwnedTrips(db.plans, caller)) + Summaries(SharedTrips(db.collaborators, db.plans, caller))))
  }

  /** A trip GET `/trips` may show the caller: a 'user' plan they own or
      collaborate on. */
  ghost predicate MayList(db: Db, caller: Id, p: Plan) {
    p in db.plans && p.planType == USER_TRIP && (p.ownerId == Some(caller) || Permissions.IsCollaborator(db, p.id, caller))
  }

  /** The list holds every owned 'user' trip in its first part and every
      shared 'user' trip in its second part, so a trip that is both appears
      twice; and it holds nothing else. */
  lemma ListTripsContents(db: Db, caller: Id)
    ensures var data := ListTrips(db, caller).reply.data;
      var n := |OwnedTrips(db.plans, caller)|;
      && n <= |data|
      && (forall p :: p in db.plans && p.ownerId == Some(caller) && p.planType == USER_TRIP ==> Summary(p) in data[..n])
      && (forall p :: p in db.plans && p.planType == USER_TRIP && Permissions.IsCollaborator(db, p.id, caller) ==>
            Summary(p) in data[n..])
      && (forall v :: v in data ==> (exists p :: MayList(db, caller, p) && v == Summary(p)))
  {
    ListTripsOwned(db, caller);
    ListTripsShared(db, caller);
    ListTripsSound(db, caller);
  }

  lemma ListTripsOwned(db: Db, caller: Id)
    ensures var data := ListTrips(db, caller).reply.data;
      var n := |OwnedTrips(db.plans, caller)|;
      && n <= |data|
      && data[..n] == Summaries(Filter(db.plans, (p: Plan) => p.ownerId == Some(caller) && p.planType == USER_TRIP))
      && (forall p :: p in db.plans && p.ownerId == Some(caller) && p.planType == USER_TRIP ==> Summary(p) in data[..n])
  {
    var owned := OwnedTrips(db.plans, caller);
    var data := ListTrips(db, caller).reply.data;
    var n := |owned|;
    assert data[..n] == Summaries(owned);
    var q := (p: Plan) => p.ownerId == Some(caller) && p.planType == USER_TRIP;
    forall p | p in db.plans && p.ownerId == Some(caller) && p.planType == USER_TRIP ensures Summary(p) in data[..n] {
      FilterMember(db.plans, q, p);
      var i :| 0 <= i < n && owned[i] == p;
      assert Summaries(owned)[i] == Summary(p);
    }
  }

  lemma ListTripsShared(db: Db, caller: Id)
    ensures var data := ListTrips(db, caller).reply.data;
      var n := |OwnedTrips(db.plans, caller)|;
      && n <= |data|
      && (forall p :: p in db.plans && p.planType == USER_TRIP && Permissions.IsCollaborator(db, p.id, caller) ==>
            Summary(p) in data[n..])
  {
    var shared := SharedTrips(db.collaborators, db.plans, caller);
    var data := ListTrips(db, caller).reply.data;
    var n := |OwnedTrips(db.plans, caller)|;
    assert data[n..] == Summaries(shared);
    forall p | p in db.plans && p.planType == USER_TRIP && Permissions.IsCollaborator(db, p.id, caller)
      ensures Summary(p) in data[n..]
    {
      SharedTripsMember(db.collaborators, db.plans, caller, p);
      var i :| 0 <= i < |shared| && shared[i] == p;
      assert Summaries(shared)[i] == Summary(p);
    }
  }

  lemma ListTripsSound(db: Db, caller: Id)
    ensures forall v :: v in ListTrips(db, caller).reply.data ==> (exists p :: MayList(db, caller, p) && v == Summary(p))
  {
    var owned := OwnedTrips(db.plans, caller);
    var shared := SharedTrips(db.collaborators, db.plans, caller);
    var data := ListTrips(db, caller).reply.data;
    var n := |owned|;
    var q := (p: Plan) => p.ownerId == Some(caller) && p.planType == USER_TRIP;
    forall v | v in data ensures exists p :: MayList(db, caller, p) && v == Summary(p) {
      var m :| 0 <= m < |data| && data[m] == v;
      if m < n {
        FilterMember(db.plans, q, owned[m]);
        assert v == Summary(owned[m]) && MayList(db, caller, owned[m]);
      } else {
        var p := shared[m - n];
        assert p in shared;
        SharedTripsMember(db.collaborators, db.plans, caller, p);
        assert v == Summary(p) && MayList(db, caller, p);
      }
    }
  }

  // -------------------------------------------------------------- POST /trips

  const INVALID_TRIP: string := "Invalid request body."
  const TRIP_CREATED: string := "Trip created successfully."
  const CREATE_FAILED: string := "Failed to create trip."

  /** POST `/trips`: an empty trip owned by the caller. A failed insert (a
      name over 100 characters, an id already taken, a caller with no users
      row) is a 500. */
  function CreateTrip(db: Db, caller: Id, body: TripBody, freshId: Id): (s: Step<Plan>)
    ensures s.reply.Failure? ==> s.db == db
    ensures s.reply.status == BAD_REQUEST <==> !IsTripBody(body)
    ensures s.reply.Success? ==>
      && s.reply.status == CREATED
      && s.reply.data.id == freshId && s.reply.data.ownerId == Some(caller) && s.reply.data.planType == USER_TRIP
      && s.reply.data.capacity.None?
      && s.db == db.(plans := db.plans + [s.reply.data])
  {
    match ValidateTrip(body)
    case None => Step(db, Failure(BAD_REQUEST, INVALID_TRIP))
    case Some(input) =>
      var trip := NewTrip(freshId, caller, input.name, input.description, input.startDate, input.durationDays);
      match InsertPlan(db, trip)
      case Err(_) => Step(db, Failure(SERVER_ERROR, CREATE_FAILED))
      case Ok(r) => Step(r, Success(CREATED, TRIP_CREATED, trip))
  }

  /** A valid request from a known user with a free id and a name that fits
      always creates the trip. */
  lemma CreateTripSucceeds(db: Db, caller: Id, body: TripBody, freshId: Id)
    requires IsTripBody(body)
    requires caller in UserIds(db) && freshId !in PlanIds(db)
    requires |ValidateTrip(body).value.name| <= 100
    requires ValidateTrip(body).value.durationDays.Some? ==> Int32(ValidateTrip(body).value.durationDays.value)
    ensures CreateTrip(db, caller, body, freshId).reply.Success?
    ensures CreateTrip(db, caller, body, freshId).reply.data.name == ValidateTrip(body).value.name
  {
  }

  lemma CreateTripKeepsLedger(db: Db, caller: Id, body: TripBody, freshId: Id)
    requires LedgerOk(db)
    ensures LedgerOk(CreateTrip(db, caller, body, freshId).db)
  {
    var s := CreateTrip(db, caller, body, freshId);
    if s.reply.Success? {
      InsertPlanKeepsLedger(db, s.reply.data);
    }
  }

  // -------------------------------------------------------- POST /trips/build

  const NEED_DESTINATION: string := "At least one destination is required."
  const TRIP_BUILT: string := "Trip created and built successfully."
  const BUILD_FAILED: string := "Failed to build trip."

  /** The destination rows a build inserts, `ids(i)` being the generated id
      of the i-th. */
  function BuiltDestinations(tripId: Id, ds: seq<DestinationInput>, ids: nat -> Id): (r: seq<Destination>)
    ensures |r| == |ds|
    ensures forall i :: 0 <= i < |ds| ==>
      r[i] == Destination(ids(i), tripId, ds[i].cityName, ds[i].countryName, ds[i].durationDays, ds[i].stopOrder)
  {
    seq(|ds|, i requires 0 <= i < |ds| =>
      Destination(ids(i), tripId, ds[i].cityName, ds[i].countryName, ds[i].durationDays, ds[i].stopOrder))
  }

  /** A multi-row `insert` into a table whose only constraint is its primary
      key: every new id must be new to the table and to the batch. */
  function InsertDestinations(t: seq<Destination>, rows: seq<Destination>): (r: Result<seq<Destination>>)
    ensures r.Ok? <==> UniqueBy(t + rows, DestinationId)
    ensures r.Ok? ==> r.value == t + rows
  {
    if forall i, j :: 0 <= i < j < |t + rows| ==> (t + rows)[i].id != (t + rows)[j].id then Ok(t + rows)
    else Err(UniqueViolation)
  }

  /** POST `/trips/build`: a trip and all its destinations, or nothing. Only
      the name and description are stored on the trip; the schema accepts a
      start date and a duration, and the build drops them. */
  function BuildTrip(db: Db, caller: Id, body: TripBody, freshId: Id, ids: nat -> Id): (s: Step<Plan>)
    ensures s.reply.Failure? ==> s.db == db
    ensures s.reply.status == BAD_REQUEST <==>
      (!IsTripBody(body) || body.destinations.None? || |body.destinations.value| == 0)
    ensures s.reply.Success? ==>
      && s.reply.status == CREATED
      && s.reply.data == NewTrip(freshId, caller, ValidateTrip(body).value.name, ValidateTrip(body).value.description, None, None)
      && s.db == db.(plans := db.plans + [s.reply.data],
                     destinations := db.destinations + BuiltDestinations(freshId, ValidateTrip(body).value.destinations.value, ids))
  {
    match ValidateTrip(body)
    case None => Step(db, Failure(BAD_REQUEST, INVALID_TRIP))
    case Some(input) =>
      if input.destinations.None? || |input.destinations.value| == 0 then Step(db, Failure(BAD_REQUEST, NEED_DESTINATION))
      else
        var trip := NewTrip(freshId, caller, input.name, input.description, None, None);
        match InsertPlan(db, trip)
        case Err(_) => Step(db, Failure(SERVER_ERROR, BUILD_FAILED))
        case Ok(r) =>
          match InsertDestinations(r.destinations, BuiltDestinations(freshId, input.destinations.value, ids))
          case Err(_) => Step(db, Failure(SERVER_ERROR, BUILD_FAILED))
          case Ok(t) => Step(r.(destinations := t), Success(CREATED, TRIP_BUILT, trip))
  }

  /** A stored stop carries the trip, the generated id, and the city, country
      and order the request gave. */
  predicate IsStopOf(d: Destination, tripId: Id, id: Id, b: DestinationBody) {
    && d.planId == tripId && d.id == id
    && Some(d.cityName) == TextOf(b.cityName) && Some(d.countryName) == TextOf(b.countryName)
    && b.stopOrder.Some? && b.stopOrder.value.JNum? && d.stopOrder as real == b.stopOrder.value.n
  }

  /** The built trip's stops are the requested ones, in request order, each
      tied to the new trip. */
  lemma BuildTripStops(db: Db, caller: Id, body: TripBody, freshId: Id, ids: nat -> Id)
    requires BuildTrip(db, caller, body, freshId, ids).reply.Success?
    ensures var s := BuildTrip(db, caller, body, freshId, ids);
      var ds := body.destinations.value;
      && |s.db.destinations| == |db.destinations| + |ds|
      && forall i :: 0 <= i < |ds| ==> IsStopOf(s.db.destinations[|db.destinations| + i], freshId, ids(i), ds[i])
  {
    var s := BuildTrip(db, caller, body, freshId, ids);
    var input := ValidateTrip(body).value;
    var rows := BuiltDestinations(freshId, input.destinations.value, ids);
    assert s.db.destinations == db.destinations + rows;
    forall i | 0 <= i < |body.destinations.value|
      ensures IsStopOf(s.db.destinations[|db.destinations| + i], freshId, ids(i), body.destinations.value[i])
    {
      assert s.db.destinations[|db.destinations| + i] == rows[i];
      BuiltRowIsStop(freshId, body, input, ids, i);
    }
  }

  /** The i-th row a build generates is the i-th requested stop. */
  lemma BuiltRowIsStop(tripId: Id, body: TripBody, input: TripInput, ids: nat -> Id, i: nat)
    requires ValidateTrip(body) == Some(input) && input.destinations.Some?
    requires i < |input.destinations.value|
    ensures IsStopOf(BuiltDestinations(tripId, input.destinations.value, ids)[i], tripId, ids(i), body.destinations.value[i])
  {
    assert IsDestination(body.destinations.value[i]);
  }

  lemma BuildTripKeepsLedger(db: Db, caller: Id, body: TripBody, freshId: Id, ids: nat -> Id)
    requires LedgerOk(db)
    ensures LedgerOk(BuildTrip(db, caller, body, freshId, ids).db)
  {
    var s := BuildTrip(db, caller, body, freshId, ids);
    if s.reply.Success? {
      var r := InsertPlan(db, s.reply.data);
      InsertPlanKeepsLedger(db, s.reply.data);
      assert s.db == r.value.(destinations := s.db.destinations);
    }
  }

  // ------------------------------------------------------ PUT /trips/:tripId

  const TRIP_UPDATED: string := "Trip updated successfully."
  const UPDATE_FAILED: string := "Failed to update trip."

  /** A request-body field as the update writes it: absent (left out of the
      update), JSON null, or a string. */
  datatype Field = Absent | Null | Text(s: string)

  function Renamed(p: Plan, tripId: Id, name: Field, description: Field): Plan {
    if p.id != tripId then p
    else p.(name := if name.Text? then name.s else p.name,
            description := if description.Text? then Some(description.s)
                           else if description.Null? then None else p.description)
  }

  /** `update({name, description}).where({id})`: the query builder drops the
      absent keys; with both absent the update is empty and throws, a null
      name breaks NOT NULL, and a name over 100 characters does not fit. */
  function UpdatePlans(plans: seq<Plan>, tripId: Id, name: Field, description: Field): (r: Result<seq<Plan>>)
    ensures r.Ok? <==> (!(name.Absent? && description.Absent?) && !name.Null? && (name.Text? ==> |name.s| <= 100))
    ensures r.Ok? ==> |r.value| == |plans| && forall i :: 0 <= i < |plans| ==> r.value[i] == Renamed(plans[i], tripId, name, description)
  {
    if name.Absent? && description.Absent? then Err(Thrown("Empty .update() call detected!"))
    else if name.Null? then Err(Thrown("null value in column \"name\" violates not-null constraint"))
    else if name.Text? && |name.s| > 100 then Err(OutOfRange)
    else Ok(seq(|plans|, i requires 0 <= i < |plans| => Renamed(plans[i], tripId, name, description)))
  }

  /** PUT `/trips/:tripId`, behind the guard. The body is not validated. */
  function UpdateTrip(db: Db, caller: Id, tripId: Id, name: Field, description: Field): (s: Step<Plan>)
    ensures s.db == db.(plans := s.db.plans)
    ensures s.reply.Failure? ==> s.db == db
    ensures Permissions.CheckPermissions(db, tripId, caller).Err? ==> s.reply == Permissions.Refusal(db, tripId)
    ensures |s.db.plans| == |db.plans|
    ensures forall i :: 0 <= i < |db.plans| ==>
      s.db.plans[i] == db.plans[i].(name := s.db.plans[i].name, description := s.db.plans[i].description)
    ensures forall i :: 0 <= i < |db.plans| && db.plans[i].id != tripId ==> s.db.plans[i] == db.plans[i]
    ensures s.reply.Success? ==> s.reply.status == OK && s.reply.data.id == tripId && s.reply.data in s.db.plans
  {
    match Permissions.CheckPermissions(db, tripId, caller)
    case Err(_) => Step(db, Permissions.Refusal(db, tripId))
    case Ok(trip) => ApplyUpdate(db, trip, name, description)
  }

  /** The update once the guard has let it through: the reply carries the
      first row of the trip as it is afterwards. */
  function ApplyUpdate(db: Db, trip: Plan, name: Field, description: Field): (s: Step<Plan>)
    requires trip in db.plans
    ensures s.db == db.(plans := s.db.plans)
    ensures s.reply.Failure? ==> s.db == db
    ensures |s.db.plans| == |db.plans|
    ensures forall i :: 0 <= i < |db.plans| ==>
      s.db.plans[i] == db.plans[i].(name := s.db.plans[i].name, description := s.db.plans[i].description)
    ensures forall i :: 0 <= i < |db.plans| && db.plans[i].id != trip.id ==> s.db.plans[i] == db.plans[i]
    ensures s.reply.Success? ==> s.reply.status == OK && s.reply.data.id == trip.id && s.reply.data in s.db.plans
  {
    match UpdatePlans(db.plans, trip.id, name, description)
    case Err(_) => Step(db, Failure(SERVER_ERROR, UPDATE_FAILED))
    case Ok(ps) =>
      var j :| 0 <= j < |db.plans| && db.plans[j] == trip;
      assert ps[j].id == trip.id;
      var k := FindFirst(ps, (p: Plan) => p.id == trip.id).value;
      Step(db.(plans := ps), Success(OK, TRIP_UPDATED, ps[k]))
  }

  /** A permitted update sets exactly the fields the body carries on the
      trip's row, and leaves every other plan as it was. */
  lemma UpdateTripFields(db: Db, caller: Id, tripId: Id, name: Field, description: Field)
    requires UpdateTrip(db, caller, tripId, name, description).reply.Success?
    ensures var ps := UpdateTrip(db, caller, tripId, name, description).db.plans;
      forall i :: 0 <= i < |db.plans| ==>
        && (db.plans[i].id != tripId ==> ps[i] == db.plans[i])
        && (db.plans[i].id == tripId && name.Text? ==> ps[i].name == name.s)
        && (db.plans[i].id == tripId && description.Text? ==> ps[i].description == Some(description.s))
        && (db.plans[i].id == tripId && description.Null? ==> ps[i].description.None?)
  {
  }

  lemma UpdateTripKeepsLedger(db: Db, caller: Id, tripId: Id, name: Field, description: Field)
    requires LedgerOk(db)
    ensures LedgerOk(UpdateTrip(db, caller, tripId, name, description).db)
  {
    var s := UpdateTrip(db, caller, tripId, name, description);
    SameShapeKeepsLedger(db, s.db.plans);
  }

  // --------------------------------------------------- DELETE /trips/:tripId

  const NOT_OWNER: string := "Trip not found or you are not the owner."
  const TRIP_DELETED: string := "Trip deleted successfully."
  const DELETE_FAILED: string := "Failed to delete trip."

  /** DELETE `/trips/:tripId`: only the owner may delete, and a stranger is
      told the trip does not exist. The delete cascades. The path id is text;
      one a `uuid` column refuses makes the lookup throw, which answers 500. */
  function DeleteTrip(db: Db, caller: Id, tripText: string): (s: Step<()>)
    ensures Uuid.DbParse(tripText).None? ==> s == Step(db, Failure(SERVER_ERROR, DELETE_FAILED))
    ensures s.reply.Success? <==> (Uuid.DbParse(tripText).Some? &&
      exists i :: 0 <= i < |db.plans| && db.plans[i].id == Uuid.DbParse(tripText).value && db.plans[i].ownerId == Some(caller))
    ensures s.reply.Success? ==> s.reply.status == OK && s.db == DeletePlan(db, Uuid.DbParse(tripText).value)
    ensures s.reply.Failure? && Uuid.DbParse(tripText).Some? ==> s.reply == Failure(NOT_FOUND, NOT_OWNER)
    ensures s.reply.Failure? ==> s.db == db
  {
    match Uuid.DbParse(tripText)
    case None => Step(db, Failure(SERVER_ERROR, DELETE_FAILED))
    case Some(tripId) =>
      (match FindFirst(db.plans, (p: Plan) => p.id == tripId && p.ownerId == Some(caller))
       case None => Step(db, Failure(NOT_FOUND, NOT_OWNER))
       case Some(_) => Step(DeletePlan(db, tripId), Success(OK, TRIP_DELETED, ())))
  }

  /** After a successful delete the trip is gone together with everything
      that referred to it, and the ledger invariant still holds. */
  lemma DeleteTripKeepsLedger(db: Db, caller: Id, tripText: string)
    requires LedgerOk(db)
    ensures LedgerOk(DeleteTrip(db, caller, tripText).db)
    ensures DeleteTrip(db, caller, tripText).reply.Success? ==>
      Uuid.DbParse(tripText).value !in PlanIds(DeleteTrip(db, caller, tripText).db)
  {
    if Uuid.DbParse(tripText).Some? {
      var tripId := Uuid.DbParse(tripText).value;
      DeletePlanKeepsLedger(db, tripId);
      DeletePlanKeepsWellformed(db, tripId);
    }
  }

  // ------------------------------------------------------ GET /trips/:tripId

  const TRIP_RETRIEVED: string := "Trip retrieved successfully."

  datatype TripDetail = TripDetail(
    trip: Plan,
    destinations: seq<Destination>,
    collaborators: seq<Id>,
    accommodations: seq<Accommodation>,
    flights: seq<Flight>)

  function StopOrder(d: Destination): int {
    d.stopOrder
  }

  function DestinationsOf(t: seq<Destination>, tripId: Id): seq<Destination> {
    Filter(t, (d: Destination) => d.planId == tripId)
  }

  /** The inner join of the trip's collaborator rows with `users`. */
  function CollaboratorUsers(cs: seq<Collaborator>, users: seq<User>, tripId: Id): seq<Id> {
    if |cs| == 0 then []
    else
      (if cs[0].tripId == tripId && cs[0].userId in KeySet(users, UserId) then [cs[0].userId] else [])
      + CollaboratorUsers(cs[1..], users, tripId)
  }

  /** GET `/trips/:tripId`, behind the guard: the trip row with its stops in
      stop order, its collaborators, accommodations and flights. */
  function GetTrip(db: Db, caller: Id, tripId: Id): (s: Step<TripDetail>)
    ensures s.db == db
    ensures s.reply.Success? <==> Permissions.CheckPermissions(db, tripId, caller).Ok?
    ensures s.reply.Failure? ==> s.reply == Permissions.Refusal(db, tripId)
  {
    match Permissions.CheckPermissions(db, tripId, caller)
    case Err(_) => Step(db, Permissions.Refusal(db, tripId))
    case Ok(trip) =>
      Step(db, Success(OK, TRIP_RETRIEVED, TripDetail(
        trip,
        StableSort.Sort(DestinationsOf(db.destinations, trip.id), StopOrder),
        CollaboratorUsers(db.collaborators, db.users, trip.id),
        Filter(db.accommodations, (a: Accommodation) => a.planId == trip.id),
        Filter(db.flights, (f: Flight) => f.planId == trip.id))))
  }

  /** The joined collaborator list names exactly the users with a
      collaborator row for the trip and a `users` row. */
  lemma {:induction false} CollaboratorUsersMember(cs: seq<Collaborator>, users: seq<User>, tripId: Id, u: Id)
    ensures u in CollaboratorUsers(cs, users, tripId)
        <==> (exists c :: c in cs && c.tripId == tripId && c.userId == u) && u in KeySet(users, UserId)
  {
    if |cs| > 0 {
      CollaboratorUsersMember(cs[1..], users, tripId, u);
      if exists c :: c in cs && c.tripId == tripId && c.userId == u {
        var c :| c in cs && c.tripId == tripId && c.userId == u;
        if c != cs[0] {
          assert c in cs[1..];
        }
      }
    }
  }

  /** A permitted reader gets the trip's own row, its collaborators that
      have a user account, and exactly the trip's accommodations and flights. */
  lemma GetTripContents(db: Db, caller: Id, tripId: Id)
    requires Permissions.CheckPermissions(db, tripId, caller).Ok?
    ensures var s := GetTrip(db, caller, tripId);
      && s.reply == Success(OK, TRIP_RETRIEVED, s.reply.data)
      && s.reply.data.trip == Permissions.CheckPermissions(db, tripId, caller).value
      && (forall u :: u in s.reply.data.collaborators <==>
            (exists c :: c in db.collaborators && c.tripId == tripId && c.userId == u) && u in KeySet(db.users, UserId))
      && (forall a :: a in s.reply.data.accommodations <==> a in db.accommodations && a.planId == tripId)
      && (forall f :: f in s.reply.data.flights <==> f in db.flights && f.planId == tripId)
  {
    var d := GetTrip(db, caller, tripId).reply.data;
    forall u ensures u in d.collaborators <==>
        (exists c :: c in db.collaborators && c.tripId == tripId && c.userId == u) && u in KeySet(db.users, UserId) {
      CollaboratorUsersMember(db.collaborators, db.users, tripId, u);
    }
    forall a ensures a in d.accommodations <==> a in db.accommodations && a.planId == tripId {
      FilterMember(db.accommodations, (a: Accommodation) => a.planId == tripId, a);
    }
    forall f ensures f in d.flights <==> f in db.flights && f.planId == tripId {
      FilterMember(db.flights, (f: Flight) => f.planId == tripId, f);
    }
  }

  /** A permitted reader gets exactly the trip's stops, ordered by stop order. */
  lemma GetTripStops(db: Db, caller: Id, tripId: Id)
    requires Permissions.CheckPermissions(db, tripId, caller).Ok?
    ensures var d := GetTrip(db, caller, tripId).reply.data;
      && d.trip.id == tripId
      && (forall i, j :: 0 <= i < j < |d.destinations| ==> d.destinations[i].stopOrder <= d.destinations[j].stopOrder)
      && multiset(d.destinations) == multiset(DestinationsOf(db.destinations, tripId))
      && (forall k :: StableSort.WithKey(d.destinations, StopOrder, k) == StableSort.WithKey(DestinationsOf(db.destinations, tripId), StopOrder, k))
      && (forall i :: 0 <= i < |d.destinations| ==> d.destinations[i].planId == tripId)
  {
    var ds := DestinationsOf(db.destinations, tripId);
    StableSort.SortCorrect(ds, StopOrder);
    var sorted := StableSort.Sort(ds, StopOrder);
    forall i | 0 <= i < |sorted| ensures sorted[i].planId == tripId {
      assert sorted[i] in multiset(ds);
    }
  }
}
