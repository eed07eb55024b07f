/** The relational state the route handlers work on: one sequence of rows per
    table, in scan order, and the table constraints of the full-schema
    migration (primary keys, unique keys, NOT NULL columns, defaults, foreign
    keys with their ON DELETE actions) as a well-formedness predicate that
    every write must keep. */
module Schema {
  import opened Common

  datatype User = User(id: Id, username: string, email: string)

  /** A row of `travel_plans`: a catalogue tour (`plan_type` 'tour') or a
      user-built trip (`plan_type` 'user'). */
  datatype Plan = Plan(
    id: Id,
    name: string,
    description: Option<string>,
    startDate: Option<string>,
    durationDays: Option<int>,
    priceMinor: Option<int>,
    currencyCode: Option<string>,
    capacity: Option<int>,
    coverImageUrl: Option<string>,
    ownerId: Option<Id>,
    planType: string)

  /** A row of `tour_bookings` (where `planId` is the `tour_id` column) or of
      `custom_trip_bookings` (where it is `trip_id`): both tables have the
      same columns and constraints. */
  datatype Booking = Booking(
    id: Id,
    userId: Id,
    planId: Id,
    numTravelers: int,
    totalPriceMinor: int,
    status: Option<string>,
    bookedAt: Time)

  datatype Collaborator = Collaborator(id: Id, tripId: Id, userId: Id, permissionLevel: string)

  datatype Invitation = Invitation(id: Id, tripId: Id, createdBy: Id, token: string, expiresAt: Time)

  datatype TripState = TripState(tripId: Id, phase: string, updatedAt: Time)

  /** A row of `travel_plan_destinations`. */
  datatype Destination = Destination(
    id: Id, planId: Id, cityName: string, countryName: string, durationDays: int, stopOrder: int)

  /** A row of `travel_plan_flights`. */
  datatype Flight = Flight(
    id: Id, planId: Id, departsFrom: Id, arrivesAt: Id,
    airline: Option<string>, flightNumber: Option<string>, priceMinor: Option<int>)

  /** A row of `travel_plan_accommodations`. */
  datatype Accommodation = Accommodation(
    id: Id, planId: Id, destinationId: Id, name: string,
    kind: Option<string>, rating: Option<real>, priceMinor: Option<int>)

  /** A row of `tour_destinations`, the fixed itinerary of a catalogue tour. */
  datatype TourDestination = TourDestination(
    id: Id, tourId: Id, cityName: string, countryName: string, stopOrder: int, durationDays: int)

  datatype Db = Db(
    users: seq<User>,
    plans: seq<Plan>,
    tourBookings: seq<Booking>,
    customBookings: seq<Booking>,
    collaborators: seq<Collaborator>,
    invitations: seq<Invitation>,
    states: seq<TripState>,
    destinations: seq<Destination>,
    flights: seq<Flight>,
    accommodations: seq<Accommodation>,
    tourDestinations: seq<TourDestination>)

  /** What a handler leaves behind: the database after its transaction, and
      the reply it sent. */
  datatype Step<T> = Step(db: Db, reply: Reply<T>)

  // Column accessors, used as the keys of the unique constraints.
  function UserId(u: User): Id { u.id }
  function UserName(u: User): string { u.username }
  function UserEmail(u: User): string { u.email }
  function PlanId(p: Plan): Id { p.id }
  function BookingId(b: Booking): Id { b.id }
  function BookingKey(b: Booking): (Id, Id) { (b.userId, b.planId) }
  function BookingPlan(b: Booking): Id { b.planId }
  function CollaboratorId(c: Collaborator): Id { c.id }
  function CollaboratorKey(c: Collaborator): (Id, Id) { (c.tripId, c.userId) }
  function CollaboratorTrip(c: Collaborator): Id { c.tripId }
  function InvitationId(v: Invitation): Id { v.id }
  function InvitationToken(v: Invitation): string { v.token }
  function InvitationTrip(v: Invitation): Id { v.tripId }
  function TourDestinationId(d: TourDestination): Id { d.id }
  function TourDestinationKey(d: TourDestination): (Id, int) { (d.tourId, d.stopOrder) }
  function TourDestinationTour(d: TourDestination): Id { d.tourId }
  function DestinationId(d: Destination): Id { d.id }
  function FlightId(f: Flight): Id { f.id }
  function AccommodationId(a: Accommodation): Id { a.id }

  function PlanIds(db: Db): set<Id> { KeySet(db.plans, PlanId) }
  function UserIds(db: Db): set<Id> { KeySet(db.users, UserId) }

  const INT32_MIN: int := -0x8000_0000
  const INT32_MAX: int := 0x7fff_ffff
  const INT64_MIN: int := -0x8000_0000_0000_0000
  const INT64_MAX: int := 0x7fff_ffff_ffff_ffff

  /** Fits an `integer` column. */
  predicate Int32(x: int) { INT32_MIN <= x <= INT32_MAX }

  /** Fits a `bigInteger` column. */
  predicate Int64(x: int) { INT64_MIN <= x <= INT64_MAX }

  const CONFIRMED: string := "confirmed"
  const CANCELLED: string := "cancelled"
  const EDITOR: string := "editor"
  const TOUR: string := "tour"
  const USER_TRIP: string := "user"

  /** The constraints of one booking table: uuid primary key, unique
      (user_id, plan), NOT NULL status (default 'confirmed'), integer and
      bigint columns in range, and the plan reference (ON DELETE CASCADE). */
  ghost predicate BookingTableOk(t: seq<Booking>, plans: set<Id>) {
    && UniqueBy(t, BookingId)
    && UniqueBy(t, BookingKey)
    && KeySet(t, BookingPlan) <= plans
    && (forall i :: 0 <= i < |t| ==> BookingRowOk(t[i]))
  }

  predicate BookingRowOk(b: Booking) {
    b.status.Some? && Int32(b.numTravelers) && Int64(b.totalPriceMinor)
  }

  /** Every constraint of the full-schema migration on the modelled tables. */
  ghost predicate Wellformed(db: Db) {
    && UniqueBy(db.users, UserId)
    && UniqueBy(db.users, UserName)
    && UniqueBy(db.users, UserEmail)
    && UniqueBy(db.plans, PlanId)
    && OwnersExist(db.plans, UserIds(db))
    && BookingTableOk(db.tourBookings, PlanIds(db))
    && BookingTableOk(db.customBookings, PlanIds(db))
    && UniqueBy(db.collaborators, CollaboratorId)
    && UniqueBy(db.collaborators, CollaboratorKey)
    && KeySet(db.collaborators, CollaboratorTrip) <= PlanIds(db)
    && UniqueBy(db.invitations, InvitationId)
    && UniqueBy(db.invitations, InvitationToken)
    && KeySet(db.invitations, InvitationTrip) <= PlanIds(db)
    && UniqueBy(db.tourDestinations, TourDestinationId)
    && UniqueBy(db.tourDestinations, TourDestinationKey)
    && KeySet(db.tourDestinations, TourDestinationTour) <= PlanIds(db)
    && UniqueBy(db.destinations, DestinationId)
    && UniqueBy(db.flights, FlightId)
    && UniqueBy(db.accommodations, AccommodationId)
  }

  /** `owner_id` references `users` (ON DELETE SET NULL). */
  ghost predicate OwnersExist(plans: seq<Plan>, users: set<Id>) {
    forall i :: 0 <= i < |plans| && plans[i].ownerId.Some? ==> plans[i].ownerId.value in users
  }

  /** Why a statement failed. Unique violations carry SQLSTATE 23505. */
  datatype DbError = UniqueViolation | ForeignKeyViolation | OutOfRange | Thrown(message: string)

  datatype Result<T> = Ok(value: T) | Err(error: DbError)

  /** `insert` of one row into a booking table: the database checks column
      ranges, then the unique keys, then the plan reference. */
  function InsertBooking(t: seq<Booking>, b: Booking, plans: set<Id>): (r: Result<seq<Booking>>)
    ensures r.Ok? ==> r.value == t + [b]
    ensures r.Ok? <==> BookingRowOk(b) && b.id !in KeySet(t, BookingId)
                       && BookingKey(b) !in KeySet(t, BookingKey) && b.planId in plans
    ensures BookingTableOk(t, plans) && r.Ok? ==> BookingTableOk(r.value, plans)
  {
    if !BookingRowOk(b) then Err(OutOfRange)
    else if b.id in KeySet(t, BookingId) || BookingKey(b) in KeySet(t, BookingKey) then Err(UniqueViolation)
    else if b.planId !in plans then Err(ForeignKeyViolation)
    else
      assert BookingTableOk(t, plans) ==> BookingTableOk(t + [b], plans) by {
        if BookingTableOk(t, plans) {
          UniqueAppend(t, b, BookingId);
          UniqueAppend(t, b, BookingKey);
          assert KeySet(t + [b], BookingPlan) == KeySet(t, BookingPlan) + {b.planId} by {
            KeySetAppend(t, b, BookingPlan);
          }
        }
      }
      Ok(t + [b])
  }

  /** `update ... where id = t[k].id` of a booking row that keeps its id, user
      and plan: only the column ranges can fail. */
  function UpdateBooking(t: seq<Booking>, k: nat, b: Booking, plans: set<Id>): (r: Result<seq<Booking>>)
    requires k < |t|
    requires b.id == t[k].id && b.userId == t[k].userId && b.planId == t[k].planId
    ensures r.Ok? <==> BookingRowOk(b)
    ensures r.Ok? ==> r.value == t[k := b]
    ensures BookingTableOk(t, plans) && r.Ok? ==> BookingTableOk(r.value, plans)
  {
    if !BookingRowOk(b) then Err(OutOfRange)
    else
      assert BookingTableOk(t, plans) ==> BookingTableOk(t[k := b], plans) by {
        if BookingTableOk(t, plans) {
          UniqueUpdate(t, k, b, BookingId);
          UniqueUpdate(t, k, b, BookingKey);
          KeySetUpdate(t, k, b, BookingPlan);
        }
      }
      Ok(t[k := b])
  }

  lemma KeySetAppend<T, K>(t: seq<T>, x: T, key: T -> K)
    ensures KeySet(t + [x], key) == KeySet(t, key) + {key(x)}
  {
    var u := t + [x];
    forall y | y in KeySet(t, key) ensures y in KeySet(u, key) {
      var i :| 0 <= i < |t| && key(t[i]) == y;
      assert key(u[i]) == y;
    }
    assert key(u[|t|]) == key(x);
  }

  function PlansWithout(t: seq<Plan>, id: Id): seq<Plan> { Filter(t, (p: Plan) => p.id != id) }
  function BookingsWithout(t: seq<Booking>, id: Id): seq<Booking> { Filter(t, (b: Booking) => b.planId != id) }
  function CollaboratorsWithout(t: seq<Collaborator>, id: Id): seq<Collaborator> { Filter(t, (c: Collaborator) => c.tripId != id) }
  function InvitationsWithout(t: seq<Invitation>, id: Id): seq<Invitation> { Filter(t, (v: Invitation) => v.tripId != id) }
  function StatesWithout(t: seq<TripState>, id: Id): seq<TripState> { Filter(t, (s: TripState) => s.tripId != id) }
  function DestinationsWithout(t: seq<Destination>, id: Id): seq<Destination> { Filter(t, (d: Destination) => d.planId != id) }
  function FlightsWithout(t: seq<Flight>, id: Id): seq<Flight> { Filter(t, (f: Flight) => f.planId != id) }
  function AccommodationsWithout(t: seq<Accommodation>, id: Id): seq<Accommodation> { Filter(t, (a: Accommodation) => a.planId != id) }
  function TourDestinationsWithout(t: seq<TourDestination>, id: Id): seq<TourDestination> { Filter(t, (d: TourDestination) => d.tourId != id) }

  /** Deleting a travel plan: ON DELETE CASCADE removes its tour bookings,
      custom bookings, collaborators, invitations and tour destinations, and
      the trip's own destinations, flights, accommodations and state row. */
  function DeletePlan(db: Db, id: Id): (r: Db)
    ensures r.users == db.users
    ensures forall i :: 0 <= i < |r.tourBookings| ==> r.tourBookings[i] in db.tourBookings && r.tourBookings[i].planId != id
    ensures forall i :: 0 <= i < |db.tourBookings| && db.tourBookings[i].planId != id ==> db.tourBookings[i] in r.tourBookings
    ensures forall i :: 0 <= i < |r.customBookings| ==> r.customBookings[i] in db.customBookings && r.customBookings[i].planId != id
    ensures forall i :: 0 <= i < |r.collaborators| ==> r.collaborators[i].tripId != id
    ensures forall i :: 0 <= i < |r.invitations| ==> r.invitations[i].tripId != id
    ensures forall i :: 0 <= i < |r.states| ==> r.states[i].tripId != id
    ensures forall i :: 0 <= i < |db.plans| && db.plans[i].id != id ==> db.plans[i] in r.plans
  {
    db.(
      plans := PlansWithout(db.plans, id),
      tourBookings := BookingsWithout(db.tourBookings, id),
      customBookings := BookingsWithout(db.customBookings, id),
      collaborators := CollaboratorsWithout(db.collaborators, id),
      invitations := InvitationsWithout(db.invitations, id),
      states := StatesWithout(db.states, id),
      destinations := DestinationsWithout(db.destinations, id),
      flights := FlightsWithout(db.flights, id),
      accommodations := AccommodationsWithout(db.accommodations, id),
      tourDestinations := TourDestinationsWithout(db.tourDestinations, id))
  }

  lemma PlansWithoutIds(t: seq<Plan>, id: Id)
    ensures KeySet(PlansWithout(t, id), PlanId) == KeySet(t, PlanId) - {id}
  {
    var r := PlansWithout(t, id);
    FilterRefs(t, (p: Plan) => p.id != id, PlanId, id);
    forall x | x in KeySet(t, PlanId) - {id} ensures x in KeySet(r, PlanId) {
      var i :| 0 <= i < |t| && PlanId(t[i]) == x;
      assert t[i] in r;
      var j :| 0 <= j < |r| && r[j] == t[i];
      assert PlanId(r[j]) == x;
    }
  }

  lemma BookingsWithoutOk(t: seq<Booking>, id: Id, plans: set<Id>)
    requires BookingTableOk(t, plans)
    ensures BookingTableOk(BookingsWithout(t, id), plans - {id})
  {
    var p := (b: Booking) => b.planId != id;
    UniqueFilter(t, p, BookingId);
    UniqueFilter(t, p, BookingKey);
    FilterRefs(t, p, BookingPlan, id);
    FilterAll(t, p, BookingRowOk);
  }

  /** The cascade keeps every constraint: no row is left referring to the
      deleted plan, and nothing else is touched that a constraint mentions. */
  lemma DeletePlanKeepsWellformed(db: Db, id: Id)
    requires Wellformed(db)
    ensures Wellformed(DeletePlan(db, id))
    ensures id !in PlanIds(DeletePlan(db, id))
  {
    var r := DeletePlan(db, id);
    PlansWithoutIds(db.plans, id);
    assert PlanIds(r) == PlanIds(db) - {id};
    UniqueFilter(db.plans, (p: Plan) => p.id != id, PlanId);
    FilterAll(db.plans, (p: Plan) => p.id != id, (p: Plan) => p.ownerId.Some? ==> p.ownerId.value in UserIds(db));
    BookingsWithoutOk(db.tourBookings, id, PlanIds(db));
    BookingsWithoutOk(db.customBookings, id, PlanIds(db));
    var pc := (c: Collaborator) => c.tripId != id;
    UniqueFilter(db.collaborators, pc, CollaboratorId);
    UniqueFilter(db.collaborators, pc, CollaboratorKey);
    FilterRefs(db.collaborators, pc, CollaboratorTrip, id);
    var pv := (v: Invitation) => v.tripId != id;
    UniqueFilter(db.invitations, pv, InvitationId);
    UniqueFilter(db.invitations, pv, InvitationToken);
    FilterRefs(db.invitations, pv, InvitationTrip, id);
    var pt := (d: TourDestination) => d.tourId != id;
    UniqueFilter(db.tourDestinations, pt, TourDestinationId);
    UniqueFilter(db.tourDestinations, pt, TourDestinationKey);
    FilterRefs(db.tourDestinations, pt, TourDestinationTour, id);
    UniqueFilter(db.destinations, (d: Destination) => d.planId != id, DestinationId);
    UniqueFilter(db.flights, (f: Flight) => f.planId != id, FlightId);
    UniqueFilter(db.accommodations, (a: Accommodation) => a.planId != id, AccommodationId);
  }

  function UsersWithout(t: seq<User>, uid: Id): seq<User> { Filter(t, (u: User) => u.id != uid) }

  function Disown(p: Plan, uid: Id): Plan {
    if p.ownerId == Some(uid) then p.(ownerId := None) else p
  }

  /** Deleting a user: `travel_plans.owner_id` is set to NULL (ON DELETE SET
      NULL); the user columns of the other tables carry no reference and keep
      their values. */
  function DeleteUser(db: Db, uid: Id): (r: Db)
    ensures |r.plans| == |db.plans|
    ensures forall i :: 0 <= i < |r.plans| ==> r.plans[i] == Disown(db.plans[i], uid)
    ensures r.tourBookings == db.tourBookings && r.customBookings == db.customBookings
    ensures r.collaborators == db.collaborators && r.invitations == db.invitations
  {
    db.(users := UsersWithout(db.users, uid),
        plans := seq(|db.plans|, i requires 0 <= i < |db.plans| => Disown(db.plans[i], uid)))
  }

  /** After a user is deleted no plan names them as owner, the plans keep their
      ids, and every constraint still holds. */
  lemma DeleteUserKeepsWellformed(db: Db, uid: Id)
    requires Wellformed(db)
    ensures Wellformed(DeleteUser(db, uid))
    ensures uid !in UserIds(DeleteUser(db, uid))
    ensures forall i :: 0 <= i < |db.plans| ==> DeleteUser(db, uid).plans[i].ownerId != Some(uid)
  {
    var r := DeleteUser(db, uid);
    var pu := (u: User) => u.id != uid;
    FilterRefs(db.users, pu, UserId, uid);
    UniqueFilter(db.users, pu, UserId);
    UniqueFilter(db.users, pu, UserName);
    UniqueFilter(db.users, pu, UserEmail);
    DisownKeepsPlans(db.plans, r.plans, uid, UserIds(db), UserIds(r));
  }

  lemma DisownKeepsPlans(ps: seq<Plan>, qs: seq<Plan>, uid: Id, before: set<Id>, after: set<Id>)
    requires |qs| == |ps|
    requires forall i :: 0 <= i < |qs| ==> qs[i] == Disown(ps[i], uid)
    requires UniqueBy(ps, PlanId) && OwnersExist(ps, before)
    requires before - {uid} <= after
    ensures UniqueBy(qs, PlanId) && OwnersExist(qs, after)
    ensures KeySet(qs, PlanId) == KeySet(ps, PlanId)
  {
    assert forall i :: 0 <= i < |qs| ==> PlanId(qs[i]) == PlanId(ps[i]);
    forall x | x in KeySet(ps, PlanId) ensures x in KeySet(qs, PlanId) {
      var i :| 0 <= i < |ps| && PlanId(ps[i]) == x;
      assert PlanId(qs[i]) == x;
    }
    forall i | 0 <= i < |qs| && qs[i].ownerId.Some? ensures qs[i].ownerId.value in after {
      assert ps[i].ownerId == qs[i].ownerId;
    }
  }

  /** A knex transaction either commits the state its body built or, when the
      body throws, rolls back to the state it started from. */
  datatype Tx<T> = Commit(db: Db, value: T) | Abort(error: DbError)

  function Settle<T>(before: Db, tx: Tx<T>): (after: Db)
    ensures tx.Abort? ==> after == before
    ensures tx.Commit? ==> after == tx.db
  {
    match tx
    case Commit(db, _) => db
    case Abort(_) => before
  }
}
