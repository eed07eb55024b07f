/** The trip permission guard: a caller may act on a trip when they own it or
    hold a collaborator row for it. The trips router runs it before the
    single-trip routes and every nested router, and the destinations, flights
    and accommodations routers repeat the same check themselves. */
module Permissions {
  import opened Common
  import opened Schema

  /** A `trip_collaborators` row exists for (trip, user). */
  predicate IsCollaborator(db: Db, tripId: Id, userId: Id) {
    exists i :: 0 <= i < |db.collaborators| && CollaboratorKey(db.collaborators[i]) == (tripId, userId)
  }

  /** The first `travel_plans` row with this id. */
  function FindPlan(db: Db, id: Id): (r: Option<Plan>)
    ensures r.Some? <==> id in PlanIds(db)
    ensures r.Some? ==> r.value in db.plans && r.value.id == id
  {
    match FindFirst(db.plans, (p: Plan) => p.id == id)
    case None => None
    case Some(i) => Some(db.plans[i])
  }

  datatype Access = Granted(trip: Plan) | NoTrip | Denied

  /** Owner or collaborator: the trip lookup first, then the two membership
      tests. `owner_id === userId` fails when the owner is NULL. */
  function Authorize(db: Db, tripId: Id, caller: Id): (a: Access)
    ensures a.NoTrip? <==> tripId !in PlanIds(db)
    ensures a.Granted? <==> (tripId in PlanIds(db) &&
      (FindPlan(db, tripId).value.ownerId == Some(caller) || IsCollaborator(db, tripId, caller)))
    ensures a.Granted? ==> a.trip == FindPlan(db, tripId).value
  {
    match FindPlan(db, tripId)
    case None => NoTrip
    case Some(trip) =>
      if trip.ownerId == Some(caller) || IsCollaborator(db, tripId, caller) then Granted(trip) else Denied
  }

  const TRIP_NOT_FOUND: string := "Trip not found."
  const NO_PERMISSION: string := "You do not have permission for this trip."

  /** `checkPermissions`: 404 when the trip is missing, 403 when the caller is
      neither owner nor collaborator, and otherwise the trip row, unchanged,
      for the next handler. The guard never writes. */
  function CheckPermissions(db: Db, tripId: Id, caller: Id): (r: Result<Plan>)
    ensures r.Ok? <==> ((exists i :: 0 <= i < |db.plans| && db.plans[i].id == tripId) &&
      (FindPlan(db, tripId).value.ownerId == Some(caller) || IsCollaborator(db, tripId, caller)))
    ensures r.Ok? ==> r.value in db.plans && r.value.id == tripId
    ensures r.Err? && tripId !in PlanIds(db) ==> r.error == Thrown(TRIP_NOT_FOUND)
    ensures r.Err? && tripId in PlanIds(db) ==> r.error == Thrown(NO_PERMISSION)
  {
    match Authorize(db, tripId, caller)
    case Granted(trip) => Ok(trip)
    case NoTrip => Err(Thrown(TRIP_NOT_FOUND))
    case Denied => Err(Thrown(NO_PERMISSION))
  }

  /** The status a guard refusal is sent with. */
  function GuardStatus(tripId: Id, db: Db): int {
    if tripId in PlanIds(db) then FORBIDDEN else NOT_FOUND
  }

  /** The reply a guarded route sends when the guard refuses. */
  function Refusal<T>(db: Db, tripId: Id): Reply<T> {
    if tripId in PlanIds(db) then Failure(FORBIDDEN, NO_PERMISSION) else Failure(NOT_FOUND, TRIP_NOT_FOUND)
  }

  /** In a well-formed database the guard's verdict is about the one row with
      that id: ownership is read from it, and a stranger is refused. */
  lemma GuardOwnerOrCollaborator(db: Db, tripId: Id, caller: Id, i: nat)
    requires Wellformed(db)
    requires i < |db.plans| && db.plans[i].id == tripId
    ensures CheckPermissions(db, tripId, caller).Ok? <==>
      (db.plans[i].ownerId == Some(caller) || IsCollaborator(db, tripId, caller))
    ensures CheckPermissions(db, tripId, caller).Ok? ==> CheckPermissions(db, tripId, caller).value == db.plans[i]
  {
    var p := FindPlan(db, tripId).value;
    var j :| 0 <= j < |db.plans| && db.plans[j] == p;
    UniqueLookup(db.plans, PlanId, i, j);
  }
}
