/** The planning phase of a trip: one `trip_states` row per trip holds the
    phase the owner last set. Anyone may read it; only the owner may change
    it, to any phase at all, and a trip without a state row gets none. */
module TripStates {
  import opened Common
  import opened Schema
  import opened Ledger
  import Permissions
  import Uuid

  const STATE_NOT_FOUND: string := "Trip state not found."
  const PHASE_REQUIRED: string := "A 'phase' is required."
  const OWNER_ONLY: string := "Only the trip owner can change the planning phase."
  const STATE_UPDATED: string := "Trip state updated."
  const UPDATE_FAILED: string := "Failed to update trip state."
  const GET_FAILED: string := "Failed to get trip state."

  function StateTrip(s: TripState): Id { s.tripId }

  /** GET `/trips/:tripId/state`: the first state row of the trip. No owner or
      collaborator check is made. The reply body is `{ data }` alone, so the
      message is empty. The path id is text; one a `uuid` column refuses makes
      the lookup throw, which answers 500. */
  function GetState(db: Db, tripText: string): (r: Step<TripState>)
    ensures r.db == db
    ensures Uuid.DbParse(tripText).None? ==> r.reply == Failure(SERVER_ERROR, GET_FAILED)
    ensures r.reply == Failure(NOT_FOUND, STATE_NOT_FOUND) <==>
      (Uuid.DbParse(tripText).Some? && Uuid.DbParse(tripText).value !in KeySet(db.states, StateTrip))
    ensures r.reply.Success? <==>
      (Uuid.DbParse(tripText).Some? && Uuid.DbParse(tripText).value in KeySet(db.states, StateTrip))
    ensures r.reply.Success? ==>
      (r.reply.status == OK && r.reply.data in db.states && Uuid.DbParse(tripText) == Some(r.reply.data.tripId))
  {
    match Uuid.DbParse(tripText)
    case None => Step(db, Failure(SERVER_ERROR, GET_FAILED))
    case Some(tripId) =>
      (match FindFirst(db.states, (s: TripState) => s.tripId == tripId)
       case None =>
         assert forall i :: 0 <= i < |db.states| ==> StateTrip(db.states[i]) != tripId;
         Step(db, Failure(NOT_FOUND, STATE_NOT_FOUND))
       case Some(i) => Step(db, Success(OK, "", db.states[i])))
  }

  /** The row after `update({ planning_phase, updated_at })`. */
  function Stamped(s: TripState, tripId: Id, phase: string, now: Time): TripState {
    if s.tripId == tripId then TripState(s.tripId, phase, now) else s
  }

  function StampAll(t: seq<TripState>, tripId: Id, phase: string, now: Time): (r: seq<TripState>)
    ensures |r| == |t|
    ensures forall i :: 0 <= i < |t| ==> r[i] == Stamped(t[i], tripId, phase, now)
  {
    seq(|t|, i requires 0 <= i < |t| => Stamped(t[i], tripId, phase, now))
  }

  /** PUT `/trips/:tripId/state`. The phase is checked first. The path id is
      text; one a `uuid` column refuses makes the lookup throw, which answers
      500. */
  function SetState(db: Db, caller: Id, tripText: string, phase: Option<string>, now: Time): (r: Step<Option<TripState>>)
    ensures !TruthyStr(phase) <==> r == Step(db, Failure(BAD_REQUEST, PHASE_REQUIRED))
    ensures TruthyStr(phase) && Uuid.DbParse(tripText).None? ==> r == Step(db, Failure(SERVER_ERROR, UPDATE_FAILED))
    ensures Uuid.DbParse(tripText).Some? ==> r == SetStateById(db, caller, Uuid.DbParse(tripText).value, phase, now)
    ensures r.reply.Failure? ==> r.db == db
  {
    if !TruthyStr(phase) then Step(db, Failure(BAD_REQUEST, PHASE_REQUIRED))
    else match Uuid.DbParse(tripText)
    case None => Step(db, Failure(SERVER_ERROR, UPDATE_FAILED))
    case Some(tripId) => SetStateById(db, caller, tripId, phase, now)
  }

  /** The write once the path id has been read. A missing trip is
      dereferenced and the handler fails with 500. The reply's data is the
      first updated row, or absent when the trip has no state row. */
  function SetStateById(db: Db, caller: Id, tripId: Id, phase: Option<string>, now: Time): (r: Step<Option<TripState>>)
    ensures !TruthyStr(phase) <==> r == Step(db, Failure(BAD_REQUEST, PHASE_REQUIRED))
    ensures TruthyStr(phase) && tripId !in PlanIds(db) ==> r == Step(db, Failure(SERVER_ERROR, UPDATE_FAILED))
    ensures TruthyStr(phase) && tripId in PlanIds(db) && Permissions.FindPlan(db, tripId).value.ownerId != Some(caller) ==>
      r == Step(db, Failure(FORBIDDEN, OWNER_ONLY))
    ensures r.reply.Success? <==> (TruthyStr(phase) && tripId in PlanIds(db)
      && Permissions.FindPlan(db, tripId).value.ownerId == Some(caller))
    ensures r.reply.Failure? ==> r.db == db
    ensures r.reply.Success? ==> (r.reply.status == OK && r.db == db.(states := r.db.states)
      && |r.db.states| == |db.states|
      && (forall i :: 0 <= i < |db.states| && db.states[i].tripId != tripId ==> r.db.states[i] == db.states[i])
      && (forall i :: 0 <= i < |db.states| && db.states[i].tripId == tripId ==>
            r.db.states[i] == TripState(tripId, phase.value, now))
      && (r.reply.data.Some? <==> tripId in KeySet(db.states, StateTrip)))
  {
    if !TruthyStr(phase) then Step(db, Failure(BAD_REQUEST, PHASE_REQUIRED))
    else
      match Permissions.FindPlan(db, tripId)
      case None => Step(db, Failure(SERVER_ERROR, UPDATE_FAILED))
      case Some(trip) =>
        if trip.ownerId != Some(caller) then Step(db, Failure(FORBIDDEN, OWNER_ONLY))
        else
          var t := StampAll(db.states, tripId, phase.value, now);
          var first := FindFirst(db.states, (s: TripState) => s.tripId == tripId);
          assert first.None? ==> forall i :: 0 <= i < |db.states| ==> StateTrip(db.states[i]) != tripId;
          Step(db.(states := t), Success(OK, STATE_UPDATED, if first.Some? then Some(t[first.value]) else None))
  }

  /** After the owner sets a phase, reading the state gives that phase and
      time back; the reply of the write is the row the read returns. */
  lemma SetThenGet(db: Db, caller: Id, tripText: string, tripId: Id, phase: string, now: Time)
    requires |phase| > 0
    requires Uuid.DbParse(tripText) == Some(tripId)
    requires SetState(db, caller, tripText, Some(phase), now).reply.Success?
    requires tripId in KeySet(db.states, StateTrip)
    ensures var after := SetState(db, caller, tripText, Some(phase), now);
      && GetState(after.db, tripText).reply == Success(OK, "", TripState(tripId, phase, now))
      && after.reply.data == Some(TripState(tripId, phase, now))
  {
    assert SetState(db, caller, tripText, Some(phase), now) == SetStateById(db, caller, tripId, Some(phase), now);
    SetThenFind(db, caller, tripId, phase, now);
  }

  /** The first state row of the trip after the write is the stamped one. */
  lemma SetThenFind(db: Db, caller: Id, tripId: Id, phase: string, now: Time)
    requires |phase| > 0
    requires SetStateById(db, caller, tripId, Some(phase), now).reply.Success?
    requires tripId in KeySet(db.states, StateTrip)
    ensures var after := SetStateById(db, caller, tripId, Some(phase), now);
      var first := FindFirst(after.db.states, (s: TripState) => s.tripId == tripId);
      && first.Some?
      && after.db.states[first.value] == TripState(tripId, phase, now)
      && after.reply.data == Some(TripState(tripId, phase, now))
  {
    var after := SetStateById(db, caller, tripId, Some(phase), now).db;
    var hit := (s: TripState) => s.tripId == tripId;
    FindFirstAgree(db.states, after.states, hit);
    var i := FindFirst(after.states, hit).value;
    assert after.states[i] == Stamped(db.states[i], tripId, phase, now);
  }

  /** A trip without a state row does not get one: the owner's write changes
      nothing and its reply carries no row. */
  lemma SetStateNoInsert(db: Db, caller: Id, tripText: string, phase: Option<string>, now: Time)
    requires Uuid.DbParse(tripText).Some? ==> Uuid.DbParse(tripText).value !in KeySet(db.states, StateTrip)
    ensures SetState(db, caller, tripText, phase, now).db == db
    ensures SetState(db, caller, tripText, phase, now).reply.Success? ==>
      SetState(db, caller, tripText, phase, now).reply.data.None?
  {
    var r := SetState(db, caller, tripText, phase, now);
    if r.reply.Success? {
      forall i | 0 <= i < |db.states| ensures r.db.states[i] == db.states[i] {
        KeySetMember(db.states, i, StateTrip);
      }
    }
  }

  /** A phase write keeps the ledger invariant. */
  lemma SetStateKeepsLedger(db: Db, caller: Id, tripText: string, phase: Option<string>, now: Time)
    requires LedgerOk(db)
    ensures LedgerOk(SetState(db, caller, tripText, phase, now).db)
  {
    var r := SetState(db, caller, tripText, phase, now);
    if r.reply.Success? {
      LedgerFrame(db, r.db);
    }
  }
}
