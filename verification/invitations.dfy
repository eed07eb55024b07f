/** Invitation links: the owner of a trip creates a link carrying a random
    token that expires after seven days, and a signed-in user who redeems it
    inside that window becomes an editor of the trip. A token is spent when
    it is redeemed. */
module Invitations {
  import opened Common
  import opened Schema
  import opened Ledger
  import Hex
  import Permissions
  import Uuid

  /** `crypto.randomBytes(20)`. */
  const TOKEN_BYTES: nat := 20

  /** `setDate(getDate() + 7)`, read as seven whole days. */
  const LIFETIME_MS: int := 7 * DAY_MS

  const OWNER_ONLY: string := "Only the trip owner can create invitation links."
  const CREATE_FAILED: string := "Failed to create invitation link."

  // ------------------------------------------------------------ inserts

  /** `insert` into `trip_invitations`: unique id and token, and the trip
      reference. */
  function InsertInvitation(t: seq<Invitation>, v: Invitation, plans: set<Id>): (r: Result<seq<Invitation>>)
    ensures r.Ok? <==> (v.id !in KeySet(t, InvitationId) && v.token !in KeySet(t, InvitationToken) && v.tripId in plans)
    ensures r.Ok? ==> r.value == t + [v]
  {
    if v.id in KeySet(t, InvitationId) || v.token in KeySet(t, InvitationToken) then Err(UniqueViolation)
    else if v.tripId !in plans then Err(ForeignKeyViolation)
    else Ok(t + [v])
  }

  /** `insert` into `trip_collaborators`: unique id and (trip, user), and
      the trip reference. */
  function InsertCollaborator(t: seq<Collaborator>, c: Collaborator, plans: set<Id>): (r: Result<seq<Collaborator>>)
    ensures r.Ok? <==> (c.id !in KeySet(t, CollaboratorId) && CollaboratorKey(c) !in KeySet(t, CollaboratorKey)
                        && c.tripId in plans)
    ensures r.Ok? ==> r.value == t + [c]
  {
    if c.id in KeySet(t, CollaboratorId) || CollaboratorKey(c) in KeySet(t, CollaboratorKey) then Err(UniqueViolation)
    else if c.tripId !in plans then Err(ForeignKeyViolation)
    else Ok(t + [c])
  }

  // ------------------------------------------------------------ create

  /** The link the client shares. */
  function ShareableLink(frontendUrl: string, token: string): string {
    frontendUrl + "/join-trip?token=" + token
  }

  /** A token is the 20 random bytes as 40 lower-case hex digits, and the
      bytes can be read back from it. */
  lemma TokenShape(random: seq<Hex.byte>)
    requires |random| == TOKEN_BYTES
    ensures |Hex.Encode(random)| == 40
    ensures forall i :: 0 <= i < 40 ==> Hex.IsLowerHexDigit(Hex.Encode(random)[i])
    ensures Hex.Decode(Hex.Encode(random)) == Some(random)
  {
    Hex.DecodeEncode(random);
  }

  /** POST `/trips/:tripId/invitations`. `random` is what the random source
      returned and `now` the clock. The path id is text; one a `uuid` column
      refuses makes the lookup throw, which answers 500. */
  function CreateInvitation(db: Db, caller: Id, tripText: string, random: seq<Hex.byte>, now: Time,
                            freshId: Id, frontendUrl: string): (r: Step<string>)
    requires |random| == TOKEN_BYTES
    ensures Uuid.DbParse(tripText).None? ==> r == Step(db, Failure(SERVER_ERROR, CREATE_FAILED))
    ensures Uuid.DbParse(tripText).Some? ==>
      r == CreateInvitationById(db, caller, Uuid.DbParse(tripText).value, random, now, freshId, frontendUrl)
    ensures r.reply.Failure? ==> r.db == db
  {
    match Uuid.DbParse(tripText)
    case None => Step(db, Failure(SERVER_ERROR, CREATE_FAILED))
    case Some(tripId) => CreateInvitationById(db, caller, tripId, random, now, freshId, frontendUrl)
  }

  /** The route once the path id has been read. Only the owner may create a
      link; a trip without an owner has none. */
  function CreateInvitationById(db: Db, caller: Id, tripId: Id, random: seq<Hex.byte>, now: Time,
                                freshId: Id, frontendUrl: string): (r: Step<string>)
    requires |random| == TOKEN_BYTES
    ensures tripId !in PlanIds(db) ==> r == Step(db, Failure(NOT_FOUND, Permissions.TRIP_NOT_FOUND))
    ensures tripId in PlanIds(db) && Permissions.FindPlan(db, tripId).value.ownerId != Some(caller) ==>
      r == Step(db, Failure(FORBIDDEN, OWNER_ONLY))
    ensures r.reply.Success? <==> (tripId in PlanIds(db) && Permissions.FindPlan(db, tripId).value.ownerId == Some(caller)
      && freshId !in KeySet(db.invitations, InvitationId) && Hex.Encode(random) !in KeySet(db.invitations, InvitationToken))
    ensures r.reply.Success? ==> (r.reply.status == CREATED
      && r.db == db.(invitations := db.invitations + [Invitation(freshId, tripId, caller, Hex.Encode(random), now + LIFETIME_MS)])
      && r.reply.data == ShareableLink(frontendUrl, r.db.invitations[|db.invitations|].token))
    ensures r.reply.Failure? ==> r.db == db
  {
    match Permissions.FindPlan(db, tripId)
    case None => Step(db, Failure(NOT_FOUND, Permissions.TRIP_NOT_FOUND))
    case Some(trip) =>
      if trip.ownerId != Some(caller) then Step(db, Failure(FORBIDDEN, OWNER_ONLY))
      else
        var token := Hex.Encode(random);
        match InsertInvitation(db.invitations, Invitation(freshId, tripId, caller, token, now + LIFETIME_MS), PlanIds(db))
        case Err(_) => Step(db, Failure(SERVER_ERROR, CREATE_FAILED))
        // The reply body is `{ shareableLink }` alone, so the message is empty.
        case Ok(t) => Step(db.(invitations := t), Success(CREATED, "", ShareableLink(frontendUrl, token)))
  }

  /** The link ends with the stored token, which spells out the random bytes. */
  lemma CreateInvitationLink(db: Db, caller: Id, tripText: string, random: seq<Hex.byte>, now: Time,
                             freshId: Id, frontendUrl: string)
    requires |random| == TOKEN_BYTES
    requires CreateInvitation(db, caller, tripText, random, now, freshId, frontendUrl).reply.Success?
    ensures var r := CreateInvitation(db, caller, tripText, random, now, freshId, frontendUrl);
      var link := r.reply.data;
      && |link| == |frontendUrl| + 17 + 40
      && link[..|frontendUrl|] == frontendUrl
      && Hex.Decode(link[|link| - 40..]) == Some(random)
      && r.db.invitations[|db.invitations|].expiresAt - now == 7 * DAY_MS
  {
    var tripId := Uuid.DbParse(tripText).value;
    LinkById(db, caller, tripId, random, now, freshId, frontendUrl);
  }

  lemma LinkById(db: Db, caller: Id, tripId: Id, random: seq<Hex.byte>, now: Time,
                 freshId: Id, frontendUrl: string)
    requires |random| == TOKEN_BYTES
    requires CreateInvitationById(db, caller, tripId, random, now, freshId, frontendUrl).reply.Success?
    ensures var r := CreateInvitationById(db, caller, tripId, random, now, freshId, frontendUrl);
      var link := r.reply.data;
      && |link| == |frontendUrl| + 17 + 40
      && link[..|frontendUrl|] == frontendUrl
      && Hex.Decode(link[|link| - 40..]) == Some(random)
      && r.db.invitations[|db.invitations|].expiresAt - now == 7 * DAY_MS
  {
    TokenShape(random);
    var link := ShareableLink(frontendUrl, Hex.Encode(random));
    assert link[|link| - 40..] == Hex.Encode(random);
  }

  lemma CreateInvitationKeepsLedger(db: Db, caller: Id, tripText: string, random: seq<Hex.byte>, now: Time,
                                    freshId: Id, frontendUrl: string)
    requires |random| == TOKEN_BYTES
    requires LedgerOk(db)
    ensures LedgerOk(CreateInvitation(db, caller, tripText, random, now, freshId, frontendUrl).db)
  {
    var r := CreateInvitation(db, caller, tripText, random, now, freshId, frontendUrl);
    if r.reply.Success? {
      var v := r.db.invitations[|db.invitations|];
      assert r.db.invitations == db.invitations + [v];
      UniqueAppend(db.invitations, v, InvitationId);
      UniqueAppend(db.invitations, v, InvitationToken);
      KeySetAppend(db.invitations, v, InvitationTrip);
      LedgerFrame(db, r.db);
    }
  }

  // ------------------------------------------------------------ accept

  const TOKEN_REQUIRED: string := "Invitation token is required."
  const NO_ACCOUNT: string := "User account not found. Cannot accept invitation."
  const INVITATION_NOT_FOUND: string := "Invitation not found or has expired."
  const ALREADY_MEMBER: string := "You are already a member of this trip."
  const JOINED: string := "You have successfully joined the trip!"
  const ACCEPT_FAILED: string := "Failed to accept invitation."

  /** The invitation carries the token and has not expired: `expires_at`
      is strictly later than now. */
  predicate Redeemable(v: Invitation, token: string, now: Time) {
    v.token == token && v.expiresAt > now
  }

  /** The user owns the trip or holds a collaborator row for it. */
  predicate IsMember(db: Db, tripId: Id, userId: Id) {
    || (exists i :: 0 <= i < |db.plans| && db.plans[i].id == tripId && db.plans[i].ownerId == Some(userId))
    || Permissions.IsCollaborator(db, tripId, userId)
  }

  /** `where({ token }).del()`. */
  function WithoutToken(t: seq<Invitation>, token: string): seq<Invitation> {
    Filter(t, (v: Invitation) => v.token != token)
  }

  /** The transaction of the accept route. A member's redemption deletes the
      token and then throws, so the delete is rolled back with the rest. */
  function AcceptTx(db: Db, caller: Id, token: string, now: Time, freshId: Id): (tx: Tx<Id>)
    ensures tx.Commit? ==> exists i :: 0 <= i < |db.invitations| && Redeemable(db.invitations[i], token, now)
  {
    match FindFirst(db.invitations, (v: Invitation) => Redeemable(v, token, now))
    case None => Abort(Thrown(INVITATION_NOT_FOUND))
    case Some(i) =>
      var v := db.invitations[i];
      if IsMember(db, v.tripId, caller) then Abort(Thrown(ALREADY_MEMBER))
      else
        match InsertCollaborator(db.collaborators, Collaborator(freshId, v.tripId, caller, EDITOR), PlanIds(db))
        case Err(e) => Abort(e)
        case Ok(cs) => Commit(db.(collaborators := cs, invitations := WithoutToken(db.invitations, token)), v.tripId)
  }

  /** POST `/trips/invitations/accept`. The reply's data is the trip id, or
      null when the member path finds no invitation with the token. */
  function AcceptInvitation(db: Db, caller: Id, token: Option<string>, now: Time, freshId: Id): (r: Step<Option<Id>>)
    ensures !TruthyStr(token) <==> r == Step(db, Failure(BAD_REQUEST, TOKEN_REQUIRED))
    ensures TruthyStr(token) && caller !in UserIds(db) ==> r == Step(db, Failure(FORBIDDEN, NO_ACCOUNT))
    ensures r.reply.Failure? && r.reply.status == NOT_FOUND <==> (TruthyStr(token) && caller in UserIds(db) &&
      forall i :: 0 <= i < |db.invitations| ==> !Redeemable(db.invitations[i], token.value, now))
    ensures r.reply.Failure? && r.reply.status == NOT_FOUND ==> r == Step(db, Failure(NOT_FOUND, INVITATION_NOT_FOUND))
    ensures r.db != db ==> r.reply.Success? && r.reply.status == OK && r.reply.message == JOINED
    ensures r.reply.Failure? ==> r.db == db
  {
    if !TruthyStr(token) then Step(db, Failure(BAD_REQUEST, TOKEN_REQUIRED))
    else if caller !in UserIds(db) then Step(db, Failure(FORBIDDEN, NO_ACCOUNT))
    else
      var tx := AcceptTx(db, caller, token.value, now, freshId);
      match tx
      case Commit(after, tripId) => Step(after, Success(OK, JOINED, Some(tripId)))
      case Abort(e) =>
        if e == Thrown(INVITATION_NOT_FOUND) then Step(db, Failure(NOT_FOUND, INVITATION_NOT_FOUND))
        else if e == Thrown(ALREADY_MEMBER) then
          var again := FindFirst(db.invitations, (v: Invitation) => v.token == token.value);
          Step(db, Success(OK, ALREADY_MEMBER, if again.Some? then Some(db.invitations[again.value].tripId) else None))
        else Step(db, Failure(SERVER_ERROR, ACCEPT_FAILED))
  }

  /** A newcomer's redemption adds exactly one editor row for the
      invitation's trip and spends the token. */
  lemma AcceptJoins(db: Db, caller: Id, token: string, now: Time, freshId: Id, i: nat)
    requires Wellformed(db) && |token| > 0 && caller in UserIds(db)
    requires FindFirst(db.invitations, (v: Invitation) => Redeemable(v, token, now)) == Some(i)
    requires !IsMember(db, db.invitations[i].tripId, caller)
    requires freshId !in KeySet(db.collaborators, CollaboratorId)
    ensures AcceptInvitation(db, caller, Some(token), now, freshId) == Step(
      db.(collaborators := db.collaborators + [Collaborator(freshId, db.invitations[i].tripId, caller, EDITOR)],
          invitations := WithoutToken(db.invitations, token)),
      Success(OK, JOINED, Some(db.invitations[i].tripId)))
  {
    var v := db.invitations[i];
    KeySetMember(db.invitations, i, InvitationTrip);
  }

  /** A member's redemption is rolled back: nothing is added, the invitation
      survives, and the reply still names the trip. */
  lemma AcceptAlreadyMember(db: Db, caller: Id, token: string, now: Time, freshId: Id, i: nat)
    requires Wellformed(db) && |token| > 0 && caller in UserIds(db)
    requires FindFirst(db.invitations, (v: Invitation) => Redeemable(v, token, now)) == Some(i)
    requires IsMember(db, db.invitations[i].tripId, caller)
    ensures AcceptInvitation(db, caller, Some(token), now, freshId)
         == Step(db, Success(OK, ALREADY_MEMBER, Some(db.invitations[i].tripId)))
    ensures db.invitations[i] in AcceptInvitation(db, caller, Some(token), now, freshId).db.invitations
  {
    var again := FindFirst(db.invitations, (v: Invitation) => v.token == token);
    assert again.Some? by {
      assert db.invitations[i].token == token;
    }
    UniqueLookup(db.invitations, InvitationToken, again.value, i);
  }

  /** An invitation whose expiry is not later than now cannot be redeemed. */
  lemma AcceptExpired(db: Db, caller: Id, token: string, now: Time, freshId: Id, i: nat)
    requires Wellformed(db) && |token| > 0 && caller in UserIds(db)
    requires i < |db.invitations| && db.invitations[i].token == token && db.invitations[i].expiresAt <= now
    ensures AcceptInvitation(db, caller, Some(token), now, freshId) == Step(db, Failure(NOT_FOUND, INVITATION_NOT_FOUND))
  {
    forall j | 0 <= j < |db.invitations| ensures !Redeemable(db.invitations[j], token, now) {
      if db.invitations[j].token == token {
        UniqueLookup(db.invitations, InvitationToken, i, j);
      }
    }
  }

  /** A token is single-use: once redeemed, every later redemption of it, by
      anyone with an account and at any time, is refused with 404. */
  lemma AcceptSingleUse(db: Db, caller: Id, token: string, now: Time, freshId: Id,
                        caller2: Id, now2: Time, freshId2: Id)
    requires |token| > 0
    requires AcceptInvitation(db, caller, Some(token), now, freshId).reply.Success?
    requires AcceptInvitation(db, caller, Some(token), now, freshId).reply.message == JOINED
    requires caller2 in UserIds(db)
    ensures var after := AcceptInvitation(db, caller, Some(token), now, freshId).db;
      AcceptInvitation(after, caller2, Some(token), now2, freshId2) == Step(after, Failure(NOT_FOUND, INVITATION_NOT_FOUND))
  {
    var after := AcceptInvitation(db, caller, Some(token), now, freshId).db;
    assert after.invitations == WithoutToken(db.invitations, token);
    forall j | 0 <= j < |after.invitations| ensures !Redeemable(after.invitations[j], token, now2) {
      FilterMember(db.invitations, (v: Invitation) => v.token != token, after.invitations[j]);
    }
  }

  /** After joining, the caller passes the trip guard. */
  lemma AcceptGrantsAccess(db: Db, caller: Id, token: string, now: Time, freshId: Id)
    requires |token| > 0
    requires AcceptInvitation(db, caller, Some(token), now, freshId).reply.Success?
    requires AcceptInvitation(db, caller, Some(token), now, freshId).reply.message == JOINED
    ensures var r := AcceptInvitation(db, caller, Some(token), now, freshId);
      r.reply.data.Some? && Permissions.Authorize(r.db, r.reply.data.value, caller).Granted?
  {
    var r := AcceptInvitation(db, caller, Some(token), now, freshId);
    var tripId := r.reply.data.value;
    var c := Collaborator(freshId, tripId, caller, EDITOR);
    assert r.db.collaborators == db.collaborators + [c];
    assert tripId in PlanIds(db);
    assert CollaboratorKey(r.db.collaborators[|db.collaborators|]) == (tripId, caller);
  }

  lemma AcceptKeepsLedger(db: Db, caller: Id, token: Option<string>, now: Time, freshId: Id)
    requires LedgerOk(db)
    ensures LedgerOk(AcceptInvitation(db, caller, token, now, freshId).db)
  {
    var r := AcceptInvitation(db, caller, token, now, freshId);
    if r.db != db {
      var tripId := r.reply.data.value;
      var c := Collaborator(freshId, tripId, caller, EDITOR);
      assert r.db.collaborators == db.collaborators + [c];
      assert tripId in PlanIds(db);
      UniqueAppend(db.collaborators, c, CollaboratorId);
      UniqueAppend(db.collaborators, c, CollaboratorKey);
      KeySetAppend(db.collaborators, c, CollaboratorTrip);
      var keep := (v: Invitation) => v.token != token.value;
      UniqueFilter(db.invitations, keep, InvitationId);
      UniqueFilter(db.invitations, keep, InvitationToken);
      FilterKeys(db.invitations, keep, InvitationTrip);
      LedgerFrame(db, r.db);
    }
  }
}
