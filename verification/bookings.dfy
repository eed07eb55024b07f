/** The bookings router: seat-limited tour bookings with cancel-then-rebook,
    custom-trip bookings priced from the trip's accommodations and flights,
    cancellation, and the caller's merged booking list. */
module Bookings {
  import opened Common
  import opened Schema
  import opened Ledger
  import Hex
  import Uuid
  import StableSort
  import Permissions

  // ---------------------------------------------------------------- the caller

  /** The claims the token middleware attaches as `req.user`. */
  datatype Principal = Principal(id: Option<Id>, sub: Option<Id>, username: Option<string>, email: Option<string>)

  /** `user.id || user.sub`. */
  function ClaimedId(p: Principal): Option<Id> {
    if p.id.Some? then p.id else p.sub
  }

  /** A principal that names no id, username or email builds an empty
      where-group, which the query builder leaves out: every row matches. */
  predicate NoIdentifiers(p: Principal) {
    ClaimedId(p).None? && !TruthyStr(p.username) && !TruthyStr(p.email)
  }

  /** The where-group `id = ? OR username = ? OR email = ?`, each disjunct
      present only when its claim is truthy. */
  predicate MatchesPrincipal(u: User, p: Principal) {
    || NoIdentifiers(p)
    || (ClaimedId(p).Some? && u.id == ClaimedId(p).value)
    || (TruthyStr(p.username) && u.username == p.username.value)
    || (TruthyStr(p.email) && u.email == p.email.value)
  }

  /** `resolveDbUserId`: the id of the first users row matching any of the
      principal's claims, with no precedence among them, or None. */
  function ResolveDbUserId(users: seq<User>, user: Option<Principal>): (r: Option<Id>)
    ensures user.None? ==> r.None?
    ensures user.Some? ==> (r.Some? <==> exists i :: 0 <= i < |users| && MatchesPrincipal(users[i], user.value))
    ensures r.Some? ==> exists i :: (0 <= i < |users| && users[i].id == r.value && MatchesPrincipal(users[i], user.value)
      && forall j :: 0 <= j < i ==> !MatchesPrincipal(users[j], user.value))
  {
    if user.None? then None
    else match FindFirst(users, (u: User) => MatchesPrincipal(u, user.value))
      case None => None
      case Some(i) => Some(users[i].id)
  }

  /** The claimed id does not win over a username or email match that comes
      first in the table: the booking is then made for another user than the
      one the token names. */
  lemma ResolveNoPrecedence(users: seq<User>, p: Principal, i: nat, j: nat)
    requires UniqueBy(users, UserId)
    requires i < j < |users|
    requires ClaimedId(p) == Some(users[j].id)
    requires TruthyStr(p.username) && users[i].username == p.username.value
    requires forall k :: 0 <= k < i ==> !MatchesPrincipal(users[k], p)
    ensures ResolveDbUserId(users, Some(p)) == Some(users[i].id)
    ensures ResolveDbUserId(users, Some(p)) != ClaimedId(p)
  {
    var r := ResolveDbUserId(users, Some(p));
    var m :| 0 <= m < |users| && users[m].id == r.value && MatchesPrincipal(users[m], p)
      && forall k :: 0 <= k < m ==> !MatchesPrincipal(users[k], p);
    assert MatchesPrincipal(users[i], p);
    assert m == i;
  }

  /** `dbUserId || req.user.id || req.user.sub`: the user id the listing and
      cancel routes filter by. */
  function CallerId(db: Db, user: Option<Principal>): (r: Option<Id>)
    ensures user.None? ==> r.None?
    ensures ResolveDbUserId(db.users, user).Some? ==> r == ResolveDbUserId(db.users, user)
    ensures user.Some? && ResolveDbUserId(db.users, user).None? ==> r == ClaimedId(user.value)
  {
    match ResolveDbUserId(db.users, user)
    case Some(uid) => Some(uid)
    case None => if user.Some? then ClaimedId(user.value) else None
  }

  // ------------------------------------------------------------ request bodies

  /** `{tour_id, num_travelers}` or `{trip_id, num_travelers}` as received. */
  datatype BookingBody = BookingBody(planId: Option<Json>, numTravelers: Option<Json>)

  datatype BookingRequest = BookingRequest(planId: Id, numTravelers: int)

  predicate IsUuidField(f: Option<Json>) {
    f.Some? && f.value.JStr? && Uuid.IsUuidText(f.value.s)
  }

  predicate IsTravelerCount(f: Option<Json>) {
    f.Some? && f.value.JNum? && IsInteger(f.value.n) && f.value.n >= 1.0
  }

  /** The two booking schemas: a uuid string and an integer count of at least
      one; anything else is rejected with 400 before the handler runs. */
  function ValidateBooking(body: BookingBody): (r: Option<BookingRequest>)
    ensures r.Some? <==> IsUuidField(body.planId) && IsTravelerCount(body.numTravelers)
    ensures r.Some? ==> r.value.numTravelers >= 1 && r.value.numTravelers as real == body.numTravelers.value.n
    ensures r.Some? ==> r.value.planId < Hex.Pow16(32) && Uuid.Format(r.value.planId) == Uuid.LowerUuid(body.planId.value.s)
  {
    if IsUuidField(body.planId) && IsTravelerCount(body.numTravelers) then
      Uuid.FormatParse(body.planId.value.s);
      Some(BookingRequest(Uuid.Parse(body.planId.value.s).value, body.numTravelers.value.n.Floor))
    else None
  }

  // ------------------------------------------------------------- tour booking

  const USER_NOT_FOUND: string := "Authenticated user not found."
  const TOUR_NOT_FOUND: string := "The requested tour does not exist."
  const NOT_ENOUGH_SPOTS: string := "Sorry, there are not enough available spots on this tour."
  const ALREADY_BOOKED: string := "You have already booked this tour."
  const TOUR_BOOKED: string := "Tour successfully booked!"
  const INVALID_BODY: string := "Invalid request body."

  /** `String(status || "").toLowerCase().includes("cancel")`: the looser test
      that lets a previous booking be reused. */
  predicate LooksCancelled(status: Option<string>) {
    status.Some? && HasInfix(ToLower(status.value), "cancel")
  }

  /** The first catalogue tour with this id. */
  function FindTour(db: Db, id: Id): (r: Option<Plan>)
    ensures r.Some? ==> r.value in db.plans && r.value.id == id && r.value.planType == TOUR
    ensures r.None? ==> forall i :: 0 <= i < |db.plans| ==> !(db.plans[i].id == id && db.plans[i].planType == TOUR)
  {
    match FindFirst(db.plans, (p: Plan) => p.id == id && p.planType == TOUR)
    case None => None
    case Some(i) => Some(db.plans[i])
  }

  /** Where the caller's booking of a plan is, if they have one. */
  function FindBooking(t: seq<Booking>, userId: Id, planId: Id): (r: Option<nat>)
    ensures r.Some? ==> r.value < |t| && BookingKey(t[r.value]) == (userId, planId)
    ensures r.None? <==> (userId, planId) !in KeySet(t, BookingKey)
  {
    FindFirst(t, (b: Booking) => b.userId == userId && b.planId == planId)
  }

  /** In a table unique on (user, plan), the caller's booking is the one row
      with that key. */
  lemma FindBookingUnique(t: seq<Booking>, userId: Id, planId: Id, k: nat)
    requires UniqueBy(t, BookingKey)
    requires k < |t| && BookingKey(t[k]) == (userId, planId)
    ensures FindBooking(t, userId, planId) == Some(k)
  {
    assert (userId, planId) in KeySet(t, BookingKey);
  }

  /** A booking row reused for a new booking: same id, user and plan. */
  function Rebooked(b: Booking, n: int, total: int, now: Time): Booking {
    b.(numTravelers := n, totalPriceMinor := total, status := Some(CONFIRMED), bookedAt := now)
  }

  /** `price_minor * num_travelers`, NULL price read as 0. */
  function TourTotal(tour: Plan, n: int): int {
    OrZero(tour.priceMinor) * n
  }

  /** The body of the tour-booking transaction, for a caller already resolved
      (or not) against the users table. */
  function BookTourTx(db: Db, uid: Option<Id>, req: BookingRequest, now: Time, freshId: Id): (tx: Tx<Reply<Booking>>)
    ensures tx.Commit? ==> tx.db == db.(tourBookings := tx.db.tourBookings)
    ensures tx.Commit? && tx.value.Failure? ==> tx.db == db
    ensures tx.Commit? && tx.value.Failure? ==> tx.value.status in {UNAUTHORIZED, NOT_FOUND, CONFLICT}
    ensures (tx.Commit? && tx.value.status == UNAUTHORIZED) <==> uid.None?
    ensures tx.Commit? && tx.value.Success? ==> tx.value.status == CREATED && tx.value.data in tx.db.tourBookings
    ensures tx.Commit? ==> |db.tourBookings| <= |tx.db.tourBookings| <= |db.tourBookings| + 1
    ensures tx.Commit? ==> forall i :: 0 <= i < |db.tourBookings| ==> tx.db.tourBookings[i].id == db.tourBookings[i].id
  {
    if uid.None? then Commit(db, Failure(UNAUTHORIZED, USER_NOT_FOUND))
    else match FindTour(db, req.planId)
      case None => Commit(db, Failure(NOT_FOUND, TOUR_NOT_FOUND))
      case Some(tour) =>
        if BookedSeats(db.tourBookings, req.planId) + req.numTravelers > Capacity(tour) then
          Commit(db, Failure(CONFLICT, NOT_ENOUGH_SPOTS))
        else
          var total := TourTotal(tour, req.numTravelers);
          match FindBooking(db.tourBookings, uid.value, req.planId)
          case Some(k) =>
            if !LooksCancelled(db.tourBookings[k].status) then Commit(db, Failure(CONFLICT, ALREADY_BOOKED))
            else
              var row := Rebooked(db.tourBookings[k], req.numTravelers, total, now);
              (match UpdateBooking(db.tourBookings, k, row, PlanIds(db))
               case Err(e) => Abort(e)
               case Ok(t) =>
                 assert t[k] == row;
                 Commit(db.(tourBookings := t), Success(CREATED, TOUR_BOOKED, row)))
          case None =>
            var row := Booking(freshId, uid.value, req.planId, req.numTravelers, total, Some(CONFIRMED), now);
            match InsertBooking(db.tourBookings, row, PlanIds(db))
            case Err(e) => Abort(e)
            case Ok(t) => Commit(db.(tourBookings := t), Success(CREATED, TOUR_BOOKED, row))
  }

  /** The text of `error.message` for a failed statement. */
  function ErrorText(e: DbError): string {
    match e
    case UniqueViolation => "duplicate key value violates unique constraint"
    case ForeignKeyViolation => "insert or update violates foreign key constraint"
    case OutOfRange => "value out of range"
    case Thrown(m) => m
  }

  /** POST `/bookings/tour`. A failed statement rolls the transaction back; a
      unique violation is reported as a duplicate booking. */
  function BookTour(db: Db, user: Option<Principal>, body: BookingBody, now: Time, freshId: Id): (s: Step<Booking>)
    ensures s.reply.Failure? ==> s.db == db
    ensures s.db == db.(tourBookings := s.db.tourBookings)
    ensures s.reply.status == BAD_REQUEST <==> ValidateBooking(body).None?
    ensures s.reply.status == UNAUTHORIZED <==> ValidateBooking(body).Some? && ResolveDbUserId(db.users, user).None?
    ensures s.reply.Success? ==> s.reply.status == CREATED && s.reply.data in s.db.tourBookings
    ensures |db.tourBookings| <= |s.db.tourBookings| <= |db.tourBookings| + 1
    ensures forall i :: 0 <= i < |db.tourBookings| ==> s.db.tourBookings[i].id == db.tourBookings[i].id
  {
    match ValidateBooking(body)
    case None => Step(db, Failure(BAD_REQUEST, INVALID_BODY))
    case Some(req) =>
      match BookTourTx(db, ResolveDbUserId(db.users, user), req, now, freshId)
      case Commit(r, reply) => Step(r, reply)
      case Abort(e) =>
        Step(db, if e == UniqueViolation then Failure(CONFLICT, ALREADY_BOOKED) else Failure(SERVER_ERROR, ErrorText(e)))
  }

  /** The tour lookup: with a valid body and a resolved caller, the booking
      answers 404 exactly when no plan has the id with plan type 'tour' (a
      missing plan and a user trip alike), and then nothing changes. */
  lemma BookTourMissingTour(db: Db, user: Option<Principal>, body: BookingBody, now: Time, freshId: Id,
                            req: BookingRequest)
    requires ValidateBooking(body) == Some(req)
    requires ResolveDbUserId(db.users, user).Some?
    ensures BookTour(db, user, body, now, freshId).reply.status == NOT_FOUND
        <==> forall i :: 0 <= i < |db.plans| ==> !(db.plans[i].id == req.planId && db.plans[i].planType == TOUR)
    ensures BookTour(db, user, body, now, freshId).reply.status == NOT_FOUND ==>
      BookTour(db, user, body, now, freshId) == Step(db, Failure(NOT_FOUND, TOUR_NOT_FOUND))
  {
    if FindTour(db, req.planId).Some? {
      var tour := FindTour(db, req.planId).value;
      var j :| 0 <= j < |db.plans| && db.plans[j] == tour;
    }
  }

  /** The capacity rule: with a resolved caller and an existing tour, the
      booking is refused as overbooked exactly when the active seats plus the
      request exceed the capacity, whatever the caller's own bookings are. */
  lemma BookTourCapacity(db: Db, user: Option<Principal>, body: BookingBody, now: Time, freshId: Id,
                         req: BookingRequest, uid: Id, tour: Plan)
    requires ValidateBooking(body) == Some(req)
    requires ResolveDbUserId(db.users, user) == Some(uid)
    requires FindTour(db, req.planId) == Some(tour)
    ensures BookTour(db, user, body, now, freshId).reply == Failure(CONFLICT, NOT_ENOUGH_SPOTS)
        <==> BookedSeats(db.tourBookings, req.planId) + req.numTravelers > Capacity(tour)
  {
  }

  /** A caller whose booking of the tour is still active is refused, and
      nothing changes. */
  lemma BookTourDuplicate(db: Db, user: Option<Principal>, body: BookingBody, now: Time, freshId: Id,
                          req: BookingRequest, uid: Id, tour: Plan, k: nat)
    requires ValidateBooking(body) == Some(req)
    requires ResolveDbUserId(db.users, user) == Some(uid)
    requires FindTour(db, req.planId) == Some(tour)
    requires BookedSeats(db.tourBookings, req.planId) + req.numTravelers <= Capacity(tour)
    requires UniqueBy(db.tourBookings, BookingKey)
    requires k < |db.tourBookings| && BookingKey(db.tourBookings[k]) == (uid, req.planId)
    requires !LooksCancelled(db.tourBookings[k].status)
    ensures BookTour(db, user, body, now, freshId) == Step(db, Failure(CONFLICT, ALREADY_BOOKED))
  {
    FindBookingUnique(db.tourBookings, uid, req.planId, k);
  }

  /** Cancel-then-rebook reuses the caller's row: same id and position, the
      new count, the tour price times the count, status 'confirmed' and the
      booking time now. No row is added. */
  lemma BookTourRebook(db: Db, user: Option<Principal>, body: BookingBody, now: Time, freshId: Id,
                       req: BookingRequest, uid: Id, tour: Plan, k: nat)
    requires ValidateBooking(body) == Some(req)
    requires ResolveDbUserId(db.users, user) == Some(uid)
    requires FindTour(db, req.planId) == Some(tour)
    requires BookedSeats(db.tourBookings, req.planId) + req.numTravelers <= Capacity(tour)
    requires UniqueBy(db.tourBookings, BookingKey)
    requires k < |db.tourBookings| && BookingKey(db.tourBookings[k]) == (uid, req.planId)
    requires LooksCancelled(db.tourBookings[k].status)
    requires BookingRowOk(Rebooked(db.tourBookings[k], req.numTravelers, TourTotal(tour, req.numTravelers), now))
    ensures var row := Rebooked(db.tourBookings[k], req.numTravelers, TourTotal(tour, req.numTravelers), now);
      && BookTour(db, user, body, now, freshId) == Step(db.(tourBookings := db.tourBookings[k := row]), Success(CREATED, TOUR_BOOKED, row))
      && row.id == db.tourBookings[k].id
  {
    FindBookingUnique(db.tourBookings, uid, req.planId, k);
  }

  /** A first booking appends exactly one row, for the resolved caller, with
      the tour price times the count and the column defaults. */
  lemma BookTourInsert(db: Db, user: Option<Principal>, body: BookingBody, now: Time, freshId: Id,
                       req: BookingRequest, uid: Id, tour: Plan)
    requires ValidateBooking(body) == Some(req)
    requires ResolveDbUserId(db.users, user) == Some(uid)
    requires FindTour(db, req.planId) == Some(tour)
    requires BookedSeats(db.tourBookings, req.planId) + req.numTravelers <= Capacity(tour)
    requires (uid, req.planId) !in KeySet(db.tourBookings, BookingKey)
    requires freshId !in KeySet(db.tourBookings, BookingId)
    requires Int32(req.numTravelers) && Int64(TourTotal(tour, req.numTravelers))
    ensures var row := Booking(freshId, uid, req.planId, req.numTravelers, TourTotal(tour, req.numTravelers), Some(CONFIRMED), now);
      BookTour(db, user, body, now, freshId) == Step(db.(tourBookings := db.tourBookings + [row]), Success(CREATED, TOUR_BOOKED, row))
  {
    assert req.planId in PlanIds(db) by {
      var i :| 0 <= i < |db.plans| && db.plans[i] == tour;
      KeySetMember(db.plans, i, PlanId);
    }
  }

  /** A fresh id that is already taken raises a unique violation, which is
      reported as a duplicate booking; the transaction rolls back. */
  lemma BookTourIdCollision(db: Db, user: Option<Principal>, body: BookingBody, now: Time, freshId: Id,
                            req: BookingRequest, uid: Id, tour: Plan)
    requires ValidateBooking(body) == Some(req)
    requires ResolveDbUserId(db.users, user) == Some(uid)
    requires FindTour(db, req.planId) == Some(tour)
    requires BookedSeats(db.tourBookings, req.planId) + req.numTravelers <= Capacity(tour)
    requires (uid, req.planId) !in KeySet(db.tourBookings, BookingKey)
    requires freshId in KeySet(db.tourBookings, BookingId)
    requires Int32(req.numTravelers) && Int64(TourTotal(tour, req.numTravelers))
    ensures BookTour(db, user, body, now, freshId) == Step(db, Failure(CONFLICT, ALREADY_BOOKED))
  {
  }

  /** Every outcome of a tour booking keeps the ledger invariant: the table
      constraints, positive traveller counts, and no tour over capacity. */
  lemma BookTourKeepsLedger(db: Db, user: Option<Principal>, body: BookingBody, now: Time, freshId: Id)
    requires LedgerOk(db)
    ensures LedgerOk(BookTour(db, user, body, now, freshId).db)
  {
    if ValidateBooking(body).Some? {
      BookTourTxKeepsLedger(db, ResolveDbUserId(db.users, user), ValidateBooking(body).value, now, freshId);
    }
  }

  /** The transaction alone: a committed outcome keeps the ledger. */
  lemma BookTourTxKeepsLedger(db: Db, uid: Option<Id>, req: BookingRequest, now: Time, freshId: Id)
    requires LedgerOk(db) && req.numTravelers >= 1
    ensures BookTourTx(db, uid, req, now, freshId).Commit? ==> LedgerOk(BookTourTx(db, uid, req, now, freshId).db)
  {
    var tx := BookTourTx(db, uid, req, now, freshId);
    if tx.Commit? && tx.db != db {
      var tour := FindTour(db, req.planId).value;
      var t := db.tourBookings;
      var total := TourTotal(tour, req.numTravelers);
      match FindBooking(t, uid.value, req.planId)
      case Some(k) =>
        RebookKeepsLedger(db, req, tour, k, Rebooked(t[k], req.numTravelers, total, now), tx.db.tourBookings);
      case None =>
        var row := Booking(freshId, uid.value, req.planId, req.numTravelers, total, Some(CONFIRMED), now);
        InsertKeepsLedger(db, req, tour, row, tx.db.tourBookings);
    }
  }

  /** Rewriting the caller's booking in place keeps the ledger when the
      requested seats fit. */
  lemma RebookKeepsLedger(db: Db, req: BookingRequest, tour: Plan, k: nat, row: Booking, t: seq<Booking>)
    requires LedgerOk(db) && req.numTravelers >= 1
    requires tour in db.plans && tour.id == req.planId
    requires BookedSeats(db.tourBookings, req.planId) + req.numTravelers <= Capacity(tour)
    requires k < |db.tourBookings| && db.tourBookings[k].planId == req.planId
    requires row.planId == req.planId && row.numTravelers == req.numTravelers
    requires t == db.tourBookings[k := row] && BookingTableOk(t, PlanIds(db))
    ensures LedgerOk(db.(tourBookings := t))
  {
    var prev := db.tourBookings;
    forall x ensures BookedSeats(t, x) == BookedSeats(prev, x) - Seats(prev[k], x) + Seats(row, x) {
      BookedSeatsUpdate(prev, k, row, x);
    }
    LedgerAfterWrite(db, t, req.planId, tour, req.numTravelers, Seats(prev[k], req.planId));
  }

  /** Appending a new booking keeps the ledger when the requested seats fit. */
  lemma InsertKeepsLedger(db: Db, req: BookingRequest, tour: Plan, row: Booking, t: seq<Booking>)
    requires LedgerOk(db) && req.numTravelers >= 1
    requires tour in db.plans && tour.id == req.planId
    requires BookedSeats(db.tourBookings, req.planId) + req.numTravelers <= Capacity(tour)
    requires row.planId == req.planId && row.numTravelers == req.numTravelers
    requires t == db.tourBookings + [row] && BookingTableOk(t, PlanIds(db))
    ensures LedgerOk(db.(tourBookings := t))
  {
    var prev := db.tourBookings;
    forall x ensures BookedSeats(t, x) == BookedSeats(prev, x) + Seats(row, x) {
      BookedSeatsAppend(prev, row, x);
    }
    LedgerAfterWrite(db, t, req.planId, tour, req.numTravelers, 0);
  }

  /** The step shared by both write paths: the booked tour gains at most the
      requested seats, which fit, and every other tour keeps its count. */
  lemma LedgerAfterWrite(db: Db, t: seq<Booking>, tourId: Id, tour: Plan, n: int, freed: int)
    requires LedgerOk(db)
    requires Wellformed(db.(tourBookings := t)) && TravelersPositive(t)
    requires tour in db.plans && tour.id == tourId
    requires freed >= 0 && BookedSeats(db.tourBookings, tourId) + n <= Capacity(tour)
    requires BookedSeats(t, tourId) <= BookedSeats(db.tourBookings, tourId) - freed + n
    requires forall x :: x != tourId ==> BookedSeats(t, x) == BookedSeats(db.tourBookings, x)
    ensures LedgerOk(db.(tourBookings := t))
  {
    forall i | 0 <= i < |db.plans| ensures BookedSeats(t, db.plans[i].id) <= Capacity(db.plans[i]) {
      if db.plans[i].id == tourId {
        var j :| 0 <= j < |db.plans| && db.plans[j] == tour;
        UniqueLookup(db.plans, PlanId, i, j);
      }
    }
  }

  // ------------------------------------------------------ custom-trip booking

  const CUSTOM_TRIP_NOT_FOUND: string := "Custom trip not found."
  const NO_PERMISSION_TO_BOOK: string := "You do not have permission to book this trip."
  const CUSTOM_TRIP_BOOKED: string := "Your custom trip has been successfully reserved!"
  const CUSTOM_BOOKING_FAILED: string := "An error occurred while reserving your trip."

  /** `SUM(price_minor)` over the trip's accommodations: NULL prices are
      skipped, and an empty sum reads as 0. */
  function AccommodationsTotal(rows: seq<Accommodation>, trip: Id): int {
    if |rows| == 0 then 0
    else (if rows[0].planId == trip then OrZero(rows[0].priceMinor) else 0) + AccommodationsTotal(rows[1..], trip)
  }

  /** `SUM(price_minor)` over the trip's flights. */
  function FlightsTotal(rows: seq<Flight>, trip: Id): int {
    if |rows| == 0 then 0
    else (if rows[0].planId == trip then OrZero(rows[0].priceMinor) else 0) + FlightsTotal(rows[1..], trip)
  }

  /** Accommodation total plus flight total per traveller. */
  function CustomTripPrice(db: Db, trip: Id, n: int): int {
    AccommodationsTotal(db.accommodations, trip) + FlightsTotal(db.flights, trip) * n
  }

  /** The price reads the trip's own accommodation and flight rows and
      nothing else: the same database cut down to those rows prices the same. */
  lemma CustomTripPriceOwnRows(db: Db, trip: Id, n: int)
    ensures CustomTripPrice(db, trip, n)
         == CustomTripPrice(db.(accommodations := Filter(db.accommodations, (a: Accommodation) => a.planId == trip),
                                flights := Filter(db.flights, (f: Flight) => f.planId == trip)), trip, n)
  {
    AccommodationsTotalOwn(db.accommodations, trip);
    FlightsTotalOwn(db.flights, trip);
  }

  lemma {:induction false} AccommodationsTotalOwn(rows: seq<Accommodation>, trip: Id)
    ensures AccommodationsTotal(rows, trip) == AccommodationsTotal(Filter(rows, (a: Accommodation) => a.planId == trip), trip)
  {
    if |rows| > 0 {
      var p := (a: Accommodation) => a.planId == trip;
      var rest := Filter(rows[1..], p);
      AccommodationsTotalOwn(rows[1..], trip);
      if p(rows[0]) {
        assert Filter(rows, p) == [rows[0]] + rest;
        assert ([rows[0]] + rest)[1..] == rest;
      } else {
        assert Filter(rows, p) == rest;
      }
    }
  }

  lemma {:induction false} FlightsTotalOwn(rows: seq<Flight>, trip: Id)
    ensures FlightsTotal(rows, trip) == FlightsTotal(Filter(rows, (f: Flight) => f.planId == trip), trip)
  {
    if |rows| > 0 {
      var p := (f: Flight) => f.planId == trip;
      var rest := Filter(rows[1..], p);
      FlightsTotalOwn(rows[1..], trip);
      if p(rows[0]) {
        assert Filter(rows, p) == [rows[0]] + rest;
        assert ([rows[0]] + rest)[1..] == rest;
      } else {
        assert Filter(rows, p) == rest;
      }
    }
  }

  /** A new accommodation adds its own price to its trip's total. */
  lemma {:induction false} AccommodationsTotalAppend(rows: seq<Accommodation>, a: Accommodation, trip: Id)
    ensures AccommodationsTotal(rows + [a], trip)
         == AccommodationsTotal(rows, trip) + (if a.planId == trip then OrZero(a.priceMinor) else 0)
  {
    if |rows| > 0 {
      assert (rows + [a])[1..] == rows[1..] + [a];
      AccommodationsTotalAppend(rows[1..], a, trip);
    }
  }

  /** A new flight adds its own price to its trip's total. */
  lemma {:induction false} FlightsTotalAppend(rows: seq<Flight>, f: Flight, trip: Id)
    ensures FlightsTotal(rows + [f], trip) == FlightsTotal(rows, trip) + (if f.planId == trip then OrZero(f.priceMinor) else 0)
  {
    if |rows| > 0 {
      assert (rows + [f])[1..] == rows[1..] + [f];
      FlightsTotalAppend(rows[1..], f, trip);
    }
  }

  /** The body of the custom-trip transaction. The caller is the token's own
      id; there is no capacity check, and an existing booking is overwritten
      whatever its status. */
  function BookCustomTripTx(db: Db, caller: Id, req: BookingRequest, now: Time, freshId: Id): (tx: Tx<Reply<Booking>>)
    ensures tx.Commit? ==> tx.db == db.(customBookings := tx.db.customBookings)
    ensures tx.Commit? && tx.value.Failure? ==> tx.db == db && tx.value.status in {NOT_FOUND, FORBIDDEN}
    ensures tx.Commit? && tx.value.Success? ==> tx.value.status == CREATED && tx.value.data in tx.db.customBookings
    ensures tx.Commit? && tx.value.Success? ==>
      && tx.value.data.userId == caller && tx.value.data.planId == req.planId
      && tx.value.data.numTravelers == req.numTravelers && tx.value.data.status == Some(CONFIRMED)
      && tx.value.data.totalPriceMinor == CustomTripPrice(db, req.planId, req.numTravelers)
      && tx.value.data.bookedAt == now
    ensures tx.Commit? ==> |db.customBookings| <= |tx.db.customBookings| <= |db.customBookings| + 1
    ensures tx.Commit? ==> forall i :: 0 <= i < |db.customBookings| ==> tx.db.customBookings[i].id == db.customBookings[i].id
  {
    match Permissions.Authorize(db, req.planId, caller)
    case NoTrip => Commit(db, Failure(NOT_FOUND, CUSTOM_TRIP_NOT_FOUND))
    case Denied => Commit(db, Failure(FORBIDDEN, NO_PERMISSION_TO_BOOK))
    case Granted(_) =>
      var total := CustomTripPrice(db, req.planId, req.numTravelers);
      match FindBooking(db.customBookings, caller, req.planId)
      case Some(k) =>
        var row := Rebooked(db.customBookings[k], req.numTravelers, total, now);
        (match UpdateBooking(db.customBookings, k, row, PlanIds(db))
         case Err(e) => Abort(e)
         case Ok(t) =>
           assert t[k] == row;
           Commit(db.(customBookings := t), Success(CREATED, CUSTOM_TRIP_BOOKED, row)))
      case None =>
        var row := Booking(freshId, caller, req.planId, req.numTravelers, total, Some(CONFIRMED), now);
        match InsertBooking(db.customBookings, row, PlanIds(db))
        case Err(e) => Abort(e)
        case Ok(t) => Commit(db.(customBookings := t), Success(CREATED, CUSTOM_TRIP_BOOKED, row))
  }

  /** POST `/bookings/custom-trip`. Every failed statement is a 500 and rolls
      the transaction back. */
  function BookCustomTrip(db: Db, caller: Id, body: BookingBody, now: Time, freshId: Id): (s: Step<Booking>)
    ensures s.reply.Failure? ==> s.db == db
    ensures s.db == db.(customBookings := s.db.customBookings)
    ensures s.reply.status == BAD_REQUEST <==> ValidateBooking(body).None?
    ensures s.reply.Success? ==>
      && s.reply.status == CREATED && s.reply.data in s.db.customBookings
      && s.reply.data.userId == caller && s.reply.data.planId == ValidateBooking(body).value.planId
      && s.reply.data.status == Some(CONFIRMED)
      && s.reply.data.totalPriceMinor == CustomTripPrice(db, s.reply.data.planId, s.reply.data.numTravelers)
    ensures |db.customBookings| <= |s.db.customBookings| <= |db.customBookings| + 1
  {
    match ValidateBooking(body)
    case None => Step(db, Failure(BAD_REQUEST, INVALID_BODY))
    case Some(req) =>
      match BookCustomTripTx(db, caller, req, now, freshId)
      case Commit(r, reply) => Step(r, reply)
      case Abort(_) => Step(db, Failure(SERVER_ERROR, CUSTOM_BOOKING_FAILED))
  }

  /** Who may book a custom trip: 404 exactly when no plan has the id, 403
      exactly when the plan exists and the caller neither owns it nor
      collaborates on it. The plan type is not looked at. */
  lemma BookCustomTripAccess(db: Db, caller: Id, body: BookingBody, now: Time, freshId: Id, req: BookingRequest)
    requires ValidateBooking(body) == Some(req)
    ensures BookCustomTrip(db, caller, body, now, freshId).reply.status == NOT_FOUND <==> req.planId !in PlanIds(db)
    ensures BookCustomTrip(db, caller, body, now, freshId).reply.status == FORBIDDEN
        <==> (req.planId in PlanIds(db) && Permissions.FindPlan(db, req.planId).value.ownerId != Some(caller)
             && !Permissions.IsCollaborator(db, req.planId, caller))
  {
  }

  /** An existing booking of the trip, even a confirmed one, is overwritten in
      place with the new count, the current price and status 'confirmed'. */
  lemma BookCustomTripOverwrite(db: Db, caller: Id, body: BookingBody, now: Time, freshId: Id,
                                req: BookingRequest, k: nat)
    requires ValidateBooking(body) == Some(req)
    requires Permissions.Authorize(db, req.planId, caller).Granted?
    requires UniqueBy(db.customBookings, BookingKey)
    requires k < |db.customBookings| && BookingKey(db.customBookings[k]) == (caller, req.planId)
    requires BookingRowOk(Rebooked(db.customBookings[k], req.numTravelers, CustomTripPrice(db, req.planId, req.numTravelers), now))
    ensures var row := Rebooked(db.customBookings[k], req.numTravelers, CustomTripPrice(db, req.planId, req.numTravelers), now);
      BookCustomTrip(db, caller, body, now, freshId)
        == Step(db.(customBookings := db.customBookings[k := row]), Success(CREATED, CUSTOM_TRIP_BOOKED, row))
  {
    FindBookingUnique(db.customBookings, caller, req.planId, k);
  }

  /** Every outcome of a custom-trip booking keeps the ledger invariant. */
  lemma BookCustomTripKeepsLedger(db: Db, caller: Id, body: BookingBody, now: Time, freshId: Id)
    requires LedgerOk(db)
    ensures LedgerOk(BookCustomTrip(db, caller, body, now, freshId).db)
  {
    if ValidateBooking(body).Some? {
      BookCustomTripTxKeepsLedger(db, caller, ValidateBooking(body).value, now, freshId);
    }
  }

  /** The transaction alone: a committed outcome keeps the ledger. */
  lemma BookCustomTripTxKeepsLedger(db: Db, caller: Id, req: BookingRequest, now: Time, freshId: Id)
    requires LedgerOk(db) && req.numTravelers >= 1
    ensures BookCustomTripTx(db, caller, req, now, freshId).Commit? ==> LedgerOk(BookCustomTripTx(db, caller, req, now, freshId).db)
  {
    var tx := BookCustomTripTx(db, caller, req, now, freshId);
    if tx.Commit? && tx.db != db {
      var c := db.customBookings;
      var t := tx.db.customBookings;
      var row := tx.value.data;
      match FindBooking(c, caller, req.planId)
      case Some(k) =>
        assert t == c[k := row];
        CustomWriteKeepsLedger(db, t);
      case None =>
        assert t == c + [row];
        CustomWriteKeepsLedger(db, t);
    }
  }

  /** The custom-trip table takes no part in the capacity rule: a new table
      that keeps its constraints and positive traveller counts keeps the
      ledger. */
  lemma CustomWriteKeepsLedger(db: Db, t: seq<Booking>)
    requires LedgerOk(db)
    requires BookingTableOk(t, PlanIds(db)) && TravelersPositive(t)
    ensures LedgerOk(db.(customBookings := t))
  {
  }

  // -------------------------------------------------------------- cancelling

  datatype BookingKind = TourKind | CustomKind

  const INVALID_TYPE: string := "Invalid booking type."
  const BOOKING_NOT_FOUND: string := "Booking not found."
  const ALREADY_CANCELLED: string := "Booking already cancelled."
  const BOOKING_CANCELLED: string := "Booking cancelled successfully."
  const CANCEL_FAILED: string := "Failed to cancel booking."

  /** The `:type` path segment. */
  function ParseKind(s: string): (r: Option<BookingKind>)
    ensures r == Some(TourKind) <==> s == "tour"
    ensures r == Some(CustomKind) <==> s == "custom"
  {
    if s == "tour" then Some(TourKind) else if s == "custom" then Some(CustomKind) else None
  }

  function TableOf(db: Db, kind: BookingKind): seq<Booking> {
    if kind == TourKind then db.tourBookings else db.customBookings
  }

  function WithTable(db: Db, kind: BookingKind, t: seq<Booking>): Db {
    if kind == TourKind then db.(tourBookings := t) else db.(customBookings := t)
  }

  function CancelRow(b: Booking): Booking {
    b.(status := Some(CANCELLED))
  }

  /** `update({booking_status: 'cancelled'}).where({id})`. */
  function CancelRows(t: seq<Booking>, id: Id): (r: seq<Booking>)
    ensures |r| == |t|
    ensures forall i :: 0 <= i < |t| ==> r[i] == (if t[i].id == id then CancelRow(t[i]) else t[i])
  {
    seq(|t|, i requires 0 <= i < |t| => if t[i].id == id then CancelRow(t[i]) else t[i])
  }

  /** Setting the status keeps every constraint of a booking table. */
  lemma CancelRowsOk(t: seq<Booking>, id: Id, plans: set<Id>)
    requires BookingTableOk(t, plans) && TravelersPositive(t)
    ensures BookingTableOk(CancelRows(t, id), plans) && TravelersPositive(CancelRows(t, id))
  {
    var r := CancelRows(t, id);
    assert forall i :: 0 <= i < |t| ==>
      BookingId(r[i]) == BookingId(t[i]) && BookingKey(r[i]) == BookingKey(t[i]) && BookingPlan(r[i]) == BookingPlan(t[i]);
    forall x | x in KeySet(r, BookingPlan) ensures x in plans {
      var i :| 0 <= i < |r| && BookingPlan(r[i]) == x;
      assert BookingPlan(t[i]) == x;
    }
  }

  /** Cancelling rows frees exactly their seats: every tour is left with the
      seats of the rows that kept their id, as if the cancelled rows had been
      deleted. */
  lemma {:induction false} CancelRowsSeats(t: seq<Booking>, id: Id, tour: Id)
    ensures BookedSeats(CancelRows(t, id), tour) == BookedSeats(Filter(t, (b: Booking) => b.id != id), tour)
  {
    if |t| > 0 {
      var p := (b: Booking) => b.id != id;
      var h := if p(t[0]) then [t[0]] else [];
      CancelledHoldsNoSeats();
      assert CancelRows(t, id)[1..] == CancelRows(t[1..], id);
      assert Filter(t, p) == h + Filter(t[1..], p);
      BookedSeatsConcat(h, Filter(t[1..], p), tour);
      CancelRowsSeats(t[1..], id, tour);
    }
  }

  /** Dropping rows never adds seats. */
  lemma {:induction false} FilterSeatsBound(t: seq<Booking>, p: Booking -> bool, tour: Id)
    requires TravelersPositive(t)
    ensures BookedSeats(Filter(t, p), tour) <= BookedSeats(t, tour)
  {
    if |t| > 0 {
      var h := if p(t[0]) then [t[0]] else [];
      assert Filter(t, p) == h + Filter(t[1..], p);
      BookedSeatsConcat(h, Filter(t[1..], p), tour);
      FilterSeatsBound(t[1..], p, tour);
    }
  }

  /** PATCH `/bookings/:type/:id/cancel`. The row is looked up by id and the
      caller's user id; a missing user id or an id that is not a uuid makes
      the query throw. Cancelling only ever sets the status. */
  function CancelBooking(db: Db, user: Option<Principal>, kindText: string, idText: string): (s: Step<Booking>)
    ensures s.reply.status == BAD_REQUEST <==> ParseKind(kindText).None?
    ensures s.db == db.(tourBookings := s.db.tourBookings, customBookings := s.db.customBookings)
    ensures |s.db.tourBookings| == |db.tourBookings| && |s.db.customBookings| == |db.customBookings|
    ensures forall i :: 0 <= i < |db.tourBookings| ==>
      s.db.tourBookings[i] in {db.tourBookings[i], CancelRow(db.tourBookings[i])}
    ensures forall i :: 0 <= i < |db.customBookings| ==>
      s.db.customBookings[i] in {db.customBookings[i], CancelRow(db.customBookings[i])}
    ensures s.reply.Success? ==> s.reply.status == OK && s.reply.data.status == Some(CANCELLED)
    ensures s.reply.Failure? ==> s.db == db
  {
    var userId := CallerId(db, user);
    match ParseKind(kindText)
    case None => Step(db, Failure(BAD_REQUEST, INVALID_TYPE))
    case Some(kind) =>
      var id := Uuid.DbParse(idText);
      if userId.None? || id.None? then Step(db, Failure(SERVER_ERROR, CANCEL_FAILED))
      else CancelIn(db, kind, userId.value, id.value)
  }

  /** The cancel once the table, the caller and the id are known: the lookup
      by id and caller, then the update by id alone. */
  function CancelIn(db: Db, kind: BookingKind, uid: Id, id: Id): (s: Step<Booking>)
    ensures s.db == db || s.db == WithTable(db, kind, CancelRows(TableOf(db, kind), id))
    ensures s.reply.status == NOT_FOUND <==>
      forall i :: 0 <= i < |TableOf(db, kind)| ==> !(TableOf(db, kind)[i].id == id && TableOf(db, kind)[i].userId == uid)
    ensures s.reply.Success? ==> s.reply.status == OK && s.reply.data.status == Some(CANCELLED)
    ensures s.reply.Failure? ==> s.db == db && s.reply == Failure(NOT_FOUND, BOOKING_NOT_FOUND)
  {
    var t := TableOf(db, kind);
    match FindFirst(t, (b: Booking) => b.id == id && b.userId == uid)
    case None => Step(db, Failure(NOT_FOUND, BOOKING_NOT_FOUND))
    case Some(k) =>
      if t[k].status == Some(CANCELLED) then Step(db, Success(OK, ALREADY_CANCELLED, t[k]))
      else
        var r := CancelRows(t, id);
        var j := FindFirst(t, (b: Booking) => b.id == id).value;
        Step(WithTable(db, kind, r), Success(OK, BOOKING_CANCELLED, r[j]))
  }

  /** Which cancel requests find a booking: with a valid type, a known caller
      and a uuid, the reply is 404 exactly when the table has no row with that
      id belonging to the caller. */
  lemma CancelFinds(db: Db, user: Option<Principal>, kindText: string, idText: string,
                    kind: BookingKind, uid: Id, id: Id)
    requires ParseKind(kindText) == Some(kind) && CallerId(db, user) == Some(uid) && Uuid.DbParse(idText) == Some(id)
    ensures CancelBooking(db, user, kindText, idText).reply.status == NOT_FOUND
        <==> forall i :: 0 <= i < |TableOf(db, kind)| ==> !(TableOf(db, kind)[i].id == id && TableOf(db, kind)[i].userId == uid)
  {
    assert CancelBooking(db, user, kindText, idText) == CancelIn(db, kind, uid, id);
  }

  /** What a first cancel does: with unique booking ids, cancelling a row of
      the caller that is not yet cancelled sets the status of that row, and
      of no other, to 'cancelled', and answers with the updated row. */
  lemma CancelOne(db: Db, user: Option<Principal>, kindText: string, idText: string,
                  kind: BookingKind, uid: Id, id: Id, k: nat)
    requires Wellformed(db)
    requires ParseKind(kindText) == Some(kind) && CallerId(db, user) == Some(uid) && Uuid.DbParse(idText) == Some(id)
    requires k < |TableOf(db, kind)| && TableOf(db, kind)[k].id == id && TableOf(db, kind)[k].userId == uid
    requires TableOf(db, kind)[k].status != Some(CANCELLED)
    ensures var t := TableOf(db, kind);
      CancelBooking(db, user, kindText, idText)
        == Step(WithTable(db, kind, t[k := CancelRow(t[k])]), Success(OK, BOOKING_CANCELLED, CancelRow(t[k])))
  {
    var t := TableOf(db, kind);
    assert BookingTableOk(t, PlanIds(db));
    assert CancelBooking(db, user, kindText, idText) == CancelIn(db, kind, uid, id);
    var f := FindFirst(t, (b: Booking) => b.id == id && b.userId == uid).value;
    UniqueLookup(t, BookingId, f, k);
    var j := FindFirst(t, (b: Booking) => b.id == id).value;
    UniqueLookup(t, BookingId, j, k);
    CancelRowsOne(t, id, k);
  }

  /** With unique ids, cancelling by id rewrites the one row with that id. */
  lemma CancelRowsOne(t: seq<Booking>, id: Id, k: nat)
    requires UniqueBy(t, BookingId) && k < |t| && t[k].id == id
    ensures CancelRows(t, id) == t[k := CancelRow(t[k])]
  {
    forall i | 0 <= i < |t| && i != k ensures t[i].id != id {
      if t[i].id == id {
        UniqueLookup(t, BookingId, i, k);
      }
    }
  }

  /** Cancelling twice is cancelling once: the second request finds the row
      already cancelled, answers 200 with it, and changes nothing. */
  lemma CancelIdempotent(db: Db, user: Option<Principal>, kindText: string, idText: string)
    requires Wellformed(db)
    requires CancelBooking(db, user, kindText, idText).reply.Success?
    ensures var s := CancelBooking(db, user, kindText, idText);
      var s2 := CancelBooking(s.db, user, kindText, idText);
      && s2.db == s.db
      && s2.reply == Success(OK, ALREADY_CANCELLED, s.reply.data)
  {
    var s := CancelBooking(db, user, kindText, idText);
    var kind := ParseKind(kindText).value;
    var uid := CallerId(db, user).value;
    var id := Uuid.DbParse(idText).value;
    var t := TableOf(db, kind);
    var p := (b: Booking) => b.id == id && b.userId == uid;
    assert s == CancelIn(db, kind, uid, id);
    var k := FindFirst(t, p).value;
    assert CallerId(s.db, user) == Some(uid);
    if t[k].status != Some(CANCELLED) {
      CancelOne(db, user, kindText, idText, kind, uid, id, k);
      var r := t[k := CancelRow(t[k])];
      assert TableOf(s.db, kind) == r;
      FindFirstAgree(t, r, p);
    }
    CancelAgain(s.db, user, kindText, idText, kind, uid, id, k);
  }

  /** A request that finds its row already cancelled changes nothing and
      answers with that row. */
  lemma CancelAgain(db: Db, user: Option<Principal>, kindText: string, idText: string,
                    kind: BookingKind, uid: Id, id: Id, k: nat)
    requires ParseKind(kindText) == Some(kind) && CallerId(db, user) == Some(uid) && Uuid.DbParse(idText) == Some(id)
    requires FindFirst(TableOf(db, kind), (b: Booking) => b.id == id && b.userId == uid) == Some(k)
    requires k < |TableOf(db, kind)| && TableOf(db, kind)[k].status == Some(CANCELLED)
    ensures CancelBooking(db, user, kindText, idText) == Step(db, Success(OK, ALREADY_CANCELLED, TableOf(db, kind)[k]))
  {
  }

  /** Every outcome of a cancel keeps the ledger invariant. */
  lemma CancelKeepsLedger(db: Db, user: Option<Principal>, kindText: string, idText: string)
    requires LedgerOk(db)
    ensures LedgerOk(CancelBooking(db, user, kindText, idText).db)
  {
    var s := CancelBooking(db, user, kindText, idText);
    if s.db != db {
      var kind := ParseKind(kindText).value;
      var id := Uuid.DbParse(idText).value;
      assert s.db == WithTable(db, kind, CancelRows(TableOf(db, kind), id));
      CancelRowsKeepLedger(db, kind, id);
    }
  }

  /** Cancelling every row with an id, in either table, keeps the ledger. */
  lemma CancelRowsKeepLedger(db: Db, kind: BookingKind, id: Id)
    requires LedgerOk(db)
    ensures LedgerOk(WithTable(db, kind, CancelRows(TableOf(db, kind), id)))
  {
    var t := TableOf(db, kind);
    CancelRowsOk(t, id, PlanIds(db));
    if kind == TourKind {
      forall x ensures BookedSeats(CancelRows(t, id), x) <= BookedSeats(t, x) {
        CancelRowsSeats(t, id, x);
        FilterSeatsBound(t, (b: Booking) => b.id != id, x);
      }
    }
  }

  // ------------------------------------------------------------ my bookings

  const BOOKINGS_RETRIEVED: string := "Your bookings have been retrieved successfully."
  const BOOKINGS_FAILED: string := "Failed to retrieve your bookings."

  /** One entry of the listing: the booking joined (left join) with its plan. */
  datatype BookingView = BookingView(
    kind: BookingKind,
    bookingId: Id,
    planId: Id,
    tripName: Option<string>,
    bookedAt: Time,
    planType: Option<string>,
    coverImageUrl: Option<string>,
    priceMinor: Option<int>,
    currencyCode: Option<string>,
    totalPriceMinor: int,
    status: Option<string>)

  function View(db: Db, kind: BookingKind, b: Booking): BookingView {
    match Permissions.FindPlan(db, b.planId)
    case None => BookingView(kind, b.id, b.planId, None, b.bookedAt, None, None, None, None, b.totalPriceMinor, b.status)
    case Some(p) =>
      BookingView(kind, b.id, b.planId, Some(p.name), b.bookedAt, Some(p.planType), p.coverImageUrl,
                  p.priceMinor, p.currencyCode, b.totalPriceMinor, b.status)
  }

  function Views(db: Db, kind: BookingKind, rows: seq<Booking>): (r: seq<BookingView>)
    ensures |r| == |rows|
    ensures forall i :: 0 <= i < |rows| ==> r[i] == View(db, kind, rows[i])
  {
    seq(|rows|, i requires 0 <= i < |rows| => View(db, kind, rows[i]))
  }

  function OwnedBy(t: seq<Booking>, uid: Id): seq<Booking> {
    Filter(t, (b: Booking) => b.userId == uid)
  }

  /** The caller's tour bookings followed by their custom-trip bookings, in
      table order, before sorting. */
  function Unsorted(db: Db, uid: Id): seq<BookingView> {
    Views(db, TourKind, OwnedBy(db.tourBookings, uid)) + Views(db, CustomKind, OwnedBy(db.customBookings, uid))
  }

  /** The sort key of `(a, b) => new Date(b.booked_at) - new Date(a.booked_at)`:
      newest first. */
  function Newest(v: BookingView): int {
    -v.bookedAt
  }

  /** GET `/bookings/my-bookings`. */
  function MyBookings(db: Db, user: Option<Principal>): (s: Step<seq<BookingView>>)
    ensures s.db == db
    ensures s.reply.Success? <==> CallerId(db, user).Some?
    ensures s.reply.Failure? ==> s.reply == Failure(SERVER_ERROR, BOOKINGS_FAILED)
  {
    match CallerId(db, user)
    case None => Step(db, Failure(SERVER_ERROR, BOOKINGS_FAILED))
    case Some(uid) => Step(db, Success(OK, BOOKINGS_RETRIEVED, StableSort.Sort(Unsorted(db, uid), Newest)))
  }

  /** `v` lists one of the caller's bookings of its kind. */
  ghost predicate ListsOwnBooking(db: Db, uid: Id, v: BookingView) {
    exists i :: 0 <= i < |TableOf(db, v.kind)| && TableOf(db, v.kind)[i].userId == uid
      && v == View(db, v.kind, TableOf(db, v.kind)[i])
  }

  /** Every booking of the caller, of either kind, is in the merged list. */
  lemma UnsortedComplete(db: Db, uid: Id, kind: BookingKind, i: nat)
    requires i < |TableOf(db, kind)| && TableOf(db, kind)[i].userId == uid
    ensures View(db, kind, TableOf(db, kind)[i]) in Unsorted(db, uid)
  {
    OwnedViewComplete(db, uid, kind, i);
    var tv := Views(db, TourKind, OwnedBy(TableOf(db, TourKind), uid));
    var cv := Views(db, CustomKind, OwnedBy(TableOf(db, CustomKind), uid));
    assert Unsorted(db, uid) == tv + cv;
  }

  /** A booking of the caller appears in the listing of its own kind. */
  lemma OwnedViewComplete(db: Db, uid: Id, kind: BookingKind, i: nat)
    requires i < |TableOf(db, kind)| && TableOf(db, kind)[i].userId == uid
    ensures View(db, kind, TableOf(db, kind)[i]) in Views(db, kind, OwnedBy(TableOf(db, kind), uid))
  {
    var o := OwnedBy(TableOf(db, kind), uid);
    assert TableOf(db, kind)[i] in o;
    var m :| 0 <= m < |o| && o[m] == TableOf(db, kind)[i];
    assert Views(db, kind, o)[m] == View(db, kind, o[m]);
  }

  /** An entry of one kind's listing is one of the caller's bookings. */
  lemma OwnedViewSound(db: Db, uid: Id, kind: BookingKind, n: nat)
    requires n < |OwnedBy(TableOf(db, kind), uid)|
    ensures ListsOwnBooking(db, uid, Views(db, kind, OwnedBy(TableOf(db, kind), uid))[n])
  {
    var o := OwnedBy(TableOf(db, kind), uid);
    var v := View(db, kind, o[n]);
    assert v.kind == kind;
    assert o[n] in TableOf(db, kind) && o[n].userId == uid;
    var i :| 0 <= i < |TableOf(db, kind)| && TableOf(db, kind)[i] == o[n];
  }

  /** Everything in the merged list is one of the caller's bookings. */
  lemma UnsortedSound(db: Db, uid: Id, v: BookingView)
    requires v in Unsorted(db, uid)
    ensures ListsOwnBooking(db, uid, v)
  {
    var tv := Views(db, TourKind, OwnedBy(TableOf(db, TourKind), uid));
    var cv := Views(db, CustomKind, OwnedBy(TableOf(db, CustomKind), uid));
    assert v in tv + cv;
    if v in tv {
      var m :| 0 <= m < |tv| && tv[m] == v;
      OwnedViewSound(db, uid, TourKind, m);
    } else {
      var m :| 0 <= m < |cv| && cv[m] == v;
      OwnedViewSound(db, uid, CustomKind, m);
    }
  }

  /** The listing is newest first, holds exactly the caller's bookings of
      both kinds, cancelled ones included, and keeps bookings made at the
      same moment in their merged order (tour bookings first). */
  lemma MyBookingsListing(db: Db, user: Option<Principal>, uid: Id)
    requires CallerId(db, user) == Some(uid)
    ensures MyBookings(db, user).reply.Success?
    ensures var data := MyBookings(db, user).reply.data;
      && (forall i, j :: 0 <= i < j < |data| ==> data[i].bookedAt >= data[j].bookedAt)
      && multiset(data) == multiset(Unsorted(db, uid))
      && (forall k :: StableSort.WithKey(data, Newest, k) == StableSort.WithKey(Unsorted(db, uid), Newest, k))
    ensures var data := MyBookings(db, user).reply.data;
      forall kind, i :: 0 <= i < |TableOf(db, kind)| && TableOf(db, kind)[i].userId == uid ==>
        View(db, kind, TableOf(db, kind)[i]) in data
    ensures forall v :: v in MyBookings(db, user).reply.data ==> ListsOwnBooking(db, uid, v)
  {
    var u := Unsorted(db, uid);
    var data := MyBookings(db, user).reply.data;
    StableSort.SortCorrect(u, Newest);
    forall kind, i | 0 <= i < |TableOf(db, kind)| && TableOf(db, kind)[i].userId == uid
      ensures View(db, kind, TableOf(db, kind)[i]) in data
    {
      UnsortedComplete(db, uid, kind, i);
      assert View(db, kind, TableOf(db, kind)[i]) in multiset(data);
    }
    forall v | v in data ensures ListsOwnBooking(db, uid, v) {
      assert v in multiset(u);
      UnsortedSound(db, uid, v);
    }
  }
}
