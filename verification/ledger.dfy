/** The seat ledger of the catalogue tours, and the invariant every handler
    keeps: the table constraints hold, every booking is for at least one
    traveller, and no plan has more active seats booked than its capacity. */
module Ledger {
  import opened Common
  import opened Schema

  /** A booking holds seats unless its lower-cased status is exactly
      'cancelled'; a NULL status holds seats
      (`COALESCE(LOWER(booking_status), '') != 'cancelled'`). */
  predicate HoldsSeats(status: Option<string>) {
    status.None? || ToLower(status.value) != CANCELLED
  }

  /** A status reads as cancelled exactly when it lower-cases to
      'cancelled': a row set to 'cancelled' takes no seats on any tour, nor
      do 'Cancelled' or 'CANCELLED', while the other spelling 'canceled' and
      a padded 'cancelled ' still hold theirs. */
  lemma CancelledHoldsNoSeats()
    ensures forall b: Booking, tour: Id :: b.status == Some(CANCELLED) ==> Seats(b, tour) == 0
    ensures !HoldsSeats(Some("Cancelled")) && !HoldsSeats(Some("CANCELLED"))
    ensures HoldsSeats(Some("canceled")) && HoldsSeats(Some("cancelled "))
  {
    assert ToLower(CANCELLED) == CANCELLED;
    assert ToLower("Cancelled") == CANCELLED;
    assert ToLower("CANCELLED") == CANCELLED;
  }

  /** The seats one booking row takes on a tour. */
  function Seats(b: Booking, tour: Id): int {
    if b.planId == tour && HoldsSeats(b.status) then b.numTravelers else 0
  }

  /** The sum of `num_travelers` over the tour's active bookings. */
  function BookedSeats(t: seq<Booking>, tour: Id): int {
    if |t| == 0 then 0 else Seats(t[0], tour) + BookedSeats(t[1..], tour)
  }

  /** `tour.capacity` as the comparison reads it: NULL compares as 0. */
  function Capacity(p: Plan): int {
    OrZero(p.capacity)
  }

  ghost predicate TravelersPositive(t: seq<Booking>) {
    forall i :: 0 <= i < |t| ==> t[i].numTravelers >= 1
  }

  ghost predicate WithinCapacity(plans: seq<Plan>, t: seq<Booking>) {
    forall i :: 0 <= i < |plans| ==> BookedSeats(t, plans[i].id) <= Capacity(plans[i])
  }

  ghost predicate LedgerOk(db: Db) {
    && Wellformed(db)
    && TravelersPositive(db.tourBookings)
    && TravelersPositive(db.customBookings)
    && WithinCapacity(db.plans, db.tourBookings)
  }

  lemma {:induction false} BookedSeatsConcat(a: seq<Booking>, b: seq<Booking>, tour: Id)
    ensures BookedSeats(a + b, tour) == BookedSeats(a, tour) + BookedSeats(b, tour)
  {
    if |a| == 0 {
      assert a + b == b;
    } else {
      assert (a + b)[1..] == a[1..] + b;
      BookedSeatsConcat(a[1..], b, tour);
    }
  }

  /** A new row adds its own seats and nothing else. */
  lemma BookedSeatsAppend(t: seq<Booking>, b: Booking, tour: Id)
    ensures BookedSeats(t + [b], tour) == BookedSeats(t, tour) + Seats(b, tour)
  {
    BookedSeatsConcat(t, [b], tour);
  }

  /** Replacing a row swaps its seats for the new row's. */
  lemma {:induction false} BookedSeatsUpdate(t: seq<Booking>, k: nat, b: Booking, tour: Id)
    requires k < |t|
    ensures BookedSeats(t[k := b], tour) == BookedSeats(t, tour) - Seats(t[k], tour) + Seats(b, tour)
  {
    if k > 0 {
      assert t[k := b][1..] == t[1..][k - 1 := b];
      BookedSeatsUpdate(t[1..], k - 1, b, tour);
    }
  }

  lemma {:induction false} BookedSeatsNonneg(t: seq<Booking>, tour: Id)
    requires TravelersPositive(t)
    ensures BookedSeats(t, tour) >= 0
  {
    if |t| > 0 {
      BookedSeatsNonneg(t[1..], tour);
    }
  }

  /** A tour no booking refers to has no seats booked. */
  lemma {:induction false} BookedSeatsUnreferenced(t: seq<Booking>, tour: Id)
    requires tour !in KeySet(t, BookingPlan)
    ensures BookedSeats(t, tour) == 0
  {
    if |t| > 0 {
      assert BookingPlan(t[0]) in KeySet(t, BookingPlan);
      assert KeySet(t[1..], BookingPlan) <= KeySet(t, BookingPlan) by {
        forall x | x in KeySet(t[1..], BookingPlan) ensures x in KeySet(t, BookingPlan) {
          var i :| 0 <= i < |t[1..]| && BookingPlan(t[1..][i]) == x;
          assert BookingPlan(t[i + 1]) == x;
        }
      }
      BookedSeatsUnreferenced(t[1..], tour);
    }
  }

  /** The cascade of a plan delete leaves the seats of every other tour as
      they were. */
  lemma {:induction false} BookedSeatsWithout(t: seq<Booking>, id: Id, tour: Id)
    requires tour != id
    ensures BookedSeats(BookingsWithout(t, id), tour) == BookedSeats(t, tour)
  {
    if |t| > 0 {
      var h := if t[0].planId != id then [t[0]] else [];
      assert BookingsWithout(t, id) == h + BookingsWithout(t[1..], id);
      BookedSeatsConcat(h, BookingsWithout(t[1..], id), tour);
      BookedSeatsWithout(t[1..], id, tour);
    }
  }

  /** A plan delete keeps the ledger invariant. */
  lemma DeletePlanKeepsLedger(db: Db, id: Id)
    requires LedgerOk(db)
    ensures LedgerOk(DeletePlan(db, id))
  {
    var r := DeletePlan(db, id);
    DeletePlanKeepsWellformed(db, id);
    FilterAll(db.tourBookings, (b: Booking) => b.planId != id, (b: Booking) => b.numTravelers >= 1);
    FilterAll(db.customBookings, (b: Booking) => b.planId != id, (b: Booking) => b.numTravelers >= 1);
    forall i | 0 <= i < |r.plans| ensures BookedSeats(r.tourBookings, r.plans[i].id) <= Capacity(r.plans[i]) {
      var p := r.plans[i];
      assert p in db.plans && p.id != id;
      var j :| 0 <= j < |db.plans| && db.plans[j] == p;
      BookedSeatsWithout(db.tourBookings, id, p.id);
    }
  }

  /** A write that leaves the plans and both booking tables alone keeps the
      ledger invariant as long as it keeps the table constraints. */
  lemma LedgerFrame(db: Db, r: Db)
    requires LedgerOk(db) && Wellformed(r)
    requires r.plans == db.plans && r.tourBookings == db.tourBookings && r.customBookings == db.customBookings
    ensures LedgerOk(r)
  {
  }

  /** A plan rewrite that keeps every row's id, owner and capacity in place. */
  ghost predicate SameShape(ps: seq<Plan>, qs: seq<Plan>) {
    |qs| == |ps| && forall i :: 0 <= i < |ps| ==>
      qs[i].id == ps[i].id && qs[i].ownerId == ps[i].ownerId && qs[i].capacity == ps[i].capacity
  }

  /** Rewriting plan columns the constraints and the ledger do not mention
      keeps the ledger invariant. */
  lemma SameShapeKeepsLedger(db: Db, qs: seq<Plan>)
    requires LedgerOk(db) && SameShape(db.plans, qs)
    ensures LedgerOk(db.(plans := qs))
  {
    var ps := db.plans;
    assert forall i :: 0 <= i < |ps| ==> PlanId(qs[i]) == PlanId(ps[i]);
    assert KeySet(qs, PlanId) == KeySet(ps, PlanId) by {
      forall x | x in KeySet(ps, PlanId) ensures x in KeySet(qs, PlanId) {
        var i :| 0 <= i < |ps| && PlanId(ps[i]) == x;
        assert PlanId(qs[i]) == x;
      }
    }
    assert forall i :: 0 <= i < |qs| ==> Capacity(qs[i]) == Capacity(ps[i]);
  }
}
