/** The migration that removes duplicate travel plans. Plans are grouped by
    (name, start date, price, duration, capacity), with NULL grouped with
    NULL; in every group of two or more rows the row with the least id is
    kept and the rest are deleted, and a unique index on the five columns is
    created. Rolling the migration back drops the index and nothing else. */
module PlanDedupe {
  import opened Common
  import opened Schema
  import opened Ledger

  /** The grouping columns. `Option` equality makes NULL equal to NULL, as
      GROUP BY does. */
  datatype PlanKey = PlanKey(
    name: string, startDate: Option<string>, priceMinor: Option<int>, durationDays: Option<int>, capacity: Option<int>)

  function KeyOf(p: Plan): PlanKey {
    PlanKey(p.name, p.startDate, p.priceMinor, p.durationDays, p.capacity)
  }

  /** The rows of one group, in table order. */
  function Group(t: seq<Plan>, k: PlanKey): seq<Plan> {
    Filter(t, (p: Plan) => KeyOf(p) == k)
  }

  /** `(ARRAY_AGG(id ORDER BY id))[1]`: the least id of a group. */
  function MinId(ps: seq<Plan>): (m: Id)
    requires |ps| > 0
    ensures exists i :: 0 <= i < |ps| && ps[i].id == m
    ensures forall i :: 0 <= i < |ps| ==> m <= ps[i].id
  {
    if |ps| == 1 then ps[0].id
    else
      var m := MinId(ps[1..]);
      assert forall i :: 1 <= i < |ps| ==> ps[i] == ps[1..][i - 1];
      if ps[0].id <= m then ps[0].id else m
  }

  /** A row is deleted when its group has more than one row (`HAVING
      COUNT(*) > 1`) and its id is not the group's least. */
  predicate Survives(t: seq<Plan>, p: Plan) {
    var g := Group(t, KeyOf(p));
    |g| <= 1 || p.id == MinId(g)
  }

  /** The delete step of `up`, on the rows of `travel_plans`. */
  function Up(t: seq<Plan>): seq<Plan> {
    Filter(t, (p: Plan) => Survives(t, p))
  }

  /** Whether a row stays is decided by its group alone: it stays exactly
      when it has the least id of its group, and a row alone in its group
      always stays. */
  lemma UpMembership(t: seq<Plan>, p: Plan)
    requires p in t
    ensures |Group(t, KeyOf(p))| >= 1
    ensures p in Up(t) <==> p.id == MinId(Group(t, KeyOf(p)))
    ensures |Group(t, KeyOf(p))| == 1 ==> p in Up(t)
  {
    InGroup(t, p);
    SurvivesMin(t, p);
    FilterMember(t, (q: Plan) => Survives(t, q), p);
  }

  lemma InGroup(t: seq<Plan>, p: Plan)
    requires p in t
    ensures p in Group(t, KeyOf(p))
  {
    FilterMember(t, (q: Plan) => KeyOf(q) == KeyOf(p), p);
  }

  lemma SurvivesMin(t: seq<Plan>, p: Plan)
    requires p in Group(t, KeyOf(p))
    ensures Survives(t, p) <==> p.id == MinId(Group(t, KeyOf(p)))
  {
    var g := Group(t, KeyOf(p));
    if |g| <= 1 {
      var i :| 0 <= i < |g| && g[i] == p;
    }
  }

  /** In a table with a primary key, two rows of a group that both have the
      group's least id are the same row. */
  lemma SameMinSameRow(t: seq<Plan>, i: nat, j: nat)
    requires UniqueBy(t, PlanId)
    requires i < |t| && j < |t| && KeyOf(t[i]) == KeyOf(t[j])
    requires t[i].id == MinId(Group(t, KeyOf(t[i]))) && t[j].id == MinId(Group(t, KeyOf(t[j])))
    ensures i == j
  {
    UniqueLookup(t, PlanId, i, j);
  }

  /** After `up`, no two rows share the five grouping columns. */
  lemma UpKeysUnique(t: seq<Plan>)
    requires UniqueBy(t, PlanId)
    ensures UniqueBy(Up(t), KeyOf)
  {
    var u := Up(t);
    UniqueFilter(t, (p: Plan) => Survives(t, p), PlanId);
    forall a, b | 0 <= a < b < |u| ensures KeyOf(u[a]) != KeyOf(u[b]) {
      if KeyOf(u[a]) == KeyOf(u[b]) {
        UpMembership(t, u[a]);
        UpMembership(t, u[b]);
      }
    }
  }

  /** Every group keeps exactly its least-id row: no key disappears. */
  lemma UpKeepsEveryKey(t: seq<Plan>, p: Plan)
    requires p in t
    ensures exists q :: q in Up(t) && KeyOf(q) == KeyOf(p) && q.id == MinId(Group(t, KeyOf(p))) && q.id <= p.id
  {
    var g := Group(t, KeyOf(p));
    FilterMember(t, (q: Plan) => KeyOf(q) == KeyOf(p), p);
    var pi :| 0 <= pi < |g| && g[pi] == p;
    var i :| 0 <= i < |g| && g[i].id == MinId(g);
    var q := g[i];
    assert q in t && KeyOf(q) == KeyOf(p);
    UpMembership(t, q);
  }

  /** A table unique on a key has at most one row per key. */
  lemma {:induction false} UniqueGroup(t: seq<Plan>, k: PlanKey)
    requires UniqueBy(t, KeyOf)
    ensures |Group(t, k)| <= 1
  {
    if |t| > 0 {
      UniqueBy1(t, KeyOf);
      UniqueGroup(t[1..], k);
      if KeyOf(t[0]) == k {
        forall j | 0 <= j < |t[1..]| ensures KeyOf(t[1..][j]) != k {
          assert t[1..][j] == t[j + 1];
        }
        FilterNone(t[1..], (p: Plan) => KeyOf(p) == k);
      }
    }
  }

  /** A table without duplicate groups is left as it is. */
  lemma UpNoDuplicates(t: seq<Plan>)
    requires UniqueBy(t, KeyOf)
    ensures Up(t) == t
  {
    forall i | 0 <= i < |t| ensures Survives(t, t[i]) {
      UniqueGroup(t, KeyOf(t[i]));
    }
    FilterAllKept(t, (p: Plan) => Survives(t, p));
  }

  /** Running the delete step again deletes nothing. */
  lemma UpIdempotent(t: seq<Plan>)
    requires UniqueBy(t, PlanId)
    ensures Up(Up(t)) == Up(t)
  {
    UpKeysUnique(t);
    UpNoDuplicates(Up(t));
  }

  // ------------------------------------------------------------ index and down

  /** The table with the state of `travel_plans_unique_idx`. */
  datatype PlansTable = PlansTable(rows: seq<Plan>, uniqueIndex: bool)

  function MigrateUp(s: PlansTable): PlansTable {
    PlansTable(Up(s.rows), true)
  }

  /** `DROP INDEX IF EXISTS`: the rows stay as they are. */
  function MigrateDown(s: PlansTable): PlansTable {
    s.(uniqueIndex := false)
  }

  /** Rolling back restores no deleted row: up then down gives the table back
      exactly when it had no duplicate groups. */
  lemma DownRestoresNothing(s: PlansTable)
    requires UniqueBy(s.rows, PlanId)
    ensures MigrateDown(MigrateUp(s)).rows == Up(s.rows)
    ensures !MigrateDown(MigrateUp(s)).uniqueIndex
    ensures MigrateDown(MigrateUp(s)).rows == s.rows <==> UniqueBy(s.rows, KeyOf)
  {
    UpKeysUnique(s.rows);
    if UniqueBy(s.rows, KeyOf) {
      UpNoDuplicates(s.rows);
    }
  }

  /** Two rows the unique index refuses together: a unique index treats NULL
      as distinct from every value, so only rows whose five columns are all
      non-NULL and equal clash. */
  predicate IndexConflict(p: Plan, q: Plan) {
    && KeyOf(p) == KeyOf(q)
    && p.startDate.Some? && p.priceMinor.Some? && p.durationDays.Some? && p.capacity.Some?
  }

  /** After `up`, the index can be built: no two remaining rows clash. */
  lemma UpSatisfiesIndex(t: seq<Plan>)
    requires UniqueBy(t, PlanId)
    ensures forall a, b :: 0 <= a < b < |Up(t)| ==> !IndexConflict(Up(t)[a], Up(t)[b])
  {
    UpKeysUnique(t);
  }

  /** The index does not stop a new copy of a plan that has a NULL grouping
      column, although the delete step would group the two together. */
  lemma IndexAdmitsNullCopy(p: Plan, otherId: Id)
    requires p.startDate.None? && otherId != p.id
    ensures !IndexConflict(p, p.(id := otherId))
    ensures Group([p, p.(id := otherId)], KeyOf(p)) == [p, p.(id := otherId)]
  {
    var q := p.(id := otherId);
    assert [p, q][1..] == [q];
    assert [q][1..] == [];
    assert Group([q], KeyOf(p)) == [q] + Group([], KeyOf(p));
  }

  // ------------------------------------------------------------ cascade

  /** The ids of a list of plans, in order. */
  function IdsOf(s: seq<Plan>): (r: seq<Id>)
    ensures |r| == |s| && forall i :: 0 <= i < |s| ==> r[i] == s[i].id
  {
    seq(|s|, i requires 0 <= i < |s| => s[i].id)
  }

  lemma IdsOfFilter(t: seq<Plan>, f: Plan -> bool)
    ensures forall p :: p in t && f(p) ==> p.id in IdsOf(Filter(t, f))
    ensures forall x :: x in IdsOf(Filter(t, f)) ==> exists p :: p in t && f(p) && p.id == x
  {
    var d := Filter(t, f);
    forall p | p in t && f(p) ensures p.id in IdsOf(d) {
      FilterMember(t, f, p);
      var i :| 0 <= i < |d| && d[i] == p;
      assert IdsOf(d)[i] == p.id;
    }
  }

  /** The ids of the rows the delete step removes, in table order. */
  function RemovedIds(t: seq<Plan>): (r: seq<Id>)
    ensures forall p :: p in t && !Survives(t, p) ==> p.id in r
    ensures forall x :: x in r ==> exists p :: p in t && !Survives(t, p) && p.id == x
  {
    var gone := (p: Plan) => !Survives(t, p);
    IdsOfFilter(t, gone);
    IdsOf(Filter(t, gone))
  }

  /** Each deleted plan takes its bookings, collaborators, invitations and
      other dependent rows with it. */
  function DeletePlans(db: Db, ids: seq<Id>): Db
    decreases |ids|
  {
    if |ids| == 0 then db else DeletePlans(DeletePlan(db, ids[0]), ids[1..])
  }

  /** `up` on the whole database. */
  function UpDb(db: Db): Db {
    DeletePlans(db, RemovedIds(db.plans))
  }

  function PlansOutside(t: seq<Plan>, ids: set<Id>): seq<Plan> {
    Filter(t, (p: Plan) => p.id !in ids)
  }

  lemma {:induction false} OutsideWithout(t: seq<Plan>, id: Id, ids: set<Id>)
    ensures PlansOutside(PlansWithout(t, id), ids) == PlansOutside(t, ids + {id})
  {
    if |t| > 0 {
      OutsideWithout(t[1..], id, ids);
      var h := if t[0].id != id then [t[0]] else [];
      assert PlansWithout(t, id) == h + PlansWithout(t[1..], id);
      FilterAppend(h, PlansWithout(t[1..], id), (p: Plan) => p.id !in ids);
    }
  }

  /** The plan rows after deleting the ids one after the other. */
  function PlansAfter(t: seq<Plan>, ids: seq<Id>): seq<Plan>
    decreases |ids|
  {
    if |ids| == 0 then t else PlansAfter(PlansWithout(t, ids[0]), ids[1..])
  }

  lemma {:induction false} DeletePlansPlans(db: Db, ids: seq<Id>)
    ensures DeletePlans(db, ids).plans == PlansAfter(db.plans, ids)
    decreases |ids|
  {
    if |ids| > 0 {
      var next := DeletePlan(db, ids[0]);
      assert next.plans == PlansWithout(db.plans, ids[0]);
      DeletePlansPlans(next, ids[1..]);
    }
  }

  lemma {:induction false} PlansAfterOutside(t: seq<Plan>, ids: seq<Id>, done: set<Id>)
    ensures PlansAfter(PlansOutside(t, done), ids) == PlansOutside(t, done + set x | x in ids)
    decreases |ids|
  {
    if |ids| > 0 {
      WithoutOutside(t, ids[0], done);
      assert PlansAfter(PlansOutside(t, done), ids) == PlansAfter(PlansOutside(t, done + {ids[0]}), ids[1..]);
      PlansAfterOutside(t, ids[1..], done + {ids[0]});
      assert done + {ids[0]} + (set x | x in ids[1..]) == done + set x | x in ids;
    } else {
      assert done + (set x | x in ids) == done;
    }
  }

  lemma {:induction false} WithoutOutside(t: seq<Plan>, id: Id, done: set<Id>)
    ensures PlansWithout(PlansOutside(t, done), id) == PlansOutside(t, done + {id})
  {
    if |t| > 0 {
      WithoutOutside(t[1..], id, done);
      var h := if t[0].id !in done then [t[0]] else [];
      assert PlansOutside(t, done) == h + PlansOutside(t[1..], done);
      FilterAppend(h, PlansOutside(t[1..], done), (p: Plan) => p.id != id);
    }
  }

  lemma {:induction false} OutsideNone(t: seq<Plan>)
    ensures PlansOutside(t, {}) == t
  {
    if |t| > 0 {
      OutsideNone(t[1..]);
      assert t == [t[0]] + t[1..];
    }
  }

  lemma DeletePlansRows(db: Db, ids: seq<Id>)
    ensures DeletePlans(db, ids).plans == PlansOutside(db.plans, set x | x in ids)
  {
    var none: set<Id> := {};
    var all := set x | x in ids;
    DeletePlansPlans(db, ids);
    OutsideNone(db.plans);
    PlansAfterOutside(db.plans, ids, none);
    assert none + all == all;
  }

  lemma {:induction false} FilterCongruent<T>(t: seq<T>, p: T -> bool, q: T -> bool)
    requires forall i :: 0 <= i < |t| ==> p(t[i]) == q(t[i])
    ensures Filter(t, p) == Filter(t, q)
  {
    if |t| > 0 {
      assert forall i :: 0 <= i < |t[1..]| ==> t[1..][i] == t[i + 1];
      FilterCongruent(t[1..], p, q);
    }
  }

  /** On the whole database, `up` leaves exactly the plans the delete step
      keeps. */
  lemma UpDbPlans(db: Db)
    requires UniqueBy(db.plans, PlanId)
    ensures UpDb(db).plans == Up(db.plans)
  {
    var t := db.plans;
    DeletePlansRows(db, RemovedIds(t));
    RemovedAgree(t);
    OutsideAgree(t, (set x | x in RemovedIds(t)), t);
  }

  lemma {:induction false} OutsideAgree(s: seq<Plan>, removed: set<Id>, t: seq<Plan>)
    requires forall i :: 0 <= i < |s| ==> (s[i].id !in removed <==> Survives(t, s[i]))
    ensures PlansOutside(s, removed) == Filter(s, (p: Plan) => Survives(t, p))
  {
    if |s| > 0 {
      assert forall i :: 0 <= i < |s[1..]| ==> s[1..][i] == s[i + 1];
      OutsideAgree(s[1..], removed, t);
    }
  }

  lemma RemovedAgree(t: seq<Plan>)
    requires UniqueBy(t, PlanId)
    ensures forall i :: 0 <= i < |t| ==> ((t[i].id !in set x | x in RemovedIds(t)) <==> Survives(t, t[i]))
  {
    forall i | 0 <= i < |t| ensures (t[i].id !in set x | x in RemovedIds(t)) <==> Survives(t, t[i]) {
      RemovedIff(t, i);
    }
  }

  /** With a primary key, a row's id is among the removed ones exactly when
      the row does not survive. */
  lemma RemovedIff(t: seq<Plan>, i: nat)
    requires UniqueBy(t, PlanId) && i < |t|
    ensures t[i].id in RemovedIds(t) <==> !Survives(t, t[i])
  {

  }

  lemma {:induction false} DeletePlansKeepsLedger(db: Db, ids: seq<Id>)
    requires LedgerOk(db)
    ensures LedgerOk(DeletePlans(db, ids))
    decreases |ids|
  {
    if |ids| > 0 {
      DeletePlanKeepsLedger(db, ids[0]);
      DeletePlansKeepsLedger(DeletePlan(db, ids[0]), ids[1..]);
    }
  }

  /** The migration keeps every table constraint and the seat ledger. */
  lemma UpDbKeepsLedger(db: Db)
    requires LedgerOk(db)
    ensures LedgerOk(UpDb(db))
  {
    DeletePlansKeepsLedger(db, RemovedIds(db.plans));
  }
}
