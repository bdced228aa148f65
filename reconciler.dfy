/**
 * The reconciliation tick every node runs: take or renew the global
 * lease, let the leader converge the ledger's row count on Desired, then
 * complete the in-flight rows of this node's own shard.
 */
module Reconciler {
  import opened Common
  import opened Decimal
  import opened Store
  import opened Shard
  import opened Lease
  import opened Handlers

  // ---------------------------------------------------------------------
  // Generated resource ids
  // ---------------------------------------------------------------------

  /** "global-auto-<nanos>-<i>": the id of the i-th stub of a scale-up. */
  function AutoIdText(nanos: nat, i: nat): (s: string)
    ensures IsAscii(s)
  {
    "global-auto-" + NatToString(nanos) + "-" + NatToString(i)
  }

  function AutoId(nanos: nat, i: nat): ResourceId
  {
    Ascii(AutoIdText(nanos, i))
  }

  lemma AsciiInjective(s: string, t: string)
    requires IsAscii(s) && IsAscii(t) && Ascii(s) == Ascii(t)
    ensures s == t
  {
    assert |s| == |Ascii(s)| == |t|;
    forall k | 0 <= k < |s|
      ensures s[k] == t[k]
    {
      assert Ascii(s)[k] == Ascii(t)[k];
    }
  }

  lemma NatToStringInjective(a: nat, b: nat)
    requires NatToString(a) == NatToString(b)
    ensures a == b
  {
    ValueOfNatToString(a);
    ValueOfNatToString(b);
  }

  /** A '-' cannot be mistaken for a digit: the digits before the first dash are no longer on one side. */
  lemma DashAfterDigits(a: string, b: string, c: string, d: string)
    requires AllDigits(c)
    requires a + "-" + b == c + "-" + d
    ensures |c| <= |a|
  {
    var x := a + "-" + b;
    assert x[|a|] == '-';
    assert forall k :: 0 <= k < |c| ==> x[k] == c[k];
  }

  /** So digits-dash-rest splits one way only. */
  lemma DigitsDashSplit(a: string, b: string, c: string, d: string)
    requires AllDigits(a) && AllDigits(c)
    requires a + "-" + b == c + "-" + d
    ensures a == c && b == d
  {
    DashAfterDigits(a, b, c, d);
    DashAfterDigits(c, d, a, b);
    var x := a + "-" + b;
    assert a == x[..|a|] && c == x[..|c|];
    assert b == x[|a| + 1..] && d == x[|c| + 1..];
  }

  /** Two stubs with different loop indexes never share an id, whatever the clock read. */
  lemma AutoIdInjective(n1: nat, i1: nat, n2: nat, i2: nat)
    requires AutoId(n1, i1) == AutoId(n2, i2)
    ensures n1 == n2 && i1 == i2
  {
    var s1, s2 := AutoIdText(n1, i1), AutoIdText(n2, i2);
    AsciiInjective(s1, s2);
    var p := "global-auto-";
    assert s1[|p|..] == NatToString(n1) + "-" + NatToString(i1);
    assert s2[|p|..] == NatToString(n2) + "-" + NatToString(i2);
    DigitsDashSplit(NatToString(n1), NatToString(i1), NatToString(n2), NatToString(i2));
    NatToStringInjective(n1, n2);
    NatToStringInjective(i1, i2);
  }

  // ---------------------------------------------------------------------
  // Global pass (leader only)
  // ---------------------------------------------------------------------

  /**
   * The store errors of one global pass, which the code logs or ignores but
   * never acts on: a failed Count leaves its variable at 0, a failed Find
   * leaves the surplus list empty, and a failed Create or Delete is skipped.
   * `createFails(i)` is the outcome of the i-th Create, `deleteFails(id)`
   * that of the Delete of row id.
   */
  datatype GlobalFaults = GlobalFaults(
    totalCountFails: bool,
    observedCountFails: bool,
    createFails: nat -> bool,
    surplusFindFails: bool,
    deleteFails: ResourceId -> bool)

  /** Every statement of the global pass succeeds. */
  ghost predicate GlobalHealthy(f: GlobalFaults)
  {
    !f.totalCountFails && !f.observedCountFails && !f.surplusFindFails
    && (forall k: nat :: !f.createFails(k))
    && (forall id: ResourceId :: !f.deleteFails(id))
  }

  /** totalCount as the pass reads it: 0 after a failed Count. */
  function TotalRead(l: Ledger, f: GlobalFaults): nat
  {
    if f.totalCountFails then 0 else |l|
  }

  /** observedCount as the pass reads it: 0 after a failed Count. */
  function ObservedRead(l: Ledger, f: GlobalFaults): nat
  {
    if f.observedCountFails then 0 else CountInState(l, Provisioned)
  }

  /** db.Create of a new row: refused, and only logged, when the id already exists. */
  function Insert(l: Ledger, id: ResourceId, row: Row): Ledger
  {
    if id in l then l else l[id := row]
  }

  /** The ids of a scale-up, one per iteration, given the clock reading of each iteration. */
  function StubIds(clock: nat -> nat): nat -> ResourceId
  {
    k => AutoId(clock(k), k)
  }

  ghost predicate Injective(newId: nat -> ResourceId)
  {
    forall a: nat, b: nat :: newId(a) == newId(b) ==> a == b
  }

  lemma StubIdsInjective(clock: nat -> nat)
    ensures Injective(StubIds(clock))
  {
    forall a: nat, b: nat | StubIds(clock)(a) == StubIds(clock)(b)
      ensures a == b
    {
      AutoIdInjective(clock(a), a, clock(b), b);
    }
  }

  /** The ids the first n iterations of the scale-up loop try to create. */
  function GeneratedIds(newId: nat -> ResourceId, n: nat): set<ResourceId>
  {
    if n == 0 then {} else GeneratedIds(newId, n - 1) + {newId(n - 1)}
  }

  /** The ids of those iterations whose Create statement did not fail. */
  function AttemptedIds(newId: nat -> ResourceId, fails: nat -> bool, n: nat): (ids: set<ResourceId>)
    ensures ids <= GeneratedIds(newId, n)
  {
    if n == 0 then {}
    else AttemptedIds(newId, fails, n - 1) + (if fails(n - 1) then {} else {newId(n - 1)})
  }

  /** No Create of the first n iterations fails. */
  predicate NoneFail(fails: nat -> bool, n: nat)
  {
    forall k :: 0 <= k < n ==> !fails(k)
  }

  /** An iteration's id differs from the ids of every earlier iteration. */
  lemma {:induction false} LaterIdsAreNew(newId: nat -> ResourceId, n: nat, m: nat)
    requires Injective(newId) && m >= n
    ensures newId(m) !in GeneratedIds(newId, n)
  {
    if n > 0 {
      LaterIdsAreNew(newId, n - 1, m);
    }
  }

  /**
   * The ledger after the first n iterations of the scale-up loop; the
   * k-th iteration creates newId(k), stamped with its clock reading clock(k),
   * unless its statement fails.
   */
  function ScaleUp(l: Ledger, newId: nat -> ResourceId, clock: nat -> nat, fails: nat -> bool, n: nat): (r: Ledger)
    ensures r.Keys == l.Keys + AttemptedIds(newId, fails, n)
    ensures forall id :: id in l ==> r[id] == l[id]
    ensures forall id :: id in r && id !in l ==> r[id].state == Provisioning
  {
    if n == 0 then l
    else
      var prev := ScaleUp(l, newId, clock, fails, n - 1);
      if fails(n - 1) then prev else Insert(prev, newId(n - 1), Row(Provisioning, clock(n - 1)))
  }

  /** The first n ids are pairwise distinct. */
  predicate DistinctIds(newId: nat -> ResourceId, n: nat)
  {
    n == 0 || (DistinctIds(newId, n - 1) && newId(n - 1) !in GeneratedIds(newId, n - 1))
  }

  lemma {:induction false} InjectiveIdsAreDistinct(newId: nat -> ResourceId, n: nat)
    requires Injective(newId)
    ensures DistinctIds(newId, n)
  {
    if n > 0 {
      InjectiveIdsAreDistinct(newId, n - 1);
      LaterIdsAreNew(newId, n - 1, n - 1);
    }
  }

  /** The ids of the first n iterations are all new to the ledger. */
  predicate FreshIds(l: Ledger, newId: nat -> ResourceId, n: nat)
  {
    forall k :: 0 <= k < n ==> newId(k) !in l
  }

  /** With every Create succeeding, the ids created are all the ids generated. */
  lemma {:induction false} AttemptedAll(newId: nat -> ResourceId, fails: nat -> bool, n: nat)
    requires NoneFail(fails, n)
    ensures AttemptedIds(newId, fails, n) == GeneratedIds(newId, n)
  {
    if n > 0 {
      AttemptedAll(newId, fails, n - 1);
    }
  }

  /** Pairwise distinct ids make n generated ids. */
  lemma {:induction false} GeneratedCount(newId: nat -> ResourceId, n: nat)
    requires DistinctIds(newId, n)
    ensures |GeneratedIds(newId, n)| == n
  {
    if n > 0 {
      GeneratedCount(newId, n - 1);
    }
  }

  /** Ids new to the ledger make a set disjoint from its keys. */
  lemma {:induction false} FreshDisjoint(l: Ledger, newId: nat -> ResourceId, n: nat)
    requires FreshIds(l, newId, n)
    ensures l.Keys !! GeneratedIds(newId, n)
  {
    if n > 0 {
      FreshDisjoint(l, newId, n - 1);
    }
  }

  /** With fresh, pairwise distinct ids and no failed Create, the scale-up adds exactly n rows. */
  lemma ScaleUpAddsExactly(l: Ledger, newId: nat -> ResourceId, clock: nat -> nat, fails: nat -> bool, n: nat)
    requires DistinctIds(newId, n) && FreshIds(l, newId, n) && NoneFail(fails, n)
    ensures |ScaleUp(l, newId, clock, fails, n)| == |l| + n
  {
    var r := ScaleUp(l, newId, clock, fails, n);
    var ids := GeneratedIds(newId, n);
    AttemptedAll(newId, fails, n);
    GeneratedCount(newId, n);
    FreshDisjoint(l, newId, n);
    assert r.Keys == l.Keys + ids;
    assert |l.Keys + ids| == |l.Keys| + |ids| by {
      assert l.Keys * ids == {};
    }
  }

  /**
   * The outcome of a scale-down by `diff`: at most `diff` rows deleted, all
   * PROVISIONED and each with a Delete that did not fail; nothing else changes.
   * A failed Find deletes nothing; without failures exactly
   * min(diff, #PROVISIONED) rows go (the store picks which).
   */
  predicate ScaledDown(before: Ledger, after: Ledger, diff: nat, findFails: bool, deleteFails: ResourceId -> bool)
  {
    after.Keys <= before.Keys
    && (forall id :: id in after ==> after[id] == before[id])
    && (forall id :: id in before && id !in after ==> before[id].state == Provisioned && !deleteFails(id))
    && |before| - |after| <= Min(diff, CountInState(before, Provisioned))
    && (findFails ==> after == before)
    && (!findFails && (forall id :: id in before ==> !deleteFails(id)) ==>
          |before| - |after| == Min(diff, CountInState(before, Provisioned)))
  }

  /** The ledger after a scale-up by n stubs, named by `newId` and stamped by the clock readings. */
  predicate ScaledUp(before: Ledger, after: Ledger, newId: nat -> ResourceId, clock: nat -> nat, fails: nat -> bool, n: nat)
  {
    after == ScaleUp(before, newId, clock, fails, n)
  }

  /** The scaling branch of the global pass, for the Desired and total count it read. */
  predicate GlobalStepFrom(before: Ledger, after: Ledger, desired: int, total: nat, f: GlobalFaults, newId: nat -> ResourceId, clock: nat -> nat)
  {
    if desired > total then ScaledUp(before, after, newId, clock, f.createFails, desired - total)
    else if desired < total then ScaledDown(before, after, total - desired, f.surplusFindFails, f.deleteFails)
    else after == before
  }

  /** reconcileGlobalState's effect on the ledger, for the Desired it read and the faults it met. */
  predicate GlobalStep(before: Ledger, after: Ledger, desired: int, f: GlobalFaults, newId: nat -> ResourceId, clock: nat -> nat)
  {
    GlobalStepFrom(before, after, desired, TotalRead(before, f), f, newId, clock)
  }

  /** Whatever fails, the global pass never demotes a PROVISIONED row and deletes nothing else. */
  lemma GlobalStepEvolves(before: Ledger, after: Ledger, desired: int, f: GlobalFaults, newId: nat -> ResourceId, clock: nat -> nat)
    requires GlobalStep(before, after, desired, f, newId, clock)
    ensures Evolves(before, after)
  {
  }

  /** A scale-down deletes only PROVISIONED rows; PROVISIONING and FAILED rows all survive untouched. */
  lemma ScaleDownSparesUnfinished(before: Ledger, after: Ledger, diff: nat, findFails: bool, deleteFails: ResourceId -> bool, id: ResourceId)
    requires ScaledDown(before, after, diff, findFails, deleteFails)
    requires id in before && before[id].state != Provisioned
    ensures id in after && after[id] == before[id]
  {
  }

  /** When nothing fails, a scale-down reaches Desired, or as close as the PROVISIONED rows allow. */
  lemma ScaleDownSize(before: Ledger, after: Ledger, desired: int, f: GlobalFaults, newId: nat -> ResourceId, clock: nat -> nat)
    requires GlobalHealthy(f) && desired < |before| && GlobalStep(before, after, desired, f, newId, clock)
    ensures |after| >= desired
    ensures |after| == desired <==> |before| - desired <= CountInState(before, Provisioned)
  {
  }

  /**
   * When nothing fails and the ids are fresh and pairwise distinct, a
   * scale-up reaches Desired and leaves the PROVISIONED rows as they were.
   * The reconciler's ids StubIds(clock) are pairwise distinct by StubIdsInjective.
   */
  lemma ScaleUpReachesDesired(before: Ledger, after: Ledger, desired: int, f: GlobalFaults, newId: nat -> ResourceId, clock: nat -> nat)
    requires GlobalHealthy(f) && desired > |before|
    requires Injective(newId) && FreshIds(before, newId, desired - |before|)
    requires GlobalStep(before, after, desired, f, newId, clock)
    ensures |after| == desired
    ensures IdsInState(after, Provisioned) == IdsInState(before, Provisioned)
  {
    HealthyStepScalesUp(before, after, desired, f, newId, clock);
    FreshScaleUp(before, after, newId, clock, f.createFails, desired - |before|);
  }

  /** With no failure, a global pass below Desired is a scale-up by Desired minus the row count, every Create succeeding. */
  lemma HealthyStepScalesUp(before: Ledger, after: Ledger, desired: int, f: GlobalFaults, newId: nat -> ResourceId, clock: nat -> nat)
    requires GlobalHealthy(f) && desired > |before| && GlobalStep(before, after, desired, f, newId, clock)
    ensures after == ScaleUp(before, newId, clock, f.createFails, desired - |before|)
    ensures NoneFail(f.createFails, desired - |before|)
  {
    assert TotalRead(before, f) == |before|;
    assert ScaledUp(before, after, newId, clock, f.createFails, desired - |before|);
  }

  /** A scale-up by n fresh, pairwise distinct ids with no failed Create adds exactly n PROVISIONING rows. */
  lemma FreshScaleUp(before: Ledger, after: Ledger, newId: nat -> ResourceId, clock: nat -> nat, fails: nat -> bool, n: nat)
    requires after == ScaleUp(before, newId, clock, fails, n)
    requires Injective(newId) && FreshIds(before, newId, n) && NoneFail(fails, n)
    ensures |after| == |before| + n
    ensures IdsInState(after, Provisioned) == IdsInState(before, Provisioned)
  {
    InjectiveIdsAreDistinct(newId, n);
    ScaleUpAddsExactly(before, newId, clock, fails, n);
    ScaleUpKeepsProvisioned(before, newId, clock, fails, n);
  }

  /** A scale-up adds only PROVISIONING rows, so the PROVISIONED rows stay as they were. */
  lemma ScaleUpKeepsProvisioned(l: Ledger, newId: nat -> ResourceId, clock: nat -> nat, fails: nat -> bool, n: nat)
    ensures IdsInState(ScaleUp(l, newId, clock, fails, n), Provisioned) == IdsInState(l, Provisioned)
  {
    var r := ScaleUp(l, newId, clock, fails, n);
    forall id
      ensures id in IdsInState(r, Provisioned) <==> id in IdsInState(l, Provisioned)
    {
    }
  }

  /**
   * A failed total Count reads 0 rows, so the leader creates Desired new stubs
   * on top of the rows already there: 3 rows at Desired 3 become 6.
   */
  lemma FailedCountOvershoots(before: Ledger, after: Ledger, desired: int, f: GlobalFaults, newId: nat -> ResourceId, clock: nat -> nat)
    requires f.totalCountFails && desired > 0 && NoneFail(f.createFails, desired)
    requires Injective(newId) && FreshIds(before, newId, desired)
    requires GlobalStep(before, after, desired, f, newId, clock)
    ensures |after| == |before| + desired
  {
    FailedCountScalesUp(before, after, desired, f, newId, clock);
    FreshScaleUp(before, after, newId, clock, f.createFails, desired);
  }

  /** After a failed total Count, a positive Desired makes the pass a scale-up by all of Desired. */
  lemma FailedCountScalesUp(before: Ledger, after: Ledger, desired: int, f: GlobalFaults, newId: nat -> ResourceId, clock: nat -> nat)
    requires f.totalCountFails && desired > 0 && GlobalStep(before, after, desired, f, newId, clock)
    ensures after == ScaleUp(before, newId, clock, f.createFails, desired)
  {
    assert TotalRead(before, f) == 0;
    assert ScaledUp(before, after, newId, clock, f.createFails, desired);
  }

  /** After a fault-free scale-up to Desired, a second pass that counts correctly changes nothing. */
  lemma SecondPassIsNoOp(before: Ledger, desired: int, f: GlobalFaults, newId: nat -> ResourceId, clock: nat -> nat, after: Ledger,
                         f2: GlobalFaults, newId2: nat -> ResourceId, clock2: nat -> nat, again: Ledger)
    requires GlobalHealthy(f) && !f2.totalCountFails
    requires desired > |before| && Injective(newId) && FreshIds(before, newId, desired - |before|)
    requires GlobalStep(before, after, desired, f, newId, clock)
    requires GlobalStep(after, again, desired, f2, newId2, clock2)
    ensures again == after
    ensures CountInState(after, Provisioned) == CountInState(before, Provisioned)
  {
    ScaleUpReachesDesired(before, after, desired, f, newId, clock);
  }

  // ---------------------------------------------------------------------
  // Shard pass (every node)
  // ---------------------------------------------------------------------

  /**
   * The store errors of one shard pass: a failed Find leaves the snapshot
   * empty, and `updateFails(id)` is the outcome of the Update of row id.
   */
  datatype ShardFaults = ShardFaults(snapshotFails: bool, updateFails: ResourceId -> bool)

  ghost predicate ShardHealthy(f: ShardFaults)
  {
    !f.snapshotFails && forall id: ResourceId :: !f.updateFails(id)
  }

  /** The rows this node completes: owned and PROVISIONING. */
  predicate Completes(l: Ledger, cfg: ShardConfig, id: ResourceId)
    requires cfg.totalNodes > 0
  {
    id in l && cfg.OwnsShard(id) && l[id].state == Provisioning
  }

  /** reconcileShard's effect on the ledger when nothing fails: owned PROVISIONING rows become PROVISIONED, stamped `now`. */
  function ShardPass(l: Ledger, cfg: ShardConfig, now: int): Ledger
    requires cfg.totalNodes > 0
  {
    map id | id in l :: if Completes(l, cfg, id) then Row(Provisioned, now) else l[id]
  }

  /** reconcileShard's effect under faults: only rows both snapshotted and successfully updated are completed. */
  function ShardPassUnder(l: Ledger, cfg: ShardConfig, now: int, f: ShardFaults): Ledger
    requires cfg.totalNodes > 0
  {
    map id | id in l :: if !f.snapshotFails && Completes(l, cfg, id) && !f.updateFails(id) then Row(Provisioned, now) else l[id]
  }

  /**
   * Faults only leave work undone: no insert, no delete, a row changes only
   * if this node completes it, and a failed snapshot changes nothing. With
   * no fault the pass is ShardPass.
   */
  lemma ShardFaultsOnlySkipWork(l: Ledger, cfg: ShardConfig, now: int, f: ShardFaults)
    requires cfg.totalNodes > 0
    ensures var r := ShardPassUnder(l, cfg, now, f);
      r.Keys == l.Keys && Evolves(l, r) &&
      (forall id :: id in l && r[id] != l[id] ==> Completes(l, cfg, id) && !f.updateFails(id)) &&
      (f.snapshotFails ==> r == l) &&
      (ShardHealthy(f) ==> r == ShardPass(l, cfg, now))
  {
  }

  /**
   * The shard pass changes exactly the owned PROVISIONING rows: no insert,
   * no delete, and unowned, PROVISIONED and FAILED rows stay as they were.
   */
  lemma ShardPassChangesExactlyOwnedInFlight(l: Ledger, cfg: ShardConfig, now: int)
    requires cfg.totalNodes > 0
    ensures var r := ShardPass(l, cfg, now);
      r.Keys == l.Keys && Evolves(l, r) &&
      (forall id :: id in l ==> (r[id] != l[id] <==> Completes(l, cfg, id))) &&
      (forall id :: id in l && cfg.OwnsShard(id) ==> r[id].state != Provisioning)
  {
  }

  /** Running the shard pass twice equals running it once, whatever the second clock reads. */
  lemma ShardPassIdempotent(l: Ledger, cfg: ShardConfig, now: int, later: int)
    requires cfg.totalNodes > 0
    ensures ShardPass(ShardPass(l, cfg, now), cfg, later) == ShardPass(l, cfg, now)
  {
  }

  /** The shard passes of nodes 0 .. k-1 of a cluster of `total`, in order. */
  function ShardPasses(l: Ledger, total: int, k: nat, now: int): Ledger
    requires total > 0
  {
    if k == 0 then l else ShardPass(ShardPasses(l, total, k - 1, now), ShardConfig(k - 1, total), now)
  }

  /** After the passes of nodes 0 .. k-1, rows owned by those nodes are finished and the rest are untouched. */
  lemma {:induction false} ShardPassesProgress(l: Ledger, total: int, k: nat, now: int)
    requires total > 0
    ensures var r := ShardPasses(l, total, k, now);
      r.Keys == l.Keys &&
      (forall id :: id in l && ShardConfig(0, total).Owner(id) < k ==> r[id].state != Provisioning) &&
      (forall id :: id in l && ShardConfig(0, total).Owner(id) >= k ==> r[id] == l[id])
  {
    if k > 0 {
      ShardPassesProgress(l, total, k - 1, now);
    }
  }

  /** Once every node of the cluster has run its shard pass, no row is left PROVISIONING. */
  lemma AllShardsFinishInFlight(l: Ledger, total: int, now: int)
    requires total > 0
    ensures var r := ShardPasses(l, total, total, now);
      r.Keys == l.Keys && forall id :: id in r ==> r[id].state != Provisioning
  {
    ShardPassesProgress(l, total, total, now);
  }

  /** The rows the shard tally counts: owned, and PROVISIONED or PROVISIONING. */
  function OwnedLive(l: Ledger, cfg: ShardConfig): set<ResourceId>
    requires cfg.totalNodes > 0
  {
    set id | id in l && cfg.OwnsShard(id) && l[id].state != Failed
  }

  /** The tally is the number of owned PROVISIONED rows once the pass is done. */
  lemma TallyCountsOwnedProvisioned(l: Ledger, cfg: ShardConfig, now: int)
    requires cfg.totalNodes > 0
    ensures var r := ShardPass(l, cfg, now);
      OwnedLive(l, cfg) == set id | id in r && cfg.OwnsShard(id) && r[id].state == Provisioned
  {
  }

  /** The ledger partway through the shard loop: of the rows already visited (`done`), those completed. */
  function ShardPartial(start: Ledger, cfg: ShardConfig, now: int, fails: ResourceId -> bool, done: set<ResourceId>): Ledger
    requires cfg.totalNodes > 0
  {
    map id | id in start :: if id in done && Completes(start, cfg, id) && !fails(id) then Row(Provisioned, now) else start[id]
  }

  /** reconcileShard: the loop over a snapshot of all rows, in the order the store returned them. */
  method ReconcileShard(p: Provisioner, cfg: ShardConfig, now: int, f: ShardFaults) returns (myObserved: nat)
    requires cfg.totalNodes > 0
    modifies p.db
    ensures p.db.ledger == ShardPassUnder(old(p.db.ledger), cfg, now, f)
    ensures myObserved == if f.snapshotFails then 0 else |OwnedLive(old(p.db.ledger), cfg)|
    ensures p.db.executions == old(p.db.executions) && p.db.lease == old(p.db.lease)
  {
    ghost var start := p.db.ledger;
    var all := p.db.FindAll(f.snapshotFails);
    assert all.Keys == if f.snapshotFails then {} else start.Keys;
    myObserved := VisitAll(p.db, cfg, now, f.updateFails, all);
    ShardPartialEnds(start, cfg, now, f, all.Keys);
  }

  /** The loop of reconcileShard over the snapshot `all`, visiting its rows in an order the model leaves open. */
  method VisitAll(db: Database, cfg: ShardConfig, now: int, fails: ResourceId -> bool, all: Ledger) returns (tally: nat)
    requires cfg.totalNodes > 0
    requires forall id :: id in all ==> id in db.ledger && all[id] == db.ledger[id]
    modifies db
    ensures db.ledger == ShardPartial(old(db.ledger), cfg, now, fails, all.Keys)
    ensures tally == |OwnedLive(old(db.ledger), cfg) * all.Keys|
    ensures db.executions == old(db.executions) && db.lease == old(db.lease)
  {
    ghost var start := db.ledger;
    var todo := all.Keys;
    ghost var done: set<ResourceId> := {};
    tally := 0;
    ghost var live := OwnedLive(start, cfg);
    ShardPartialStarts(start, cfg, now, fails);
    while todo != {}
      invariant todo !! done && todo + done == all.Keys
      invariant db.ledger == ShardPartial(start, cfg, now, fails, done)
      invariant tally == |live * done|
      invariant db.executions == old(db.executions) && db.lease == old(db.lease)
      decreases todo
    {
      var id :| id in todo;
      tally := VisitRow(db, cfg, now, start, fails, done, id, all[id], tally);
      TallyStep(live, done, id);
      MoveOne(todo, done, id, all.Keys);
      todo := todo - {id};
      done := done + {id};
    }
    assert done == all.Keys;
  }

  lemma MoveOne<T>(todo: set<T>, done: set<T>, x: T, keys: set<T>)
    requires x in todo && todo !! done && todo + done == keys
    ensures (todo - {x}) !! (done + {x}) && (todo - {x}) + (done + {x}) == keys
  {
  }

  lemma ShardPartialStarts(start: Ledger, cfg: ShardConfig, now: int, fails: ResourceId -> bool)
    requires cfg.totalNodes > 0
    ensures ShardPartial(start, cfg, now, fails, {}) == start
  {
  }

  /** At the end of the loop every snapshotted row has been visited. */
  lemma ShardPartialEnds(start: Ledger, cfg: ShardConfig, now: int, f: ShardFaults, done: set<ResourceId>)
    requires cfg.totalNodes > 0
    requires done == if f.snapshotFails then {} else start.Keys
    ensures ShardPartial(start, cfg, now, f.updateFails, done) == ShardPassUnder(start, cfg, now, f)
    ensures |OwnedLive(start, cfg) * done| == if f.snapshotFails then 0 else |OwnedLive(start, cfg)|
  {
    if f.snapshotFails {
      ShardPartialStarts(start, cfg, now, f.updateFails);
      ShardFaultsOnlySkipWork(start, cfg, now, f);
      assert OwnedLive(start, cfg) * done == {};
    } else {
      assert OwnedLive(start, cfg) * done == OwnedLive(start, cfg);
    }
  }

  /** One iteration of the shard loop: complete an owned PROVISIONING row and count owned live rows. */
  method VisitRow(db: Database, cfg: ShardConfig, now: int, ghost start: Ledger, fails: ResourceId -> bool,
                  ghost done: set<ResourceId>, id: ResourceId, row: Row, tally: nat)
      returns (tally': nat)
    requires cfg.totalNodes > 0 && id in start && id !in done && row == start[id]
    requires db.ledger == ShardPartial(start, cfg, now, fails, done)
    modifies db
    ensures db.ledger == ShardPartial(start, cfg, now, fails, done + {id})
    ensures tally' == tally + (if id in OwnedLive(start, cfg) then 1 else 0)
    ensures db.executions == old(db.executions) && db.lease == old(db.lease)
  {
    tally' := tally;
    ShardPartialStep(start, cfg, now, fails, done, id);
    var owns := cfg.OwnsShard(id);
    if owns {
      match row.state {
        case Provisioned =>
          tally' := tally' + 1;
        case Provisioning =>
          db.UpdateState(id, Provisioned, now, fails(id));
          tally' := tally' + 1;
        case Failed =>
      }
    }
  }

  /** Visiting `id` completes its row if this node completes it and the update succeeds, and leaves the ledger alone otherwise. */
  lemma ShardPartialStep(start: Ledger, cfg: ShardConfig, now: int, fails: ResourceId -> bool, done: set<ResourceId>, id: ResourceId)
    requires cfg.totalNodes > 0 && id in start && id !in done
    ensures var before := ShardPartial(start, cfg, now, fails, done);
      ShardPartial(start, cfg, now, fails, done + {id}) ==
        if Completes(start, cfg, id) && !fails(id) then before[id := Row(Provisioned, now)] else before
  {
  }

  lemma TallyStep(live: set<ResourceId>, done: set<ResourceId>, id: ResourceId)
    requires id !in done
    ensures |live * (done + {id})| == |live * done| + (if id in live then 1 else 0)
  {
    if id in live {
      assert live * (done + {id}) == (live * done) + {id};
    } else {
      assert live * (done + {id}) == live * done;
    }
  }

  lemma ScaleUpNext(l: Ledger, newId: nat -> ResourceId, clock: nat -> nat, fails: nat -> bool, n: nat)
    ensures ScaleUp(l, newId, clock, fails, n + 1) ==
      if fails(n) then ScaleUp(l, newId, clock, fails, n)
      else Insert(ScaleUp(l, newId, clock, fails, n), newId(n), Row(Provisioning, clock(n)))
  {
  }

  /**
   * The scale-up loop of reconcileGlobalState: `diff` db.Create calls, a
   * failed one only logged. The i-th iteration names its stub newId(i);
   * the reconciler passes StubIds(clock), the names built from the clock.
   */
  method CreateStubs(db: Database, newId: nat -> ResourceId, clock: nat -> nat, createFails: nat -> bool, diff: nat)
    modifies db
    ensures ScaledUp(old(db.ledger), db.ledger, newId, clock, createFails, diff)
    ensures db.executions == old(db.executions) && db.lease == old(db.lease)
  {
    var i := 0;
    while i < diff
      invariant 0 <= i <= diff
      invariant db.ledger == ScaleUp(old(db.ledger), newId, clock, createFails, i)
      invariant db.executions == old(db.executions) && db.lease == old(db.lease)
    {
      ScaleUpNext(old(db.ledger), newId, clock, createFails, i);
      var _ := db.CreateResource(newId(i), Row(Provisioning, clock(i)), createFails(i));
      i := i + 1;
    }
  }

  /** The scale-down branch of reconcileGlobalState: fetch up to `diff` PROVISIONED rows and delete each. */
  method DeleteSurplus(db: Database, diff: nat, findFails: bool, deleteFails: ResourceId -> bool)
    modifies db
    ensures ScaledDown(old(db.ledger), db.ledger, diff, findFails, deleteFails)
    ensures db.executions == old(db.executions) && db.lease == old(db.lease)
  {
    var surplus := db.FindProvisioned(diff, findFails);
    ghost var removed := 0;
    var k := 0;
    while k < |surplus|
      invariant 0 <= k <= |surplus|
      invariant DeletedPrefix(old(db.ledger), db.ledger, surplus, k, deleteFails, removed)
      invariant db.executions == old(db.executions) && db.lease == old(db.lease)
    {
      ghost var now := db.ledger;
      var victim := surplus[k];
      db.DeleteResource(victim, deleteFails(victim));
      DeletedPrefixStep(old(db.ledger), now, db.ledger, surplus, k, deleteFails, removed);
      removed := removed + (if deleteFails(victim) then 0 else 1);
      k := k + 1;
    }
    DeletedPrefixEnd(old(db.ledger), db.ledger, surplus, diff, findFails, deleteFails, removed);
  }

  /**
   * The ledger after the deletes of surplus[..k]: exactly the rows whose
   * Delete succeeded are gone, `removed` of them, and the rest are unchanged.
   */
  ghost predicate DeletedPrefix(start: Ledger, now: Ledger, surplus: seq<ResourceId>, k: nat,
                                deleteFails: ResourceId -> bool, removed: nat)
    requires k <= |surplus|
  {
    (forall id :: id in now <==> id in start && !(id in surplus[..k] && !deleteFails(id)))
    && (forall id :: id in now ==> now[id] == start[id])
    && removed <= k && |now| == |start| - removed
    && ((forall j :: 0 <= j < k ==> !deleteFails(surplus[j])) ==> removed == k)
  }

  lemma DeletedPrefixStep(start: Ledger, now: Ledger, next: Ledger, surplus: seq<ResourceId>, k: nat,
                          deleteFails: ResourceId -> bool, removed: nat)
    requires k < |surplus| && NoDup(surplus) && forall j :: 0 <= j < |surplus| ==> surplus[j] in start
    requires DeletedPrefix(start, now, surplus, k, deleteFails, removed)
    requires next == if deleteFails(surplus[k]) then now else now - {surplus[k]}
    ensures DeletedPrefix(start, next, surplus, k + 1, deleteFails, removed + (if deleteFails(surplus[k]) then 0 else 1))
  {
    var x := surplus[k];
    assert surplus[..k + 1] == surplus[..k] + [x];
    assert x !in surplus[..k];
    assert x in now;
    if !deleteFails(x) {
      assert |next| == |now| - 1;
    }
  }

  /** Once every fetched row has been visited, the deletes make up a scale-down by `diff`. */
  lemma DeletedPrefixEnd(start: Ledger, now: Ledger, surplus: seq<ResourceId>, diff: nat, findFails: bool,
                         deleteFails: ResourceId -> bool, removed: nat)
    requires NoDup(surplus)
    requires forall j :: 0 <= j < |surplus| ==> surplus[j] in start && start[surplus[j]].state == Provisioned
    requires |surplus| == if findFails then 0 else Min(diff, CountInState(start, Provisioned))
    requires DeletedPrefix(start, now, surplus, |surplus|, deleteFails, removed)
    ensures ScaledDown(start, now, diff, findFails, deleteFails)
  {
    assert surplus[..|surplus|] == surplus;
    if findFails {
      assert now.Keys == start.Keys;
    }
  }

  /** reconcileGlobalState: refresh Observed from the store, then scale the row count towards Desired. */
  method ReconcileGlobalState(p: Provisioner, clock: nat -> nat, f: GlobalFaults)
    modifies p, p.db
    ensures p.observed == ObservedRead(old(p.db.ledger), f)
    ensures p.desired == old(p.desired)
    ensures GlobalStep(old(p.db.ledger), p.db.ledger, old(p.desired), f, StubIds(clock), clock)
    ensures p.db.executions == old(p.db.executions) && p.db.lease == old(p.db.lease)
  {
    var totalCount := p.db.CountRows(f.totalCountFails);
    var observedCount := p.db.CountRowsInState(Provisioned, f.observedCountFails);
    p.observed := observedCount;
    var desired := p.GetDesired();
    ScaleTowards(p.db, desired, totalCount, StubIds(clock), clock, f);
  }

  /** The scaling half of reconcileGlobalState, from the row count read at the start of the pass. */
  method ScaleTowards(db: Database, desired: int, totalCount: nat, newId: nat -> ResourceId, clock: nat -> nat, f: GlobalFaults)
    modifies db
    ensures GlobalStepFrom(old(db.ledger), db.ledger, desired, totalCount, f, newId, clock)
    ensures db.executions == old(db.executions) && db.lease == old(db.lease)
  {
    if desired > totalCount {
      CreateStubs(db, newId, clock, f.createFails, desired - totalCount);
      GlobalStepUp(old(db.ledger), db.ledger, desired, totalCount, f, newId, clock);
    } else if desired < totalCount {
      DeleteSurplus(db, totalCount - desired, f.surplusFindFails, f.deleteFails);
      GlobalStepDown(old(db.ledger), db.ledger, desired, totalCount, f, newId, clock);
    } else {
      GlobalStepStill(db.ledger, desired, totalCount, f, newId, clock);
    }
  }

  lemma GlobalStepUp(before: Ledger, after: Ledger, desired: int, total: nat, f: GlobalFaults, newId: nat -> ResourceId, clock: nat -> nat)
    requires desired > total && ScaledUp(before, after, newId, clock, f.createFails, desired - total)
    ensures GlobalStepFrom(before, after, desired, total, f, newId, clock)
  {
  }

  lemma GlobalStepDown(before: Ledger, after: Ledger, desired: int, total: nat, f: GlobalFaults, newId: nat -> ResourceId, clock: nat -> nat)
    requires desired < total && ScaledDown(before, after, total - desired, f.surplusFindFails, f.deleteFails)
    ensures GlobalStepFrom(before, after, desired, total, f, newId, clock)
  {
  }

  lemma GlobalStepStill(before: Ledger, desired: int, total: nat, f: GlobalFaults, newId: nat -> ResourceId, clock: nat -> nat)
    requires desired == total
    ensures GlobalStepFrom(before, before, desired, total, f, newId, clock)
  {
  }

  // ---------------------------------------------------------------------
  // The tick
  // ---------------------------------------------------------------------

  /** os.Getenv: the empty string for an unset variable. */
  function Getenv(env: map<string, string>, name: string): string
  {
    if name in env then env[name] else ""
  }

  /** NODE_ID, "local" when unset or empty. */
  function NodeId(env: map<string, string>): (id: string)
    ensures id != ""
    ensures Getenv(env, "NODE_ID") != "" ==> id == env["NODE_ID"]
  {
    var v := Getenv(env, "NODE_ID");
    if v == "" then "local" else v
  }

  function ShardFromEnv(env: map<string, string>): (cfg: ShardConfig)
    ensures cfg.totalNodes > 0
  {
    ParseShardConfig(Getenv(env, "NODE_INDEX"), Getenv(env, "TOTAL_NODES"))
  }

  /**
   * Reconcile: the global pass runs only on the node that holds the
   * lease; the shard pass runs on every node, on the ledger the global
   * pass left (`mid`).
   */
  method Reconcile(p: Provisioner, env: map<string, string>, now: int, lf: LeaseFaults, gf: GlobalFaults,
                   sf: ShardFaults, clock: nat -> nat)
    returns (leader: bool, myObserved: nat, ghost mid: Ledger)
    modifies p, p.db
    ensures var acq := AcquireLease(old(p.db.lease), NodeId(env), now, lf);
      leader == acq.leader && p.db.lease == acq.lease
    ensures leader ==> GlobalStep(old(p.db.ledger), mid, old(p.desired), gf, StubIds(clock), clock)
                       && p.observed == ObservedRead(old(p.db.ledger), gf)
    ensures !leader ==> mid == old(p.db.ledger) && p.observed == old(p.observed)
    ensures p.db.ledger == ShardPassUnder(mid, ShardFromEnv(env), now, sf)
    ensures myObserved == if sf.snapshotFails then 0 else |OwnedLive(mid, ShardFromEnv(env))|
    ensures p.desired == old(p.desired) && p.db.executions == old(p.db.executions)
  {
    var nodeId := NodeId(env);
    var shard := ShardFromEnv(env);
    leader := TryAcquireLease(p.db, nodeId, now, lf);
    if leader {
      ReconcileGlobalState(p, clock, gf);
    }
    mid := p.db.ledger;
    myObserved := ReconcileShard(p, shard, now, sf);
  }
}
