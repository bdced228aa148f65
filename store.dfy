/**
 * The durable store the control plane shares between nodes, as three
 * in-memory tables: the resource ledger (keyed by resource id), the
 * idempotency executions (keyed by client key) and the single lease row
 * "reconciler-lock". The class methods stand for the gorm statements the
 * source issues; a failing statement is an argument (`fails`), since the
 * model has no database.
 */
module Store {
  import opened Common

  type ResourceId = Bytes

  /** ProvisioningState: PROVISIONING = 0, PROVISIONED = 1, FAILED = 2. */
  datatype ProvisioningState = Provisioning | Provisioned | Failed
  {
    /** The integer the state is encoded as (iota order). */
    function Code(): (c: nat)
      ensures c == 0 <==> this == Provisioning
      ensures c == 1 <==> this == Provisioned
      ensures c == 2 <==> this == Failed
    {
      match this
      case Provisioning => 0
      case Provisioned => 1
      case Failed => 2
    }
  }

  /** A ResourceLedger row (its id is the key). CreatedAt is never read and is not kept. */
  datatype Row = Row(state: ProvisioningState, updatedAt: int)

  type Ledger = map<ResourceId, Row>

  /** An IdempotencyExecution row (its key is the key; CreatedAt is never read). */
  datatype Execution = Execution(statusCode: int, responseBody: Bytes)

  /** The ControlPlaneLease row; its id is always "reconciler-lock". */
  datatype LeaseRow = LeaseRow(nodeId: string, expiresAt: int)

  /** What a `First` query gives: the row, gorm.ErrRecordNotFound, or some other error. */
  datatype Lookup<T> = Found(row: T) | NotFound | LookupError

  /** The ids whose row is in state `s`. */
  function IdsInState(l: Ledger, s: ProvisioningState): (ids: set<ResourceId>)
    ensures ids <= l.Keys
    ensures forall id :: id in ids <==> id in l && l[id].state == s
  {
    set id | id in l && l[id].state == s
  }

  /** SELECT count(*) ... WHERE state = s */
  function CountInState(l: Ledger, s: ProvisioningState): (n: nat)
    ensures n <= |l|
  {
    var ids := IdsInState(l, s);
    assert |ids| <= |l.Keys| by { SubsetCardinality(ids, l.Keys); }
    |ids|
  }

  lemma SubsetCardinality<T>(a: set<T>, b: set<T>)
    requires a <= b
    ensures |a| <= |b|
  {
    if a != b {
      var x :| x in b && x !in a;
      SubsetCardinality(a, b - {x});
    }
  }

  /**
   * The lifecycle every control-plane step respects: a PROVISIONED row is
   * never demoted, and a row that disappears was PROVISIONED (in-flight and
   * failed work is never deleted).
   */
  ghost predicate Evolves(before: Ledger, after: Ledger)
  {
    forall id :: id in before ==>
      if id in after then (before[id].state == Provisioned ==> after[id].state == Provisioned)
      else before[id].state == Provisioned
  }

  class Database {
    var ledger: Ledger
    var executions: map<string, Execution>
    var lease: Option<LeaseRow>

    constructor (ledger: Ledger, executions: map<string, Execution>, lease: Option<LeaseRow>)
      ensures this.ledger == ledger && this.executions == executions && this.lease == lease
    {
      this.ledger := ledger;
      this.executions := executions;
      this.lease := lease;
    }

    /** db.Where("id = ?", id).First(&row) */
    function FindResource(id: ResourceId, fails: bool): (r: Lookup<Row>)
      reads this
      ensures r.Found? ==> id in ledger && r.row == ledger[id]
      ensures r.NotFound? <==> !fails && id !in ledger
    {
      if fails then LookupError else if id in ledger then Found(ledger[id]) else NotFound
    }

    /** db.Create(&row): refused when the id exists (primary key) or the statement fails. */
    method CreateResource(id: ResourceId, row: Row, fails: bool) returns (ok: bool)
      modifies this
      ensures ok == (!fails && id !in old(ledger))
      ensures ledger == if ok then old(ledger)[id := row] else old(ledger)
      ensures executions == old(executions) && lease == old(lease)
    {
      ok := !fails && id !in ledger;
      if ok {
        ledger := ledger[id := row];
      }
    }

    /** db.Model(&row).Update("state", s): also stamps UpdatedAt; no row matches a missing id. */
    method UpdateState(id: ResourceId, s: ProvisioningState, now: int, fails: bool)
      modifies this
      ensures ledger == if !fails && id in old(ledger) then old(ledger)[id := Row(s, now)] else old(ledger)
      ensures executions == old(executions) && lease == old(lease)
    {
      if !fails && id in ledger {
        ledger := ledger[id := Row(s, now)];
      }
    }

    /** db.Delete(&row): a failing statement deletes nothing. */
    method DeleteResource(id: ResourceId, fails: bool)
      modifies this
      ensures ledger == if fails then old(ledger) else old(ledger) - {id}
      ensures executions == old(executions) && lease == old(lease)
    {
      if !fails {
        ledger := ledger - {id};
      }
    }

    /** db.Model(&ResourceLedger{}).Count(&n): a failing statement leaves n at its zero value. */
    function CountRows(fails: bool): (n: nat)
      reads this
      ensures !fails ==> n == |ledger|
      ensures fails ==> n == 0
    {
      if fails then 0 else |ledger|
    }

    /** The same count restricted by Where("state = ?", s). */
    function CountRowsInState(s: ProvisioningState, fails: bool): (n: nat)
      reads this
      ensures !fails ==> n == |IdsInState(ledger, s)| && n <= |ledger|
      ensures fails ==> n == 0
    {
      if fails then 0 else CountInState(ledger, s)
    }

    /** db.Find(&rows) with no condition: every row, or none when the statement fails. */
    function FindAll(fails: bool): (rows: Ledger)
      reads this
      ensures !fails ==> rows == ledger
      ensures fails ==> rows == map[]
    {
      if fails then map[] else ledger
    }

    /**
     * db.Where("state = ?", PROVISIONED).Limit(limit).Find(&rows): up to
     * `limit` distinct PROVISIONED ids, in an order the store chooses; none
     * when the statement fails.
     */
    method FindProvisioned(limit: nat, fails: bool) returns (ids: seq<ResourceId>)
      ensures NoDup(ids)
      ensures forall k :: 0 <= k < |ids| ==> ids[k] in ledger && ledger[ids[k]].state == Provisioned
      ensures |ids| == if fails then 0 else Min(limit, CountInState(ledger, Provisioned))
    {
      ids := [];
      if fails {
        return;
      }
      var candidates := IdsInState(ledger, Provisioned);
      while |ids| < limit && candidates != {}
        invariant candidates <= IdsInState(ledger, Provisioned)
        invariant NoDup(ids)
        invariant forall k :: 0 <= k < |ids| ==> ids[k] in IdsInState(ledger, Provisioned) && ids[k] !in candidates
        invariant |ids| + |candidates| == CountInState(ledger, Provisioned)
        invariant |ids| <= limit
        decreases candidates
      {
        var id :| id in candidates;
        ids := ids + [id];
        candidates := candidates - {id};
      }
    }

    /** db.Where("key = ?", key).First(&execution) */
    function FindExecution(key: string, fails: bool): (r: Lookup<Execution>)
      reads this
      ensures r.Found? ==> key in executions && r.row == executions[key]
      ensures r.NotFound? <==> !fails && key !in executions
    {
      if fails then LookupError else if key in executions then Found(executions[key]) else NotFound
    }

    /** db.Create(&execution): a duplicate key violates the primary key and changes nothing. */
    method CreateExecution(key: string, e: Execution, fails: bool) returns (ok: bool)
      modifies this
      ensures ok == (!fails && key !in old(executions))
      ensures executions == if ok then old(executions)[key := e] else old(executions)
      ensures ledger == old(ledger) && lease == old(lease)
    {
      ok := !fails && key !in executions;
      if ok {
        executions := executions[key := e];
      }
    }

    /**
     * UPDATE control_plane_leases SET node_id = nodeId, expires_at = expiresAt
     * WHERE id = 'reconciler-lock' AND (node_id = nodeId OR expires_at < now)
     */
    method UpdateLease(nodeId: string, now: int, expiresAt: int, fails: bool) returns (failed: bool, rowsAffected: nat)
      modifies this
      ensures failed == fails
      ensures rowsAffected == (if !fails && old(lease).Some? && (old(lease).value.nodeId == nodeId || old(lease).value.expiresAt < now) then 1 else 0)
      ensures lease == if rowsAffected == 1 then Some(LeaseRow(nodeId, expiresAt)) else old(lease)
      ensures ledger == old(ledger) && executions == old(executions)
    {
      failed := fails;
      rowsAffected := 0;
      if !fails && lease.Some? && (lease.value.nodeId == nodeId || lease.value.expiresAt < now) {
        lease := Some(LeaseRow(nodeId, expiresAt));
        rowsAffected := 1;
      }
    }

    /** db.Where("id = ?", "reconciler-lock").First(&lease) */
    function FindLease(fails: bool): (r: Lookup<LeaseRow>)
      reads this
      ensures r.Found? ==> lease == Some(r.row)
      ensures r.NotFound? <==> !fails && lease.None?
    {
      if fails then LookupError else match lease case Some(row) => Found(row) case None => NotFound
    }

    /** db.Create(&lease): refused when the row exists or the statement fails. */
    method CreateLease(row: LeaseRow, fails: bool) returns (ok: bool)
      modifies this
      ensures ok == (!fails && old(lease).None?)
      ensures lease == if ok then Some(row) else old(lease)
      ensures ledger == old(ledger) && executions == old(executions)
    {
      ok := !fails && lease.None?;
      if ok {
        lease := Some(row);
      }
    }
  }
}
