/**
 * Leader election through the single "reconciler-lock" row: one
 * conditional UPDATE that renews the caller's own lease or takes over an
 * expired one, falling back to an INSERT when the row does not exist yet.
 * Time is an integer count of nanoseconds.
 */
module Lease {
  import opened Common
  import opened Store

  const Second: int := 1_000_000_000
  const LeaseDuration: int := 15 * Second
  const LeaseId: string := "reconciler-lock"

  /** Which of the three statements fail (an error from the store, or a lost insert race). */
  datatype LeaseFaults = LeaseFaults(updateFails: bool, lookupFails: bool, insertFails: bool)

  const NoLeaseFaults := LeaseFaults(false, false, false)

  datatype Acquisition = Acquisition(lease: Option<LeaseRow>, leader: bool)

  /** The conditional update's WHERE clause: the caller holds the row, or it has expired (strictly). */
  predicate Claimable(row: LeaseRow, nodeId: string, now: int)
  {
    row.nodeId == nodeId || row.expiresAt < now
  }

  /** tryAcquireLease as a function of the lease row before the call. */
  function AcquireLease(current: Option<LeaseRow>, nodeId: string, now: int, f: LeaseFaults): (r: Acquisition)
    ensures r.leader ==> r.lease == Some(LeaseRow(nodeId, now + LeaseDuration))
    ensures !r.leader ==> r.lease == current
  {
    if f.updateFails then Acquisition(current, false)
    else if current.Some? && Claimable(current.value, nodeId, now) then
      Acquisition(Some(LeaseRow(nodeId, now + LeaseDuration)), true)
    else if f.lookupFails || current.Some? then Acquisition(current, false)
    else if f.insertFails then Acquisition(current, false)
    else Acquisition(Some(LeaseRow(nodeId, now + LeaseDuration)), true)
  }

  /** The caller becomes leader exactly when the update matches, or the row is absent and the insert goes in. */
  lemma LeaderIff(current: Option<LeaseRow>, nodeId: string, now: int, f: LeaseFaults)
    ensures AcquireLease(current, nodeId, now, f).leader <==>
      !f.updateFails &&
      ((current.Some? && Claimable(current.value, nodeId, now)) ||
       (current.None? && !f.lookupFails && !f.insertFails))
  {
  }

  /** A lease whose expiry equals the current instant is still held by its owner. */
  lemma ExpiryIsStrict(holder: string, nodeId: string, now: int, f: LeaseFaults)
    requires holder != nodeId
    ensures AcquireLease(Some(LeaseRow(holder, now)), nodeId, now, f) == Acquisition(Some(LeaseRow(holder, now)), false)
  {
  }

  /**
   * Two distinct nodes against an absent row at the same instant: the
   * first wins, the second is a follower and the row keeps the winner.
   */
  lemma MutualExclusion(a: string, b: string, now: int, fb: LeaseFaults)
    requires a != b
    ensures AcquireLease(None, a, now, NoLeaseFaults).leader
    ensures var first := AcquireLease(None, a, now, NoLeaseFaults).lease;
      AcquireLease(first, b, now, fb) == Acquisition(first, false)
  {
  }

  /** Failover: once the winner's lease has expired, another node's attempt succeeds. */
  lemma Failover(a: string, b: string, t1: int, t2: int)
    requires a != b
    ensures var first := AcquireLease(None, a, t1, NoLeaseFaults).lease;
      AcquireLease(first, b, t2, NoLeaseFaults).leader <==> t2 > t1 + LeaseDuration
  {
  }

  /** A node that holds the lease keeps it on every heartbeat the store accepts. */
  lemma HeartbeatRenews(row: LeaseRow, now: int, f: LeaseFaults)
    requires !f.updateFails
    ensures AcquireLease(Some(row), row.nodeId, now, f) == Acquisition(Some(LeaseRow(row.nodeId, now + LeaseDuration)), true)
  {
  }

  /** tryAcquireLease(nodeID, db), with time.Now() as `now`. */
  method TryAcquireLease(db: Database, nodeId: string, now: int, f: LeaseFaults) returns (leader: bool)
    modifies db
    ensures Acquisition(db.lease, leader) == AcquireLease(old(db.lease), nodeId, now, f)
    ensures db.ledger == old(db.ledger) && db.executions == old(db.executions)
  {
    var failed, rowsAffected := db.UpdateLease(nodeId, now, now + LeaseDuration, f.updateFails);
    if failed {
      return false;
    }
    if rowsAffected > 0 {
      return true;
    }
    var found := db.FindLease(f.lookupFails);
    if found.NotFound? {
      leader := db.CreateLease(LeaseRow(nodeId, now + LeaseDuration), f.insertFails);
      return;
    }
    return false;
  }
}
