/**
 * The Provisioner: the in-memory Desired and Observed counters next to
 * the shared store, and the two mutating handlers. POST /v1/provision
 * drives one resource through the ledger's state machine; POST
 * /v1/desired overwrites the target count.
 */
module Handlers {
  import opened Common
  import opened Store
  import opened Http

  /** Which ledger statements fail in one provisioning request. */
  datatype StoreFaults = StoreFaults(lookupFails: bool, insertFails: bool, updateFails: bool)

  const NoStoreFaults := StoreFaults(false, false, false)

  /** The race between the simulated provisioning work and the client going away. */
  datatype Wait = Completed(at: int) | Cancelled

  /** The state one provisioning request leaves behind, and what it answered. */
  datatype ProvisionOutcome = ProvisionOutcome(ledger: Ledger, desired: int, observed: int, reply: Reply)

  /** The body of a 200 answer: ResourceResponse{ID, State, LastUpdateAt} (the time as an integer). */
  function ResourceJson(id: ResourceId, row: Row): Bytes
  {
    Json([("id", JString(id)), ("state", JNumber(row.state.Code())), ("last_update_at", JNumber(row.updatedAt))])
  }

  function AlreadyInProgress(): Reply
  {
    JsonText(StatusAccepted, "message", "Resource provisioning already in progress")
  }

  function CreateFailed(): Reply
  {
    JsonText(StatusInternalServerError, "error", "Failed to create resource ledger")
  }

  function LookupFailed(): Reply
  {
    JsonText(StatusInternalServerError, "error", "internal server error")
  }

  function ProvisionedReply(): Reply
  {
    JsonText(StatusCreated, "message", "successfully provisioned")
  }

  /**
   * resourceProvisioningHandler as a function of the ledger and the two
   * counters before the request, the decoded body, the clock, the store's
   * failures and the outcome of the wait.
   */
  function Provision(ledger: Ledger, desired: int, observed: int, body: Bind<ResourceId>,
                     now: int, f: StoreFaults, w: Wait): (r: ProvisionOutcome)
    // Desired goes up by one before the body is even decoded, whatever follows.
    ensures r.desired == desired + 1
    // No row is deleted or demoted.
    ensures ledger.Keys <= r.ledger.Keys && Evolves(ledger, r.ledger)
    // Only the requested resource's row can change.
    ensures forall x :: x in r.ledger && !(body.Bound? && x == body.value) ==> x in ledger && r.ledger[x] == ledger[x]
    // Observed moves only on a completed wait, by one, answered 201.
    ensures r.observed == observed || (r.observed == observed + 1 && r.reply == ProvisionedReply())
    ensures r.reply.NoReply? ==> w.Cancelled? && r.observed == observed
    ensures r.reply.Reply? ==> r.reply.status in {200, 201, 202, 400, 500}
  {
    match body
    case Malformed(e) =>
      ProvisionOutcome(ledger, desired + 1, observed, Reply(StatusBadRequest, Json([("error", JString(e))])))
    case Bound(id) =>
      var found: Lookup<Row> := if f.lookupFails then LookupError else if id in ledger then Found(ledger[id]) else NotFound;
      if found.Found? && found.row.state == Provisioned then
        ProvisionOutcome(ledger, desired + 1, observed, Reply(StatusOK, ResourceJson(id, found.row)))
      else if found.Found? && found.row.state == Provisioning then
        ProvisionOutcome(ledger, desired + 1, observed, AlreadyInProgress())
      else if found.LookupError? then
        ProvisionOutcome(ledger, desired + 1, observed, LookupFailed())
      else if found.NotFound? && f.insertFails then
        ProvisionOutcome(ledger, desired + 1, observed, CreateFailed())
      else
        // A fresh PROVISIONING row, or an existing FAILED row, reaches the wait.
        var created := if found.NotFound? then ledger[id := Row(Provisioning, now)] else ledger;
        match w
        case Cancelled => ProvisionOutcome(created, desired + 1, observed, NoReply)
        case Completed(at) =>
          var done := if f.updateFails then created else created[id := Row(Provisioned, at)];
          ProvisionOutcome(done, desired + 1, observed + 1, ProvisionedReply())
  }

  /** A malformed body: 400 with the decoder's error, ledger and Observed untouched. */
  lemma MalformedIsRejected(ledger: Ledger, desired: int, observed: int, e: Bytes, now: int, f: StoreFaults, w: Wait)
    ensures Provision(ledger, desired, observed, Malformed(e), now, f, w)
         == ProvisionOutcome(ledger, desired + 1, observed, Reply(400, Json([("error", JString(e))])))
  {
  }

  /** An existing PROVISIONED row: 200 with its id, state and UpdatedAt; nothing written. */
  lemma ProvisionedIsShortCircuited(ledger: Ledger, desired: int, observed: int, id: ResourceId, now: int, f: StoreFaults, w: Wait)
    requires !f.lookupFails && id in ledger && ledger[id].state == Provisioned
    ensures Provision(ledger, desired, observed, Bound(id), now, f, w)
         == ProvisionOutcome(ledger, desired + 1, observed, Reply(200, ResourceJson(id, ledger[id])))
  {
  }

  /** An existing PROVISIONING row: 202 and nothing written. */
  lemma InProgressIsAccepted(ledger: Ledger, desired: int, observed: int, id: ResourceId, now: int, f: StoreFaults, w: Wait)
    requires !f.lookupFails && id in ledger && ledger[id].state == Provisioning
    ensures Provision(ledger, desired, observed, Bound(id), now, f, w)
         == ProvisionOutcome(ledger, desired + 1, observed, AlreadyInProgress())
  {
  }

  /** A lookup error other than not-found, or a failed insert: 500 and no row written. */
  lemma StoreErrorsAnswer500(ledger: Ledger, desired: int, observed: int, id: ResourceId, now: int, f: StoreFaults, w: Wait)
    requires f.lookupFails || (id !in ledger && f.insertFails)
    ensures var r := Provision(ledger, desired, observed, Bound(id), now, f, w);
      r.ledger == ledger && r.observed == observed && r.reply.Reply? && r.reply.status == 500
  {
  }

  /**
   * An absent id gets one PROVISIONING row; a cancelled wait answers
   * nothing and leaves the row PROVISIONING for the shard reconciler.
   */
  lemma CancelledLeavesProvisioning(ledger: Ledger, desired: int, observed: int, id: ResourceId, now: int, f: StoreFaults)
    requires id !in ledger && !f.lookupFails && !f.insertFails
    ensures Provision(ledger, desired, observed, Bound(id), now, f, Cancelled)
         == ProvisionOutcome(ledger[id := Row(Provisioning, now)], desired + 1, observed, NoReply)
  {
  }

  /** A completed wait: the row is PROVISIONED, Observed goes up by one, the answer is 201. */
  lemma CompletedProvisions(ledger: Ledger, desired: int, observed: int, id: ResourceId, now: int, at: int)
    requires id !in ledger || ledger[id].state == Failed
    ensures var r := Provision(ledger, desired, observed, Bound(id), now, NoStoreFaults, Completed(at));
      r.ledger == ledger[id := Row(Provisioned, at)] && r.observed == observed + 1 && r.reply == ProvisionedReply()
  {
  }

  /**
   * The second layer of duplicate protection: once a request has
   * provisioned `id`, a later request for the same id, under any
   * idempotency key, answers 200 and changes neither the ledger nor
   * Observed (only Desired, which every request increments).
   */
  lemma RepeatedProvisionIsNoOp(ledger: Ledger, desired: int, observed: int, id: ResourceId, now: int, at: int,
                                now2: int, f2: StoreFaults, w2: Wait)
    requires id !in ledger
    requires !f2.lookupFails
    ensures var first := Provision(ledger, desired, observed, Bound(id), now, NoStoreFaults, Completed(at));
      var second := Provision(first.ledger, first.desired, first.observed, Bound(id), now2, f2, w2);
      second == ProvisionOutcome(first.ledger, desired + 2, observed + 1, Reply(200, ResourceJson(id, Row(Provisioned, at))))
  {
  }

  /** setDesiredHandler as a function of Desired before the request and the decoded body. */
  function SetDesired(desired: int, body: Bind<int>): (int, Reply)
  {
    match body
    case Malformed(e) => (desired, Reply(StatusBadRequest, Json([("error", JString(e))])))
    case Bound(count) => (count, Reply(StatusOK, Json([("desired", JNumber(count)), ("message", JString(Ascii("Desired state updated")))])))
  }

  /** A decoded count replaces Desired and is echoed back with 200; a malformed body gives 400 and keeps Desired. */
  lemma SetDesiredOverwrites(desired: int, body: Bind<int>)
    ensures var (after, reply) := SetDesired(desired, body);
      reply.Reply? &&
      (reply.status == 200 <==> body.Bound?) &&
      (reply.status == 400 <==> body.Malformed?) &&
      after == (if body.Bound? then body.value else desired)
  {
  }

  /** The answer to GET /v1/state. */
  function StateJson(desired: int, observed: int): Reply
  {
    Reply(StatusOK, Json([("desired", JNumber(desired)), ("observed", JNumber(observed)), ("status", JString(Ascii("reconciling")))]))
  }

  /** The control plane's in-memory view plus the store: everything a request or a tick can change. */
  datatype ClusterState = ClusterState(
    ledger: Ledger,
    executions: map<string, Execution>,
    lease: Option<LeaseRow>,
    desired: int,
    observed: int)

  class Provisioner {
    var desired: int
    var observed: int
    const db: Database

    function State(): ClusterState
      reads this, db
    {
      ClusterState(db.ledger, db.executions, db.lease, desired, observed)
    }

    /**
     * SetupV1's start-up: Desired is rehydrated with the row count, Observed
     * with the PROVISIONED count; a Count that fails leaves its field at 0.
     */
    constructor Setup(db: Database, desiredCountFails: bool, observedCountFails: bool)
      ensures this.db == db
      ensures desired == if desiredCountFails then 0 else |db.ledger|
      ensures observed == if observedCountFails then 0 else CountInState(db.ledger, Provisioned)
    {
      this.db := db;
      desired := db.CountRows(desiredCountFails);
      observed := db.CountRowsInState(Provisioned, observedCountFails);
    }

    method IncDesired()
      modifies this
      ensures desired == old(desired) + 1 && observed == old(observed)
    {
      desired := desired + 1;
    }

    method DecDesired()
      modifies this
      ensures desired == old(desired) - 1 && observed == old(observed)
    {
      desired := desired - 1;
    }

    method IncObserved()
      modifies this
      ensures observed == old(observed) + 1 && desired == old(desired)
    {
      observed := observed + 1;
    }

    method DecObserved()
      modifies this
      ensures observed == old(observed) - 1 && desired == old(desired)
    {
      observed := observed - 1;
    }

    function GetDesired(): int
      reads this
    {
      desired
    }

    function GetObserved(): int
      reads this
    {
      observed
    }

    /** POST /v1/provision, step by step against the store. */
    method ResourceProvisioningHandler(body: Bind<ResourceId>, now: int, f: StoreFaults, w: Wait) returns (reply: Reply)
      modifies this, db
      ensures ProvisionOutcome(db.ledger, desired, observed, reply)
           == Provision(old(db.ledger), old(desired), old(observed), body, now, f, w)
      ensures db.executions == old(db.executions) && db.lease == old(db.lease)
    {
      IncDesired();
      if body.Malformed? {
        return Reply(StatusBadRequest, Json([("error", JString(body.error))]));
      }
      var id := body.value;
      var found := db.FindResource(id, f.lookupFails);
      if found.Found? {
        if found.row.state == Provisioned {
          return Reply(StatusOK, ResourceJson(id, found.row));
        }
        if found.row.state == Provisioning {
          return AlreadyInProgress();
        }
      }
      if found.NotFound? {
        var ok := db.CreateResource(id, Row(Provisioning, now), f.insertFails);
        if !ok {
          return CreateFailed();
        }
      } else if found.LookupError? {
        return LookupFailed();
      }
      match w {
        case Cancelled =>
          return NoReply;
        case Completed(at) =>
          db.UpdateState(id, Provisioned, at, f.updateFails);
          IncObserved();
          return ProvisionedReply();
      }
    }

    /** POST /v1/desired: overwrite Desired with the requested count. */
    method SetDesiredHandler(body: Bind<int>) returns (reply: Reply)
      modifies this
      ensures (desired, reply) == SetDesired(old(desired), body)
      ensures observed == old(observed)
    {
      if body.Malformed? {
        return Reply(StatusBadRequest, Json([("error", JString(body.error))]));
      }
      desired := body.value;
      reply := Reply(StatusOK, Json([("desired", JNumber(desired)), ("message", JString(Ascii("Desired state updated")))]));
    }

    /** GET /v1/state */
    function StateReply(): Reply
      reads this
    {
      StateJson(desired, observed)
    }
  }
}
