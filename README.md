# learn_go core, modelled in Dafny

This project models two groups of code from the learn_go repository.

The first is the **control-plane reconciliation engine** (`learn-control-plane/rest/v1`). It is an HTTP service that provisions resources. The service keeps:
- a resource ledger (id → PROVISIONING / PROVISIONED / FAILED);
- an idempotency cache of answered requests;
- a single leader lease row;
- two in-memory counters, `Desired` and `Observed`.

Every node runs a periodic tick. The tick first tries to take or renew the lease. The leader then scales the ledger's row count towards `Desired`. Finally, every node completes the PROVISIONING rows of its own shard, where shards are chosen by 32-bit FNV-1a hash modulo the node count. That is the rule the doc comments of shard.go state; the Go functions themselves are still unimplemented stubs (see "## Left out"). Requests pass through two middlewares before they reach a handler. An auth middleware checks a token. An idempotency middleware answers retries from its cache, and caches every answer below 400.

The second group is a set of **self-contained algorithm and state-machine cores**:
- a circuit breaker (Closed / Open / HalfOpen);
- a bubble sort and an iterative quicksort with an explicit stack;
- naive and iterative Fibonacci sums;
- two string builders;
- two case-insensitive substring searches;
- slice utilities;
- a breadth-first traversal and the contract of its batch front end;
- a recursive binary search with an ASCII alphanumeric filter;
- the gRPC metadata validators.

The model takes the source's own form, file by file:
- Objects whose fields the code updates become classes with `modifies` clauses:
  - the store (`Store.Database`);
  - the provisioner (`Handlers.Provisioner`);
  - the response writers;
  - the breaker (`CircuitBreaker.Breaker`).
- Each method of those classes is proved equal to a pure function of the old state. The properties are lemmas about those functions.
- In-place array algorithms keep their arrays: `Swap`, `BubblePass`, `Partition`, `QuickSort` and its stack.
- Accumulator loops are methods. Each is proved equal to a recursive reference definition.
- Pure code is functions and lemmas.

External effects are inputs to the model:
- Store failures are boolean fault flags.
- The clock is an integer in nanoseconds, or a function from loop iteration to reading.
- The provisioning wait is an outcome (`Completed(at)` or `Cancelled`).
- Environment variables are a map.

Files: `common.dfy` holds shared vocabulary. `decimal.dfy` holds `strconv` Itoa and Atoi. Each source file is one module:
- `store.dfy`, `http.dfy`, `shard.dfy`, `lease.dfy`, `handlers.dfy`, `reconciler.dfy` and `middleware.dfy` model the control plane;
- `circuit_breaker.dfy` models `challenge_20.go`;
- `challenge16.dfy` models `challenge_16.go`;
- `slices.dfy` models `challenge_19.go`;
- `bfs.dfy` models `concurrent_bfs.go`;
- `gin_routes.dfy` models `v1_routes.go`;
- `grpc_validation.dfy` models `validations.go`.

Two behaviours of the code shape the model:
- **Store errors in the reconciler passes.** The code discards the errors of the statements in `reconcileGlobalState` and `reconcileShard`, so a pass never aborts. The model makes each failure an input (`Reconciler.GlobalFaults`, `Reconciler.ShardFaults`):
  - a failed Count leaves its variable at 0;
  - a failed Find leaves its list empty;
  - a failed Create, Update or Delete is skipped.

  The model then proves what each pass does under those failures. For example, a failed total Count makes the leader create Desired rows on top of the existing ones (`Reconciler.FailedCountOvershoots`).
- **Cancelled provisioning wait.** The cancellation branch writes no answer at all, so gin reports 200. The idempotency middleware then caches that empty 200 (`Middleware.CancelledProvisionCachesEmpty200`).

## Model

| member | source | states |
|---|---|---|
| Store.ProvisioningState.Code | modules/learn-control-plane/rest/v1/handlers.go:16-22 | the three states are encoded 0, 1, 2 in iota order; each code belongs to exactly one state |
| Store.IdsInState | modules/learn-control-plane/rest/v1/reconciler.go:71 | an id is selected exactly when its row is in the given state |
| Store.CountInState | modules/learn-control-plane/rest/v1/reconciler.go:70-71 | the count of rows in a state never exceeds the total row count |
| Store.Database.CountRows | modules/learn-control-plane/rest/v1/reconciler.go:68-70 | the count read is the number of rows, or 0 (the variable's zero value) when the statement fails |
| Store.Database.CountRowsInState | modules/learn-control-plane/rest/v1/reconciler.go:69-71 | the count read is the number of rows in the state, at most the row count, or 0 when the statement fails |
| Store.Database.FindAll | modules/learn-control-plane/rest/v1/reconciler.go:111-112 | the snapshot is the whole ledger, or empty when the statement fails |
| Store.Database.FindResource | modules/learn-control-plane/rest/v1/handlers.go:141 | a lookup finds the stored row; not-found happens exactly when the statement succeeds and the id is absent |
| Store.Database.CreateResource | modules/learn-control-plane/rest/v1/handlers.go:167 | an insert succeeds exactly when the id is new and the statement does not fail; otherwise nothing changes |
| Store.Database.UpdateState | modules/learn-control-plane/rest/v1/handlers.go:182 | the update rewrites state and UpdatedAt of an existing row and touches nothing else |
| Store.Database.DeleteResource | modules/learn-control-plane/rest/v1/reconciler.go:97 | a delete that does not fail removes exactly that row; a failing one changes nothing |
| Store.Database.FindProvisioned | modules/learn-control-plane/rest/v1/reconciler.go:94-95 | returns min(limit, #PROVISIONED) distinct ids, all PROVISIONED; none when the statement fails |
| Store.Database.FindExecution | modules/learn-control-plane/rest/v1/middleware.go:72 | a cache lookup finds the stored execution; not-found happens exactly when the statement succeeds and the key is absent |
| Store.Database.CreateExecution | modules/learn-control-plane/rest/v1/middleware.go:101 | a duplicate key or a failed statement changes nothing; otherwise exactly that entry is added |
| Store.Database.UpdateLease | modules/learn-control-plane/rest/v1/lease.go:26-32 | one row is affected exactly when the row exists and is held by the caller or expired strictly before now; only then is it rewritten |
| Store.Database.FindLease | modules/learn-control-plane/rest/v1/lease.go:48 | a lookup finds the lease row; not-found happens exactly when the statement succeeds and there is no row |
| Store.Database.CreateLease | modules/learn-control-plane/rest/v1/lease.go:51-55 | the insert succeeds exactly when no row exists and the statement does not fail |
| Decimal.NatToString | modules/learn-control-plane/rest/v1/reconciler.go:88 | the decimal text is non-empty ASCII digits |
| Decimal.ValueOfNatToString | modules/learn-control-plane/rest/v1/reconciler.go:88 | reading back the printed digits gives the number |
| Decimal.Atoi | modules/learn-control-plane/rest/v1/shard.go:43-47 | a result is in int64 range, and the text is an optional sign followed by one or more digits whose value, negated after '-', is the result; every in-range digit string, bare or after '-', parses to its value |
| Decimal.AtoiOfIntToString | modules/learn-control-plane/rest/v1/shard_test.go:81-87 | Atoi accepts exactly what Itoa prints, for every 64-bit value |
| Http.JsonText | modules/learn-control-plane/rest/v1/handlers.go:157 | a one-field JSON answer carries the given status and a body delimited by { and } |
| Http.ResponseWriter.WriteHeader | modules/learn-control-plane/rest/v1/middleware.go:93 | the status changes only before the body has started |
| Http.ResponseWriter.Write | modules/learn-control-plane/rest/v1/middleware.go:21 | the bytes are appended to the body and the status is frozen |
| Http.Emit | modules/learn-control-plane/rest/v1/handlers.go:136-184 | a reply leaves its status and body in the writer; no reply leaves the writer as it was: status 200, empty body, nothing written |
| Shard.FnvFoldAppend | modules/learn-control-plane/rest/v1/shard.go:19 | hashing in two pieces equals hashing at once |
| Shard.FnvVectors | modules/learn-control-plane/rest/v1/shard.go:19 | the FNV-1a 32-bit digests of "" and "a" are the published 0x811c9dc5 and 0xe40c292c |
| Shard.ShardConfig.Owner | modules/learn-control-plane/rest/v1/shard.go:18-21 | the owner index is FNV-1a(id) mod TotalNodes, and it is below TotalNodes; being a function of config and id, it is deterministic |
| Shard.ExactlyOneOwner | modules/learn-control-plane/rest/v1/shard_test.go:17-42 | for TotalNodes ≥ 1, exactly one index in [0, TotalNodes) owns each id |
| Shard.OwnersAreUnique | modules/learn-control-plane/rest/v1/shard_test.go:29-40 | two nodes of one cluster that both own an id have the same index |
| Shard.SingleNodeOwnsAll | modules/learn-control-plane/rest/v1/shard_test.go:10-15 | config {0, 1} owns every id |
| Shard.ParseShardConfig | modules/learn-control-plane/rest/v1/shard.go:38-46 | a missing or unparsable NODE_INDEX gives 0; a missing, unparsable or non-positive TOTAL_NODES gives 1; valid values pass through |
| Shard.DefaultsToSingleNode | modules/learn-control-plane/rest/v1/shard_test.go:72-79 | with neither variable set the config is {0, 1} |
| Shard.ParseRoundTrip | modules/learn-control-plane/rest/v1/shard_test.go:81-87 | printed integers come back unchanged, e.g. "2"/"5" give {2, 5} |
| Shard.NonPositiveTotalIsSingleNode | modules/learn-control-plane/rest/v1/shard.go:45 | TOTAL_NODES ≤ 0 falls back to one node |
| Lease.AcquireLease | modules/learn-control-plane/rest/v1/lease.go:17-61 | on success the lease is {caller, now + 15 s}; on failure the lease is unchanged |
| Lease.LeaderIff | modules/learn-control-plane/rest/v1/lease.go:26-56 | the caller leads exactly when the update does not fail and either it matches (own row or expired) or the row is absent and the insert succeeds |
| Lease.ExpiryIsStrict | modules/learn-control-plane/rest/v1/lease.go:28 | a lease with ExpiresAt == now is still held by its owner |
| Lease.MutualExclusion | modules/learn-control-plane/rest/v1/lease.go:49-60 | two distinct nodes at the same instant against an absent row: the first leads, the second does not and the row is unchanged |
| Lease.Failover | modules/learn-control-plane/rest/v1/lease.go:28 | the second node succeeds exactly once now is later than the first node's expiry |
| Lease.HeartbeatRenews | modules/learn-control-plane/rest/v1/lease.go:28-44 | the holder always renews when the update succeeds |
| Lease.TryAcquireLease | modules/learn-control-plane/rest/v1/lease.go:17-61 | the statement sequence yields exactly AcquireLease's result and lease row; the ledger and cache are untouched |
| Handlers.Provision | modules/learn-control-plane/rest/v1/handlers.go:130-186 | Desired rises by one whatever the outcome; no row is deleted or demoted; only the requested row can change; Observed rises only with a 201; no reply only on cancellation |
| Handlers.MalformedIsRejected | modules/learn-control-plane/rest/v1/handlers.go:132-138 | a malformed body gives 400 and leaves the ledger and Observed untouched |
| Handlers.ProvisionedIsShortCircuited | modules/learn-control-plane/rest/v1/handlers.go:147-154 | an existing PROVISIONED row gives 200 carrying its id, state and UpdatedAt, and nothing is written |
| Handlers.InProgressIsAccepted | modules/learn-control-plane/rest/v1/handlers.go:156-159 | an existing PROVISIONING row gives 202 and nothing is written |
| Handlers.StoreErrorsAnswer500 | modules/learn-control-plane/rest/v1/handlers.go:162-174 | a lookup error or a failed insert gives 500 with the ledger and Observed unchanged |
| Handlers.CancelledLeavesProvisioning | modules/learn-control-plane/rest/v1/handlers.go:162-179 | an absent id gets one PROVISIONING row; a cancelled wait writes no reply and leaves it PROVISIONING |
| Handlers.CompletedProvisions | modules/learn-control-plane/rest/v1/handlers.go:143-185 | an absent or FAILED row becomes PROVISIONED on completion, Observed rises by one, and the answer is 201 |
| Handlers.RepeatedProvisionIsNoOp | modules/learn-control-plane/rest/v1/handlers.go:141-154 | after a completed provisioning, a second request for the same id answers 200 and changes only Desired |
| Handlers.SetDesiredOverwrites | modules/learn-control-plane/rest/v1/handlers.go:188-203 | a decoded count replaces Desired with 200; a malformed body gives 400 and keeps Desired |
| Handlers.Provisioner.Setup | modules/learn-control-plane/rest/v1/handlers.go:97-109 | startup sets Desired to the row count and Observed to the PROVISIONED count; a Count that fails leaves its field at 0 |
| Handlers.Provisioner.IncDesired | modules/learn-control-plane/rest/v1/handlers.go:31-35 | Desired rises by one, and Observed is kept |
| Handlers.Provisioner.DecDesired | modules/learn-control-plane/rest/v1/handlers.go:37-41 | Desired falls by one, and Observed is kept |
| Handlers.Provisioner.IncObserved | modules/learn-control-plane/rest/v1/handlers.go:43-47 | Observed rises by one, and Desired is kept |
| Handlers.Provisioner.DecObserved | modules/learn-control-plane/rest/v1/handlers.go:49-53 | Observed falls by one, and Desired is kept |
| Handlers.Provisioner.ResourceProvisioningHandler | modules/learn-control-plane/rest/v1/handlers.go:130-186 | the statement-by-statement handler leaves exactly the state and reply Provision computes; the cache and lease are untouched |
| Handlers.Provisioner.SetDesiredHandler | modules/learn-control-plane/rest/v1/handlers.go:188-203 | Desired and the reply are SetDesired's; Observed is kept |
| Reconciler.AutoIdInjective | modules/learn-control-plane/rest/v1/reconciler.go:88 | two "global-auto-<nanos>-<i>" ids are equal only for equal nanos and i |
| Reconciler.StubIdsInjective | modules/learn-control-plane/rest/v1/reconciler.go:87-90 | the ids of one scale-up are pairwise distinct, whatever the clock reads |
| Reconciler.ScaleUp | modules/learn-control-plane/rest/v1/reconciler.go:84-90 | the scale-up adds the ids of the iterations whose Create did not fail, as PROVISIONING rows; existing rows are untouched |
| Reconciler.ScaleUpAddsExactly | modules/learn-control-plane/rest/v1/reconciler.go:85-90 | with fresh, distinct ids and every Create succeeding, exactly diff rows are added |
| Reconciler.GlobalStepEvolves | modules/learn-control-plane/rest/v1/reconciler.go:68-99 | whatever statements fail, the global pass never demotes a PROVISIONED row and deletes only PROVISIONED rows |
| Reconciler.ScaleDownSparesUnfinished | modules/learn-control-plane/rest/v1/reconciler.go:91-99 | PROVISIONING and FAILED rows survive a scale-down untouched |
| Reconciler.ScaleDownSize | modules/learn-control-plane/rest/v1/reconciler.go:91-99 | when no statement fails, a scale-down leaves at least Desired rows, and exactly Desired when enough PROVISIONED rows existed |
| Reconciler.ScaleUpReachesDesired | modules/learn-control-plane/rest/v1/reconciler.go:84-90 | when no statement fails and the ids are fresh and distinct, the row count becomes Desired and the PROVISIONED set is unchanged |
| Reconciler.HealthyStepScalesUp | modules/learn-control-plane/rest/v1/reconciler.go:70-90 | when no statement fails and Desired exceeds the row count, the pass is a scale-up by the difference with every Create succeeding |
| Reconciler.FreshScaleUp | modules/learn-control-plane/rest/v1/reconciler.go:85-90 | n fresh, distinct ids with no failed Create add exactly n rows, none of them PROVISIONED |
| Reconciler.FailedCountScalesUp | modules/learn-control-plane/rest/v1/reconciler.go:68-90 | after a failed total Count, a positive Desired makes the pass a scale-up by all of Desired |
| Reconciler.FailedCountOvershoots | modules/learn-control-plane/rest/v1/reconciler.go:68-90 | a failed total Count reads 0, so Desired new rows are added on top of the existing ones: 3 rows at Desired 3 become 6 |
| Reconciler.SecondPassIsNoOp | modules/learn-control-plane/rest/v1/reconciler.go:68-99 | after a fault-free scale-up, a second pass with the same Desired whose total Count succeeds changes nothing, and the PROVISIONED count is as before |
| Reconciler.ShardPassChangesExactlyOwnedInFlight | modules/learn-control-plane/rest/v1/reconciler.go:116-131 | the shard pass changes exactly the owned PROVISIONING rows, with no insert or delete; afterwards no owned row is PROVISIONING |
| Reconciler.ShardFaultsOnlySkipWork | modules/learn-control-plane/rest/v1/reconciler.go:111-131 | failures only skip work: no insert or delete; a row changes only if this node completes it and its update succeeds; a failed snapshot changes nothing; with no failure the pass is ShardPass |
| Reconciler.ShardPassIdempotent | modules/learn-control-plane/rest/v1/reconciler.go:121-130 | running the shard pass twice equals running it once |
| Reconciler.ShardPassesProgress | modules/learn-control-plane/rest/v1/reconciler.go:108-131 | after the passes of nodes 0..k-1, their rows are done and all other rows are untouched |
| Reconciler.AllShardsFinishInFlight | modules/learn-control-plane/rest/v1/reconciler.go:108-131 | once every node has run its pass, no row is PROVISIONING |
| Reconciler.TallyCountsOwnedProvisioned | modules/learn-control-plane/rest/v1/reconciler.go:115-131 | the local tally counts exactly the owned rows that are PROVISIONED after the pass |
| Reconciler.VisitRow | modules/learn-control-plane/rest/v1/reconciler.go:117-130 | one loop iteration completes the row if this node owns it, it is PROVISIONING and its update succeeds, and counts owned live rows |
| Reconciler.ReconcileShard | modules/learn-control-plane/rest/v1/reconciler.go:108-136 | the ledger follows ShardPassUnder for the failures met; the tally is the number of owned live rows, or 0 after a failed snapshot; Observed, Desired, cache and lease are untouched |
| Reconciler.VisitAll | modules/learn-control-plane/rest/v1/reconciler.go:116-131 | the loop over the snapshot completes exactly its owned PROVISIONING rows whose update succeeds, and tallies its owned live rows |
| Reconciler.CreateStubs | modules/learn-control-plane/rest/v1/reconciler.go:85-90 | the create loop yields exactly ScaleUp, skipping each failed Create |
| Reconciler.DeleteSurplus | modules/learn-control-plane/rest/v1/reconciler.go:91-99 | the delete loop removes only PROVISIONED rows whose Delete succeeds, at most min(diff, #PROVISIONED); nothing after a failed Find; exactly min(diff, #PROVISIONED) when nothing fails |
| Reconciler.ScaleTowards | modules/learn-control-plane/rest/v1/reconciler.go:84-99 | for whatever total count was read, the three-way branch yields the GlobalStepFrom relation |
| Reconciler.ReconcileGlobalState | modules/learn-control-plane/rest/v1/reconciler.go:67-100 | Observed becomes the PROVISIONED count read before scaling (0 if that Count fails), Desired is kept, and the ledger follows GlobalStep over the total count as read |
| Reconciler.NodeId | modules/learn-control-plane/rest/v1/reconciler.go:26-29 | NODE_ID, or "local" when unset or empty |
| Reconciler.Reconcile | modules/learn-control-plane/rest/v1/reconciler.go:25-62 | the global pass runs exactly when the lease is won, and Observed changes only then; the shard pass runs on every node on the ledger the global pass left; both follow the failures they meet; Desired is never written |
| Middleware.BodyWriter.Write | modules/learn-control-plane/rest/v1/middleware.go:19-22 | exactly the forwarded bytes are appended to the capture buffer and to the client body |
| Middleware.EmitCaptured | modules/learn-control-plane/rest/v1/middleware.go:86-90 | the captured copy equals what the client receives |
| Middleware.Delivered | modules/learn-control-plane/rest/v1/middleware.go:93 | a written reply is delivered as is; no reply reaches the client as gin's empty 200 |
| Middleware.CacheEntriesAreNeverOverwritten | modules/learn-control-plane/rest/v1/middleware.go:101-103 | no request removes or changes an existing cache entry |
| Middleware.RejectedRequestsChangeNothing | modules/learn-control-plane/rest/v1/middleware.go:42-50 | 401 without the "secret" X-Auth-Token and 404 for unrouted requests, with no state change |
| Middleware.BypassIgnoresCache | modules/learn-control-plane/rest/v1/middleware.go:59-62 | GET and /v1/desired neither read nor write the cache |
| Middleware.MissingKeyIsRejected | modules/learn-control-plane/rest/v1/middleware.go:64-68 | a missing X-Idempotency-Key gives 400 and the handler does not run |
| Middleware.CacheHitReplays | modules/learn-control-plane/rest/v1/middleware.go:72-77 | a cache hit returns the stored status and body verbatim and the handler does not run |
| Middleware.CacheLookupErrorIs500 | modules/learn-control-plane/rest/v1/middleware.go:80-84 | a cache lookup error gives 500 and the handler does not run |
| Middleware.MissIsCachedBelow400 | modules/learn-control-plane/rest/v1/middleware.go:86-104 | on a miss the handler runs, and its answer is cached exactly when its status is below 400 and the insert succeeds |
| Middleware.RetryReplaysFirstAnswer | modules/learn-control-plane/rest/v1/middleware.go:72-104 | a retry with a cached key replays the first answer byte for byte and changes nothing |
| Middleware.CancelledProvisionCachesEmpty200 | modules/learn-control-plane/rest/v1/middleware.go:93-100 | a cancelled provisioning reaches the client as an empty 200, and that is what gets cached |
| Middleware.Server.Dispatch | modules/learn-control-plane/rest/v1/handlers.go:118-127 | the routed handler leaves exactly the state and reply Handle computes |
| Middleware.Server.ServeHttp | modules/learn-control-plane/rest/v1/middleware.go:34-106 | one request through router, auth and idempotency yields exactly Serve's state and response |
| CircuitBreaker.WithDefaults | modules/go-interview-practise/ch20/challenge_20.go:85-108 | after defaulting, MaxRequests ≥ 1 and all durations are non-zero |
| CircuitBreaker.ZeroConfigDefaults | modules/go-interview-practise/ch20/challenge_20.go:87-108 | zero values become MaxRequests 1, Interval 1 min, Timeout 30 s, OperationTimeout 1 s, and the rule "Requests ≥ 20 and Failures/Requests ≥ 0.5" |
| CircuitBreaker.ExplicitConfigKept | modules/go-interview-practise/ch20/challenge_20.go:87-108 | explicitly given values are kept |
| CircuitBreaker.SetSameStateIsNoOp | modules/go-interview-practise/ch20/challenge_20.go:194-215 | setting the current state changes nothing and notifies nobody |
| CircuitBreaker.SetStateNotifiesOnChange | modules/go-interview-practise/ch20/challenge_20.go:194-213 | a real change stamps the time, resets the metrics only on entering Closed, and fires OnStateChange(from, to) exactly when it is configured |
| CircuitBreaker.ClosedAlwaysPermits | modules/go-interview-practise/ch20/challenge_20.go:251-253 | Closed permits every call and changes nothing |
| CircuitBreaker.HalfOpenAdmitsUpToMax | modules/go-interview-practise/ch20/challenge_20.go:234-240 | HalfOpen admits, and counts, a call exactly while halfOpenRequests < MaxRequests; otherwise ErrTooManyRequests with no change |
| CircuitBreaker.OpenWaitsForTimeout | modules/go-interview-practise/ch20/challenge_20.go:243-249 | Open permits exactly when elapsed > Timeout, moving to HalfOpen with both probe counters 0 and not counting this call; otherwise ErrCircuitBreakerOpen with no change |
| CircuitBreaker.SuccessCounts | modules/go-interview-practise/ch20/challenge_20.go:274-295 | a success adds 1 to Requests and Successes and zeroes the streak; in HalfOpen it closes and zeroes the metrics |
| CircuitBreaker.FailureCountsAndTrips | modules/go-interview-practise/ch20/challenge_20.go:307-322 | a failure adds 1 to Requests, Failures and the streak and stamps LastFailureTime; HalfOpen reopens; Closed opens exactly when ReadyToTrip holds; metrics are not reset |
| CircuitBreaker.WindowResetsOnlyClosed | modules/go-interview-practise/ch20/challenge_20.go:261-265 | a Closed breaker resets its metrics, and restarts its window at now, exactly when more than Interval has passed; no other state resets |
| CircuitBreaker.TransitionsKeepValid | modules/go-interview-practise/ch20/challenge_20.go:186-323 | every transition keeps Requests == Successes + Failures, the streak ≤ Failures, and the HalfOpen probe bound |
| CircuitBreaker.CallKeepsValid | modules/go-interview-practise/ch20/challenge_20.go:120-169 | a call keeps the invariant, and a rejected call changes nothing |
| CircuitBreaker.Breaker.constructor | modules/go-interview-practise/ch20/challenge_20.go:85-117 | a new breaker is Closed with zero metrics, defaulted settings and a valid state |
| CircuitBreaker.Breaker.ResetMetrics | modules/go-interview-practise/ch20/challenge_20.go:218-223 | the fields become AfterReset of the old ones |
| CircuitBreaker.Breaker.SetState | modules/go-interview-practise/ch20/challenge_20.go:186-216 | the fields and the callback become AfterSetState of the old ones |
| CircuitBreaker.Breaker.CanExecute | modules/go-interview-practise/ch20/challenge_20.go:226-259 | the fields, callback and error become AfterCanExecute of the old ones |
| CircuitBreaker.Breaker.CheckWindow | modules/go-interview-practise/ch20/challenge_20.go:261-265 | the fields become AfterCheckWindow of the old ones |
| CircuitBreaker.Breaker.RecordSuccess | modules/go-interview-practise/ch20/challenge_20.go:268-296 | the fields and callback become AfterSuccess of the old ones, with halfOpenSuccess wrapping at 2^32 |
| CircuitBreaker.Breaker.RecordFailure | modules/go-interview-practise/ch20/challenge_20.go:299-323 | the fields and callback become AfterFailure of the old ones |
| CircuitBreaker.Breaker.Call | modules/go-interview-practise/ch20/challenge_20.go:120-169 | the fields, the result and the callbacks fired, in order, are AfterCall's |
| Challenge16.Swap | modules/go-interview-practise/ch16/challenge_16.go:18-20 | the two cells are exchanged and the contents are a permutation |
| Challenge16.BubblePass | modules/go-interview-practise/ch16/challenge_16.go:16-23 | one pass moves the next largest element into place and permutes the array |
| Challenge16.SlowSort | modules/go-interview-practise/ch16/challenge_16.go:11-26 | the result is a sorted permutation of the input; the input slice is copied and not changed |
| Challenge16.PartitionScanLoop | modules/go-interview-practise/ch16/challenge_16.go:33-39 | the scan leaves [i+1, x] below the pivot and (x, j] at or above it, permuting [i, j] only |
| Challenge16.Partition | modules/go-interview-practise/ch16/challenge_16.go:31-43 | returns x in [i, j] with data[x] = old data[i], [i, x) < pivot ≤ (x, j]; [i, j] is permuted and cells outside it are unchanged |
| Challenge16.SplitBlocks | modules/go-interview-practise/ch16/challenge_16.go:68-81 | the sub-ranges pushed around a pivot are disjoint, inside the range, and strictly smaller in total |
| Challenge16.PartitionStep | modules/go-interview-practise/ch16/challenge_16.go:66-81 | partitioning a pending block keeps every pair of cells outside a common pending block in order |
| Challenge16.PushBlock | modules/go-interview-practise/ch16/challenge_16.go:70-80 | a push writes both bounds within the stack and top rises by 2 |
| Challenge16.SortTurn | modules/go-interview-practise/ch16/challenge_16.go:60-82 | one pop / partition / push turn keeps the sorting invariant (stack in bounds, blocks disjoint, everything else ordered) and strictly shrinks the pending work |
| Challenge16.QuickSort | modules/go-interview-practise/ch16/challenge_16.go:47-84 | the stack of size end-start+1 is never indexed out of bounds; data[start..end] ends sorted and permuted, and other cells are unchanged |
| Challenge16.OptimizedSort | modules/go-interview-practise/ch16/challenge_16.go:88-93 | the result is a sorted permutation of the input |
| Challenge16.SortedPermutationUnique | modules/go-interview-practise/ch16/challenge_16.go:86-93 | two sorted permutations of one input are equal, so OptimizedSort and SlowSort agree on every input |
| Challenge16.RepeatAdd | modules/go-interview-practise/ch16/challenge_16.go:100-104 | repeating m + n times is repeating m times then n times |
| Challenge16.RepeatLength | modules/go-interview-practise/ch16/challenge_16.go:97-122 | the repeated text has length max(0, repeatCount) · length |
| Challenge16.RepeatAt | modules/go-interview-practise/ch16/challenge_16.go:111-122 | character c·len(s) + k of the repetition is s[k] |
| Challenge16.InefficientStringBuilder | modules/go-interview-practise/ch16/challenge_16.go:97-107 | the result is the concatenation of parts, repeated max(0, repeatCount) times |
| Challenge16.OptimizedStringBuilder | modules/go-interview-practise/ch16/challenge_16.go:111-122 | the same value as InefficientStringBuilder: the concatenation repeated max(0, repeatCount) times |
| Challenge16.Fibonacci | modules/go-interview-practise/ch16/challenge_16.go:141-146 | fibonacci(n) is non-negative for n ≥ 0 and positive for n ≥ 1 |
| Challenge16.MyFib | modules/go-interview-practise/ch16/challenge_16.go:153-167 | myFib(n) == fibonacci(n) for all n, and n ≤ 1 gives n |
| Challenge16.FibonacciSumClosedForm | modules/go-interview-practise/ch16/challenge_16.go:127-138 | the sum of the first n Fibonacci numbers is fibonacci(n+2) - 1 |
| Challenge16.ExpensiveCalculation | modules/go-interview-practise/ch16/challenge_16.go:127-138 | the result is the sum fibonacci(1..n): 0 for n ≤ 0 |
| Challenge16.OptimizedCalculation | modules/go-interview-practise/ch16/challenge_16.go:171-184 | the same sum as ExpensiveCalculation for every n, and 0 for n ≤ 0 |
| Challenge16.Lower | modules/go-interview-practise/ch16/challenge_16.go:192-193 | lower-casing maps each character through ASCII lower-casing and keeps the length |
| Challenge16.LowerIdempotent | modules/go-interview-practise/ch16/challenge_16.go:192-193 | lower-casing twice is lower-casing once |
| Challenge16.OccurrencesMeaning | modules/go-interview-practise/ch16/challenge_16.go:188-241 | the match map has key i exactly when text[i..i+len(s)) equals s ignoring case, and maps it to the original-case slice |
| Challenge16.EmptyNeedleMatchesEverywhere | modules/go-interview-practise/ch16/challenge_16.go:196-207 | for empty s, HighAllocationSearch maps every i < len(text) to "" |
| Challenge16.HighAllocationSearch | modules/go-interview-practise/ch16/challenge_16.go:188-210 | on ASCII input the result is the match map over i < len(text) |
| Challenge16.OptimizedSearch | modules/go-interview-practise/ch16/challenge_16.go:214-241 | on ASCII input: empty for empty s, otherwise the same match map as HighAllocationSearch |
| Challenge16.EmptyNeedleSearchesDisagree | modules/go-interview-practise/ch16/challenge_16.go:195-219 | for text "a" and an empty needle, HighAllocationSearch's map {0: ""} is not OptimizedSearch's empty map |
| Challenge16.CorrectedOptimizedSearch | modules/go-interview-practise/ch16/challenge_16.go:212-241 | on ASCII input the result is the map of every match position in the text to the matched text, for every needle, the empty one included, as HighAllocationSearch gives |
| Slices.FindMax | modules/go-interview-practise/ch19/challenge_19.go:31-41 | 0 for an empty slice; otherwise an element of the slice that is ≥ every element |
| Slices.RemoveDuplicates | modules/go-interview-practise/ch19/challenge_19.go:45-58 | the result is the first occurrences of the input, in order |
| Slices.FirstOccurrencesMembers | modules/go-interview-practise/ch19/challenge_19.go:45-58 | the de-duplicated slice holds exactly the input's values |
| Slices.FirstOccurrencesNoDup | modules/go-interview-practise/ch19/challenge_19.go:49-56 | the de-duplicated slice has no repeats |
| Slices.FirstOccurrencesOrder | modules/go-interview-practise/ch19/challenge_19.go:49-56 | values appear in the order of their first occurrence in the input |
| Slices.FirstOccurrencesIdempotent | modules/go-interview-practise/ch19/challenge_19.go:45-58 | removing duplicates twice is removing them once |
| Slices.Reversed | modules/go-interview-practise/ch19/challenge_19.go:61-71 | the reversal has the same length and result[k] == slice[n-1-k] |
| Slices.ReversedInvolution | modules/go-interview-practise/ch19/challenge_19.go:61-71 | reversing twice gives the slice back |
| Slices.ReverseSlice | modules/go-interview-practise/ch19/challenge_19.go:61-71 | the two-index loop fills a new slice with the reversal; the input is untouched |
| Slices.EvensMembers | modules/go-interview-practise/ch19/challenge_19.go:75-83 | the filtered slice holds exactly the even elements |
| Slices.EvensAppend | modules/go-interview-practise/ch19/challenge_19.go:75-83 | filtering commutes with concatenation, so the original order is kept |
| Slices.FilterEven | modules/go-interview-practise/ch19/challenge_19.go:75-83 | the result is the even elements in their original order |
| Bfs.FreshProps | modules/learn-routines/src/concurrent_bfs.go:36-42 | the neighbours enqueued from one node are the unvisited ones, once each |
| Bfs.DiscoveredNoDup | modules/learn-routines/src/concurrent_bfs.go:22-41 | no node is discovered twice |
| Bfs.DiscoveredReachable | modules/learn-routines/src/concurrent_bfs.go:30-44 | every discovered node is reachable from the start |
| Bfs.NeighboursDiscovered | modules/learn-routines/src/concurrent_bfs.go:36-42 | the neighbours of a processed node have been discovered |
| Bfs.BfsOrderProperties | modules/learn-routines/src/concurrent_bfs.go:27-44 | a BFS order starts with the start node, repeats nothing, and holds exactly the reachable nodes (a node missing from the map has no neighbours) |
| Bfs.BfsOrderUnique | modules/learn-routines/src/concurrent_bfs.go:30-44 | the FIFO discipline fixes the order: there is only one BFS order per start node |
| Bfs.EmptyGraphOrder | modules/learn-routines/src/concurrent_bfs.go:66-72 | in an empty graph the order from q is [q], so the shortcut agrees with travel |
| Bfs.Enqueue | modules/learn-routines/src/concurrent_bfs.go:36-42 | the neighbour loop appends exactly the fresh neighbours to the queue, in adjacency order, and marks them visited |
| Bfs.Travel | modules/learn-routines/src/concurrent_bfs.go:20-50 | the returned node is the start, and the order is its BFS order (dequeue from the front, enqueue unvisited neighbours at the back) |
| Bfs.ConcurrentBfsQueries | modules/learn-routines/src/concurrent_bfs.go:59-107 | numWorkers == 0 or no queries gives an empty map; otherwise the keys are exactly the queries and each maps to its BFS order ([q] for an empty graph); a negative numWorkers is accepted on the two early-return paths |
| GinRoutes.BinarySearchRecursive | modules/learn-gin/cmd/v1_routes.go:108-123 | −1 when left > right; a result r ≥ 0 has left ≤ r ≤ right and arr[r] == target; an absent target gives −1; terminates because right − left shrinks |
| GinRoutes.BinarySearchFinds | modules/learn-gin/cmd/v1_routes.go:115-123 | on an ascending arr, a target present in arr[left..right] is found |
| GinRoutes.BinarySearchMembership | modules/learn-gin/cmd/v1_routes.go:108-123 | on an ascending arr, the result is not −1 exactly when the target occurs in the range |
| GinRoutes.CheckAlphanumeric | modules/learn-gin/cmd/v1_routes.go:99-104 | the result is "" or the one-character string of b |
| GinRoutes.CheckAlphanumericKeeps | modules/learn-gin/cmd/v1_routes.go:99-104 | b is kept exactly when it is one of the 62 ASCII letters and digits, listed out |
| GrpcValidation.ValidateApiKey | modules/learn-grpc/server/validations.go:9-21 | nil exactly when the first x-api-key value is "super-secret-key"; no values gives Unauthenticated "api key is missing"; a wrong first value gives Unauthenticated "invalid api key: <value>" |
| GrpcValidation.ValidateVersion | modules/learn-grpc/server/validations.go:23-33 | nil exactly when the first x-client-version value is "1.0.0"; no values gives InvalidArgument "client version is missing"; a wrong first value gives InvalidArgument "invalid client version: <value>" |
| GrpcValidation.Intercept | modules/learn-grpc/server/main.go:67-78 | missing metadata gives Unauthenticated; otherwise the request passes exactly when both validators pass |
| GrpcValidation.ApiKeyCheckedFirst | modules/learn-grpc/server/main.go:72-78 | a request bad in both key and version reports the api-key error (Unauthenticated) |
| GrpcValidation.OnlyFirstValueMatters | modules/learn-grpc/server/validations.go:17-29 | values after the first never change either validator's answer |
| GrpcValidation.AcceptsWellFormed | modules/learn-grpc/server/validations.go:13-32 | metadata with the right key and version first is let through |

## Left out

- Database I/O (gorm, SQL): each statement is an operation on an in-memory table, and a failing statement is a boolean input. In the reconciler passes these inputs are collected in `GlobalFaults` and `ShardFaults`.
- The `sync.RWMutex` on the Provisioner and the breaker, the `startReconciler` ticker loop, and races between nodes or between requests: the model runs one sequential step at a time.
- `MaxConcurrentMiddleware`, `RateLimiterMiddleware` and `loggerMiddleware`: they are channel semaphores, a background goroutine and logging.
- JSON: request bodies arrive already decoded (`Http.Bind`). Response bodies are rendered without string escaping. Timestamps are integers, not RFC 3339 text. `CreatedAt` columns are never read and are not kept.
- Time: `time.Now` is an integer argument in nanoseconds. The scale-up loop reads the clock once per iteration, modelled as `clock(i)`. One reading `now` serves the lease and the whole shard pass, whereas Go stamps each completed row's UpdatedAt with its own `time.Now` (reconciler.go:128), after the lease's reading; the difference shows in the UpdatedAt of a later 200 reply. The random wait of `time.After(rand…)` and the client disconnect together become the `Wait` outcome (`Completed(at)` or `Cancelled`).
- Reconciler.CreateStubs: the name each iteration prints is an input `newId(i)`. The reconciler passes `StubIds(clock)`, the `global-auto-<nanos>-<i>` names, and `StubIdsInjective` proves them pairwise distinct. A refused duplicate id is modelled, and `ScaleUp` keeps the existing row in that case.
- Reconciler.ScaleDownSize: proved only when no statement of the pass fails. Under failures only GlobalStepEvolves and the bounds in ScaledDown hold.
- Reconciler.ScaleUpReachesDesired: proved only when no statement of the pass fails. A failed total Count overshoots instead (FailedCountOvershoots).
- Reconciler.SecondPassIsNoOp: proved only for a fault-free first pass and a second pass whose total Count succeeds.
- Reconciler.DeleteSurplus: which PROVISIONED rows the store returns is left open. `ScaledDown` is a relation, not a function, because the query has no ORDER BY.
- Shard.ShardConfig.Owner / Shard.ParseShardConfig: the Go bodies of `OwnsShard` and `ParseShardConfig` are `panic("TODO")` stubs (shard.go:34-36 and 50-52). The model implements the rules that their doc comments (shard.go:18-21 and 43-45) and shard_test.go state. Go's Reconcile as written would therefore panic at reconciler.go:47 on every tick, before the shard pass.
- Shard.ShardConfig.Owner: requires TotalNodes > 0, because the documented rule divides by TotalNodes. ParseShardConfig always yields such a config.
- The ±10 % distribution test in shard_test.go is statistical and is not a property here.
- The Desired and Observed counters and the metrics of the circuit breaker are unbounded integers; int64 overflow is not modelled.
- Challenge16.Fibonacci: integers are unbounded. Go's int64 result overflows from fibonacci(93) on, so the sign claims hold in Go only below that.
- Challenge16.MyFib: integers are unbounded. Under int64 wrap-around both functions add the same values modulo 2^64, so the equality with fibonacci still holds in Go.
- Challenge16.ExpensiveCalculation: integers are unbounded. In Go the int64 sum overflows from n = 91 on, because fibonacci(93) - 1 exceeds 2^63 - 1.
- Challenge16.OptimizedCalculation: integers are unbounded. In Go the sum overflows from n = 91 on; it still equals ExpensiveCalculation, since both add the same values modulo 2^64.
- AuthMiddleware's nil-header check is merged with the missing-token case: a nil header map has no X-Auth-Token.
- gin's router behaviour beyond the three routes is not modelled: trailing-slash redirects and 405 answers. Every other path is 404.
- CircuitBreaker.DefaultReadyToTrip: the float ratio Failures/Requests ≥ 0.5 is stated as 2·Failures ≥ Requests. The two agree for Requests ≥ 20, where the ratio is computed.
- CircuitBreaker.Breaker.Call: the `context.WithTimeout` wrapper is reduced to one input, whether the context is already done. The operation is reduced to its success or failure. `OnStateChange`'s name argument is not kept. GetState and GetMetrics are plain field reads and are not modelled.
- Challenge16.HighAllocationSearch and Challenge16.OptimizedSearch require ASCII text. `strings.ToLower` and `strings.EqualFold` treat non-ASCII text by Unicode rules, which are not modelled.
- Challenge16.OptimizedStringBuilder: `strings.Builder` and `bytes.Buffer` are modelled as a string accumulator. `strings.Join(parts, "")` is modelled as `Concat`.
- `SimulateCPUWork` is time-based busy work and is left out.
- Challenge16.Partition requires i ≤ j, as every call in quickSort satisfies.
- Challenge16.QuickSort requires start and end to lie inside the array when start < end, since Go would index out of range otherwise.
- GinRoutes.BinarySearchRecursive requires a non-empty range to lie inside the slice. Go also answers some ranges that stick out of the slice, when every midpoint it probes happens to be inside (arr [1, 2, 3], target 1, left 0, right 3 returns 0); on the others it indexes out of range. `(left + right) / 2` is computed without int overflow.
- `CountWordFrequency` in v1_routes.go does not compile (`word` is undefined), and `getUserByID`/`createUser` are gin and `sync.Map` glue; none of them is modelled.
- Bfs.ConcurrentBfsQueries: the worker goroutines, channels and WaitGroup are left out; the queries are traversed in sequence. A negative numWorkers is accepted only when there is no query or the graph is empty. Otherwise Go starts no worker, and its result loop blocks forever.
- In the gRPC interceptors, the deadline check before the metadata checks, the request-id injection, stream wrapping and metrics are left out.
- challenge_13.go (SQL CRUD plumbing), process_jobs.go, prod-service-patterns, the networking, cgo, runtime and JSON demos, and the gRPC client and streaming code are not part of this model.

## Findings

| source | as written | input that shows it | evidently intended | confidence | as-written member | corrected member |
|---|---|---|---|---|---|---|
| modules/go-interview-practise/ch16/challenge_16.go:217-219 | OptimizedSearch returns an empty map for an empty needle | text "a", needle "" | the same map as HighAllocationSearch ({0: ""}), as lines 212-213 require | medium, not executed | Challenge16.EmptyNeedleSearchesDisagree | Challenge16.CorrectedOptimizedSearch |
