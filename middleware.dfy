/**
 * The request pipeline of the v1 group: gin's router, then
 * AuthMiddleware, then IdempotencyMiddleware, then the handler. The
 * idempotency layer answers a retried request from its cache, and caches
 * the status and the captured body of every answer below 400.
 */
module Middleware {
  import opened Common
  import opened Store
  import opened Http
  import opened Handlers

  const AuthHeader := "X-Auth-Token"
  const ValidToken := "secret"
  const IdempotencyHeader := "X-Idempotency-Key"

  /** bodyWriter: forwards every write to the real writer and keeps a copy of the bytes. */
  class BodyWriter {
    const inner: ResponseWriter
    var buffer: Bytes

    constructor (inner: ResponseWriter)
      ensures this.inner == inner && buffer == []
    {
      this.inner := inner;
      buffer := [];
    }

    method Write(b: Bytes) returns (n: int)
      modifies this, inner
      ensures buffer == old(buffer) + b
      ensures inner.body == old(inner.body) + b && inner.written && inner.status == old(inner.status)
      ensures n == |b|
    {
      buffer := buffer + b;
      n := inner.Write(b);
    }

    /** Status and headers are the embedded writer's. */
    method WriteHeader(code: int)
      modifies inner
      ensures inner.status == (if old(inner.written) then old(inner.status) else code)
      ensures inner.written == old(inner.written) && inner.body == old(inner.body)
    {
      inner.WriteHeader(code);
    }
  }

  /** A handler's reply rendered through the capturing writer: the copy equals what the client gets. */
  method EmitCaptured(bw: BodyWriter, r: Reply)
    requires !bw.inner.written && bw.inner.body == [] && bw.buffer == [] && bw.inner.status == StatusOK
    modifies bw, bw.inner
    ensures r.NoReply? ==> bw.inner.status == StatusOK && bw.inner.body == []
    ensures r.Reply? ==> bw.inner.status == r.status && bw.inner.body == r.body
    ensures bw.buffer == bw.inner.body
  {
    if r.Reply? {
      bw.WriteHeader(r.status);
      var _ := bw.Write(r.body);
    }
  }

  /** AuthMiddleware lets the request through exactly when X-Auth-Token is "secret". */
  predicate AuthOk(req: Request)
  {
    Header(req, AuthHeader) == ValidToken
  }

  /** GET requests and /v1/desired skip the idempotency layer. */
  predicate BypassesIdempotency(req: Request)
  {
    req.verb == "GET" || req.path == "/v1/desired"
  }

  /** The routes SetupV1 registers on the v1 group. */
  datatype Route = StateRoute | ProvisionRoute | DesiredRoute

  function RouteOf(req: Request): Option<Route>
  {
    if req.verb == "GET" && req.path == "/v1/state" then Some(StateRoute)
    else if req.verb == "POST" && req.path == "/v1/provision" then Some(ProvisionRoute)
    else if req.verb == "POST" && req.path == "/v1/desired" then Some(DesiredRoute)
    else None
  }

  function NotFoundBody(): Bytes
  {
    Ascii("404 page not found")
  }

  function MissingKey(): Reply
  {
    JsonText(StatusBadRequest, "error", "X-Idempotency-Key header is required")
  }

  function CacheCheckFailed(): Reply
  {
    JsonText(StatusInternalServerError, "error", "idempotency check failed")
  }

  /** Everything outside the request that one request depends on. */
  datatype RequestEnv = RequestEnv(
    now: int,
    faults: StoreFaults,
    wait: Wait,
    cacheLookupFails: bool,
    cacheInsertFails: bool)

  /** One handler invocation on the cluster state. */
  function Handle(s: ClusterState, route: Route, req: Request, env: RequestEnv): (ClusterState, Reply)
  {
    match route
    case StateRoute =>
      (s, StateJson(s.desired, s.observed))
    case ProvisionRoute =>
      var r := Provision(s.ledger, s.desired, s.observed, req.resourceBody, env.now, env.faults, env.wait);
      (s.(ledger := r.ledger, desired := r.desired, observed := r.observed), r.reply)
    case DesiredRoute =>
      var (desired, reply) := SetDesired(s.desired, req.desiredBody);
      (s.(desired := desired), reply)
  }

  /** What the client receives: a handler that wrote nothing yields gin's default 200 with an empty body. */
  datatype Response = Response(status: int, body: Bytes)

  function Delivered(r: Reply): (d: Response)
    ensures r.Reply? ==> d == Response(r.status, r.body)
    ensures r.NoReply? ==> d == Response(StatusOK, [])
  {
    match r
    case NoReply => Response(StatusOK, [])
    case Reply(status, body) => Response(status, body)
  }

  /** The pipeline as a function of the state before the request. */
  function Serve(s: ClusterState, req: Request, env: RequestEnv): (ClusterState, Response)
  {
    match RouteOf(req)
    case None => (s, Response(StatusNotFound, NotFoundBody()))
    case Some(route) =>
      if !AuthOk(req) then (s, Response(StatusUnauthorized, []))
      else if BypassesIdempotency(req) then
        var (after, reply) := Handle(s, route, req, env);
        (after, Delivered(reply))
      else
        var key := Header(req, IdempotencyHeader);
        if key == "" then
          (s, Delivered(MissingKey()))
        else if env.cacheLookupFails then
          (s, Delivered(CacheCheckFailed()))
        else if key in s.executions then
          (s, Response(s.executions[key].statusCode, s.executions[key].responseBody))
        else
          var (after, reply) := Handle(s, route, req, env);
          var d := Delivered(reply);
          var cached := d.status < 400 && !env.cacheInsertFails && key !in after.executions;
          (if cached then after.(executions := after.executions[key := Execution(d.status, d.body)]) else after, d)
  }

  /** Only the idempotency layer writes the cache, and an existing entry is never overwritten. */
  lemma CacheEntriesAreNeverOverwritten(s: ClusterState, req: Request, env: RequestEnv)
    ensures var (after, _) := Serve(s, req, env);
      s.executions.Keys <= after.executions.Keys &&
      forall key :: key in s.executions ==> after.executions[key] == s.executions[key]
  {
  }

  /** An unrouted request is 404 and a request without the token is 401; neither changes anything. */
  lemma RejectedRequestsChangeNothing(s: ClusterState, req: Request, env: RequestEnv)
    requires RouteOf(req).None? || !AuthOk(req)
    ensures var (after, resp) := Serve(s, req, env);
      after == s && resp.status == (if RouteOf(req).None? then 404 else 401)
  {
  }

  /** GET and /v1/desired never read or write the cache: the cache's faults do not matter to them. */
  lemma BypassIgnoresCache(s: ClusterState, req: Request, env: RequestEnv, lookupFails: bool, insertFails: bool)
    requires BypassesIdempotency(req)
    ensures var env2 := env.(cacheLookupFails := lookupFails, cacheInsertFails := insertFails);
      Serve(s, req, env) == Serve(s, req, env2) && Serve(s, req, env).0.executions == s.executions
  {
  }

  /** A state-changing request without X-Idempotency-Key is 400 and the handler does not run. */
  lemma MissingKeyIsRejected(s: ClusterState, req: Request, env: RequestEnv)
    requires RouteOf(req).Some? && AuthOk(req) && !BypassesIdempotency(req) && Header(req, IdempotencyHeader) == ""
    ensures var (after, resp) := Serve(s, req, env);
      after == s && resp.status == 400
  {
  }

  /** A cache hit returns the stored status and body verbatim and the handler does not run. */
  lemma CacheHitReplays(s: ClusterState, req: Request, env: RequestEnv)
    requires RouteOf(req).Some? && AuthOk(req) && !BypassesIdempotency(req)
    requires !env.cacheLookupFails && Header(req, IdempotencyHeader) in s.executions
    requires Header(req, IdempotencyHeader) != ""
    ensures var e := s.executions[Header(req, IdempotencyHeader)];
      Serve(s, req, env) == (s, Response(e.statusCode, e.responseBody))
  {
  }

  /** A failed cache lookup is 500 and the handler does not run. */
  lemma CacheLookupErrorIs500(s: ClusterState, req: Request, env: RequestEnv)
    requires RouteOf(req).Some? && AuthOk(req) && !BypassesIdempotency(req)
    requires env.cacheLookupFails && Header(req, IdempotencyHeader) != ""
    ensures var (after, resp) := Serve(s, req, env);
      after == s && resp.status == 500
  {
  }

  /**
   * On a cache miss the handler runs, and its answer is cached exactly
   * when its status is below 400 and the insert succeeds.
   */
  lemma MissIsCachedBelow400(s: ClusterState, req: Request, env: RequestEnv)
    requires RouteOf(req).Some? && AuthOk(req) && !BypassesIdempotency(req)
    requires !env.cacheLookupFails && Header(req, IdempotencyHeader) != "" && Header(req, IdempotencyHeader) !in s.executions
    ensures var key := Header(req, IdempotencyHeader);
      var (handled, reply) := Handle(s, RouteOf(req).value, req, env);
      var (after, resp) := Serve(s, req, env);
      resp == Delivered(reply) &&
      after.(executions := s.executions) == handled.(executions := s.executions) &&
      (key in after.executions <==> resp.status < 400 && !env.cacheInsertFails) &&
      (key in after.executions ==> after.executions[key] == Execution(resp.status, resp.body))
  {
  }

  /**
   * A retry with the same key after a cached answer gets that answer back,
   * byte for byte, and changes nothing, whatever the store does meanwhile.
   */
  lemma RetryReplaysFirstAnswer(s: ClusterState, req: Request, env: RequestEnv, env2: RequestEnv)
    requires RouteOf(req).Some? && AuthOk(req) && !BypassesIdempotency(req)
    requires !env.cacheLookupFails && !env2.cacheLookupFails
    requires Header(req, IdempotencyHeader) in Serve(s, req, env).0.executions
    ensures var (first, resp) := Serve(s, req, env);
      Serve(first, req, env2) == (first, resp)
  {
  }

  /**
   * A provisioning request whose wait is cancelled writes no answer, so
   * the client gets gin's default 200 with an empty body, and that empty
   * 200 is what the cache then replays for the key.
   */
  lemma CancelledProvisionCachesEmpty200(s: ClusterState, req: Request, env: RequestEnv, id: ResourceId)
    requires RouteOf(req) == Some(ProvisionRoute) && AuthOk(req)
    requires !env.cacheLookupFails && !env.cacheInsertFails
    requires Header(req, IdempotencyHeader) != "" && Header(req, IdempotencyHeader) !in s.executions
    requires req.resourceBody == Bound(id) && id !in s.ledger && env.wait == Cancelled
    requires !env.faults.lookupFails && !env.faults.insertFails
    ensures var (after, resp) := Serve(s, req, env);
      resp == Response(200, []) &&
      after.executions == s.executions[Header(req, IdempotencyHeader) := Execution(200, [])] &&
      after.ledger == s.ledger[id := Row(Provisioning, env.now)]
  {
  }

  /** The engine: a Provisioner and its store behind the router and the two middlewares. */
  class Server {
    const p: Provisioner

    constructor (p: Provisioner)
      ensures this.p == p
    {
      this.p := p;
    }

    /** The v1 handler the route names, writing to the Provisioner and its store. */
    method Dispatch(route: Route, req: Request, env: RequestEnv) returns (reply: Reply)
      modifies p, p.db
      ensures (p.State(), reply) == Handle(old(p.State()), route, req, env)
    {
      match route {
        case StateRoute =>
          reply := p.StateReply();
        case ProvisionRoute =>
          reply := p.ResourceProvisioningHandler(req.resourceBody, env.now, env.faults, env.wait);
        case DesiredRoute =>
          reply := p.SetDesiredHandler(req.desiredBody);
      }
    }

    /** One request, start to finish: returns what the client receives. */
    method ServeHttp(req: Request, env: RequestEnv) returns (resp: Response)
      modifies p, p.db
      ensures (p.State(), resp) == Serve(old(p.State()), req, env)
    {
      var w := new ResponseWriter();
      var route := RouteOf(req);
      if route.None? {
        Emit(w, Reply(StatusNotFound, NotFoundBody()));
        return Response(w.status, w.body);
      }
      // AuthMiddleware
      if !AuthOk(req) {
        Emit(w, Reply(StatusUnauthorized, []));
        return Response(w.status, w.body);
      }
      // IdempotencyMiddleware
      if BypassesIdempotency(req) {
        var reply := Dispatch(route.value, req, env);
        Emit(w, reply);
        return Response(w.status, w.body);
      }
      var key := Header(req, IdempotencyHeader);
      if key == "" {
        Emit(w, MissingKey());
        return Response(w.status, w.body);
      }
      var found := p.db.FindExecution(key, env.cacheLookupFails);
      if found.Found? {
        Emit(w, Reply(found.row.statusCode, found.row.responseBody));
        return Response(w.status, w.body);
      }
      if found.LookupError? {
        Emit(w, CacheCheckFailed());
        return Response(w.status, w.body);
      }
      var bw := new BodyWriter(w);
      var reply := Dispatch(route.value, req, env);
      EmitCaptured(bw, reply);
      if w.status < 400 {
        var _ := p.db.CreateExecution(key, Execution(w.status, bw.buffer), env.cacheInsertFails);
      }
      return Response(w.status, w.body);
    }
  }
}
