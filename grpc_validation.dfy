/** Request metadata checks of the greeter server's interceptors. */
module GrpcValidation {
  import opened Common

  datatype Code = Unauthenticated | InvalidArgument

  /** A gRPC status error. */
  datatype Status = Status(code: Code, message: string)

  /** Incoming metadata: lower-case keys to their values, in arrival order. */
  type Metadata = map<string, seq<string>>

  const ApiKeyHeader: string := "x-api-key"
  const ExpectedApiKey: string := "super-secret-key"
  const VersionHeader: string := "x-client-version"
  const ServerVersion: string := "1.0.0"

  /** The values under a key; none when the key is absent. */
  function Get(md: Metadata, key: string): seq<string>
  {
    if key in md then md[key] else []
  }

  /** None when the first api-key value is the expected key; an Unauthenticated status otherwise. */
  function ValidateApiKey(md: Metadata): (r: Option<Status>)
    ensures r == None <==> |Get(md, ApiKeyHeader)| > 0 && Get(md, ApiKeyHeader)[0] == ExpectedApiKey
    ensures r.Some? ==> r.value.code == Unauthenticated
    ensures |Get(md, ApiKeyHeader)| == 0 ==> r == Some(Status(Unauthenticated, "api key is missing"))
    ensures |Get(md, ApiKeyHeader)| > 0 && Get(md, ApiKeyHeader)[0] != ExpectedApiKey ==>
              r == Some(Status(Unauthenticated, "invalid api key: " + Get(md, ApiKeyHeader)[0]))
  {
    var keys := Get(md, ApiKeyHeader);
    if |keys| == 0 then Some(Status(Unauthenticated, "api key is missing"))
    else if keys[0] != ExpectedApiKey then Some(Status(Unauthenticated, "invalid api key: " + keys[0]))
    else None
  }

  /** None when the first version value is the server's version; an InvalidArgument status otherwise. */
  function ValidateVersion(md: Metadata): (r: Option<Status>)
    ensures r == None <==> |Get(md, VersionHeader)| > 0 && Get(md, VersionHeader)[0] == ServerVersion
    ensures r.Some? ==> r.value.code == InvalidArgument
    ensures |Get(md, VersionHeader)| == 0 ==> r == Some(Status(InvalidArgument, "client version is missing"))
    ensures |Get(md, VersionHeader)| > 0 && Get(md, VersionHeader)[0] != ServerVersion ==>
              r == Some(Status(InvalidArgument, "invalid client version: " + Get(md, VersionHeader)[0]))
  {
    var versions := Get(md, VersionHeader);
    if |versions| == 0 then Some(Status(InvalidArgument, "client version is missing"))
    else if versions[0] != ServerVersion then Some(Status(InvalidArgument, "invalid client version: " + versions[0]))
    else None
  }

  /**
   * The metadata checks of the unary and stream interceptors, after the
   * deadline check: missing metadata, then the api key, then the version.
   * None lets the request through to the handler.
   */
  function Intercept(md: Option<Metadata>): (r: Option<Status>)
    ensures md.None? ==> r == Some(Status(Unauthenticated, "metadata is missing"))
    ensures md.Some? ==> (r == None <==> ValidateApiKey(md.value) == None && ValidateVersion(md.value) == None)
  {
    match md
    case None => Some(Status(Unauthenticated, "metadata is missing"))
    case Some(m) =>
      if ValidateApiKey(m).Some? then ValidateApiKey(m)
      else ValidateVersion(m)
  }

  /** A request bad in both key and version is reported as Unauthenticated, by the api-key check. */
  lemma ApiKeyCheckedFirst(md: Metadata)
    requires ValidateApiKey(md).Some?
    ensures Intercept(Some(md)) == ValidateApiKey(md) && Intercept(Some(md)).value.code == Unauthenticated
  {
  }

  /** Only the first value of each header is examined. */
  lemma OnlyFirstValueMatters(md: Metadata, key: string, extra: seq<string>)
    requires |Get(md, key)| > 0
    ensures var md' := md[key := [Get(md, key)[0]] + extra];
            ValidateApiKey(md') == ValidateApiKey(md) && ValidateVersion(md') == ValidateVersion(md)
  {
    var md' := md[key := [Get(md, key)[0]] + extra];
    assert Get(md', key)[0] == Get(md, key)[0];
    assert ApiKeyHeader != key ==> Get(md', ApiKeyHeader) == Get(md, ApiKeyHeader);
    assert VersionHeader != key ==> Get(md', VersionHeader) == Get(md, VersionHeader);
  }

  /** Metadata carrying the expected key and version first is let through, whatever else it holds. */
  lemma AcceptsWellFormed(md: Metadata)
    requires ApiKeyHeader in md && |md[ApiKeyHeader]| > 0 && md[ApiKeyHeader][0] == ExpectedApiKey
    requires VersionHeader in md && |md[VersionHeader]| > 0 && md[VersionHeader][0] == ServerVersion
    ensures Intercept(Some(md)) == None
  {
  }
}
