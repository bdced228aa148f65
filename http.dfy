/**
 * The part of the HTTP framework the control plane relies on: requests
 * with headers and an already-decoded JSON body, replies as a status and
 * body bytes, a response writer whose status is 200 until a header is
 * written, and the JSON bodies the handlers render.
 */
module Http {
  import opened Common
  import opened Decimal
  import opened Store

  const StatusOK := 200
  const StatusCreated := 201
  const StatusAccepted := 202
  const StatusBadRequest := 400
  const StatusUnauthorized := 401
  const StatusNotFound := 404
  const StatusInternalServerError := 500

  /** What ShouldBindJSON yields for one request schema: the decoded value, or the decoder's error text. */
  datatype Bind<T> = Bound(value: T) | Malformed(error: Bytes)

  /**
   * A request. The body is given as the outcome of binding it to each of
   * the two request schemas ({"id": string} and {"count": int64}).
   */
  datatype Request = Request(
    verb: string,
    path: string,
    headers: map<string, string>,
    resourceBody: Bind<ResourceId>,
    desiredBody: Bind<int>)

  /** Header.Get: the header's value, or "" when it is absent. */
  function Header(req: Request, name: string): string
  {
    if name in req.headers then req.headers[name] else ""
  }

  /** What a handler leaves in the response: nothing at all, or a status and a body. */
  datatype Reply = NoReply | Reply(status: int, body: Bytes)

  datatype JsonValue = JString(text: Bytes) | JNumber(n: int)

  function RenderValue(v: JsonValue): Bytes
  {
    match v
    case JString(text) => [34] + text + [34]
    case JNumber(n) => Ascii(IntToString(n))
  }

  function RenderFields(fields: seq<(string, JsonValue)>): Bytes
    requires forall k :: 0 <= k < |fields| ==> IsAscii(fields[k].0)
  {
    if |fields| == 0 then []
    else
      var field := [34] + Ascii(fields[0].0) + [34, 58] + RenderValue(fields[0].1);
      if |fields| == 1 then field else field + [44] + RenderFields(fields[1..])
  }

  /** A JSON object with the fields in the given order (gin.H keys are written sorted). */
  function Json(fields: seq<(string, JsonValue)>): Bytes
    requires forall k :: 0 <= k < |fields| ==> IsAscii(fields[k].0)
  {
    [123] + RenderFields(fields) + [125]
  }

  /** c.JSON(status, gin.H{key: text}) for a fixed ASCII text. */
  function JsonText(status: int, key: string, text: string): (r: Reply)
    requires IsAscii(key) && IsAscii(text)
    ensures r.Reply? && r.status == status
    ensures |r.body| >= 2 && r.body[0] == 123 && r.body[|r.body| - 1] == 125
  {
    Reply(status, Json([(key, JString(Ascii(text)))]))
  }

  /** gin's ResponseWriter: the status reads 200 until a header is written, and is frozen once the body starts. */
  class ResponseWriter {
    var status: int
    var written: bool
    var body: Bytes

    constructor ()
      ensures status == StatusOK && !written && body == []
    {
      status, written, body := StatusOK, false, [];
    }

    method WriteHeader(code: int)
      modifies this
      ensures status == (if old(written) then old(status) else code)
      ensures written == old(written) && body == old(body)
    {
      if !written {
        status := code;
      }
    }

    method Write(b: Bytes) returns (n: int)
      modifies this
      ensures n == |b| && written && body == old(body) + b && status == old(status)
    {
      written := true;
      body := body + b;
      n := |b|;
    }
  }

  /** Render a reply (c.JSON, c.Data, c.AbortWithStatus) through a fresh writer. */
  method Emit(w: ResponseWriter, r: Reply)
    requires !w.written && w.body == [] && w.status == StatusOK
    modifies w
    ensures r.NoReply? ==> w.status == StatusOK && w.body == [] && !w.written
    ensures r.Reply? ==> w.status == r.status && w.body == r.body && w.written
  {
    if r.Reply? {
      w.WriteHeader(r.status);
      var _ := w.Write(r.body);
    }
  }
}
