/** The two HTTP handlers: `POST /register` (register a token for heartbeat
    wake-ups) and `POST /notify` (one visible notification to one token). */
module Server {
  import opened Apns
  import opened Store

  /** The environment tag a sandbox token carries in front of the token proper. */
  const SandboxPrefix: string := "sandbox:"

  /** The value stored for every registered token. */
  const Marker: seq<byte> := [1]

  const StatusOk: int := 200
  const StatusGone: int := 410
  const StatusInternalServerError: int := 500

  // ---------------------------------------------------------------------------
  // Registration

  /** The store after `insert(token, [1])` with storage outcome `io`. */
  function Registered(m: map<string, seq<byte>>, token: string, io: Io): (r: map<string, seq<byte>>)
    ensures io == Done ==> token in r && r[token] == Marker
    ensures io == Failed ==> r == m
    ensures forall k :: k != token ==> (k in r <==> k in m)
    ensures forall k :: k != token && k in r ==> r[k] == m[k]
  {
    if io == Done then m[token := Marker] else m
  }

  /** Registering a token a second time leaves the store as the first time did. */
  lemma RegisterIdempotent(m: map<string, seq<byte>>, token: string)
    ensures Registered(Registered(m, token, Done), token, Done) == Registered(m, token, Done)
  {
  }

  /** `register_device`: inserts the token with the marker and flushes; a
      failing insert or flush is propagated as a server error. */
  method RegisterDevice(db: Db, token: string, insertIo: Io, flushIo: Io) returns (status: int)
    modifies db
    ensures db.entries == Registered(old(db.entries), token, insertIo)
    ensures status == StatusOk <==> insertIo == Done && flushIo == Done
    ensures status != StatusOk ==> status == StatusInternalServerError
  {
    var inserted := db.Insert(token, Marker, insertIo);
    if !inserted {
      return StatusInternalServerError;
    }
    if flushIo == Failed {
      return StatusInternalServerError;
    }
    return StatusOk;
  }

  // ---------------------------------------------------------------------------
  // Routing

  /** The client and the gateway-visible token for a raw token: one leading
      `sandbox:` is stripped and selects the sandbox client. */
  function Route(token: string): (r: (Endpoint, string))
    ensures r.0 == Sandbox <==> SandboxPrefix <= token
    ensures r.0 == Sandbox ==> token == SandboxPrefix + r.1
    ensures r.0 == Production ==> r.1 == token
  {
    if SandboxPrefix <= token then (Sandbox, token[|SandboxPrefix|..]) else (Production, token)
  }

  /** The raw token that carries gateway token `t` for endpoint `e`. */
  function Tagged(e: Endpoint, t: string): string {
    match e
    case Sandbox => SandboxPrefix + t
    case Production => t
  }

  /** Routing undoes the tag: exactly one `sandbox:` comes off, whatever follows it. */
  lemma RouteTagged(e: Endpoint, t: string)
    requires e == Production ==> !(SandboxPrefix <= t)
    ensures Route(Tagged(e, t)) == (e, t)
  {
  }

  /** Tagging undoes the routing: no raw token is lost or altered. */
  lemma TaggedRoute(token: string)
    ensures Tagged(Route(token).0, Route(token).1) == token
  {
  }

  /** A doubly tagged token keeps its second `sandbox:`. */
  lemma RouteStripsOnce(t: string)
    ensures Route(SandboxPrefix + SandboxPrefix + t) == (Sandbox, SandboxPrefix + t)
  {
    assert SandboxPrefix + SandboxPrefix + t == Tagged(Sandbox, SandboxPrefix + t);
    RouteTagged(Sandbox, SandboxPrefix + t);
  }

  // ---------------------------------------------------------------------------
  // Outcome mapping

  /** The HTTP status for a send result, and whether the routed token is removed. */
  datatype Verdict = Verdict(status: int, removeToken: bool)

  function Decide(result: SendResult): (v: Verdict)
    ensures v.status in {StatusOk, StatusGone, StatusInternalServerError}
    ensures v.status == StatusOk <==> result.Ok?
    ensures v.status == StatusGone <==> result == ResponseError(Unregistered)
    ensures v.removeToken <==> v.status == StatusGone
  {
    match result
    case Ok(_) => Verdict(StatusOk, false)
    case ResponseError(code) =>
      if code == Unregistered then Verdict(StatusGone, true)
      else Verdict(StatusInternalServerError, false)
    case OtherError => Verdict(StatusInternalServerError, false)
  }

  /** The store after `notify_device` for raw token `body`, gateway result
      `result` and outcome `removeIo` of the removal (if one is made): only the
      routed, stripped token can go, and only on a 410 response error. */
  function Notified(m: map<string, seq<byte>>, body: string, result: SendResult, removeIo: Io)
    : (r: map<string, seq<byte>>)
    ensures r == m || r == m - {Route(body).1}
    ensures Route(body).1 !in r <==>
              Route(body).1 !in m || (result == ResponseError(Unregistered) && removeIo == Done)
  {
    if Decide(result).removeToken && removeIo == Done then m - {Route(body).1} else m
  }

  /** The outcome table of `notify_device`, in terms of the store. */
  lemma NotifiedTable(m: map<string, seq<byte>>, body: string, result: SendResult, removeIo: Io)
    ensures result.Ok? ==> Notified(m, body, result, removeIo) == m
    ensures result.ResponseError? && result.code != Unregistered ==> Notified(m, body, result, removeIo) == m
    ensures result.OtherError? ==> Notified(m, body, result, removeIo) == m
    ensures removeIo == Failed ==> Notified(m, body, result, removeIo) == m
    ensures Route(body).1 !in m ==> Notified(m, body, result, removeIo) == m
    ensures result == ResponseError(Unregistered) && removeIo == Done ==>
              Notified(m, body, result, removeIo) == m - {Route(body).1}
  {
  }

  /** `notify_device`: routes the raw token, sends one visible notification
      through the chosen client (the gateway answers `result`), and maps the
      result to a status and a store change. */
  method NotifyDevice(db: Db, body: string, result: SendResult, removeIo: Io)
    returns (status: int, request: Request)
    modifies db
    ensures request == Request(Route(body).0, Route(body).1, Visible)
    ensures status == Decide(result).status
    ensures db.entries == Notified(old(db.entries), body, result, removeIo)
  {
    var (client, token) := Route(body);
    request := Request(client, token, Visible);
    match result {
      case Ok(_) =>
        status := StatusOk;
      case ResponseError(code) =>
        if code == Unregistered {
          var _ := db.Remove(token, removeIo);
          status := StatusGone;
        } else {
          status := StatusInternalServerError;
        }
      case OtherError =>
        status := StatusInternalServerError;
    }
  }

  /** As written, a 410 for a sandbox token removes the stripped token, so the
      registration stored under the tagged token survives. */
  lemma NotifyKeepsSandboxRegistration(m: map<string, seq<byte>>, t: string)
    requires SandboxPrefix + t in m
    ensures SandboxPrefix + t in Notified(m, SandboxPrefix + t, ResponseError(Unregistered), Done)
  {
  }

  /** The store change the handler's comment describes: unsubscribe the token
      as it was registered, i.e. the raw token, prefix included. */
  function NotifiedIntended(m: map<string, seq<byte>>, body: string, result: SendResult, removeIo: Io)
    : (r: map<string, seq<byte>>)
    ensures r == m || r == m - {body}
    ensures body !in r <==> body !in m || (result == ResponseError(Unregistered) && removeIo == Done)
  {
    if Decide(result).removeToken && removeIo == Done then m - {body} else m
  }

  /** With the intended change, a 410 undoes a registration completely, for
      a token of either environment. */
  lemma IntendedUndoesRegistration(m: map<string, seq<byte>>, body: string)
    ensures NotifiedIntended(Registered(m, body, Done), body, ResponseError(Unregistered), Done)
              == m - {body}
  {
  }
}
