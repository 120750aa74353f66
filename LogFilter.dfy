/**
 * The noise filter of `loggingMiddleware`: which requests produce a log line
 * (`shouldLogRequest`, `isCriticalEndpoint`) and of what kind, and the
 * `responseWriter` wrapper that records the status the handler wrote.
 *
 * Both predicates look at the raw `RequestURI`, query string included.
 */
module LogFilter {

  import opened Http
  import opened Text

  /** The endpoints whose successful requests are logged too. */
  const CriticalPaths: seq<string> := [
    "/api/v1/auth/login",
    "/api/v1/auth/info",
    "/api/v1/auth/revoke",
    "/api/v1/search",
    "/api/v1/purchase",
    "/api/v1/download",
    "/api/v1/versions",
    "/api/v1/metadata"
  ]

  /** The URI starts with one of the critical paths. */
  predicate Critical(uri: string)
  {
    exists i | 0 <= i < |CriticalPaths| :: HasPrefix(uri, CriticalPaths[i])
  }

  /** `isCriticalEndpoint`: the loop over the critical paths. */
  method IsCriticalEndpoint(uri: string) returns (critical: bool)
    ensures critical <==> exists i | 0 <= i < |CriticalPaths| :: HasPrefix(uri, CriticalPaths[i])
  {
    for i := 0 to |CriticalPaths|
      invariant forall j :: 0 <= j < i ==> !HasPrefix(uri, CriticalPaths[j])
    {
      if HasPrefix(uri, CriticalPaths[i]) {
        return true;
      }
    }
    return false;
  }

  /** The URI mentions an image file extension anywhere, query string included. */
  predicate LooksLikeImage(uri: string)
  {
    || Contains(uri, ".png") || Contains(uri, ".jpg") || Contains(uri, ".jpeg")
    || Contains(uri, ".gif") || Contains(uri, ".ico") || Contains(uri, ".svg")
  }

  /** `shouldLogRequest`. */
  function ShouldLogRequest(uri: string, status: int): (log: bool)
    ensures LooksLikeImage(uri) ==> !log
    ensures uri == "/health" && status == 200 ==> !log
    ensures !LooksLikeImage(uri) && Critical(uri) ==> log
    ensures !LooksLikeImage(uri) && !Critical(uri) && !(uri == "/health" && status == 200) ==> (log <==> status >= 400)
  {
    HealthIsNotCritical();
    if LooksLikeImage(uri) then false
    else if uri == "/health" && status == 200 then false
    else if Critical(uri) then true
    else status >= 400
  }

  /** The health check is not one of the critical endpoints. */
  lemma HealthIsNotCritical()
    ensures !Critical("/health")
  {
  }

  /** The line `loggingMiddleware` emits, by severity. */
  datatype LogKind = ServerErrorLine | ClientErrorLine | CompletedLine

  /** What `loggingMiddleware` emits once the rest of the chain has answered with `status`. */
  function LogLine(uri: string, status: int): (line: Option<LogKind>)
    ensures line == Some(ServerErrorLine) <==> !LooksLikeImage(uri) && status >= 500
    ensures line == Some(ClientErrorLine) <==> !LooksLikeImage(uri) && 400 <= status < 500
    ensures line == Some(CompletedLine) <==> !LooksLikeImage(uri) && Critical(uri) && 200 <= status < 300
  {
    if !ShouldLogRequest(uri, status) then None
    else if status >= 500 then Some(ServerErrorLine)
    else if status >= 400 then Some(ClientErrorLine)
    else if 200 <= status < 300 && Critical(uri) then Some(CompletedLine)
    else None
  }

  /** A line is emitted only for an error, or for a 2xx on a critical endpoint; never for an image path. */
  lemma LoggedOnlyErrorsOrCriticalSuccess(uri: string, status: int)
    ensures LogLine(uri, status).Some? ==> !LooksLikeImage(uri)
    ensures LogLine(uri, status).Some? ==> status >= 400 || (200 <= status < 300 && Critical(uri))
    ensures LogLine(uri, status) == Some(CompletedLine) ==> 200 <= status < 300 && Critical(uri)
  {
  }

  /** Every error on a path that does not look like an image is logged, with its severity. */
  lemma ErrorsAreLogged(uri: string, status: int)
    requires !LooksLikeImage(uri) && status >= 400
    ensures LogLine(uri, status) == Some(if status >= 500 then ServerErrorLine else ClientErrorLine)
  {
  }

  /** A success on a critical endpoint is logged as completed. */
  lemma CriticalSuccessIsLogged(uri: string, status: int)
    requires !LooksLikeImage(uri) && Critical(uri) && 200 <= status < 300
    ensures LogLine(uri, status) == Some(CompletedLine)
  {
  }

  /** Informational and redirect statuses produce no line, even on a critical endpoint. */
  lemma NoLineForInformationalOrRedirect(uri: string, status: int)
    requires status < 200 || 300 <= status < 400
    ensures LogLine(uri, status) == None
  {
  }

  /**
   * Because the filter reads the whole URI, an image extension in the query
   * string hides even a server error on a critical endpoint.
   */
  lemma ImageExtensionInQueryHidesErrors(uri: string, status: int)
    requires uri == "/api/v1/search?term=icon.png"
    ensures Critical(uri)
    ensures LogLine(uri, status) == None
  {
    assert HasPrefix(uri, CriticalPaths[3]);
    assert OccursAt(uri, ".png", 24);
  }

  /** The status the recorder reports after the given `WriteHeader` calls: the last one, or 200. */
  function RecordedStatus(codes: seq<int>): int
  {
    if codes == [] then 200 else codes[|codes| - 1]
  }

  /**
   * `responseWriter`: wraps the real writer and remembers the last status
   * written through it, starting from 200.
   */
  class ResponseRecorder {
    const inner: Writer
    var statusCode: int
    /** The codes written through this wrapper so far. */
    ghost var forwarded: seq<int>

    ghost predicate Valid()
      reads this
    {
      statusCode == RecordedStatus(forwarded)
    }

    constructor (inner: Writer)
      ensures Valid() && this.inner == inner && forwarded == [] && statusCode == 200
    {
      this.inner := inner;
      statusCode := 200;
      forwarded := [];
    }

    /** `responseWriter.WriteHeader`: records the code and passes it on. */
    method WriteHeader(code: int)
      requires Valid()
      modifies this, inner`written
      ensures Valid() && forwarded == old(forwarded) + [code] && statusCode == code
      ensures inner.written == old(inner.written) + [code]
    {
      statusCode := code;
      forwarded := forwarded + [code];
      inner.WriteHeader(code);
    }
  }
}
