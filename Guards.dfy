/**
 * The two stateless gates of the versioned API: the API-key check
 * (`apiKeyMiddleware`) and the per-path request-body ceiling
 * (`bodySizeLimitMiddleware`).
 */
module Guards {

  import opened Http
  import opened Text

  /** The header field the key is read from, under its canonical name. */
  const ApiKeyHeader: string := "X-Api-Key"

  /**
   * `apiKeyMiddleware(apiKey)`: the request goes on only when its `X-API-Key`
   * header is present and equal to the configured key; otherwise 401.
   */
  function ApiKeyDecision(apiKey: string, r: Request): (d: Decision)
    ensures d == Next <==> apiKey != "" && HeaderGet(r, ApiKeyHeader) == apiKey
    ensures d != Next ==> d == Halt(401)
  {
    var key := HeaderGet(r, ApiKeyHeader);
    if key == "" || key != apiKey then Halt(401) else Next
  }

  /** The key is taken from the header only: the query string never changes the decision. */
  lemma ApiKeyIgnoresQuery(apiKey: string, r: Request, query: map<string, string>)
    ensures ApiKeyDecision(apiKey, r.(query := query)) == ApiKeyDecision(apiKey, r)
  {
  }

  /** A request without the header is refused whatever its query string carries. */
  lemma ApiKeyMissingHeaderRefused(apiKey: string, r: Request)
    requires ApiKeyHeader !in r.header
    ensures ApiKeyDecision(apiKey, r) == Halt(401)
  {
  }

  const DownloadPrefix: string := "/api/v1/download"
  const LoginPrefix: string := "/api/v1/auth/login"

  const DefaultBodyLimit: int := 1024 * 1024
  const DownloadBodyLimit: int := 10 * 1024 * 1024
  const LoginBodyLimit: int := 2 * 1024

  /** The body ceiling `bodySizeLimitMiddleware` chooses for `URL.Path`. */
  function MaxBodySize(path: string): (limit: int)
    ensures HasPrefix(path, DownloadPrefix) ==> limit == DownloadBodyLimit
    ensures HasPrefix(path, LoginPrefix) ==> limit == LoginBodyLimit
    ensures !HasPrefix(path, DownloadPrefix) && !HasPrefix(path, LoginPrefix) ==> limit == DefaultBodyLimit
  {
    DownloadAndLoginExclusive(path);
    if HasPrefix(path, DownloadPrefix) then DownloadBodyLimit
    else if HasPrefix(path, LoginPrefix) then LoginBodyLimit
    else DefaultBodyLimit
  }

  /** No path has both prefixes, so the order of the two tests does not matter. */
  lemma DownloadAndLoginExclusive(path: string)
    ensures !(HasPrefix(path, DownloadPrefix) && HasPrefix(path, LoginPrefix))
  {
    if HasPrefix(path, DownloadPrefix) {
      assert path[8] == DownloadPrefix[8] == 'd' != LoginPrefix[8];
    }
  }

  /** The ceiling is always one of the three configured sizes, and never more than 10 MiB. */
  lemma BodyLimitIsOneOfThree(path: string)
    ensures MaxBodySize(path) in {DefaultBodyLimit, DownloadBodyLimit, LoginBodyLimit}
    ensures LoginBodyLimit <= MaxBodySize(path) <= DownloadBodyLimit
  {
  }

  /**
   * `http.MaxBytesReader` over a body of `bodyLength` bytes: the handler reads it
   * whole when it fits under the ceiling, and gets a too-large error otherwise.
   */
  predicate BodyAccepted(path: string, bodyLength: nat): (accepted: bool)
    ensures bodyLength <= LoginBodyLimit ==> accepted
    ensures bodyLength > DownloadBodyLimit ==> !accepted
    ensures HasPrefix(path, DownloadPrefix) ==> (accepted <==> bodyLength <= DownloadBodyLimit)
    ensures HasPrefix(path, LoginPrefix) ==> (accepted <==> bodyLength <= LoginBodyLimit)
    ensures !HasPrefix(path, DownloadPrefix) && !HasPrefix(path, LoginPrefix) ==>
      (accepted <==> bodyLength <= DefaultBodyLimit)
  {
    BodyLimitIsOneOfThree(path);
    bodyLength <= MaxBodySize(path)
  }

  /** A body accepted on the login path is accepted on every path: the login ceiling is the tightest. */
  lemma LoginBodyIsTightest(path: string, other: string, bodyLength: nat)
    requires HasPrefix(path, LoginPrefix)
    ensures BodyAccepted(path, bodyLength) ==> BodyAccepted(other, bodyLength)
  {
    DownloadAndLoginExclusive(other);
  }
}
