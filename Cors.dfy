/**
 * `corsMiddleware`: the cross-origin headers, the baseline security headers,
 * and the short-circuit of `OPTIONS` preflight requests.
 *
 * `allowList` is the configured `corsAllowedOrigins` value: a comma-separated
 * list of origins, or the empty string when no restriction is configured.
 */
module Cors {

  import opened Http
  import opened Text

  /** The request header field carrying the caller's origin. */
  const OriginHeader: string := "Origin"

  /** The six fields set on every request, whatever its origin. */
  const Baseline: map<Field, string> := map[
    AccessControlAllowMethods := "GET, POST, OPTIONS",
    AccessControlAllowHeaders := "Content-Type, X-API-Key",
    AccessControlMaxAge := "3600",
    XContentTypeOptions := "nosniff",
    XFrameOptions := "DENY",
    XXssProtection := "1; mode=block"
  ]

  /** Some comma-separated entry of `allowList`, trimmed of white space, equals `origin`. */
  predicate Listed(allowList: string, origin: string)
  {
    var entries := Split(allowList, ',');
    exists i | 0 <= i < |entries| :: TrimSpace(entries[i]) == origin
  }

  /**
   * The search loop of `corsMiddleware` over the split allow-list: the request's
   * own origin when an entry matches it, the empty string otherwise.
   */
  method MatchOrigin(allowList: string, origin: string) returns (allowedOrigin: string)
    ensures allowedOrigin == (if Listed(allowList, origin) then origin else "")
  {
    var entries := Split(allowList, ',');
    allowedOrigin := "";
    var i := 0;
    while i < |entries|
      invariant 0 <= i <= |entries|
      invariant forall j :: 0 <= j < i ==> TrimSpace(entries[j]) != origin
      invariant allowedOrigin == ""
    {
      if TrimSpace(entries[i]) == origin {
        allowedOrigin := origin;
        return;
      }
      i := i + 1;
    }
  }

  /** The value `Access-Control-Allow-Origin` receives, if it is set at all. */
  function AllowOrigin(allowList: string, origin: string): (allowed: Option<string>)
    ensures allowList == "" ==> allowed == Some("*")
    ensures allowList != "" ==> (allowed.Some? <==> origin != "" && Listed(allowList, origin))
    ensures allowList != "" && allowed.Some? ==> allowed.value == origin
  {
    if allowList == "" then Some("*")
    else if origin != "" && Listed(allowList, origin) then Some(origin)
    else None
  }

  /** Every field `corsMiddleware` sets for a request from `origin`. */
  function CorsHeaders(allowList: string, origin: string): (h: map<Field, string>)
    ensures forall f :: f in Baseline ==> f in h && h[f] == Baseline[f]
    ensures h.Keys <= Baseline.Keys + {AccessControlAllowOrigin}
    ensures AccessControlAllowOrigin in h <==> AllowOrigin(allowList, origin).Some?
    ensures AccessControlAllowOrigin in h ==> h[AccessControlAllowOrigin] == AllowOrigin(allowList, origin).value
  {
    assert AccessControlAllowOrigin !in Baseline;
    match AllowOrigin(allowList, origin)
    case Some(v) => Baseline[AccessControlAllowOrigin := v]
    case None => Baseline
  }

  /**
   * `corsMiddleware` on the response writer `w`: sets the fields one by one,
   * answers `OPTIONS` with 204 without calling `next`, and passes every other
   * request on.
   */
  method CorsMiddleware(w: Writer, r: Request, allowList: string) returns (d: Decision)
    modifies w
    ensures w.header == old(w.header) + CorsHeaders(allowList, HeaderGet(r, OriginHeader))
    ensures d == (if r.verb == "OPTIONS" then Halt(204) else Next)
    ensures w.written == old(w.written) + (if r.verb == "OPTIONS" then [204] else [])
  {
    var origin := HeaderGet(r, OriginHeader);
    ghost var before := w.header;
    if allowList == "" {
      w.Set(AccessControlAllowOrigin, "*");
    } else {
      var allowedOrigin := MatchOrigin(allowList, origin);
      if allowedOrigin != "" {
        w.Set(AccessControlAllowOrigin, allowedOrigin);
      }
    }
    ghost var withOrigin := w.header;
    assert withOrigin == match AllowOrigin(allowList, origin)
      case Some(v) => before[AccessControlAllowOrigin := v]
      case None => before;
    w.Set(AccessControlAllowMethods, "GET, POST, OPTIONS");
    w.Set(AccessControlAllowHeaders, "Content-Type, X-API-Key");
    w.Set(AccessControlMaxAge, "3600");
    w.Set(XContentTypeOptions, "nosniff");
    w.Set(XFrameOptions, "DENY");
    w.Set(XXssProtection, "1; mode=block");
    BaselineSetOneByOne(withOrigin);
    OriginThenBaseline(before, allowList, origin);
    if r.verb == "OPTIONS" {
      w.WriteHeader(204);
      return Halt(204);
    }
    return Next;
  }

  /** Setting the six baseline fields one after another is overlaying `Baseline`. */
  lemma BaselineSetOneByOne(h: map<Field, string>)
    ensures h[AccessControlAllowMethods := "GET, POST, OPTIONS"][AccessControlAllowHeaders := "Content-Type, X-API-Key"]
             [AccessControlMaxAge := "3600"][XContentTypeOptions := "nosniff"][XFrameOptions := "DENY"]
             [XXssProtection := "1; mode=block"] == h + Baseline
  {
  }

  /** Setting the allow-origin field first and the baseline after is overlaying all of `CorsHeaders`. */
  lemma OriginThenBaseline(h: map<Field, string>, allowList: string, origin: string)
    ensures (match AllowOrigin(allowList, origin)
             case Some(v) => h[AccessControlAllowOrigin := v]
             case None => h) + Baseline == h + CorsHeaders(allowList, origin)
  {
    match AllowOrigin(allowList, origin)
    case Some(v) =>
      assert AccessControlAllowOrigin !in Baseline;
      OverlayCommutes(h, Baseline, AccessControlAllowOrigin, v);
    case None =>
  }

  /** Setting a field the overlay does not mention commutes with the overlay. */
  lemma OverlayCommutes(h: map<Field, string>, overlay: map<Field, string>, f: Field, v: string)
    requires f !in overlay
    ensures h[f := v] + overlay == h + overlay[f := v]
  {
    var lhs, rhs := h[f := v] + overlay, h + overlay[f := v];
    assert lhs.Keys == rhs.Keys;
    forall g | g in lhs.Keys ensures lhs[g] == rhs[g] {
    }
  }

  /** Without an allow-list every origin is allowed, with the wildcard. */
  lemma OpenWithoutAllowList(origin: string)
    ensures AccessControlAllowOrigin in CorsHeaders("", origin)
    ensures CorsHeaders("", origin)[AccessControlAllowOrigin] == "*"
  {
  }

  /**
   * With an allow-list the header is set exactly when the request's origin is
   * non-empty and listed, and then it echoes that origin and nothing else.
   */
  lemma EchoesOnlyListedOrigin(allowList: string, origin: string)
    requires allowList != ""
    ensures AccessControlAllowOrigin in CorsHeaders(allowList, origin) <==> origin != "" && Listed(allowList, origin)
    ensures AccessControlAllowOrigin in CorsHeaders(allowList, origin) ==>
      CorsHeaders(allowList, origin)[AccessControlAllowOrigin] == origin != ""
  {
    assert AccessControlAllowOrigin !in Baseline;
  }

  /** The methods, allowed-headers, max-age and the three security fields are set on every request. */
  lemma BaselineAlwaysSet(allowList: string, origin: string)
    ensures forall name :: name in Baseline ==>
      name in CorsHeaders(allowList, origin) && CorsHeaders(allowList, origin)[name] == Baseline[name]
    ensures CorsHeaders(allowList, origin).Keys == Baseline.Keys + (if AllowOrigin(allowList, origin).Some? then {AccessControlAllowOrigin} else {})
  {
    assert AccessControlAllowOrigin !in Baseline;
  }

  /** An origin that, once trimmed, is one of the comma-separated entries is echoed back. */
  lemma ListedEntryIsEchoed(entries: seq<string>, k: int, origin: string)
    requires |entries| >= 1 && 0 <= k < |entries|
    requires forall e :: e in entries ==> ',' !in e
    requires origin != "" && TrimSpace(entries[k]) == origin
    ensures AccessControlAllowOrigin in CorsHeaders(Join(entries, ','), origin)
    ensures CorsHeaders(Join(entries, ','), origin)[AccessControlAllowOrigin] == origin
  {
    SplitJoin(entries, ',');
    JoinLongerThanPiece(entries, ',', k);
    assert Listed(Join(entries, ','), origin);
  }

  /**
   * With a single-origin allow-list (say `https://good.example`), a request
   * from any other origin (say `https://evil.example`) gets no allow-origin field.
   */
  lemma SingleEntryRejectsOthers(entry: string, origin: string)
    requires entry != "" && ',' !in entry
    requires !IsSpace(entry[0]) && !IsSpace(entry[|entry| - 1])
    requires origin != entry
    ensures AccessControlAllowOrigin !in CorsHeaders(entry, origin)
  {
    SplitWithoutSeparator(entry, ',');
    TrimSpaceKeepsTrimmed(entry);
    assert !Listed(entry, origin);
    EchoesOnlyListedOrigin(entry, origin);
  }
}
