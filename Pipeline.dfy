/**
 * The middleware chain `runServer` installs on the `/api/v1` subrouter, as an
 * ordered fold that stops at the first stage answering the request.
 *
 * What the chain consults but this model does not define enters as `Env`:
 * the rate limiter's verdict, the decision of `accountInfoMiddleware` (which
 * `Session.SessionTracker.AccountInfoMiddleware` computes), and the status the
 * route handler answers with.
 */
module Pipeline {

  import opened Http
  import opened Guards
  import opened Cors
  import opened LogFilter

  datatype Stage =
    | ApiKeyStage(apiKey: string)      // apiKeyMiddleware(apiKey)
    | CorsStage(allowList: string)     // corsMiddleware with corsAllowedOrigins
    | RateLimitStage                   // rateLimitMiddleware
    | LoggingStage                     // loggingMiddleware
    | BodySizeStage                    // bodySizeLimitMiddleware
    | AccountInfoStage                 // accountInfoMiddleware, protected routes only

  datatype Env = Env(rateAllowed: bool, account: Decision, handlerStatus: int)

  /**
   * What one request produced: the status answered, the response fields set,
   * the body ceiling installed (if the body-size stage ran), whether the route
   * handler ran, and the log line emitted (if any).
   */
  datatype Outcome = Outcome(
    status: int,
    header: map<Field, string>,
    bodyLimit: Option<int>,
    handlerRan: bool,
    log: Option<LogKind>)

  /** The chain in the order `runServer` installs it; the API-key stage only when a key is configured. */
  function Installed(apiKey: string, allowList: string, protected: bool): (stages: seq<Stage>)
    ensures |stages| == (if apiKey != "" then 1 else 0) + 4 + (if protected then 1 else 0)
  {
    (if apiKey != "" then [ApiKeyStage(apiKey)] else [])
    + [CorsStage(allowList), RateLimitStage, LoggingStage, BodySizeStage]
    + (if protected then [AccountInfoStage] else [])
  }

  /** Whether a stage calls `next` or answers the request itself. */
  function StageDecision(st: Stage, r: Request, env: Env): (d: Decision)
    ensures st.LoggingStage? || st.BodySizeStage? ==> d == Next
    ensures st.ApiKeyStage? ==> (d == Next <==> st.apiKey != "" && HeaderGet(r, ApiKeyHeader) == st.apiKey)
    ensures st.CorsStage? ==> (d == Next <==> r.verb != "OPTIONS")
    ensures st.RateLimitStage? ==> (d == Next <==> env.rateAllowed)
    ensures d.Halt? && !st.AccountInfoStage? ==> d.status == 204 || d.status == 401 || d.status == 429
  {
    match st
    case ApiKeyStage(key) => ApiKeyDecision(key, r)
    case CorsStage(_) => if r.verb == "OPTIONS" then Halt(204) else Next
    case RateLimitStage => if env.rateAllowed then Next else Halt(429)
    case LoggingStage => Next
    case BodySizeStage => Next
    case AccountInfoStage => env.account
  }

  predicate Passes(st: Stage, r: Request, env: Env)
  {
    StageDecision(st, r, env) == Next
  }

  /** The response fields after `st` ran, whether or not it passed the request on. */
  function HeaderAfter(st: Stage, r: Request, header: map<Field, string>): map<Field, string>
  {
    if st.CorsStage? then header + CorsHeaders(st.allowList, HeaderGet(r, OriginHeader)) else header
  }

  /** The body ceiling after `st` ran. */
  function LimitAfter(st: Stage, r: Request, limit: Option<int>): Option<int>
  {
    if st.BodySizeStage? then Some(MaxBodySize(r.path)) else limit
  }

  /** Runs `stages` in order; the first stage that does not pass answers the request. */
  function Run(stages: seq<Stage>, r: Request, env: Env, header: map<Field, string>, limit: Option<int>): (e: Outcome)
    ensures e.handlerRan ==> e.status == env.handlerStatus
    ensures !e.handlerRan ==> exists i | 0 <= i < |stages| :: StageDecision(stages[i], r, env) == Halt(e.status)
    decreases |stages|
  {
    if stages == [] then Outcome(env.handlerStatus, header, limit, true, None)
    else
      var st := stages[0];
      var header', limit' := HeaderAfter(st, r, header), LimitAfter(st, r, limit);
      match StageDecision(st, r, env)
      case Halt(status) => Outcome(status, header', limit', false, None)
      case Next =>
        var e := Run(stages[1..], r, env, header', limit');
        if st.LoggingStage? then e.(log := LogLine(r.requestUri, e.status)) else e
  }

  /** The chain holds an API-key stage exactly when a key is configured, and then only first. */
  lemma ApiKeyStageIffConfigured(apiKey: string, allowList: string, protected: bool)
    ensures var stages := Installed(apiKey, allowList, protected);
      && ((exists i | 0 <= i < |stages| :: stages[i].ApiKeyStage?) <==> apiKey != "")
      && (apiKey != "" ==> stages[0] == ApiKeyStage(apiKey))
      && (forall i | 0 < i < |stages| :: !stages[i].ApiKeyStage?)
  {
    var stages := Installed(apiKey, allowList, protected);
    if apiKey != "" {
      assert stages[0].ApiKeyStage?;
    }
  }

  /** The route handler runs exactly when every stage passes the request on. */
  lemma {:induction false} HandlerRunsIffAllPass(stages: seq<Stage>, r: Request, env: Env, header: map<Field, string>, limit: Option<int>)
    ensures Run(stages, r, env, header, limit).handlerRan <==> forall i :: 0 <= i < |stages| ==> Passes(stages[i], r, env)
    decreases |stages|
  {
    if stages != [] {
      var st := stages[0];
      HandlerRunsIffAllPass(stages[1..], r, env, HeaderAfter(st, r, header), LimitAfter(st, r, limit));
      if Passes(st, r, env) {
        forall i | 0 < i < |stages| ensures stages[i] == stages[1..][i - 1] { }
      }
    }
  }

  /** When stage `k` is the first to refuse, its status is the answer and the handler does not run. */
  lemma {:induction false} FirstRefusalAnswers(stages: seq<Stage>, r: Request, env: Env, header: map<Field, string>, limit: Option<int>, k: int)
    requires 0 <= k < |stages|
    requires forall i :: 0 <= i < k ==> Passes(stages[i], r, env)
    requires !Passes(stages[k], r, env)
    ensures Run(stages, r, env, header, limit).status == StageDecision(stages[k], r, env).status
    ensures !Run(stages, r, env, header, limit).handlerRan
    decreases |stages|
  {
    if k > 0 {
      var st := stages[0];
      assert Passes(st, r, env);
      forall i | 0 <= i < k - 1 ensures Passes(stages[1..][i], r, env) {
        assert stages[1..][i] == stages[i + 1];
      }
      FirstRefusalAnswers(stages[1..], r, env, HeaderAfter(st, r, header), LimitAfter(st, r, limit), k - 1);
    }
  }

  /** The installed chain, started with no fields set and no ceiling. */
  function Serve(apiKey: string, allowList: string, protected: bool, r: Request, env: Env): Outcome
  {
    Run(Installed(apiKey, allowList, protected), r, env, map[], None)
  }

  /** The stages after the optional API-key check. */
  function Common(allowList: string, protected: bool): seq<Stage>
  {
    [CorsStage(allowList), RateLimitStage, LoggingStage, BodySizeStage] + (if protected then [AccountInfoStage] else [])
  }

  /** With a passing key (or none configured) the chain answers as its common part does. */
  lemma KeyPassedThenCommon(apiKey: string, allowList: string, protected: bool, r: Request, env: Env)
    requires apiKey == "" || HeaderGet(r, ApiKeyHeader) == apiKey
    ensures Serve(apiKey, allowList, protected, r, env) == Run(Common(allowList, protected), r, env, map[], None)
  {
    var stages := Installed(apiKey, allowList, protected);
    if apiKey != "" {
      assert stages == [ApiKeyStage(apiKey)] + Common(allowList, protected);
      assert stages[1..] == Common(allowList, protected);
    } else {
      assert stages == Common(allowList, protected);
    }
  }

  /**
   * With a key configured, a request without that exact key is answered 401
   * before anything else happens: no field set, no ceiling, no handler, no log line.
   */
  lemma WrongKeyStopsEverything(apiKey: string, allowList: string, protected: bool, r: Request, env: Env)
    requires apiKey != "" && HeaderGet(r, ApiKeyHeader) != apiKey
    ensures Serve(apiKey, allowList, protected, r, env) == Outcome(401, map[], None, false, None)
  {
    assert Installed(apiKey, allowList, protected)[0] == ApiKeyStage(apiKey);
  }

  /** The key header matters to no stage but the API-key check. */
  lemma {:induction false} RunIgnoresKeyHeader(stages: seq<Stage>, r: Request, presented: string, env: Env, header: map<Field, string>, limit: Option<int>)
    requires forall i | 0 <= i < |stages| :: !stages[i].ApiKeyStage?
    ensures Run(stages, r.(header := r.header[ApiKeyHeader := presented]), env, header, limit)
         == Run(stages, r, env, header, limit)
    decreases |stages|
  {
    var r' := r.(header := r.header[ApiKeyHeader := presented]);
    if stages != [] {
      var st := stages[0];
      assert !st.ApiKeyStage?;
      assert HeaderGet(r', OriginHeader) == HeaderGet(r, OriginHeader) by {
        assert OriginHeader[0] != ApiKeyHeader[0];
      }
      assert StageDecision(st, r', env) == StageDecision(st, r, env);
      forall i | 0 <= i < |stages[1..]| ensures !stages[1..][i].ApiKeyStage? {
        assert stages[1..][i] == stages[i + 1];
      }
      RunIgnoresKeyHeader(stages[1..], r, presented, env, HeaderAfter(st, r, header), LimitAfter(st, r, limit));
    }
  }

  /** Without a configured key nothing checks the key header: any value gives the same answer. */
  lemma NoKeyNoCheck(allowList: string, protected: bool, r: Request, env: Env, presented: string)
    ensures Serve("", allowList, protected, r.(header := r.header[ApiKeyHeader := presented]), env)
         == Serve("", allowList, protected, r, env)
  {
    ApiKeyStageIffConfigured("", allowList, protected);
    RunIgnoresKeyHeader(Installed("", allowList, protected), r, presented, env, map[], None);
  }

  /** An accepted key (or none configured) and an `OPTIONS` request: 204 with the CORS fields, nothing further. */
  lemma PreflightAnswered(apiKey: string, allowList: string, protected: bool, r: Request, env: Env)
    requires apiKey == "" || HeaderGet(r, ApiKeyHeader) == apiKey
    requires r.verb == "OPTIONS"
    ensures Serve(apiKey, allowList, protected, r, env)
         == Outcome(204, CorsHeaders(allowList, HeaderGet(r, OriginHeader)), None, false, None)
  {
    KeyPassedThenCommon(apiKey, allowList, protected, r, env);
    assert map[] + CorsHeaders(allowList, HeaderGet(r, OriginHeader)) == CorsHeaders(allowList, HeaderGet(r, OriginHeader));
  }

  /** A request the rate limiter refuses gets 429 after the CORS fields were set, with no log line. */
  lemma RateLimitedAnswered(apiKey: string, allowList: string, protected: bool, r: Request, env: Env)
    requires apiKey == "" || HeaderGet(r, ApiKeyHeader) == apiKey
    requires r.verb != "OPTIONS" && !env.rateAllowed
    ensures Serve(apiKey, allowList, protected, r, env)
         == Outcome(429, CorsHeaders(allowList, HeaderGet(r, OriginHeader)), None, false, None)
  {
    KeyPassedThenCommon(apiKey, allowList, protected, r, env);
    var common := Common(allowList, protected);
    assert common[1..][0] == RateLimitStage;
    assert map[] + CorsHeaders(allowList, HeaderGet(r, OriginHeader)) == CorsHeaders(allowList, HeaderGet(r, OriginHeader));
  }

  /** A stage that passes the request on hands it, with its fields and ceiling, to the rest of the chain. */
  lemma RunPassing(st: Stage, rest: seq<Stage>, r: Request, env: Env, header: map<Field, string>, limit: Option<int>)
    requires Passes(st, r, env)
    ensures Run([st] + rest, r, env, header, limit)
         == var e := Run(rest, r, env, HeaderAfter(st, r, header), LimitAfter(st, r, limit));
            if st.LoggingStage? then e.(log := LogLine(r.requestUri, e.status)) else e
  {
    assert ([st] + rest)[0] == st && ([st] + rest)[1..] == rest;
  }

  /** The account stage, when installed, decides; otherwise the handler answers. */
  lemma AccountTail(protected: bool, r: Request, env: Env, header: map<Field, string>, limit: Option<int>)
    ensures var e := Run(if protected then [AccountInfoStage] else [], r, env, header, limit);
      && e.bodyLimit == limit && e.header == header
      && e.handlerRan == !(protected && env.account.Halt?)
      && e.status == (if protected && env.account.Halt? then env.account.status else env.handlerStatus)
      && e.log == None
  {
    if protected {
      var tail := [AccountInfoStage];
      assert tail[0] == AccountInfoStage && tail[1..] == [];
    }
  }

  /**
   * A request that gets past the rate limiter always has its body ceiling set
   * from its path and is judged by the log filter on the final status; on a
   * protected route a refusal by `accountInfoMiddleware` answers instead of
   * the handler, and is logged like any other answer.
   */
  lemma PastRateLimit(apiKey: string, allowList: string, protected: bool, r: Request, env: Env)
    requires apiKey == "" || HeaderGet(r, ApiKeyHeader) == apiKey
    requires r.verb != "OPTIONS" && env.rateAllowed
    ensures var e := Serve(apiKey, allowList, protected, r, env);
      && e.bodyLimit == Some(MaxBodySize(r.path))
      && e.header == CorsHeaders(allowList, HeaderGet(r, OriginHeader))
      && e.handlerRan == !(protected && env.account.Halt?)
      && e.status == (if protected && env.account.Halt? then env.account.status else env.handlerStatus)
      && e.log == LogLine(r.requestUri, e.status)
  {
    KeyPassedThenCommon(apiKey, allowList, protected, r, env);
    var h := CorsHeaders(allowList, HeaderGet(r, OriginHeader));
    assert map[] + h == h;
    var limit := Some(MaxBodySize(r.path));
    var tail := if protected then [AccountInfoStage] else [];
    assert Common(allowList, protected)
        == [CorsStage(allowList)] + ([RateLimitStage] + ([LoggingStage] + ([BodySizeStage] + tail)));
    RunPassing(CorsStage(allowList), [RateLimitStage] + ([LoggingStage] + ([BodySizeStage] + tail)), r, env, map[], None);
    RunPassing(RateLimitStage, [LoggingStage] + ([BodySizeStage] + tail), r, env, h, None);
    RunPassing(LoggingStage, [BodySizeStage] + tail, r, env, h, None);
    RunPassing(BodySizeStage, tail, r, env, h, None);
    AccountTail(protected, r, env, h, limit);
  }
}
