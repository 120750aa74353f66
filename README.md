# ipatool-api gateway: request gating and decision logic

This project models the HTTP gateway of `ipatool-api` (`ipatool-api/cmd/server.go`) in Dafny and proves properties of the model. The gateway sits in front of an App Store client. The model covers:

- **Session tracker**: client IP to last-activity time, checked and refreshed by `accountInfoMiddleware`, pruned by the hourly sweep. This is the class `Session.SessionTracker`.
- **Middleware chain**: the API-key check, CORS and security headers, the rate limiter, the log filter, the per-path body ceiling and, on protected routes, the account check, each as a stage. `Pipeline.Run` folds them in the order `runServer` installs them and stops at the first stage that answers.
- **Port fallback**: `tryListen`, `isPortInUseError` and the announcement of a substitute port.
- **Download handler**: `handleDownload` as a step-by-step method, `Download.Exchange.HandleDownload`. It is proved equal to a specification function, `Download.Flow`. Ghost state tracks the temporary file and the open download. Each `defer` runs on every return path.
- **App references**: how `handleListVersions` and `handleVersionMetadata` choose between `bundle_id` and `app_id`. This includes `strconv.ParseInt` with its error discarded, and the artwork fallback of `appToAppInfo`.

Calls into code that is not modelled are inputs: the App Store, the JSON decoder, the validators, the rate limiter, the file system and the client connection. Times are whole numbers on one clock. The session timeout is a positive constant of the tracker.

In four places the code behaves differently from what a reader of its comments and route layout might expect. The model follows the code:

- **Middleware order.** `runServer` installs logging before the body-size limit (lines 48-49). One might expect the ceiling to come first. Since the body-size stage never answers by itself, the order changes no answer; `Pipeline.Installed` uses the code's order.
- **Expired sessions.** A request refused for an expired session leaves the stale entry in place. Every later request from that IP is therefore refused too, until the sweep deletes the entry. One might expect the request after an expiry refusal to start a fresh session. `Session.ExpiredStaysExpired` and `Session.SweepReopensExpired` state what the code does.
- **Auto-purchase.** The download carries on after `ErrLicenseRequired` from the purchase, not after an "already licensed" answer. `Download.LicenseRequiredContinues` states this.
- **Log filter.** The filter reads the raw `RequestURI`, query string included. An image extension in the query therefore hides even a server error. `LogFilter.ImageExtensionInQueryHidesErrors` states this.

## Model

| member | source | states |
|---|---|---|
| Http.Writer.Set | ipatool-api/cmd/server.go:759-766 | setting a response field replaces any earlier value of that field and touches no other field |
| Text.TrimSpace | ipatool-api/cmd/server.go:748 | the trimmed entry is a stretch of the original with only white space before and after it, and it neither starts nor ends with white space |
| Text.TrimSpaceKeepsTrimmed | ipatool-api/cmd/server.go:747 | an entry with no white space at either end is compared unchanged |
| Text.Split | ipatool-api/cmd/server.go:745 | splitting the allow-list gives at least one entry, and no entry contains a comma |
| Text.JoinSplit | ipatool-api/cmd/server.go:745 | the entries, joined back with commas, are the original allow-list |
| Text.SplitJoin | ipatool-api/cmd/server.go:745 | a comma-joined list of comma-free origins splits back into exactly those origins |
| Session.Live | ipatool-api/cmd/server.go:709-713 | after a sweep, an IP keeps its entry, with the same time, exactly when that entry has not expired |
| Session.SessionTracker.Check | ipatool-api/cmd/server.go:680-694 | admits exactly an IP with no entry or an unexpired one; an admitted IP's entry becomes `now`; a refused IP leaves the map unchanged |
| Session.SessionTracker.AccountInfoMiddleware | ipatool-api/cmd/server.go:670-699 | an account error answers with its status before any session check; otherwise an expired session gets 401 and any other passes on |
| Session.SessionTracker.Sweep | ipatool-api/cmd/server.go:706-715 | one pass of the cleanup loop deletes every expired entry and keeps every other entry unchanged |
| Session.SweptAdmitsAll | ipatool-api/cmd/server.go:709-713 | right after a sweep, no remaining entry refuses its IP |
| Session.SweepIdempotent | ipatool-api/cmd/server.go:709-713 | sweeping twice at the same instant removes nothing more |
| Session.SweepsShrinkOverTime | ipatool-api/cmd/server.go:709-713 | a later sweep keeps no entry an earlier one removed |
| Session.CheckRefreshesOnlyCaller | ipatool-api/cmd/server.go:693 | an admitted request sets only its own IP's entry, to `now` |
| Session.ActiveSessionStaysOpen | ipatool-api/cmd/server.go:683-693 | after an admitted request, any request from that IP within the timeout is admitted |
| Session.ExpiredStaysExpired | ipatool-api/cmd/server.go:683-690 | once an IP is refused for expiry, every later request from it is refused and changes nothing, until a sweep |
| Session.SweepReopensExpired | ipatool-api/cmd/server.go:709-713 | a sweep at or after a refusal removes the stale entry, so the IP is admitted again |
| Guards.ApiKeyDecision | ipatool-api/cmd/server.go:719-733 | the request passes exactly when a key is configured and the `X-API-Key` header equals it; every other request gets 401 |
| Guards.ApiKeyIgnoresQuery | ipatool-api/cmd/server.go:722-723 | the query string never changes the key decision |
| Guards.ApiKeyMissingHeaderRefused | ipatool-api/cmd/server.go:723-727 | a request without the header is refused |
| Guards.MaxBodySize | ipatool-api/cmd/server.go:795-806 | the ceiling is 10 MiB under `/api/v1/download`, 2 KiB under `/api/v1/auth/login`, and 1 MiB elsewhere |
| Guards.DownloadAndLoginExclusive | ipatool-api/cmd/server.go:800-806 | no path has both prefixes, so the order of the two tests does not matter |
| Guards.BodyLimitIsOneOfThree | ipatool-api/cmd/server.go:797-806 | the ceiling is one of the three sizes, between 2 KiB and 10 MiB |
| Guards.LoginBodyIsTightest | ipatool-api/cmd/server.go:797-808 | a body accepted on the login path is accepted on every path |
| Guards.BodyAccepted | ipatool-api/cmd/server.go:795-807 | a body of at most 2 KiB is accepted on every path and one over 10 MiB on none; a download path accepts exactly up to 10 MiB, a login path exactly up to 2 KiB, and every other path exactly up to 1 MiB |
| Cors.MatchOrigin | ipatool-api/cmd/server.go:745-753 | the search loop yields the request's origin exactly when a trimmed allow-list entry equals it, and the empty string otherwise |
| Cors.AllowOrigin | ipatool-api/cmd/server.go:737-757 | without an allow-list the allowed origin is the wildcard; with one, an origin is allowed exactly when it is non-empty and matches a trimmed entry, and then the request's own origin is echoed |
| Cors.CorsHeaders | ipatool-api/cmd/server.go:740-766 | the six baseline fields are always present with their fixed values; the allow-origin field is present exactly when an origin is allowed, with that value; no other field is set |
| Cors.CorsMiddleware | ipatool-api/cmd/server.go:735-775 | the writer's fields become the old fields overlaid with the CORS fields; `OPTIONS` gets 204 and stops; everything else goes on |
| Cors.BaselineSetOneByOne | ipatool-api/cmd/server.go:759-766 | setting the six fields one after another is the same as overlaying the baseline |
| Cors.OriginThenBaseline | ipatool-api/cmd/server.go:740-766 | setting the allow-origin field and then the baseline is the same as overlaying all CORS fields |
| Cors.OpenWithoutAllowList | ipatool-api/cmd/server.go:740-743 | with no allow-list, every origin gets `*` |
| Cors.EchoesOnlyListedOrigin | ipatool-api/cmd/server.go:744-757 | with an allow-list, the allow-origin field is set exactly when the origin is non-empty and listed, and then it echoes that origin |
| Cors.BaselineAlwaysSet | ipatool-api/cmd/server.go:759-766 | the methods, allowed headers, max-age and three security fields are set on every request, and nothing beyond them and the allow-origin field |
| Cors.ListedEntryIsEchoed | ipatool-api/cmd/server.go:745-756 | an origin equal to a trimmed entry of a comma-joined list is echoed back |
| Cors.SingleEntryRejectsOthers | ipatool-api/cmd/server.go:744-757 | with a one-origin allow-list, a request from any other origin gets no allow-origin field |
| LogFilter.IsCriticalEndpoint | ipatool-api/cmd/server.go:885-904 | the loop answers true exactly when the URI starts with one of the eight critical paths |
| LogFilter.ShouldLogRequest | ipatool-api/cmd/server.go:865-883 | image URIs and a 200 on `/health` are never logged; critical endpoints always are; everything else only at 400 or above |
| LogFilter.LogLine | ipatool-api/cmd/server.go:830-860 | a server-error line exactly for a status of 500 or more, a client-error line exactly for 400-499, a completed line exactly for a 2xx on a critical endpoint, each only when the URI does not look like an image |
| LogFilter.HealthIsNotCritical | ipatool-api/cmd/server.go:874-880 | `/health` is not a critical endpoint |
| LogFilter.LoggedOnlyErrorsOrCriticalSuccess | ipatool-api/cmd/server.go:830-860 | a line is emitted only for an error or a 2xx on a critical endpoint, and never for an image URI |
| LogFilter.ErrorsAreLogged | ipatool-api/cmd/server.go:830-848 | every error on a non-image URI is logged, as a server error at 500 and above, as a client error below |
| LogFilter.CriticalSuccessIsLogged | ipatool-api/cmd/server.go:849-858 | a 2xx on a critical endpoint is logged as completed |
| LogFilter.NoLineForInformationalOrRedirect | ipatool-api/cmd/server.go:830-860 | 1xx and 3xx statuses produce no line, even on critical endpoints |
| LogFilter.ImageExtensionInQueryHidesErrors | ipatool-api/cmd/server.go:865-872 | `/api/v1/search?term=icon.png` is critical, yet no status on it is ever logged |
| LogFilter.ResponseRecorder.constructor | ipatool-api/cmd/server.go:817 | the recorder starts at 200 with nothing written |
| LogFilter.ResponseRecorder.WriteHeader | ipatool-api/cmd/server.go:911-914 | the recorder's status becomes the written code, which is also passed to the wrapped writer |
| Pipeline.Installed | ipatool-api/cmd/server.go:43-52 | the chain has the API-key stage only when a key is configured, four common stages, and the account stage on protected routes |
| Pipeline.StageDecision | ipatool-api/cmd/server.go:719-810 | logging and the body ceiling always pass the request on; the key check passes exactly a matching configured key, CORS exactly a non-`OPTIONS` request, the rate limiter exactly an allowed request; only the account stage answers with a status other than 204, 401 or 429 |
| Pipeline.Run | ipatool-api/cmd/server.go:43-52 | when the handler ran its status is the answer; otherwise the answer is the status of some stage in the chain that halted |
| Pipeline.ApiKeyStageIffConfigured | ipatool-api/cmd/server.go:43-45 | the chain holds an API-key stage exactly when a key is configured, and then only in first place |
| Pipeline.HandlerRunsIffAllPass | ipatool-api/cmd/server.go:43-52 | the route handler runs exactly when every stage passes the request on |
| Pipeline.FirstRefusalAnswers | ipatool-api/cmd/server.go:43-52 | the first stage to refuse answers with its own status, and the handler does not run |
| Pipeline.KeyPassedThenCommon | ipatool-api/cmd/server.go:43-52 | once the key is accepted, or none is configured, the chain answers as its common stages do |
| Pipeline.WrongKeyStopsEverything | ipatool-api/cmd/server.go:43-46 | a wrong or missing key gets 401 before any field, ceiling, handler or log line |
| Pipeline.RunIgnoresKeyHeader | ipatool-api/cmd/server.go:46-52 | no stage other than the API-key check reads the key header |
| Pipeline.NoKeyNoCheck | ipatool-api/cmd/server.go:43-45 | with no key configured, the key header has no effect on the answer |
| Pipeline.PreflightAnswered | ipatool-api/cmd/server.go:768-771 | an admitted `OPTIONS` request gets 204 and the CORS fields, and nothing further runs or is logged |
| Pipeline.RateLimitedAnswered | ipatool-api/cmd/server.go:778-790 | a rate-limited request gets 429 after the CORS fields are set, and produces no log line |
| Pipeline.PastRateLimit | ipatool-api/cmd/server.go:46-52 | past the rate limiter, the body ceiling is set from the path, the account stage decides protected routes, and the final status is filtered for logging |
| Listen.BindPhraseIsRedundant | ipatool-api/cmd/server.go:162-164 | a message with `bind: address already in use` also contains `address already in use` |
| Listen.IsPortInUseError | ipatool-api/cmd/server.go:157-165 | a nil error is never a conflict; an error is one exactly when its text contains `address already in use` or `port is already allocated` |
| Listen.InUseMessageIsConflict | ipatool-api/cmd/server.go:157-165 | any message containing `address already in use` counts as a port conflict |
| Listen.TryListen | ipatool-api/cmd/server.go:132-154 | a free port is used as is; a conflict retries once on port 0 and yields that listener, or the retry's error under `failed to listen on random port: `; any other error is returned unchanged |
| Listen.AtMostOneRetry | ipatool-api/cmd/server.go:134-153 | binding is tried at most twice, the second time only on port 0 and only after a conflict |
| Listen.StartServer | ipatool-api/cmd/server.go:75-91 | a failure to listen stops startup with the prefixed error; otherwise the port is announced exactly when it differs from the one requested |
| Listen.RequestedPortFree | ipatool-api/cmd/server.go:134-139 | a free requested port starts the server there, with no announcement |
| Listen.ConflictFallsBackToEphemeral | ipatool-api/cmd/server.go:141-150 | a conflict of either kind (`address already in use` or `port is already allocated`) starts the server on the port the retry got, and announces it |
| Listen.OtherBindErrorIsFatal | ipatool-api/cmd/server.go:152-153 | any other bind error stops startup with that error's text |
| Listen.FallbackFailureIsFatal | ipatool-api/cmd/server.go:144-147 | when the retry on port 0 fails too, startup fails with the retry's error under both prefixes |
| Decimal.ParseIntOrZero | ipatool-api/cmd/server.go:468 | the parsed app ID is always within int64, and empty text gives 0 |
| Decimal.ScanFormatNat | ipatool-api/cmd/server.go:468 | the digits of any number up to 2^64 - 1 scan back to that number |
| Decimal.ParseFormatRoundTrip | ipatool-api/cmd/server.go:468 | parsing the decimal text of any int64 gives that int64 back |
| Decimal.SyntaxErrorReadsAsZero | ipatool-api/cmd/server.go:468 | text that does not start with a sign or a digit reads as app ID 0, with the error dropped |
| Decimal.FormatInt | ipatool-api/cmd/server.go:548 | `fmt.Sprintf("%d", n)` text is never empty and parses back to `n` (with `ParseFormatRoundTrip`); the model uses it to write `app_id` texts in the `Apps` lemmas, while the validator call at line 548 enters as its verdict, `Download.Outcomes.refValid` |
| Apps.ArtworkUrl | ipatool-api/cmd/server.go:207-214 | the chosen artwork is one of the app's three URLs |
| Apps.AppToAppInfo | ipatool-api/cmd/server.go:206-224 | the summary copies the ID, bundle ID, name and version, and carries the chosen artwork |
| Apps.ArtworkPrefersLargest | ipatool-api/cmd/server.go:207-214 | the 512-pixel URL is preferred, then the 100-pixel one, then the 60-pixel one |
| Apps.ArtworkMissingOnlyWhenAllMissing | ipatool-api/cmd/server.go:207-214 | the summary has no artwork exactly when the app has none at any size |
| Apps.AppById | ipatool-api/cmd/server.go:468-469 | a bare app made from `app_id` has no bundle ID and an int64 ID |
| Apps.ListVersions | ipatool-api/cmd/server.go:440-487 | a failed validation gets 400 and a missing account 401, both with no store call; the request succeeds exactly when both reach the store, the lookup (if any) succeeds and the list call succeeds, and then carries exactly the store's version list; a failed lookup or list call answers with its own status |
| Apps.ListVersionsPrefersBundleId | ipatool-api/cmd/server.go:455-466 | with a `bundle_id`, the versions are those of the looked-up app, and `app_id` is ignored |
| Apps.ListVersionsLookupFailure | ipatool-api/cmd/server.go:461-464 | a failed lookup answers with its status, and no versions are listed |
| Apps.ListVersionsByAppId | ipatool-api/cmd/server.go:467-470 | without a `bundle_id`, the versions are those of the app with that decimal ID, with no lookup and no bundle ID in the answer |
| Apps.VersionMetadataFor | ipatool-api/cmd/server.go:489-535 | the request succeeds exactly when both validations pass, an account exists and the store answers; the answer echoes the version ID, and a failed metadata call answers with its own status |
| Apps.MetadataPrefersAppId | ipatool-api/cmd/server.go:510-513 | with an `app_id`, metadata is asked for the app with that ID and no bundle ID, whatever `bundle_id` says |
| Apps.MetadataByBundleId | ipatool-api/cmd/server.go:514-516 | without an `app_id`, metadata is asked by bundle ID, with ID 0 and no lookup |
| Apps.OppositePrecedence | ipatool-api/cmd/server.go:455-516 | given both references, listing versions goes by the bundle ID and reading metadata by the app ID |
| Download.FromTemp | ipatool-api/cmd/server.go:613-656 | once the temporary file exists, exactly one download call is made, for the resolved app and the requested version; a failed download answers with its own status, a file that cannot be opened or examined with 500, and otherwise the headers go out with no error |
| Download.Flow | ipatool-api/cmd/server.go:537-662 | a refused request makes no store call and gets one error; a temporary file exists only for an admitted request |
| Download.EarlyRefusalStatuses | ipatool-api/cmd/server.go:543-576 | an undecodable body or a rejected reference or version gets 400, a missing account 401, both with no store call; a failed lookup answers with its own status after the lookup call alone |
| Download.LateRefusalStatuses | ipatool-api/cmd/server.go:598-641 | past the purchase, no temporary file gives 500 and leaves none behind; a failed download gives its own status; a file that cannot be opened or examined gives 500; none of these sends the headers, and otherwise the headers go out with no error |
| Download.ExactlyOneAnswer | ipatool-api/cmd/server.go:537-662 | every request gets exactly one answer: one error response, or the file's headers and no error |
| Download.StreamFailureSendsNoError | ipatool-api/cmd/server.go:643-656 | a copy that fails after the headers adds no error response and changes nothing but completion |
| Download.CallsInOrder | ipatool-api/cmd/server.go:566-618 | each store call kind happens at most once, in the order lookup, purchase, download |
| Download.LookupOnlyWithoutAppId | ipatool-api/cmd/server.go:566-578 | a lookup is made, first and by the request's bundle ID, exactly when the request is admitted, names a bundle ID, and the built app has ID 0 |
| Download.CallsUseResolvedApp | ipatool-api/cmd/server.go:580-618 | purchase and download both use the resolved app, and the download uses the requested version |
| Download.PurchaseErrorAborts | ipatool-api/cmd/server.go:585-591 | a purchase error other than a required licence ends the request with its status, with no temporary file and no download |
| Download.LicenseRequiredContinues | ipatool-api/cmd/server.go:585-596 | a required-licence error continues exactly like a successful purchase, and like no purchase at all apart from the call |
| Download.NoPurchaseWithoutAutoPurchase | ipatool-api/cmd/server.go:580 | without auto-purchase, no purchase call is made and its outcome is never consulted |
| Download.Exchange.constructor | ipatool-api/cmd/server.go:537-541 | a new exchange has made no calls, sent nothing, and holds no files |
| Download.Exchange.RespondError | ipatool-api/cmd/server.go:545 | an error response is recorded; it is only ever written before the download headers |
| Download.Exchange.HandleDownload | ipatool-api/cmd/server.go:537-662 | the handler's calls, error responses, headers and completion are exactly `Download.Flow`, and on every path the temporary file is removed and the download closed |
| Download.Exchange.ServeFromTemp | ipatool-api/cmd/server.go:613-656 | the part of the handler after the temporary file exists does what `Download.FromTemp` says, and the opened file is closed on every path |
| Download.Exchange.StreamOpenFile | ipatool-api/cmd/server.go:634-656 | a failed stat gets 500; otherwise the headers go out and no error follows, whether or not the copy completes |

## Left out

- Listener creation, server timeouts, signal handling and graceful shutdown (lines 93-126) are not modelled. They are operating-system and runtime behaviour.
- Concurrency is not modelled: the session mutex, the ticker goroutine and its hourly schedule. Each check and each sweep is one atomic step, and the time of a sweep is a parameter.
- `Session.SessionTracker.Check`: `time.Since` and the later `time.Now()` are one `now`, and the timeout is an abstract positive number. `sessionTimeoutHours` is not part of this model, and neither is overflow of `time.Duration`.
- `getClientIP` is not part of this model. The IP is a parameter.
- The rate limiter is an input of the chain, `Env.rateAllowed`. `globalRateLimiter.isAllowed` is not part of this model.
- `corsAllowedOrigins` is a parameter. Its configuration source is not part of this model.
- The bodies of `respondError` and `respondSuccess` are not modelled: JSON encoding and the message texts. Only the statuses, and where the handlers answer, are modelled.
- `mapAppStoreErrorToHTTPStatus` is not part of this model. App Store errors enter as the status they map to.
- The App Store calls are inputs: the outcome of each call is given. So are the JSON decoder, the validators, `buildAppFromRequest` and `getAccountInfo`.
- `Guards.BodyAccepted`: `http.MaxBytesReader` is modelled only as the comparison of body length with the ceiling. When a too-large body is detected, and how the handler reports it, are not modelled.
- Log line contents are not modelled: request ID, duration, `maskSensitiveData` and the logger. Only whether a line is emitted, and its severity, are modelled.
- `Download.Exchange.HandleDownload`: the bytes streamed and the 4 MiB copy buffer are not modelled. Neither are `generateFilename`, `setDownloadHeaders` and the five-minute context deadline.
- `Download.Exchange.HandleDownload`: a failing `os.Remove` is only logged by the source, so the model treats removal as always succeeding. The model also assumes the download lands at the temporary path, so `result.DestinationPath` equal to `tmpPath` is assumed.
- `Download.Exchange.StreamOpenFile`: the classification of copy errors (closed pipe, EOF, timeout, broken pipe) affects only which log line is written, so all copy errors are one outcome.
- The price field of `AppInfo` (a float) and the RFC 3339 formatting of release dates are not modelled.
- `Apps.VersionMetadataFor`: the release date in the answer is not modelled.
- `Pipeline.PreflightAnswered`: the routes are registered for `GET` and `POST` only, so gorilla/mux likely answers an `OPTIONS` request with 405 before any middleware runs. The lemma describes what the CORS middleware does with such a request, not a path known to be reachable; the router's behaviour is library code outside this model.
- `Http.HeaderGet`: a request header field holds one value here. `Header.Get` returns the first of several values, and several values per field are not modelled.
- Strings are sequences of characters, whereas Go strings are sequences of bytes. The two differ only for text that is not valid UTF-8, which is not modelled.
- gorilla/mux routing is not modelled: method matching, strict-slash redirects, the not-found handler, `/health` and `/`. The chain is applied to a request already routed to a versioned endpoint.
- The handlers for login, account info, revocation, search, purchase and install are outside this model. Only their membership in the protected or public group is used.
