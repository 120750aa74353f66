/**
 * The port fallback of `runServer`: `tryListen`, `isPortInUseError`, and the
 * announcement made when the server ends up on a port other than the one
 * requested.
 *
 * Binding a socket is the operating system's business; here each attempt is
 * an abstract outcome: bound (with the port the listener actually got) or
 * failed (with the error's text, `err.Error()`).
 */
module Listen {

  import opened Http
  import opened Text

  datatype BindOutcome = Bound(port: int) | BindFailed(message: string)

  /** What `tryListen` returns: a listener and its port, or no listener and an error. */
  datatype ListenResult = Listening(port: int) | ListenFailed(message: string)

  /** The result together with the ports `net.Listen` was asked for, in order (0 is "any free port"). */
  datatype ListenTrace = ListenTrace(result: ListenResult, attempts: seq<int>)

  const InUse: string := "address already in use"
  const BindInUse: string := "bind: address already in use"
  const Allocated: string := "port is already allocated"

  /** `isPortInUseError`: a nil error is not; otherwise look for one of three phrases in its text. */
  predicate IsPortInUseError(err: Option<string>): (conflict: bool)
    ensures err.None? ==> !conflict
    ensures err.Some? ==> (conflict <==> Contains(err.value, InUse) || Contains(err.value, Allocated))
  {
    match err
    case None => false
    case Some(message) =>
      BindPhraseIsRedundant(message);
      Contains(message, InUse) || Contains(message, BindInUse) || Contains(message, Allocated)
  }

  /** The second phrase contains the first, so the first test alone already covers it. */
  lemma BindPhraseIsRedundant(message: string)
    ensures Contains(message, BindInUse) ==> Contains(message, InUse)
  {
    if Contains(message, BindInUse) {
      assert BindInUse == "bind: " + InUse;
      assert BindInUse[6..6 + |InUse|] == InUse;
      assert OccursAt(BindInUse, InUse, 6);
      ContainsTransitive(message, BindInUse, InUse);
    }
  }

  /** Every message holding `address already in use` counts as a port conflict. */
  lemma InUseMessageIsConflict(message: string)
    requires Contains(message, InUse)
    ensures IsPortInUseError(Some(message))
  {
  }

  /**
   * `tryListen(":" + requested)`: `first` is the outcome of binding the
   * requested port, `fallback` that of binding port 0, consulted only after a
   * port conflict.
   */
  function TryListen(requested: int, first: BindOutcome, fallback: BindOutcome): (t: ListenTrace)
    ensures first.Bound? ==> t == ListenTrace(Listening(first.port), [requested])
    ensures first.BindFailed? && !IsPortInUseError(Some(first.message)) ==>
      t == ListenTrace(ListenFailed(first.message), [requested])
    ensures first.BindFailed? && IsPortInUseError(Some(first.message)) ==> t.attempts == [requested, 0]
    ensures first.BindFailed? && IsPortInUseError(Some(first.message)) ==>
      t.result == (if fallback.Bound? then Listening(fallback.port)
                   else ListenFailed("failed to listen on random port: " + fallback.message))
    ensures t.result.Listening? ==> first.Bound? || fallback.Bound?
    ensures t.result.Listening? ==> t.result.port == (if first.Bound? then first.port else fallback.port)
  {
    match first
    case Bound(port) => ListenTrace(Listening(port), [requested])
    case BindFailed(message) =>
      if IsPortInUseError(Some(message)) then
        match fallback
        case Bound(port) => ListenTrace(Listening(port), [requested, 0])
        case BindFailed(again) => ListenTrace(ListenFailed("failed to listen on random port: " + again), [requested, 0])
      else ListenTrace(ListenFailed(message), [requested])
  }

  /** The listener is retried at most once, and only on port 0 after a conflict. */
  lemma AtMostOneRetry(requested: int, first: BindOutcome, fallback: BindOutcome)
    ensures var t := TryListen(requested, first, fallback);
      && 1 <= |t.attempts| <= 2
      && t.attempts[0] == requested
      && (|t.attempts| == 2 <==> first.BindFailed? && IsPortInUseError(Some(first.message)))
      && (|t.attempts| == 2 ==> t.attempts[1] == 0)
  {
  }

  /** What `runServer` does with the result before serving. */
  datatype Startup =
    | StartFailed(message: string)
    | Started(port: int, announced: bool)   // announced: logged, written to IPATOOL_PORT_FILE if set, printed

  function StartServer(requested: int, result: ListenResult): (s: Startup)
    ensures result.ListenFailed? ==> s == StartFailed("failed to start server: " + result.message)
    ensures result.Listening? ==> s.Started? && s.port == result.port && (s.announced <==> result.port != requested)
  {
    match result
    case ListenFailed(message) => StartFailed("failed to start server: " + message)
    case Listening(port) => Started(port, port != requested)
  }

  /** A bind that succeeds on the requested port starts the server there, silently. */
  lemma RequestedPortFree(requested: int, fallback: BindOutcome)
    ensures StartServer(requested, TryListen(requested, Bound(requested), fallback).result) == Started(requested, false)
  {
  }

  /**
   * A requested port already taken ("listen tcp :8080: bind: address already in
   * use", or "port is already allocated") does not stop the server: it starts on
   * the ephemeral port the retry got, and announces it.
   */
  lemma ConflictFallsBackToEphemeral(requested: int, message: string, ephemeral: int)
    requires IsPortInUseError(Some(message))
    requires ephemeral != requested
    ensures StartServer(requested, TryListen(requested, BindFailed(message), Bound(ephemeral)).result)
         == Started(ephemeral, true)
  {
  }

  /** When the retry on port 0 fails too, startup fails with both prefixes around the retry's error. */
  lemma FallbackFailureIsFatal(requested: int, message: string, again: string)
    requires IsPortInUseError(Some(message))
    ensures StartServer(requested, TryListen(requested, BindFailed(message), BindFailed(again)).result)
         == StartFailed("failed to start server: " + ("failed to listen on random port: " + again))
  {
  }

  /** Any other bind failure is fatal, with the error passed through unchanged under the startup prefix. */
  lemma OtherBindErrorIsFatal(requested: int, message: string, fallback: BindOutcome)
    requires !IsPortInUseError(Some(message))
    ensures StartServer(requested, TryListen(requested, BindFailed(message), fallback).result)
         == StartFailed("failed to start server: " + message)
  {
  }
}
