/**
 * The per-client session tracker of the protected routes: a map from client IP
 * to the time of its last admitted request, consulted and refreshed by
 * `accountInfoMiddleware` and pruned by the hourly sweep started from `init`.
 * Times are whole units on one clock; `timeout` is the configured session
 * timeout (`sessionTimeoutHours` hours) in the same unit.
 */
module Session {

  import opened Http

  /** The outcome of `AppStore.AccountInfo()`: an account, or an error already mapped to a status. */
  datatype AccountOutcome = AccountOk | AccountErr(status: int)

  /** An entry last active at `last` has expired at `now`: strictly more than `timeout` has passed. */
  predicate Expired(timeout: int, last: int, now: int)
  {
    now - last > timeout
  }

  /** Whether a protected request from `ip` at `now` is admitted by the session check. */
  predicate Admits(m: map<string, int>, timeout: int, ip: string, now: int)
  {
    ip !in m || !Expired(timeout, m[ip], now)
  }

  /** The entries that survive a sweep at `now`. */
  function Live(m: map<string, int>, timeout: int, now: int): (r: map<string, int>)
    ensures forall ip :: ip in r <==> ip in m && !Expired(timeout, m[ip], now)
    ensures forall ip :: ip in r ==> r[ip] == m[ip]
  {
    map ip | ip in m && !Expired(timeout, m[ip], now) :: m[ip]
  }

  /** The map after a session check of `ip` at `now`: refreshed when admitted, untouched otherwise. */
  function AfterCheck(m: map<string, int>, timeout: int, ip: string, now: int): map<string, int>
  {
    if Admits(m, timeout, ip, now) then m[ip := now] else m
  }

  class SessionTracker {
    /** `lastActivityTime`: client IP to the time of its last admitted protected request. */
    var lastActivity: map<string, int>
    /** The session timeout. */
    const timeout: int

    constructor (timeout: int)
      requires timeout > 0
      ensures this.timeout == timeout && lastActivity == map[]
    {
      this.timeout := timeout;
      lastActivity := map[];
    }

    /**
     * The session check of `accountInfoMiddleware`: an IP whose entry has
     * expired is refused and its entry is left as it was; any other IP is
     * admitted and its entry set to `now`.
     */
    method Check(ip: string, now: int) returns (admitted: bool)
      modifies this`lastActivity
      ensures admitted <==> ip !in old(lastActivity) || now - old(lastActivity)[ip] <= timeout
      ensures admitted ==> lastActivity == old(lastActivity)[ip := now]
      ensures !admitted ==> lastActivity == old(lastActivity)
      ensures lastActivity == AfterCheck(old(lastActivity), timeout, ip, now)
    {
      if ip in lastActivity {
        var sinceLast := now - lastActivity[ip];
        if sinceLast > timeout {
          return false;
        }
      }
      lastActivity := lastActivity[ip := now];
      return true;
    }

    /**
     * `accountInfoMiddleware`: the identity lookup comes first, and only when it
     * succeeds is the session checked; an expired session is answered with 401.
     */
    method AccountInfoMiddleware(account: AccountOutcome, ip: string, now: int) returns (d: Decision)
      modifies this`lastActivity
      ensures account.AccountErr? ==> d == Halt(account.status) && lastActivity == old(lastActivity)
      ensures account.AccountOk? ==>
        d == (if Admits(old(lastActivity), timeout, ip, now) then Next else Halt(401))
      ensures account.AccountOk? ==> lastActivity == AfterCheck(old(lastActivity), timeout, ip, now)
    {
      if account.AccountErr? {
        return Halt(account.status);
      }
      var admitted := Check(ip, now);
      if !admitted {
        return Halt(401);
      }
      return Next;
    }

    /** One pass of the periodic cleanup: every expired entry is deleted, the others kept as they were. */
    method Sweep(now: int)
      modifies this`lastActivity
      ensures lastActivity == Live(old(lastActivity), timeout, now)
    {
      var pending := lastActivity.Keys;
      while pending != {}
        invariant pending <= old(lastActivity).Keys
        invariant forall ip :: ip in lastActivity <==>
          ip in old(lastActivity) && (ip in pending || !Expired(timeout, old(lastActivity)[ip], now))
        invariant forall ip :: ip in lastActivity ==> lastActivity[ip] == old(lastActivity)[ip]
        decreases pending
      {
        var ip :| ip in pending;
        if now - lastActivity[ip] > timeout {
          lastActivity := lastActivity - {ip};
        }
        pending := pending - {ip};
      }
      assert lastActivity.Keys == Live(old(lastActivity), timeout, now).Keys;
    }
  }

  /** After a sweep at `now` no remaining session is expired at `now`, so every IP is admitted. */
  lemma SweptAdmitsAll(m: map<string, int>, timeout: int, now: int, ip: string)
    ensures Admits(Live(m, timeout, now), timeout, ip, now)
  {
  }

  /** Sweeping twice at the same instant removes nothing more. */
  lemma SweepIdempotent(m: map<string, int>, timeout: int, now: int)
    ensures Live(Live(m, timeout, now), timeout, now) == Live(m, timeout, now)
  {
    var once := Live(m, timeout, now);
    assert Live(once, timeout, now).Keys == once.Keys;
  }

  /** A later sweep removes at least what an earlier one did. */
  lemma SweepsShrinkOverTime(m: map<string, int>, timeout: int, t1: int, t2: int)
    requires t1 <= t2
    ensures Live(m, timeout, t2).Keys <= Live(m, timeout, t1).Keys
  {
  }

  /** An admitted request makes the IP's entry exactly `now` and leaves every other entry as it was. */
  lemma CheckRefreshesOnlyCaller(m: map<string, int>, timeout: int, ip: string, now: int, other: string)
    requires Admits(m, timeout, ip, now) && other != ip
    ensures ip in AfterCheck(m, timeout, ip, now) && AfterCheck(m, timeout, ip, now)[ip] == now
    ensures other in AfterCheck(m, timeout, ip, now) <==> other in m
    ensures other in m ==> AfterCheck(m, timeout, ip, now)[other] == m[other]
  {
  }

  /**
   * A session stays open while requests keep coming: after an admitted request
   * at `now`, a request at any `later` no more than `timeout` after is admitted too.
   */
  lemma ActiveSessionStaysOpen(m: map<string, int>, timeout: int, ip: string, now: int, later: int)
    requires Admits(m, timeout, ip, now)
    requires now <= later <= now + timeout
    ensures Admits(AfterCheck(m, timeout, ip, now), timeout, ip, later)
  {
  }

  /**
   * A refused request does not refresh the stale entry, so every later request
   * from the same IP is refused as well, for as long as no sweep runs.
   */
  lemma {:induction false} ExpiredStaysExpired(m: map<string, int>, timeout: int, ip: string, times: seq<int>)
    requires |times| > 0 && !Admits(m, timeout, ip, times[0])
    requires forall k :: 0 < k < |times| ==> times[k - 1] <= times[k]
    ensures forall k :: 0 <= k < |times| ==> !Admits(m, timeout, ip, times[k]) && AfterCheck(m, timeout, ip, times[k]) == m
    decreases |times|
  {
    if |times| > 1 {
      ExpiredStaysExpired(m, timeout, ip, times[1..]);
      forall k | 0 <= k < |times| ensures !Admits(m, timeout, ip, times[k]) {
        if k > 0 {
          assert times[1..][k - 1] == times[k];
        }
      }
    }
  }

  /** A sweep at or after a refusal removes the stale entry, so the next request starts afresh. */
  lemma SweepReopensExpired(m: map<string, int>, timeout: int, ip: string, refusedAt: int, sweptAt: int)
    requires !Admits(m, timeout, ip, refusedAt) && refusedAt <= sweptAt
    ensures ip !in Live(m, timeout, sweptAt)
    ensures Admits(Live(m, timeout, sweptAt), timeout, ip, sweptAt)
  {
  }
}
