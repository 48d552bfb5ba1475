/** config/rate_limits.py: fixed-window counters kept in the shared cache.
    Time is the current time in whole seconds; cache expiry is not modelled,
    so a counter lives as long as its window number is current. */
module RateLimits {
  import opened Common
  import opened PyStr

  /** A RateLimiter's configuration, fixed by its constructor. */
  datatype RateLimiter = RateLimiter(keyPrefix: string, windowSeconds: int, maxRequests: int)

  /** The constructor's defaults. */
  const DefaultLimiter := RateLimiter("rate_limit", 60, 100)

  /** `cache.get(key, 0)` */
  function Lookup(entries: map<string, int>, key: string): int {
    if key in entries then entries[key] else 0
  }

  /** get_cache_key: prefix, identifier and window number, separated by
      colons. For a positive window Dafny's `/` is Python's `//`, and flooring
      the time first does not change the window number. */
  function CacheKey(limiter: RateLimiter, identifier: string, now: int): (key: string)
    requires limiter.windowSeconds > 0
    ensures var head := limiter.keyPrefix + ":" + identifier + ":";
            |head| < |key| && key[..|head|] == head && key[|head|..] == IntToString(now / limiter.windowSeconds)
  {
    var head := limiter.keyPrefix + ":" + identifier + ":";
    var key := head + IntToString(now / limiter.windowSeconds);
    assert key[..|head|] == head && key[|head|..] == IntToString(now / limiter.windowSeconds);
    key
  }

  /** Two calls share a key exactly when they fall in the same window. */
  lemma CacheKeyWindows(limiter: RateLimiter, identifier: string, now1: int, now2: int)
    requires limiter.windowSeconds > 0
    ensures CacheKey(limiter, identifier, now1) == CacheKey(limiter, identifier, now2)
            <==> now1 / limiter.windowSeconds == now2 / limiter.windowSeconds
  {
    var head := limiter.keyPrefix + ":" + identifier + ":";
    var s1 := IntToString(now1 / limiter.windowSeconds);
    var s2 := IntToString(now2 / limiter.windowSeconds);
    if head + s1 == head + s2 {
      assert (head + s1)[|head|..] == s1;
      assert (head + s2)[|head|..] == s2;
      IntToStringInjective(now1 / limiter.windowSeconds, now2 / limiter.windowSeconds);
    }
  }

  /** What is_allowed answers: whether the count is still below the limit, and the count. */
  datatype Verdict = Verdict(allowed: bool, count: int)

  /** is_allowed: a read of the counter; it writes nothing. */
  function IsAllowed(limiter: RateLimiter, entries: map<string, int>, identifier: string, now: int): (v: Verdict)
    requires limiter.windowSeconds > 0
    ensures v.count == Lookup(entries, CacheKey(limiter, identifier, now))
    ensures v.allowed <==> v.count < limiter.maxRequests
  {
    var currentCount := Lookup(entries, CacheKey(limiter, identifier, now));
    if currentCount >= limiter.maxRequests then Verdict(false, currentCount) else Verdict(true, currentCount)
  }

  /** The shared cache, as far as the counters are concerned. */
  class Cache {
    var entries: map<string, int>

    constructor ()
      ensures entries == map[]
    {
      entries := map[];
    }

    /** RateLimiter.increment: the previous count plus one, stored under the
        same key and returned; no other key changes. */
    method Increment(limiter: RateLimiter, identifier: string, now: int) returns (n: int)
      requires limiter.windowSeconds > 0
      modifies this
      ensures n == Lookup(old(entries), CacheKey(limiter, identifier, now)) + 1
      ensures entries == old(entries)[CacheKey(limiter, identifier, now) := n]
    {
      var cacheKey := CacheKey(limiter, identifier, now);
      var currentCount := Lookup(entries, cacheKey);
      entries := entries[cacheKey := currentCount + 1];
      n := currentCount + 1;
    }

    /** check_sensitive_operation_rate_limit: the count is read, and bumped
        only when the call is allowed; the answer carries the count from
        before the bump. */
    method CheckSensitiveOperation(userId: Id, operation: string, maxOperations: int, windowMinutes: int, now: int)
      returns (v: Verdict)
      requires windowMinutes > 0
      modifies this
      ensures v == SensitiveCheck(old(entries), userId, operation, maxOperations, windowMinutes, now).verdict
      ensures entries == SensitiveCheck(old(entries), userId, operation, maxOperations, windowMinutes, now).entries
    {
      var identifier := SensitiveIdentifier(userId, operation);
      var limiter := SensitiveLimiter(maxOperations, windowMinutes);
      v := IsAllowed(limiter, entries, identifier, now);
      if v.allowed {
        var _ := Increment(limiter, identifier, now);
      }
    }
  }

  /** The identifier of a sensitive operation: `user:<id>:operation:<name>`. */
  function SensitiveIdentifier(userId: Id, operation: string): string {
    "user:" + IntToString(userId) + ":operation:" + operation
  }

  function SensitiveLimiter(maxOperations: int, windowMinutes: int): RateLimiter {
    RateLimiter("sensitive_operation", windowMinutes * 60, maxOperations)
  }

  function SensitiveKey(userId: Id, operation: string, maxOperations: int, windowMinutes: int, now: int): string
    requires windowMinutes > 0
  {
    CacheKey(SensitiveLimiter(maxOperations, windowMinutes), SensitiveIdentifier(userId, operation), now)
  }

  /** The verdict of one sensitive-operation check and the counters after it. */
  datatype SensitiveResult = SensitiveResult(verdict: Verdict, entries: map<string, int>)

  function SensitiveCheck(entries: map<string, int>, userId: Id, operation: string, maxOperations: int,
                          windowMinutes: int, now: int): (r: SensitiveResult)
    requires windowMinutes > 0
    ensures var key := SensitiveKey(userId, operation, maxOperations, windowMinutes, now);
            r.verdict.count == Lookup(entries, key)
            && (r.verdict.allowed <==> Lookup(entries, key) < maxOperations)
            && r.entries == if r.verdict.allowed then entries[key := Lookup(entries, key) + 1] else entries
  {
    var key := SensitiveKey(userId, operation, maxOperations, windowMinutes, now);
    var v := IsAllowed(SensitiveLimiter(maxOperations, windowMinutes), entries, SensitiveIdentifier(userId, operation), now);
    SensitiveResult(v, if v.allowed then entries[key := Lookup(entries, key) + 1] else entries)
  }

  /** A run of sensitive-operation checks, in order: the counters after them
      and how many were allowed. */
  datatype RunResult = RunResult(entries: map<string, int>, allowedCalls: nat)

  function SensitiveRun(entries: map<string, int>, userId: Id, operation: string, maxOperations: int,
                        windowMinutes: int, times: seq<int>): RunResult
    requires windowMinutes > 0
  {
    if times == [] then RunResult(entries, 0)
    else
      var before := SensitiveRun(entries, userId, operation, maxOperations, windowMinutes, times[..|times| - 1]);
      var step := SensitiveCheck(before.entries, userId, operation, maxOperations, windowMinutes, times[|times| - 1]);
      RunResult(step.entries, before.allowedCalls + if step.verdict.allowed then 1 else 0)
  }

  /** Within one window the counter never passes the limit, and the number
      of allowed calls is exactly how far the counter rose; starting from no
      counter, at most `maxOperations` calls are allowed. */
  lemma {:induction false} SensitiveRunBounded(entries: map<string, int>, userId: Id, operation: string,
                                               maxOperations: int, windowMinutes: int, times: seq<int>, key: string)
    requires windowMinutes > 0
    requires forall k :: 0 <= k < |times| ==> SensitiveKey(userId, operation, maxOperations, windowMinutes, times[k]) == key
    ensures var r := SensitiveRun(entries, userId, operation, maxOperations, windowMinutes, times);
            Lookup(r.entries, key) == Lookup(entries, key) + r.allowedCalls
            && Lookup(r.entries, key) <= if Lookup(entries, key) < maxOperations then maxOperations else Lookup(entries, key)
    ensures key !in entries && maxOperations >= 0 ==>
              SensitiveRun(entries, userId, operation, maxOperations, windowMinutes, times).allowedCalls <= maxOperations
  {
    if times != [] {
      var prefix := times[..|times| - 1];
      SensitiveRunBounded(entries, userId, operation, maxOperations, windowMinutes, prefix, key);
    }
  }

  /** The three headers the limiters add to a response. */
  predicate IsRateLimitHeader(h: string) {
    h == "X-RateLimit-Limit" || h == "X-RateLimit-Remaining" || h == "X-RateLimit-Reset"
  }

  /** A response: status code and integer-valued headers. */
  datatype Response = Response(status: int, headers: map<string, int>)

  /** `max(0, n)` */
  function AtLeastZero(n: int): (r: nat)
    ensures r >= n && (n >= 0 ==> r == n)
  {
    if n < 0 then 0 else n
  }

  /** The identifier rate_limit uses: `user:<id>` for a signed-in user, else
      `ip:<REMOTE_ADDR>`, with "unknown" when there is no address. */
  function ViewIdentifier(p: Principal, remoteAddr: Option<string>): string {
    if p.SignedIn? then "user:" + IntToString(p.id) else "ip:" + remoteAddr.GetOr("unknown")
  }

  function ViewLimiter(viewName: string, requestsPerMinute: int, windowMinutes: int): RateLimiter {
    RateLimiter("view_" + viewName, windowMinutes * 60, requestsPerMinute)
  }

  /** What the rate_limit wrapper does with one request: whether it called
      the view, and the response it returned. */
  datatype Wrapped = Wrapped(viewCalled: bool, response: Response)

  /** rate_limit's wrapper: 403 without calling the view when the count has
      reached the limit; otherwise the view's response with the three
      headers added and its other headers kept as they were. It reads the
      counter and never writes it. */
  function RateLimitedView(entries: map<string, int>, viewName: string, requestsPerMinute: int, windowMinutes: int,
                           p: Principal, remoteAddr: Option<string>, now: int, viewResponse: Response): (r: Wrapped)
    requires windowMinutes > 0
    ensures var count := Lookup(entries, CacheKey(ViewLimiter(viewName, requestsPerMinute, windowMinutes),
                                                  ViewIdentifier(p, remoteAddr), now));
            (r.viewCalled <==> count < requestsPerMinute)
            && (!r.viewCalled ==> r.response.status == 403)
            && (r.viewCalled ==> r.response.status == viewResponse.status
                                 && "X-RateLimit-Limit" in r.response.headers
                                 && "X-RateLimit-Remaining" in r.response.headers
                                 && "X-RateLimit-Reset" in r.response.headers
                                 && r.response.headers["X-RateLimit-Limit"] == requestsPerMinute
                                 && r.response.headers["X-RateLimit-Remaining"] == AtLeastZero(requestsPerMinute - count - 1)
                                 && r.response.headers["X-RateLimit-Reset"] == now + windowMinutes * 60)
    ensures r.viewCalled ==> forall h :: h in viewResponse.headers ==> h in r.response.headers
    ensures r.viewCalled ==> forall h :: h in viewResponse.headers && !IsRateLimitHeader(h) ==>
                                           r.response.headers[h] == viewResponse.headers[h]
  {
    var limiter := ViewLimiter(viewName, requestsPerMinute, windowMinutes);
    var v := IsAllowed(limiter, entries, ViewIdentifier(p, remoteAddr), now);
    if !v.allowed then
      Wrapped(false, Response(403, map[]))
    else
      var headers := viewResponse.headers["X-RateLimit-Limit" := limiter.maxRequests]
                                         ["X-RateLimit-Remaining" := AtLeastZero(limiter.maxRequests - v.count - 1)]
                                         ["X-RateLimit-Reset" := now + limiter.windowSeconds];
      Wrapped(true, viewResponse.(headers := headers))
  }

  /** Since the wrapper never increments its counter, a key nobody else
      writes stays absent, and a positive limit then never refuses. */
  lemma RateLimitedViewNeverRefusesAlone(entries: map<string, int>, viewName: string, requestsPerMinute: int,
                                         windowMinutes: int, p: Principal, remoteAddr: Option<string>, now: int,
                                         viewResponse: Response)
    requires windowMinutes > 0 && requestsPerMinute > 0
    requires CacheKey(ViewLimiter(viewName, requestsPerMinute, windowMinutes), ViewIdentifier(p, remoteAddr), now) !in entries
    ensures RateLimitedView(entries, viewName, requestsPerMinute, windowMinutes, p, remoteAddr, now, viewResponse).viewCalled
  {
  }
}
