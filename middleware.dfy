/** config/middleware.py: RateLimitMiddleware and SuspiciousRequestMiddleware.
    Settings are a value; the request and the response are objects whose
    attributes the middleware sets; the cache is `RateLimits.Cache`. */
module Middleware {
  import opened Common
  import opened PyStr
  import opened RateLimits

  /** The settings the middleware reads. Where a setting is missing the
      caller passes `getattr`'s fallback: DEBUG and ENABLE_RATE_LIMITING
      false, the exempt lists empty. */
  datatype Settings = Settings(debug: bool, enableRateLimiting: bool, exemptIps: seq<string>, exemptUserIds: seq<Id>)

  /** The limiter RateLimitMiddleware builds in its constructor. */
  const MiddlewareLimiter := RateLimiter("middleware_request", 60, 100)

  /** Paths that are never rate limited. */
  const ExemptPrefixes := ["/admin/", "/static/", "/media/", "/health/"]

  /** The headers stored on the request for process_response. */
  datatype RateLimitHeaders = RateLimitHeaders(limit: int, remaining: int, reset: int)

  /** The parts of a request the middleware reads or sets. `user` is None
      when no authentication middleware ran before this one; `remoteAddr`,
      `userAgent` and `queryString` are None when the META key is missing. */
  class Request {
    var path: string
    var remoteAddr: Option<string>
    var user: Option<Principal>
    var userAgent: Option<string>
    var queryString: Option<string>
    var rateLimitHeaders: Option<RateLimitHeaders>

    constructor (path: string, remoteAddr: Option<string>, user: Option<Principal>,
                 userAgent: Option<string>, queryString: Option<string>)
      ensures this.path == path && this.remoteAddr == remoteAddr && this.user == user
      ensures this.userAgent == userAgent && this.queryString == queryString
      ensures rateLimitHeaders.None?
    {
      this.path := path;
      this.remoteAddr := remoteAddr;
      this.user := user;
      this.userAgent := userAgent;
      this.queryString := queryString;
      rateLimitHeaders := None;
    }
  }

  /** A response whose headers process_response may set. */
  class HttpResponse {
    var status: int
    var headers: map<string, int>

    constructor (status: int, headers: map<string, int>)
      ensures this.status == status && this.headers == headers
    {
      this.status := status;
      this.headers := headers;
    }
  }

  /** A signed-in user, when there is a user at all. */
  predicate Authenticated(user: Option<Principal>) {
    user.Some? && user.value.SignedIn?
  }

  /** The requests process_request lets through without looking at the counter. */
  predicate Exempt(settings: Settings, path: string, remoteAddr: Option<string>, user: Option<Principal>) {
    settings.debug || !settings.enableRateLimiting
    || remoteAddr.GetOr("") in settings.exemptIps
    || (Authenticated(user) && user.value.id in settings.exemptUserIds)
    || exists k :: 0 <= k < |ExemptPrefixes| && StartsWith(path, ExemptPrefixes[k])
  }

  /** `user:<id>` for a signed-in user, else `ip:<REMOTE_ADDR>` with "" for
      a missing address. */
  function RequestIdentifier(remoteAddr: Option<string>, user: Option<Principal>): string {
    if Authenticated(user) then "user:" + IntToString(user.value.id) else "ip:" + remoteAddr.GetOr("")
  }

  /** The counter process_request consults. */
  function RequestCount(entries: map<string, int>, remoteAddr: Option<string>, user: Option<Principal>, now: int): int {
    Lookup(entries, CacheKey(MiddlewareLimiter, RequestIdentifier(remoteAddr, user), now))
  }

  /** What process_request decides: pass without counting, answer 429, or
      pass and leave the headers for the response. */
  datatype Gate = PassUnchecked | TooManyRequests | PassCounted(headers: RateLimitHeaders)

  function RateLimitGate(settings: Settings, entries: map<string, int>, path: string,
                         remoteAddr: Option<string>, user: Option<Principal>, now: int): (g: Gate)
    ensures g.PassUnchecked? <==> Exempt(settings, path, remoteAddr, user)
    ensures !Exempt(settings, path, remoteAddr, user) ==>
              (g.TooManyRequests? <==> RequestCount(entries, remoteAddr, user, now) >= MiddlewareLimiter.maxRequests)
    ensures g.PassCounted? ==>
              g.headers == RateLimitHeaders(100, AtLeastZero(99 - RequestCount(entries, remoteAddr, user, now)), now + 60)
  {
    if settings.debug || !settings.enableRateLimiting then PassUnchecked
    else if remoteAddr.GetOr("") in settings.exemptIps then PassUnchecked
    else if Authenticated(user) && user.value.id in settings.exemptUserIds then PassUnchecked
    else if exists k :: 0 <= k < |ExemptPrefixes| && StartsWith(path, ExemptPrefixes[k]) then PassUnchecked
    else
      var v := IsAllowed(MiddlewareLimiter, entries, RequestIdentifier(remoteAddr, user), now);
      if !v.allowed then TooManyRequests
      else
        PassCounted(RateLimitHeaders(MiddlewareLimiter.maxRequests,
                                     AtLeastZero(MiddlewareLimiter.maxRequests - v.count - 1),
                                     now + MiddlewareLimiter.windowSeconds))
  }

  /** RateLimitMiddleware.process_request: true when it answers 429 itself.
      On a counted pass it stores the headers on the request; it never
      writes the counter. */
  method ProcessRequest(settings: Settings, cache: Cache, request: Request, now: int) returns (tooMany: bool)
    modifies request
    ensures var g := RateLimitGate(settings, cache.entries, old(request.path), old(request.remoteAddr), old(request.user), now);
            (tooMany <==> g.TooManyRequests?)
            && request.rateLimitHeaders == if g.PassCounted? then Some(g.headers) else old(request.rateLimitHeaders)
    ensures request.path == old(request.path) && request.remoteAddr == old(request.remoteAddr)
    ensures request.user == old(request.user) && request.userAgent == old(request.userAgent)
    ensures request.queryString == old(request.queryString)
  {
    var g := RateLimitGate(settings, cache.entries, request.path, request.remoteAddr, request.user, now);
    tooMany := g.TooManyRequests?;
    if g.PassCounted? {
      request.rateLimitHeaders := Some(g.headers);
    }
  }

  /** The response's headers after process_response. */
  function WithRateLimitHeaders(headers: map<string, int>, h: RateLimitHeaders): map<string, int> {
    headers["X-RateLimit-Limit" := h.limit]["X-RateLimit-Remaining" := h.remaining]["X-RateLimit-Reset" := h.reset]
  }

  /** RateLimitMiddleware.process_response: copies the three headers when
      the request carries them, and leaves the response alone otherwise. */
  method ProcessResponse(request: Request, response: HttpResponse)
    modifies response
    ensures response.status == old(response.status)
    ensures request.rateLimitHeaders.Some? ==>
              response.headers == WithRateLimitHeaders(old(response.headers), request.rateLimitHeaders.value)
    ensures request.rateLimitHeaders.None? ==> response.headers == old(response.headers)
  {
    if request.rateLimitHeaders.Some? {
      var h := request.rateLimitHeaders.value;
      response.headers := response.headers["X-RateLimit-Limit" := h.limit];
      response.headers := response.headers["X-RateLimit-Remaining" := h.remaining];
      response.headers := response.headers["X-RateLimit-Reset" := h.reset];
    }
  }

  /** The headers a counted response carries: the limit, what is left of it
      after this request, and the end of a 60-second span from now; the
      earlier headers of the response stay, with their values. */
  lemma CountedResponseHeaders(settings: Settings, entries: map<string, int>, path: string,
                               remoteAddr: Option<string>, user: Option<Principal>, now: int, headers: map<string, int>)
    requires RateLimitGate(settings, entries, path, remoteAddr, user, now).PassCounted?
    ensures var out := WithRateLimitHeaders(headers, RateLimitGate(settings, entries, path, remoteAddr, user, now).headers);
            var count := RequestCount(entries, remoteAddr, user, now);
            out["X-RateLimit-Limit"] == 100
            && out["X-RateLimit-Remaining"] == AtLeastZero(99 - count)
            && out["X-RateLimit-Reset"] == now + 60
            && (forall h :: h in headers ==> h in out)
            && forall h :: h in headers && !IsRateLimitHeader(h) ==> out[h] == headers[h]
  {
  }

  /** With DEBUG on, no request is ever refused, whatever the counters say. */
  lemma DebugNeverLimits(settings: Settings, entries: map<string, int>, path: string,
                         remoteAddr: Option<string>, user: Option<Principal>, now: int)
    requires settings.debug
    ensures RateLimitGate(settings, entries, path, remoteAddr, user, now) == PassUnchecked
  {
  }

  /** Paths under /static/ are never refused. */
  lemma StaticPathsNeverLimited(settings: Settings, entries: map<string, int>, path: string,
                                remoteAddr: Option<string>, user: Option<Principal>, now: int)
    requires StartsWith(path, "/static/")
    ensures !RateLimitGate(settings, entries, path, remoteAddr, user, now).TooManyRequests?
  {
    assert StartsWith(path, ExemptPrefixes[1]);
  }

  /** The middleware reads a counter it never increments: while nothing
      else writes that counter, no request is refused. */
  lemma UnwrittenCounterNeverRefuses(settings: Settings, entries: map<string, int>, path: string,
                                     remoteAddr: Option<string>, user: Option<Principal>, now: int)
    requires CacheKey(MiddlewareLimiter, RequestIdentifier(remoteAddr, user), now) !in entries
    ensures !RateLimitGate(settings, entries, path, remoteAddr, user, now).TooManyRequests?
  {
  }

  /** The patterns SuspiciousRequestMiddleware looks for. */
  const SuspiciousPatterns := ["../", "etc/passwd", "wp-admin", "phpmyadmin"]

  /** The text searched: user agent, path and query string, lower-cased and
      joined by spaces; missing META values are "". */
  function SuspiciousContent(userAgent: Option<string>, path: string, queryString: Option<string>): string {
    Lower(userAgent.GetOr("")) + " " + Lower(path) + " " + Lower(queryString.GetOr(""))
  }

  predicate IsSuspicious(content: string) {
    exists k :: 0 <= k < |SuspiciousPatterns| && Contains(content, SuspiciousPatterns[k])
  }

  /** The counter of suspicious requests from one address. */
  function SuspiciousKey(remoteAddr: Option<string>): string {
    "suspicious:" + remoteAddr.GetOr("")
  }

  /** Attempts before this one past which a suspicious request is refused. */
  const SuspiciousAllowance := 3

  /** The counters after one request and whether it was refused: a
      suspicious request bumps its address's counter once, however many
      patterns it matches, and is refused when more than three attempts came
      before it. */
  datatype Screening = Screening(entries: map<string, int>, blocked: bool)

  function Screen(entries: map<string, int>, content: string, remoteAddr: Option<string>): (s: Screening)
    ensures !IsSuspicious(content) ==> s == Screening(entries, false)
    ensures IsSuspicious(content) ==>
              s.entries == entries[SuspiciousKey(remoteAddr) := Lookup(entries, SuspiciousKey(remoteAddr)) + 1]
              && (s.blocked <==> Lookup(entries, SuspiciousKey(remoteAddr)) > SuspiciousAllowance)
  {
    if IsSuspicious(content) then
      var attempts := Lookup(entries, SuspiciousKey(remoteAddr));
      Screening(entries[SuspiciousKey(remoteAddr) := attempts + 1], attempts > SuspiciousAllowance)
    else Screening(entries, false)
  }

  /** SuspiciousRequestMiddleware.process_request: true when it answers 429.
      With DEBUG on it does nothing. */
  method ScreenRequest(settings: Settings, cache: Cache, request: Request) returns (blocked: bool)
    modifies cache
    ensures settings.debug ==> !blocked && cache.entries == old(cache.entries)
    ensures !settings.debug ==>
              Screening(cache.entries, blocked)
              == Screen(old(cache.entries), SuspiciousContent(request.userAgent, request.path, request.queryString),
                        request.remoteAddr)
  {
    blocked := false;
    if settings.debug {
      return;
    }
    var content := SuspiciousContent(request.userAgent, request.path, request.queryString);
    var k := 0;
    while k < |SuspiciousPatterns|
      invariant 0 <= k <= |SuspiciousPatterns|
      invariant forall j :: 0 <= j < k ==> !Contains(content, SuspiciousPatterns[j])
      invariant cache.entries == old(cache.entries) && !blocked
    {
      if Contains(content, SuspiciousPatterns[k]) {
        var key := SuspiciousKey(request.remoteAddr);
        var attempts := Lookup(cache.entries, key);
        cache.entries := cache.entries[key := attempts + 1];
        if attempts > SuspiciousAllowance {
          blocked := true;
        }
        return;
      }
      k := k + 1;
    }
  }

  /** A run of requests from one address, screened in order: the counters
      after them and, per request, whether it was refused. */
  datatype ScreenRun = ScreenRun(entries: map<string, int>, blocked: seq<bool>)

  function ScreenAll(entries: map<string, int>, contents: seq<string>, remoteAddr: Option<string>): (r: ScreenRun)
    ensures |r.blocked| == |contents|
  {
    if contents == [] then ScreenRun(entries, [])
    else
      var before := ScreenAll(entries, contents[..|contents| - 1], remoteAddr);
      var s := Screen(before.entries, contents[|contents| - 1], remoteAddr);
      ScreenRun(s.entries, before.blocked + [s.blocked])
  }

  /** From an address with no counter, a run of suspicious requests has its
      first four answered normally and every later one refused; the counter
      ends at the length of the run. */
  lemma {:induction false} FifthSuspiciousRequestBlocked(entries: map<string, int>, contents: seq<string>,
                                                         remoteAddr: Option<string>)
    requires SuspiciousKey(remoteAddr) !in entries
    requires forall k :: 0 <= k < |contents| ==> IsSuspicious(contents[k])
    ensures var r := ScreenAll(entries, contents, remoteAddr);
            Lookup(r.entries, SuspiciousKey(remoteAddr)) == |contents|
            && forall k :: 0 <= k < |contents| ==> (r.blocked[k] <==> k >= SuspiciousAllowance + 1)
  {
    if contents != [] {
      var prefix := contents[..|contents| - 1];
      FifthSuspiciousRequestBlocked(entries, prefix, remoteAddr);
      var before := ScreenAll(entries, prefix, remoteAddr);
      var r := ScreenAll(entries, contents, remoteAddr);
      assert IsSuspicious(contents[|contents| - 1]);
      forall k | 0 <= k < |contents|
        ensures r.blocked[k] <==> k >= SuspiciousAllowance + 1
      {
        if k < |prefix| {
          assert r.blocked[k] == before.blocked[k];
        }
      }
    }
  }

  /** Requests that match no pattern leave every counter alone and are never refused. */
  lemma {:induction false} InnocentRequestsUntouched(entries: map<string, int>, contents: seq<string>,
                                                     remoteAddr: Option<string>)
    requires forall k :: 0 <= k < |contents| ==> !IsSuspicious(contents[k])
    ensures var r := ScreenAll(entries, contents, remoteAddr);
            r.entries == entries && forall k :: 0 <= k < |contents| ==> !r.blocked[k]
  {
    if contents != [] {
      InnocentRequestsUntouched(entries, contents[..|contents| - 1], remoteAddr);
      assert !IsSuspicious(contents[|contents| - 1]);
    }
  }
}
