/**
 * The request gates of the API: the CSRF double-submit check, the
 * auth and require-auth pair that share the request context, and the
 * per-client rate limiter.
 */
module Middleware {
  import opened Outcomes

  /** How a gate ends a request: hand it on, or abort it with a status and an error message. */
  datatype Outcome = Next | Abort(status: nat, message: Option<string>)

  const StatusUnauthorized: nat := 401
  const StatusForbidden: nat := 403
  const StatusTooManyRequests: nat := 429

  // CSRF double-submit check

  predicate SafeMethod(verb: string) {
    verb == "GET" || verb == "HEAD" || verb == "OPTIONS"
  }

  /**
   * GET, HEAD and OPTIONS pass; any other method passes only with an
   * XSRF-TOKEN cookie whose value the X-XSRF-TOKEN header repeats exactly.
   * A missing header reads as "".
   */
  function Csrf(verb: string, cookie: Option<string>, header: string): (o: Outcome)
    ensures o == Next || o == Abort(StatusForbidden, None)
    ensures SafeMethod(verb) ==> o == Next
    ensures !SafeMethod(verb) ==> (o == Next <==> cookie.Some? && header == cookie.value)
  {
    if SafeMethod(verb) then Next
    else if cookie.None? || header != cookie.value then Abort(StatusForbidden, None)
    else Next
  }

  /** The method names are compared as written: a lower-case "get" is checked like any other method. */
  lemma CsrfCaseSensitive()
    ensures Csrf("get", None, "") == Abort(StatusForbidden, None)
    ensures Csrf("GET", None, "") == Next
  {
  }

  /** An XSRF-TOKEN cookie with an empty value lets a request without the header through. */
  lemma CsrfEmptyCookie(verb: string)
    ensures Csrf(verb, Some(""), "") == Next
  {
  }

  // Auth and require-auth

  /** A context value: a string, or a value of any other type. */
  datatype Value = Str(s: string) | OtherValue

  datatype Event = Continued | Aborted(status: nat, message: Option<string>)

  datatype Claims = Claims(user: string)

  /**
   * Handing on or refusing a request, given the value stored under "user":
   * a missing key and the empty string are refused with 401; anything else,
   * including a value of another type, continues.
   */
  function RequireAuth(user: Option<Value>): (o: Outcome)
    ensures o == Next || o == Abort(StatusUnauthorized, Some("unauthorized"))
    ensures o.Abort? <==> user.None? || user == Some(Str(""))
  {
    if user.None? || user.value == Str("") then Abort(StatusUnauthorized, Some("unauthorized")) else Next
  }

  /** The request context the gates share: its keys and what the gates did. */
  class Context {
    var keys: map<string, Value>
    var trail: seq<Event>

    constructor(keys: map<string, Value>)
      ensures this.keys == keys && trail == []
    {
      this.keys := keys;
      trail := [];
    }

    /**
     * The auth gate: with an access cookie that validates, "user" is set to
     * the claims' user; in every case the request continues, once.
     */
    method Auth(cookie: Option<string>, validate: string -> Option<Claims>)
      modifies this
      ensures trail == old(trail) + [Continued]
      ensures cookie.Some? && validate(cookie.value).Some? ==> keys == old(keys)["user" := Str(validate(cookie.value).value.user)]
      ensures cookie.None? || validate(cookie.value).None? ==> keys == old(keys)
    {
      if cookie.Some? {
        var claims := validate(cookie.value);
        if claims.Some? {
          keys := keys["user" := Str(claims.value.user)];
          trail := trail + [Continued];
          return;
        }
      }
      trail := trail + [Continued];
    }

    /** The require-auth gate on this context: it records the decision and leaves the keys alone. */
    method RequireUser() returns (o: Outcome)
      modifies this
      ensures o == RequireAuth(if "user" in keys then Some(keys["user"]) else None)
      ensures keys == old(keys)
      ensures trail == old(trail) + [if o.Next? then Continued else Aborted(o.status, o.message)]
    {
      if "user" !in keys || keys["user"] == Str("") {
        trail := trail + [Aborted(StatusUnauthorized, Some("unauthorized"))];
        return Abort(StatusUnauthorized, Some("unauthorized"));
      }
      trail := trail + [Continued];
      o := Next;
    }
  }

  /** Auth followed by require-auth: the request goes on exactly when a non-empty user validates. */
  lemma AuthThenRequire(keys: map<string, Value>, cookie: Option<string>, validate: string -> Option<Claims>)
    requires "user" !in keys
    ensures var after := if cookie.Some? && validate(cookie.value).Some? then keys["user" := Str(validate(cookie.value).value.user)] else keys;
      RequireAuth(if "user" in after then Some(after["user"]) else None).Next? <==>
        cookie.Some? && validate(cookie.value).Some? && validate(cookie.value).value.user != ""
  {
  }

  // Rate limiting

  /**
   * The limiter of one client, known by the rate and burst it was built
   * with; a token is worth `interval` time units. Its token bucket belongs
   * to the rate-limiting library and is not modelled: whether it allows a
   * request is given.
   */
  class Limiter {
    const interval: nat
    const burst: nat

    constructor(interval: nat, burst: nat)
      ensures this.interval == interval && this.burst == burst
    {
      this.interval := interval;
      this.burst := burst;
    }
  }

  /** The limiters by client address; entries are added and never removed. */
  class Registry {
    var clients: map<string, Limiter>

    constructor()
      ensures clients == map[]
    {
      clients := map[];
    }

    /** Get-or-insert: a known client keeps its limiter, whatever rate is asked for now. */
    method GetLimiter(ip: string, interval: nat, burst: nat) returns (l: Limiter)
      modifies this
      ensures ip in old(clients) ==> l == old(clients)[ip] && clients == old(clients)
      ensures ip !in old(clients) ==> (fresh(l) && clients == old(clients)[ip := l]
        && l.interval == interval && l.burst == burst)
    {
      if ip in clients {
        return clients[ip];
      }
      l := new Limiter(interval, burst);
      clients := clients[ip := l];
    }

    /**
     * The rate-limit gate: `maxRequests` per `duration`, the interval being
     * the duration divided by the count and truncated, the burst the count.
     * `allows` is the limiter's answer for this request. A refused request is
     * aborted with 429; any other continues.
     */
    method RateLimit(ip: string, maxRequests: nat, duration: nat, allows: Limiter -> bool) returns (o: Outcome)
      requires maxRequests > 0
      modifies this
      ensures ip in clients && old(clients).Keys <= clients.Keys
      ensures clients.Keys <= old(clients).Keys + {ip}
      ensures forall k :: k in old(clients) ==> clients[k] == old(clients)[k]
      ensures ip !in old(clients) ==> clients[ip].interval == duration / maxRequests && clients[ip].burst == maxRequests
      ensures o == Next || o == Abort(StatusTooManyRequests, Some("Rate limit exceeded"))
      ensures o == Next <==> allows(clients[ip])
    {
      var l := GetLimiter(ip, duration / maxRequests, maxRequests);
      if !allows(l) {
        return Abort(StatusTooManyRequests, Some("Rate limit exceeded"));
      }
      o := Next;
    }
  }
}
