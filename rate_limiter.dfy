/** The per-address admission control of rate_limiter.go: a table from client IP to
    a token-bucket limiter, created on first sight and kept for the life of the
    process, and the middleware that consults it before every request. The bucket
    itself (rate.Limiter of golang.org/x/time/rate) is external: its Allow() is an
    oracle here, and the limiter object only records the rate and burst it was
    built with. */
module RateLimit {
  import opened Wrappers
  import opened GoStrings
  import Http

  /** A rate.Limiter, created with rate `r` (tokens per second) and `burst`. */
  class Limiter {
    const r: real
    const burst: int

    constructor (r: real, burst: int)
      ensures this.r == r && this.burst == burst
    {
      this.r, this.burst := r, burst;
    }
  }

  /** What the middleware does with a request: answer it with an error, or call
      the next handler (exactly once). */
  datatype Verdict = Reject(reply: Http.Reply) | CallNext

  /** The middleware's decision: 500 when the remote address does not split into
      host and port (`host` is None), 429 when the host's limiter refuses,
      otherwise pass the request on. */
  function Decide(host: Option<Bytes>, allowed: bool): (v: Verdict)
    ensures v == CallNext <==> host.Some? && allowed
    ensures host.None? ==> v.Reject? && v.reply.status == Http.StatusInternalServerError
    ensures host.Some? && !allowed ==> v.Reject? && v.reply.status == Http.StatusTooManyRequests
  {
    if host.None? then Reject(Http.Error("Internal Server Error", Http.StatusInternalServerError))
    else if !allowed then Reject(Http.Error("Too Many Requests", Http.StatusTooManyRequests))
    else CallNext
  }

  /** How one request changes the visitors table: an address that does not split,
      or a known host, leaves it as it was; an unseen host gets one entry, a
      limiter built with rate `r` and `burst`, and every other entry keeps its
      limiter. */
  predicate Admitted(before: map<Bytes, Limiter>, after: map<Bytes, Limiter>, host: Option<Bytes>,
                     r: real, burst: int)
  {
    if host.None? || host.value in before then after == before
    else
      && host.value in after
      && after == before[host.value := after[host.value]]
      && after[host.value].r == r && after[host.value].burst == burst
  }

  /** A request never removes or replaces a limiter: every known address keeps its
      own, the table grows by at most one entry, and a host that splits ends up
      with a limiter. */
  lemma {:induction false} AdmittedKeepsLimiters(before: map<Bytes, Limiter>, after: map<Bytes, Limiter>,
                                                 host: Option<Bytes>, r: real, burst: int)
    requires Admitted(before, after, host, r, burst)
    ensures forall ip :: ip in before ==> ip in after && after[ip] == before[ip]
    ensures |after| <= |before| + 1
    ensures host.Some? ==> host.value in after
  {
    if host.Some? && host.value !in before {
      assert after.Keys == before.Keys + {host.value};
    }
  }

  /** RateLimiter: the visitors table and the settings every new limiter gets. */
  class RateLimiter {
    var visitors: map<Bytes, Limiter>
    const r: real
    const burst: int

    /** NewRateLimiter: no visitors yet; the settings are kept as given. */
    constructor (r: real, burst: int)
      ensures visitors == map[] && this.r == r && this.burst == burst
    {
      visitors := map[];
      this.r, this.burst := r, burst;
    }

    /** GetLimiter: the limiter stored for `ip`; on the first request from `ip`, a
        new limiter built from the table's settings is stored and returned. Known
        addresses leave the table as it was, so calling again returns the same
        limiter, and no entry is ever removed or replaced. */
    method GetLimiter(ip: Bytes) returns (l: Limiter)
      modifies this`visitors
      ensures ip in visitors && visitors[ip] == l
      ensures ip in old(visitors) ==> visitors == old(visitors)
      ensures ip !in old(visitors) ==>
                && fresh(l) && l.r == r && l.burst == burst
                && visitors == old(visitors)[ip := l]
      ensures old(visitors).Keys <= visitors.Keys
      ensures |visitors| <= |old(visitors)| + 1
    {
      if ip in visitors {
        l := visitors[ip];
      } else {
        l := new Limiter(r, burst);
        visitors := visitors[ip := l];
      }
    }

    /** LimitMiddleware for one request. `host` is the host part of the remote
        address (None when net.SplitHostPort fails) and `allowed` is what the host's
        limiter answers to Allow(). A request whose address does not split creates
        no limiter; every other request makes sure its host has one. */
    method LimitMiddleware(host: Option<Bytes>, allowed: bool) returns (v: Verdict)
      modifies this`visitors
      ensures v == Decide(host, allowed)
      ensures Admitted(old(visitors), visitors, host, r, burst)
      ensures host.Some? ==> host.value in visitors
      ensures host.Some? && host.value !in old(visitors) ==> fresh(visitors[host.value])
    {
      if host.None? {
        return Reject(Http.Error("Internal Server Error", Http.StatusInternalServerError));
      }
      var limiter := GetLimiter(host.value);
      if !allowed {
        return Reject(Http.Error("Too Many Requests", Http.StatusTooManyRequests));
      }
      return CallNext;
    }
  }
}
