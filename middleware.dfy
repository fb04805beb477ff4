/** The per-client rate limiter of middleware.go (`RpsLimiterClients`) and
    the quota it reads from the environment (`tryQuotaFromEnv`).

    The limiter keeps, for each remote address, the number of its requests
    still inside the window (`limits`), and a queue of pending expiries
    (`cleans`), one per counted request, in the order the requests came.
    Each request first expires the due entries at the front of the queue,
    then counts itself and queues its own expiry `Timeout` later. A request
    whose count exceeds the quota gets the 429 handler (status 429, Too Many
    Requests, section 4 of RFC 6585). Time is an integer number of
    nanoseconds passed in by the caller, where the source reads the clock. */
module Middleware {
  import opened Common
  import opened Env
  import opened Handlers

  /** `limitClean`: from `after` on, one request of `remoteAddr` no longer counts. */
  datatype LimitClean = LimitClean(after: int, remoteAddr: string)

  /** `defaultHandler429`, which answers with status 429. */
  const DefaultHandler429: HandlerFunc := Func("defaultHandler429")

  const StatusTooManyRequests: int := 429

  /** The name under which the handler `Apply` returns wraps the handler it guards. */
  const LimiterName: string := "RpsLimiterClients"

  // ---------------------------------------------------------------------------
  // tryQuotaFromEnv
  // ---------------------------------------------------------------------------

  /** What `tryQuotaFromEnv` returns and leaves behind its two pointers. */
  datatype QuotaCheck = QuotaCheck(ok: bool, checked: bool, quota: int)

  /** `tryQuotaFromEnv(env, &checked, &quota)` in environment `environ`. */
  function QuotaFromEnv(environ: map<string, string>, env: string, checked: bool, quota: int): (r: QuotaCheck)
    ensures r.ok <==> r.quota > 0
    ensures quota > 0 ==> r == QuotaCheck(true, checked, quota)
    ensures quota <= 0 ==> r.checked
    ensures quota <= 0 && checked ==> r == QuotaCheck(false, true, quota)
    ensures quota <= 0 && !checked && env in environ && ParseInt(environ[env]).Some? ==>
              r.quota == ParseInt(environ[env]).value
    ensures r.quota != quota ==> !checked && env in environ && ParseInt(environ[env]) == Some(r.quota)
  {
    if quota > 0 then QuotaCheck(true, checked, quota)
    else if checked then QuotaCheck(false, checked, quota)
    else if env !in environ then QuotaCheck(false, true, quota)
    else match ParseInt(environ[env])
      case None => QuotaCheck(false, true, quota)
      case Some(parsed) => QuotaCheck(parsed > 0, true, parsed)
  }

  /** The environment is read at most once: a second call, in any
      environment, returns the first call's answer and changes nothing. */
  lemma QuotaFromEnvSettles(environ: map<string, string>, later: map<string, string>, env: string,
                            checked: bool, quota: int)
    ensures var r := QuotaFromEnv(environ, env, checked, quota);
            QuotaFromEnv(later, env, r.checked, r.quota) == r
  {
  }

  // ---------------------------------------------------------------------------
  // The count map and the expiry queue
  // ---------------------------------------------------------------------------

  /** The number of entries of `cleans` for `addr`. */
  function Count(cleans: seq<LimitClean>, addr: string): nat
  {
    if cleans == [] then 0
    else (if cleans[0].remoteAddr == addr then 1 else 0) + Count(cleans[1..], addr)
  }

  lemma {:induction false} CountAppend(s: seq<LimitClean>, t: seq<LimitClean>, addr: string)
    ensures Count(s + t, addr) == Count(s, addr) + Count(t, addr)
  {
    if s == [] {
      assert s + t == t;
    } else {
      assert (s + t)[1..] == s[1..] + t;
      CountAppend(s[1..], t, addr);
    }
  }

  /** `limits` counts `cleans`: the keys are exactly the addresses with an
      entry, each mapped to its number of entries (so none maps to 0). */
  ghost predicate Consistent(limits: map<string, int>, cleans: seq<LimitClean>)
  {
    && (forall a :: a in limits <==> Count(cleans, a) > 0)
    && (forall a | a in limits :: limits[a] == Count(cleans, a))
  }

  /** A queue determines the count map that is consistent with it. */
  lemma ConsistentUnique(m1: map<string, int>, m2: map<string, int>, cleans: seq<LimitClean>)
    requires Consistent(m1, cleans) && Consistent(m2, cleans)
    ensures m1 == m2
  {
    assert m1.Keys == m2.Keys;
  }

  /** A consistent map holds no zero and no negative count. */
  lemma ConsistentPositive(m: map<string, int>, cleans: seq<LimitClean>, a: string)
    requires Consistent(m, cleans) && a in m
    ensures m[a] >= 1
  {
  }

  /** Reading a Go map: the zero value for a missing key. */
  function Get(m: map<string, int>, a: string): int
  {
    if a in m then m[a] else 0
  }

  /** `limits[a] -= 1`, and the key deleted when it reaches 0. */
  function Decrement(m: map<string, int>, a: string): map<string, int>
  {
    var v := Get(m, a) - 1;
    if v == 0 then m - {a} else m[a := v]
  }

  /** Queuing an entry while counting it keeps the map consistent. */
  lemma CountNew(m: map<string, int>, cleans: seq<LimitClean>, e: LimitClean)
    requires Consistent(m, cleans)
    ensures Consistent(m[e.remoteAddr := Get(m, e.remoteAddr) + 1], cleans + [e])
  {
    forall a
      ensures Count(cleans + [e], a) == Count(cleans, a) + (if e.remoteAddr == a then 1 else 0)
    {
      CountAppend(cleans, [e], a);
      assert Count([e], a) == if e.remoteAddr == a then 1 else 0;
    }
  }

  /** Dropping the first entry while discounting it keeps the map consistent. */
  lemma DropFirst(m: map<string, int>, cleans: seq<LimitClean>)
    requires cleans != [] && Consistent(m, cleans)
    ensures Consistent(Decrement(m, cleans[0].remoteAddr), cleans[1..])
  {
  }

  /** The number of entries at the front of `cleans` that are due at `now`
      (their `After` is not after `now`): the loop of `rate` drops exactly
      these, stopping at the first entry that is not due. */
  function Expired(cleans: seq<LimitClean>, now: int): (n: nat)
    ensures n <= |cleans|
    ensures forall j | 0 <= j < n :: cleans[j].after <= now
    ensures n < |cleans| ==> cleans[n].after > now
  {
    if cleans == [] || cleans[0].after > now then 0
    else 1 + Expired(cleans[1..], now)
  }

  /** The queue after a request from `addr` at `now`: the due prefix
      dropped, and the request's own expiry `timeout` later appended. */
  function NextCleans(cleans: seq<LimitClean>, now: int, timeout: int, addr: string): seq<LimitClean>
  {
    cleans[Expired(cleans, now)..] + [LimitClean(now + timeout, addr)]
  }

  /** The count `rate` returns: the address's entries that are not due, plus
      the request itself; never below 1. */
  lemma NextCount(cleans: seq<LimitClean>, now: int, timeout: int, addr: string)
    ensures Count(NextCleans(cleans, now, timeout, addr), addr) == Count(cleans[Expired(cleans, now)..], addr) + 1
    ensures Count(NextCleans(cleans, now, timeout, addr), addr) >= 1
  {
    var e := LimitClean(now + timeout, addr);
    CountAppend(cleans[Expired(cleans, now)..], [e], addr);
    assert Count([e], addr) == 1;
  }

  predicate SortedByAfter(cleans: seq<LimitClean>)
  {
    forall i, j | 0 <= i < j < |cleans| :: cleans[i].after <= cleans[j].after
  }

  /** No entry expires later than `bound`. */
  predicate DueBy(cleans: seq<LimitClean>, bound: int)
  {
    forall i | 0 <= i < |cleans| :: cleans[i].after <= bound
  }

  /** With a clock that does not go back and a fixed timeout, the queue
      stays sorted by expiry time, and every entry expires no later than the
      latest request's `now + timeout`. */
  lemma NextCleansSorted(cleans: seq<LimitClean>, last: int, now: int, timeout: int, addr: string)
    requires SortedByAfter(cleans) && DueBy(cleans, last + timeout) && last <= now
    ensures SortedByAfter(NextCleans(cleans, now, timeout, addr))
    ensures DueBy(NextCleans(cleans, now, timeout, addr), now + timeout)
  {
  }

  /** In a sorted queue, nothing left behind by the expiry is due: the
      counts are exactly the requests of the last `timeout`. */
  lemma SortedLeavesNothingDue(cleans: seq<LimitClean>, now: int)
    requires SortedByAfter(cleans)
    ensures forall j | Expired(cleans, now) <= j < |cleans| :: cleans[j].after > now
  {
  }

  /** The loop of `rate`: walks the front of the queue while its entries are
      due at `now`, discounting each one (and deleting a count that reaches
      0); `rest` stands for entries counted but not in the queue yet.
      Returns how far it walked and the counts. */
  method ExpireFront(cl: seq<LimitClean>, counts: map<string, int>, now: int, ghost rest: seq<LimitClean>)
    returns (i: nat, m: map<string, int>)
    requires Consistent(counts, cl + rest)
    ensures i == Expired(cl, now)
    ensures Consistent(m, cl[i..] + rest)
  {
    assert cl[0..] == cl;
    m := counts;
    i := 0;
    while i < |cl|
      invariant i <= Expired(cl, now)
      invariant Consistent(m, cl[i..] + rest)
      decreases |cl| - i
    {
      if cl[i].after > now {
        break;
      }
      var a := cl[i].remoteAddr;
      assert (cl[i..] + rest)[1..] == cl[i + 1..] + rest;
      DropFirst(m, cl[i..] + rest);
      m := m[a := Get(m, a) - 1];
      if m[a] == 0 {
        m := m - {a};
      }
      i := i + 1;
    }
  }

  // ---------------------------------------------------------------------------
  // RpsLimiterClients
  // ---------------------------------------------------------------------------

  /** `RpsLimiterClients`. A nil `limits` map or `Handler429` is `None`. */
  class RpsLimiterClients {
    var quota: int
    var timeout: int
    var handler429: Option<HandlerFunc>
    var limits: Option<map<string, int>>
    var checkedEnv: bool
    var cleans: seq<LimitClean>

    /** The counts agree with the queue; before the first `Apply` there is
        no map and nothing is queued. */
    ghost predicate Valid()
      reads this
    {
      match limits
      case None => cleans == []
      case Some(m) => Consistent(m, cleans)
    }

    /** A limiter as a composite literal sets it up. */
    constructor (quota: int, timeout: int, handler429: Option<HandlerFunc>)
      ensures this.quota == quota && this.timeout == timeout && this.handler429 == handler429
      ensures limits == None && !checkedEnv && cleans == [] && Valid()
    {
      this.quota := quota;
      this.timeout := timeout;
      this.handler429 := handler429;
      limits := None;
      checkedEnv := false;
      cleans := [];
    }

    /** `tryQuotaFromEnv(env, &limit.checkedEnv, &limit.Quota)`. */
    method TryQuotaFromEnv(environ: map<string, string>, env: string) returns (ok: bool)
      modifies this
      ensures QuotaCheck(ok, checkedEnv, quota) == QuotaFromEnv(environ, env, old(checkedEnv), old(quota))
      ensures timeout == old(timeout) && handler429 == old(handler429)
      ensures limits == old(limits) && cleans == old(cleans)
    {
      if quota > 0 {
        return true;
      }
      if checkedEnv {
        return false;
      }
      checkedEnv := true;
      if env !in environ {
        return false;
      }
      var parsed := ParseInt(environ[env]);
      if parsed.None? {
        return false;
      }
      quota := parsed.value;
      return quota > 0;
    }

    /** `Apply`: without a positive quota (set, or read from
        `MONO_RPS_CLIENTS` in `environ`) the handler is returned unchanged;
        otherwise the missing parts are filled in (an empty map, a timeout of
        one second, the default 429 handler) and the guarded handler is
        returned, whose behaviour is `Serve`. */
    method Apply(handler: HandlerFunc, environ: map<string, string>) returns (r: HandlerFunc)
      requires Valid()
      modifies this
      ensures Valid()
      ensures var q := QuotaFromEnv(environ, EnvMonoRpsClients, old(checkedEnv), old(quota));
              && checkedEnv == q.checked && quota == q.quota && cleans == old(cleans)
              && (!q.ok ==> r == handler && limits == old(limits)
                            && timeout == old(timeout) && handler429 == old(handler429))
              && (q.ok ==> r == Wrap(LimiterName, handler)
                           && limits == Some(if old(limits).None? then map[] else old(limits).value)
                           && timeout == (if old(timeout) == 0 then Second else old(timeout))
                           && handler429 == Some(if old(handler429).None? then DefaultHandler429
                                                 else old(handler429).value))
    {
      var ok := TryQuotaFromEnv(environ, EnvMonoRpsClients);
      if !ok {
        return handler;
      }
      if limits.None? {
        limits := Some(map[]);
      }
      if timeout == 0 {
        timeout := Second;
      }
      if handler429.None? {
        handler429 := Some(DefaultHandler429);
      }
      r := Wrap(LimiterName, handler);
    }

    /** `rate(addr)` for a request at time `now`: counts the request, drops
        the due entries at the front of the queue (discounting each and
        deleting counts that reach 0), queues the request's own expiry, and
        returns the address's count. */
    method Rate(addr: string, now: int) returns (count: int)
      requires Valid() && limits.Some?
      modifies this
      ensures Valid() && limits.Some?
      ensures cleans == NextCleans(old(cleans), now, timeout, addr)
      ensures count == Count(cleans, addr) && count >= 1
      ensures quota == old(quota) && timeout == old(timeout) && handler429 == old(handler429)
      ensures checkedEnv == old(checkedEnv)
    {
      var cl := cleans;
      var m := limits.value;
      ghost var entry := LimitClean(now + timeout, addr);
      CountNew(m, cl, entry);
      m := m[addr := Get(m, addr) + 1];
      var i;
      i, m := ExpireFront(cl, m, now, [entry]);
      cleans := cl[i..] + [LimitClean(now + timeout, addr)];
      limits := Some(m);
      NextCount(cl, now, timeout, addr);
      count := Get(m, addr);
    }

    /** The handler `Apply` returns, serving a request from `addr` at time
        `now`: the request is counted, and the 429 handler runs when the
        count exceeds the quota, the guarded handler otherwise. Returns the
        handler that runs. */
    method Serve(handler: HandlerFunc, addr: string, now: int) returns (ran: HandlerFunc)
      requires Valid() && limits.Some? && handler429.Some?
      modifies this
      ensures Valid() && limits.Some?
      ensures quota == old(quota) && timeout == old(timeout) && handler429 == old(handler429)
      ensures checkedEnv == old(checkedEnv)
      ensures cleans == NextCleans(old(cleans), now, timeout, addr)
      ensures ran == (if Count(cleans, addr) > quota then handler429.value else handler)
    {
      var count := Rate(addr, now);
      if count > quota {
        ran := handler429.value;
      } else {
        ran := handler;
      }
    }
  }

  /** `RpsLimitClients(quota, handler429...)`: a limiter with a one-second
      window and the first given 429 handler, or the default one. */
  method RpsLimitClients(quota: int, handler429: seq<HandlerFunc>) returns (limiter: RpsLimiterClients)
    ensures fresh(limiter) && limiter.Valid()
    ensures limiter.quota == quota && limiter.timeout == Second
    ensures limiter.handler429 == Some(if handler429 == [] then DefaultHandler429 else handler429[0])
    ensures limiter.limits == None && !limiter.checkedEnv
  {
    limiter := new RpsLimiterClients(quota, Second, Some(Def(handler429, DefaultHandler429)));
  }
}
