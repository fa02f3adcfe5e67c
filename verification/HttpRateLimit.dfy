/** The SFU's per-key request limiter (apps/sfu/src/http-rate-limit.ts). */
module HttpRateLimit {
  import opened Wrappers
  import opened RateWindows

  datatype RateLimitDecision = RateLimitDecision(allowed: bool, remaining: int, retryAfterMs: int)

  datatype Bucket = Bucket(count: int, resetAt: int)

  /** The value of a limiter. */
  datatype Limiter = Limiter(maxRequests: int, windowMs: int, maxBuckets: int, buckets: map<string, Bucket>)

  function Max(a: int, b: int): int {
    if a >= b then a else b
  }

  function Unexpired(buckets: map<string, Bucket>, now: int): map<string, Bucket> {
    map key | key in buckets && buckets[key].resetAt > now :: buckets[key]
  }

  /** The key's window has not run out. */
  predicate InWindow(l: Limiter, key: string, now: int) {
    key in l.buckets && l.buckets[key].resetAt > now
  }

  function Swept(l: Limiter, key: string, now: int): map<string, Bucket> {
    if key !in l.buckets && |l.buckets| >= l.maxBuckets then Unexpired(l.buckets, now) else l.buckets
  }

  function Checked(l: Limiter, key: string, now: int): (Limiter, RateLimitDecision) {
    if !InWindow(l, key, now) then
      var swept := Swept(l, key, now);
      if key !in l.buckets && |swept| >= l.maxBuckets then
        (l.(buckets := swept), RateLimitDecision(false, 0, l.windowMs))
      else
        (l.(buckets := swept[key := Bucket(1, now + l.windowMs)]),
         RateLimitDecision(true, Max(l.maxRequests - 1, 0), 0))
    else
      var b := l.buckets[key];
      if b.count >= l.maxRequests then (l, RateLimitDecision(false, 0, Max(b.resetAt - now, 0)))
      else
        (l.(buckets := l.buckets[key := Bucket(b.count + 1, b.resetAt)]),
         RateLimitDecision(true, Max(l.maxRequests - (b.count + 1), 0), 0))
  }

  // ---- the code ----

  class RateLimitBucket {
    var count: int
    var resetAt: int

    constructor (count: int, resetAt: int)
      ensures this.count == count && this.resetAt == resetAt
    {
      this.count, this.resetAt := count, resetAt;
    }
  }

  class FixedWindowRateLimiter {
    const maxRequests: int
    const windowMs: int
    const maxBuckets: int
    var buckets: map<string, RateLimitBucket>

    constructor (maxRequests: int, windowMs: int, maxBuckets: int)
      ensures Valid() && View() == Limiter(maxRequests, windowMs, Max(maxBuckets, 1), map[])
    {
      this.maxRequests, this.windowMs, this.maxBuckets := maxRequests, windowMs, Max(maxBuckets, 1);
      buckets := map[];
    }

    /** No two keys share a bucket. */
    ghost predicate Valid()
      reads this
    {
      forall j, k :: j in buckets && k in buckets && j != k ==> buckets[j] != buckets[k]
    }

    ghost function Values(): map<string, Bucket>
      reads this, buckets.Values
    {
      map k | k in buckets :: Bucket(buckets[k].count, buckets[k].resetAt)
    }

    ghost function View(): Limiter
      reads this, buckets.Values
    {
      Limiter(maxRequests, windowMs, maxBuckets, Values())
    }

    method Check(key: string, now: int) returns (d: RateLimitDecision)
      requires Valid()
      modifies this, buckets.Values
      ensures Valid() && fresh(buckets.Values - old(buckets.Values))
      ensures (View(), d) == Checked(old(View()), key, now)
    {
      if key !in buckets || buckets[key].resetAt <= now {
        d := OpenWindow(key, now);
        return;
      }
      var existing := buckets[key];
      if existing.count >= maxRequests {
        return RateLimitDecision(false, 0, Max(existing.resetAt - now, 0));
      }
      existing.count := existing.count + 1;
      assert Values() == old(Values())[key := Bucket(existing.count, existing.resetAt)];
      d := RateLimitDecision(true, Max(maxRequests - existing.count, 0), 0);
    }

    /** A key without a running window gets a new one, unless the map is full of other keys' windows. */
    method OpenWindow(key: string, now: int) returns (d: RateLimitDecision)
      requires Valid() && !InWindow(View(), key, now)
      modifies this
      ensures Valid() && fresh(buckets.Values - old(buckets.Values))
      ensures (View(), d) == Checked(old(View()), key, now)
    {
      SameKeys();
      if key !in buckets && |buckets| >= maxBuckets {
        Prune(now);
        SameKeys();
        if |buckets| >= maxBuckets {
          return RateLimitDecision(false, 0, windowMs);
        }
      }
      StartBucket(key, now);
      d := RateLimitDecision(true, Max(maxRequests - 1, 0), 0);
    }

    method StartBucket(key: string, now: int)
      requires Valid()
      modifies this
      ensures Valid() && fresh(buckets.Values - old(buckets.Values))
      ensures Values() == old(Values())[key := Bucket(1, now + windowMs)]
    {
      var bucket := new RateLimitBucket(1, now + windowMs);
      buckets := buckets[key := bucket];
    }

    lemma SameKeys()
      ensures Values().Keys == buckets.Keys && |Values()| == |buckets|
    {
      assert Values().Keys == buckets.Keys;
    }

    method Prune(now: int)
      requires Valid()
      modifies this
      ensures Valid() && buckets.Values <= old(buckets.Values)
      ensures Values() == Unexpired(old(Values()), now)
    {
      var todo := buckets.Keys;
      while todo != {}
        invariant todo <= buckets.Keys
        invariant buckets.Keys <= old(buckets.Keys)
        invariant forall k :: k in buckets ==> buckets[k] == old(buckets[k])
        invariant forall k :: k in old(buckets) ==>
                    (k in buckets <==> k in todo || old(buckets[k].resetAt) > now)
      {
        var key :| key in todo;
        todo := todo - {key};
        if buckets[key].resetAt <= now {
          buckets := buckets - {key};
        }
      }
      forall b | b in buckets.Values
        ensures b in old(buckets.Values)
      {
        var k :| k in buckets && buckets[k] == b;
        assert old(buckets[k]) == b;
      }
    }
  }

  // ---- every run ----

  datatype Request = Request(key: string, now: int)

  function Run(l: Limiter, requests: seq<Request>): Limiter {
    if requests == [] then l
    else
      var last := requests[|requests| - 1];
      Checked(Run(l, requests[..|requests| - 1]), last.key, last.now).0
  }

  /** When the key's requests were let through. */
  function AllowedTimes(l: Limiter, requests: seq<Request>, key: string): seq<int> {
    if requests == [] then []
    else
      var before, last := requests[..|requests| - 1], requests[|requests| - 1];
      AllowedTimes(l, before, key)
      + (if last.key == key && Checked(Run(l, before), key, last.now).1.allowed then [last.now] else [])
  }

  predicate InTimeOrder(requests: seq<Request>) {
    forall i :: 0 < i < |requests| ==> requests[i - 1].now <= requests[i].now
  }

  predicate IsNew(l: Limiter) {
    l.buckets == map[] && l.maxBuckets >= 1
  }

  /** The first request of a window is let through whatever the limit. */
  function Limit(l: Limiter): nat {
    Max(l.maxRequests, 1)
  }

  function WindowOf(l: Limiter, key: string): Option<Open> {
    if key in l.buckets && l.buckets[key].count >= 1
    then Some(Open(l.buckets[key].resetAt - l.windowMs, l.buckets[key].count))
    else None
  }

  ghost predicate KeyMetered(l: Limiter, key: string, times: seq<int>, now: int) {
    && (key in l.buckets ==> l.buckets[key].count >= 1)
    && Metered(times, WindowOf(l, key), l.windowMs, Limit(l), now)
  }

  lemma OtherKeyStaysMetered(l: Limiter, other: string, key: string, times: seq<int>, now: int, later: int)
    requires KeyMetered(l, key, times, now) && now <= later && other != key
    ensures KeyMetered(Checked(l, other, later).0, key, times, later)
  {
    if WindowOf(l, key).Some? && l.buckets[key].resetAt <= later {
      WindowCloses(times, WindowOf(l, key).value, l.windowMs, Limit(l), now, later);
    }
    TimePasses(times, WindowOf(l, key), l.windowMs, Limit(l), now, later);
  }

  lemma CheckedKeyStaysMetered(l: Limiter, key: string, times: seq<int>, now: int, later: int)
    requires l.windowMs > 0 && KeyMetered(l, key, times, now) && now <= later
    ensures var (l', d) := Checked(l, key, later);
            KeyMetered(l', key, if d.allowed then times + [later] else times, later)
  {
    var limit := Limit(l);
    TimePasses(times, WindowOf(l, key), l.windowMs, limit, now, later);
    if InWindow(l, key, later) {
      var open := WindowOf(l, key).value;
      if open.admitted < l.maxRequests {
        RequestAdmitted(times, open, l.windowMs, limit, later);
      }
    } else {
      if key in l.buckets {
        WindowCloses(times, WindowOf(l, key).value, l.windowMs, limit, now, later);
      }
      FirstAdmitted(times, l.windowMs, limit, later);
    }
  }

  lemma {:induction false} RunStaysMetered(l: Limiter, requests: seq<Request>, key: string, now: int)
    requires IsNew(l) && l.windowMs > 0 && InTimeOrder(requests)
    requires requests == [] || requests[|requests| - 1].now <= now
    ensures var l' := Run(l, requests);
            && l'.windowMs == l.windowMs && l'.maxRequests == l.maxRequests
            && KeyMetered(l', key, AllowedTimes(l, requests, key), now)
  {
    if requests == [] {
      NothingAdmitted(l.windowMs, Limit(l), now);
    } else {
      var before, last := requests[..|requests| - 1], requests[|requests| - 1];
      RunStaysMetered(l, before, key, last.now);
      var m, times := Run(l, before), AllowedTimes(l, before, key);
      if last.key == key {
        CheckedKeyStaysMetered(m, key, times, last.now, last.now);
      } else {
        OtherKeyStaysMetered(m, last.key, key, times, last.now, last.now);
      }
      assert times + [] == times;
      var l' := Run(l, requests);
      TimePasses(AllowedTimes(l, requests, key), WindowOf(l', key), l.windowMs, Limit(l), last.now, now);
    }
  }

  /** Over any interval of a window's length, aligned or not, a key gets less than twice the limit. */
  lemma LessThanTwiceTheLimit(l: Limiter, requests: seq<Request>, key: string, from: int)
    requires IsNew(l) && InTimeOrder(requests)
    ensures CountIn(AllowedTimes(l, requests, key), from, l.windowMs) <= LeastBound(l.windowMs, Limit(l))
  {
    if l.windowMs <= 0 {
      EmptyInterval(AllowedTimes(l, requests, key), from, l.windowMs);
    } else {
      RunStaysMetered(l, requests, key, if requests == [] then 0 else requests[|requests| - 1].now);
    }
  }

  // ---- a run that reaches the bound ----

  lemma RunNothing(l: Limiter, key: string)
    ensures Run(l, []) == l && AllowedTimes(l, [], key) == []
  {
  }

  lemma RunOneMore(l: Limiter, before: seq<Request>, r: Request, key: string)
    ensures Run(l, before + [r]) == Checked(Run(l, before), r.key, r.now).0
    ensures AllowedTimes(l, before + [r], key)
            == AllowedTimes(l, before, key)
               + (if r.key == key && Checked(Run(l, before), key, r.now).1.allowed then [r.now] else [])
  {
    assert (before + [r])[..|before|] == before;
  }

  /** The key's window is running until `resetAt` and has admitted `count`. */
  ghost predicate Running(m: Limiter, key: string, count: int, resetAt: int, l: Limiter) {
    && m.windowMs == l.windowMs && m.maxRequests == l.maxRequests
    && key in m.buckets && m.buckets[key] == Bucket(count, resetAt)
  }

  /** Further requests inside an open window, as many as it still admits. */
  lemma {:induction false} WindowFills(l: Limiter, before: seq<Request>, r: Request, used: int, resetAt: int, count: nat)
    requires Running(Run(l, before), r.key, used, resetAt, l) && r.now < resetAt
    requires count > 0 ==> used + count <= l.maxRequests
    ensures Running(Run(l, before + Repeated(r, count)), r.key, used + count, resetAt, l)
    ensures AllowedTimes(l, before + Repeated(r, count), r.key)
            == AllowedTimes(l, before, r.key) + Repeated(r.now, count)
  {
    hide Run;
    hide AllowedTimes;
    if count == 0 {
      assert before + [] == before;
    } else {
      WindowFills(l, before, r, used, resetAt, count - 1);
      var most := before + Repeated(r, count - 1);
      assert before + Repeated(r, count) == most + [r];
      RunOneMore(l, most, r, r.key);
    }
  }

  lemma {:induction false} RepeatedInOrder(before: seq<Request>, r: Request, count: nat)
    requires InTimeOrder(before) && before != [] && before[|before| - 1].now <= r.now
    ensures var after := before + Repeated(r, count);
            InTimeOrder(after) && after != [] && after[|after| - 1].now <= r.now
  {
    if count == 0 {
      assert before + [] == before;
    } else {
      RepeatedInOrder(before, r, count - 1);
      assert before + Repeated(r, count) == (before + Repeated(r, count - 1)) + [r];
    }
  }

  /** A key opens a window at `opens` and uses it up at `fills`. */
  function Burst(before: seq<Request>, key: string, opens: int, fills: int, limit: nat): seq<Request>
    requires limit > 0
  {
    before + [Request(key, opens)] + Repeated(Request(key, fills), limit - 1)
  }

  lemma BurstIsAllowed(l: Limiter, before: seq<Request>, key: string, opens: int, fills: int)
    requires opens <= fills < opens + l.windowMs
    requires var m := Run(l, before);
             && m.windowMs == l.windowMs && m.maxRequests == l.maxRequests
             && !InWindow(m, key, opens) && (key in m.buckets || |m.buckets| < m.maxBuckets)
    ensures var after := Burst(before, key, opens, fills, Limit(l));
            && Running(Run(l, after), key, Limit(l), opens + l.windowMs, l)
            && AllowedTimes(l, after, key) == AllowedTimes(l, before, key) + Block(opens, fills, Limit(l))
  {
    hide Run;
    hide AllowedTimes;
    hide Repeated;
    var first, more := before + [Request(key, opens)], Request(key, fills);
    RunOneMore(l, before, Request(key, opens), key);
    WindowFills(l, first, more, 1, opens + l.windowMs, Limit(l) - 1);
    assert AllowedTimes(l, before, key) + Block(opens, fills, Limit(l))
        == AllowedTimes(l, before, key) + [opens] + Repeated(fills, Limit(l) - 1);
  }

  lemma BurstInOrder(before: seq<Request>, key: string, opens: int, fills: int, limit: nat)
    requires limit > 0 && opens <= fills
    requires InTimeOrder(before) && (before != [] ==> before[|before| - 1].now <= opens)
    ensures var after := Burst(before, key, opens, fills, limit);
            InTimeOrder(after) && after != [] && after[|after| - 1].now <= fills
  {
    RepeatedInOrder(before + [Request(key, opens)], Request(key, fills), limit - 1);
  }

  lemma BoundIsReached(l: Limiter, key: string) returns (requests: seq<Request>)
    requires IsNew(l) && l.windowMs > 0
    ensures InTimeOrder(requests)
    ensures CountIn(AllowedTimes(l, requests, key), l.windowMs - 1, l.windowMs) == LeastBound(l.windowMs, Limit(l))
  {
    hide Burst;
    hide Run;
    hide AllowedTimes;
    hide CountIn;
    hide Block;
    RunNothing(l, key);
    var w, limit := l.windowMs, Limit(l);
    var first := Burst([], key, 0, w - 1, limit);
    BurstIsAllowed(l, [], key, 0, w - 1);
    BurstInOrder([], key, 0, w - 1, limit);
    requests := Burst(first, key, w, w, limit);
    BurstIsAllowed(l, first, key, w, w);
    BurstInOrder(first, key, w, w, limit);
    TwoBlocksReachBound(w, limit);
  }

  /** Every run, every key and every interval stay within `bound`. */
  ghost predicate AlwaysWithin(l: Limiter, bound: int) {
    forall requests: seq<Request>, key: string, from: int :: InTimeOrder(requests) ==>
      CountIn(AllowedTimes(l, requests, key), from, l.windowMs) <= bound
  }

  /** The bound is the least there is. */
  lemma LeastBoundIsExact(l: Limiter, bound: int)
    requires IsNew(l)
    ensures AlwaysWithin(l, bound) <==> bound >= LeastBound(l.windowMs, Limit(l))
  {
    if bound >= LeastBound(l.windowMs, Limit(l)) {
      forall requests: seq<Request>, key: string, from: int | InTimeOrder(requests)
        ensures CountIn(AllowedTimes(l, requests, key), from, l.windowMs) <= bound
      {
        LessThanTwiceTheLimit(l, requests, key, from);
      }
    } else if l.windowMs > 0 {
      var requests := BoundIsReached(l, "");
      assert CountIn(AllowedTimes(l, requests, ""), l.windowMs - 1, l.windowMs) > bound;
    } else {
      assert CountIn(AllowedTimes(l, [], ""), 0, l.windowMs) == 0;
      assert InTimeOrder([]);
    }
  }

  /** Twice the configured limit is a bound exactly when that limit admits a request at all. */
  lemma TwiceTheConfiguredLimitExactly(l: Limiter)
    requires IsNew(l)
    ensures AlwaysWithin(l, 2 * Max(l.maxRequests, 0)) <==> l.maxRequests >= 1 || l.windowMs <= 0
  {
    LeastBoundIsExact(l, 2 * Max(l.maxRequests, 0));
  }

  lemma UnexpiredSize(buckets: map<string, Bucket>, now: int)
    ensures |Unexpired(buckets, now)| <= |buckets|
  {
    assert Unexpired(buckets, now).Keys <= buckets.Keys;
    SubsetSize(Unexpired(buckets, now).Keys, buckets.Keys);
  }

  lemma {:induction false} SubsetSize(a: set<string>, b: set<string>)
    requires a <= b
    ensures |a| <= |b|
  {
    if a != {} {
      var x :| x in a;
      SubsetSize(a - {x}, b - {x});
    }
  }

  /** A request is refused exactly when its window is spent, or when every slot holds a running window of another key. */
  lemma DeniedExactly(l: Limiter, key: string, now: int)
    ensures !Checked(l, key, now).1.allowed <==>
              || (key in l.buckets && l.buckets[key].resetAt > now && l.buckets[key].count >= l.maxRequests)
              || (key !in l.buckets && |Unexpired(l.buckets, now)| >= l.maxBuckets)
    ensures forall k :: k in Unexpired(l.buckets, now) <==> k in l.buckets && l.buckets[k].resetAt > now
  {
    UnexpiredSize(l.buckets, now);
  }

  /**
   * What the caller is told. A refused key has nothing left and waits for the end of its own window, or
   * for a whole window where the map is full; an allowed one need not wait, and has what its window leaves.
   */
  lemma DecisionIsExact(l: Limiter, key: string, now: int)
    ensures var d := Checked(l, key, now).1;
            var running := key in l.buckets && l.buckets[key].resetAt > now;
            && (!d.allowed ==>
                  d.remaining == 0 && d.retryAfterMs == if running then l.buckets[key].resetAt - now else l.windowMs)
            && (d.allowed ==>
                  var used := if running then l.buckets[key].count + 1 else 1;
                  d.retryAfterMs == 0 && d.remaining == if l.maxRequests > used then l.maxRequests - used else 0)
  {
  }

  /** A spent key is refused before the retry time it was given, whatever requests of any key come in between. */
  lemma {:induction false} RefusedUntilRetry(l: Limiter, key: string, now: int, between: seq<Request>, later: int)
    requires InWindow(l, key, now) && !Checked(l, key, now).1.allowed
    requires now <= later < now + Checked(l, key, now).1.retryAfterMs
    requires forall r :: r in between ==> now <= r.now <= later
    ensures var l' := Run(l, between);
            && l'.maxRequests == l.maxRequests && key in l'.buckets && l'.buckets[key] == l.buckets[key]
            && !Checked(l', key, later).1.allowed
  {
    if between != [] {
      RefusedUntilRetry(l, key, now, between[..|between| - 1], later);
      assert between[|between| - 1] in between;
    }
  }

  /** Until the key is asked for again at its retry time, its bucket stays as it is, or is swept from a full map. */
  lemma {:induction false} SpentBucketWaits(l: Limiter, key: string, between: seq<Request>)
    requires key in l.buckets && InTimeOrder(between)
    requires l.buckets[key].count >= l.maxRequests
    requires forall r :: r in between && r.key == key ==> r.now < l.buckets[key].resetAt
    ensures var l' := Run(l, between);
            && l'.maxRequests == l.maxRequests && l'.maxBuckets == l.maxBuckets
            && (key in l'.buckets ==> l'.buckets[key] == l.buckets[key])
            && (key !in l'.buckets ==> between != [] && between[|between| - 1].now >= l.buckets[key].resetAt)
  {
    if between != [] {
      var before, last := between[..|between| - 1], between[|between| - 1];
      assert forall r :: r in before ==> r in between;
      assert last in between;
      SpentBucketWaits(l, key, before);
    }
  }

  /**
   * What the key gets the first time it asks at or after its retry time, whatever other keys did in
   * between: it is let through, unless its run-out bucket was swept to make room and the map is full
   * of running windows.
   */
  lemma LetThroughAtRetryExactly(l: Limiter, key: string, now: int, between: seq<Request>, later: int)
    requires InWindow(l, key, now) && !Checked(l, key, now).1.allowed
    requires now + Checked(l, key, now).1.retryAfterMs <= later
    requires InTimeOrder(between) && forall r :: r in between && r.key == key ==> r.now < l.buckets[key].resetAt
    ensures var l' := Run(l, between);
            Checked(l', key, later).1.allowed
            <==> key in l'.buckets || |Unexpired(l'.buckets, later)| < l.maxBuckets
  {
    SpentBucketWaits(l, key, between);
    DeniedExactly(Run(l, between), key, later);
  }

  /** The exception is real: with room for one key, a newcomer at the retry time takes the slot. */
  lemma RetryCanBeLostToANewKey(windowMs: int)
    requires windowMs > 0
    ensures var l := Limiter(1, windowMs, 1, map["first" := Bucket(1, windowMs)]);
            var retry := Checked(l, "first", 0).1;
            && !retry.allowed && retry.retryAfterMs == windowMs
            && !Checked(Run(l, [Request("second", windowMs)]), "first", windowMs).1.allowed
  {
    var l := Limiter(1, windowMs, 1, map["first" := Bucket(1, windowMs)]);
    var requests := [Request("second", windowMs)];
    assert requests[..0] == [] && Run(l, requests[..0]) == l;
    assert Unexpired(l.buckets, windowMs) == map[];
    assert |l.buckets| == 1;
    var after := map["second" := Bucket(1, windowMs + windowMs)];
    assert Checked(l, "second", windowMs).0.buckets == after;
    assert Unexpired(after, windowMs) == after && |after| == 1;
  }

  function Asked(requests: seq<Request>, key: string): nat {
    if requests == [] then 0
    else Asked(requests[..|requests| - 1], key) + (if requests[|requests| - 1].key == key then 1 else 0)
  }

  function Min(a: int, b: int): int {
    if a <= b then a else b
  }

  /**
   * `remaining` is what it says: of the key's further requests while the window lasts, exactly that
   * many are let through, whatever requests of other keys come in between.
   */
  lemma {:induction false} RemainingIsExact(l: Limiter, key: string, now: int, between: seq<Request>)
    requires Checked(l, key, now).1.allowed
    requires var l1 := Checked(l, key, now).0; forall r :: r in between ==> r.now < l1.buckets[key].resetAt
    ensures var (l1, d) := Checked(l, key, now);
            var l' := Run(l1, between);
            var used := |AllowedTimes(l1, between, key)|;
            && used == Min(d.remaining, Asked(between, key))
            && l'.maxRequests == l.maxRequests && key in l'.buckets
            && l'.buckets[key] == Bucket(l1.buckets[key].count + used, l1.buckets[key].resetAt)
  {
    hide Swept;
    hide Unexpired;
    var l1 := Checked(l, key, now).0;
    if between == [] {
      assert Run(l1, between) == l1;
    } else {
      var before, last := between[..|between| - 1], between[|between| - 1];
      assert between == before + [last] && forall r :: r in before ==> r in between;
      RemainingIsExact(l, key, now, before);
      var used := |AllowedTimes(l1, before, key)|;
      RunOneMore(l1, before, last, key);
      RunningOneMore(Run(l1, before), key, l1.buckets[key].count + used, l1.buckets[key].resetAt, last);
    }
  }

  /** One more request while the window runs: it is for another key, or counted, or refused. */
  lemma RunningOneMore(m: Limiter, key: string, count: int, resetAt: int, r: Request)
    requires key in m.buckets && m.buckets[key] == Bucket(count, resetAt) && r.now < resetAt
    ensures var (after, d) := Checked(m, r.key, r.now);
            && after.maxRequests == m.maxRequests && key in after.buckets
            && (r.key == key ==> (d.allowed <==> count < m.maxRequests))
            && after.buckets[key] == Bucket(if r.key == key && d.allowed then count + 1 else count, resetAt)
  {
  }

  /** The map never outgrows its cap. */
  lemma {:induction false} MapStaysBounded(l: Limiter, requests: seq<Request>)
    requires IsNew(l)
    ensures |Run(l, requests).buckets| <= l.maxBuckets && Run(l, requests).maxBuckets == l.maxBuckets
  {
    if requests != [] {
      var m, last := Run(l, requests[..|requests| - 1]), requests[|requests| - 1];
      MapStaysBounded(l, requests[..|requests| - 1]);
      UnexpiredSize(m.buckets, last.now);
    }
  }
}
