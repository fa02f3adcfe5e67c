/**
 * The WebSocket message limiter (apps/api/src/services/ws-rate-limit.ts): per socket, one bucket
 * for call signals and one for everything else, until the socket is cleared. A bucket is refilled
 * whole when its window has passed; clearing a socket forgets both buckets, so what is promised about
 * an interval is promised between two clears.
 */
module WsRateLimit {
  import opened Wrappers
  import opened RateWindows

  datatype Config = Config(defaultMax: int, defaultWindowMs: int, callSignalMax: int, callSignalWindowMs: int)

  const CALL_SIGNAL_TYPES: set<string> := {
    "call.offer", "call.answer", "call.ice", "call.ice.batch", "call.hangup", "call.reject",
    "group.call.media-key", "group.call.media-key.ack", "group.call.producer_state", "room.join", "room.leave"
  }

  predicate IsCallSignalType(messageType: string) {
    messageType in CALL_SIGNAL_TYPES
  }

  datatype Bucket = Bucket(tokens: int, lastRefill: int)

  type Buckets = map<string, Bucket>

  /** The value of a limiter. */
  datatype Limiter = Limiter(config: Config, defaultBuckets: Buckets, callSignalBuckets: Buckets)

  /** The socket's bucket once it is found or made, and refilled if its window has run out. */
  function Refilled(buckets: Buckets, socketId: string, max: int, windowMs: int, now: int): Bucket {
    var bucket := if socketId in buckets then buckets[socketId] else Bucket(max, now);
    if now - bucket.lastRefill >= windowMs then Bucket(max, now) else bucket
  }

  function Consumed(buckets: Buckets, socketId: string, max: int, windowMs: int, now: int): (Buckets, bool) {
    var bucket := Refilled(buckets, socketId, max, windowMs, now);
    if bucket.tokens <= 0 then (buckets[socketId := bucket], false)
    else (buckets[socketId := Bucket(bucket.tokens - 1, bucket.lastRefill)], true)
  }

  function After(l: Limiter, socketId: string, messageType: string, now: int): (Limiter, bool) {
    if IsCallSignalType(messageType) then
      var (buckets, allowed) :=
        Consumed(l.callSignalBuckets, socketId, l.config.callSignalMax, l.config.callSignalWindowMs, now);
      (l.(callSignalBuckets := buckets), allowed)
    else
      var (buckets, allowed) := Consumed(l.defaultBuckets, socketId, l.config.defaultMax, l.config.defaultWindowMs, now);
      (l.(defaultBuckets := buckets), allowed)
  }

  function Cleared(l: Limiter, socketId: string): Limiter {
    Limiter(l.config, l.defaultBuckets - {socketId}, l.callSignalBuckets - {socketId})
  }

  // ---- the code ----

  class RateBucket {
    var tokens: int
    var lastRefill: int

    constructor (tokens: int, lastRefill: int)
      ensures this.tokens == tokens && this.lastRefill == lastRefill
    {
      this.tokens, this.lastRefill := tokens, lastRefill;
    }

    /** Refills the bucket if its window has run out, then takes a token if there is one. */
    method Take(max: int, windowMs: int, now: int) returns (allowed: bool)
      modifies this
      ensures var refilled := if now - old(lastRefill) >= windowMs then Bucket(max, now)
                              else Bucket(old(tokens), old(lastRefill));
              && allowed == (refilled.tokens > 0)
              && lastRefill == refilled.lastRefill
              && tokens == if allowed then refilled.tokens - 1 else refilled.tokens
    {
      if now - lastRefill >= windowMs {
        tokens := max;
        lastRefill := now;
      }
      if tokens <= 0 {
        return false;
      }
      tokens := tokens - 1;
      allowed := true;
    }
  }

  ghost predicate Distinct(buckets: map<string, RateBucket>) {
    forall j, k :: j in buckets && k in buckets && j != k ==> buckets[j] != buckets[k]
  }

  ghost function Values(buckets: map<string, RateBucket>): Buckets
    reads buckets.Values
  {
    map k | k in buckets :: Bucket(buckets[k].tokens, buckets[k].lastRefill)
  }

  lemma OthersKeepValue(buckets: map<string, RateBucket>, socketId: string, before: Buckets)
    requires socketId in buckets && before.Keys == buckets.Keys
    requires forall k :: k in buckets && k != socketId ==> before[k] == Bucket(buckets[k].tokens, buckets[k].lastRefill)
    ensures Values(buckets) == before[socketId := Bucket(buckets[socketId].tokens, buckets[socketId].lastRefill)]
  {
  }

  method FindOrAdd(buckets: map<string, RateBucket>, socketId: string, max: int, now: int)
    returns (after: map<string, RateBucket>, bucket: RateBucket)
    requires Distinct(buckets)
    ensures Distinct(after) && fresh(after.Values - buckets.Values)
    ensures socketId in after && after[socketId] == bucket && (bucket in buckets.Values || fresh(bucket))
    ensures Values(after) == if socketId in buckets then Values(buckets) else Values(buckets)[socketId := Bucket(max, now)]
  {
    if socketId in buckets {
      return buckets, buckets[socketId];
    }
    bucket := new RateBucket(max, now);
    after := buckets[socketId := bucket];
  }

  method ConsumeFromBucket(buckets: map<string, RateBucket>, socketId: string, max: int, windowMs: int, now: int)
    returns (after: map<string, RateBucket>, allowed: bool)
    requires Distinct(buckets)
    modifies buckets.Values
    ensures Distinct(after) && fresh(after.Values - buckets.Values)
    ensures (Values(after), allowed) == Consumed(old(Values(buckets)), socketId, max, windowMs, now)
  {
    var bucket;
    after, bucket := FindOrAdd(buckets, socketId, max, now);
    ghost var found := Values(after);
    allowed := bucket.Take(max, windowMs, now);
    OthersKeepValue(after, socketId, found);
    ghost var left := Bucket(bucket.tokens, bucket.lastRefill);
    assert found[socketId := left] == old(Values(buckets))[socketId := left];
  }

  lemma MinusValues(buckets: map<string, RateBucket>, ids: set<string>)
    ensures (buckets - ids).Values <= buckets.Values
  {
    forall b | b in (buckets - ids).Values
      ensures b in buckets.Values
    {
      var k :| k in buckets - ids && (buckets - ids)[k] == b;
      assert buckets[k] == b;
    }
  }

  class WsRateLimiter {
    const config: Config
    var defaultBuckets: map<string, RateBucket>
    var callSignalBuckets: map<string, RateBucket>

    constructor (config: Config)
      ensures Valid() && View() == Limiter(config, map[], map[])
    {
      this.config, defaultBuckets, callSignalBuckets := config, map[], map[];
    }

    ghost predicate Valid()
      reads this
    {
      && Distinct(defaultBuckets) && Distinct(callSignalBuckets)
      && defaultBuckets.Values !! callSignalBuckets.Values
    }

    ghost function View(): Limiter
      reads this, defaultBuckets.Values, callSignalBuckets.Values
    {
      Limiter(config, Values(defaultBuckets), Values(callSignalBuckets))
    }

    method Consume(socketId: string, messageType: string, now: int) returns (allowed: bool)
      requires Valid()
      modifies this, defaultBuckets.Values, callSignalBuckets.Values
      ensures Valid()
      ensures fresh(defaultBuckets.Values - old(defaultBuckets.Values))
      ensures fresh(callSignalBuckets.Values - old(callSignalBuckets.Values))
      ensures (View(), allowed) == After(old(View()), socketId, messageType, now)
    {
      hide Consumed;
      hide Values;
      if IsCallSignalType(messageType) {
        var buckets, r := ConsumeFromBucket(callSignalBuckets, socketId, config.callSignalMax,
                                            config.callSignalWindowMs, now);
        callSignalBuckets, allowed := buckets, r;
      } else {
        var buckets, r := ConsumeFromBucket(defaultBuckets, socketId, config.defaultMax, config.defaultWindowMs, now);
        defaultBuckets, allowed := buckets, r;
      }
    }

    method Clear(socketId: string)
      requires Valid()
      modifies this
      ensures Valid()
      ensures defaultBuckets.Values <= old(defaultBuckets.Values)
      ensures callSignalBuckets.Values <= old(callSignalBuckets.Values)
      ensures View() == Cleared(old(View()), socketId)
      ensures defaultBuckets == old(defaultBuckets) - {socketId}
      ensures callSignalBuckets == old(callSignalBuckets) - {socketId}
    {
      MinusValues(defaultBuckets, {socketId});
      MinusValues(callSignalBuckets, {socketId});
      ghost var before := View();
      defaultBuckets := defaultBuckets - {socketId};
      callSignalBuckets := callSignalBuckets - {socketId};
      assert Values(defaultBuckets) == before.defaultBuckets - {socketId};
      assert Values(callSignalBuckets) == before.callSignalBuckets - {socketId};
    }
  }

  // ---- every run ----

  datatype Event =
    | Arrived(socketId: string, messageType: string, now: int)
    | Closed(socketId: string)

  function Run(l: Limiter, events: seq<Event>): Limiter {
    if events == [] then l
    else
      var before := Run(l, events[..|events| - 1]);
      match events[|events| - 1]
      case Arrived(socketId, messageType, now) => After(before, socketId, messageType, now).0
      case Closed(socketId) => Cleared(before, socketId)
  }

  /** A cleared socket is treated as one never seen, and no other socket notices. */
  lemma ClearedSocketIsNew(l: Limiter, cleared: string, socketId: string, messageType: string, now: int)
    ensures var after, allowed := After(Cleared(l, cleared), socketId, messageType, now).0,
                                  After(Cleared(l, cleared), socketId, messageType, now).1;
            if socketId == cleared
            then allowed == After(Limiter(l.config, map[], map[]), socketId, messageType, now).1
            else
              && allowed == After(l, socketId, messageType, now).1
              && after == Cleared(After(l, socketId, messageType, now).0, cleared)
  {
    if socketId != cleared {
      OthersConsumeAlike(l.callSignalBuckets, cleared, socketId, l.config.callSignalMax, l.config.callSignalWindowMs, now);
      OthersConsumeAlike(l.defaultBuckets, cleared, socketId, l.config.defaultMax, l.config.defaultWindowMs, now);
    }
  }

  lemma OthersConsumeAlike(buckets: Buckets, cleared: string, socketId: string, max: int, windowMs: int, now: int)
    requires socketId != cleared
    ensures var before, after := Consumed(buckets, socketId, max, windowMs, now),
                                 Consumed(buckets - {cleared}, socketId, max, windowMs, now);
            after.0 == before.0 - {cleared} && after.1 == before.1
  {
  }

  /** When the socket's messages of one class were let through since it was last cleared. */
  function AllowedTimes(l: Limiter, events: seq<Event>, socketId: string, callSignal: bool): seq<int> {
    if events == [] then []
    else
      var before := events[..|events| - 1];
      match events[|events| - 1]
      case Closed(s) => if s == socketId then [] else AllowedTimes(l, before, socketId, callSignal)
      case Arrived(s, messageType, now) =>
        AllowedTimes(l, before, socketId, callSignal)
        + (if s == socketId && IsCallSignalType(messageType) == callSignal
              && After(Run(l, before), s, messageType, now).1
           then [now] else [])
  }

  /** The clock never goes back; clearing a socket takes no time. */
  ghost predicate InTimeOrder(events: seq<Event>) {
    forall i, j :: 0 <= i < j < |events| && events[i].Arrived? && events[j].Arrived? ==> events[i].now <= events[j].now
  }

  ghost predicate Until(events: seq<Event>, now: int) {
    forall e :: e in events && e.Arrived? ==> e.now <= now
  }

  function MaxOf(c: Config, callSignal: bool): int {
    if callSignal then c.callSignalMax else c.defaultMax
  }

  function WindowMsOf(c: Config, callSignal: bool): int {
    if callSignal then c.callSignalWindowMs else c.defaultWindowMs
  }

  function Limit(max: int): nat {
    if max >= 0 then max else 0
  }

  /** A bucket as the window it counts down: how much of the limit is used. */
  function WindowOf(buckets: Buckets, socketId: string, max: int): Option<Open> {
    if socketId in buckets && buckets[socketId].tokens <= max
    then Some(Open(buckets[socketId].lastRefill, Limit(max) - Limit(buckets[socketId].tokens)))
    else None
  }

  ghost predicate SocketMetered(buckets: Buckets, socketId: string, max: int, windowMs: int, times: seq<int>, now: int) {
    && (socketId in buckets ==> buckets[socketId].tokens <= max)
    && Metered(times, WindowOf(buckets, socketId, max), windowMs, Limit(max), now)
  }

  lemma ConsumedStaysMetered(buckets: Buckets, socketId: string, max: int, windowMs: int, times: seq<int>, now: int,
                             later: int)
    requires windowMs > 0 && SocketMetered(buckets, socketId, max, windowMs, times, now) && now <= later
    ensures var (after, allowed) := Consumed(buckets, socketId, max, windowMs, later);
            SocketMetered(after, socketId, max, windowMs, if allowed then times + [later] else times, later)
  {
    hide Metered;
    var limit := Limit(max);
    var window := WindowOf(buckets, socketId, max);
    TimePasses(times, window, windowMs, limit, now, later);
    if limit == 0 {
      NothingUnderZero(times, window, WindowOf(Consumed(buckets, socketId, max, windowMs, later).0, socketId, max),
                       windowMs, now, later);
    } else if window.None? || later - window.value.start >= windowMs {
      if window.Some? {
        WindowCloses(times, window.value, windowMs, limit, now, later);
      }
      FirstAdmitted(times, windowMs, limit, later);
    } else if buckets[socketId].tokens > 0 {
      RequestAdmitted(times, window.value, windowMs, limit, later);
    }
  }

  function BucketsOf(l: Limiter, callSignal: bool): Buckets {
    if callSignal then l.callSignalBuckets else l.defaultBuckets
  }

  ghost predicate ClassMetered(l: Limiter, c: Config, socketId: string, callSignal: bool, times: seq<int>, now: int) {
    l.config == c
    && SocketMetered(BucketsOf(l, callSignal), socketId, MaxOf(c, callSignal), WindowMsOf(c, callSignal), times, now)
  }

  lemma ArrivalStaysMetered(l: Limiter, socketId: string, callSignal: bool, times: seq<int>, e: Event, now: int)
    requires e.Arrived? && now <= e.now && WindowMsOf(l.config, callSignal) > 0
    requires ClassMetered(l, l.config, socketId, callSignal, times, now)
    ensures var (l', allowed) := After(l, e.socketId, e.messageType, e.now);
            var mine := e.socketId == socketId && IsCallSignalType(e.messageType) == callSignal;
            ClassMetered(l', l.config, socketId, callSignal, if mine && allowed then times + [e.now] else times, e.now)
  {
    var max, windowMs := MaxOf(l.config, callSignal), WindowMsOf(l.config, callSignal);
    var buckets := BucketsOf(l, callSignal);
    TimePasses(times, WindowOf(buckets, socketId, max), windowMs, Limit(max), now, e.now);
    ConsumedStaysMetered(buckets, socketId, max, windowMs, times, now, e.now);
  }

  lemma {:induction false} RunStaysMetered(c: Config, events: seq<Event>, socketId: string, callSignal: bool, now: int)
    requires InTimeOrder(events) && Until(events, now) && WindowMsOf(c, callSignal) > 0
    ensures ClassMetered(Run(Limiter(c, map[], map[]), events), c, socketId, callSignal,
                         AllowedTimes(Limiter(c, map[], map[]), events, socketId, callSignal), now)
  {
    var l := Limiter(c, map[], map[]);
    var max, windowMs := MaxOf(c, callSignal), WindowMsOf(c, callSignal);
    if events == [] {
      NothingAdmitted(windowMs, Limit(max), now);
    } else {
      var before, last := events[..|events| - 1], events[|events| - 1];
      assert last in events;
      if last.Arrived? {
        RunStaysMetered(c, before, socketId, callSignal, last.now);
        var times := AllowedTimes(l, before, socketId, callSignal);
        ArrivalStaysMetered(Run(l, before), socketId, callSignal, times, last, last.now);
        assert times + [] == times;
        TimePasses(AllowedTimes(l, events, socketId, callSignal),
                   WindowOf(BucketsOf(Run(l, events), callSignal), socketId, max), windowMs, Limit(max), last.now, now);
      } else {
        RunStaysMetered(c, before, socketId, callSignal, now);
        NothingAdmitted(windowMs, Limit(max), now);
      }
    }
  }

  /**
   * Between two clears of a socket, over any interval of a window's length, each message class gets
   * less than twice its limit; a limit of zero or less lets nothing through.
   */
  lemma LessThanTwiceTheLimit(c: Config, events: seq<Event>, socketId: string, callSignal: bool, from: int)
    requires InTimeOrder(events)
    ensures CountIn(AllowedTimes(Limiter(c, map[], map[]), events, socketId, callSignal), from, WindowMsOf(c, callSignal))
            <= LeastBound(WindowMsOf(c, callSignal), Limit(MaxOf(c, callSignal)))
  {
    var windowMs := WindowMsOf(c, callSignal);
    if windowMs <= 0 {
      EmptyInterval(AllowedTimes(Limiter(c, map[], map[]), events, socketId, callSignal), from, windowMs);
    } else {
      var now := LastTime(events);
      RunStaysMetered(c, events, socketId, callSignal, now);
      if Limit(MaxOf(c, callSignal)) == 0 {
        assert Count([], from, from + windowMs) == 0;
      }
    }
  }

  lemma {:induction false} LastTime(events: seq<Event>) returns (now: int)
    ensures Until(events, now)
  {
    if events == [] {
      now := 0;
    } else {
      var before, last := events[..|events| - 1], events[|events| - 1];
      now := LastTime(before);
      if last.Arrived? && last.now > now {
        now := last.now;
      }
      assert events == before + [last];
    }
  }

  // ---- a run that reaches the bound ----

  /** A message of the class. */
  function Sample(callSignal: bool): string {
    if callSignal then "call.offer" else ""
  }

  function Message(socketId: string, callSignal: bool, now: int): Event {
    Arrived(socketId, Sample(callSignal), now)
  }

  lemma RunOneMore(l: Limiter, before: seq<Event>, socketId: string, callSignal: bool, now: int)
    ensures var (after, allowed) := After(Run(l, before), socketId, Sample(callSignal), now);
            var events := before + [Message(socketId, callSignal, now)];
            && Run(l, events) == after
            && AllowedTimes(l, events, socketId, callSignal)
               == AllowedTimes(l, before, socketId, callSignal) + (if allowed then [now] else [])
  {
    assert (before + [Message(socketId, callSignal, now)])[..|before|] == before;
  }

  /** The socket's bucket for the class was refilled at `start` and has given `used` tokens. */
  ghost predicate Running(m: Limiter, c: Config, socketId: string, callSignal: bool, used: nat, start: int) {
    && m.config == c
    && socketId in BucketsOf(m, callSignal)
    && BucketsOf(m, callSignal)[socketId] == Bucket(MaxOf(c, callSignal) - used, start)
  }

  lemma {:induction false} WindowFills(l: Limiter, before: seq<Event>, socketId: string, callSignal: bool, now: int,
                                       used: nat, start: int, count: nat)
    requires Running(Run(l, before), l.config, socketId, callSignal, used, start)
    requires now < start + WindowMsOf(l.config, callSignal) && used + count <= MaxOf(l.config, callSignal)
    ensures var events := before + Repeated(Message(socketId, callSignal, now), count);
            && Running(Run(l, events), l.config, socketId, callSignal, used + count, start)
            && AllowedTimes(l, events, socketId, callSignal)
               == AllowedTimes(l, before, socketId, callSignal) + Repeated(now, count)
  {
    hide Run;
    hide AllowedTimes;
    if count == 0 {
      assert before + [] == before;
    } else {
      WindowFills(l, before, socketId, callSignal, now, used, start, count - 1);
      var m := Message(socketId, callSignal, now);
      var most := before + Repeated(m, count - 1);
      assert before + Repeated(m, count) == most + [m];
      RunOneMore(l, most, socketId, callSignal, now);
    }
  }

  /** A socket opens a window at `opens` and uses it up at `fills`. */
  function Burst(before: seq<Event>, socketId: string, callSignal: bool, opens: int, fills: int, limit: nat): seq<Event>
    requires limit > 0
  {
    before + [Message(socketId, callSignal, opens)] + Repeated(Message(socketId, callSignal, fills), limit - 1)
  }

  /** The socket has no bucket for the class, or one whose window has run out. */
  ghost predicate RunOut(m: Limiter, c: Config, socketId: string, callSignal: bool, now: int) {
    && m.config == c
    && (socketId in BucketsOf(m, callSignal) ==>
          now - BucketsOf(m, callSignal)[socketId].lastRefill >= WindowMsOf(c, callSignal))
  }

  lemma WindowOpens(m: Limiter, c: Config, socketId: string, callSignal: bool, now: int)
    requires RunOut(m, c, socketId, callSignal, now) && MaxOf(c, callSignal) > 0
    ensures var (after, allowed) := After(m, socketId, Sample(callSignal), now);
            allowed && Running(after, c, socketId, callSignal, 1, now)
  {
  }

  lemma BurstIsAllowed(l: Limiter, before: seq<Event>, socketId: string, callSignal: bool, opens: int, fills: int)
    requires opens <= fills < opens + WindowMsOf(l.config, callSignal) && MaxOf(l.config, callSignal) > 0
    requires RunOut(Run(l, before), l.config, socketId, callSignal, opens)
    ensures var limit := MaxOf(l.config, callSignal);
            var events := Burst(before, socketId, callSignal, opens, fills, limit);
            && Running(Run(l, events), l.config, socketId, callSignal, limit, opens)
            && AllowedTimes(l, events, socketId, callSignal)
               == AllowedTimes(l, before, socketId, callSignal) + Block(opens, fills, limit)
  {
    hide Run;
    hide AllowedTimes;
    hide Repeated;
    hide After;
    hide Running;
    hide RunOut;
    var limit := MaxOf(l.config, callSignal);
    var first := before + [Message(socketId, callSignal, opens)];
    WindowOpens(Run(l, before), l.config, socketId, callSignal, opens);
    RunOneMore(l, before, socketId, callSignal, opens);
    WindowFills(l, first, socketId, callSignal, fills, 1, opens, limit - 1);
    assert AllowedTimes(l, before, socketId, callSignal) + Block(opens, fills, limit)
        == AllowedTimes(l, before, socketId, callSignal) + [opens] + Repeated(fills, limit - 1);
  }

  lemma {:induction false} RepeatedInOrder(before: seq<Event>, e: Event, count: nat)
    requires InTimeOrder(before) && e.Arrived? && Until(before, e.now)
    ensures InTimeOrder(before + Repeated(e, count)) && Until(before + Repeated(e, count), e.now)
  {
    if count == 0 {
      assert before + [] == before;
    } else {
      RepeatedInOrder(before, e, count - 1);
      assert before + Repeated(e, count) == (before + Repeated(e, count - 1)) + [e];
    }
  }

  lemma BurstInOrder(before: seq<Event>, socketId: string, callSignal: bool, opens: int, fills: int, limit: nat)
    requires limit > 0 && opens <= fills && InTimeOrder(before) && Until(before, opens)
    ensures var events := Burst(before, socketId, callSignal, opens, fills, limit);
            InTimeOrder(events) && Until(events, fills)
  {
    RepeatedInOrder(before + [Message(socketId, callSignal, opens)], Message(socketId, callSignal, fills), limit - 1);
  }

  lemma BoundIsReached(c: Config, socketId: string, callSignal: bool) returns (events: seq<Event>)
    requires WindowMsOf(c, callSignal) > 0 && MaxOf(c, callSignal) > 0
    ensures InTimeOrder(events)
    ensures var windowMs := WindowMsOf(c, callSignal);
            CountIn(AllowedTimes(Limiter(c, map[], map[]), events, socketId, callSignal), windowMs - 1, windowMs)
            == LeastBound(windowMs, MaxOf(c, callSignal))
  {
    hide Burst;
    var l := Limiter(c, map[], map[]);
    var w, limit := WindowMsOf(c, callSignal), MaxOf(c, callSignal);
    var first := Burst([], socketId, callSignal, 0, w - 1, limit);
    BurstIsAllowed(l, [], socketId, callSignal, 0, w - 1);
    BurstInOrder([], socketId, callSignal, 0, w - 1, limit);
    events := Burst(first, socketId, callSignal, w, w, limit);
    BurstIsAllowed(l, first, socketId, callSignal, w, w);
    BurstInOrder(first, socketId, callSignal, w, w, limit);
    TwoBlocksReachBound(w, limit);
  }

  /** Every run, every socket and every interval stay within `bound` for the class. */
  ghost predicate AlwaysWithin(c: Config, callSignal: bool, bound: int) {
    forall events: seq<Event>, socketId: string, from: int :: InTimeOrder(events) ==>
      CountIn(AllowedTimes(Limiter(c, map[], map[]), events, socketId, callSignal), from, WindowMsOf(c, callSignal))
      <= bound
  }

  /** The bound is the least there is. */
  lemma LeastBoundIsExact(c: Config, callSignal: bool, bound: int)
    ensures AlwaysWithin(c, callSignal, bound)
            <==> bound >= LeastBound(WindowMsOf(c, callSignal), Limit(MaxOf(c, callSignal)))
  {
    var w := WindowMsOf(c, callSignal);
    if bound >= LeastBound(w, Limit(MaxOf(c, callSignal))) {
      forall events: seq<Event>, socketId: string, from: int | InTimeOrder(events)
        ensures CountIn(AllowedTimes(Limiter(c, map[], map[]), events, socketId, callSignal), from, w) <= bound
      {
        LessThanTwiceTheLimit(c, events, socketId, callSignal, from);
      }
    } else if w > 0 && MaxOf(c, callSignal) > 0 {
      var events := BoundIsReached(c, "", callSignal);
      assert CountIn(AllowedTimes(Limiter(c, map[], map[]), events, "", callSignal), w - 1, w) > bound;
    } else {
      assert CountIn(AllowedTimes(Limiter(c, map[], map[]), [], "", callSignal), 0, w) == 0;
      assert InTimeOrder([]);
    }
  }
}
