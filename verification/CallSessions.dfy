/**
 * The call-session store (createCallSessionStore in apps/api/src/services/call-routing-state.ts):
 * a local cache over Redis, plus an index from a device to its calls, all with expiry. The functions
 * give what each operation does to the store as a value; the class is the store as it runs, and its
 * methods are proved against them. What the store means for its callers is shown in CallIndex.
 */
module CallSessions {
  import opened Wrappers

  type CallId = string
  type DeviceId = string

  datatype CallType = Audio | Video

  /** What a pending offer holds besides its call type stays opaque. */
  datatype Offer = Offer(callType: CallType, body: string)

  datatype CallSession = CallSession(
    callerUserId: string,
    callerDeviceId: DeviceId,
    calleeUserId: string,
    calleeDeviceId: Option<DeviceId>,
    calleeDeviceIds: seq<DeviceId>,
    callerSupportsRenegotiation: bool,
    calleeSupportsRenegotiation: bool,
    offer: Option<Offer>)

  datatype Cached<T> = Cached(value: T, expiresAt: int)

  datatype RedisKey = SessionKey(callId: CallId) | DeviceKey(deviceId: DeviceId)

  datatype RedisValue = SessionText(session: CallSession) | IndexText(callIds: seq<CallId>) | Unreadable

  type Redis = map<RedisKey, Cached<RedisValue>>

  /** The value of the store: its two maps, and the part of Redis it writes. */
  datatype Store = Store(
    ttlMs: nat,
    cache: map<CallId, Cached<CallSession>>,
    deviceIndexCache: map<DeviceId, Cached<seq<CallId>>>,
    redis: Redis)

  // ---- lists ----

  function Unique<T(==)>(s: seq<T>): seq<T> {
    if s == [] then []
    else
      var rest, last := s[..|s| - 1], s[|s| - 1];
      if last in rest then Unique(rest) else Unique(rest) + [last]
  }

  function Without<T(==)>(s: seq<T>, x: T): seq<T> {
    if s == [] then []
    else Without(s[..|s| - 1], x) + (if s[|s| - 1] == x then [] else [s[|s| - 1]])
  }

  ghost predicate NoDuplicates<T>(s: seq<T>) {
    forall i, j :: 0 <= i < j < |s| ==> s[i] != s[j]
  }

  /** A string counts as present in a condition only when it is not empty. */
  predicate Truthy(id: Option<DeviceId>) {
    id.Some? && id.value != ""
  }

  function Participants(s: CallSession): seq<DeviceId> {
    Unique([s.callerDeviceId] + (if Truthy(s.calleeDeviceId) then [s.calleeDeviceId.value] else s.calleeDeviceIds))
  }

  function ParticipantsOf(s: Option<CallSession>): seq<DeviceId> {
    if s.Some? then Participants(s.value) else []
  }

  // ---- reads, which tidy up as they go ----

  function Get<K, V>(m: map<K, Cached<V>>, k: K, now: int): Option<Cached<V>> {
    if k in m && m[k].expiresAt > now then Some(m[k]) else None
  }

  function LoadSession(s: Store, c: CallId, now: int): (r: (Store, Option<CallSession>))
    ensures r.0.ttlMs == s.ttlMs
  {
    if Get(s.cache, c, now).Some? then (s, Some(s.cache[c].value))
    else
      var s1 := s.(cache := s.cache - {c});
      match Get(s.redis, SessionKey(c), now)
      case None => (s1, None)
      case Some(entry) =>
        if entry.value.SessionText?
        then (s1.(cache := s1.cache[c := Cached(entry.value.session, now + s.ttlMs)]), Some(entry.value.session))
        else (s1.(redis := s.redis - {SessionKey(c)}), None)
  }

  function WithLocalIndex(s: Store, d: DeviceId, ids: seq<CallId>, now: int): Store {
    if ids == [] then s.(deviceIndexCache := s.deviceIndexCache - {d})
    else s.(deviceIndexCache := s.deviceIndexCache[d := Cached(ids, now + s.ttlMs)])
  }

  function ReadIndex(s: Store, d: DeviceId, now: int): (r: (Store, seq<CallId>))
    ensures r.0.ttlMs == s.ttlMs
  {
    if Get(s.deviceIndexCache, d, now).Some? then (s, s.deviceIndexCache[d].value)
    else
      var s1 := s.(deviceIndexCache := s.deviceIndexCache - {d});
      match Get(s.redis, DeviceKey(d), now)
      case None => (s1, [])
      case Some(entry) =>
        if entry.value.IndexText?
        then (WithLocalIndex(s1, d, Unique(entry.value.callIds), now), Unique(entry.value.callIds))
        else (s1.(redis := s.redis - {DeviceKey(d)}), [])
  }

  function WriteIndex(s: Store, d: DeviceId, callIds: seq<CallId>, now: int): (t: Store)
    ensures t.ttlMs == s.ttlMs
  {
    var ids := Unique(callIds);
    WithLocalIndex(s, d, ids, now)
      .(redis := if ids == [] then s.redis - {DeviceKey(d)}
                 else s.redis[DeviceKey(d) := Cached(IndexText(ids), now + s.ttlMs)])
  }

  function UpdateIndex(s: Store, c: CallId, d: DeviceId, listed: bool, now: int): Store {
    var (s1, ids) := ReadIndex(s, d, now);
    WriteIndex(s1, d, Without(ids, c) + (if listed then [c] else []), now)
  }

  function UpdateIndexes(s: Store, c: CallId, devices: seq<DeviceId>, next: seq<DeviceId>, now: int): (t: Store)
    ensures t.ttlMs == s.ttlMs
  {
    if devices == [] then s
    else
      var d := devices[|devices| - 1];
      UpdateIndex(UpdateIndexes(s, c, devices[..|devices| - 1], next, now), c, d, d in next, now)
  }

  /** `updateDeviceIndexes`: every device of the session that was there and of the one to come. */
  function Reindex(s: Store, c: CallId, previous: Option<CallSession>, next: Option<CallSession>, now: int)
    : (t: Store)
    ensures t.ttlMs == s.ttlMs
  {
    UpdateIndexes(s, c, Unique(ParticipantsOf(previous) + ParticipantsOf(next)), ParticipantsOf(next), now)
  }

  function WithSession(s: Store, c: CallId, session: CallSession, now: int): Store {
    var (s1, previous) := LoadSession(s, c, now);
    var s2 := Reindex(s1, c, previous, Some(session), now);
    s2.(cache := s2.cache[c := Cached(session, now + s.ttlMs)],
        redis := s2.redis[SessionKey(c) := Cached(SessionText(session), now + s.ttlMs)])
  }

  function WithoutSession(s: Store, c: CallId, now: int): Store {
    var (s1, previous) := LoadSession(s, c, now);
    var s2 := Reindex(s1, c, previous, None, now);
    s2.(cache := s2.cache - {c}, redis := s2.redis - {SessionKey(c)})
  }

  function KeepCurrent(s: Store, d: DeviceId, ids: seq<CallId>, now: int): (r: (Store, seq<CallId>))
    ensures r.0.ttlMs == s.ttlMs
  {
    if ids == [] then (s, [])
    else
      var c := ids[|ids| - 1];
      var (s1, kept) := KeepCurrent(s, d, ids[..|ids| - 1], now);
      var (s2, session) := LoadSession(s1, c, now);
      (s2, if d in ParticipantsOf(session) then kept + [c] else kept)
  }

  function CallsOfDevice(s: Store, d: DeviceId, now: int): (Store, seq<CallId>) {
    var (s1, ids) := ReadIndex(s, d, now);
    var (s2, kept) := KeepCurrent(s1, d, ids, now);
    (if |kept| < |ids| then WriteIndex(s2, d, kept, now) else s2, kept)
  }

  // ---- the code ----

  class CallSessionStore {
    const ttlMs: nat
    var cache: map<CallId, Cached<CallSession>>
    var deviceIndexCache: map<DeviceId, Cached<seq<CallId>>>
    var redis: Redis

    constructor (ttlSeconds: nat)
      ensures View() == Store(ttlSeconds * 1000, map[], map[], map[])
    {
      ttlMs := ttlSeconds * 1000;
      cache, deviceIndexCache, redis := map[], map[], map[];
    }

    function View(): Store
      reads this
    {
      Store(ttlMs, cache, deviceIndexCache, redis)
    }

    method GetLocal(c: CallId, now: int) returns (r: Option<CallSession>)
      modifies this`cache
      ensures r.Some? <==> Get(old(cache), c, now).Some?
      ensures r.Some? ==> cache == old(cache) && r.value == cache[c].value
      ensures r.None? ==> cache == old(cache) - {c}
    {
      if c !in cache {
        return None;
      }
      if cache[c].expiresAt <= now {
        cache := cache - {c};
        return None;
      }
      r := Some(cache[c].value);
    }

    method GetLocalDeviceIndex(d: DeviceId, now: int) returns (r: Option<seq<CallId>>)
      modifies this`deviceIndexCache
      ensures r.Some? <==> Get(old(deviceIndexCache), d, now).Some?
      ensures r.Some? ==> deviceIndexCache == old(deviceIndexCache) && r.value == deviceIndexCache[d].value
      ensures r.None? ==> deviceIndexCache == old(deviceIndexCache) - {d}
    {
      if d !in deviceIndexCache {
        return None;
      }
      if deviceIndexCache[d].expiresAt <= now {
        deviceIndexCache := deviceIndexCache - {d};
        return None;
      }
      r := Some(deviceIndexCache[d].value);
    }

    method SetLocalDeviceIndex(d: DeviceId, callIds: seq<CallId>, now: int)
      modifies this`deviceIndexCache
      ensures View() == WithLocalIndex(old(View()), d, callIds, now)
    {
      if callIds == [] {
        deviceIndexCache := deviceIndexCache - {d};
        return;
      }
      deviceIndexCache := deviceIndexCache[d := Cached(callIds, now + ttlMs)];
    }

    method ReadDeviceIndex(d: DeviceId, now: int) returns (callIds: seq<CallId>)
      modifies this
      ensures (View(), callIds) == ReadIndex(old(View()), d, now)
    {
      var local := GetLocalDeviceIndex(d, now);
      if local.Some? {
        return local.value;
      }
      var raw := Get(redis, DeviceKey(d), now);
      if raw.None? {
        return [];
      }
      if !raw.value.value.IndexText? {
        redis := redis - {DeviceKey(d)};
        return [];
      }
      callIds := Unique(raw.value.value.callIds);
      SetLocalDeviceIndex(d, callIds, now);
    }

    method WriteDeviceIndex(d: DeviceId, callIds: seq<CallId>, now: int)
      modifies this
      ensures View() == WriteIndex(old(View()), d, callIds, now)
    {
      var uniqueCallIds := Unique(callIds);
      SetLocalDeviceIndex(d, uniqueCallIds, now);
      if uniqueCallIds == [] {
        redis := redis - {DeviceKey(d)};
        return;
      }
      redis := redis[DeviceKey(d) := Cached(IndexText(uniqueCallIds), now + ttlMs)];
    }

    method UpdateDeviceIndexes(c: CallId, previous: Option<CallSession>, next: Option<CallSession>, now: int)
      modifies this
      ensures View() == Reindex(old(View()), c, previous, next, now)
    {
      hide ReadIndex;
      hide WriteIndex;
      hide Without;
      hide Unique;
      hide Participants;
      var nextDeviceIds := ParticipantsOf(next);
      var all := Unique(ParticipantsOf(previous) + nextDeviceIds);
      var i := 0;
      while i < |all|
        invariant i <= |all|
        invariant View() == UpdateIndexes(old(View()), c, all[..i], nextDeviceIds, now)
      {
        var existing := ReadDeviceIndex(all[i], now);
        var nextCallIds := Without(existing, c);
        if all[i] in nextDeviceIds {
          nextCallIds := nextCallIds + [c];
        }
        WriteDeviceIndex(all[i], nextCallIds, now);
        assert all[..i + 1][..i] == all[..i];
        assert Without(existing, c) + [] == Without(existing, c);
        i := i + 1;
      }
      assert all[..|all|] == all;
    }

    method GetSession(c: CallId, now: int) returns (r: Option<CallSession>)
      modifies this
      ensures (View(), r) == LoadSession(old(View()), c, now)
    {
      r := GetLocal(c, now);
      if r.Some? {
        return;
      }
      var raw := Get(redis, SessionKey(c), now);
      if raw.None? {
        return;
      }
      if !raw.value.value.SessionText? {
        redis := redis - {SessionKey(c)};
        return;
      }
      cache := cache[c := Cached(raw.value.value.session, now + ttlMs)];
      r := Some(raw.value.value.session);
    }

    method Set(c: CallId, session: CallSession, now: int)
      modifies this
      ensures View() == WithSession(old(View()), c, session, now)
    {
      var previous := GetSession(c, now);
      UpdateDeviceIndexes(c, previous, Some(session), now);
      cache := cache[c := Cached(session, now + ttlMs)];
      redis := redis[SessionKey(c) := Cached(SessionText(session), now + ttlMs)];
    }

    method Delete(c: CallId, now: int)
      modifies this
      ensures View() == WithoutSession(old(View()), c, now)
    {
      var previous := GetSession(c, now);
      UpdateDeviceIndexes(c, previous, None, now);
      cache := cache - {c};
      redis := redis - {SessionKey(c)};
    }

    method ListByDevice(d: DeviceId, now: int) returns (validCallIds: seq<CallId>)
      modifies this
      ensures (View(), validCallIds) == CallsOfDevice(old(View()), d, now)
    {
      hide ReadIndex;
      hide WriteIndex;
      hide LoadSession;
      hide Unique;
      hide Participants;
      var indexed := ReadDeviceIndex(d, now);
      validCallIds := [];
      if indexed == [] {
        return;
      }
      ghost var start := View();
      var mutated, i := false, 0;
      while i < |indexed|
        invariant i <= |indexed|
        invariant (View(), validCallIds) == KeepCurrent(start, d, indexed[..i], now)
        invariant |validCallIds| <= i && (mutated <==> |validCallIds| < i)
      {
        var session := GetSession(indexed[i], now);
        if session.None? || d !in Participants(session.value) {
          mutated := true;
        } else {
          validCallIds := validCallIds + [indexed[i]];
        }
        assert indexed[..i + 1][..i] == indexed[..i];
        i := i + 1;
      }
      assert indexed[..|indexed|] == indexed;
      if mutated {
        WriteDeviceIndex(d, validCallIds, now);
      }
    }
  }
}
