/**
 * The call-session store against its simplest reading: one map from calls to sessions with an
 * expiry time, and "the live calls this device takes part in" asked of that map directly.
 */
module CallIndex {
  import opened Wrappers
  import opened CallSessions

  // ---- what the local maps and Redis hold, expiry taken into account ----

  function SessionLocal(s: Store, c: CallId, now: int): Option<Cached<CallSession>> {
    Get(s.cache, c, now)
  }

  function SessionRemote(s: Store, c: CallId, now: int): Option<Cached<CallSession>> {
    var raw := Get(s.redis, SessionKey(c), now);
    if raw.Some? && raw.value.value.SessionText? then Some(Cached(raw.value.value.session, raw.value.expiresAt)) else None
  }

  function IndexLocal(s: Store, d: DeviceId, now: int): Option<Cached<seq<CallId>>> {
    Get(s.deviceIndexCache, d, now)
  }

  function IndexRemote(s: Store, d: DeviceId, now: int): Option<Cached<seq<CallId>>> {
    var raw := Get(s.redis, DeviceKey(d), now);
    if raw.Some? && raw.value.value.IndexText? then Some(Cached(raw.value.value.callIds, raw.value.expiresAt)) else None
  }

  function Ids(index: Option<Cached<seq<CallId>>>): seq<CallId> {
    if index.Some? then index.value.value else []
  }

  ghost predicate SessionSynced(s: Store, c: CallId, now: int) {
    SessionLocal(s, c, now) == SessionRemote(s, c, now)
  }

  ghost predicate IndexSynced(s: Store, d: DeviceId, now: int) {
    IndexLocal(s, d, now) == IndexRemote(s, d, now) && NoDuplicates(Ids(IndexLocal(s, d, now)))
  }

  /** The device's index names the call and outlives `until`. */
  ghost predicate Listed(s: Store, c: CallId, d: DeviceId, now: int, until: int) {
    var index := IndexLocal(s, d, now);
    index.Some? && c in index.value.value && index.value.expiresAt >= until
  }

  /** A live call is in the index of every device that takes part in it. */
  ghost predicate Indexed(s: Store, c: CallId, now: int) {
    var session := SessionLocal(s, c, now);
    session.Some? ==>
      && session.value.expiresAt <= now + s.ttlMs
      && forall d :: d in Participants(session.value.value) ==> Listed(s, c, d, now, session.value.expiresAt)
  }

  /** The local maps and Redis agree, and no live call is missing from an index. */
  ghost predicate Sound(s: Store, now: int) {
    && s.ttlMs > 0
    && (forall c: CallId :: SessionSynced(s, c, now))
    && (forall d: DeviceId :: IndexSynced(s, d, now))
    && (forall c: CallId :: Indexed(s, c, now))
  }

  ghost predicate SameSessions(s: Store, t: Store, now: int) {
    && t.ttlMs == s.ttlMs
    && (forall c: CallId :: SessionLocal(t, c, now) == SessionLocal(s, c, now))
    && (forall c: CallId :: SessionRemote(t, c, now) == SessionRemote(s, c, now))
  }

  ghost predicate SameIndex(s: Store, t: Store, d: DeviceId, now: int) {
    IndexLocal(t, d, now) == IndexLocal(s, d, now) && IndexRemote(t, d, now) == IndexRemote(s, d, now)
  }

  /** Nothing a read could see has changed. */
  ghost predicate Same(s: Store, t: Store, now: int) {
    SameSessions(s, t, now) && forall d: DeviceId :: SameIndex(s, t, d, now)
  }

  lemma SameKeepsSound(s: Store, t: Store, now: int)
    requires Same(s, t, now) && Sound(s, now)
    ensures Sound(t, now)
  {
    forall c: CallId
      ensures SessionSynced(t, c, now) && Indexed(t, c, now)
    {
      assert SessionSynced(s, c, now) && Indexed(s, c, now);
      forall d: DeviceId | SessionLocal(s, c, now).Some? && d in Participants(SessionLocal(s, c, now).value.value)
        ensures Listed(t, c, d, now, SessionLocal(s, c, now).value.expiresAt)
      {
        assert SameIndex(s, t, d, now);
      }
    }
    forall d: DeviceId
      ensures IndexSynced(t, d, now)
    {
      assert SameIndex(s, t, d, now) && IndexSynced(s, d, now);
    }
  }

  lemma TimeKeepsSound(s: Store, now: int, later: int)
    requires Sound(s, now) && now <= later
    ensures Sound(s, later)
  {
    forall c: CallId
      ensures SessionSynced(s, c, later) && Indexed(s, c, later)
    {
      assert SessionSynced(s, c, now) && Indexed(s, c, now);
    }
    forall d: DeviceId
      ensures IndexSynced(s, d, later)
    {
      assert IndexSynced(s, d, now);
    }
  }

  // ---- lists ----

  lemma {:induction false} UniqueMeaning<T>(s: seq<T>)
    ensures NoDuplicates(Unique(s)) && forall x :: x in Unique(s) <==> x in s
  {
    if s != [] {
      var rest, last := s[..|s| - 1], s[|s| - 1];
      UniqueMeaning(rest);
      assert s == rest + [last];
    }
  }

  lemma {:induction false} UniqueIsIdentity<T>(s: seq<T>)
    requires NoDuplicates(s)
    ensures Unique(s) == s
  {
    if s != [] {
      UniqueIsIdentity(s[..|s| - 1]);
    }
  }

  lemma AppendDistinct<T>(s: seq<T>, x: T)
    requires NoDuplicates(s) && x !in s
    ensures NoDuplicates(s + [x])
  {
  }

  lemma {:induction false} WithoutMembers<T>(s: seq<T>, x: T)
    ensures forall y :: y in Without(s, x) <==> y in s && y != x
  {
    if s != [] {
      WithoutMembers(s[..|s| - 1], x);
      assert s == s[..|s| - 1] + [s[|s| - 1]];
    }
  }

  lemma {:induction false} WithoutMeaning<T>(s: seq<T>, x: T)
    requires NoDuplicates(s)
    ensures NoDuplicates(Without(s, x)) && forall y :: y in Without(s, x) <==> y in s && y != x
  {
    WithoutMembers(s, x);
    if s != [] && s[|s| - 1] != x {
      WithoutMembers(s[..|s| - 1], x);
      WithoutMeaning(s[..|s| - 1], x);
      AppendDistinct(Without(s[..|s| - 1], x), s[|s| - 1]);
    } else if s != [] {
      WithoutMeaning(s[..|s| - 1], x);
      assert Without(s, x) == Without(s[..|s| - 1], x);
    }
  }

  // ---- reads change nothing anyone could see ----

  lemma LoadSessionReadsLocal(s: Store, c: CallId, now: int)
    requires SessionSynced(s, c, now)
    ensures Same(s, LoadSession(s, c, now).0, now)
    ensures LoadSession(s, c, now).1
            == if SessionLocal(s, c, now).Some? then Some(SessionLocal(s, c, now).value.value) else None
  {
  }

  lemma ReadIndexReadsLocal(s: Store, d: DeviceId, now: int)
    requires IndexSynced(s, d, now)
    ensures Same(s, ReadIndex(s, d, now).0, now)
    ensures ReadIndex(s, d, now).1 == Ids(IndexLocal(s, d, now))
  {
  }

  // ---- writing an index ----

  lemma WriteIndexMeaning(s: Store, d: DeviceId, callIds: seq<CallId>, now: int)
    requires s.ttlMs > 0 && NoDuplicates(callIds)
    ensures var t := WriteIndex(s, d, callIds, now);
            && SameSessions(s, t, now)
            && (forall e: DeviceId :: e != d ==> SameIndex(s, t, e, now))
            && IndexSynced(t, d, now)
            && IndexLocal(t, d, now) == if callIds == [] then None else Some(Cached(callIds, now + s.ttlMs))
  {
    UniqueIsIdentity(callIds);
  }

  /** In `t` the device's index has gained or lost `c`, kept every other call, and lives a full TTL. */
  ghost predicate Updated(s: Store, t: Store, c: CallId, d: DeviceId, listed: bool, now: int) {
    && IndexSynced(t, d, now)
    && (forall b :: b in Ids(IndexLocal(t, d, now)) <==>
          if b == c then listed else b in Ids(IndexLocal(s, d, now)))
    && (IndexLocal(t, d, now).Some? ==> IndexLocal(t, d, now).value.expiresAt == now + s.ttlMs)
  }

  lemma UpdateIndexMeaning(s: Store, c: CallId, d: DeviceId, listed: bool, now: int)
    requires s.ttlMs > 0 && IndexSynced(s, d, now)
    ensures var t := UpdateIndex(s, c, d, listed, now);
            && SameSessions(s, t, now)
            && (forall e: DeviceId :: e != d ==> SameIndex(s, t, e, now))
            && Updated(s, t, c, d, listed, now)
  {
    ReadIndexReadsLocal(s, d, now);
    var (s1, ids) := ReadIndex(s, d, now);
    WithoutMeaning(ids, c);
    var next := Without(ids, c) + (if listed then [c] else []);
    if listed {
      AppendDistinct(Without(ids, c), c);
    } else {
      assert next == Without(ids, c);
    }
    WriteIndexMeaning(s1, d, next, now);
    var t := UpdateIndex(s, c, d, listed, now);
    assert t == WriteIndex(s1, d, next, now);
    forall e: DeviceId | e != d
      ensures SameIndex(s, t, e, now)
    {
      assert SameIndex(s, s1, e, now) && SameIndex(s1, t, e, now);
    }
  }

  /** What a reindexing over `devices` leaves: those updated, the others as they were. */
  ghost predicate Reindexed(s: Store, t: Store, c: CallId, devices: seq<DeviceId>, next: seq<DeviceId>, now: int) {
    && SameSessions(s, t, now)
    && (forall d: DeviceId :: IndexSynced(t, d, now))
    && (forall d: DeviceId :: if d in devices then Updated(s, t, c, d, d in next, now) else SameIndex(s, t, d, now))
  }

  lemma {:induction false} UpdateIndexesMeaning(s: Store, c: CallId, devices: seq<DeviceId>, next: seq<DeviceId>, now: int)
    requires s.ttlMs > 0 && forall d: DeviceId :: IndexSynced(s, d, now)
    requires NoDuplicates(devices)
    ensures Reindexed(s, UpdateIndexes(s, c, devices, next, now), c, devices, next, now)
  {
    if devices != [] {
      var before, last := devices[..|devices| - 1], devices[|devices| - 1];
      UpdateIndexesMeaning(s, c, before, next, now);
      var m := UpdateIndexes(s, c, before, next, now);
      UpdateIndexMeaning(m, c, last, last in next, now);
      UpdateOneMore(s, m, UpdateIndexes(s, c, devices, next, now), c, before, last, next, now);
      assert devices == before + [last];
    }
  }

  lemma UpdateOneMore(s: Store, m: Store, t: Store, c: CallId, before: seq<DeviceId>, last: DeviceId,
                      next: seq<DeviceId>, now: int)
    requires Reindexed(s, m, c, before, next, now) && last !in before
    requires SameSessions(m, t, now)
    requires forall d: DeviceId :: d != last ==> SameIndex(m, t, d, now)
    requires Updated(m, t, c, last, last in next, now)
    ensures Reindexed(s, t, c, before + [last], next, now)
  {
    forall d: DeviceId
      ensures IndexSynced(t, d, now)
      ensures if d in before + [last] then Updated(s, t, c, d, d in next, now) else SameIndex(s, t, d, now)
    {
      assert IndexSynced(m, d, now);
      if d == last {
        assert SameIndex(s, m, d, now);
      } else {
        assert SameIndex(m, t, d, now);
      }
    }
  }

  lemma ReindexMeaning(s: Store, c: CallId, next: Option<CallSession>, now: int)
    requires Sound(s, now)
    ensures var previous := LoadSession(s, c, now).1;
            Reindexed(s, Reindex(LoadSession(s, c, now).0, c, previous, next, now), c,
                      Unique(ParticipantsOf(previous) + ParticipantsOf(next)), ParticipantsOf(next), now)
  {
    assert SessionSynced(s, c, now);
    LoadSessionReadsLocal(s, c, now);
    var (s1, previous) := LoadSession(s, c, now);
    SameKeepsSound(s, s1, now);
    var devices := Unique(ParticipantsOf(previous) + ParticipantsOf(next));
    UniqueMeaning(ParticipantsOf(previous) + ParticipantsOf(next));
    UpdateIndexesMeaning(s1, c, devices, ParticipantsOf(next), now);
    var t := UpdateIndexes(s1, c, devices, ParticipantsOf(next), now);
    forall d: DeviceId
      ensures if d in devices then Updated(s, t, c, d, d in ParticipantsOf(next), now) else SameIndex(s, t, d, now)
    {
      assert SameIndex(s, s1, d, now);
    }
  }

  /** Whatever call other than `c` was listed for a device still is, at least as long. */
  lemma OthersStayListed(s: Store, t: Store, c: CallId, devices: seq<DeviceId>, next: seq<DeviceId>, now: int, b: CallId)
    requires Reindexed(s, t, c, devices, next, now) && Indexed(s, b, now) && b != c
    ensures Indexed(t, b, now)
  {
    var session := SessionLocal(s, b, now);
    if session.Some? {
      forall d | d in Participants(session.value.value)
        ensures Listed(t, b, d, now, session.value.expiresAt)
      {
        assert Listed(s, b, d, now, session.value.expiresAt) && b in Ids(IndexLocal(s, d, now));
        assert d in devices ==> b in Ids(IndexLocal(t, d, now));
        assert if d in devices then Updated(s, t, c, d, d in next, now) else SameIndex(s, t, d, now);
      }
    }
  }

  // ---- the four operations, against the simple map ----

  type Simple = map<CallId, Cached<CallSession>>

  ghost predicate Agrees(s: Store, simple: Simple, now: int) {
    forall c: CallId :: SessionLocal(s, c, now) == Get(simple, c, now)
  }

  /** `t` is `m` with `entry` as the session of `c`, in both copies. */
  ghost predicate Stored(m: Store, t: Store, c: CallId, entry: Option<Cached<CallSession>>, now: int) {
    && t.ttlMs == m.ttlMs
    && (forall d: DeviceId :: SameIndex(m, t, d, now))
    && SessionLocal(t, c, now) == SessionRemote(t, c, now) == entry
    && (forall b: CallId :: b != c ==> SessionLocal(t, b, now) == SessionLocal(m, b, now)
                                       && SessionRemote(t, b, now) == SessionRemote(m, b, now))
  }

  lemma StoredStaysSound(s: Store, m: Store, t: Store, c: CallId, devices: seq<DeviceId>, next: Option<CallSession>,
                         now: int)
    requires Sound(s, now) && Reindexed(s, m, c, devices, ParticipantsOf(next), now)
    requires forall d :: d in ParticipantsOf(next) ==> d in devices
    requires Stored(m, t, c, if next.Some? then Some(Cached(next.value, now + s.ttlMs)) else None, now)
    ensures Sound(t, now)
  {
    forall d: DeviceId
      ensures IndexSynced(t, d, now)
    {
      assert IndexSynced(m, d, now) && SameIndex(m, t, d, now);
    }
    forall b: CallId
      ensures SessionSynced(t, b, now) && Indexed(t, b, now)
    {
      assert SessionSynced(s, b, now);
      if b == c {
        NewSessionIsIndexed(s, m, t, c, devices, next, now);
      } else {
        OtherSessionsStayIndexed(s, m, t, c, devices, next, now, b);
      }
    }
  }

  lemma OtherSessionsStayIndexed(s: Store, m: Store, t: Store, c: CallId, devices: seq<DeviceId>,
                                 next: Option<CallSession>, now: int, b: CallId)
    requires Indexed(s, b, now) && Reindexed(s, m, c, devices, ParticipantsOf(next), now) && b != c
    requires Stored(m, t, c, if next.Some? then Some(Cached(next.value, now + s.ttlMs)) else None, now)
    ensures Indexed(t, b, now)
  {
    OthersStayListed(s, m, c, devices, ParticipantsOf(next), now, b);
    assert SessionLocal(t, b, now) == SessionLocal(m, b, now);
    forall d: DeviceId | SessionLocal(m, b, now).Some? && d in Participants(SessionLocal(m, b, now).value.value)
      ensures Listed(t, b, d, now, SessionLocal(m, b, now).value.expiresAt)
    {
      assert SameIndex(m, t, d, now);
    }
  }

  lemma NewSessionIsIndexed(s: Store, m: Store, t: Store, c: CallId, devices: seq<DeviceId>,
                            next: Option<CallSession>, now: int)
    requires Reindexed(s, m, c, devices, ParticipantsOf(next), now)
    requires forall d :: d in ParticipantsOf(next) ==> d in devices
    requires Stored(m, t, c, if next.Some? then Some(Cached(next.value, now + s.ttlMs)) else None, now)
    ensures Indexed(t, c, now)
  {
    forall d | d in ParticipantsOf(next)
      ensures Listed(t, c, d, now, now + s.ttlMs)
    {
      assert Updated(s, m, c, d, true, now) && SameIndex(m, t, d, now);
      assert c in Ids(IndexLocal(m, d, now));
    }
  }

  function PutSession(m: Store, c: CallId, session: CallSession, now: int): Store {
    m.(cache := m.cache[c := Cached(session, now + m.ttlMs)],
       redis := m.redis[SessionKey(c) := Cached(SessionText(session), now + m.ttlMs)])
  }

  lemma PutIsStored(m: Store, c: CallId, session: CallSession, now: int)
    requires m.ttlMs > 0
    ensures Stored(m, PutSession(m, c, session, now), c, Some(Cached(session, now + m.ttlMs)), now)
  {
  }

  function DropSession(m: Store, c: CallId): Store {
    m.(cache := m.cache - {c}, redis := m.redis - {SessionKey(c)})
  }

  lemma DropIsStored(m: Store, c: CallId, now: int)
    ensures Stored(m, DropSession(m, c), c, None, now)
  {
  }

  lemma StoredAgrees(s: Store, m: Store, t: Store, c: CallId, entry: Option<Cached<CallSession>>, now: int,
                     simple: Simple, simple': Simple)
    requires Agrees(s, simple, now) && SameSessions(s, m, now) && Stored(m, t, c, entry, now)
    requires Get(simple', c, now) == entry
    requires forall b: CallId :: b != c ==> Get(simple', b, now) == Get(simple, b, now)
    ensures Agrees(t, simple', now)
  {
    forall b: CallId
      ensures SessionLocal(t, b, now) == Get(simple', b, now)
    {
      if b != c {
        assert SessionLocal(t, b, now) == SessionLocal(m, b, now) == SessionLocal(s, b, now) == Get(simple, b, now);
      }
    }
  }

  lemma WithSessionIsPut(s: Store, c: CallId, session: CallSession, now: int)
    ensures var (s1, previous) := LoadSession(s, c, now);
            WithSession(s, c, session, now) == PutSession(Reindex(s1, c, previous, Some(session), now), c, session, now)
  {
    hide LoadSession;
    hide Reindex;
    hide Participants;
  }

  lemma WithSessionMeaning(s: Store, c: CallId, session: CallSession, now: int, simple: Simple)
    requires Sound(s, now) && Agrees(s, simple, now)
    ensures Sound(WithSession(s, c, session, now), now)
    ensures Agrees(WithSession(s, c, session, now), simple[c := Cached(session, now + s.ttlMs)], now)
  {
    hide Agrees;
    hide Stored;
    hide Reindex;
    hide WithSession;
    hide LoadSession;
    hide PutSession;
    hide Participants;
    WithSessionIsPut(s, c, session, now);
    ReindexMeaning(s, c, Some(session), now);
    var (s1, previous) := LoadSession(s, c, now);
    var m := Reindex(s1, c, previous, Some(session), now);
    var t := PutSession(m, c, session, now);
    UniqueMeaning(ParticipantsOf(previous) + Participants(session));
    PutIsStored(m, c, session, now);
    StoredStaysSound(s, m, t, c, Unique(ParticipantsOf(previous) + Participants(session)), Some(session), now);
    var entry := Cached(session, now + s.ttlMs);
    StoredAgrees(s, m, t, c, Some(entry), now, simple, simple[c := entry]);
  }

  lemma WithoutSessionMeaning(s: Store, c: CallId, now: int, simple: Simple)
    requires Sound(s, now) && Agrees(s, simple, now)
    ensures Sound(WithoutSession(s, c, now), now)
    ensures Agrees(WithoutSession(s, c, now), simple - {c}, now)
  {
    ReindexMeaning(s, c, None, now);
    var (s1, previous) := LoadSession(s, c, now);
    var m := Reindex(s1, c, previous, None, now);
    var t := DropSession(m, c);
    DropIsStored(m, c, now);
    StoredStaysSound(s, m, t, c, Unique(ParticipantsOf(previous) + ParticipantsOf(None)), None, now);
    StoredAgrees(s, m, t, c, None, now, simple, simple - {c});
    assert WithoutSession(s, c, now) == t;
  }

  lemma LoadSessionMeaning(s: Store, c: CallId, now: int, simple: Simple)
    requires Sound(s, now) && Agrees(s, simple, now)
    ensures var (t, r) := LoadSession(s, c, now);
            && Sound(t, now) && Agrees(t, simple, now)
            && r == if c in simple && simple[c].expiresAt > now then Some(simple[c].value) else None
  {
    assert SessionSynced(s, c, now);
    LoadSessionReadsLocal(s, c, now);
    SameKeepsSound(s, LoadSession(s, c, now).0, now);
  }

  /** Who takes part: the caller's device, and the callee's, or every device offered while none is selected. */
  predicate IsParty(session: CallSession, d: DeviceId) {
    session.callerDeviceId == d
    || if session.calleeDeviceId.Some? && session.calleeDeviceId.value != "" then session.calleeDeviceId.value == d
       else d in session.calleeDeviceIds
  }

  /** The call is live and the device takes part in it. */
  predicate TakesPart(simple: Simple, c: CallId, d: DeviceId, now: int) {
    c in simple && simple[c].expiresAt > now && IsParty(simple[c].value, d)
  }

  lemma ParticipantsAreParties(session: CallSession)
    ensures forall d :: d in Participants(session) <==> IsParty(session, d)
  {
    UniqueMeaning([session.callerDeviceId]
                  + (if Truthy(session.calleeDeviceId) then [session.calleeDeviceId.value] else session.calleeDeviceIds));
  }

  lemma {:induction false} KeepCurrentMeaning(s: Store, d: DeviceId, ids: seq<CallId>, now: int, simple: Simple)
    requires Sound(s, now) && Agrees(s, simple, now) && NoDuplicates(ids)
    ensures var (t, kept) := KeepCurrent(s, d, ids, now);
            && Same(s, t, now)
            && NoDuplicates(kept) && |kept| <= |ids| && (|kept| == |ids| ==> kept == ids)
            && forall c :: c in kept <==> c in ids && TakesPart(simple, c, d, now)
  {
    if ids != [] {
      var before, last := ids[..|ids| - 1], ids[|ids| - 1];
      KeepCurrentMeaning(s, d, before, now, simple);
      var (s1, kept) := KeepCurrent(s, d, before, now);
      SameKeepsSound(s, s1, now);
      assert SessionSynced(s1, last, now);
      LoadSessionReadsLocal(s1, last, now);
      SameTwice(s, s1, LoadSession(s1, last, now).0, now);
      if Get(simple, last, now).Some? {
        ParticipantsAreParties(simple[last].value);
      }
      assert ids == before + [last];
      assert SessionLocal(s1, last, now) == SessionLocal(s, last, now) == Get(simple, last, now);
      AppendDistinct(kept, last);
    }
  }

  lemma SameTwice(s: Store, t: Store, u: Store, now: int)
    requires Same(s, t, now) && Same(t, u, now)
    ensures Same(s, u, now)
  {
    forall d: DeviceId
      ensures SameIndex(s, u, d, now)
    {
      assert SameIndex(s, t, d, now) && SameIndex(t, u, d, now);
    }
  }

  /** Rewriting a device's index with the live calls it takes part in loses nothing. */
  lemma TidiedIndexStaysSound(s: Store, d: DeviceId, kept: seq<CallId>, now: int, simple: Simple)
    requires Sound(s, now) && Agrees(s, simple, now) && NoDuplicates(kept)
    requires forall c :: TakesPart(simple, c, d, now) ==> c in kept
    ensures Sound(WriteIndex(s, d, kept, now), now) && Agrees(WriteIndex(s, d, kept, now), simple, now)
  {
    var t := WriteIndex(s, d, kept, now);
    WriteIndexMeaning(s, d, kept, now);
    forall e: DeviceId
      ensures IndexSynced(t, e, now)
    {
      assert IndexSynced(s, e, now);
      assert e != d ==> SameIndex(s, t, e, now);
    }
    forall c: CallId
      ensures SessionSynced(t, c, now) && Indexed(t, c, now)
    {
      assert SessionSynced(s, c, now) && Indexed(s, c, now);
      var session := SessionLocal(s, c, now);
      if session.Some? {
        forall e | e in Participants(session.value.value)
          ensures Listed(t, c, e, now, session.value.expiresAt)
        {
          assert Listed(s, c, e, now, session.value.expiresAt);
          if e == d {
            ParticipantsAreParties(session.value.value);
            assert TakesPart(simple, c, d, now);
          } else {
            assert SameIndex(s, t, e, now);
          }
        }
      }
    }
  }

  lemma CallsOfDeviceMeaning(s: Store, d: DeviceId, now: int, simple: Simple)
    requires Sound(s, now) && Agrees(s, simple, now)
    ensures var (t, listed) := CallsOfDevice(s, d, now);
            && Sound(t, now) && Agrees(t, simple, now)
            && NoDuplicates(listed)
            && forall c :: c in listed <==> TakesPart(simple, c, d, now)
  {
    assert IndexSynced(s, d, now);
    ReadIndexReadsLocal(s, d, now);
    var (s1, ids) := ReadIndex(s, d, now);
    SameKeepsSound(s, s1, now);
    KeepCurrentMeaning(s1, d, ids, now, simple);
    var (s2, kept) := KeepCurrent(s1, d, ids, now);
    SameKeepsSound(s1, s2, now);
    forall c: CallId | TakesPart(simple, c, d, now)
      ensures c in kept
    {
      ParticipantsAreParties(simple[c].value);
      assert Indexed(s, c, now) && Listed(s, c, d, now, SessionLocal(s, c, now).value.expiresAt);
    }
    if |kept| < |ids| {
      TidiedIndexStaysSound(s2, d, kept, now, simple);
    }
  }

  // ---- whole runs ----

  datatype Op =
    | SetOp(callId: CallId, session: CallSession)
    | GetOp(callId: CallId)
    | ListOp(deviceId: DeviceId)
    | DeleteOp(callId: CallId)

  datatype Timed = Timed(now: int, op: Op)

  datatype Answer = Nothing | Session(session: Option<CallSession>) | Calls(callIds: seq<CallId>)

  function Apply(s: Store, t: Timed): (r: (Store, Answer))
    ensures r.0.ttlMs == s.ttlMs
  {
    match t.op
    case SetOp(c, session) => (WithSession(s, c, session, t.now), Nothing)
    case GetOp(c) => var (u, r) := LoadSession(s, c, t.now); (u, Session(r))
    case ListOp(d) => var (u, r) := CallsOfDevice(s, d, t.now); (u, Calls(r))
    case DeleteOp(c) => (WithoutSession(s, c, t.now), Nothing)
  }

  function ApplySimple(simple: Simple, t: Timed, ttlMs: nat): Simple {
    match t.op
    case SetOp(c, session) => simple[c := Cached(session, t.now + ttlMs)]
    case GetOp(_) => simple
    case ListOp(_) => simple
    case DeleteOp(c) => simple - {c}
  }

  /** The answer a reader of the simple map would give. */
  ghost predicate RightAnswer(simple: Simple, t: Timed, a: Answer) {
    match t.op
    case GetOp(c) => a == Session(if c in simple && simple[c].expiresAt > t.now then Some(simple[c].value) else None)
    case ListOp(d) =>
      a.Calls? && NoDuplicates(a.callIds) && forall c :: c in a.callIds <==> TakesPart(simple, c, d, t.now)
    case _ => a == Nothing
  }

  function Run(ttlMs: nat, ops: seq<Timed>): Store {
    if ops == [] then Store(ttlMs, map[], map[], map[])
    else Apply(Run(ttlMs, ops[..|ops| - 1]), ops[|ops| - 1]).0
  }

  function RunSimple(ttlMs: nat, ops: seq<Timed>): Simple {
    if ops == [] then map[]
    else ApplySimple(RunSimple(ttlMs, ops[..|ops| - 1]), ops[|ops| - 1], ttlMs)
  }

  ghost predicate ClockNeverGoesBack(ops: seq<Timed>) {
    forall i :: 0 < i < |ops| ==> ops[i - 1].now <= ops[i].now
  }

  lemma ApplyMeaning(s: Store, t: Timed, simple: Simple)
    requires Sound(s, t.now) && Agrees(s, simple, t.now)
    ensures Sound(Apply(s, t).0, t.now)
    ensures Agrees(Apply(s, t).0, ApplySimple(simple, t, s.ttlMs), t.now)
    ensures RightAnswer(simple, t, Apply(s, t).1)
  {
    match t.op
    case SetOp(c, session) => WithSessionMeaning(s, c, session, t.now, simple);
    case GetOp(c) => LoadSessionMeaning(s, c, t.now, simple);
    case ListOp(d) => CallsOfDeviceMeaning(s, d, t.now, simple);
    case DeleteOp(c) => WithoutSessionMeaning(s, c, t.now, simple);
  }

  lemma TimeKeepsAgreement(s: Store, simple: Simple, now: int, later: int)
    requires Agrees(s, simple, now) && now <= later
    ensures Agrees(s, simple, later)
  {
    forall c: CallId
      ensures SessionLocal(s, c, later) == Get(simple, c, later)
    {
      assert SessionLocal(s, c, now) == Get(simple, c, now);
    }
  }

  /**
   * After any run, whatever happens next is answered as the simple map would answer it, the local
   * maps and Redis agree, and every live call is listed for each device taking part in it.
   */
  lemma {:induction false} StoreIsTheSimpleMap(ttlMs: nat, ops: seq<Timed>, now: int)
    requires ttlMs > 0 && ClockNeverGoesBack(ops) && (ops == [] || ops[|ops| - 1].now <= now)
    ensures var s := Run(ttlMs, ops);
            && s.ttlMs == ttlMs && Sound(s, now) && Agrees(s, RunSimple(ttlMs, ops), now)
            && forall op :: RightAnswer(RunSimple(ttlMs, ops), Timed(now, op), Apply(s, Timed(now, op)).1)
  {
    var s, simple := Run(ttlMs, ops), RunSimple(ttlMs, ops);
    if ops != [] {
      var before, last := ops[..|ops| - 1], ops[|ops| - 1];
      StoreIsTheSimpleMap(ttlMs, before, last.now);
      ApplyMeaning(Run(ttlMs, before), last, RunSimple(ttlMs, before));
      TimeKeepsSound(s, last.now, now);
      TimeKeepsAgreement(s, simple, last.now, now);
    }
    forall op
      ensures RightAnswer(simple, Timed(now, op), Apply(s, Timed(now, op)).1)
    {
      ApplyMeaning(s, Timed(now, op), simple);
    }
  }
}
