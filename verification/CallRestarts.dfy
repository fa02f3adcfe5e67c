/**
 * The call-session store across restarts of its process: the two local maps are lost, Redis stays. A
 * read then falls through to Redis and caches what it finds for a full TTL, so the local copies may
 * outlive the ones in Redis. Without a restart this fall-through is never taken, which is why the runs
 * here are kept apart from those of CallIndex.
 */
module CallRestarts {
  import opened Wrappers
  import opened CallSessions
  import opened CallIndex

  // ---- what a read falls through to ----

  /** A live local copy is taken; else a readable one in Redis, cached for a full TTL; an unreadable one is deleted. */
  lemma ReadsFallThrough(s: Store, c: CallId, now: int)
    ensures var (t, r) := LoadSession(s, c, now);
            var key := SessionKey(c);
            if c in s.cache && s.cache[c].expiresAt > now then
              t == s && r == Some(s.cache[c].value)
            else if key !in s.redis || s.redis[key].expiresAt <= now then
              t == s.(cache := s.cache - {c}) && r == None
            else if s.redis[key].value.SessionText? then
              var session := s.redis[key].value.session;
              t == s.(cache := s.cache[c := Cached(session, now + s.ttlMs)]) && r == Some(session)
            else
              t == s.(cache := s.cache - {c}, redis := s.redis - {key}) && r == None
  {
  }

  /** The same for the index of a device, whose ids are then listed once each. */
  lemma IndexReadsFallThrough(s: Store, d: DeviceId, now: int)
    ensures var (t, ids) := ReadIndex(s, d, now);
            var key := DeviceKey(d);
            if d in s.deviceIndexCache && s.deviceIndexCache[d].expiresAt > now then
              t == s && ids == s.deviceIndexCache[d].value
            else if key !in s.redis || s.redis[key].expiresAt <= now then
              t == s.(deviceIndexCache := s.deviceIndexCache - {d}) && ids == []
            else if s.redis[key].value.IndexText? then
              && NoDuplicates(ids) && (forall c :: c in ids <==> c in s.redis[key].value.callIds)
              && t == s.(deviceIndexCache := if ids == [] then s.deviceIndexCache - {d}
                                             else s.deviceIndexCache[d := Cached(ids, now + s.ttlMs)])
            else
              t == s.(deviceIndexCache := s.deviceIndexCache - {d}, redis := s.redis - {key}) && ids == []
  {
    if DeviceKey(d) in s.redis && s.redis[DeviceKey(d)].value.IndexText? {
      UniqueMeaning(s.redis[DeviceKey(d)].value.callIds);
    }
  }

  // ---- what survives ----

  /** The call was set and not deleted since, and its TTL since then has not run out. */
  predicate IsLive(simple: Simple, c: CallId, now: int) {
    c in simple && simple[c].expiresAt > now
  }

  /** Redis holds exactly the live sessions; a local copy, even a prolonged one, is of the last session set. */
  ghost predicate SessionKept(s: Store, simple: Simple, c: CallId, now: int) {
    && SessionRemote(s, c, now) == (if IsLive(simple, c, now) then Some(simple[c]) else None)
    && (SessionLocal(s, c, now).Some? ==> c in simple && SessionLocal(s, c, now).value.value == simple[c].value)
  }

  ghost predicate SessionsKept(s: Store, simple: Simple, now: int) {
    s.ttlMs > 0 && forall c: CallId :: SessionKept(s, simple, c, now)
  }

  /** The index in Redis names the call until then, and a local one, while there is one, names it too. */
  ghost predicate ListedThrough(s: Store, c: CallId, d: DeviceId, now: int, until: int) {
    var remote := IndexRemote(s, d, now);
    && remote.Some? && c in remote.value.value && remote.value.expiresAt >= until
    && (IndexLocal(s, d, now).Some? ==> c in Ids(IndexLocal(s, d, now)))
  }

  ghost predicate Tidy(s: Store, d: DeviceId, now: int) {
    NoDuplicates(Ids(IndexLocal(s, d, now))) && NoDuplicates(Ids(IndexRemote(s, d, now)))
  }

  ghost predicate Covered(s: Store, simple: Simple, c: CallId, now: int) {
    IsLive(simple, c, now) ==>
      && simple[c].expiresAt <= now + s.ttlMs
      && forall d :: IsParty(simple[c].value, d) ==> ListedThrough(s, c, d, now, simple[c].expiresAt)
  }

  ghost predicate IndexesCover(s: Store, simple: Simple, now: int) {
    && (forall d: DeviceId :: Tidy(s, d, now))
    && (forall c: CallId :: Covered(s, simple, c, now))
  }

  ghost predicate Survives(s: Store, simple: Simple, now: int) {
    SessionsKept(s, simple, now) && IndexesCover(s, simple, now)
  }

  ghost predicate SameIndexes(s: Store, t: Store, now: int) {
    t.ttlMs == s.ttlMs && forall d: DeviceId :: SameIndex(s, t, d, now)
  }

  lemma SameIndexesCover(s: Store, t: Store, simple: Simple, now: int)
    requires IndexesCover(s, simple, now) && SameIndexes(s, t, now)
    ensures IndexesCover(t, simple, now)
  {
    forall d: DeviceId
      ensures Tidy(t, d, now)
    {
      assert Tidy(s, d, now) && SameIndex(s, t, d, now);
    }
    forall c: CallId
      ensures Covered(t, simple, c, now)
    {
      assert Covered(s, simple, c, now);
      forall d | IsLive(simple, c, now) && IsParty(simple[c].value, d)
        ensures ListedThrough(t, c, d, now, simple[c].expiresAt)
      {
        assert SameIndex(s, t, d, now) && ListedThrough(s, c, d, now, simple[c].expiresAt);
      }
    }
  }

  lemma SameSessionsKept(s: Store, t: Store, simple: Simple, now: int)
    requires SessionsKept(s, simple, now) && SameSessions(s, t, now)
    ensures SessionsKept(t, simple, now)
  {
    forall c: CallId
      ensures SessionKept(t, simple, c, now)
    {
      assert SessionKept(s, simple, c, now);
    }
  }

  // ---- reads ----

  lemma LoadKeepsSessions(s: Store, c: CallId, now: int, simple: Simple)
    requires SessionsKept(s, simple, now)
    ensures var (t, r) := LoadSession(s, c, now);
            && SessionsKept(t, simple, now) && SameIndexes(s, t, now)
            && (r.Some? ==> c in simple && r.value == simple[c].value)
            && (IsLive(simple, c, now) ==> r == Some(simple[c].value))
  {
    var (t, r) := LoadSession(s, c, now);
    assert SessionKept(s, simple, c, now);
    forall b: CallId
      ensures SessionKept(t, simple, b, now)
    {
      assert SessionKept(s, simple, b, now);
    }
  }

  /** Reading an index may cache it, and changes nothing else anyone could see. */
  lemma ReadIndexKeepsRest(s: Store, d: DeviceId, now: int)
    requires s.ttlMs > 0
    ensures var (t, ids) := ReadIndex(s, d, now);
            && SameSessions(s, t, now) && IndexRemote(t, d, now) == IndexRemote(s, d, now)
            && (IndexLocal(t, d, now).Some? ==> Ids(IndexLocal(t, d, now)) == ids)
            && (ids == if IndexLocal(s, d, now).Some? then Ids(IndexLocal(s, d, now))
                       else Unique(Ids(IndexRemote(s, d, now))))
            && forall e: DeviceId :: e != d ==> SameIndex(s, t, e, now)
  {
  }

  lemma ReadIndexKeepsCover(s: Store, d: DeviceId, now: int, simple: Simple)
    requires s.ttlMs > 0 && IndexesCover(s, simple, now)
    ensures var (t, ids) := ReadIndex(s, d, now);
            && SameSessions(s, t, now) && IndexesCover(t, simple, now) && NoDuplicates(ids)
            && (forall c :: IsLive(simple, c, now) && IsParty(simple[c].value, d) ==> c in ids)
            && forall e: DeviceId :: e != d ==> SameIndex(s, t, e, now)
  {
    hide ReadIndex;
    hide Unique;
    ReadIndexKeepsRest(s, d, now);
    var (t, ids) := ReadIndex(s, d, now);
    assert Tidy(s, d, now);
    UniqueMeaning(Ids(IndexRemote(s, d, now)));
    forall c | IsLive(simple, c, now) && IsParty(simple[c].value, d)
      ensures c in ids
    {
      assert Covered(s, simple, c, now) && ListedThrough(s, c, d, now, simple[c].expiresAt);
    }
    forall e: DeviceId
      ensures Tidy(t, e, now)
    {
      assert Tidy(s, e, now);
      assert e != d ==> SameIndex(s, t, e, now);
    }
    forall c: CallId
      ensures Covered(t, simple, c, now)
    {
      assert Covered(s, simple, c, now);
      forall e | IsLive(simple, c, now) && IsParty(simple[c].value, e)
        ensures ListedThrough(t, c, e, now, simple[c].expiresAt)
      {
        assert ListedThrough(s, c, e, now, simple[c].expiresAt);
        assert e != d ==> SameIndex(s, t, e, now);
      }
    }
  }

  // ---- writing an index ----

  lemma WriteIndexKeepsCover(s: Store, d: DeviceId, ids: seq<CallId>, now: int, simple: Simple)
    requires s.ttlMs > 0 && IndexesCover(s, simple, now) && NoDuplicates(ids)
    requires forall c :: IsLive(simple, c, now) && IsParty(simple[c].value, d) ==> c in ids
    ensures var t := WriteIndex(s, d, ids, now);
            && SameSessions(s, t, now) && IndexesCover(t, simple, now)
            && (forall c :: c in ids ==> ListedThrough(t, c, d, now, now + s.ttlMs))
            && forall e: DeviceId :: e != d ==> SameIndex(s, t, e, now)
  {
    hide WriteIndex;
    WriteIndexMeaning(s, d, ids, now);
    var t := WriteIndex(s, d, ids, now);
    forall e: DeviceId
      ensures Tidy(t, e, now)
    {
      assert Tidy(s, e, now) && IndexSynced(t, d, now);
      assert e != d ==> SameIndex(s, t, e, now);
    }
    forall c: CallId
      ensures Covered(t, simple, c, now)
    {
      assert Covered(s, simple, c, now);
      if IsLive(simple, c, now) {
        forall e | IsParty(simple[c].value, e)
          ensures ListedThrough(t, c, e, now, simple[c].expiresAt)
        {
          assert ListedThrough(s, c, e, now, simple[c].expiresAt);
          assert e != d ==> SameIndex(s, t, e, now);
        }
      }
    }
  }

  /** `c` comes or goes in one index; every call of `simple`, which does not have it, stays covered. */
  lemma UpdateIndexKeepsCover(s: Store, c: CallId, d: DeviceId, listed: bool, now: int, simple: Simple)
    requires s.ttlMs > 0 && IndexesCover(s, simple, now) && c !in simple
    ensures var t := UpdateIndex(s, c, d, listed, now);
            && SameSessions(s, t, now) && IndexesCover(t, simple, now)
            && (listed ==> ListedThrough(t, c, d, now, now + s.ttlMs))
            && forall e: DeviceId :: e != d ==> SameIndex(s, t, e, now)
  {
    hide WriteIndex;
    hide ReadIndex;
    ReadIndexKeepsCover(s, d, now, simple);
    var (s1, ids) := ReadIndex(s, d, now);
    WithoutMeaning(ids, c);
    var next := Without(ids, c) + (if listed then [c] else []);
    if listed {
      AppendDistinct(Without(ids, c), c);
    } else {
      assert next == Without(ids, c);
    }
    WriteIndexKeepsCover(s1, d, next, now, simple);
    var t := WriteIndex(s1, d, next, now);
    assert t == UpdateIndex(s, c, d, listed, now) && (listed ==> c in next);
    forall e: DeviceId | e != d
      ensures SameIndex(s, t, e, now)
    {
      assert SameIndex(s, s1, e, now) && SameIndex(s1, t, e, now);
    }
  }

  lemma {:induction false} UpdateIndexesKeepCover(s: Store, c: CallId, devices: seq<DeviceId>, next: seq<DeviceId>,
                                                  now: int, simple: Simple)
    requires s.ttlMs > 0 && IndexesCover(s, simple, now) && c !in simple && NoDuplicates(devices)
    ensures var t := UpdateIndexes(s, c, devices, next, now);
            && SameSessions(s, t, now) && IndexesCover(t, simple, now)
            && forall d :: d in devices && d in next ==> ListedThrough(t, c, d, now, now + s.ttlMs)
  {
    hide UpdateIndex;
    if devices != [] {
      var before, last := devices[..|devices| - 1], devices[|devices| - 1];
      UpdateIndexesKeepCover(s, c, before, next, now, simple);
      var m := UpdateIndexes(s, c, before, next, now);
      UpdateIndexKeepsCover(m, c, last, last in next, now, simple);
      var t := UpdateIndex(m, c, last, last in next, now);
      forall d | d in devices && d in next
        ensures ListedThrough(t, c, d, now, now + s.ttlMs)
      {
        if d != last {
          assert d in before && SameIndex(m, t, d, now);
        }
      }
    }
  }

  lemma FewerAreCovered(s: Store, simple: Simple, c: CallId, now: int)
    requires IndexesCover(s, simple, now)
    ensures IndexesCover(s, simple - {c}, now)
  {
    forall b: CallId
      ensures Covered(s, simple - {c}, b, now)
    {
      assert Covered(s, simple, b, now);
    }
  }

  /** The reindexing of a set or a delete, seen without the call it is about. */
  lemma ReindexKeepsCover(s: Store, c: CallId, next: Option<CallSession>, now: int, simple: Simple)
    requires Survives(s, simple, now)
    ensures var (s1, previous) := LoadSession(s, c, now);
            var m := Reindex(s1, c, previous, next, now);
            && SessionsKept(m, simple, now) && IndexesCover(m, simple - {c}, now) && m.ttlMs == s.ttlMs
            && forall d :: next.Some? && IsParty(next.value, d) ==> ListedThrough(m, c, d, now, now + s.ttlMs)
  {
    hide UpdateIndexes;
    LoadKeepsSessions(s, c, now, simple);
    var (s1, previous) := LoadSession(s, c, now);
    SameIndexesCover(s, s1, simple, now);
    FewerAreCovered(s1, simple, c, now);
    var devices := Unique(ParticipantsOf(previous) + ParticipantsOf(next));
    UniqueMeaning(ParticipantsOf(previous) + ParticipantsOf(next));
    UpdateIndexesKeepCover(s1, c, devices, ParticipantsOf(next), now, simple - {c});
    SameSessionsKept(s1, Reindex(s1, c, previous, next, now), simple, now);
    if next.Some? {
      ParticipantsAreParties(next.value);
    }
  }

  lemma SetSurvives(s: Store, c: CallId, session: CallSession, now: int, simple: Simple)
    requires Survives(s, simple, now)
    ensures Survives(WithSession(s, c, session, now), simple[c := Cached(session, now + s.ttlMs)], now)
  {
    hide Reindex;
    hide LoadSession;
    hide Participants;
    hide WithSession;
    var simple' := simple[c := Cached(session, now + s.ttlMs)];
    var (s1, previous) := LoadSession(s, c, now);
    var m := Reindex(s1, c, previous, Some(session), now);
    ReindexKeepsCover(s, c, Some(session), now, simple);
    WithSessionIsPut(s, c, session, now);
    var t := PutSession(m, c, session, now);
    forall b: CallId
      ensures SessionKept(t, simple', b, now)
    {
      assert SessionKept(m, simple, b, now);
    }
    assert forall d: DeviceId :: SameIndex(m, t, d, now);
    SameIndexesCover(m, t, simple - {c}, now);
    forall b: CallId
      ensures Covered(t, simple', b, now)
    {
      assert Covered(t, simple - {c}, b, now);
    }
  }

  lemma DeleteSurvives(s: Store, c: CallId, now: int, simple: Simple)
    requires Survives(s, simple, now)
    ensures Survives(WithoutSession(s, c, now), simple - {c}, now)
  {
    hide Reindex;
    hide LoadSession;
    hide Participants;
    var (s1, previous) := LoadSession(s, c, now);
    var m := Reindex(s1, c, previous, None, now);
    ReindexKeepsCover(s, c, None, now, simple);
    var t := DropSession(m, c);
    assert t == WithoutSession(s, c, now);
    forall b: CallId
      ensures SessionKept(t, simple - {c}, b, now)
    {
      assert SessionKept(m, simple, b, now);
    }
    assert forall d: DeviceId :: SameIndex(m, t, d, now);
    SameIndexesCover(m, t, simple - {c}, now);
  }

  // ---- listing ----

  lemma {:induction false} KeepCurrentSurvives(s: Store, d: DeviceId, ids: seq<CallId>, now: int, simple: Simple)
    requires SessionsKept(s, simple, now) && NoDuplicates(ids)
    ensures var (t, kept) := KeepCurrent(s, d, ids, now);
            && SessionsKept(t, simple, now) && SameIndexes(s, t, now) && NoDuplicates(kept)
            && (forall c :: c in kept ==> c in ids && c in simple && IsParty(simple[c].value, d))
            && forall c :: c in ids && IsLive(simple, c, now) && IsParty(simple[c].value, d) ==> c in kept
  {
    hide LoadSession;
    hide Participants;
    if ids != [] {
      var before, last := ids[..|ids| - 1], ids[|ids| - 1];
      KeepCurrentSurvives(s, d, before, now, simple);
      var (s1, kept) := KeepCurrent(s, d, before, now);
      LoadKeepsSessions(s1, last, now, simple);
      var (s2, session) := LoadSession(s1, last, now);
      if last in simple {
        ParticipantsAreParties(simple[last].value);
      }
      assert ids == before + [last] && last !in before;
      AppendDistinct(kept, last);
      forall e: DeviceId
        ensures SameIndex(s, s2, e, now)
      {
        assert SameIndex(s, s1, e, now) && SameIndex(s1, s2, e, now);
      }
    }
  }

  /** The calls named are of the device, none deleted or replaced; every live call of the device is among them. */
  ghost predicate ListsLive(simple: Simple, d: DeviceId, ids: seq<CallId>, now: int) {
    && NoDuplicates(ids)
    && (forall c :: c in ids ==> c in simple && IsParty(simple[c].value, d))
    && forall c :: TakesPart(simple, c, d, now) ==> c in ids
  }

  lemma ListSurvives(s: Store, d: DeviceId, now: int, simple: Simple)
    requires Survives(s, simple, now)
    ensures var (t, ids) := CallsOfDevice(s, d, now);
            Survives(t, simple, now) && ListsLive(simple, d, ids, now)
  {
    hide ReadIndex;
    hide KeepCurrent;
    hide WriteIndex;
    ReadIndexKeepsCover(s, d, now, simple);
    var (s1, ids) := ReadIndex(s, d, now);
    SameSessionsKept(s, s1, simple, now);
    KeepCurrentSurvives(s1, d, ids, now, simple);
    var (s2, kept) := KeepCurrent(s1, d, ids, now);
    SameIndexesCover(s1, s2, simple, now);
    if |kept| < |ids| {
      WriteIndexKeepsCover(s2, d, kept, now, simple);
      SameSessionsKept(s2, WriteIndex(s2, d, kept, now), simple, now);
    }
  }

  // ---- whole runs ----

  datatype Happening = Served(op: Op) | Restarted

  datatype Event = Event(now: int, what: Happening)

  function Restart(s: Store): Store {
    s.(cache := map[], deviceIndexCache := map[])
  }

  function After(s: Store, e: Event): Store {
    if e.what.Restarted? then Restart(s) else Apply(s, Timed(e.now, e.what.op)).0
  }

  function AfterSimple(simple: Simple, e: Event, ttlMs: nat): Simple {
    if e.what.Restarted? then simple else ApplySimple(simple, Timed(e.now, e.what.op), ttlMs)
  }

  function RunEvents(ttlMs: nat, events: seq<Event>): Store {
    if events == [] then Store(ttlMs, map[], map[], map[])
    else After(RunEvents(ttlMs, events[..|events| - 1]), events[|events| - 1])
  }

  /** The sessions set and not deleted, with the end of their TTL. */
  function RunSimpleEvents(ttlMs: nat, events: seq<Event>): Simple {
    if events == [] then map[]
    else AfterSimple(RunSimpleEvents(ttlMs, events[..|events| - 1]), events[|events| - 1], ttlMs)
  }

  ghost predicate InTimeOrder(events: seq<Event>) {
    forall i :: 0 < i < |events| ==> events[i - 1].now <= events[i].now
  }

  /** A live session is found, and what is found is the last session set. */
  ghost predicate GoodAnswer(simple: Simple, t: Timed, a: Answer) {
    match t.op
    case GetOp(c) =>
      && a.Session?
      && (IsLive(simple, c, t.now) ==> a.session == Some(simple[c].value))
      && (a.session.Some? ==> c in simple && a.session.value == simple[c].value)
    case ListOp(d) => a.Calls? && ListsLive(simple, d, a.callIds, t.now)
    case _ => a == Nothing
  }

  lemma ApplySurvives(s: Store, t: Timed, simple: Simple)
    requires Survives(s, simple, t.now)
    ensures Survives(Apply(s, t).0, ApplySimple(simple, t, s.ttlMs), t.now)
    ensures GoodAnswer(simple, t, Apply(s, t).1)
  {
    hide WithSession;
    hide WithoutSession;
    hide LoadSession;
    hide CallsOfDevice;
    match t.op
    case SetOp(c, session) => SetSurvives(s, c, session, t.now, simple);
    case GetOp(c) =>
      LoadKeepsSessions(s, c, t.now, simple);
      SameIndexesCover(s, LoadSession(s, c, t.now).0, simple, t.now);
    case ListOp(d) => ListSurvives(s, d, t.now, simple);
    case DeleteOp(c) => DeleteSurvives(s, c, t.now, simple);
  }

  lemma RestartSurvives(s: Store, simple: Simple, now: int)
    requires Survives(s, simple, now)
    ensures Survives(Restart(s), simple, now)
  {
    var t := Restart(s);
    forall c: CallId
      ensures SessionKept(t, simple, c, now) && Covered(t, simple, c, now)
    {
      assert SessionKept(s, simple, c, now) && Covered(s, simple, c, now);
    }
    forall d: DeviceId
      ensures Tidy(t, d, now)
    {
      assert Tidy(s, d, now);
    }
  }

  lemma TimeSurvives(s: Store, simple: Simple, now: int, later: int)
    requires Survives(s, simple, now) && now <= later
    ensures Survives(s, simple, later)
  {
    forall c: CallId
      ensures SessionKept(s, simple, c, later) && Covered(s, simple, c, later)
    {
      assert SessionKept(s, simple, c, now) && Covered(s, simple, c, now);
    }
    forall d: DeviceId
      ensures Tidy(s, d, later)
    {
      assert Tidy(s, d, now);
    }
  }

  /**
   * Over any run with restarts anywhere: until its TTL runs out a session that was set is found and is
   * listed for every device taking part in it, and nothing deleted or replaced is ever found or listed.
   */
  lemma {:induction false} RestartsLoseNothing(ttlMs: nat, events: seq<Event>, now: int)
    requires ttlMs > 0 && InTimeOrder(events) && (events == [] || events[|events| - 1].now <= now)
    ensures RunEvents(ttlMs, events).ttlMs == ttlMs
    ensures Survives(RunEvents(ttlMs, events), RunSimpleEvents(ttlMs, events), now)
    ensures forall op :: GoodAnswer(RunSimpleEvents(ttlMs, events), Timed(now, op),
                                    Apply(RunEvents(ttlMs, events), Timed(now, op)).1)
  {
    hide Survives;
    hide Apply;
    hide GoodAnswer;
    var s, simple := RunEvents(ttlMs, events), RunSimpleEvents(ttlMs, events);
    if events == [] {
      NothingSurvives(ttlMs, now);
    } else {
      var before, last := events[..|events| - 1], events[|events| - 1];
      RestartsLoseNothing(ttlMs, before, last.now);
      var m := RunEvents(ttlMs, before);
      if last.what.Restarted? {
        RestartSurvives(m, RunSimpleEvents(ttlMs, before), last.now);
      } else {
        ApplySurvives(m, Timed(last.now, last.what.op), RunSimpleEvents(ttlMs, before));
      }
      TimeSurvives(s, simple, last.now, now);
    }
    forall op
      ensures GoodAnswer(simple, Timed(now, op), Apply(s, Timed(now, op)).1)
    {
      ApplySurvives(s, Timed(now, op), simple);
    }
  }

  lemma NothingSurvives(ttlMs: nat, now: int)
    requires ttlMs > 0
    ensures Survives(Store(ttlMs, map[], map[], map[]), map[], now)
  {
  }

  lemma NothingWithout(c: CallId)
    ensures Without([], c) == []
  {
  }

  lemma FirstInIndex(ttlMs: nat, d: DeviceId, now: int)
    ensures UpdateIndex(Store(ttlMs, map[], map[], map[]), "c", d, true, now).redis
            == map[DeviceKey(d) := Cached(IndexText(["c"]), now + ttlMs)]
  {
    hide Unique;
    hide Without;
    UniqueIsIdentity(["c"]);
    NothingWithout("c");
    assert [] + ["c"] == ["c"];
  }

  lemma FirstIsIndexed(ttlMs: nat, session: CallSession, now: int)
    requires session.calleeDeviceIds == [] && session.calleeDeviceId.None?
    ensures var s := Store(ttlMs, map[], map[], map[]);
            Reindex(s, "c", None, Some(session), now) == UpdateIndex(s, "c", session.callerDeviceId, true, now)
  {
    hide UpdateIndex;
    hide Without;
    var d, s := session.callerDeviceId, Store(ttlMs, map[], map[], map[]);
    UniqueIsIdentity([d]);
    assert [d] + [] == [d] && [] + [d] == [d] && [d][..0] == [];
    assert Participants(session) == [d];
    assert UpdateIndexes(s, "c", [], [d], now) == s;
    assert UpdateIndexes(s, "c", [d], [d], now) == UpdateIndex(s, "c", d, true, now);
  }

  /** The first session stored: Redis holds it and the caller device's index, for one TTL. */
  lemma SetInEmptyStore(session: CallSession)
    requires session.calleeDeviceIds == [] && session.calleeDeviceId.None?
    ensures var s := WithSession(Store(1000, map[], map[], map[]), "c", session, 0);
            && s.redis == map[SessionKey("c") := Cached(SessionText(session), 1000),
                              DeviceKey(session.callerDeviceId) := Cached(IndexText(["c"]), 1000)]
            && s.ttlMs == 1000
  {
    hide Reindex;
    hide UpdateIndex;
    hide Participants;
    var empty := Store(1000, map[], map[], map[]);
    assert empty.cache - {"c"} == map[];
    assert LoadSession(empty, "c", 0) == (empty, None);
    FirstIsIndexed(1000, session, 0);
    FirstInIndex(1000, session.callerDeviceId, 0);
  }

  /**
   * Not more than that: a session read after a restart is cached for a full TTL from then on, and is
   * still found when its TTL has run out, while the devices' lists have forgotten it. With a TTL of one
   * second: set at 0, restart, read at 500, and then at 1200 it is found and not listed.
   */
  lemma ReadAfterRestartProlongs(session: CallSession)
    requires session.calleeDeviceIds == [] && session.calleeDeviceId.None?
    ensures var s := RunEvents(1000, [Event(0, Served(SetOp("c", session))), Event(400, Restarted),
                                      Event(500, Served(GetOp("c")))]);
            && LoadSession(s, "c", 1200).1 == Some(session)
            && CallsOfDevice(s, session.callerDeviceId, 1200).1 == []
  {
    var d := session.callerDeviceId;
    var empty := Store(1000, map[], map[], map[]);
    var first, second, third :=
      Event(0, Served(SetOp("c", session))), Event(400, Restarted), Event(500, Served(GetOp("c")));
    assert [first, second, third][..2] == [first, second] && [first, second][..1] == [first] && [first][..0] == [];
    assert RunEvents(1000, []) == empty;
    assert RunEvents(1000, [first]) == WithSession(empty, "c", session, 0);
    SetInEmptyStore(session);
  }
}
