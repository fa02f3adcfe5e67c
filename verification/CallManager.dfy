/**
 * The lifecycle operations as the service runs them (createDirectCallLifecycleManager in
 * apps/api/src/services/call-routing-state.ts): on the database rows and on a live CallSessionStore.
 * `sessions` is the simple map the store stands for; `Valid` says that it does, at the time given.
 * Each operation is proved against its function in CallLifecycle, rows and sessions together.
 */
module CallManager {
  import opened Wrappers
  import opened CallSessions
  import opened CallIndex
  import opened CallLifecycle

  class DirectCallLifecycleManager {
    const store: CallSessionStore
    const loadUserDeviceIds: UserDevices
    var rows: map<CallId, Row>
    ghost var sessions: Simple

    constructor (store: CallSessionStore, loadUserDeviceIds: UserDevices, rows: map<CallId, Row>, now: int)
      requires store.View() == Store(store.ttlMs, map[], map[], map[]) && store.ttlMs > 0
      ensures this.store == store && this.loadUserDeviceIds == loadUserDeviceIds
      ensures View() == World(rows, map[]) && Valid(now)
    {
      this.store, this.loadUserDeviceIds, this.rows, this.sessions := store, loadUserDeviceIds, rows, map[];
      new;
      StoreIsTheSimpleMap(store.ttlMs, [], now);
    }

    ghost predicate Valid(now: int)
      reads this, store
    {
      Sound(store.View(), now) && Agrees(store.View(), sessions, now)
    }

    ghost function View(): World
      reads this
    {
      World(rows, sessions)
    }

    function Outside(now: int): Outside
    {
      CallLifecycle.Outside.Outside(now, store.ttlMs, loadUserDeviceIds)
    }

    // ---- the store, with its meaning ----

    method GetSession(c: CallId, now: int) returns (s: Option<CallSession>)
      requires Valid(now)
      modifies store
      ensures Valid(now) && s == LiveSession(View(), c, now)
    {
      LoadSessionMeaning(store.View(), c, now, sessions);
      s := store.GetSession(c, now);
    }

    method SetSession(c: CallId, session: CallSession, now: int)
      requires Valid(now)
      modifies this`sessions, store
      ensures Valid(now) && sessions == old(sessions)[c := Cached(session, now + store.ttlMs)]
    {
      WithSessionMeaning(store.View(), c, session, now, sessions);
      store.Set(c, session, now);
      sessions := sessions[c := Cached(session, now + store.ttlMs)];
    }

    method ClearDerivedTransportState(c: CallId, now: int)
      requires Valid(now)
      modifies this`sessions, store
      ensures Valid(now) && View() == Cleared(old(View()), c)
    {
      WithoutSessionMeaning(store.View(), c, now, sessions);
      store.Delete(c, now);
      sessions := sessions - {c};
    }

    /** Exactly the live calls the device takes part in, each once. */
    method ListByDevice(d: DeviceId, now: int) returns (callIds: seq<CallId>)
      requires Valid(now)
      modifies store
      ensures Valid(now) && NoDuplicates(callIds)
      ensures forall c :: c in callIds <==> TakesPart(sessions, c, d, now)
    {
      CallsOfDeviceMeaning(store.View(), d, now, sessions);
      callIds := store.ListByDevice(d, now);
    }

    method LoadCompatibleSession(c: CallId, row: Row, now: int) returns (s: Option<CallSession>)
      requires Valid(now)
      modifies this`sessions, store
      ensures Valid(now) && View() == Looked(old(View()), c, row, now)
      ensures s == CompatibleSession(old(View()), c, row, now)
    {
      s := GetSession(c, now);
      if s.Some? && !Compatible(row, s.value) {
        ClearDerivedTransportState(c, now);
        s := None;
      }
    }

    /** The end of a row-locked transition: write the status if it changed. */
    method PersistAuthorityStatus(c: CallId, mutation: Option<Status>, now: int)
      modifies this`rows
      ensures View() == Moved(old(View()), c, mutation, now)
      ensures c !in old(rows) || mutation.None? || old(rows)[c].status == mutation.value ==> rows == old(rows)
      ensures c in old(rows) && mutation.Some? && old(rows)[c].status != mutation.value ==>
                var row := old(rows)[c];
                rows == old(rows)[c := row.(status := mutation.value,
                                            answeredAt := if mutation.value.Active? && row.answeredAt.None? then Some(now)
                                                          else row.answeredAt,
                                            endedAt := if !mutation.value.Ringing? && !mutation.value.Active?
                                                          && row.endedAt.None? then Some(now) else row.endedAt)]
    {
      if c in rows && mutation.Some? && rows[c].status != mutation.value {
        var row := rows[c];
        row := row.(status := mutation.value);
        if mutation.value.Active? && row.answeredAt.None? {
          row := row.(answeredAt := Some(now));
        }
        if Terminal(mutation.value) && row.endedAt.None? {
          row := row.(endedAt := Some(now));
        }
        rows := rows[c := row];
      }
    }

    // ---- the operations ----

    method LoadAuthoritativeSession(c: CallId, allowed: set<Status>, now: int) returns (r: Result<CallSession, Reason>)
      requires Valid(now)
      modifies this`sessions, store
      ensures Valid(now) && (View(), r) == LoadAuthoritative(old(View()), c, allowed, now)
    {
      var row := if c in rows then Some(rows[c]) else None;
      if !IsDirect(row) {
        ClearDerivedTransportState(c, now);
        return Failure(NotFound);
      }
      if row.value.status !in allowed {
        if Terminal(row.value.status) {
          ClearDerivedTransportState(c, now);
        }
        return Failure(StateConflict);
      }
      var session := LoadCompatibleSession(c, row.value, now);
      r := if session.Some? then Success(session.value) else Failure(TransportMissing);
    }

    method StoreOffer(c: CallId, caller: string, callerDevice: DeviceId, callee: string, renegotiates: bool,
                      offer: Offer, now: int)
      returns (r: Result<CallSession, Reason>)
      requires Valid(now)
      modifies this`sessions, store
      ensures Valid(now)
      ensures (View(), r) == CallLifecycle.StoreOffer(old(View()), c, caller, callerDevice, callee, renegotiates, offer,
                                                      Outside(now))
    {
      var row := if c in rows then Some(rows[c]) else None;
      if !IsDirect(row) {
        ClearDerivedTransportState(c, now);
        return Failure(NotFound);
      }
      if row.value.callerUserId != caller || row.value.calleeUserId != Some(callee) {
        ClearDerivedTransportState(c, now);
        return Failure(Forbidden);
      }
      if !row.value.status.Ringing? || row.value.callType != offer.callType {
        if Terminal(row.value.status) {
          ClearDerivedTransportState(c, now);
        }
        return Failure(StateConflict);
      }
      var session := CallSession(caller, callerDevice, callee, None, Unique(loadUserDeviceIds(callee)), renegotiates,
                                 false, Some(offer));
      SetSession(c, session, now);
      r := Success(session);
    }

    method AcceptAnswer(c: CallId, user: string, device: DeviceId, renegotiates: bool, now: int)
      returns (r: AnswerResult)
      requires Valid(now)
      modifies this, store
      ensures Valid(now)
      ensures (View(), r) == CallLifecycle.AcceptAnswer(old(View()), c, user, device, renegotiates, Outside(now))
    {
      var row := if c in rows then Some(rows[c]) else None;
      if !IsDirect(row) {
        return AnswerFailed(NotFound);
      }
      if row.value.calleeUserId != Some(user) {
        return AnswerFailed(Forbidden);
      }
      if !row.value.status.Ringing? {
        return AnswerFailed(StateConflict);
      }
      var session := LoadCompatibleSession(c, row.value, now);
      r := AnswerWith(c, session, device, renegotiates, now);
    }

    method AnswerWith(c: CallId, session: Option<CallSession>, device: DeviceId, renegotiates: bool, now: int)
      returns (r: AnswerResult)
      requires Valid(now)
      modifies this, store
      ensures Valid(now)
      ensures r == AnswerDecision(session, device, renegotiates).1
      ensures View() == AfterAnswer(Moved(old(View()), c, AnswerDecision(session, device, renegotiates).0, now), c, r,
                                    Outside(now))
    {
      if session.None? || session.value.offer.None? {
        PersistAuthorityStatus(c, Some(Missed), now);
        ClearDerivedTransportState(c, now);
        return AnswerFailed(TransportMissing);
      }
      var s := session.value;
      if (Truthy(s.calleeDeviceId) && s.calleeDeviceId != Some(device)) || device !in s.calleeDeviceIds {
        return AnswerFailed(Forbidden);
      }
      PersistAuthorityStatus(c, Some(Active), now);
      s := s.(calleeDeviceId := Some(device));
      if renegotiates {
        s := s.(calleeSupportsRenegotiation := true);
      }
      SetSession(c, s, now);
      r := Answered(s, Without(s.calleeDeviceIds, device));
    }

    method RejectCall(c: CallId, user: string, device: DeviceId, now: int) returns (r: RejectResult)
      requires Valid(now)
      modifies this, store
      ensures Valid(now) && (View(), r) == CallLifecycle.RejectCall(old(View()), c, user, device, Outside(now))
    {
      var row := if c in rows then Some(rows[c]) else None;
      if !IsDirect(row) {
        return RejectFailed(NotFound);
      }
      if row.value.calleeUserId != Some(user) {
        return RejectFailed(Forbidden);
      }
      if !row.value.status.Ringing? {
        if Terminal(row.value.status) {
          ClearDerivedTransportState(c, now);
          return AlreadyRejected;
        }
        return RejectFailed(Forbidden);
      }
      var session := LoadCompatibleSession(c, row.value, now);
      if session.Some? && session.value.calleeDeviceIds != [] && device !in session.value.calleeDeviceIds {
        return RejectFailed(Forbidden);
      }
      var targets := CallerTargets(row.value, session, loadUserDeviceIds);
      var siblings := if session.Some? then Without(session.value.calleeDeviceIds, device) else [];
      PersistAuthorityStatus(c, Some(Rejected), now);
      ClearDerivedTransportState(c, now);
      r := CallRejected(targets, siblings);
    }

    method HangupCall(c: CallId, user: string, now: int) returns (r: HangupResult)
      requires Valid(now)
      modifies this, store
      ensures Valid(now) && (View(), r) == CallLifecycle.HangupCall(old(View()), c, user, Outside(now))
    {
      var row := if c in rows then Some(rows[c]) else None;
      if !IsDirect(row) {
        return HangupFailed(NotFound);
      }
      var role := RoleOfUser(row.value, user);
      if role.None? {
        return HangupFailed(Forbidden);
      }
      if Terminal(row.value.status) {
        ClearDerivedTransportState(c, now);
        return AlreadyEnded(role.value);
      }
      var session := LoadCompatibleSession(c, row.value, now);
      var targets := if role.value.Caller? then CalleeTargets(row.value, session, loadUserDeviceIds)
                     else CallerTargets(row.value, session, loadUserDeviceIds);
      var next := if role.value.Caller? && row.value.status.Ringing? then Missed else Ended;
      PersistAuthorityStatus(c, Some(next), now);
      ClearDerivedTransportState(c, now);
      r := HungUp(next, role.value, targets);
    }

    method CleanupOne(c: CallId, device: DeviceId, now: int) returns (r: Option<CleanedUp>)
      requires Valid(now)
      modifies this, store
      ensures Valid(now) && (View(), r) == CleanupCall(old(View()), c, device, Outside(now))
    {
      var row := if c in rows then Some(rows[c]) else None;
      if !CleanupApplies(row) {
        if row.None? || Terminal(row.value.status) {
          ClearDerivedTransportState(c, now);
        }
        return None;
      }
      var session := LoadCompatibleSession(c, row.value, now);
      r := CleanupDecision(c, row.value, session, device, loadUserDeviceIds);
      if r.Some? {
        PersistAuthorityStatus(c, Some(r.value.status), now);
        ClearDerivedTransportState(c, now);
      }
    }

    method CleanupDisconnectedDevice(device: DeviceId, now: int)
      returns (results: seq<CleanedUp>, ghost callIds: seq<CallId>)
      requires Valid(now)
      modifies this, store
      ensures Valid(now)
      ensures NoDuplicates(callIds) && forall c :: c in callIds <==> TakesPart(old(sessions), c, device, now)
      ensures (View(), results) == CleanupCalls(old(View()), callIds, device, Outside(now))
    {
      var listed := ListByDevice(device, now);
      callIds := listed;
      results := [];
      var i := 0;
      while i < |listed|
        invariant i <= |listed| && Valid(now)
        invariant (View(), results) == CleanupCalls(old(View()), listed[..i], device, Outside(now))
      {
        var r := CleanupOne(listed[i], device, now);
        if r.Some? {
          results := results + [r.value];
        }
        assert listed[..i + 1][..i] == listed[..i];
        i := i + 1;
      }
      assert listed[..|listed|] == listed;
    }

    method LoadReplayCandidate(c: CallId, device: DeviceId, now: int) returns (r: Option<Replay>)
      requires Valid(now)
      modifies this`sessions, store
      ensures Valid(now) && (View(), r) == ReplayCall(old(View()), c, device, now)
    {
      var row := if c in rows then Some(rows[c]) else None;
      if !IsDirect(row) || !row.value.status.Ringing? {
        ClearDerivedTransportState(c, now);
        return None;
      }
      var session := LoadCompatibleSession(c, row.value, now);
      if session.None? || session.value.offer.None? {
        return None;
      }
      if Truthy(session.value.calleeDeviceId) {
        ClearDerivedTransportState(c, now);
        return None;
      }
      if device !in session.value.calleeDeviceIds || session.value.callerDeviceId == device {
        return None;
      }
      r := Some(CallLifecycle.Replay.Replay(c, session.value.callerDeviceId, device, session.value.offer.value));
    }

    method ReplayPendingOffers(device: DeviceId, now: int)
      returns (replayed: seq<Replay>, ghost callIds: seq<CallId>)
      requires Valid(now)
      modifies this`sessions, store
      ensures Valid(now)
      ensures NoDuplicates(callIds) && forall c :: c in callIds <==> TakesPart(old(sessions), c, device, now)
      ensures (View(), replayed) == ReplayCalls(old(View()), callIds, device, now)
    {
      var listed := ListByDevice(device, now);
      callIds := listed;
      replayed := [];
      var i := 0;
      while i < |listed|
        invariant i <= |listed| && Valid(now)
        invariant (View(), replayed) == ReplayCalls(old(View()), listed[..i], device, now)
      {
        var r := LoadReplayCandidate(listed[i], device, now);
        if r.Some? {
          replayed := replayed + [r.value];
        }
        assert listed[..i + 1][..i] == listed[..i];
        i := i + 1;
      }
      assert listed[..|listed|] == listed;
    }
  }
}
