/**
 * Status and transport state agree: which sessions can exist beside which rows, over any run of
 * lifecycle operations, each taken atomically.
 */
module CallTransport {
  import opened Wrappers
  import opened CallSessions
  import opened CallIndex
  import opened CallLifecycle

  const LIVE: set<Status> := {Ringing, Active}
  const OVER: set<Status> := {Ended, Missed, Rejected}

  /** The session is between the row's two users, and its offer is for the row's kind of call. */
  predicate AreTheUsers(row: Row, session: CallSession) {
    && session.callerUserId == row.callerUserId
    && row.calleeUserId == Some(session.calleeUserId)
    && (session.offer.Some? ==> session.offer.value.callType == row.callType)
  }

  /** A ringing call's session has selected nobody; an active one's names one of the offered devices. */
  predicate Fits(row: Option<Row>, session: CallSession) {
    && row.Some? && row.value.groupId.None?
    && AreTheUsers(row.value, session)
    && match row.value.status
       case Ringing => session.calleeDeviceId.None?
       case Active => session.calleeDeviceId.Some? && session.calleeDeviceId.value in session.calleeDeviceIds
       case _ => false
  }

  ghost predicate FitsAt(w: World, c: CallId, now: int) {
    LiveSession(w, c, now).Some? ==> Fits(FindRow(w, c), LiveSession(w, c, now).value)
  }

  ghost predicate Agreed(w: World, now: int) {
    forall c: CallId :: FitsAt(w, c, now)
  }

  ghost predicate OthersKept(w: World, w': World, c: CallId) {
    forall b: CallId :: b != c ==>
      FindRow(w', b) == FindRow(w, b) && (b in w'.sessions <==> b in w.sessions)
      && (b in w.sessions ==> w'.sessions[b] == w.sessions[b])
  }

  /** An active call keeps its session or loses it; an ended call stays ended, with none. */
  ghost predicate StaysSelected(w: World, w': World, c: CallId, now: int, later: int) {
    var row, row' := FindRow(w, c), FindRow(w', c);
    && (row.Some? ==> row'.Some? && row'.value == row.value.(status := row'.value.status,
                                                              answeredAt := row'.value.answeredAt,
                                                              endedAt := row'.value.endedAt))
    && (row.Some? && Terminal(row.value.status) ==> row' == row)
    && (row.Some? && row.value.status.Active? ==>
          && (row'.value.status.Active? || row'.value.status.Ended?)
          && (LiveSession(w', c, later).Some? ==> LiveSession(w, c, now) == LiveSession(w', c, later)))
  }

  /** What every operation on one call keeps. */
  ghost predicate GoodStep(w: World, w': World, c: CallId, now: int) {
    OthersKept(w, w', c) && FitsAt(w', c, now) && StaysSelected(w, w', c, now, now)
  }

  lemma OfferIsGood(w: World, c: CallId, caller: string, callerDevice: DeviceId, callee: string, renegotiates: bool,
                    offer: Offer, o: Outside)
    requires FitsAt(w, c, o.now)
    ensures GoodStep(w, StoreOffer(w, c, caller, callerDevice, callee, renegotiates, offer, o).0, c, o.now)
  {
  }

  lemma AnswerIsGood(w: World, c: CallId, user: string, device: DeviceId, renegotiates: bool, o: Outside)
    requires FitsAt(w, c, o.now)
    ensures GoodStep(w, AcceptAnswer(w, c, user, device, renegotiates, o).0, c, o.now)
  {
    if AnswerGate(FindRow(w, c), user).None? {
      assert FindRow(w, c).value.status.Ringing?;
      assert Looked(w, c, FindRow(w, c).value, o.now) == w;
    }
  }

  lemma RejectIsGood(w: World, c: CallId, user: string, device: DeviceId, o: Outside)
    requires FitsAt(w, c, o.now)
    ensures GoodStep(w, RejectCall(w, c, user, device, o).0, c, o.now)
  {
  }

  lemma HangupIsGood(w: World, c: CallId, user: string, o: Outside)
    requires FitsAt(w, c, o.now)
    ensures GoodStep(w, HangupCall(w, c, user, o).0, c, o.now)
  {
  }

  lemma CleanupIsGood(w: World, c: CallId, device: DeviceId, o: Outside)
    requires FitsAt(w, c, o.now)
    ensures GoodStep(w, CleanupCall(w, c, device, o).0, c, o.now)
  {
  }

  lemma ReplayIsGood(w: World, c: CallId, device: DeviceId, now: int)
    requires FitsAt(w, c, now)
    ensures GoodStep(w, ReplayCall(w, c, device, now).0, c, now)
  {
  }

  lemma LoadIsGood(w: World, c: CallId, allowed: set<Status>, now: int)
    requires FitsAt(w, c, now)
    ensures GoodStep(w, LoadAuthoritative(w, c, allowed, now).0, c, now)
  {
  }

  // ---- from one call to all of them ----

  ghost predicate GoodChange(w: World, w': World, now: int, later: int) {
    Agreed(w', later) && forall c: CallId :: StaysSelected(w, w', c, now, later)
  }

  lemma GoodStepIsGoodChange(w: World, w': World, c: CallId, now: int)
    requires Agreed(w, now) && GoodStep(w, w', c, now)
    ensures GoodChange(w, w', now, now)
  {
    forall b: CallId
      ensures FitsAt(w', b, now) && StaysSelected(w, w', b, now, now)
    {
      if b != c {
        assert FitsAt(w, b, now);
        assert FindRow(w', b) == FindRow(w, b) && LiveSession(w', b, now) == LiveSession(w, b, now);
      }
    }
  }

  lemma GoodChangesCompose(w: World, m: World, w': World, now: int, middle: int, later: int)
    requires GoodChange(w, m, now, middle) && GoodChange(m, w', middle, later)
    ensures GoodChange(w, w', now, later)
  {
    forall c: CallId
      ensures StaysSelected(w, w', c, now, later)
    {
      assert StaysSelected(w, m, c, now, middle) && StaysSelected(m, w', c, middle, later) && FitsAt(w', c, later);
    }
  }

  lemma TimeIsGood(w: World, now: int, later: int)
    requires Agreed(w, now) && now <= later
    ensures GoodChange(w, w, now, later)
  {
    forall c: CallId
      ensures FitsAt(w, c, later) && StaysSelected(w, w, c, now, later)
    {
      assert FitsAt(w, c, now);
    }
  }

  lemma {:induction false} CleanupCallsAreGood(w: World, ids: seq<CallId>, device: DeviceId, o: Outside)
    requires Agreed(w, o.now)
    ensures GoodChange(w, CleanupCalls(w, ids, device, o).0, o.now, o.now)
  {
    if ids == [] {
      TimeIsGood(w, o.now, o.now);
    } else {
      CleanupCallsAreGood(w, ids[..|ids| - 1], device, o);
      var m := CleanupCalls(w, ids[..|ids| - 1], device, o).0;
      var c := ids[|ids| - 1];
      var w' := CleanupCall(m, c, device, o).0;
      assert FitsAt(m, c, o.now);
      CleanupIsGood(m, c, device, o);
      GoodStepIsGoodChange(m, w', c, o.now);
      GoodChangesCompose(w, m, w', o.now, o.now, o.now);
    }
  }

  lemma {:induction false} ReplayCallsAreGood(w: World, ids: seq<CallId>, device: DeviceId, now: int)
    requires Agreed(w, now)
    ensures GoodChange(w, ReplayCalls(w, ids, device, now).0, now, now)
  {
    if ids == [] {
      TimeIsGood(w, now, now);
    } else {
      ReplayCallsAreGood(w, ids[..|ids| - 1], device, now);
      var m := ReplayCalls(w, ids[..|ids| - 1], device, now).0;
      var c := ids[|ids| - 1];
      var w' := ReplayCall(m, c, device, now).0;
      assert FitsAt(m, c, now);
      ReplayIsGood(m, c, device, now);
      GoodStepIsGoodChange(m, w', c, now);
      GoodChangesCompose(w, m, w', now, now, now);
    }
  }

  // ---- whole runs ----

  datatype Op =
    | CreateOp(callId: CallId, row: Row)
    | OfferOp(callId: CallId, user: string, device: DeviceId, callee: string, renegotiates: bool, offer: Offer)
    | AnswerOp(callId: CallId, user: string, device: DeviceId, renegotiates: bool)
    | RejectOp(callId: CallId, user: string, device: DeviceId)
    | HangupOp(callId: CallId, user: string)
    | DisconnectOp(device: DeviceId, callIds: seq<CallId>)    // in the order the store lists them
    | ReplayOp(device: DeviceId, callIds: seq<CallId>)
    | LoadOp(callId: CallId, allowed: set<Status>)

  datatype Step = Step(op: Op, outside: Outside)

  /** Rows come from elsewhere, ringing and under a new id; everything else is a lifecycle operation. */
  function Do(w: World, s: Step): World {
    var o := s.outside;
    match s.op
    case CreateOp(c, row) =>
      if c !in w.rows && row.status.Ringing? then w.(rows := w.rows[c := row]) else w
    case OfferOp(c, user, device, callee, renegotiates, offer) =>
      StoreOffer(w, c, user, device, callee, renegotiates, offer, o).0
    case AnswerOp(c, user, device, renegotiates) => AcceptAnswer(w, c, user, device, renegotiates, o).0
    case RejectOp(c, user, device) => RejectCall(w, c, user, device, o).0
    case HangupOp(c, user) => HangupCall(w, c, user, o).0
    case DisconnectOp(device, ids) => CleanupCalls(w, ids, device, o).0
    case ReplayOp(device, ids) => ReplayCalls(w, ids, device, o.now).0
    case LoadOp(c, allowed) => LoadAuthoritative(w, c, allowed, o.now).0
  }

  lemma StepIsGood(w: World, s: Step)
    requires Agreed(w, s.outside.now)
    ensures GoodChange(w, Do(w, s), s.outside.now, s.outside.now)
  {
    var o := s.outside;
    match s.op
    case DisconnectOp(device, ids) => CleanupCallsAreGood(w, ids, device, o);
    case ReplayOp(device, ids) => ReplayCallsAreGood(w, ids, device, o.now);
    case _ => OneCallStepIsGood(w, s);
  }

  lemma OneCallStepIsGood(w: World, s: Step)
    requires Agreed(w, s.outside.now) && !s.op.DisconnectOp? && !s.op.ReplayOp?
    ensures GoodChange(w, Do(w, s), s.outside.now, s.outside.now)
  {
    var o, c := s.outside, s.op.callId;
    assert FitsAt(w, c, o.now);
    match s.op {
      case CreateOp(_, row) =>
      case OfferOp(_, user, device, callee, renegotiates, offer) =>
        OfferIsGood(w, c, user, device, callee, renegotiates, offer, o);
      case AnswerOp(_, user, device, renegotiates) => AnswerIsGood(w, c, user, device, renegotiates, o);
      case RejectOp(_, user, device) => RejectIsGood(w, c, user, device, o);
      case HangupOp(_, user) => HangupIsGood(w, c, user, o);
      case LoadOp(_, allowed) => LoadIsGood(w, c, allowed, o.now);
    }
    GoodStepIsGoodChange(w, Do(w, s), c, o.now);
  }

  function DoAll(w: World, steps: seq<Step>): World {
    if steps == [] then w else Do(DoAll(w, steps[..|steps| - 1]), steps[|steps| - 1])
  }

  ghost predicate InTimeOrder(start: int, steps: seq<Step>, end: int) {
    && (steps == [] ==> start <= end)
    && (steps != [] ==> start <= steps[0].outside.now && steps[|steps| - 1].outside.now <= end)
    && forall i :: 0 < i < |steps| ==> steps[i - 1].outside.now <= steps[i].outside.now
  }

  lemma {:induction false} RunsAreGood(w: World, start: int, steps: seq<Step>, end: int)
    requires Agreed(w, start) && InTimeOrder(start, steps, end)
    ensures GoodChange(w, DoAll(w, steps), start, end)
  {
    if steps == [] {
      TimeIsGood(w, start, end);
    } else {
      var before, last := steps[..|steps| - 1], steps[|steps| - 1];
      var now := last.outside.now;
      RunsAreGood(w, start, before, now);
      var m := DoAll(w, before);
      StepIsGood(m, last);
      GoodChangesCompose(w, m, DoAll(w, steps), start, now, now);
      TimeIsGood(DoAll(w, steps), now, end);
      GoodChangesCompose(w, DoAll(w, steps), DoAll(w, steps), start, now, end);
    }
  }

  /** `after` is the row, or the row moved on at `now` and stamped with it. */
  ghost predicate StampedAt(row: Row, after: Row, now: int) {
    if after.status == row.status then after == row
    else
      && (row.status.Ringing? || row.status.Active?)
      && after == row.(status := after.status,
                       answeredAt := if after.status.Active? && row.answeredAt.None? then Some(now) else row.answeredAt,
                       endedAt := if after.status in OVER && row.endedAt.None? then Some(now) else row.endedAt)
  }

  lemma {:induction false} CleanupStamps(w: World, ids: seq<CallId>, device: DeviceId, o: Outside, c: CallId)
    requires c in w.rows
    ensures var w' := CleanupCalls(w, ids, device, o).0;
            && c in w'.rows && StampedAt(w.rows[c], w'.rows[c], o.now)
            && (w'.rows[c].status != w.rows[c].status ==> w'.rows[c].status in OVER)
  {
    if ids != [] {
      CleanupStamps(w, ids[..|ids| - 1], device, o, c);
    }
  }

  lemma {:induction false} ReplayKeepsRows(w: World, ids: seq<CallId>, device: DeviceId, now: int)
    ensures ReplayCalls(w, ids, device, now).0.rows == w.rows
  {
    if ids != [] {
      ReplayKeepsRows(w, ids[..|ids| - 1], device, now);
    }
  }

  lemma AnswerStamps(w: World, b: CallId, user: string, device: DeviceId, renegotiates: bool, o: Outside, c: CallId)
    requires c in w.rows
    ensures var w' := AcceptAnswer(w, b, user, device, renegotiates, o).0;
            c in w'.rows && StampedAt(w.rows[c], w'.rows[c], o.now)
  {
  }

  lemma RejectStamps(w: World, b: CallId, user: string, device: DeviceId, o: Outside, c: CallId)
    requires c in w.rows
    ensures var w' := RejectCall(w, b, user, device, o).0;
            c in w'.rows && StampedAt(w.rows[c], w'.rows[c], o.now)
  {
  }

  lemma HangupStamps(w: World, b: CallId, user: string, o: Outside, c: CallId)
    requires c in w.rows
    ensures var w' := HangupCall(w, b, user, o).0;
            c in w'.rows && StampedAt(w.rows[c], w'.rows[c], o.now)
  {
  }

  /** Whatever an operation does to a row, it stamps with its own time, and touches nothing but status and stamps. */
  lemma StepsStampTheirTime(w: World, s: Step, c: CallId)
    requires c in w.rows
    ensures c in Do(w, s).rows && StampedAt(w.rows[c], Do(w, s).rows[c], s.outside.now)
  {
    hide AcceptAnswer;
    hide RejectCall;
    hide HangupCall;
    hide CleanupCalls;
    hide ReplayCalls;
    hide CompatibleSession;
    match s.op
    case AnswerOp(b, user, device, renegotiates) => AnswerStamps(w, b, user, device, renegotiates, s.outside, c);
    case RejectOp(b, user, device) => RejectStamps(w, b, user, device, s.outside, c);
    case HangupOp(b, user) => HangupStamps(w, b, user, s.outside, c);
    case DisconnectOp(device, ids) => CleanupStamps(w, ids, device, s.outside, c);
    case ReplayOp(device, ids) => ReplayKeepsRows(w, ids, device, s.outside.now);
    case _ =>
  }

  /**
   * After any run from a process start: a terminal call has no session and is in no device's list,
   * and an active call's session names one of its offered devices.
   */
  lemma EndedCallsLeaveNoTransport(rows: map<CallId, Row>, start: int, steps: seq<Step>, end: int, c: CallId)
    requires InTimeOrder(start, steps, end)
    requires c in DoAll(World(rows, map[]), steps).rows
    ensures var w := DoAll(World(rows, map[]), steps);
            && (Terminal(w.rows[c].status) ==>
                  LiveSession(w, c, end).None? && forall d :: !TakesPart(w.sessions, c, d, end))
            && (w.rows[c].status.Active? && LiveSession(w, c, end).Some? ==>
                  var s := LiveSession(w, c, end).value;
                  s.calleeDeviceId.Some? && s.calleeDeviceId.value in s.calleeDeviceIds)
  {
    var w0 := World(rows, map[]);
    assert forall b: CallId :: FitsAt(w0, b, start);
    RunsAreGood(w0, start, steps, end);
    assert FitsAt(DoAll(w0, steps), c, end);
  }

  /** From the moment a call is active its session never changes: it stays what it is or disappears. */
  lemma SelectionNeverChanges(rows: map<CallId, Row>, start: int, first: seq<Step>, now: int, second: seq<Step>,
                              end: int, c: CallId)
    requires InTimeOrder(start, first, now) && InTimeOrder(now, second, end)
    requires var w := DoAll(World(rows, map[]), first); c in w.rows && w.rows[c].status.Active?
    ensures var w := DoAll(World(rows, map[]), first);
            LiveSession(DoAll(w, second), c, end).Some? ==> LiveSession(DoAll(w, second), c, end) == LiveSession(w, c, now)
  {
    var w0 := World(rows, map[]);
    assert forall b: CallId :: FitsAt(w0, b, start);
    RunsAreGood(w0, start, first, now);
    RunsAreGood(DoAll(w0, first), now, second, end);
    assert StaysSelected(DoAll(w0, first), DoAll(DoAll(w0, first), second), c, now, end);
  }

  // ---- who wins, and who is told ----

  /** A call between two users, not in a group. */
  ghost predicate OneToOne(row: Option<Row>) {
    row.Some? && row.value.groupId.None? && row.value.calleeUserId.Some?
  }

  ghost predicate DirectIn(row: Option<Row>, statuses: set<Status>) {
    OneToOne(row) && row.value.status in statuses
  }

  /** The live session, if it is one of the row's users and kind; any other counts for nothing. */
  ghost function Usable(w: World, c: CallId, now: int): Option<CallSession> {
    var session := LiveSession(w, c, now);
    if FindRow(w, c).Some? && session.Some? && AreTheUsers(FindRow(w, c).value, session.value) then session else None
  }

  /** A callee device has been selected. */
  ghost predicate Selected(session: CallSession) {
    session.calleeDeviceId.Some? && session.calleeDeviceId.value != ""
  }

  /** `targets` are the devices of `all`, each once. */
  ghost predicate EachOnce(targets: seq<DeviceId>, all: seq<DeviceId>) {
    NoDuplicates(targets) && forall d :: d in targets <==> d in all
  }

  lemma UniqueIsEachOnce(all: seq<DeviceId>)
    ensures EachOnce(Unique(all), all)
  {
    UniqueMeaning(all);
  }

  /** The caller's device, or every device of the caller where no session names one. */
  ghost predicate TellsCaller(targets: seq<DeviceId>, row: Row, session: Option<CallSession>, devices: UserDevices) {
    if session.Some? && session.value.callerDeviceId != "" then targets == [session.value.callerDeviceId]
    else EachOnce(targets, devices(row.callerUserId))
  }

  /** The device that answered; or every device offered; or every device of the callee. */
  ghost predicate TellsCallee(targets: seq<DeviceId>, row: Row, session: Option<CallSession>, devices: UserDevices)
    requires row.calleeUserId.Some?
  {
    if session.Some? && Selected(session.value) then targets == [session.value.calleeDeviceId.value]
    else if session.Some? && session.value.calleeDeviceIds != [] then EachOnce(targets, session.value.calleeDeviceIds)
    else EachOnce(targets, devices(row.calleeUserId.value))
  }

  lemma TargetsMeaning(row: Row, session: Option<CallSession>, devices: UserDevices)
    ensures TellsCaller(CallerTargets(row, session, devices), row, session, devices)
    ensures row.calleeUserId.Some? ==> TellsCallee(CalleeTargets(row, session, devices), row, session, devices)
  {
    UniqueIsEachOnce(devices(row.callerUserId));
    if row.calleeUserId.Some? {
      UniqueIsEachOnce(devices(row.calleeUserId.value));
    }
    if session.Some? {
      UniqueIsEachOnce(session.value.calleeDeviceIds);
    }
  }

  // ---- offers ----

  ghost predicate MayOffer(row: Option<Row>, caller: string, callee: string, offer: Offer) {
    && DirectIn(row, {Ringing})
    && row.value.callerUserId == caller && row.value.calleeUserId == Some(callee)
    && row.value.callType == offer.callType
  }

  /**
   * An offer is stored exactly for the ringing call of that caller, callee and kind. Its session is
   * offered to every device of the callee, once each, and selects none; the call is then listed for
   * the caller's device and for all of those.
   */
  lemma OfferReachesEveryDevice(w: World, c: CallId, caller: string, callerDevice: DeviceId, callee: string,
                                renegotiates: bool, offer: Offer, o: Outside)
    requires o.ttlMs > 0
    ensures var (w', r) := StoreOffer(w, c, caller, callerDevice, callee, renegotiates, offer, o);
            && (r.Success? <==> MayOffer(FindRow(w, c), caller, callee, offer))
            && w'.rows == w.rows
            && (r.Success? ==>
                  && LiveSession(w', c, o.now) == Some(r.value)
                  && r.value == CallSession(caller, callerDevice, callee, None, r.value.calleeDeviceIds, renegotiates,
                                            false, Some(offer))
                  && EachOnce(r.value.calleeDeviceIds, o.devices(callee))
                  && TakesPart(w'.sessions, c, callerDevice, o.now)
                  && forall d :: d in o.devices(callee) ==> TakesPart(w'.sessions, c, d, o.now))
  {
    UniqueIsEachOnce(o.devices(callee));
  }

  /** Why an offer is refused, and that only a call that is not the caller's, or is over, loses its session. */
  lemma RefusedOffersAreExact(w: World, c: CallId, caller: string, callerDevice: DeviceId, callee: string,
                              renegotiates: bool, offer: Offer, o: Outside)
    requires !MayOffer(FindRow(w, c), caller, callee, offer)
    ensures var row := FindRow(w, c);
            var (w', r) := StoreOffer(w, c, caller, callerDevice, callee, renegotiates, offer, o);
            && r == Failure(if !OneToOne(row) then NotFound
                            else if row.value.callerUserId != caller || row.value.calleeUserId != Some(callee) then Forbidden
                            else StateConflict)
            && LiveSession(w', c, o.now)
               == if r.error.StateConflict? && DirectIn(row, LIVE) then LiveSession(w, c, o.now) else None
  {
  }

  // ---- answers ----

  /** What an answer needs: a ringing call, its callee, and an offer made to the answering device and taken by no other. */
  ghost predicate CanAnswer(w: World, c: CallId, user: string, device: DeviceId, now: int) {
    var row, session := FindRow(w, c), Usable(w, c, now);
    && DirectIn(row, {Ringing}) && row.value.calleeUserId == Some(user)
    && session.Some? && session.value.offer.Some? && device in session.value.calleeDeviceIds
    && (Selected(session.value) ==> session.value.calleeDeviceId.value == device)
  }

  /**
   * An answer succeeds exactly when it can; the call is then active on the answering device, and
   * exactly the other offered devices are told to stop ringing.
   */
  lemma AnswerSelectsTheActor(w: World, c: CallId, user: string, device: DeviceId, renegotiates: bool, o: Outside)
    requires o.ttlMs > 0
    ensures var (w', r) := AcceptAnswer(w, c, user, device, renegotiates, o);
            && (r.Answered? <==> CanAnswer(w, c, user, device, o.now))
            && (r.Answered? ==>
                  var session := LiveSession(w, c, o.now).value;
                  && w'.rows[c].status.Active? && LiveSession(w', c, o.now) == Some(r.session)
                  && r.session == session.(calleeDeviceId := Some(device),
                                           calleeSupportsRenegotiation := r.session.calleeSupportsRenegotiation)
                  && (r.session.calleeSupportsRenegotiation <==> renegotiates || session.calleeSupportsRenegotiation)
                  && forall d :: d in r.siblingHangupDeviceIds <==> d in session.calleeDeviceIds && d != device)
  {
    var session := LiveSession(w, c, o.now);
    if CanAnswer(w, c, user, device, o.now) {
      WithoutMembers(session.value.calleeDeviceIds, device);
    }
  }

  /** Why an answer fails. A callee that answers where nothing is offered any more ends the call as missed. */
  lemma FailedAnswersAreExact(w: World, c: CallId, user: string, device: DeviceId, renegotiates: bool, o: Outside)
    requires !CanAnswer(w, c, user, device, o.now)
    ensures var row, session := FindRow(w, c), Usable(w, c, o.now);
            var (w', r) := AcceptAnswer(w, c, user, device, renegotiates, o);
            && r == AnswerFailed(if !OneToOne(row) then NotFound
                                 else if row.value.calleeUserId != Some(user) then Forbidden
                                 else if !row.value.status.Ringing? then StateConflict
                                 else if session.None? || session.value.offer.None? then TransportMissing
                                 else Forbidden)
            && (r.reason.TransportMissing? ==> w'.rows[c].status.Missed? && c !in w'.sessions)
            && (!r.reason.TransportMissing? ==> w' == w)
  {
  }

  // ---- rejections ----

  ghost predicate CanReject(w: World, c: CallId, user: string, device: DeviceId, now: int) {
    var row, session := FindRow(w, c), Usable(w, c, now);
    && DirectIn(row, {Ringing}) && row.value.calleeUserId == Some(user)
    && (session.None? || session.value.calleeDeviceIds == [] || device in session.value.calleeDeviceIds)
  }

  /**
   * A rejection succeeds exactly for the callee of a ringing call, on a device it was offered to where
   * the offer names devices. It tells the caller, and exactly the other offered devices. A call that is
   * over answers that it was rejected already; everything else changes nothing.
   */
  lemma RejectionTellsTheOthers(w: World, c: CallId, user: string, device: DeviceId, o: Outside)
    ensures var row, session := FindRow(w, c), Usable(w, c, o.now);
            var (w', r) := RejectCall(w, c, user, device, o);
            && (r.CallRejected? <==> CanReject(w, c, user, device, o.now))
            && (r.AlreadyRejected? <==> DirectIn(row, OVER) && row.value.calleeUserId == Some(user))
            && (r.RejectFailed? ==> w' == w && r.reason == if OneToOne(row) then Forbidden else NotFound)
            && (r.CallRejected? ==>
                  && w'.rows[c].status.Rejected?
                  && TellsCaller(r.callerTargetDeviceIds, row.value, session, o.devices)
                  && forall d :: d in r.siblingDeviceIds <==>
                       session.Some? && d in session.value.calleeDeviceIds && d != device)
            && (!r.CallRejected? ==> w'.rows == w.rows)
            && (!r.RejectFailed? ==> c !in w'.sessions)
  {
    hide EachOnce;
    hide Unique;
    hide TellsCaller;
    var row, session := FindRow(w, c), Usable(w, c, o.now);
    if CanReject(w, c, user, device, o.now) {
      TargetsMeaning(row.value, session, o.devices);
      if session.Some? {
        WithoutMembers(session.value.calleeDeviceIds, device);
      }
    }
  }

  // ---- hangups ----

  /**
   * A hangup ends the call exactly when one of its two users hangs up while it has not ended. Ending
   * an active call tells exactly the device at the other end; giving up on a ringing one, every
   * offered device; and where the session does not name a device, every device of the other user.
   */
  lemma HangupTellsTheOtherSide(w: World, c: CallId, user: string, o: Outside)
    ensures var row, session := FindRow(w, c), Usable(w, c, o.now);
            var (w', r) := HangupCall(w, c, user, o);
            && (r.HungUp? <==> DirectIn(row, LIVE)
                               && (row.value.callerUserId == user || row.value.calleeUserId == Some(user)))
            && (r.HangupFailed? ==> r.reason == if OneToOne(row) then Forbidden else NotFound)
            && (!r.HungUp? ==> w'.rows == w.rows)
            && (r.HangupFailed? ==> w' == w) && (!r.HangupFailed? ==> c !in w'.sessions)
            && (r.AlreadyEnded? ==> DirectIn(row, OVER) && (r.role.Caller? <==> row.value.callerUserId == user))
            && (r.HungUp? ==>
                  && (r.role.Caller? <==> row.value.callerUserId == user)
                  && w'.rows[c].status == r.status
                  && (r.status == if r.role.Caller? && row.value.status.Ringing? then Missed else Ended)
                  && if r.role.Caller? then TellsCallee(r.targetDeviceIds, row.value, session, o.devices)
                     else TellsCaller(r.targetDeviceIds, row.value, session, o.devices))
  {
    hide TellsCaller;
    hide TellsCallee;
    hide CallerTargets;
    hide CalleeTargets;
    if FindRow(w, c).Some? {
      TargetsMeaning(FindRow(w, c).value, Usable(w, c, o.now), o.devices);
    }
  }

  // ---- reconnecting devices ----

  /** An offer still open to the device: the call rings, nobody answered, the device was offered it and is not the caller's. */
  ghost predicate OpenOffer(w: World, c: CallId, device: DeviceId, now: int) {
    var row, session := FindRow(w, c), Usable(w, c, now);
    && DirectIn(row, {Ringing})
    && session.Some? && session.value.offer.Some? && !Selected(session.value)
    && device in session.value.calleeDeviceIds && session.value.callerDeviceId != device
  }

  ghost predicate IsReplayOf(w: World, r: Replay, device: DeviceId, now: int) {
    && OpenOffer(w, r.callId, device, now)
    && var session := LiveSession(w, r.callId, now).value;
       r == CallLifecycle.Replay.Replay(r.callId, session.callerDeviceId, device, session.offer.value)
  }

  /** One replay; a session is kept only for a ringing call, between its users, that nobody has answered. */
  lemma ReplayIsExact(w: World, c: CallId, device: DeviceId, now: int)
    ensures var session := Usable(w, c, now);
            var (w', r) := ReplayCall(w, c, device, now);
            && w'.rows == w.rows
            && (r.Some? <==> OpenOffer(w, c, device, now))
            && (r.Some? ==> r.value.callId == c && IsReplayOf(w, r.value, device, now))
            && LiveSession(w', c, now)
               == if DirectIn(FindRow(w, c), {Ringing}) && session.Some?
                     && (session.value.offer.Some? ==> !Selected(session.value))
                  then session else None
  {
  }

  lemma {:induction false} ReplayLeavesOthers(w: World, ids: seq<CallId>, device: DeviceId, now: int, c: CallId)
    requires c !in ids
    ensures var w' := ReplayCalls(w, ids, device, now).0;
            FindRow(w', c) == FindRow(w, c) && LiveSession(w', c, now) == LiveSession(w, c, now)
  {
    if ids != [] {
      ReplayLeavesOthers(w, ids[..|ids| - 1], device, now, c);
    }
  }

  lemma {:induction false} ReplaysAreExact(w: World, ids: seq<CallId>, device: DeviceId, now: int)
    requires NoDuplicates(ids)
    ensures var done := ReplayCalls(w, ids, device, now).1;
            && (forall r :: r in done <==> r.callId in ids && IsReplayOf(w, r, device, now))
            && forall i, j :: 0 <= i < j < |done| ==> done[i].callId != done[j].callId
  {
    if ids != [] {
      var before, last := ids[..|ids| - 1], ids[|ids| - 1];
      var (m, done) := ReplayCalls(w, before, device, now);
      ReplaysAreExact(w, before, device, now);
      ReplayLeavesOthers(w, before, device, now, last);
      ReplayIsExact(m, last, device, now);
      assert OpenOffer(m, last, device, now) <==> OpenOffer(w, last, device, now);
      assert forall i :: 0 <= i < |done| ==> done[i] in done;
      assert ids == before + [last];
    }
  }

  /** A reconnecting device is sent exactly the offers still open to it, each once: the list it is given misses none. */
  lemma ReconnectGetsOpenOffers(w: World, ids: seq<CallId>, device: DeviceId, now: int)
    requires NoDuplicates(ids) && forall c :: c in ids <==> TakesPart(w.sessions, c, device, now)
    ensures var done := ReplayCalls(w, ids, device, now).1;
            && (forall r :: r in done <==> IsReplayOf(w, r, device, now))
            && forall i, j :: 0 <= i < j < |done| ==> done[i].callId != done[j].callId
  {
    hide ReplayCalls;
    ReplaysAreExact(w, ids, device, now);
    forall r | IsReplayOf(w, r, device, now)
      ensures r.callId in ids
    {
      assert TakesPart(w.sessions, r.callId, device, now);
    }
  }

  // ---- the session a transport message goes by ----

  /** A session is handed out exactly when it is between the row's users and the call in an allowed status. */
  lemma LoadIsExact(w: World, c: CallId, allowed: set<Status>, now: int)
    ensures var row, session := FindRow(w, c), LiveSession(w, c, now);
            var (w', r) := LoadAuthoritative(w, c, allowed, now);
            && (r.Success? <==> DirectIn(row, allowed) && session.Some? && AreTheUsers(row.value, session.value))
            && (r.Success? ==> Some(r.value) == session && w' == w)
            && (r.Failure? ==>
                  && r.error == (if !OneToOne(row) then NotFound
                                 else if row.value.status !in allowed then StateConflict else TransportMissing)
                  && LiveSession(w', c, now)
                     == if DirectIn(row, LIVE) && row.value.status !in allowed then session else None)
            && w'.rows == w.rows
  {
  }

  // ---- what a disconnect does ----

  predicate InCall(session: CallSession, device: DeviceId) {
    session.callerDeviceId == device || session.calleeDeviceId == Some(device)
  }

  /**
   * One call of a disconnected device is ended exactly when it is not over and the device is in it, or
   * no session says who is. It tells the other side; without a session, the side the device is not of.
   */
  lemma CleanupIsExact(w: World, c: CallId, device: DeviceId, o: Outside)
    ensures var row, session := FindRow(w, c), Usable(w, c, o.now);
            var (w', r) := CleanupCall(w, c, device, o);
            && (r.Some? <==> DirectIn(row, LIVE) && (session.None? || InCall(session.value, device)))
            && (r.None? ==> w'.rows == w.rows)
            && (FindRow(w, c).None? || row.value.status in OVER ==> c !in w'.sessions)
            && (r.None? && DirectIn(row, LIVE) ==> LiveSession(w', c, o.now) == session)
            && (r.Some? ==>
                  && r.value.callId == c && w'.rows[c].status == r.value.status && c !in w'.sessions
                  && (r.value.status == if row.value.status.Ringing? then Missed else Ended)
                  && (r.value.role.Callee? <==>
                        if session.Some? then session.value.callerDeviceId != device
                        else device !in o.devices(row.value.callerUserId)
                             && device in o.devices(row.value.calleeUserId.value))
                  && if r.value.role.Caller? then TellsCallee(r.value.targetDeviceIds, row.value, session, o.devices)
                     else TellsCaller(r.value.targetDeviceIds, row.value, session, o.devices))
  {
    hide TellsCaller;
    hide TellsCallee;
    hide CallerTargets;
    hide CalleeTargets;
    if FindRow(w, c).Some? {
      TargetsMeaning(FindRow(w, c).value, Usable(w, c, o.now), o.devices);
    }
  }

  lemma CleanupEndsCall(w: World, c: CallId, device: DeviceId, o: Outside)
    requires FitsAt(w, c, o.now)
    requires LiveSession(w, c, o.now).Some? && InCall(LiveSession(w, c, o.now).value, device)
    ensures var (w', r) := CleanupCall(w, c, device, o);
            && LiveSession(w', c, o.now).None? && Terminal(w'.rows[c].status)
            && r.Some? && r.value.callId == c && r.value.status == w'.rows[c].status
  {
  }

  lemma {:induction false} CleanupLeavesOthers(w: World, ids: seq<CallId>, device: DeviceId, o: Outside, c: CallId)
    requires c !in ids
    ensures var w' := CleanupCalls(w, ids, device, o).0;
            FindRow(w', c) == FindRow(w, c) && LiveSession(w', c, o.now) == LiveSession(w, c, o.now)
  {
    if ids != [] {
      CleanupLeavesOthers(w, ids[..|ids| - 1], device, o, c);
    }
  }

  /** A disconnected device's calls, as caller or as the callee who answered, are all ended and reported. */
  lemma {:induction false} DisconnectEndsItsCalls(w: World, ids: seq<CallId>, device: DeviceId, o: Outside, c: CallId)
    requires Agreed(w, o.now) && NoDuplicates(ids) && c in ids
    requires LiveSession(w, c, o.now).Some? && InCall(LiveSession(w, c, o.now).value, device)
    ensures var (w', done) := CleanupCalls(w, ids, device, o);
            && LiveSession(w', c, o.now).None? && c in w'.rows && Terminal(w'.rows[c].status)
            && exists r :: r in done && r.callId == c && r.status == w'.rows[c].status
  {
    var before, last := ids[..|ids| - 1], ids[|ids| - 1];
    var (m, done) := CleanupCalls(w, before, device, o);
    CleanupCallsAreGood(w, before, device, o);
    assert FitsAt(w, c, o.now) && FitsAt(m, c, o.now);
    if c == last {
      CleanupLeavesOthers(w, before, device, o, c);
      CleanupEndsCall(m, c, device, o);
      var r := CleanupCall(m, c, device, o).1.value;
      assert r in CleanupCalls(w, ids, device, o).1;
    } else {
      DisconnectEndsItsCalls(w, before, device, o, c);
      var r :| r in done && r.callId == c && r.status == m.rows[c].status;
      assert FitsAt(m, last, o.now);
      CleanupIsGood(m, last, device, o);
      assert r in CleanupCalls(w, ids, device, o).1;
    }
  }

  /** The store lists every call a device is in, so the disconnect handler misses none. */
  lemma ParticipantIsListed(w: World, c: CallId, device: DeviceId, now: int)
    requires FitsAt(w, c, now) && LiveSession(w, c, now).Some? && InCall(LiveSession(w, c, now).value, device)
    ensures TakesPart(w.sessions, c, device, now)
  {
  }
}
