/**
 * The life of a direct call (createDirectCallLifecycleManager and the authority store in
 * apps/api/src/services/call-routing-state.ts): a database row moved by row-locked transitions,
 * and a session beside it that says which devices take part.
 */
module CallLifecycle {
  import opened Wrappers
  import opened CallSessions
  import opened CallIndex

  datatype Status = Ringing | Active | Ended | Missed | Rejected

  datatype Row = Row(
    callerUserId: string,
    calleeUserId: Option<string>,
    groupId: Option<string>,
    callType: CallType,
    status: Status,
    answeredAt: Option<int>,
    endedAt: Option<int>)

  datatype Reason = NotFound | Forbidden | StateConflict | TransportMissing

  datatype Role = Caller | Callee

  datatype AnswerResult =
    | AnswerFailed(reason: Reason)
    | Answered(session: CallSession, siblingHangupDeviceIds: seq<DeviceId>)

  datatype RejectResult =
    | RejectFailed(reason: Reason)
    | AlreadyRejected
    | CallRejected(callerTargetDeviceIds: seq<DeviceId>, siblingDeviceIds: seq<DeviceId>)

  datatype HangupResult =
    | HangupFailed(reason: Reason)
    | AlreadyEnded(role: Role)
    | HungUp(status: Status, role: Role, targetDeviceIds: seq<DeviceId>)

  datatype CleanedUp = CleanedUp(callId: CallId, status: Status, role: Role, targetDeviceIds: seq<DeviceId>)

  type UserDevices = string -> seq<DeviceId>

  predicate IsDirect(row: Option<Row>) {
    row.Some? && row.value.groupId.None? && row.value.calleeUserId.Some?
  }

  predicate Terminal(status: Status) {
    status.Ended? || status.Missed? || status.Rejected?
  }

  predicate Compatible(row: Row, session: CallSession) {
    && session.callerUserId == row.callerUserId
    && Some(session.calleeUserId) == row.calleeUserId
    && (session.offer.None? || session.offer.value.callType == row.callType)
  }

  function CallerTargets(row: Row, session: Option<CallSession>, devices: UserDevices): seq<DeviceId> {
    if session.Some? && session.value.callerDeviceId != "" then [session.value.callerDeviceId]
    else Unique(devices(row.callerUserId))
  }

  function CalleeTargets(row: Row, session: Option<CallSession>, devices: UserDevices): seq<DeviceId>
    requires row.calleeUserId.Some?
  {
    if session.Some? && Truthy(session.value.calleeDeviceId) then [session.value.calleeDeviceId.value]
    else if session.Some? && session.value.calleeDeviceIds != [] then Unique(session.value.calleeDeviceIds)
    else Unique(devices(row.calleeUserId.value))
  }

  function RoleOf(row: Row, device: DeviceId, devices: UserDevices): Option<Role>
    requires row.calleeUserId.Some?
  {
    if device in devices(row.callerUserId) then Some(Caller)
    else if device in devices(row.calleeUserId.value) then Some(Callee)
    else None
  }

  // ---- what a transition decides, before and after it looks for a session ----

  function AnswerGate(row: Option<Row>, actorUserId: string): Option<Reason> {
    if !IsDirect(row) then Some(NotFound)
    else if row.value.calleeUserId != Some(actorUserId) then Some(Forbidden)
    else if !row.value.status.Ringing? then Some(StateConflict)
    else None
  }

  function AnswerDecision(session: Option<CallSession>, device: DeviceId, renegotiates: bool)
    : (Option<Status>, AnswerResult)
  {
    if session.None? || session.value.offer.None? then (Some(Missed), AnswerFailed(TransportMissing))
    else
      var s := session.value;
      if Truthy(s.calleeDeviceId) && s.calleeDeviceId != Some(device) then (None, AnswerFailed(Forbidden))
      else if device !in s.calleeDeviceIds then (None, AnswerFailed(Forbidden))
      else
        var next := s.(calleeDeviceId := Some(device),
                       calleeSupportsRenegotiation := renegotiates || s.calleeSupportsRenegotiation);
        (Some(Active), Answered(next, Without(s.calleeDeviceIds, device)))
  }

  function RejectGate(row: Option<Row>, actorUserId: string): Option<RejectResult> {
    if !IsDirect(row) then Some(RejectFailed(NotFound))
    else if row.value.calleeUserId != Some(actorUserId) then Some(RejectFailed(Forbidden))
    else if Terminal(row.value.status) then Some(AlreadyRejected)
    else if !row.value.status.Ringing? then Some(RejectFailed(Forbidden))
    else None
  }

  function RejectDecision(row: Row, session: Option<CallSession>, device: DeviceId, devices: UserDevices)
    : (Option<Status>, RejectResult)
  {
    if session.Some? && session.value.calleeDeviceIds != [] && device !in session.value.calleeDeviceIds
    then (None, RejectFailed(Forbidden))
    else (Some(Rejected),
          CallRejected(CallerTargets(row, session, devices),
                       if session.Some? then Without(session.value.calleeDeviceIds, device) else []))
  }

  function RoleOfUser(row: Row, actorUserId: string): Option<Role> {
    if row.callerUserId == actorUserId then Some(Caller)
    else if row.calleeUserId == Some(actorUserId) then Some(Callee)
    else None
  }

  function HangupGate(row: Option<Row>, actorUserId: string): Option<HangupResult> {
    if !IsDirect(row) then Some(HangupFailed(NotFound))
    else
      match RoleOfUser(row.value, actorUserId)
      case None => Some(HangupFailed(Forbidden))
      case Some(role) => if Terminal(row.value.status) then Some(AlreadyEnded(role)) else None
  }

  function HangupDecision(row: Row, session: Option<CallSession>, role: Role, devices: UserDevices)
    : (Option<Status>, HangupResult)
    requires row.calleeUserId.Some?
  {
    var next := if role.Caller? && row.status.Ringing? then Missed else Ended;
    (Some(next),
     HungUp(next, role, if role.Caller? then CalleeTargets(row, session, devices)
                        else CallerTargets(row, session, devices)))
  }

  predicate CleanupApplies(row: Option<Row>) {
    IsDirect(row) && !Terminal(row.value.status)
  }

  function CleanupDecision(callId: CallId, row: Row, session: Option<CallSession>, device: DeviceId, devices: UserDevices)
    : Option<CleanedUp>
    requires row.calleeUserId.Some?
  {
    var next := if row.status.Ringing? then Missed else Ended;
    if session.None? then
      var role := if RoleOf(row, device, devices) == Some(Callee) then Callee else Caller;
      Some(CleanedUp(callId, next, role, if role.Caller? then CalleeTargets(row, None, devices)
                                         else CallerTargets(row, None, devices)))
    else if session.value.callerDeviceId != device && session.value.calleeDeviceId != Some(device) then None
    else
      var role := if session.value.callerDeviceId == device then Caller else Callee;
      Some(CleanedUp(callId, next, role, if role.Caller? then CalleeTargets(row, session, devices)
                                         else CallerTargets(row, session, devices)))
  }

  // ---- the authority row ----

  function Persisted(row: Row, status: Status, now: int): Row {
    row.(status := status,
         answeredAt := if status.Active? && row.answeredAt.None? then Some(now) else row.answeredAt,
         endedAt := if Terminal(status) && row.endedAt.None? then Some(now) else row.endedAt)
  }

  function Transitioned(row: Row, mutation: Option<Status>, now: int): Row {
    if mutation.Some? && row.status != mutation.value then Persisted(row, mutation.value, now) else row
  }

  // ---- one winner: only the transition itself is atomic ----

  /** One row-locked transition. The session it reads may be anything: other calls may have changed it. */
  datatype Attempt =
    | Answer(userId: string, device: DeviceId, renegotiates: bool, seen: Option<CallSession>)
    | Reject(userId: string, device: DeviceId, seen: Option<CallSession>)
    | Hangup(userId: string, seen: Option<CallSession>)
    | Cleanup(device: DeviceId, seen: Option<CallSession>)

  function Mutation(row: Row, a: Attempt, devices: UserDevices): Option<Status> {
    match a
    case Answer(user, device, renegotiates, seen) =>
      if AnswerGate(Some(row), user).Some? then None else AnswerDecision(seen, device, renegotiates).0
    case Reject(user, device, seen) =>
      if RejectGate(Some(row), user).Some? then None else RejectDecision(row, seen, device, devices).0
    case Hangup(user, seen) =>
      if HangupGate(Some(row), user).Some? then None
      else HangupDecision(row, seen, RoleOfUser(row, user).value, devices).0
    case Cleanup(device, seen) =>
      if !CleanupApplies(Some(row)) then None
      else
        match CleanupDecision("", row, seen, device, devices)
        case None => None
        case Some(c) => Some(c.status)
  }

  /** The attempt is an answer that its device is told succeeded. */
  predicate Wins(row: Row, a: Attempt) {
    a.Answer? && AnswerGate(Some(row), a.userId).None?
    && AnswerDecision(a.seen, a.device, a.renegotiates).1.Answered?
  }

  datatype Stamped = Stamped(attempt: Attempt, now: int)

  function RowAfter(row: Row, attempts: seq<Stamped>, devices: UserDevices): Row {
    if attempts == [] then row
    else
      var before := RowAfter(row, attempts[..|attempts| - 1], devices);
      var last := attempts[|attempts| - 1];
      Transitioned(before, Mutation(before, last.attempt, devices), last.now)
  }

  /** The statuses the row went through. */
  function History(row: Row, attempts: seq<Stamped>, devices: UserDevices): seq<Status> {
    if attempts == [] then [row.status]
    else
      var before := RowAfter(row, attempts[..|attempts| - 1], devices);
      var after := RowAfter(row, attempts, devices);
      History(row, attempts[..|attempts| - 1], devices) + (if after.status == before.status then [] else [after.status])
  }

  function CountWins(row: Row, attempts: seq<Stamped>, devices: UserDevices): nat {
    if attempts == [] then 0
    else
      var before := RowAfter(row, attempts[..|attempts| - 1], devices);
      CountWins(row, attempts[..|attempts| - 1], devices) + (if Wins(before, attempts[|attempts| - 1].attempt) then 1 else 0)
  }

  function CountEndings(row: Row, attempts: seq<Stamped>, devices: UserDevices): nat {
    if attempts == [] then 0
    else
      var before := RowAfter(row, attempts[..|attempts| - 1], devices);
      var mutation := Mutation(before, attempts[|attempts| - 1].attempt, devices);
      CountEndings(row, attempts[..|attempts| - 1], devices)
      + (if mutation.Some? && Terminal(mutation.value) then 1 else 0)
  }

  predicate AllowedHistory(h: seq<Status>) {
    h == [Ringing] || h == [Ringing, Active] || h == [Ringing, Active, Ended]
    || (|h| == 2 && h[0] == Ringing && Terminal(h[1]))
  }

  /** A terminal row is never moved, an active one only to ended; a win is a move to active. */
  lemma MutationsAreForward(row: Row, a: Attempt, devices: UserDevices)
    ensures Terminal(row.status) ==> Mutation(row, a, devices).None?
    ensures row.status.Active? ==> Mutation(row, a, devices) in {None, Some(Ended)}
    ensures row.status.Ringing? ==> Mutation(row, a, devices) != Some(Ringing)
    ensures Wins(row, a) <==> Mutation(row, a, devices) == Some(Active)
  {
  }

  /** The session shows another device as the one that answered, or an offer not made to this one. */
  predicate NotForDevice(session: CallSession, device: DeviceId) {
    || (session.calleeDeviceId.Some? && session.calleeDeviceId.value != "" && session.calleeDeviceId.value != device)
    || device !in session.calleeDeviceIds
  }

  /** Which move each transition makes, whatever session it sees. */
  lemma MutationsAreExact(row: Row, a: Attempt, devices: UserDevices)
    ensures var direct := row.groupId.None? && row.calleeUserId.Some?;
            var live := row.status.Ringing? || row.status.Active?;
            Mutation(row, a, devices) ==
            match a
            case Answer(user, device, _, seen) =>
              if !direct || row.calleeUserId != Some(user) || !row.status.Ringing? then None
              else if seen.None? || seen.value.offer.None? then Some(Missed)
              else if NotForDevice(seen.value, device) then None
              else Some(Active)
            case Reject(user, device, seen) =>
              if direct && row.calleeUserId == Some(user) && row.status.Ringing?
                 && (seen.None? || seen.value.calleeDeviceIds == [] || device in seen.value.calleeDeviceIds)
              then Some(Rejected) else None
            case Hangup(user, seen) =>
              if !direct || !live || (row.callerUserId != user && row.calleeUserId != Some(user)) then None
              else if row.callerUserId == user && row.status.Ringing? then Some(Missed)
              else Some(Ended)
            case Cleanup(device, seen) =>
              if !direct || !live
                 || (seen.Some? && seen.value.callerDeviceId != device && seen.value.calleeDeviceId != Some(device))
              then None
              else Some(if row.status.Ringing? then Missed else Ended)
  {
  }

  /** What a winning answer leaves as the session, and whom it stops ringing, whatever session it sees. */
  lemma WinnerIsSelected(row: Row, a: Attempt)
    requires a.Answer? && Wins(row, a)
    ensures var session, r := a.seen.value, AnswerDecision(a.seen, a.device, a.renegotiates).1;
            && r.session == session.(calleeDeviceId := Some(a.device),
                                     calleeSupportsRenegotiation := r.session.calleeSupportsRenegotiation)
            && (r.session.calleeSupportsRenegotiation <==> a.renegotiates || session.calleeSupportsRenegotiation)
            && forall d :: d in r.siblingHangupDeviceIds <==> d in session.calleeDeviceIds && d != a.device
  {
    WithoutMembers(a.seen.value.calleeDeviceIds, a.device);
  }

  ghost predicate Consistent(row: Row, h: seq<Status>, wins: nat, endings: nat) {
    && AllowedHistory(h) && h[|h| - 1] == row.status
    && wins == (if Active in h then 1 else 0)
    && endings == (if Terminal(row.status) then 1 else 0)
    && (row.answeredAt.Some? <==> Active in h)
    && (row.endedAt.Some? <==> Terminal(row.status))
  }

  lemma AttemptStaysConsistent(row: Row, h: seq<Status>, wins: nat, endings: nat, a: Stamped, devices: UserDevices)
    requires Consistent(row, h, wins, endings)
    ensures var m := Mutation(row, a.attempt, devices);
            var after := Transitioned(row, m, a.now);
            Consistent(after, h + (if after.status == row.status then [] else [after.status]),
                       wins + (if Wins(row, a.attempt) then 1 else 0),
                       endings + (if m.Some? && Terminal(m.value) then 1 else 0))
  {
    MutationsAreForward(row, a.attempt, devices);
    assert h + [] == h;
  }

  /**
   * Over every interleaving of answers, rejections, hangups and disconnect cleanups: at most one
   * answer succeeds, at most one change to a terminal status commits, the history has one of the
   * allowed shapes, and the timestamps say exactly which statuses were reached.
   */
  lemma {:induction false} OneWinnerPerCall(row: Row, attempts: seq<Stamped>, devices: UserDevices)
    requires row.status.Ringing? && row.answeredAt.None? && row.endedAt.None?
    ensures Consistent(RowAfter(row, attempts, devices), History(row, attempts, devices),
                       CountWins(row, attempts, devices), CountEndings(row, attempts, devices))
  {
    if attempts != [] {
      var before, last := attempts[..|attempts| - 1], attempts[|attempts| - 1];
      OneWinnerPerCall(row, before, devices);
      AttemptStaysConsistent(RowAfter(row, before, devices), History(row, before, devices),
                             CountWins(row, before, devices), CountEndings(row, before, devices), last, devices);
    }
  }

  /** When the row first entered one of the statuses, if it did. */
  function EnteredAt(row: Row, attempts: seq<Stamped>, devices: UserDevices, statuses: set<Status>): Option<int> {
    if attempts == [] then None
    else
      var prior := EnteredAt(row, attempts[..|attempts| - 1], devices, statuses);
      var before, after := RowAfter(row, attempts[..|attempts| - 1], devices), RowAfter(row, attempts, devices);
      if prior.Some? then prior
      else if after.status != before.status && after.status in statuses then Some(attempts[|attempts| - 1].now)
      else None
  }

  /**
   * The timestamps say when the call was first answered and first over, one that was there is kept, and
   * nothing else of a row ever changes.
   */
  lemma {:induction false} TimestampsAreExact(row: Row, attempts: seq<Stamped>, devices: UserDevices)
    ensures var after := RowAfter(row, attempts, devices);
            var answered := EnteredAt(row, attempts, devices, {Active});
            var over := EnteredAt(row, attempts, devices, {Ended, Missed, Rejected});
            && after.answeredAt == (if row.answeredAt.Some? then row.answeredAt else answered)
            && after.endedAt == (if row.endedAt.Some? then row.endedAt else over)
            && after == row.(status := after.status, answeredAt := after.answeredAt, endedAt := after.endedAt)
  {
    hide Mutation;
    if attempts != [] {
      TimestampsAreExact(row, attempts[..|attempts| - 1], devices);
    }
  }

  // ---- the operations, each taken atomically ----

  datatype World = World(rows: map<CallId, Row>, sessions: Simple)

  /** What the operations read from outside: the clock, the TTL and each user's connected devices. */
  datatype Outside = Outside(now: int, ttlMs: nat, devices: UserDevices)

  function FindRow(w: World, c: CallId): Option<Row> {
    if c in w.rows then Some(w.rows[c]) else None
  }

  function Cleared(w: World, c: CallId): World {
    w.(sessions := w.sessions - {c})
  }

  function LiveSession(w: World, c: CallId, now: int): Option<CallSession> {
    if c in w.sessions && w.sessions[c].expiresAt > now then Some(w.sessions[c].value) else None
  }

  function CompatibleSession(w: World, c: CallId, row: Row, now: int): Option<CallSession> {
    var s := LiveSession(w, c, now);
    if s.Some? && Compatible(row, s.value) then s else None
  }

  /** Looking for a compatible session drops one that is not. */
  function Looked(w: World, c: CallId, row: Row, now: int): World {
    var s := LiveSession(w, c, now);
    if s.Some? && !Compatible(row, s.value) then Cleared(w, c) else w
  }

  function Moved(w: World, c: CallId, mutation: Option<Status>, now: int): World {
    if c in w.rows && mutation.Some? then w.(rows := w.rows[c := Transitioned(w.rows[c], mutation, now)]) else w
  }

  function StoreOffer(w: World, c: CallId, caller: string, callerDevice: DeviceId, callee: string, renegotiates: bool,
                      offer: Offer, o: Outside): (World, Result<CallSession, Reason>)
  {
    var row := FindRow(w, c);
    if !IsDirect(row) then (Cleared(w, c), Failure(NotFound))
    else if row.value.callerUserId != caller || row.value.calleeUserId != Some(callee)
    then (Cleared(w, c), Failure(Forbidden))
    else if !row.value.status.Ringing? || row.value.callType != offer.callType
    then (if Terminal(row.value.status) then Cleared(w, c) else w, Failure(StateConflict))
    else
      var session := CallSession(caller, callerDevice, callee, None, Unique(o.devices(callee)), renegotiates, false,
                                 Some(offer));
      (w.(sessions := w.sessions[c := Cached(session, o.now + o.ttlMs)]), Success(session))
  }

  /** What follows the transition of an answer. */
  function AfterAnswer(w: World, c: CallId, r: AnswerResult, o: Outside): World {
    match r
    case Answered(session, _) => w.(sessions := w.sessions[c := Cached(session, o.now + o.ttlMs)])
    case AnswerFailed(reason) => if reason.TransportMissing? then Cleared(w, c) else w
  }

  function AcceptAnswer(w: World, c: CallId, user: string, device: DeviceId, renegotiates: bool, o: Outside)
    : (World, AnswerResult)
  {
    var row := FindRow(w, c);
    var gate := AnswerGate(row, user);
    if gate.Some? then (w, AnswerFailed(gate.value))
    else
      var (mutation, r) := AnswerDecision(CompatibleSession(w, c, row.value, o.now), device, renegotiates);
      (AfterAnswer(Moved(Looked(w, c, row.value, o.now), c, mutation, o.now), c, r, o), r)
  }

  function RejectCall(w: World, c: CallId, user: string, device: DeviceId, o: Outside): (World, RejectResult) {
    var row := FindRow(w, c);
    var gate := RejectGate(row, user);
    if gate.Some? then (if gate.value.AlreadyRejected? then Cleared(w, c) else w, gate.value)
    else
      var (mutation, r) := RejectDecision(row.value, CompatibleSession(w, c, row.value, o.now), device, o.devices);
      var w1 := Moved(Looked(w, c, row.value, o.now), c, mutation, o.now);
      (if r.CallRejected? then Cleared(w1, c) else w1, r)
  }

  function HangupCall(w: World, c: CallId, user: string, o: Outside): (World, HangupResult) {
    var row := FindRow(w, c);
    var gate := HangupGate(row, user);
    if gate.Some? then (if gate.value.AlreadyEnded? then Cleared(w, c) else w, gate.value)
    else
      var (mutation, r) := HangupDecision(row.value, CompatibleSession(w, c, row.value, o.now),
                                          RoleOfUser(row.value, user).value, o.devices);
      (Cleared(Moved(Looked(w, c, row.value, o.now), c, mutation, o.now), c), r)
  }

  /** One call of a disconnected device. */
  function CleanupCall(w: World, c: CallId, device: DeviceId, o: Outside): (World, Option<CleanedUp>) {
    var row := FindRow(w, c);
    if !CleanupApplies(row) then
      (if row.None? || Terminal(row.value.status) then Cleared(w, c) else w, None)
    else
      var r := CleanupDecision(c, row.value, CompatibleSession(w, c, row.value, o.now), device, o.devices);
      var w1 := Looked(w, c, row.value, o.now);
      if r.None? then (w1, None) else (Cleared(Moved(w1, c, Some(r.value.status), o.now), c), r)
  }

  function CleanupCalls(w: World, ids: seq<CallId>, device: DeviceId, o: Outside): (World, seq<CleanedUp>) {
    if ids == [] then (w, [])
    else
      var (w1, done) := CleanupCalls(w, ids[..|ids| - 1], device, o);
      var (w2, r) := CleanupCall(w1, ids[|ids| - 1], device, o);
      (w2, if r.Some? then done + [r.value] else done)
  }

  datatype Replay = Replay(callId: CallId, callerDeviceId: DeviceId, calleeDeviceId: DeviceId, offer: Offer)

  function ReplayCall(w: World, c: CallId, device: DeviceId, now: int): (World, Option<Replay>) {
    var row := FindRow(w, c);
    if !IsDirect(row) || !row.value.status.Ringing? then (Cleared(w, c), None)
    else
      var w1 := Looked(w, c, row.value, now);
      var s := CompatibleSession(w, c, row.value, now);
      if s.None? || s.value.offer.None? then (w1, None)
      else if Truthy(s.value.calleeDeviceId) then (Cleared(w1, c), None)
      else if device !in s.value.calleeDeviceIds || s.value.callerDeviceId == device then (w1, None)
      else (w1, Some(Replay(c, s.value.callerDeviceId, device, s.value.offer.value)))
  }

  function ReplayCalls(w: World, ids: seq<CallId>, device: DeviceId, now: int): (World, seq<Replay>) {
    if ids == [] then (w, [])
    else
      var (w1, done) := ReplayCalls(w, ids[..|ids| - 1], device, now);
      var (w2, r) := ReplayCall(w1, ids[|ids| - 1], device, now);
      (w2, if r.Some? then done + [r.value] else done)
  }

  function LoadAuthoritative(w: World, c: CallId, allowed: set<Status>, now: int): (World, Result<CallSession, Reason>) {
    var row := FindRow(w, c);
    if !IsDirect(row) then (Cleared(w, c), Failure(NotFound))
    else if row.value.status !in allowed
    then (if Terminal(row.value.status) then Cleared(w, c) else w, Failure(StateConflict))
    else
      match CompatibleSession(w, c, row.value, now)
      case Some(s) => (w, Success(s))
      case None => (Looked(w, c, row.value, now), Failure(TransportMissing))
  }
}
