/**
 * What calls on a device's own sender key can rely on, however they interleave.
 */
module LocalSenderKeyRuns {
  import opened Wrappers
  import opened Symbolic
  import opened SenderKey
  import opened SenderKeyChain
  import opened SenderKeyLock
  import opened LocalSenderKeys
  import Remote = SenderKeyRecords

  // Each call returns an envelope of its own, in the order of the requests; a distribution serves one
  // member set and, once replaced, issues nothing more; and the device can read back all it sent.

  // ---- what calls return ----

  /** The envelope call `t` returned, or is about to return. */
  function Returned(s: System, t: nat): Option<Message> {
    if t < |s.works| && s.works[t].progress.Returning? then s.works[t].progress.envelope else None
  }

  /** It was issued, for the group and device the call was about. */
  ghost predicate ReturnsIssued(s: System) {
    forall t: nat :: Returned(s, t).Some? ==>
      var m := Returned(s, t).value;
      && m in s.issued && m.distributionId in s.seeds
      && t < |s.mutex.claims| && s.seeds[m.distributionId].owner == s.mutex.claims[t].key
  }

  /** Of two calls that returned envelopes of one distribution, the earlier request has the lower index. */
  ghost predicate ReturnsInOrder(s: System) {
    forall t: nat, u: nat :: (
      && t < u && Returned(s, t).Some? && Returned(s, u).Some?
      && Returned(s, t).value.distributionId == Returned(s, u).value.distributionId)
      ==> Returned(s, t).value.messageId < Returned(s, u).value.messageId
  }

  ghost predicate InOrder(s: System) {
    ReturnsIssued(s) && ReturnsInOrder(s)
  }

  /** Only a commit gives a call something to return. */
  lemma OnlyCommitReturns(s: System, m: Move, t: nat)
    requires Possible(s, m) && |s.works| == |s.mutex.claims| && Returned(Next(s, m), t) != Returned(s, t)
    ensures m.Commit? && t == m.ticket && Returned(s, t).None?
    ensures Returned(Next(s, m), t) == Prepared(s, t)
  {
    hide EnvelopeOf;
    hide Changed;
    hide Apply;
    hide Remote.Step;
    hide WithMirror;
  }

  lemma ClaimsKeepKeys(s: System, m: Move, t: nat)
    requires Possible(s, m) && t < |s.mutex.claims|
    ensures t < |Next(s, m).mutex.claims| && Next(s, m).mutex.claims[t].key == s.mutex.claims[t].key
  {
    hide EnvelopeOf;
    hide Changed;
    hide Remote.Step;
    hide WithMirror;
  }

  lemma MoveExtends(s: System, m: Move)
    requires Possible(s, m)
    ensures Extends(s.seeds, Next(s, m).seeds) && s.issued <= Next(s, m).issued
  {
    hide EnvelopeOf;
    hide Changed;
    hide Remote.Step;
    hide WithMirror;
    hide Apply;
  }

  /** What a commit is about to issue. */
  function Prepared(s: System, t: nat): Option<Message> {
    if t < |s.works| && s.works[t].progress.Loaded? && s.works[t].progress.found.Some?
    then EnvelopeOf(s.works[t].progress.found.value, s.works[t].request)
    else None
  }

  /** A commit issues the message of its own record's distribution and index. */
  lemma CommitIssuesOnOwnChain(start: System, s: System, t: nat, supply: Supply)
    requires Sound(start, s) && Possible(s, Commit(t, supply)) && Prepared(s, t).Some?
    ensures var key, m := s.mutex.claims[t].key, Prepared(s, t).value;
            && key in s.storage
            && m.distributionId == s.storage[key].distributionId && m.messageId == s.storage[key].state.chainId
            && m.distributionId in s.seeds && s.seeds[m.distributionId].owner == key
            && Next(s, Commit(t, supply)).issued == s.issued + [m]
  {
    hide Queued;
    hide StoredUpTo;
    hide IssuedInOrder;
    hide AllOnChain;
    var key, r := s.mutex.claims[t].key, s.works[t].progress.found.value;
    assert Stored(s.storage, key) == Some(r) && Seeded(key, r, s.seeds);
  }

  /** Every message issued so far lies below the stored index of its distribution. */
  lemma IssuedBelowStored(start: System, s: System, key: LockKey, m: Message)
    requires Sound(start, s) && key in s.storage && m in s.issued && m.distributionId == s.storage[key].distributionId
    ensures m.messageId < s.storage[key].state.chainId
  {
    hide FirstId;
    hide InUse;
    hide MessagesOf;
    hide Queued;
    hide OnItsChain;
    var i :| 0 <= i < |s.issued| && s.issued[i] == m;
    StandsAtPosition(s.issued, i);
    assert IdsFrom(MessagesOf(s.issued, m.distributionId), FirstId(start, m.distributionId));
  }

  lemma MoveKeepsReturnsIssued(start: System, s: System, m: Move)
    requires Sound(start, s) && Possible(s, m) && ReturnsIssued(s)
    ensures ReturnsIssued(Next(s, m))
  {
    hide Returned;
    hide EnvelopeOf;
    hide Next;
    hide Possible;
    var s' := Next(s, m);
    forall t: nat | Returned(s', t).Some?
      ensures var r := Returned(s', t).value;
              && r in s'.issued && r.distributionId in s'.seeds
              && t < |s'.mutex.claims| && s'.seeds[r.distributionId].owner == s'.mutex.claims[t].key
    {
      CommitReturnsIssued(start, s, m, t);
    }
  }

  lemma CommitReturnsIssued(start: System, s: System, m: Move, t: nat)
    requires Sound(start, s) && Possible(s, m) && ReturnsIssued(s) && Returned(Next(s, m), t).Some?
    ensures var s', r := Next(s, m), Returned(Next(s, m), t).value;
            && r in s'.issued && r.distributionId in s'.seeds
            && t < |s'.mutex.claims| && s'.seeds[r.distributionId].owner == s'.mutex.claims[t].key
  {
    hide Returned;
    hide EnvelopeOf;
    hide Queued;
    hide StoredUpTo;
    hide IssuedInOrder;
    hide AllOnChain;
    hide StorageSeeded;
    hide Changed;
    hide WithMirror;
    hide Remote.Step;
    if Returned(Next(s, m), t) != Returned(s, t) {
      OnlyCommitReturns(s, m, t);
      CommitIssuesOnOwnChain(start, s, t, m.supply);
    }
    ClaimsKeepKeys(s, m, t);
    MoveExtends(s, m);
  }

  /** The call that returns later asked later: on its own key it could not start before. */
  lemma LaterReturnIsAhead(start: System, s: System, m: Move, t: nat, u: nat)
    requires Sound(start, s) && Possible(s, m) && ReturnsIssued(s) && t < u
    requires Returned(Next(s, m), t) != Returned(s, t) && Returned(Next(s, m), t).Some? && Returned(s, u).Some?
    ensures Returned(Next(s, m), t).value.distributionId != Returned(s, u).value.distributionId
  {
    hide Next;
    hide EnvelopeOf;
    OnlyCommitReturns(s, m, t);
    CommitIssuesOnOwnChain(start, s, t, m.supply);
    if s.mutex.claims[u].key == s.mutex.claims[t].key {
      OneHolderInRequestOrder(s.mutex, u, t);
    }
  }

  lemma MoveKeepsReturnsInOrder(start: System, s: System, m: Move)
    requires Sound(start, s) && Possible(s, m) && InOrder(s)
    ensures ReturnsInOrder(Next(s, m))
  {
    hide Returned;
    hide Next;
    hide Possible;
    hide Sound;
    hide ReturnsIssued;
    hide Prepared;
    var s' := Next(s, m);
    forall t: nat, u: nat |
      && t < u && Returned(s', t).Some? && Returned(s', u).Some?
      && Returned(s', t).value.distributionId == Returned(s', u).value.distributionId
      ensures Returned(s', t).value.messageId < Returned(s', u).value.messageId
    {
      if Returned(s', u) != Returned(s, u) {
        NewReturnIsAbove(start, s, m, t, u);
      } else if Returned(s', t) != Returned(s, t) {
        LaterReturnIsAhead(start, s, m, t, u);
      }
    }
  }

  lemma NewReturnIsAbove(start: System, s: System, m: Move, t: nat, u: nat)
    requires Sound(start, s) && Possible(s, m) && ReturnsIssued(s) && t != u
    requires Returned(Next(s, m), u) != Returned(s, u) && Returned(Next(s, m), u).Some? && Returned(Next(s, m), t).Some?
    requires Returned(Next(s, m), t).value.distributionId == Returned(Next(s, m), u).value.distributionId
    ensures Returned(Next(s, m), t).value.messageId < Returned(Next(s, m), u).value.messageId
  {
    hide Next;
    hide EnvelopeOf;
    hide StoredUpTo;
    hide IssuedInOrder;
    hide Queued;
    OnlyCommitReturns(s, m, u);
    if Returned(Next(s, m), t) != Returned(s, t) {
      OnlyCommitReturns(s, m, t);
    }
    CommitIssuesOnOwnChain(start, s, u, m.supply);
    IssuedBelowStored(start, s, s.mutex.claims[u].key, Returned(s, t).value);
  }

  lemma NothingReturned(start: System)
    requires Starting(start)
    ensures InOrder(start)
  {
  }

  /**
   * Every envelope a call returns was issued, its record saved first, on a distribution of the call's
   * own group and device; and of two calls that return envelopes of one distribution the one that
   * asked first has the lower index. So no two calls return the same envelope.
   */
  lemma {:induction false} CallsReturnInRequestOrder(start: System, moves: seq<Move>)
    requires Starting(start) && RunMoves(start, moves).Some?
    ensures InOrder(RunMoves(start, moves).value)
  {
    hide Returned;
    hide Possible;
    hide Next;
    hide Sound;
    if moves == [] {
      NothingReturned(start);
    } else {
      CallsReturnInRequestOrder(start, moves[..|moves| - 1]);
      RunsStaySound(start, moves[..|moves| - 1]);
      var w, m := RunMoves(start, moves[..|moves| - 1]).value, moves[|moves| - 1];
      MoveKeepsReturnsIssued(start, w, m);
      MoveKeepsReturnsInOrder(start, w, m);
    }
  }

  // ---- a distribution serves one member set, and issues nothing once replaced ----

  /** `after` is the same distribution further on, with the same stamp; or a distribution not yet made. */
  ghost predicate MovedOn(before: LocalRecord, after: LocalRecord, seeds: Seeds) {
    if after.distributionId == before.distributionId then
      && before.state.chainId <= after.state.chainId
      && before.distributedToDeviceIds <= after.distributedToDeviceIds
      && (before.memberDeviceFingerprint.Some? ==> after.memberDeviceFingerprint == before.memberDeviceFingerprint)
    else
      after.distributionId !in seeds
  }

  lemma ChangeMovesOn(key: LockKey, r: LocalRecord, request: Request, supply: Supply, seeds: Seeds)
    requires Seeded(key, r, seeds) && supply.distributionId !in seeds
    ensures MovedOn(r, Changed(r, request, supply), seeds)
  {
  }

  lemma MoveMovesOn(start: System, s: System, m: Move, key: LockKey)
    requires Sound(start, s) && Possible(s, m) && key in s.storage
    ensures key in Next(s, m).storage && MovedOn(s.storage[key], Next(s, m).storage[key], s.seeds)
  {
    hide Changed;
    hide EnvelopeOf;
    hide Queued;
    hide StoredUpTo;
    hide IssuedInOrder;
    hide AllOnChain;
    hide WithMirror;
    hide Remote.Step;
    if m.Commit? {
      assert Seeded(s.mutex.claims[m.ticket].key, s.works[m.ticket].progress.found.value, s.seeds);
      ChangeMovesOn(s.mutex.claims[m.ticket].key, s.works[m.ticket].progress.found.value, s.works[m.ticket].request,
                    m.supply, s.seeds);
    }
  }

  lemma MovedOnTwice(a: LocalRecord, b: LocalRecord, c: LocalRecord, before: Seeds, after: Seeds)
    requires MovedOn(a, b, before) && MovedOn(b, c, after) && Extends(before, after) && a.distributionId in before
    ensures MovedOn(a, c, before)
  {
  }

  /**
   * Between any two states of a run a stored record stays stored. As long as it stays on its
   * distribution, its index and recipients only grow and its member set, once stamped, is the same: a
   * distribution serves one member set. It never goes back to a distribution it left.
   */
  lemma {:induction false} DistributionsServeOneMemberSet(start: System, s: System, more: seq<Move>, key: LockKey)
    requires Sound(start, s) && RunMoves(s, more).Some? && key in s.storage
    ensures Extends(s.seeds, RunMoves(s, more).value.seeds)
    ensures key in RunMoves(s, more).value.storage
    ensures MovedOn(s.storage[key], RunMoves(s, more).value.storage[key], s.seeds)
  {
    hide Sound;
    hide Next;
    hide Possible;
    hide MovedOn;
    StoredIsSeeded(start, s, key);
    if more == [] {
      StaysWhereItIs(s.storage[key], s.seeds);
    } else {
      var before, m := more[..|more| - 1], more[|more| - 1];
      var w := RunMoves(s, before).value;
      DistributionsServeOneMemberSet(start, s, before, key);
      LaterStaysSound(start, s, before);
      MoveMovesOn(start, w, m, key);
      MoveExtends(w, m);
      MovedOnTwice(s.storage[key], w.storage[key], Next(w, m).storage[key], s.seeds, w.seeds);
    }
  }

  lemma StaysWhereItIs(r: LocalRecord, seeds: Seeds)
    ensures MovedOn(r, r, seeds)
  {
  }

  lemma StoredIsSeeded(start: System, s: System, key: LockKey)
    requires Sound(start, s) && key in s.storage
    ensures Seeded(key, s.storage[key], s.seeds)
  {
  }

  /** The distribution was made, and its owner's record is no longer on it. */
  ghost predicate Retired(s: System, d: string) {
    d in s.seeds && (s.seeds[d].owner in s.storage ==> s.storage[s.seeds[d].owner].distributionId != d)
  }

  lemma MoveKeepsRetired(start: System, s: System, m: Move, d: string)
    requires Sound(start, s) && Possible(s, m) && Retired(s, d)
    ensures Retired(Next(s, m), d)
  {
    hide Changed;
    hide EnvelopeOf;
    hide Queued;
    hide StoredUpTo;
    hide IssuedInOrder;
    hide AllOnChain;
    hide WithMirror;
    hide Remote.Step;
    var owner := s.seeds[d].owner;
    MoveExtends(s, m);
    if owner in s.storage {
      MoveMovesOn(start, s, m, owner);
    }
  }

  lemma MoveIssuesNothingRetired(start: System, s: System, m: Move, d: string)
    requires Sound(start, s) && Possible(s, m) && Retired(s, d)
    ensures MessagesOf(Next(s, m).issued, d) == MessagesOf(s.issued, d)
  {
    hide Changed;
    hide EnvelopeOf;
    hide MessagesOf;
    hide Sound;
    hide WithMirror;
    hide Remote.Step;
    if m.Commit? && Prepared(s, m.ticket).Some? {
      CommitIssuesOnOwnChain(start, s, m.ticket, m.supply);
      MessagesAfterIssue(s.issued, Prepared(s, m.ticket).value, d);
    }
  }

  lemma {:induction false} RetiredIssuesNothing(start: System, s: System, more: seq<Move>, d: string)
    requires Sound(start, s) && RunMoves(s, more).Some? && Retired(s, d)
    ensures Retired(RunMoves(s, more).value, d)
    ensures MessagesOf(RunMoves(s, more).value.issued, d) == MessagesOf(s.issued, d)
  {
    hide Sound;
    hide Next;
    hide Possible;
    hide Retired;
    hide MessagesOf;
    if more != [] {
      RetiredIssuesNothing(start, s, more[..|more| - 1], d);
      LaterStaysSound(start, s, more[..|more| - 1]);
      MoveKeepsRetired(start, RunMoves(s, more[..|more| - 1]).value, more[|more| - 1], d);
      MoveIssuesNothingRetired(start, RunMoves(s, more[..|more| - 1]).value, more[|more| - 1], d);
    }
  }

  /**
   * When a section for a member set finds a record stamped with another, its save ends the old
   * distribution: nothing is issued on it from then on, by whatever calls were waiting or come later.
   */
  lemma RotationEndsTheDistribution(start: System, moves: seq<Move>, t: nat, supply: Supply, more: seq<Move>)
    requires Starting(start) && RunMoves(start, moves).Some?
    requires var s := RunMoves(start, moves).value;
             && Possible(s, Commit(t, supply)) && s.works[t].request.EnsureForMembers?
             && StampedWithOthers(s.works[t].progress.found.value, s.works[t].request.memberDeviceIds)
             && RunMoves(Next(s, Commit(t, supply)), more).Some?
    ensures var s := RunMoves(start, moves).value;
            var d := s.works[t].progress.found.value.distributionId;
            MessagesOf(RunMoves(Next(s, Commit(t, supply)), more).value.issued, d) == MessagesOf(s.issued, d)
  {
    hide MessagesOf;
    hide StoredUpTo;
    hide IssuedInOrder;
    hide AllOnChain;
    hide Queued;
    var s := RunMoves(start, moves).value;
    var s', r := Next(s, Commit(t, supply)), s.works[t].progress.found.value;
    RunsStaySound(start, moves);
    MoveKeepsSound(start, s, Commit(t, supply));
    assert Stored(s.storage, s.mutex.claims[t].key) == Some(r) && Seeded(s.mutex.claims[t].key, r, s.seeds);
    RotationFollowsMembership(r, s.works[t].request.memberDeviceIds, supply);
    assert Retired(s', r.distributionId);
    RetiredIssuesNothing(start, s', more, r.distributionId);
  }

  // ---- the device reads back what it sent ----

  /** The mirror of a distribution, if there is one, starts no later than the distribution's first index. */
  ghost predicate MirrorStands(start: System, s: System, d: string)
    requires d in s.seeds
  {
    var key := MirrorKey(s.seeds[d].owner, d);
    key in s.remote.records ==>
      var initial := s.remote.records[key].initialState;
      && initial.Some?
      && initial.value.chainId <= FirstId(start, d)
      && initial.value.chainKey == Advance(Random(s.seeds[d].seed), initial.value.chainId)
      && initial.value.signingPublicKey == s.seeds[d].signer
  }

  ghost predicate MirrorsStand(start: System, s: System) {
    forall d :: d in s.seeds && InUse(start, d) ==> MirrorStands(start, s, d)
  }

  ghost predicate IssuedAreMirrored(start: System, s: System) {
    forall d :: d in s.seeds && MessagesOf(s.issued, d) != [] ==>
      InUse(start, d) && MirrorKey(s.seeds[d].owner, d) in s.remote.records
  }

  ghost predicate ReadyAreMirrored(s: System) {
    forall t: nat :: Holder(s, t) && s.works[t].progress.Loaded? && s.works[t].progress.mirrored ==>
      var found := s.works[t].progress.found;
      found.Some? && MirrorKey(s.mutex.claims[t].key, found.value.distributionId) in s.remote.records
  }

  ghost predicate Mirrored(start: System, s: System) {
    MirrorsStand(start, s) && IssuedAreMirrored(start, s) && ReadyAreMirrored(s)
  }

  /** Nothing takes a remote record away or changes its initial state; only imports and mirrors add one. */
  lemma RemoteStepKeepsInitial(w: Remote.World, op: Remote.Op, key: Remote.StorageKey)
    ensures key in w.records ==> key in Remote.Step(w, op).records
    ensures key in w.records && w.records[key].initialState.Some? ==>
              Remote.Step(w, op).records[key].initialState == w.records[key].initialState
    ensures key in Remote.Step(w, op).records && !((op.Import? || op.Mirror?) && op.key == key) ==> key in w.records
  {
  }

  lemma OtherKeepsMirrored(start: System, s: System, op: Remote.Op)
    requires Mirrored(start, s) && Possible(s, Other(op))
    ensures Mirrored(start, Next(s, Other(op)))
  {
    hide Remote.Step;
    hide FirstId;
    hide InUse;
    hide MessagesOf;
    var s' := Next(s, Other(op));
    forall d | d in s'.seeds && InUse(start, d)
      ensures MirrorStands(start, s', d)
    {
      assert MirrorStands(start, s, d);
      RemoteStepKeepsInitial(s.remote, op, MirrorKey(s.seeds[d].owner, d));
    }
    forall key | key in s.remote.records
      ensures key in s'.remote.records
    {
      RemoteStepKeepsInitial(s.remote, op, key);
    }
  }

  /** A first mirror is taken before anything was issued, so it stands at the first index. */
  lemma NewMirrorStands(start: System, s: System, t: nat)
    requires Sound(start, s) && Mirrored(start, s) && Possible(s, Mirror(t))
    ensures var d := ToMirror(s, t).value.distributionId;
            d in s.seeds && s.seeds[d].owner == s.mutex.claims[t].key && MirrorStands(start, Next(s, Mirror(t)), d)
  {
    hide FirstId;
    hide MessagesOf;
    hide IssuedInOrder;
    hide AllOnChain;
    hide Queued;
    var key, r := s.mutex.claims[t].key, ToMirror(s, t).value;
    assert Stored(s.storage, key) == Some(r) && Seeded(key, r, s.seeds);
  }

  lemma MirrorKeepsMirrored(start: System, s: System, t: nat)
    requires Sound(start, s) && Mirrored(start, s) && Possible(s, Mirror(t))
    ensures Mirrored(start, Next(s, Mirror(t)))
  {
    hide FirstId;
    hide InUse;
    hide MessagesOf;
    hide Sound;
    var s' := Next(s, Mirror(t));
    NewMirrorStands(start, s, t);
    forall d | d in s'.seeds && InUse(start, d)
      ensures MirrorStands(start, s', d)
    {
      assert MirrorStands(start, s, d);
    }
  }

  lemma CommitKeepsMirrored(start: System, s: System, t: nat, supply: Supply)
    requires Sound(start, s) && Mirrored(start, s) && Possible(s, Commit(t, supply))
    ensures Mirrored(start, Next(s, Commit(t, supply)))
  {
    hide StoredUpTo;
    hide StorageSeeded;
    hide WithMirror;
    hide Remote.Step;
    hide FirstId;
    hide InUse;
    hide MessagesOf;
    hide Changed;
    hide EnvelopeOf;
    hide IssuedInOrder;
    hide AllOnChain;
    hide Queued;
    var s' := Next(s, Commit(t, supply));
    forall d | d in s'.seeds && InUse(start, d)
      ensures MirrorStands(start, s', d)
    {
      assert d in s.seeds ==> MirrorStands(start, s, d);
    }
    forall d | d in s'.seeds && MessagesOf(s'.issued, d) != []
      ensures InUse(start, d) && MirrorKey(s'.seeds[d].owner, d) in s'.remote.records
    {
      CommitIssuesMirrored(start, s, t, supply, d);
    }
  }

  lemma CommitIssuesMirrored(start: System, s: System, t: nat, supply: Supply, d: string)
    requires Sound(start, s) && Mirrored(start, s) && Possible(s, Commit(t, supply))
    requires MessagesOf(Next(s, Commit(t, supply)).issued, d) != []
    ensures d in s.seeds && InUse(start, d) && MirrorKey(s.seeds[d].owner, d) in s.remote.records
  {
    hide FirstId;
    hide InUse;
    hide MessagesOf;
    hide Changed;
    hide EnvelopeOf;
    hide AllOnChain;
    hide Queued;
    if MessagesOf(s.issued, d) != [] {
      assert d in s.seeds;
    } else {
      assert Prepared(s, t).Some?;
      CommitIssuesOnOwnChain(start, s, t, supply);
      MessagesAfterIssue(s.issued, Prepared(s, t).value, d);
    }
  }

  lemma LockMoveKeepsMirrored(start: System, s: System, m: Move)
    requires Sound(start, s) && Mirrored(start, s) && Possible(s, m)
    requires m.Call? || m.Enter? || m.Load? || m.Create? || m.Leave? || m.Throw?
    ensures Mirrored(start, Next(s, m))
  {
    hide FirstId;
    hide InUse;
    hide MessagesOf;
    hide StoredUpTo;
    hide AllOnChain;
    hide Queued;
    var s' := Next(s, m);
    assert m.Create? ==> MessagesOf(s.issued, m.supply.distributionId) == [];
    forall d | d in s'.seeds && InUse(start, d)
      ensures MirrorStands(start, s', d)
    {
      assert d in s.seeds ==> MirrorStands(start, s, d);
    }
  }

  lemma {:induction false} RunsStayMirrored(start: System, moves: seq<Move>)
    requires Starting(start) && MirrorsStand(start, start) && RunMoves(start, moves).Some?
    ensures Mirrored(start, RunMoves(start, moves).value)
  {
    hide Sound;
    hide Next;
    hide Possible;
    if moves != [] {
      RunsStayMirrored(start, moves[..|moves| - 1]);
      RunsStaySound(start, moves[..|moves| - 1]);
      var w := RunMoves(start, moves[..|moves| - 1]).value;
      match moves[|moves| - 1]
      case Mirror(t) => MirrorKeepsMirrored(start, w, t);
      case Commit(t, supply) => CommitKeepsMirrored(start, w, t, supply);
      case Other(op) => OtherKeepsMirrored(start, w, op);
      case m => LockMoveKeepsMirrored(start, w, m);
    }
  }

  function PlainOf(m: Message): Plaintext {
    if m.ciphertext.Sealed? then m.ciphertext.plain else ""
  }

  /** What a reader of all the messages is given. */
  function Contents(parse: Remote.Parser, ms: seq<Message>): seq<Remote.DecryptResult> {
    if ms == [] then []
    else
      var content := parse(PlainOf(ms[0]));
      [if content.Some? then Remote.Content(content.value) else Remote.InvalidPayload] + Contents(parse, ms[1..])
  }

  /** The messages are those of the chain from index `first` on, in order. */
  ghost predicate InOrderFrom(o: Origin, first: nat, ms: seq<Message>) {
    o.start <= first && forall i :: 0 <= i < |ms| ==> ms[i] == MessageAt(o, first + i, PlainOf(ms[i]))
  }

  ghost predicate Reads(o: Origin, v: Chain, first: nat) {
    && o.start <= v.chainId <= first
    && v.chainKey == Advance(o.base, v.chainId - o.start) && v.signingPublicKey == o.signer
    && Behind(v) && |v.skipped| + (first - v.chainId) <= MAX_SENDER_KEY_SKIP
  }

  lemma NextOpens(o: Origin, v: Chain, first: nat, plain: Plaintext)
    requires Reads(o, v, first) && first <= MAX_SAFE_INTEGER
    ensures Decrypt(v, MessageAt(o, first, plain)) == Success((Moved(v, o.distributionId, first), plain))
  {
    hide Cache;
    AdvanceAdd(o.base, v.chainId - o.start, first - v.chainId);
    assert SkipKey(o.distributionId, first) !in v.skipped;
  }

  lemma NextReads(o: Origin, v: Chain, first: nat, plain: Plaintext)
    requires Reads(o, v, first) && first <= MAX_SAFE_INTEGER
    ensures Decrypt(v, MessageAt(o, first, plain)).Success? && Decrypt(v, MessageAt(o, first, plain)).value.1 == plain
    ensures Reads(o, Decrypt(v, MessageAt(o, first, plain)).value.0, first + 1)
  {
    hide Cache;
    hide Decrypt;
    hide MessageAt;
    NextOpens(o, v, first, plain);
    AdvanceAdd(o.base, v.chainId - o.start, first + 1 - v.chainId);
    DecryptKeepsBehind(v, MessageAt(o, first, plain));
    CacheSize(v.skipped, v.chainKey, o.distributionId, v.chainId, first);
  }

  lemma {:induction false} ReplayReadsAll(parse: Remote.Parser, o: Origin, v: Chain, first: nat, ms: seq<Message>)
    requires Reads(o, v, first) && InOrderFrom(o, first, ms) && first + |ms| <= MAX_SAFE_INTEGER + 1
    ensures Remote.ReplayAlone(parse, v, ms) == Contents(parse, ms)
    decreases |ms|
  {
    hide Decrypt;
    hide MessageAt;
    hide Reads;
    if ms != [] {
      NextReads(o, v, first, PlainOf(ms[0]));
      assert ms[0] == MessageAt(o, first + 0, PlainOf(ms[0]));
      forall i | 0 <= i < |ms[1..]|
        ensures ms[1..][i] == MessageAt(o, first + 1 + i, PlainOf(ms[1..][i]))
      {
        assert ms[i + 1] == MessageAt(o, first + (i + 1), PlainOf(ms[i + 1]));
      }
      ReplayReadsAll(parse, o, Remote.Next(v, ms[0]), first + 1, ms[1..]);
    }
  }

  lemma TooFarAhead(parse: Remote.Parser, p: Remote.Point, ms: seq<Message>)
    requires ms != [] && ms[0].messageId - p.chainId > MAX_SENDER_KEY_SKIP
    ensures Remote.ReplayAlone(parse, Remote.Deserialized(p), ms)[0] == Remote.DecryptFailed
    ensures Remote.ReplayAlone(parse, Remote.Deserialized(p), ms) != Contents(parse, ms)
  {
    assert Contents(parse, ms)[0] == Remote.Classify(parse, PlainOf(ms[0]));
  }

  ghost predicate PointOn(o: Origin, p: Remote.Point) {
    o.start <= p.chainId && p.chainKey == Advance(o.base, p.chainId - o.start) && p.signingPublicKey == o.signer
  }

  lemma ReadsExactly(parse: Remote.Parser, o: Origin, p: Remote.Point, first: nat, ms: seq<Message>)
    requires PointOn(o, p) && p.chainId <= first && ms != [] && InOrderFrom(o, first, ms)
    requires first + |ms| <= MAX_SAFE_INTEGER + 1
    ensures Remote.ReplayAlone(parse, Remote.Deserialized(p), ms) == Contents(parse, ms)
            <==> first - p.chainId <= MAX_SENDER_KEY_SKIP
  {
    if first - p.chainId <= MAX_SENDER_KEY_SKIP {
      ReplayReadsAll(parse, o, Remote.Deserialized(p), first, ms);
    } else {
      assert ms[0] == MessageAt(o, first + 0, PlainOf(ms[0]));
      TooFarAhead(parse, p, ms);
    }
  }

  lemma IssuedAreInOrder(start: System, s: System, d: string)
    requires Sound(start, s) && d in s.seeds
    ensures InOrderFrom(OriginOf(s.seeds, d), FirstId(start, d), MessagesOf(s.issued, d))
  {
    hide MessagesOf;
    hide FirstId;
    hide MessageAt;
    var ms := MessagesOf(s.issued, d);
    AreOfDistribution(s.issued, d);
    assert IdsFrom(ms, FirstId(start, d));
    forall i | 0 <= i < |ms|
      ensures ms[i] == MessageAt(OriginOf(s.seeds, d), FirstId(start, d) + i, PlainOf(ms[i]))
    {
      assert ms[i] in s.issued && OnItsChain(ms[i], s.seeds);
    }
  }

  lemma HasMirror(start: System, s: System, d: string)
    requires Mirrored(start, s) && d in s.seeds && MessagesOf(s.issued, d) != []
    ensures var key := MirrorKey(s.seeds[d].owner, d);
            && key in s.remote.records && s.remote.records[key].initialState.Some?
            && var p := s.remote.records[key].initialState.value;
               PointOn(OriginOf(s.seeds, d), p) && p.chainId <= FirstId(start, d)
    ensures d !in start.seeds ==> FirstId(start, d) == 0
  {
    assert MirrorStands(start, s, d);
  }

  /** Where the remote record of a distribution of one's own is kept. */
  function KeptUnder(owner: LockKey, distributionId: string): Remote.StorageKey {
    Remote.StorageKey(owner.groupId, owner.senderDeviceId, distributionId)
  }

  /**
   * Whatever calls did and in whatever order: the device holds a mirror of each distribution it issued
   * messages on, and a history replay of those messages, interleaved with anything, gives back all
   * their plaintexts in order, exactly when the mirror starts at most 1000 indices before the first of
   * them; for a distribution made during the run it starts at the first.
   */
  lemma SenderReadsBackWhatItSent(parse: Remote.Parser, start: System, moves: seq<Move>, d: string, ops: seq<Remote.Op>,
                                  c: nat)
    requires Starting(start) && MirrorsStand(start, start) && RunMoves(start, moves).Some?
    requires var w := RunMoves(start, moves).value;
             && d in w.seeds && MessagesOf(w.issued, d) != []
             && FirstId(start, d) + |MessagesOf(w.issued, d)| <= MAX_SAFE_INTEGER + 1
             && KeptUnder(w.seeds[d].owner, d) !in Remote.ContextOf(w.remote, c)
             && Remote.Replayed(ops, c, KeptUnder(w.seeds[d].owner, d)) == MessagesOf(w.issued, d)
    ensures var w := RunMoves(start, moves).value;
            var key := KeptUnder(w.seeds[d].owner, d);
            && key in w.remote.records && w.remote.records[key].initialState.Some?
            && var from := w.remote.records[key].initialState.value.chainId;
               && (Remote.Answers(parse, w.remote, ops, c, key) == Contents(parse, MessagesOf(w.issued, d))
                   <==> FirstId(start, d) - from <= MAX_SENDER_KEY_SKIP)
               && (d !in start.seeds ==> FirstId(start, d) == from)
  {
    hide MessagesOf;
    hide Remote.Answers;
    hide Remote.Replayed;
    hide Contents;
    hide Sound;
    var w := RunMoves(start, moves).value;
    var key, ms := KeptUnder(w.seeds[d].owner, d), MessagesOf(w.issued, d);
    hide Remote.ReplayAlone;
    hide IssuedAreMirrored;
    hide FirstId;
    RunsStaySound(start, moves);
    RunsStayMirrored(start, moves);
    IssuedAreInOrder(start, w, d);
    HasMirror(start, w, d);
    var p := w.remote.records[key].initialState.value;
    Remote.ReplayIsFixedByInitialState(parse, w.remote, ops, c, key, Remote.Deserialized(p));
    ReadsExactly(parse, OriginOf(w.seeds, d), p, FirstId(start, d), ms);
  }

  // ---- alone, a call does what the code does run alone ----

  lemma RunsOneMore(s: System, moves: seq<Move>, m: Move)
    requires RunMoves(s, moves).Some? && Possible(RunMoves(s, moves).value, m)
    ensures RunMoves(s, moves + [m]) == Some(Next(RunMoves(s, moves).value, m))
  {
    assert (moves + [m])[..|moves|] == moves;
  }

  /** Nobody waits for the key's lock or holds it. */
  ghost predicate NobodyOn(s: System, key: LockKey) {
    forall t: nat :: !Active(s.mutex.claims, key, t)
  }

  /**
   * The moves of a call that meets nobody: ask, take the lock, load, create if need be, mirror, save,
   * for a member set mirror what was saved, leave.
   */
  function Alone(s: System, key: LockKey, request: Request, supply: Supply, rotated: Supply): seq<Move> {
    var t := |s.mutex.claims|;
    [Call(key, request)] + [Enter(t)] + [Load(t)] + (if key in s.storage then [] else [Create(t, supply)])
    + [Mirror(t)] + [Commit(t, rotated)] + (if request.EnsureForMembers? then [Mirror(t)] else []) + [Leave(t)]
  }

  /** The remote records then: with the mirror of the record found and, for a member set, of the one saved. */
  function MirroredAlone(records: Remote.Records, key: LockKey, request: Request, loaded: LocalRecord, rotated: Supply)
    : Remote.Records
  {
    var once := WithMirror(records, key, loaded);
    if request.EnsureForMembers? then WithMirror(once, key, Changed(loaded, request, rotated)) else once
  }

  lemma AskAndEnter(start: System, s: System, key: LockKey, request: Request)
    requires Sound(start, s) && NobodyOn(s, key) && (request.MarkDistributed? ==> request.deviceIds != {})
    ensures var t := |s.mutex.claims|;
            var w := RunMoves(s, [Call(key, request)] + [Enter(t)] + [Load(t)]);
            && w.Some? && Holder(w.value, t) && w.value.mutex.claims[t].key == key
            && w.value.works == s.works + [Work(request, Loaded(Stored(s.storage, key), false))]
            && w.value.storage == s.storage && w.value.remote == s.remote && w.value.seeds == s.seeds
            && w.value.issued == s.issued
  {
    hide IssuedInOrder;
    hide StoredUpTo;
    hide AllOnChain;
    hide StorageSeeded;
    hide Queued;
    hide RunMoves;
    var t := |s.mutex.claims|;
    NothingMoved(s);
    LockIsFree(s.mutex, key);
    assert [] + [Call(key, request)] == [Call(key, request)];
    RunsOneMore(s, [], Call(key, request));
    var asked := Next(s, Call(key, request));
    RunsOneMore(s, [Call(key, request)], Enter(t));
    var entered := Next(asked, Enter(t));
    RunsOneMore(s, [Call(key, request)] + [Enter(t)], Load(t));
    assert Next(entered, Load(t)).works == s.works + [Work(request, Loaded(Stored(s.storage, key), false))];
  }

  lemma NothingMoved(s: System)
    ensures RunMoves(s, []) == Some(s)
  {
  }

  lemma LockIsFree(x: Mutex, key: LockKey)
    requires Queued(x) && forall t: nat :: !Active(x.claims, key, t)
    ensures Previous(x.locks, key).None?
  {
    assert TailIsLast(x.locks, x.claims, key);
  }

  /** The call `t` holds the lock of `key` and works on the record `loaded`, which is the stored one. */
  ghost predicate WorksOn(w: System, t: nat, key: LockKey, request: Request, loaded: LocalRecord, mirrored: bool) {
    && Holder(w, t) && w.mutex.claims[t].key == key
    && w.works[t] == Work(request, Loaded(Some(loaded), mirrored))
    && key in w.storage && w.storage[key] == loaded
  }

  lemma LoadsOrCreates(start: System, s: System, key: LockKey, request: Request, supply: Supply, rotated: Supply)
    requires Sound(start, s) && NobodyOn(s, key) && (request.MarkDistributed? ==> request.deviceIds != {})
    requires IsNew(s, supply) && IsNew(s, rotated)
    requires supply.distributionId != rotated.distributionId && supply.seed != rotated.seed
    ensures var t, loaded := |s.mutex.claims|, LoadedOrCreated(s.storage, key, supply);
            var w := RunMoves(s, [Call(key, request)] + [Enter(t)] + [Load(t)]
                                 + (if key in s.storage then [] else [Create(t, supply)]));
            && w.Some? && WorksOn(w.value, t, key, request, loaded, false) && IsNew(w.value, rotated)
            && w.value.storage == s.storage[key := loaded] && w.value.remote == s.remote && w.value.issued == s.issued
  {
    hide RunMoves;
    hide Sound;
    hide Created;
    var t := |s.mutex.claims|;
    SameLengths(start, s);
    AskAndEnter(start, s, key, request);
    var before := [Call(key, request)] + [Enter(t)] + [Load(t)];
    if key in s.storage {
      assert before + [] == before;
    } else {
      RunsOneMore(s, before, Create(t, supply));
    }
  }

  lemma SameLengths(start: System, s: System)
    requires Sound(start, s)
    ensures |s.works| == |s.mutex.claims|
  {
  }

  /** From there on: mirror, save, leave. */
  lemma Finishes(s: System, moves: seq<Move>, t: nat, key: LockKey, request: Request, loaded: LocalRecord,
                 rotated: Supply)
    requires RunMoves(s, moves).Some? && IsNew(RunMoves(s, moves).value, rotated)
    requires WorksOn(RunMoves(s, moves).value, t, key, request, loaded, false)
    requires WithMirrorKeepsNew(RunMoves(s, moves).value, key, loaded, rotated)
    ensures var v := RunMoves(s, moves).value;
            var w := RunMoves(s, moves + [Mirror(t)] + [Commit(t, rotated)]
                                 + (if request.EnsureForMembers? then [Mirror(t)] else []) + [Leave(t)]);
            && w.Some?
            && w.value.storage == v.storage[key := Changed(loaded, request, rotated)]
            && w.value.remote.records == MirroredAlone(v.remote.records, key, request, loaded, rotated)
            && Returned(w.value, t) == EnvelopeOf(loaded, request)
            && w.value.issued == v.issued + (if EnvelopeOf(loaded, request).Some? then [EnvelopeOf(loaded, request).value]
                                             else [])
  {
    hide RunMoves;
    hide Changed;
    hide EnvelopeOf;
    hide WithMirror;
    var v := RunMoves(s, moves).value;
    RunsOneMore(s, moves, Mirror(t));
    var mirrored := Next(v, Mirror(t));
    RunsOneMore(s, moves + [Mirror(t)], Commit(t, rotated));
    var saved, so := Next(mirrored, Commit(t, rotated)), moves + [Mirror(t)] + [Commit(t, rotated)];
    if request.EnsureForMembers? {
      RunsOneMore(s, so, Mirror(t));
      RunsOneMore(s, so + [Mirror(t)], Leave(t));
    } else {
      assert so + [] == so;
      RunsOneMore(s, so, Leave(t));
    }
  }

  /** Mirroring the record does not use up the ids set aside for a rotation. */
  ghost predicate WithMirrorKeepsNew(v: System, key: LockKey, loaded: LocalRecord, rotated: Supply) {
    forall k :: k in WithMirror(v.remote.records, key, loaded) ==> k.distributionId != rotated.distributionId
  }

  lemma SeededIsNotNew(start: System, s: System, moves: seq<Move>, t: nat, key: LockKey, request: Request,
                       loaded: LocalRecord, rotated: Supply)
    requires Sound(start, s) && RunMoves(s, moves).Some? && IsNew(RunMoves(s, moves).value, rotated)
    requires WorksOn(RunMoves(s, moves).value, t, key, request, loaded, false)
    ensures WithMirrorKeepsNew(RunMoves(s, moves).value, key, loaded, rotated)
  {
    hide RunMoves;
    LaterStaysSound(start, s, moves);
    StoredIsSeeded(start, RunMoves(s, moves).value, key);
  }

  /**
   * From any state a run reaches, a call that meets nobody on its key runs to its end, and what it
   * stores, mirrors and returns is what the code gives when it is run alone.
   */
  lemma AloneItIsTheCode(start: System, s: System, key: LockKey, request: Request, supply: Supply, rotated: Supply)
    requires Sound(start, s) && NobodyOn(s, key) && (request.MarkDistributed? ==> request.deviceIds != {})
    requires IsNew(s, supply) && IsNew(s, rotated)
    requires supply.distributionId != rotated.distributionId && supply.seed != rotated.seed
    ensures var w := RunMoves(s, Alone(s, key, request, supply, rotated));
            var loaded := LoadedOrCreated(s.storage, key, supply);
            && w.Some?
            && w.value.storage == s.storage[key := Changed(loaded, request, rotated)]
            && w.value.remote.records == MirroredAlone(s.remote.records, key, request, loaded, rotated)
            && Returned(w.value, |s.mutex.claims|) == EnvelopeOf(loaded, request)
            && w.value.issued == s.issued + (if EnvelopeOf(loaded, request).Some? then [EnvelopeOf(loaded, request).value]
                                             else [])
  {
    hide RunMoves;
    hide Sound;
    hide Changed;
    hide EnvelopeOf;
    hide WithMirror;
    hide WorksOn;
    hide IsNew;
    var t, loaded := |s.mutex.claims|, LoadedOrCreated(s.storage, key, supply);
    var moves := [Call(key, request)] + [Enter(t)] + [Load(t)] + (if key in s.storage then [] else [Create(t, supply)]);
    LoadsOrCreates(start, s, key, request, supply, rotated);
    SeededIsNotNew(start, s, moves, t, key, request, loaded, rotated);
    Finishes(s, moves, t, key, request, loaded, rotated);
  }
}
