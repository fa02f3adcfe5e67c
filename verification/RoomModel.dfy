/**
 * The SFU's rooms as values (apps/sfu/src/room-state.ts). Every transport, producer and consumer is
 * held by one peer and, redundantly, named in an owner map of the room; the operations have to keep
 * the two in step. A sweep closes the peers that were idle for too long and then drops the rooms
 * that stood empty for too long.
 */
module RoomModel {
  import opened Wrappers

  type Handle = nat     // a mediasoup object

  datatype Source = Camera | Screen

  datatype Kind = Transport | Producer | Consumer

  type PeerKey = string

  datatype Identity = Identity(userId: string, deviceId: Option<string>, sessionId: Option<string>)

  datatype PeerValue = PeerValue(
    peerId: string,
    who: Identity,        // with its optional parts cleaned
    lastSeenAt: int,
    transports: map<string, Handle>,
    producers: map<string, Handle>,
    consumers: map<string, Handle>)

  type Owners = map<string, PeerKey>

  datatype RoomValue = RoomValue(
    peers: map<PeerKey, PeerValue>,
    transportOwners: Owners,
    producerOwners: Owners,
    consumerOwners: Owners,
    producerSources: map<string, Source>,
    lastActiveAt: int)

  // ---- the key of a peer ----

  /** What JavaScript's `trim` takes off: white space and line terminators. */
  predicate IsBlank(c: char) {
    || '\t' <= c <= '\r' || c == ' ' || c == '\U{00A0}' || c == '\U{1680}' || '\U{2000}' <= c <= '\U{200A}'
    || c == '\U{2028}' || c == '\U{2029}' || c == '\U{202F}' || c == '\U{205F}' || c == '\U{3000}' || c == '\U{FEFF}'
  }

  function TrimStart(s: string): string {
    if s != "" && IsBlank(s[0]) then TrimStart(s[1..]) else s
  }

  function TrimEnd(s: string): string {
    if s != "" && IsBlank(s[|s| - 1]) then TrimEnd(s[..|s| - 1]) else s
  }

  function Trim(s: string): string {
    TrimEnd(TrimStart(s))
  }

  /** An optional part of an identity: trimmed, and absent when nothing is left. */
  function Part(given: Option<string>): Option<string> {
    if given.Some? && Trim(given.value) != "" then Some(Trim(given.value)) else None
  }

  function PartOr(given: Option<string>, otherwise: string): string {
    if Part(given).Some? then Part(given).value else otherwise
  }

  function KeyOf(identity: Identity): PeerKey {
    identity.userId + ":" + PartOr(identity.deviceId, "legacy-device")
    + ":" + PartOr(identity.sessionId, "legacy-session")
  }

  function Cleaned(identity: Identity): Identity {
    identity.(deviceId := Part(identity.deviceId), sessionId := Part(identity.sessionId))
  }

  lemma {:induction false} TrimEndKeepsStart(s: string)
    ensures TrimEnd(s) <= s
    ensures TrimEnd(s) != "" ==> !IsBlank(TrimEnd(s)[|TrimEnd(s)| - 1])
    ensures forall i :: |TrimEnd(s)| <= i < |s| ==> IsBlank(s[i])
  {
    if s != "" && IsBlank(s[|s| - 1]) {
      TrimEndKeepsStart(s[..|s| - 1]);
    }
  }

  lemma {:induction false} TrimStartKeepsEnd(s: string)
    ensures |TrimStart(s)| <= |s| && TrimStart(s) == s[|s| - |TrimStart(s)|..]
    ensures TrimStart(s) != "" ==> !IsBlank(TrimStart(s)[0])
    ensures forall i :: 0 <= i < |s| - |TrimStart(s)| ==> IsBlank(s[i])
  {
    if s != "" && IsBlank(s[0]) {
      var rest := s[1..];
      var n := |TrimStart(rest)|;
      TrimStartKeepsEnd(rest);
      assert TrimStart(s) == TrimStart(rest) == rest[|rest| - n..] == s[|s| - n..];
      forall i | 0 <= i < |s| - n
        ensures IsBlank(s[i])
      {
        assert i > 0 ==> s[i] == rest[i - 1];
      }
    }
  }

  /** What is left of a trimmed string is what stands between its first and its last character that is not blank. */
  lemma TrimmedExactly(s: string, from: nat, till: nat)
    requires from <= till <= |s|
    requires forall i :: 0 <= i < from || till <= i < |s| ==> IsBlank(s[i])
    requires from < till ==> !IsBlank(s[from]) && !IsBlank(s[till - 1])
    ensures Trim(s) == s[from..till]
  {
    var t := TrimStart(s);
    TrimStartKeepsEnd(s);
    TrimEndKeepsStart(t);
    if from < till {
      assert |s| - |t| == from;
      assert forall i :: 0 <= i < |t| ==> t[i] == s[from + i];
      assert |TrimEnd(t)| == till - from;
    }
  }

  lemma TrimmedStaysTrimmed(s: string)
    ensures Trim(Trim(s)) == Trim(s)
  {
    TrimStartKeepsEnd(s);
    TrimEndKeepsStart(TrimStart(s));
    TrimmedExactly(Trim(s), 0, |Trim(s)|);
    assert Trim(s)[0..|Trim(s)|] == Trim(s);
  }

  /** The characters trimmed are these and no others. */
  lemma BlankCharacters(c: char)
    ensures IsBlank(c) <==>
              c in "\t\n\U{000B}\U{000C}\r \U{00A0}\U{1680}\U{2000}\U{2001}\U{2002}\U{2003}\U{2004}\U{2005}\U{2006}"
              || c in "\U{2007}\U{2008}\U{2009}\U{200A}\U{2028}\U{2029}\U{202F}\U{205F}\U{3000}\U{FEFF}"
  {
  }

  /** The ids a peer record keeps are trimmed, absent when blank, and give back the key it is filed under. */
  lemma CleanedHasSameKey(identity: Identity)
    ensures KeyOf(Cleaned(identity)) == KeyOf(identity) && Cleaned(Cleaned(identity)) == Cleaned(identity)
    ensures Cleaned(identity).userId == identity.userId
    ensures Cleaned(identity).deviceId
            == if identity.deviceId.Some? && Trim(identity.deviceId.value) != "" then Some(Trim(identity.deviceId.value))
               else None
    ensures Cleaned(identity).sessionId
            == if identity.sessionId.Some? && Trim(identity.sessionId.value) != "" then Some(Trim(identity.sessionId.value))
               else None
  {
    if identity.deviceId.Some? {
      TrimmedStaysTrimmed(identity.deviceId.value);
    }
    if identity.sessionId.Some? {
      TrimmedStaysTrimmed(identity.sessionId.value);
    }
  }

  lemma SplitAtColon(a: string, a': string, b: string, b': string)
    requires ':' !in a && ':' !in a'
    ensures a + ":" + b == a' + ":" + b' <==> a == a' && b == b'
  {
    var s, s' := a + ":" + b, a' + ":" + b';
    if s == s' {
      assert s[|a|] == ':' && s'[|a'|] == ':';
      assert forall i :: 0 <= i < |a| ==> s[i] == a[i];
      assert forall i :: 0 <= i < |a'| ==> s'[i] == a'[i];
      assert |a| == |a'|;
      assert a == s[..|a|] && a' == s'[..|a'|] && b == s[|a| + 1..] && b' == s'[|a'| + 1..];
    }
  }

  /** What an optional part counts as: its trimmed text, or the default when that is empty or the part absent. */
  ghost function Counted(given: Option<string>, otherwise: string): string {
    if given.None? || Trim(given.value) == "" then otherwise else Trim(given.value)
  }

  /** For ids without a colon, two identities are one peer exactly when they agree on the user and on both parts. */
  lemma SameKeyExactly(i: Identity, j: Identity)
    requires ':' !in i.userId && ':' !in j.userId
    requires ':' !in Counted(i.deviceId, "legacy-device") && ':' !in Counted(j.deviceId, "legacy-device")
    ensures KeyOf(i) == KeyOf(j) <==>
            && i.userId == j.userId
            && Counted(i.deviceId, "legacy-device") == Counted(j.deviceId, "legacy-device")
            && Counted(i.sessionId, "legacy-session") == Counted(j.sessionId, "legacy-session")
  {
    hide Trim;
    var d, d' := Counted(i.deviceId, "legacy-device"), Counted(j.deviceId, "legacy-device");
    var s, s' := Counted(i.sessionId, "legacy-session"), Counted(j.sessionId, "legacy-session");
    SplitAtColon(d, d', s, s');
    SplitAtColon(i.userId, j.userId, d + ":" + s, d' + ":" + s');
    assert KeyOf(i) == i.userId + ":" + (d + ":" + s) && KeyOf(j) == j.userId + ":" + (d' + ":" + s');
  }

  function Held(p: PeerValue, kind: Kind): map<string, Handle> {
    match kind
    case Transport => p.transports
    case Producer => p.producers
    case Consumer => p.consumers
  }

  function OwnersOf(r: RoomValue, kind: Kind): Owners {
    match kind
    case Transport => r.transportOwners
    case Producer => r.producerOwners
    case Consumer => r.consumerOwners
  }

  function WithHeld(p: PeerValue, kind: Kind, held: map<string, Handle>): PeerValue {
    match kind
    case Transport => p.(transports := held)
    case Producer => p.(producers := held)
    case Consumer => p.(consumers := held)
  }

  function WithOwners(r: RoomValue, kind: Kind, owners: Owners): RoomValue {
    match kind
    case Transport => r.(transportOwners := owners)
    case Producer => r.(producerOwners := owners)
    case Consumer => r.(consumerOwners := owners)
  }

  // ---- the operations ----

  function NewPeer(identity: Identity, peerId: string, now: int): PeerValue {
    PeerValue(peerId, Cleaned(identity), now, map[], map[], map[])
  }

  function GotPeer(r: RoomValue, identity: Identity, peerId: string, now: int): RoomValue {
    var key := KeyOf(identity);
    var peer := if key in r.peers then r.peers[key].(lastSeenAt := now) else NewPeer(identity, peerId, now);
    r.(peers := r.peers[key := peer], lastActiveAt := now)
  }

  function Attached(r: RoomValue, key: PeerKey, kind: Kind, id: string, h: Handle, now: int): RoomValue
    requires key in r.peers
  {
    var peer := WithHeld(r.peers[key], kind, Held(r.peers[key], kind)[id := h]).(lastSeenAt := now);
    WithOwners(r, kind, OwnersOf(r, kind)[id := key]).(peers := r.peers[key := peer], lastActiveAt := now)
  }

  function WithSource(r: RoomValue, id: string, source: Option<Source>): RoomValue {
    r.(producerSources := if source.Some? then r.producerSources[id := source.value] else r.producerSources - {id})
  }

  function Removed(r: RoomValue, key: PeerKey, kind: Kind, id: string): RoomValue
    requires key in r.peers
  {
    var peer := WithHeld(r.peers[key], kind, Held(r.peers[key], kind) - {id});
    WithOwners(r, kind, OwnersOf(r, kind) - {id})
      .(peers := r.peers[key := peer],
        producerSources := if kind.Producer? then r.producerSources - {id} else r.producerSources)
  }

  function Found(r: RoomValue, kind: Kind, id: string): Option<PeerKey> {
    if id in OwnersOf(r, kind) && OwnersOf(r, kind)[id] in r.peers
       && id in Held(r.peers[OwnersOf(r, kind)[id]], kind)
    then Some(OwnersOf(r, kind)[id])
    else None
  }

  /** Looking up an id whose owner entry is stale deletes the entry. */
  function Sought(r: RoomValue, kind: Kind, id: string): RoomValue {
    if id in OwnersOf(r, kind) && Found(r, kind, id).None? then WithOwners(r, kind, OwnersOf(r, kind) - {id}) else r
  }

  function HeldByAny(peers: map<PeerKey, PeerValue>, keys: set<PeerKey>, kind: Kind): set<string> {
    set key, id | key in keys && key in peers && id in Held(peers[key], kind) :: id
  }

  /** All of `keys` closed: the peers gone, with every index entry of what they held. */
  function Closed(r: RoomValue, keys: set<PeerKey>, now: int): RoomValue {
    RoomValue(
      r.peers - keys,
      r.transportOwners - HeldByAny(r.peers, keys, Transport),
      r.producerOwners - HeldByAny(r.peers, keys, Producer),
      r.consumerOwners - HeldByAny(r.peers, keys, Consumer),
      r.producerSources - HeldByAny(r.peers, keys, Producer),
      if keys * r.peers.Keys == {} then r.lastActiveAt else now)
  }

  // ---- the owner maps are exact ----

  /** The owner map is the union of what the peers hold: each entry is held, each held id has its entry. */
  ghost predicate OwnersExact(owners: Owners, peers: map<PeerKey, PeerValue>, kind: Kind) {
    && (forall id :: id in owners ==> owners[id] in peers && id in Held(peers[owners[id]], kind))
    && (forall key, id :: key in peers && id in Held(peers[key], kind) ==> id in owners && owners[id] == key)
  }

  ghost predicate Exact(r: RoomValue) {
    && (forall kind: Kind :: OwnersExact(OwnersOf(r, kind), r.peers, kind))
    && r.producerSources.Keys <= r.producerOwners.Keys
  }

  /** Some other peer of the room holds the id. */
  ghost predicate HeldElsewhere(r: RoomValue, key: PeerKey, kind: Kind, id: string) {
    exists other :: other in r.peers && other != key && id in Held(r.peers[other], kind)
  }

  /** `after` differs from `before` at most in what one peer holds. */
  ghost predicate SameButOne(before: map<PeerKey, PeerValue>, after: map<PeerKey, PeerValue>, kind: Kind, key: PeerKey) {
    && after.Keys == before.Keys && key in before
    && forall k :: k in before && k != key ==> Held(after[k], kind) == Held(before[k], kind)
  }

  lemma AddedStaysExact(owners: Owners, before: map<PeerKey, PeerValue>, after: map<PeerKey, PeerValue>, kind: Kind,
                        key: PeerKey, id: string)
    requires OwnersExact(owners, before, kind) && SameButOne(before, after, kind, key)
    requires Held(after[key], kind).Keys == Held(before[key], kind).Keys + {id}
    requires forall k :: k in before && k != key ==> id !in Held(before[k], kind)
    ensures OwnersExact(owners[id := key], after, kind)
  {
    hide Held;
  }

  lemma DroppedStaysExact(owners: Owners, before: map<PeerKey, PeerValue>, after: map<PeerKey, PeerValue>, kind: Kind,
                          key: PeerKey, id: string)
    requires OwnersExact(owners, before, kind) && SameButOne(before, after, kind, key)
    requires Held(after[key], kind).Keys == Held(before[key], kind).Keys - {id}
    requires forall k :: k in before && k != key ==> id !in Held(before[k], kind)
    ensures OwnersExact(owners - {id}, after, kind)
  {
    hide Held;
  }

  lemma SameStaysExact(owners: Owners, before: map<PeerKey, PeerValue>, after: map<PeerKey, PeerValue>, kind: Kind,
                       key: PeerKey)
    requires OwnersExact(owners, before, kind) && SameButOne(before, after, kind, key)
    requires Held(after[key], kind) == Held(before[key], kind)
    ensures OwnersExact(owners, after, kind)
  {
    hide Held;
  }

  /** A peer that holds nothing may be new, and nobody's holding changes. */
  lemma GetPeerHoldsTheSame(r: RoomValue, identity: Identity, peerId: string, now: int, kind: Kind)
    ensures var after := GotPeer(r, identity, peerId, now).peers;
            forall key :: key in after ==>
              Held(after[key], kind) == if key in r.peers then Held(r.peers[key], kind) else map[]
  {
    hide KeyOf;
    hide Cleaned;
  }

  lemma GetPeerKeepsKind(r: RoomValue, identity: Identity, peerId: string, now: int, kind: Kind)
    requires Exact(r)
    ensures var r' := GotPeer(r, identity, peerId, now); OwnersExact(OwnersOf(r', kind), r'.peers, kind)
  {
    hide KeyOf;
    hide NewPeer;
    hide Held;
    assert OwnersExact(OwnersOf(r, kind), r.peers, kind);
    GetPeerHoldsTheSame(r, identity, peerId, now, kind);
  }

  lemma GetPeerKeepsExact(r: RoomValue, identity: Identity, peerId: string, now: int)
    requires Exact(r)
    ensures Exact(GotPeer(r, identity, peerId, now))
  {
    hide OwnersExact;
    hide KeyOf;
    hide NewPeer;
    var r' := GotPeer(r, identity, peerId, now);
    forall kind: Kind
      ensures OwnersExact(OwnersOf(r', kind), r'.peers, kind)
    {
      GetPeerKeepsKind(r, identity, peerId, now, kind);
    }
  }

  lemma AttachKeepsKind(r: RoomValue, key: PeerKey, kind: Kind, id: string, h: Handle, now: int, other: Kind)
    requires Exact(r) && key in r.peers && !HeldElsewhere(r, key, kind, id)
    ensures var r' := Attached(r, key, kind, id, h, now); OwnersExact(OwnersOf(r', other), r'.peers, other)
  {
    assert OwnersExact(OwnersOf(r, other), r.peers, other);
    var after := Attached(r, key, kind, id, h, now).peers;
    if other == kind {
      AddedStaysExact(OwnersOf(r, kind), r.peers, after, kind, key, id);
    } else {
      SameStaysExact(OwnersOf(r, other), r.peers, after, other, key);
    }
  }

  /** Attaching keeps the indexes exact exactly when no other peer holds the id: fresh ids always do. */
  lemma AttachKeepsExact(r: RoomValue, key: PeerKey, kind: Kind, id: string, h: Handle, now: int)
    requires Exact(r) && key in r.peers
    ensures Exact(Attached(r, key, kind, id, h, now)) <==> !HeldElsewhere(r, key, kind, id)
  {
    var r' := Attached(r, key, kind, id, h, now);
    if HeldElsewhere(r, key, kind, id) {
      var other :| other in r.peers && other != key && id in Held(r.peers[other], kind);
      assert id in Held(r'.peers[other], kind) && OwnersOf(r', kind)[id] == key;
      assert !OwnersExact(OwnersOf(r', kind), r'.peers, kind);
    } else {
      forall k: Kind
        ensures OwnersExact(OwnersOf(r', k), r'.peers, k)
      {
        AttachKeepsKind(r, key, kind, id, h, now, k);
      }
    }
  }

  lemma SourceKeepsExact(r: RoomValue, id: string, source: Option<Source>)
    requires Exact(r) && (source.Some? ==> id in r.producerOwners)
    ensures Exact(WithSource(r, id, source))
  {
    var r' := WithSource(r, id, source);
    forall kind: Kind
      ensures OwnersExact(OwnersOf(r', kind), r'.peers, kind)
    {
      assert OwnersExact(OwnersOf(r, kind), r.peers, kind);
    }
  }

  lemma RemoveKeepsKind(r: RoomValue, key: PeerKey, kind: Kind, id: string, other: Kind)
    requires Exact(r) && key in r.peers && !HeldElsewhere(r, key, kind, id)
    ensures var r' := Removed(r, key, kind, id); OwnersExact(OwnersOf(r', other), r'.peers, other)
  {
    assert OwnersExact(OwnersOf(r, other), r.peers, other);
    var after := Removed(r, key, kind, id).peers;
    if other == kind {
      DroppedStaysExact(OwnersOf(r, kind), r.peers, after, kind, key, id);
    } else {
      SameStaysExact(OwnersOf(r, other), r.peers, after, other, key);
    }
  }

  lemma RemoveBreaksExact(r: RoomValue, key: PeerKey, kind: Kind, id: string)
    requires key in r.peers && HeldElsewhere(r, key, kind, id)
    ensures var r' := Removed(r, key, kind, id); !OwnersExact(OwnersOf(r', kind), r'.peers, kind)
  {
    var r' := Removed(r, key, kind, id);
    var other :| other in r.peers && other != key && id in Held(r.peers[other], kind);
    assert id in Held(r'.peers[other], kind) && id !in OwnersOf(r', kind);
  }

  /** So does removing: an id the peer holds, or nobody does, may be removed; another peer's may not. */
  lemma RemoveKeepsExact(r: RoomValue, key: PeerKey, kind: Kind, id: string)
    requires Exact(r) && key in r.peers
    ensures Exact(Removed(r, key, kind, id)) <==> !HeldElsewhere(r, key, kind, id)
  {
    var r' := Removed(r, key, kind, id);
    if HeldElsewhere(r, key, kind, id) {
      RemoveBreaksExact(r, key, kind, id);
    } else {
      forall k: Kind
        ensures OwnersExact(OwnersOf(r', k), r'.peers, k)
      {
        RemoveKeepsKind(r, key, kind, id, k);
      }
    }
  }

  /** In an exact room a lookup finds the one peer that holds the id, and changes nothing. */
  lemma FindIsExact(r: RoomValue, kind: Kind, id: string)
    requires Exact(r)
    ensures Sought(r, kind, id) == r
    ensures forall key :: Found(r, kind, id) == Some(key) <==> key in r.peers && id in Held(r.peers[key], kind)
  {
    assert OwnersExact(OwnersOf(r, kind), r.peers, kind);
  }

  lemma ClosedStaysExact(owners: Owners, peers: map<PeerKey, PeerValue>, keys: set<PeerKey>, kind: Kind)
    requires OwnersExact(owners, peers, kind)
    ensures OwnersExact(owners - HeldByAny(peers, keys, kind), peers - keys, kind)
  {
    hide Held;
    forall id | id in owners && id !in HeldByAny(peers, keys, kind)
      ensures owners[id] !in keys
    {
      assert owners[id] in peers && id in Held(peers[owners[id]], kind);
    }
    forall key, id | key in peers - keys && id in Held(peers[key], kind)
      ensures id !in HeldByAny(peers, keys, kind)
    {
      assert owners[id] == key;
    }
  }

  lemma CloseKeepsKind(r: RoomValue, keys: set<PeerKey>, now: int, kind: Kind)
    requires Exact(r)
    ensures OwnersExact(OwnersOf(Closed(r, keys, now), kind), Closed(r, keys, now).peers, kind)
  {
    hide OwnersExact;
    hide HeldByAny;
    assert OwnersExact(OwnersOf(r, kind), r.peers, kind);
    ClosedStaysExact(OwnersOf(r, kind), r.peers, keys, kind);
  }

  lemma CloseKeepsExact(r: RoomValue, keys: set<PeerKey>, now: int)
    requires Exact(r)
    ensures Exact(Closed(r, keys, now))
  {
    forall kind: Kind
      ensures OwnersExact(OwnersOf(Closed(r, keys, now), kind), Closed(r, keys, now).peers, kind)
    {
      CloseKeepsKind(r, keys, now, kind);
    }
  }

  // ---- any run of a room's operations ----

  datatype RoomOp =
    | GetPeer(identity: Identity, peerId: string, now: int)
    | Attach(key: PeerKey, kind: Kind, id: string, handle: Handle, source: Option<Source>, now: int)
    | Remove(key: PeerKey, kind: Kind, id: string)
    | Find(kind: Kind, id: string)
    | Close(key: PeerKey, now: int)

  /** What callers keep to: peers of the room, ids nobody else in the room holds, sources for producers. */
  ghost predicate Proper(r: RoomValue, op: RoomOp) {
    match op
    case Attach(key, kind, id, _, source, _) =>
      key in r.peers && !HeldElsewhere(r, key, kind, id) && (source.Some? ==> kind.Producer?)
    case Remove(key, kind, id) => key in r.peers && !HeldElsewhere(r, key, kind, id)
    case _ => true
  }

  ghost function Apply(r: RoomValue, op: RoomOp): RoomValue
    requires Proper(r, op)
  {
    match op
    case GetPeer(identity, peerId, now) => GotPeer(r, identity, peerId, now)
    case Attach(key, kind, id, h, source, now) =>
      var r1 := Attached(r, key, kind, id, h, now);
      if kind.Producer? then WithSource(r1, id, source) else r1
    case Remove(key, kind, id) => Removed(r, key, kind, id)
    case Find(kind, id) => Sought(r, kind, id)
    case Close(key, now) => if key in r.peers then Closed(r, {key}, now) else r
  }

  ghost function Run(r: RoomValue, ops: seq<RoomOp>): Option<RoomValue> {
    if ops == [] then Some(r)
    else
      match Run(r, ops[..|ops| - 1])
      case None => None
      case Some(m) => if Proper(m, ops[|ops| - 1]) then Some(Apply(m, ops[|ops| - 1])) else None
  }

  lemma ApplyKeepsExact(r: RoomValue, op: RoomOp)
    requires Exact(r) && Proper(r, op)
    ensures Exact(Apply(r, op))
  {
    match op
    case GetPeer(identity, peerId, now) => GetPeerKeepsExact(r, identity, peerId, now);
    case Attach(key, kind, id, h, source, now) =>
      AttachKeepsExact(r, key, kind, id, h, now);
      if kind.Producer? {
        SourceKeepsExact(Attached(r, key, kind, id, h, now), id, source);
      }
    case Remove(key, kind, id) => RemoveKeepsExact(r, key, kind, id);
    case Find(kind, id) => FindIsExact(r, kind, id);
    case Close(key, now) => CloseKeepsExact(r, {key}, now);
  }

  function NewRoom(now: int): RoomValue {
    RoomValue(map[], map[], map[], map[], map[], now)
  }

  /** Over any run of proper operations the three owner maps stay the union of what the peers hold. */
  lemma {:induction false} IndexesStayExact(now: int, ops: seq<RoomOp>)
    requires Run(NewRoom(now), ops).Some?
    ensures Exact(Run(NewRoom(now), ops).value)
  {
    if ops != [] {
      IndexesStayExact(now, ops[..|ops| - 1]);
      ApplyKeepsExact(Run(NewRoom(now), ops[..|ops| - 1]).value, ops[|ops| - 1]);
    }
  }

  /** Every peer is filed under the key its own ids give. */
  ghost predicate Filed(r: RoomValue) {
    forall key :: key in r.peers ==> KeyOf(r.peers[key].who) == key
  }

  lemma ApplyKeepsFiled(r: RoomValue, op: RoomOp)
    requires Filed(r) && Proper(r, op)
    ensures Filed(Apply(r, op))
  {
    hide KeyOf;
    hide Cleaned;
    if op.GetPeer? {
      CleanedHasSameKey(op.identity);
    }
  }

  /** Over any run a peer stays filed under the key of its own ids, so one identity never has two peers. */
  lemma {:induction false} PeersStayFiled(now: int, ops: seq<RoomOp>)
    requires Run(NewRoom(now), ops).Some?
    ensures Filed(Run(NewRoom(now), ops).value)
  {
    if ops != [] {
      PeersStayFiled(now, ops[..|ops| - 1]);
      ApplyKeepsFiled(Run(NewRoom(now), ops[..|ops| - 1]).value, ops[|ops| - 1]);
    }
  }

  // ---- when peers and rooms were last used ----

  /** When the peer was last asked for or given something to hold. */
  function LastUse(ops: seq<RoomOp>, key: PeerKey): Option<int> {
    if ops == [] then None
    else
      var last := ops[|ops| - 1];
      if (last.GetPeer? && KeyOf(last.identity) == key) || (last.Attach? && last.key == key) then Some(last.now)
      else LastUse(ops[..|ops| - 1], key)
  }

  /** When the room last had a peer asked for, given something or closed. */
  ghost function LastActivity(start: int, ops: seq<RoomOp>): int {
    if ops == [] then start
    else
      var before, last := ops[..|ops| - 1], ops[|ops| - 1];
      match last
      case GetPeer(_, _, now) => now
      case Attach(_, _, _, _, _, now) => now
      case Close(key, now) =>
        if Run(NewRoom(start), before).Some? && key in Run(NewRoom(start), before).value.peers then now
        else LastActivity(start, before)
      case _ => LastActivity(start, before)
  }

  lemma ApplyUses(r: RoomValue, op: RoomOp, key: PeerKey)
    requires Proper(r, op) && key in Apply(r, op).peers
    ensures var used := (op.GetPeer? && KeyOf(op.identity) == key) || (op.Attach? && op.key == key);
            && (used ==> Apply(r, op).peers[key].lastSeenAt == op.now)
            && (!used ==> key in r.peers && Apply(r, op).peers[key].lastSeenAt == r.peers[key].lastSeenAt)
  {
    hide KeyOf;
    hide Cleaned;
    hide HeldByAny;
  }

  lemma ApplyActivity(r: RoomValue, op: RoomOp)
    requires Proper(r, op)
    ensures Apply(r, op).lastActiveAt
            == match op
               case GetPeer(_, _, now) => now
               case Attach(_, _, _, _, _, now) => now
               case Close(key, now) => if key in r.peers then now else r.lastActiveAt
               case _ => r.lastActiveAt
  {
    hide KeyOf;
    hide Cleaned;
    hide HeldByAny;
    if op.Close? && op.key in r.peers {
      assert op.key in {op.key} * r.peers.Keys;
    }
  }

  /** Over any run the times a sweep goes by are those of the last use of each peer and of the room. */
  lemma {:induction false} TimesAreOfTheLastUse(start: int, ops: seq<RoomOp>)
    requires Run(NewRoom(start), ops).Some?
    ensures var r := Run(NewRoom(start), ops).value;
            && r.lastActiveAt == LastActivity(start, ops)
            && forall key :: key in r.peers ==> LastUse(ops, key) == Some(r.peers[key].lastSeenAt)
  {
    hide Apply;
    hide Proper;
    hide KeyOf;
    if ops != [] {
      var before, last := ops[..|ops| - 1], ops[|ops| - 1];
      TimesAreOfTheLastUse(start, before);
      var m := Run(NewRoom(start), before).value;
      ApplyActivity(m, last);
      forall key | key in Apply(m, last).peers
        ensures LastUse(ops, key) == Some(Apply(m, last).peers[key].lastSeenAt)
      {
        ApplyUses(m, last, key);
      }
    }
  }

  /** A producer has the source it was last attached with, or none, until it is removed or its peer closed. */
  lemma SourcesFollowProducers(r: RoomValue, op: RoomOp, id: string)
    requires Proper(r, op)
    ensures var before, after := r.producerSources, Apply(r, op).producerSources;
            match op
            case Attach(_, kind, x, _, source, _) =>
              if kind.Producer? && x == id
              then (id in after <==> source.Some?) && (source.Some? ==> after[id] == source.value)
              else (id in after <==> id in before) && (id in before ==> after[id] == before[id])
            case Remove(_, kind, x) =>
              if kind.Producer? && x == id then id !in after
              else (id in after <==> id in before) && (id in before ==> after[id] == before[id])
            case Close(key, _) =>
              if key in r.peers && id in r.peers[key].producers then id !in after
              else (id in after <==> id in before) && (id in before ==> after[id] == before[id])
            case _ => after == before
  {
    hide KeyOf;
    hide Cleaned;
    if op.Close? && op.key in r.peers {
      assert id in HeldByAny(r.peers, {op.key}, Producer) <==> id in Held(r.peers[op.key], Producer);
    }
  }

  // ---- the sweep ----

  type RoomId = string

  type Rooms = map<RoomId, RoomValue>

  datatype Options = Options(peerTtlMs: int, emptyRoomTtlMs: int)

  datatype PeerRef = PeerRef(room: RoomId, key: PeerKey)

  function Expired(r: RoomValue, peerTtlMs: int, now: int): set<PeerKey> {
    set key | key in r.peers && now - r.peers[key].lastSeenAt > peerTtlMs
  }

  function SweptRoom(r: RoomValue, peerTtlMs: int, now: int): RoomValue {
    Closed(r, Expired(r, peerTtlMs, now), now)
  }

  /** A room goes when the sweep finds or leaves it without peers, and long enough inactive. */
  predicate Goes(r: RoomValue, o: Options, now: int) {
    var swept := SweptRoom(r, o.peerTtlMs, now);
    swept.peers == map[] && now - swept.lastActiveAt > o.emptyRoomTtlMs
  }

  function Refs(room: RoomId, keys: set<PeerKey>): set<PeerRef> {
    set key | key in keys :: PeerRef(room, key)
  }

  /** The expired peers of the rooms named. */
  function ExpiredPeers(rooms: Rooms, ids: set<RoomId>, o: Options, now: int): set<PeerRef> {
    set room, ref | room in ids && room in rooms && ref in Refs(room, Expired(rooms[room], o.peerTtlMs, now)) :: ref
  }

  /** Those of the rooms named that go. */
  function GoneRooms(rooms: Rooms, ids: set<RoomId>, o: Options, now: int): set<RoomId> {
    set room | room in ids && room in rooms && Goes(rooms[room], o, now)
  }

  /** The rooms after the ones named were swept. */
  function Swept(rooms: Rooms, ids: set<RoomId>, o: Options, now: int): Rooms {
    map room | room in rooms && (room in ids ==> !Goes(rooms[room], o, now)) ::
      if room in ids then SweptRoom(rooms[room], o.peerTtlMs, now) else rooms[room]
  }

  lemma ClosedNone(r: RoomValue, now: int)
    ensures Closed(r, {}, now) == r
  {
  }

  /**
   * With a non-negative room TTL the sweep removes, besides the expired peers, exactly the rooms that
   * were already empty and inactive for long enough; a room it empties itself is spared.
   */
  lemma GoesExactly(r: RoomValue, o: Options, now: int)
    requires o.emptyRoomTtlMs >= 0
    ensures Goes(r, o, now) <==> r.peers == map[] && now - r.lastActiveAt > o.emptyRoomTtlMs
  {
    var expired := Expired(r, o.peerTtlMs, now);
    assert expired <= r.peers.Keys;
    if expired == {} {
      ClosedNone(r, now);
    } else {
      var key :| key in expired;
      assert key in expired * r.peers.Keys;
    }
  }

  /** Sparing the rooms a sweep empties needs exactly that sign of the TTL. */
  lemma EmptiedRoomIsSparedExactly(r: RoomValue, o: Options, now: int)
    requires r.peers != map[] && SweptRoom(r, o.peerTtlMs, now).peers == map[]
    ensures !Goes(r, o, now) <==> o.emptyRoomTtlMs >= 0
  {
    var key :| key in r.peers;
    assert key !in SweptRoom(r, o.peerTtlMs, now).peers;
    assert key in Expired(r, o.peerTtlMs, now) * r.peers.Keys;
  }

  lemma SweptRoomIsFresh(r: RoomValue, peerTtlMs: int, now: int)
    ensures Expired(SweptRoom(r, peerTtlMs, now), peerTtlMs, now) == {}
    ensures SweptRoom(SweptRoom(r, peerTtlMs, now), peerTtlMs, now) == SweptRoom(r, peerTtlMs, now)
  {
    ClosedNone(SweptRoom(r, peerTtlMs, now), now);
  }

  /** Sweeping again at the same time changes nothing and counts nothing. */
  lemma SecondSweepIsNoOp(rooms: Rooms, o: Options, now: int)
    ensures var after := Swept(rooms, rooms.Keys, o, now);
            && Swept(after, after.Keys, o, now) == after
            && ExpiredPeers(after, after.Keys, o, now) == {} && GoneRooms(after, after.Keys, o, now) == {}
  {
    var after := Swept(rooms, rooms.Keys, o, now);
    forall room | room in after
      ensures Expired(after[room], o.peerTtlMs, now) == {} && SweptRoom(after[room], o.peerTtlMs, now) == after[room]
      ensures !Goes(after[room], o, now)
    {
      SweptRoomIsFresh(rooms[room], o.peerTtlMs, now);
    }
  }

  /** Exactly the expired peers of the rooms that stay are gone; nobody else loses anything. */
  lemma SweepRemovesOnlyExpired(r: RoomValue, peerTtlMs: int, now: int, key: PeerKey)
    ensures var swept := SweptRoom(r, peerTtlMs, now);
            && (key in swept.peers <==> key in r.peers && now - r.peers[key].lastSeenAt <= peerTtlMs)
            && (key in swept.peers ==> swept.peers[key] == r.peers[key])
            && (Exact(r) ==> Exact(swept))
  {
    if Exact(r) {
      CloseKeepsExact(r, Expired(r, peerTtlMs, now), now);
    }
  }

  lemma HeldByOneMore(peers: map<PeerKey, PeerValue>, keys: set<PeerKey>, key: PeerKey, kind: Kind)
    requires key in peers && key !in keys
    ensures HeldByAny(peers, keys + {key}, kind)
            == HeldByAny(peers, keys, kind) + HeldByAny(peers - keys, {key}, kind)
  {
    assert (peers - keys)[key] == peers[key];
  }

  /** Closing one more peer. */
  lemma ClosedOneMore(r: RoomValue, keys: set<PeerKey>, key: PeerKey, now: int)
    requires key in r.peers && key !in keys
    ensures Closed(Closed(r, keys, now), {key}, now) == Closed(r, keys + {key}, now)
  {
    var m := Closed(r, keys, now);
    assert key in m.peers && key in {key} * m.peers.Keys && key in (keys + {key}) * r.peers.Keys;
    HeldByOneMore(r.peers, keys, key, Transport);
    HeldByOneMore(r.peers, keys, key, Producer);
    HeldByOneMore(r.peers, keys, key, Consumer);
    MinusTwice(r.peers, keys, {key});
    MinusTwice(r.transportOwners, HeldByAny(r.peers, keys, Transport), HeldByAny(m.peers, {key}, Transport));
    MinusTwice(r.producerOwners, HeldByAny(r.peers, keys, Producer), HeldByAny(m.peers, {key}, Producer));
    MinusTwice(r.consumerOwners, HeldByAny(r.peers, keys, Consumer), HeldByAny(m.peers, {key}, Consumer));
    MinusTwice(r.producerSources, HeldByAny(r.peers, keys, Producer), HeldByAny(m.peers, {key}, Producer));
  }

  lemma MinusTwice<K, V>(m: map<K, V>, a: set<K>, b: set<K>)
    ensures m - a - b == m - (a + b)
  {
  }

  // ---- the sweep room by room ----

  /** One room swept. */
  function SweptOne(rooms: Rooms, id: RoomId, o: Options, now: int): Rooms
    requires id in rooms
  {
    if Goes(rooms[id], o, now) then rooms - {id} else rooms[id := SweptRoom(rooms[id], o.peerTtlMs, now)]
  }

  lemma IsSweptOne(before: Rooms, after: Rooms, id: RoomId, o: Options, now: int)
    requires id in before
    requires after.Keys == if Goes(before[id], o, now) then before.Keys - {id} else before.Keys
    requires forall j :: j in after ==>
               after[j] == if j == id then SweptRoom(before[id], o.peerTtlMs, now) else before[j]
    ensures after == SweptOne(before, id, o, now)
  {
    hide Goes;
    hide SweptRoom;
  }

  lemma NothingSwept(rooms: Rooms, o: Options, now: int)
    ensures Swept(rooms, {}, o, now) == rooms
    ensures ExpiredPeers(rooms, {}, o, now) == {} && GoneRooms(rooms, {}, o, now) == {}
  {
  }

  lemma SweptOneMore(rooms: Rooms, done: set<RoomId>, id: RoomId, o: Options, now: int)
    requires id in rooms && id !in done
    ensures var m := Swept(rooms, done, o, now);
            && id in m && m[id] == rooms[id] && SweptOne(m, id, o, now) == Swept(rooms, done + {id}, o, now)
    ensures |ExpiredPeers(rooms, done + {id}, o, now)|
            == |ExpiredPeers(rooms, done, o, now)| + |Expired(rooms[id], o.peerTtlMs, now)|
    ensures |GoneRooms(rooms, done + {id}, o, now)|
            == |GoneRooms(rooms, done, o, now)| + (if Goes(rooms[id], o, now) then 1 else 0)
  {
    ExpiredOneMore(rooms, done, id, o, now);
    GoneOneMore(rooms, done, id, o, now);
    RoomsOneMore(rooms, done, id, o, now);
  }

  lemma RoomsOneMore(rooms: Rooms, done: set<RoomId>, id: RoomId, o: Options, now: int)
    requires id in rooms && id !in done
    ensures SweptOne(Swept(rooms, done, o, now), id, o, now) == Swept(rooms, done + {id}, o, now)
  {
    hide SweptRoom;
    hide Goes;
  }

  lemma {:induction false} RefsSize(room: RoomId, keys: set<PeerKey>)
    ensures |Refs(room, keys)| == |keys|
  {
    if keys != {} {
      var key :| key in keys;
      RefsSize(room, keys - {key});
      assert Refs(room, keys) == Refs(room, keys - {key}) + {PeerRef(room, key)};
    }
  }

  lemma ExpiredOneMore(rooms: Rooms, done: set<RoomId>, id: RoomId, o: Options, now: int)
    requires id in rooms && id !in done
    ensures |ExpiredPeers(rooms, done + {id}, o, now)|
            == |ExpiredPeers(rooms, done, o, now)| + |Expired(rooms[id], o.peerTtlMs, now)|
  {
    var before, more := ExpiredPeers(rooms, done, o, now), Refs(id, Expired(rooms[id], o.peerTtlMs, now));
    RefsSize(id, Expired(rooms[id], o.peerTtlMs, now));
    forall ref: PeerRef
      ensures ref in ExpiredPeers(rooms, done + {id}, o, now) <==> ref in before + more
    {
    }
    assert ExpiredPeers(rooms, done + {id}, o, now) == before + more;
    assert before !! more;
  }

  lemma GoneOneMore(rooms: Rooms, done: set<RoomId>, id: RoomId, o: Options, now: int)
    requires id in rooms && id !in done
    ensures |GoneRooms(rooms, done + {id}, o, now)|
            == |GoneRooms(rooms, done, o, now)| + (if Goes(rooms[id], o, now) then 1 else 0)
  {
    assert GoneRooms(rooms, done + {id}, o, now)
        == GoneRooms(rooms, done, o, now) + (if Goes(rooms[id], o, now) then {id} else {});
  }
}
