/**
 * A device's own sender key (apps/web/src/lib/group-sender-key-local-runtime.ts).
 */
module LocalSenderKeys {
  import opened Wrappers
  import opened Symbolic
  import opened SenderKey
  import opened SenderKeyChain
  import opened SenderKeyLock
  import Remote = SenderKeyRecords

  // Encrypting, rotating on a membership change and marking recipients each load a stored record,
  // change it and save it, with awaits in between. Only the lock keeps two such sections apart.

  const CURRENT_RECORD_VERSION: nat := 2

  datatype LocalRecord = LocalRecord(
    distributionId: string,
    formatVersion: nat,
    memberDeviceFingerprint: Option<set<string>>,   // the sorted, joined, non-empty device ids
    state: Chain,
    distributedToDeviceIds: set<string>)

  /** What the random generators hand out: a UUID, a chain seed and a signing key pair. */
  datatype Supply = Supply(distributionId: string, seed: nat, signer: nat)

  datatype Request =
    | EnsureRecord
    | EnsureForMembers(memberDeviceIds: seq<string>)
    | MarkDistributed(distributionId: string, deviceIds: set<string>)
    | EncryptEnvelope(plain: Plaintext)

  type Storage = map<LockKey, LocalRecord>

  function Fingerprint(deviceIds: seq<string>): set<string> {
    set id | id in deviceIds && id != ""
  }

  function Created(supply: Supply, members: Option<set<string>>): LocalRecord {
    LocalRecord(supply.distributionId, CURRENT_RECORD_VERSION, members,
                Chain(Random(supply.seed), 0, supply.signer, true, map[]), {})
  }

  function Stored(storage: Storage, key: LockKey): Option<LocalRecord> {
    if key in storage then Some(storage[key]) else None
  }

  function LoadedOrCreated(storage: Storage, key: LockKey, supply: Supply): LocalRecord {
    if key in storage then storage[key] else Created(supply, None)
  }

  /** The record a section leaves behind, given the one it loaded. */
  function Changed(r: LocalRecord, request: Request, supply: Supply): LocalRecord {
    match request
    case EnsureRecord => r
    case EnsureForMembers(ids) =>
      if r.memberDeviceFingerprint == Some(Fingerprint(ids)) then r
      else if r.memberDeviceFingerprint.None? then r.(memberDeviceFingerprint := Some(Fingerprint(ids)))
      else Created(supply, Some(Fingerprint(ids)))
    case MarkDistributed(d, ids) =>
      if r.distributionId != d then r
      else r.(formatVersion := CURRENT_RECORD_VERSION, distributedToDeviceIds := r.distributedToDeviceIds + ids)
    case EncryptEnvelope(plain) =>
      match Encrypt(r.state, r.distributionId, plain)
      case Success((v, _)) => r.(state := v)
      case Failure(_) => r
  }

  /** The envelope it returns. */
  function EnvelopeOf(r: LocalRecord, request: Request): Option<Message> {
    if request.EncryptEnvelope? then
      match Encrypt(r.state, r.distributionId, request.plain)
      case Success((_, m)) => Some(m)
      case Failure(_) => None
    else None
  }

  /** Where a device keeps the remote state of its own sender key, so as to read what it sent. */
  function MirrorKey(key: LockKey, distributionId: string): Remote.StorageKey {
    Remote.StorageKey(key.groupId, key.senderDeviceId, distributionId)
  }

  function WithMirror(records: Remote.Records, key: LockKey, r: LocalRecord): Remote.Records {
    var mirror := MirrorKey(key, r.distributionId);
    records[mirror := Remote.Mirrored(Remote.Find(records, mirror), r.state)]
  }

  // ---- the code, run alone ----

  class LocalKeyStore {
    var records: Storage
    const remote: Remote.RemoteKeyStore

    constructor (remote: Remote.RemoteKeyStore)
      ensures records == map[] && this.remote == remote
    {
      records := map[];
      this.remote := remote;
    }

    method LoadOrCreateLocalSenderKeyRecord(key: LockKey, supply: Supply) returns (record: LocalRecord)
      modifies this, remote
      ensures record == LoadedOrCreated(old(records), key, supply)
      ensures records == old(records)[key := record]
      ensures remote.records == WithMirror(old(remote.records), key, record)
      ensures record == if key in old(records) then old(records)[key]
                        else LocalRecord(supply.distributionId, 2, None,
                                         Chain(Random(supply.seed), 0, supply.signer, true, map[]), {})
      ensures var mirror := Remote.StorageKey(key.groupId, key.senderDeviceId, record.distributionId);
              && (mirror in old(remote.records) ==> remote.records == old(remote.records))
              && (mirror !in old(remote.records) ==>
                    var start := Remote.Point(record.state.chainKey, record.state.chainId, record.state.signingPublicKey);
                    remote.records == old(remote.records)[mirror := Remote.Record(start, Some(start))])
    {
      if key in records {
        record := records[key];
      } else {
        record := LocalRecord(supply.distributionId, CURRENT_RECORD_VERSION, None,
                              Chain(Random(supply.seed), 0, supply.signer, true, map[]), {});
        records := records[key := record];
      }
      remote.EnsureSelfRemoteSenderKeyState(MirrorKey(key, record.distributionId), record.state);
    }

    method EnsureForMemberDevices(key: LockKey, deviceIds: seq<string>, supply: Supply, rotated: Supply)
      returns (record: LocalRecord)
      modifies this, remote
      ensures record == Changed(LoadedOrCreated(old(records), key, supply), EnsureForMembers(deviceIds), rotated)
      ensures records == old(records)[key := record]
      ensures remote.records
              == WithMirror(WithMirror(old(remote.records), key, LoadedOrCreated(old(records), key, supply)), key, record)
    {
      var next := Fingerprint(deviceIds);
      record := LoadOrCreateLocalSenderKeyRecord(key, supply);
      MirroredOnce(old(remote.records), key, record);
      if record.memberDeviceFingerprint == Some(next) {
        return;
      }
      if record.memberDeviceFingerprint.None? {
        record := record.(memberDeviceFingerprint := Some(next));
        records := records[key := record];
      } else {
        record := Created(rotated, Some(next));
        records := records[key := record];
        remote.EnsureSelfRemoteSenderKeyState(MirrorKey(key, record.distributionId), record.state);
      }
    }

    method MarkSenderKeyDistributedToDevices(key: LockKey, distributionId: string, deviceIds: set<string>, supply: Supply)
      modifies this, remote
      ensures deviceIds == {} ==> records == old(records) && remote.records == old(remote.records)
      ensures deviceIds != {} ==>
                var loaded := LoadedOrCreated(old(records), key, supply);
                && records == old(records)[key := Changed(loaded, MarkDistributed(distributionId, deviceIds), supply)]
                && remote.records == WithMirror(old(remote.records), key, loaded)
    {
      if deviceIds == {} {
        return;
      }
      var record := LoadOrCreateLocalSenderKeyRecord(key, supply);
      if record.distributionId != distributionId {
        return;
      }
      record := record.(formatVersion := CURRENT_RECORD_VERSION,
                        distributedToDeviceIds := record.distributedToDeviceIds + deviceIds);
      records := records[key := record];
    }

    /** The text and attachment variants differ only in how the plaintext is built. */
    method EncryptGroupEnvelope(key: LockKey, plain: Plaintext, supply: Supply) returns (r: Option<Remote.Envelope>)
      modifies this, remote
      ensures var loaded := LoadedOrCreated(old(records), key, supply);
              var m := EnvelopeOf(loaded, EncryptEnvelope(plain));
              && r == (if m.Some? then Some(Remote.Envelope(key.groupId, key.senderDeviceId, m.value)) else None)
              && records == old(records)[key := Changed(loaded, EncryptEnvelope(plain), supply)]
              && remote.records == WithMirror(old(remote.records), key, loaded)
    {
      var record := LoadOrCreateLocalSenderKeyRecord(key, supply);
      var encrypted := Encrypt(record.state, record.distributionId, plain);
      if encrypted.Failure? {
        return None;
      }
      records := records[key := record.(state := encrypted.value.0)];
      r := Some(Remote.Envelope(key.groupId, key.senderDeviceId, encrypted.value.1));
    }
  }

  /** A distribution that has its mirror keeps it as it is. */
  lemma MirroredOnce(records: Remote.Records, key: LockKey, r: LocalRecord)
    ensures forall other: LocalRecord :: other.distributionId == r.distributionId ==>
              WithMirror(WithMirror(records, key, r), key, other) == WithMirror(records, key, r)
  {
  }

  /** The member set a record is stamped with is not that of the devices given. */
  ghost predicate StampedWithOthers(r: LocalRecord, deviceIds: seq<string>) {
    r.memberDeviceFingerprint.Some?
    && exists id :: (id in r.memberDeviceFingerprint.value) != (id in deviceIds && id != "")
  }

  /**
   * A section for a member set leaves a record stamped with the non-empty ones of its device ids. It is
   * a new distribution, with a new chain at index 0 and no recipients, exactly when the recorded set
   * was another one, and the same record otherwise.
   */
  lemma RotationFollowsMembership(r: LocalRecord, deviceIds: seq<string>, supply: Supply)
    ensures var after := Changed(r, EnsureForMembers(deviceIds), supply);
            && after.memberDeviceFingerprint.Some?
            && (forall id :: id in after.memberDeviceFingerprint.value <==> id in deviceIds && id != "")
            && after == if StampedWithOthers(r, deviceIds)
                        then LocalRecord(supply.distributionId, 2, after.memberDeviceFingerprint,
                                         Chain(Random(supply.seed), 0, supply.signer, true, map[]), {})
                        else r.(memberDeviceFingerprint := after.memberDeviceFingerprint)
  {
    if StampedWithOthers(r, deviceIds) {
      var id :| (id in r.memberDeviceFingerprint.value) != (id in deviceIds && id != "");
      assert (id in r.memberDeviceFingerprint.value) != (id in Fingerprint(deviceIds));
    } else if r.memberDeviceFingerprint.Some? {
      assert r.memberDeviceFingerprint.value == Fingerprint(deviceIds);
    }
  }

  /** A mark adds exactly the given devices to the recipients, of the distribution it names and of no other. */
  lemma MarkAddsRecipients(r: LocalRecord, distributionId: string, deviceIds: set<string>, supply: Supply)
    ensures var after := Changed(r, MarkDistributed(distributionId, deviceIds), supply);
            if r.distributionId == distributionId then
              && after == r.(formatVersion := 2, distributedToDeviceIds := after.distributedToDeviceIds)
              && forall id :: id in after.distributedToDeviceIds <==> id in r.distributedToDeviceIds || id in deviceIds
            else after == r
  {
  }

  // ---- every interleaving, one storage access at a time ----

  datatype Progress =
    | Started
    | Loaded(found: Option<LocalRecord>, mirrored: bool)
    | Returning(envelope: Option<Message>)

  datatype Work = Work(request: Request, progress: Progress)

  /** What a distribution was made with, and for whom. */
  datatype Start = Start(owner: LockKey, seed: nat, signer: nat)

  type Seeds = map<string, Start>

  function OriginOf(seeds: Seeds, distributionId: string): Origin
    requires distributionId in seeds
  {
    Origin(Random(seeds[distributionId].seed), 0, distributionId, seeds[distributionId].signer)
  }

  /**
   * `works[t]` is what call `t` of the lock does while it holds it. `seeds` names the start of every
   * distribution ever made; `issued` lists the envelopes whose record was saved.
   */
  datatype System = System(
    mutex: Mutex,
    works: seq<Work>,
    storage: Storage,
    remote: Remote.World,
    seeds: Seeds,
    issued: seq<Message>)

  datatype Move =
    | Call(key: LockKey, request: Request)
    | Enter(ticket: nat)
    | Load(ticket: nat)
    | Create(ticket: nat, supply: Supply)
    | Mirror(ticket: nat)
    | Commit(ticket: nat, supply: Supply)
    | Leave(ticket: nat)       // return what was prepared
    | Throw(ticket: nat)       // an exception before the record was saved
    | Other(op: Remote.Op)     // whatever else touches the remote records, outside the lock

  predicate Holder(s: System, t: nat) {
    t < |s.mutex.claims| && t < |s.works| && s.mutex.claims[t].stage.Holding?
  }

  /** No distribution has the id or the seed yet, and nothing is stored under the id. */
  predicate IsNew(s: System, supply: Supply) {
    && supply.distributionId !in s.seeds
    && (forall d :: d in s.seeds ==> s.seeds[d].seed != supply.seed)
    && forall k :: k in s.remote.records ==> k.distributionId != supply.distributionId
  }

  /** The record a call mirrors next: the one it loaded or, after a rotation, the one it saved. */
  function ToMirror(s: System, t: nat): Option<LocalRecord>
    requires Holder(s, t)
  {
    match s.works[t].progress
    case Loaded(found, mirrored) => if mirrored then None else found
    case Returning(_) =>
      if s.works[t].request.EnsureForMembers? then Stored(s.storage, s.mutex.claims[t].key) else None
    case Started => None
  }

  predicate Possible(s: System, m: Move) {
    match m
    case Call(_, request) => request.MarkDistributed? ==> request.deviceIds != {}
    case Enter(t) => Enabled(s.mutex, Begin(t))
    case Load(t) => Holder(s, t) && s.works[t].progress.Started?
    case Create(t, supply) =>
      Holder(s, t) && s.works[t].progress.Loaded? && s.works[t].progress.found.None? && IsNew(s, supply)
    case Mirror(t) => Holder(s, t) && ToMirror(s, t).Some?
    case Commit(t, supply) =>
      Holder(s, t) && s.works[t].progress.Loaded? && s.works[t].progress.found.Some? && s.works[t].progress.mirrored
      && IsNew(s, supply)
    case Leave(t) => Holder(s, t) && s.works[t].progress.Returning?
    case Throw(t) => Holder(s, t) && !s.works[t].progress.Returning?
    case Other(op) => op.Import? || op.Mirror? ==> op.key.distributionId !in s.seeds
  }

  function At(s: System, t: nat, progress: Progress): seq<Work>
    requires t < |s.works|
  {
    s.works[t := s.works[t].(progress := progress)]
  }

  function NewlyCreated(s: System, t: nat, supply: Supply): System
    requires Holder(s, t)
  {
    var r := Created(supply, None);
    var key := s.mutex.claims[t].key;
    s.(works := At(s, t, Loaded(Some(r), false)), storage := s.storage[key := r],
       seeds := s.seeds[supply.distributionId := Start(key, supply.seed, supply.signer)])
  }

  function NewlyMirrored(s: System, t: nat, r: LocalRecord): System
    requires Holder(s, t)
  {
    var progress := s.works[t].progress;
    s.(works := At(s, t, if progress.Loaded? then progress.(mirrored := true) else progress),
       remote := s.remote.(records := WithMirror(s.remote.records, s.mutex.claims[t].key, r)))
  }

  function Committed(s: System, t: nat, r: LocalRecord, supply: Supply): System
    requires Holder(s, t)
  {
    var after := Changed(r, s.works[t].request, supply);
    var envelope := EnvelopeOf(r, s.works[t].request);
    var key := s.mutex.claims[t].key;
    s.(works := At(s, t, Returning(envelope)),
       storage := s.storage[key := after],
       seeds := if after.distributionId == r.distributionId then s.seeds
                else s.seeds[supply.distributionId := Start(key, supply.seed, supply.signer)],
       issued := if envelope.Some? then s.issued + [envelope.value] else s.issued)
  }

  function Next(s: System, m: Move): System
    requires Possible(s, m)
  {
    match m
    case Call(key, request) =>
      s.(mutex := Apply(s.mutex, SenderKeyLock.Request(key)), works := s.works + [Work(request, Started)])
    case Enter(t) => s.(mutex := Apply(s.mutex, Begin(t)))
    case Load(t) => s.(works := At(s, t, Loaded(Stored(s.storage, s.mutex.claims[t].key), false)))
    case Create(t, supply) => NewlyCreated(s, t, supply)
    case Mirror(t) => NewlyMirrored(s, t, ToMirror(s, t).value)
    case Commit(t, supply) => Committed(s, t, s.works[t].progress.found.value, supply)
    case Leave(t) => s.(mutex := Apply(s.mutex, Release(t)))
    case Throw(t) => s.(mutex := Apply(s.mutex, Release(t)))
    case Other(op) => s.(remote := Remote.Step(s.remote, op))
  }

  function RunMoves(s: System, moves: seq<Move>): Option<System> {
    if moves == [] then Some(s)
    else
      match RunMoves(s, moves[..|moves| - 1])
      case None => None
      case Some(w) => if Possible(w, moves[|moves| - 1]) then Some(Next(w, moves[|moves| - 1])) else None
  }

  // ---- what every move keeps ----

  /** The record sits on the chain its distribution's start gives, and is its owner's. */
  ghost predicate Seeded(key: LockKey, r: LocalRecord, seeds: Seeds) {
    && r.distributionId in seeds
    && seeds[r.distributionId].owner == key
    && r.state.canSign
    && r.state.signingPublicKey == seeds[r.distributionId].signer
    && r.state.chainKey == Advance(Random(seeds[r.distributionId].seed), r.state.chainId)
  }

  ghost predicate StorageSeeded(storage: Storage, seeds: Seeds) {
    forall k :: k in storage ==> Seeded(k, storage[k], seeds)
  }

  ghost predicate SeedsDistinct(seeds: Seeds) {
    forall d, e :: d in seeds && e in seeds && seeds[d].seed == seeds[e].seed ==> d == e
  }

  /** The envelope is the one its distribution's chain makes at the envelope's index. */
  ghost predicate OnItsChain(m: Message, seeds: Seeds) {
    && m.distributionId in seeds
    && m.messageId >= 0
    && m.ciphertext.Sealed?
    && m == MessageAt(OriginOf(seeds, m.distributionId), m.messageId, m.ciphertext.plain)
  }

  ghost predicate AllOnChain(issued: seq<Message>, seeds: Seeds) {
    forall i :: 0 <= i < |issued| ==> OnItsChain(issued[i], seeds)
  }

  /** No holder has read a record that is not the stored one. */
  ghost predicate ReadsAreCurrent(s: System) {
    forall t: nat :: Holder(s, t) && s.works[t].progress.Loaded? ==>
      s.works[t].progress.found == Stored(s.storage, s.mutex.claims[t].key)
  }

  function MessagesOf(issued: seq<Message>, distributionId: string): seq<Message> {
    if issued == [] then []
    else
      MessagesOf(issued[..|issued| - 1], distributionId)
      + (if issued[|issued| - 1].distributionId == distributionId then [issued[|issued| - 1]] else [])
  }

  /** The distribution is new since `start`, or was then the one in use. */
  predicate InUse(start: System, distributionId: string) {
    distributionId in start.seeds ==>
      var owner := start.seeds[distributionId].owner;
      owner in start.storage && start.storage[owner].distributionId == distributionId
  }

  /** Where a distribution's indices begin: at the record found at the start, or at 0. */
  function FirstId(start: System, distributionId: string): nat {
    if distributionId in start.seeds && InUse(start, distributionId)
    then start.storage[start.seeds[distributionId].owner].state.chainId
    else 0
  }

  ghost predicate IdsFrom(ms: seq<Message>, first: nat) {
    forall i :: 0 <= i < |ms| ==> ms[i].messageId == first + i
  }

  ghost predicate IssuedInOrder(start: System, issued: seq<Message>, seeds: Seeds) {
    forall d: string :: IdsFrom(MessagesOf(issued, d), FirstId(start, d)) && (d !in seeds ==> MessagesOf(issued, d) == [])
  }

  /** Each stored record stands one past the last index its distribution issued. */
  ghost predicate StoredUpTo(start: System, issued: seq<Message>, storage: Storage) {
    forall k :: k in storage ==>
      && InUse(start, storage[k].distributionId)
      && storage[k].state.chainId
         == FirstId(start, storage[k].distributionId) + |MessagesOf(issued, storage[k].distributionId)|
  }

  ghost predicate Extends(before: Seeds, after: Seeds) {
    forall d :: d in before ==> d in after && after[d] == before[d]
  }

  ghost predicate WaitersHaveNotStarted(s: System) {
    forall t: nat :: t < |s.mutex.claims| && t < |s.works| && s.mutex.claims[t].stage.Waiting? ==>
      s.works[t].progress.Started?
  }

  ghost predicate Sound(start: System, s: System) {
    && Queued(s.mutex)
    && |s.works| == |s.mutex.claims|
    && WaitersHaveNotStarted(s)
    && ReadsAreCurrent(s)
    && StorageSeeded(s.storage, s.seeds)
    && SeedsDistinct(s.seeds)
    && Extends(start.seeds, s.seeds)
    && AllOnChain(s.issued, s.seeds)
    && IssuedInOrder(start, s.issued, s.seeds)
    && StoredUpTo(start, s.issued, s.storage)
  }

  /** Writing under the lock disturbs no other holder: nobody else holds this key. */
  lemma OnlyHolder(s: System, t: nat, u: nat)
    requires Queued(s.mutex) && Holder(s, t) && Holder(s, u) && s.mutex.claims[t].key == s.mutex.claims[u].key
    ensures t == u
  {
    if t < u {
      OneHolderInRequestOrder(s.mutex, u, t);
    } else if u < t {
      OneHolderInRequestOrder(s.mutex, t, u);
    }
  }

  lemma WriteKeepsReads(s: System, t: nat, r: LocalRecord, progress: Progress, s': System)
    requires Queued(s.mutex) && |s.works| == |s.mutex.claims| && ReadsAreCurrent(s) && Holder(s, t)
    requires s'.mutex == s.mutex && s'.works == At(s, t, progress)
    requires s'.storage == s.storage[s.mutex.claims[t].key := r]
    requires progress.Loaded? ==> progress.found == Some(r)
    ensures ReadsAreCurrent(s')
  {
    forall u: nat | Holder(s', u) && s'.works[u].progress.Loaded?
      ensures s'.works[u].progress.found == Stored(s'.storage, s'.mutex.claims[u].key)
    {
      if u != t {
        assert Holder(s, u);
        if s.mutex.claims[u].key == s.mutex.claims[t].key {
          OnlyHolder(s, t, u);
        }
      }
    }
  }

  /** Encrypting makes the message of the stored index and moves one step on. */
  lemma EncryptTakesOneStep(key: LockKey, r: LocalRecord, plain: Plaintext, seeds: Seeds)
    requires Seeded(key, r, seeds)
    ensures EnvelopeOf(r, EncryptEnvelope(plain)).Some?
    ensures var m := EnvelopeOf(r, EncryptEnvelope(plain)).value;
            && OnItsChain(m, seeds) && m.ciphertext.plain == plain
            && m.distributionId == r.distributionId && m.messageId == r.state.chainId
    ensures forall supply :: Seeded(key, Changed(r, EncryptEnvelope(plain), supply), seeds)
                            && Changed(r, EncryptEnvelope(plain), supply)
                               == r.(state := Changed(r, EncryptEnvelope(plain), supply).state)
                            && Changed(r, EncryptEnvelope(plain), supply).state.chainId == r.state.chainId + 1
  {
  }

  lemma MessagesAfterIssue(issued: seq<Message>, m: Message, d: string)
    ensures MessagesOf(issued + [m], d) == MessagesOf(issued, d) + (if m.distributionId == d then [m] else [])
  {
    assert (issued + [m])[..|issued|] == issued;
  }

  lemma IssueKeepsOrder(start: System, issued: seq<Message>, seeds: Seeds, m: Message)
    requires IssuedInOrder(start, issued, seeds) && m.distributionId in seeds
    requires m.messageId == FirstId(start, m.distributionId) + |MessagesOf(issued, m.distributionId)|
    ensures IssuedInOrder(start, issued + [m], seeds)
  {
    hide FirstId;
    hide MessagesOf;
    var more := issued + [m];
    forall d: string
      ensures IdsFrom(MessagesOf(more, d), FirstId(start, d)) && (d !in seeds ==> MessagesOf(more, d) == [])
    {
      MessagesAfterIssue(issued, m, d);
      assert IdsFrom(MessagesOf(issued, d), FirstId(start, d));
    }
  }

  lemma IssueKeepsStored(start: System, issued: seq<Message>, storage: Storage, seeds: Seeds, key: LockKey, m: Message,
                         r: LocalRecord)
    requires StoredUpTo(start, issued, storage) && StorageSeeded(storage, seeds)
    requires key in storage && m.distributionId == storage[key].distributionId == r.distributionId
    requires r.state.chainId == storage[key].state.chainId + 1
    ensures StoredUpTo(start, issued + [m], storage[key := r])
  {
    hide FirstId;
    hide InUse;
    hide MessagesOf;
    var after := storage[key := r];
    forall k | k in after
      ensures InUse(start, after[k].distributionId)
      ensures after[k].state.chainId
              == FirstId(start, after[k].distributionId) + |MessagesOf(issued + [m], after[k].distributionId)|
    {
      MessagesAfterIssue(issued, m, after[k].distributionId);
      assert Seeded(k, storage[k], seeds) && Seeded(key, storage[key], seeds);
    }
  }

  lemma CommitEncryptKeepsSound(start: System, s: System, t: nat, supply: Supply)
    requires Sound(start, s) && Possible(s, Commit(t, supply)) && s.works[t].request.EncryptEnvelope?
    ensures Sound(start, Next(s, Commit(t, supply)))
  {
    hide FirstId;
    hide InUse;
    hide MessagesOf;
    hide IssuedInOrder;
    hide Queued;
    hide OnItsChain;
    var s' := Next(s, Commit(t, supply));
    var key := s.mutex.claims[t].key;
    var r := s.works[t].progress.found.value;
    assert r == s.storage[key];
    EncryptTakesOneStep(key, r, s.works[t].request.plain, s.seeds);
    var after := Changed(r, s.works[t].request, supply);
    var m := EnvelopeOf(r, s.works[t].request).value;
    WriteKeepsReads(s, t, after, Returning(Some(m)), s');
    IssueKeepsOrder(start, s.issued, s.seeds, m);
    IssueKeepsStored(start, s.issued, s.storage, s.seeds, key, m, after);
  }

  /** Every other section keeps the chain where it was, or replaces it by a new one. */
  lemma OthersKeepOrReplace(r: LocalRecord, request: Request, supply: Supply)
    requires !request.EncryptEnvelope?
    ensures EnvelopeOf(r, request).None?
    ensures var after := Changed(r, request, supply);
            (after.distributionId == r.distributionId && after.state == r.state)
            || after == Created(supply, after.memberDeviceFingerprint)
  {
  }

  lemma KeepingKeepsSound(start: System, s: System, t: nat, after: LocalRecord, s': System)
    requires Sound(start, s) && Holder(s, t) && s.mutex.claims[t].key in s.storage
    requires var r := s.storage[s.mutex.claims[t].key];
             after.distributionId == r.distributionId && after.state == r.state
    requires s' == s.(works := At(s, t, Returning(None)), storage := s.storage[s.mutex.claims[t].key := after])
    ensures Sound(start, s')
  {
    hide FirstId;
    hide InUse;
    hide MessagesOf;
    hide IssuedInOrder;
    hide Queued;
    WriteKeepsReads(s, t, after, Returning(None), s');
  }

  lemma MoreSeedsKeepIssued(start: System, issued: seq<Message>, seeds: Seeds, d: string, more: Seeds)
    requires AllOnChain(issued, seeds) && IssuedInOrder(start, issued, seeds)
    requires d !in seeds && more.Keys == seeds.Keys + {d} && Extends(seeds, more)
    ensures AllOnChain(issued, more) && IssuedInOrder(start, issued, more)
  {
    hide FirstId;
    hide MessagesOf;
    assert forall i :: 0 <= i < |issued| ==> OnItsChain(issued[i], seeds) && OnItsChain(issued[i], more);
  }

  /** A distribution nobody has heard of yet begins at 0, and has issued nothing. */
  lemma ReplacingKeepsStored(start: System, issued: seq<Message>, storage: Storage, key: LockKey, r: LocalRecord)
    requires StoredUpTo(start, issued, storage) && MessagesOf(issued, r.distributionId) == []
    requires r.distributionId !in start.seeds && r.state.chainId == 0
    ensures StoredUpTo(start, issued, storage[key := r])
  {
  }

  lemma ReplacingKeepsSound(start: System, s: System, t: nat, after: LocalRecord, supply: Supply, progress: Progress,
                            s': System)
    requires Sound(start, s) && Holder(s, t) && IsNew(s, supply)
    requires after == Created(supply, after.memberDeviceFingerprint)
    requires progress.Loaded? ==> progress.found == Some(after)
    requires s' == s.(works := At(s, t, progress), storage := s.storage[s.mutex.claims[t].key := after],
                      seeds := s.seeds[supply.distributionId := Start(s.mutex.claims[t].key, supply.seed, supply.signer)])
    ensures Sound(start, s')
  {
    hide FirstId;
    hide InUse;
    hide MessagesOf;
    hide Queued;
    WriteKeepsReads(s, t, after, progress, s');
    MoreSeedsKeepIssued(start, s.issued, s.seeds, supply.distributionId, s'.seeds);
    ReplacingKeepsStored(start, s.issued, s.storage, s.mutex.claims[t].key, after);
  }

  lemma CommitOtherKeepsSound(start: System, s: System, t: nat, supply: Supply)
    requires Sound(start, s) && Possible(s, Commit(t, supply)) && !s.works[t].request.EncryptEnvelope?
    ensures Sound(start, Next(s, Commit(t, supply)))
  {
    hide FirstId;
    hide InUse;
    hide MessagesOf;
    hide IssuedInOrder;
    hide StoredUpTo;
    hide Queued;
    var s' := Next(s, Commit(t, supply));
    var key := s.mutex.claims[t].key;
    var r := s.works[t].progress.found.value;
    assert Stored(s.storage, key) == Some(r) && Seeded(key, r, s.seeds);
    OthersKeepOrReplace(r, s.works[t].request, supply);
    var after := Changed(r, s.works[t].request, supply);
    if after.distributionId == r.distributionId {
      KeepingKeepsSound(start, s, t, after, s');
    } else {
      ReplacingKeepsSound(start, s, t, after, supply, Returning(None), s');
    }
  }

  lemma LockMoveKeepsSound(start: System, s: System, m: Move)
    requires Sound(start, s) && Possible(s, m)
    requires m.Call? || m.Enter? || m.Load? || m.Mirror? || m.Leave? || m.Throw? || m.Other?
    ensures Sound(start, Next(s, m))
  {
    hide FirstId;
    hide InUse;
    hide MessagesOf;
    hide IssuedInOrder;
    hide StoredUpTo;
    hide Queued;
    hide StorageSeeded;
    hide AllOnChain;
    hide WithMirror;
    hide Remote.Step;
    match m
    case Call(key, _) => ActionKeepsQueue(s.mutex, SenderKeyLock.Request(key));
    case Enter(t) => ActionKeepsQueue(s.mutex, Begin(t));
    case Leave(t) => ActionKeepsQueue(s.mutex, Release(t));
    case Throw(t) => ActionKeepsQueue(s.mutex, Release(t));
    case _ =>
  }

  lemma MoveKeepsSound(start: System, s: System, m: Move)
    requires Sound(start, s) && Possible(s, m)
    ensures Sound(start, Next(s, m))
  {
    match m
    case Create(t, supply) =>
      var r := Created(supply, None);
      ReplacingKeepsSound(start, s, t, r, supply, Loaded(Some(r), false), Next(s, m));
    case Commit(t, supply) =>
      if s.works[t].request.EncryptEnvelope? {
        CommitEncryptKeepsSound(start, s, t, supply);
      } else {
        CommitOtherKeepsSound(start, s, t, supply);
      }
    case _ => LockMoveKeepsSound(start, s, m);
  }

  /** A device that starts with the given records, each on its own chain, and has issued nothing yet. */
  ghost predicate Starting(s: System) {
    && s.mutex == IDLE && s.works == [] && s.issued == []
    && StorageSeeded(s.storage, s.seeds) && SeedsDistinct(s.seeds)
  }

  lemma StartingIsSound(start: System)
    requires Starting(start)
    ensures Sound(start, start)
  {
    RunsStayQueued([]);
  }

  /** Soundness lasts from any state of a run to any later one. */
  lemma {:induction false} LaterStaysSound(start: System, s: System, moves: seq<Move>)
    requires Sound(start, s) && RunMoves(s, moves).Some?
    ensures Sound(start, RunMoves(s, moves).value)
  {
    hide Sound;
    hide Next;
    hide Possible;
    if moves != [] {
      LaterStaysSound(start, s, moves[..|moves| - 1]);
      MoveKeepsSound(start, RunMoves(s, moves[..|moves| - 1]).value, moves[|moves| - 1]);
    }
  }

  lemma RunsStaySound(start: System, moves: seq<Move>)
    requires Starting(start) && RunMoves(start, moves).Some?
    ensures Sound(start, RunMoves(start, moves).value)
  {
    StartingIsSound(start);
    LaterStaysSound(start, start, moves);
  }

  /**
   * However calls interleave, the ids issued for a distribution are consecutive, none repeated and
   * none missing, from the index of the record the device started with, or from 0.
   */
  lemma IssuedIdsAreConsecutive(start: System, moves: seq<Move>, distributionId: string, i: nat)
    requires Starting(start) && RunMoves(start, moves).Some?
    requires i < |MessagesOf(RunMoves(start, moves).value.issued, distributionId)|
    ensures var m := MessagesOf(RunMoves(start, moves).value.issued, distributionId)[i];
            m.distributionId == distributionId && m.messageId == FirstId(start, distributionId) + i
  {
    RunsStaySound(start, moves);
    var issued := RunMoves(start, moves).value.issued;
    assert IdsFrom(MessagesOf(issued, distributionId), FirstId(start, distributionId));
    AreOfDistribution(issued, distributionId);
  }

  lemma {:induction false} AreOfDistribution(issued: seq<Message>, d: string)
    ensures forall i :: 0 <= i < |MessagesOf(issued, d)| ==>
              MessagesOf(issued, d)[i] in issued && MessagesOf(issued, d)[i].distributionId == d
  {
    if issued != [] {
      AreOfDistribution(issued[..|issued| - 1], d);
    }
  }

  /** Where an issued message stands among those of its distribution. */
  function PositionOf(issued: seq<Message>, i: nat): nat
    requires i < |issued|
  {
    |MessagesOf(issued[..i], issued[i].distributionId)|
  }

  lemma {:induction false} StandsAtPosition(issued: seq<Message>, i: nat)
    requires i < |issued|
    ensures var ms := MessagesOf(issued, issued[i].distributionId);
            PositionOf(issued, i) < |ms| && ms[PositionOf(issued, i)] == issued[i]
  {
    var before := issued[..|issued| - 1];
    if i < |before| {
      StandsAtPosition(before, i);
      assert before[..i] == issued[..i];
    }
  }

  /** Two messages of one distribution stand at different positions, in the order they were issued in. */
  lemma LaterStandsLater(issued: seq<Message>, i: nat, j: nat)
    requires i < j < |issued| && issued[i].distributionId == issued[j].distributionId
    ensures PositionOf(issued, i) < PositionOf(issued, j)
  {
    StandsAtPosition(issued[..j], i);
    assert issued[..j][..i] == issued[..i];
  }

  /** No two envelopes ever issued, of one distribution or of two, are sealed under the same key. */
  lemma MessageKeysAreUnique(start: System, moves: seq<Move>, i: nat, j: nat)
    requires Starting(start) && RunMoves(start, moves).Some?
    requires i < j < |RunMoves(start, moves).value.issued|
    ensures var issued := RunMoves(start, moves).value.issued;
            && issued[i].ciphertext.Sealed? && issued[j].ciphertext.Sealed?
            && issued[i].ciphertext.key != issued[j].ciphertext.key
  {
    hide MessagesOf;
    hide PositionOf;
    hide FirstId;
    RunsStaySound(start, moves);
    var w := RunMoves(start, moves).value;
    var a, b := w.issued[i], w.issued[j];
    assert OnItsChain(a, w.seeds) && OnItsChain(b, w.seeds);
    AdvanceInjective(Random(w.seeds[a.distributionId].seed), a.messageId, Random(w.seeds[b.distributionId].seed), b.messageId);
    if a.distributionId == b.distributionId {
      LaterHasLaterId(start, w, i, j);
    }
  }

  lemma LaterHasLaterId(start: System, s: System, i: nat, j: nat)
    requires Sound(start, s) && i < j < |s.issued| && s.issued[i].distributionId == s.issued[j].distributionId
    ensures s.issued[i].messageId < s.issued[j].messageId
  {
    hide MessagesOf;
    hide FirstId;
    StandsAtPosition(s.issued, i);
    StandsAtPosition(s.issued, j);
    LaterStandsLater(s.issued, i, j);
    assert IdsFrom(MessagesOf(s.issued, s.issued[i].distributionId), FirstId(start, s.issued[i].distributionId));
  }
}
