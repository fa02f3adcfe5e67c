/**
 * The stored remote sender keys of a group member (apps/web/src/lib/group-sender-key-*).
 */
module SenderKeyRecords {
  import opened Wrappers
  import opened Symbolic
  import opened SenderKey
  import opened SenderKeyChain

  // Imports, live decrypts, the sender's own mirror, and the in-memory replay of a group's history.
  // A stored state drops the key cache, so the live path can only move forward.

  /** `${prefix}${groupId}:${senderDeviceId}:${distributionId}` */
  datatype StorageKey = StorageKey(groupId: string, senderDeviceId: string, distributionId: string)

  datatype Envelope = Envelope(groupId: string, senderDeviceId: string, message: Message)

  /** The serialised part of a sender-key state. */
  datatype Point = Point(chainKey: Term, chainId: nat, signingPublicKey: nat)

  datatype Record = Record(state: Point, initialState: Option<Point>)

  type Content = string

  datatype DecryptResult =
    | Content(content: Content)
    | MissingSenderKey
    | DecryptFailed
    | InvalidPayload

  type Parser = Plaintext -> Option<Content>

  function KeyOf(e: Envelope): StorageKey {
    StorageKey(e.groupId, e.senderDeviceId, e.message.distributionId)
  }

  function Serialized(v: Chain): Point {
    Point(v.chainKey, v.chainId, v.signingPublicKey)
  }

  function Deserialized(p: Point): Chain {
    Chain(p.chainKey, p.chainId, p.signingPublicKey, false, map[])
  }

  // ---- what each operation does to one record ----

  function OrElse(first: Option<Point>, second: Point): Option<Point> {
    if first.Some? then first else Some(second)
  }

  function InitialOf(existing: Option<Record>): Option<Point> {
    if existing.Some? then existing.value.initialState else None
  }

  function Imported(existing: Option<Record>, p: Point): Record {
    if existing.Some? && existing.value.state.chainId > p.chainId
    then Record(existing.value.state, OrElse(existing.value.initialState, p))
    else Record(p, OrElse(InitialOf(existing), p))
  }

  function Saved(existing: Option<Record>, v: Chain): Record {
    Record(Serialized(v), OrElse(InitialOf(existing), Serialized(v)))
  }

  function Mirrored(existing: Option<Record>, v: Chain): Record {
    if existing.Some? then existing.value else Record(Serialized(v), Some(Serialized(v)))
  }

  function Flushed(stored: Record, replayed: Chain): Record {
    if stored.state.chainId >= replayed.chainId then stored
    else Record(Serialized(replayed), OrElse(stored.initialState, stored.state))
  }

  /** Where a replay starts: the oldest point the record remembers. */
  function ReplayStart(r: Record): Chain {
    Deserialized(if r.initialState.Some? then r.initialState.value else r.state)
  }

  function Classify(parse: Parser, plain: Plaintext): DecryptResult {
    match parse(plain)
    case Some(content) => Content(content)
    case None => InvalidPayload
  }

  function ResultOf(parse: Parser, v: Chain, m: Message): DecryptResult {
    match Decrypt(v, m)
    case Success((_, plain)) => Classify(parse, plain)
    case Failure(_) => DecryptFailed
  }

  // ---- the code ----

  type Records = map<StorageKey, Record>
  type Replays = map<StorageKey, Chain>

  function Find(records: Records, key: StorageKey): Option<Record> {
    if key in records then Some(records[key]) else None
  }

  function AfterLive(records: Records, e: Envelope): Records {
    if KeyOf(e) !in records then records
    else
      match Decrypt(Deserialized(records[KeyOf(e)].state), e.message)
      case Success((v, _)) => records[KeyOf(e) := Saved(Find(records, KeyOf(e)), v)]
      case Failure(_) => records
  }

  /** The state a replay opens an envelope with: its own, or else where the record lets it start. */
  function ReplayFrom(records: Records, replays: Replays, key: StorageKey): Option<Chain> {
    if key in replays then Some(replays[key])
    else if key in records then Some(ReplayStart(records[key]))
    else None
  }

  function AfterReplay(records: Records, replays: Replays, e: Envelope): Replays {
    match ReplayFrom(records, replays, KeyOf(e))
    case None => replays
    case Some(v) =>
      match Decrypt(v, e.message)
      case Success((v', _)) => replays[KeyOf(e) := v']
      case Failure(_) => replays
  }

  function ReplayResult(parse: Parser, records: Records, replays: Replays, e: Envelope): DecryptResult {
    match ReplayFrom(records, replays, KeyOf(e))
    case None => MissingSenderKey
    case Some(v) => ResultOf(parse, v, e.message)
  }

  /** `after` is `before` with every replayed record brought up to its replay. */
  ghost predicate FlushOf(before: Records, replays: Replays, after: Records) {
    && after.Keys == before.Keys
    && forall key :: key in before ==>
         after[key] ==
         if key in replays && replays[key].chainId > before[key].state.chainId
         then Record(Point(replays[key].chainKey, replays[key].chainId, replays[key].signingPublicKey),
                     if before[key].initialState.Some? then before[key].initialState else Some(before[key].state))
         else before[key]
  }

  class ReplayContext {
    var stateByStorageKey: Replays

    constructor ()
      ensures stateByStorageKey == map[]
    {
      stateByStorageKey := map[];
    }
  }

  class RemoteKeyStore {
    var records: Records
    const parse: Parser

    constructor (parse: Parser)
      ensures records == map[] && this.parse == parse
    {
      records := map[];
      this.parse := parse;
    }

    method SaveRemoteSenderKeyState(key: StorageKey, state: Chain)
      modifies this
      ensures records == old(records)[key := Saved(Find(old(records), key), state)]
      ensures records[key].state == Point(state.chainKey, state.chainId, state.signingPublicKey)
      ensures records[key].initialState
              == if key in old(records) && old(records)[key].initialState.Some? then old(records)[key].initialState
                 else Some(records[key].state)
    {
      var existing := Find(records, key);
      var stored := Serialized(state);
      records := records[key := Record(stored, if existing.Some? && existing.value.initialState.Some?
                                               then existing.value.initialState else Some(stored))];
    }

    /** The live path; the text and attachment variants differ only in the parser. */
    method DecryptEnvelope(e: Envelope) returns (r: DecryptResult)
      modifies this
      ensures records == AfterLive(old(records), e)
      ensures r == if KeyOf(e) !in old(records) then MissingSenderKey
                   else ResultOf(parse, Deserialized(old(records)[KeyOf(e)].state), e.message)
      ensures r.MissingSenderKey? <==>
                StorageKey(e.groupId, e.senderDeviceId, e.message.distributionId) !in old(records)
      ensures r.Content? ==> e.message.ciphertext.Sealed? && parse(e.message.ciphertext.plain) == Some(r.content)
      ensures r.InvalidPayload? ==> e.message.ciphertext.Sealed? && parse(e.message.ciphertext.plain).None?
      ensures r.Content? || r.InvalidPayload? <==> records != old(records)
    {
      var key := KeyOf(e);
      if key !in records {
        return MissingSenderKey;
      }
      var outcome := Decrypt(Deserialized(records[key].state), e.message);
      if outcome.Failure? {
        return DecryptFailed;
      }
      SaveRemoteSenderKeyState(key, outcome.value.0);
      var content := parse(outcome.value.1);
      r := if content.Some? then Content(content.value) else InvalidPayload;
    }

    method ImportSenderKeyDistribution(key: StorageKey, imported: Point)
      modifies this
      ensures records == old(records)[key := Imported(Find(old(records), key), imported)]
      ensures records[key].state
              == if key in old(records) && old(records)[key].state.chainId > imported.chainId then old(records)[key].state
                 else imported
      ensures records[key].initialState
              == if key in old(records) && old(records)[key].initialState.Some? then old(records)[key].initialState
                 else Some(imported)
    {
      if key in records && records[key].state.chainId > imported.chainId {
        if records[key].initialState.None? {
          records := records[key := records[key].(initialState := Some(imported))];
        }
      } else {
        var initial := if key in records then records[key].initialState else None;
        records := records[key := Record(imported, if initial.Some? then initial else Some(imported))];
      }
    }

    method EnsureSelfRemoteSenderKeyState(key: StorageKey, own: Chain)
      modifies this
      ensures records == old(records)[key := Mirrored(Find(old(records), key), own)]
      ensures key in old(records) ==> records == old(records)
      ensures key !in old(records) ==>
                var start := Point(own.chainKey, own.chainId, own.signingPublicKey);
                records == old(records)[key := Record(start, Some(start))]
    {
      if key !in records {
        var state := Serialized(own);
        records := records[key := Record(state, Some(state))];
      }
    }

    method DecryptForHistory(e: Envelope, replay: ReplayContext) returns (r: DecryptResult)
      modifies replay
      ensures replay.stateByStorageKey == AfterReplay(records, old(replay.stateByStorageKey), e)
      ensures r == ReplayResult(parse, records, old(replay.stateByStorageKey), e)
      ensures var key := StorageKey(e.groupId, e.senderDeviceId, e.message.distributionId);
              r.MissingSenderKey? <==> key !in old(replay.stateByStorageKey) && key !in records
      ensures r.Content? ==> e.message.ciphertext.Sealed? && parse(e.message.ciphertext.plain) == Some(r.content)
      ensures r.InvalidPayload? ==> e.message.ciphertext.Sealed? && parse(e.message.ciphertext.plain).None?
    {
      var key := KeyOf(e);
      var state: Chain;
      if key in replay.stateByStorageKey {
        state := replay.stateByStorageKey[key];
      } else if key !in records {
        return MissingSenderKey;
      } else if records[key].initialState.Some? {
        state := Deserialized(records[key].initialState.value);
      } else {
        state := Deserialized(records[key].state);
      }
      var outcome := Decrypt(state, e.message);
      if outcome.Failure? {
        return DecryptFailed;
      }
      replay.stateByStorageKey := replay.stateByStorageKey[key := outcome.value.0];
      var content := parse(outcome.value.1);
      r := if content.Some? then Content(content.value) else InvalidPayload;
    }

    method FlushGroupHistoryReplayContext(replay: ReplayContext)
      modifies this
      ensures FlushOf(old(records), replay.stateByStorageKey, records)
    {
      var todo := replay.stateByStorageKey.Keys;
      while todo != {}
        invariant todo <= replay.stateByStorageKey.Keys
        invariant records.Keys == old(records).Keys
        invariant forall key :: key in records ==>
                    records[key] == if key in replay.stateByStorageKey && key !in todo
                                    then Flushed(old(records)[key], replay.stateByStorageKey[key])
                                    else old(records)[key]
      {
        var key :| key in todo;
        todo := todo - {key};
        if key in records {
          var stored, replayed := records[key], replay.stateByStorageKey[key];
          if stored.state.chainId < replayed.chainId {
            records := records[key := Record(Serialized(replayed), if stored.initialState.Some? then stored.initialState
                                                                   else Some(stored.state))];
          }
        }
      }
    }
  }

  // ---- whole runs: any interleaving of these operations, each taken atomically ----

  datatype Op =
    | Import(key: StorageKey, point: Point)
    | Live(envelope: Envelope)
    | Mirror(key: StorageKey, own: Chain)
    | Replay(context: nat, envelope: Envelope)
    | Flush(context: nat)

  datatype World = World(records: Records, contexts: map<nat, Replays>)

  function ContextOf(w: World, context: nat): Replays {
    if context in w.contexts then w.contexts[context] else map[]
  }

  function FlushAll(records: Records, replays: Replays): Records {
    map key | key in records :: if key in replays then Flushed(records[key], replays[key]) else records[key]
  }

  function Step(w: World, op: Op): World {
    match op
    case Import(key, p) => w.(records := w.records[key := Imported(Find(w.records, key), p)])
    case Live(e) => w.(records := AfterLive(w.records, e))
    case Mirror(key, own) => w.(records := w.records[key := Mirrored(Find(w.records, key), own)])
    case Replay(c, e) => w.(contexts := w.contexts[c := AfterReplay(w.records, ContextOf(w, c), e)])
    case Flush(c) => w.(records := FlushAll(w.records, ContextOf(w, c)))
  }

  function Run(w: World, ops: seq<Op>): World
    decreases |ops|
  {
    if ops == [] then w else Run(Step(w, ops[0]), ops[1..])
  }

  lemma FlushAllIsFlushOf(before: Records, replays: Replays, after: Records)
    ensures FlushOf(before, replays, after) <==> after == FlushAll(before, replays)
  {
    assert FlushAll(before, replays).Keys == before.Keys;
  }

  // ---- stored keys only move forward ----

  ghost predicate OnChain(o: Origin, chainKey: Term, chainId: nat, signer: nat) {
    o.start <= chainId && chainKey == Advance(o.base, chainId - o.start) && signer == o.signer
  }

  ghost predicate PointOn(o: Origin, p: Point) {
    OnChain(o, p.chainKey, p.chainId, p.signingPublicKey)
  }

  ghost predicate RecordOn(o: Origin, r: Record) {
    && PointOn(o, r.state)
    && (r.initialState.Some? ==> PointOn(o, r.initialState.value) && r.initialState.value.chainId <= r.state.chainId)
  }

  /** Imports and mirrors for `key` carry points of the sender's chain; envelopes may be anything. */
  ghost predicate Honest(o: Origin, key: StorageKey, op: Op) {
    && (op.Import? && op.key == key ==> PointOn(o, op.point))
    && (op.Mirror? && op.key == key ==> PointOn(o, Serialized(op.own)))
  }

  ghost predicate AllHonest(o: Origin, key: StorageKey, ops: seq<Op>) {
    forall op :: op in ops ==> Honest(o, key, op)
  }

  ghost predicate ReplayOn(o: Origin, key: StorageKey, replays: Replays) {
    key in replays ==> PointOn(o, Serialized(replays[key]))
  }

  ghost predicate ReplaysOn(o: Origin, key: StorageKey, w: World) {
    forall c: nat :: ReplayOn(o, key, ContextOf(w, c))
  }

  ghost predicate WorldOn(o: Origin, key: StorageKey, w: World) {
    (key in w.records ==> RecordOn(o, w.records[key])) && ReplaysOn(o, key, w)
  }

  /** `after` is a later point of the same stored key. */
  ghost predicate Forward(before: Option<Record>, after: Option<Record>) {
    before.Some? ==>
      && after.Some?
      && before.value.state.chainId <= after.value.state.chainId
      && (before.value.initialState.Some? ==> after.value.initialState == before.value.initialState)
  }

  lemma DecryptStaysOnChain(o: Origin, v: Chain, m: Message)
    requires PointOn(o, Serialized(v)) && Decrypt(v, m).Success?
    ensures PointOn(o, Serialized(Decrypt(v, m).value.0))
    ensures v.chainId <= Decrypt(v, m).value.0.chainId
  {
    if v.chainId <= m.messageId {
      AdvanceAdd(o.base, v.chainId - o.start, m.messageId + 1 - v.chainId);
    }
  }

  lemma LiveMovesForward(o: Origin, key: StorageKey, records: Records, e: Envelope)
    requires key in records ==> RecordOn(o, records[key])
    ensures key in AfterLive(records, e) ==> RecordOn(o, AfterLive(records, e)[key])
    ensures Forward(Find(records, key), Find(AfterLive(records, e), key))
  {
    if key in records && KeyOf(e) == key {
      var v := Deserialized(records[key].state);
      if Decrypt(v, e.message).Success? {
        DecryptStaysOnChain(o, v, e.message);
      }
    }
  }

  lemma ReplayStaysOnChain(o: Origin, key: StorageKey, records: Records, replays: Replays, e: Envelope)
    requires key in records ==> RecordOn(o, records[key])
    requires ReplayOn(o, key, replays)
    ensures ReplayOn(o, key, AfterReplay(records, replays, e))
  {
    var from := ReplayFrom(records, replays, KeyOf(e));
    if KeyOf(e) == key && from.Some? && Decrypt(from.value, e.message).Success? {
      DecryptStaysOnChain(o, from.value, e.message);
    }
  }

  lemma StepKeepsReplaysOn(o: Origin, key: StorageKey, w: World, op: Op)
    requires WorldOn(o, key, w)
    ensures ReplaysOn(o, key, Step(w, op))
  {
    forall c: nat
      ensures ReplayOn(o, key, ContextOf(Step(w, op), c))
    {
      assert ReplayOn(o, key, ContextOf(w, c));
      if op.Replay? && op.context == c {
        ReplayStaysOnChain(o, key, w.records, ContextOf(w, c), op.envelope);
      }
    }
  }

  lemma StepMovesForward(o: Origin, key: StorageKey, w: World, op: Op)
    requires WorldOn(o, key, w) && Honest(o, key, op)
    ensures WorldOn(o, key, Step(w, op))
    ensures Forward(Find(w.records, key), Find(Step(w, op).records, key))
  {
    StepKeepsReplaysOn(o, key, w, op);
    if op.Live? {
      LiveMovesForward(o, key, w.records, op.envelope);
    } else if op.Flush? {
      assert ReplayOn(o, key, ContextOf(w, op.context));
    }
  }

  /**
   * Over any run: the stored index never decreases, an initial state once set never changes and is
   * never ahead of the current one, and both stay points of the sender's one chain.
   */
  lemma {:induction false} StoredKeysOnlyMoveForward(o: Origin, key: StorageKey, w: World, ops: seq<Op>)
    requires WorldOn(o, key, w) && AllHonest(o, key, ops)
    ensures WorldOn(o, key, Run(w, ops))
    ensures Forward(Find(w.records, key), Find(Run(w, ops).records, key))
    decreases |ops|
  {
    if ops != [] {
      assert ops[0] in ops;
      StepMovesForward(o, key, w, ops[0]);
      StoredKeysOnlyMoveForward(o, key, Step(w, ops[0]), ops[1..]);
    }
  }

  /** The record an envelope is read with is the one of its own group, sender device and distribution. */
  lemma EnvelopeNamesItsRecord(e: Envelope, key: StorageKey)
    ensures KeyOf(e) == key <==>
              e.groupId == key.groupId && e.senderDeviceId == key.senderDeviceId
              && e.message.distributionId == key.distributionId
  {
  }

  /** A live decrypt opens exactly the authentic messages ahead of the stored index, 1000 at most. */
  lemma LiveOpensOnlyAhead(records: Records, e: Envelope, plain: Plaintext)
    requires KeyOf(e) in records
    ensures var p := records[KeyOf(e)].state;
            var o := Origin(p.chainKey, p.chainId, e.message.distributionId, p.signingPublicKey);
            Decrypt(Deserialized(p), e.message).Success? && Decrypt(Deserialized(p), e.message).value.1 == plain
            <==> Authentic(o, e.message, plain) && e.message.messageId - p.chainId <= MAX_SENDER_KEY_SKIP
    ensures Decrypt(Deserialized(records[KeyOf(e)].state), e.message).Success? ==>
              var p, after := records[KeyOf(e)].state, AfterLive(records, e)[KeyOf(e)];
              && p.chainId <= e.message.messageId
              && after.state == Point(Advance(p.chainKey, e.message.messageId + 1 - p.chainId), e.message.messageId + 1,
                                      p.signingPublicKey)
              && after.initialState == if records[KeyOf(e)].initialState.Some? then records[KeyOf(e)].initialState
                                       else Some(after.state)
    ensures Decrypt(Deserialized(records[KeyOf(e)].state), e.message).Failure? ==> AfterLive(records, e) == records
    ensures AfterLive(records, e).Keys == records.Keys
    ensures forall key :: key in records && key != KeyOf(e) ==> AfterLive(records, e)[key] == records[key]
  {
    hide Cache;
    var p := records[KeyOf(e)].state;
    var o := Origin(p.chainKey, p.chainId, e.message.distributionId, p.signingPublicKey);
    DecryptExact(o, Deserialized(p), {}, e.message, plain);
  }

  /** A later point of a chain makes the same keys: being authentic does not depend on where one starts. */
  lemma AuthenticFromPoint(o: Origin, p: Point, m: Message, plain: Plaintext)
    requires PointOn(o, p) && p.chainId <= m.messageId
    ensures Authentic(Origin(p.chainKey, p.chainId, o.distributionId, p.signingPublicKey), m, plain)
            <==> Authentic(o, m, plain)
  {
    AdvanceAdd(o.base, p.chainId - o.start, m.messageId - p.chainId);
  }

  /**
   * On a record of the sender's chain the live path opens exactly the sender's messages from the stored
   * index to 1000 beyond it.
   */
  lemma LiveOpensExactly(o: Origin, records: Records, e: Envelope, plain: Plaintext)
    requires KeyOf(e) in records && RecordOn(o, records[KeyOf(e)]) && e.message.distributionId == o.distributionId
    ensures var p := records[KeyOf(e)].state;
            Decrypt(Deserialized(p), e.message).Success? && Decrypt(Deserialized(p), e.message).value.1 == plain
            <==> Authentic(o, e.message, plain) && p.chainId <= e.message.messageId <= p.chainId + 1000
  {
    hide Decrypt;
    hide AfterLive;
    LiveOpensOnlyAhead(records, e, plain);
    if records[KeyOf(e)].state.chainId <= e.message.messageId {
      AuthenticFromPoint(o, records[KeyOf(e)].state, e.message, plain);
    }
  }

  /** An import leaves the later of the stored and the imported state, and touches nothing else. */
  lemma ImportKeepsTheLater(w: World, key: StorageKey, p: Point)
    ensures var w' := Step(w, Import(key, p));
            && key in w'.records
            && w'.records[key].state ==
               (if key in w.records && w.records[key].state.chainId > p.chainId then w.records[key].state else p)
            && w'.records[key].initialState ==
               (if key in w.records && w.records[key].initialState.Some? then w.records[key].initialState else Some(p))
            && w'.contexts == w.contexts && w'.records.Keys == w.records.Keys + {key}
            && forall k :: k in w.records && k != key ==> w'.records[k] == w.records[k]
  {
  }

  /** A mirror starts a record where the sender stands, once; a record that is there stays as it is. */
  lemma MirrorStartsOnce(w: World, key: StorageKey, own: Chain)
    ensures var w', start := Step(w, Mirror(key, own)), Point(own.chainKey, own.chainId, own.signingPublicKey);
            && w'.contexts == w.contexts
            && w'.records == if key in w.records then w.records else w.records[key := Record(start, Some(start))]
  {
  }

  /** A flush brings every record its replay is ahead of up to the replay, and changes nothing else. */
  lemma FlushBringsForward(w: World, c: nat)
    ensures Step(w, Flush(c)).contexts == w.contexts
    ensures FlushOf(w.records, ContextOf(w, c), Step(w, Flush(c)).records)
  {
    FlushAllIsFlushOf(w.records, ContextOf(w, c), FlushAll(w.records, ContextOf(w, c)));
  }

  /**
   * Right after the sender's point `p` was imported, the live path opens exactly its messages from the
   * stored index, `p`'s own unless an older state was ahead of it, to 1000 beyond.
   */
  lemma ImportOpensTheWindow(o: Origin, w: World, key: StorageKey, p: Point, e: Envelope, plain: Plaintext)
    requires WorldOn(o, key, w) && PointOn(o, p) && e.message.distributionId == o.distributionId
    requires key == StorageKey(e.groupId, e.senderDeviceId, e.message.distributionId)
    ensures var records := Step(w, Import(key, p)).records;
            var first := if key in w.records && w.records[key].state.chainId > p.chainId
                         then w.records[key].state.chainId else p.chainId;
            && key in records
            && (Decrypt(Deserialized(records[key].state), e.message).Success?
                && Decrypt(Deserialized(records[key].state), e.message).value.1 == plain
                <==> Authentic(o, e.message, plain) && first <= e.message.messageId <= first + 1000)
  {
    hide Decrypt;
    ImportKeepsTheLater(w, key, p);
    StepMovesForward(o, key, w, Import(key, p));
    LiveOpensExactly(o, Step(w, Import(key, p)).records, e, plain);
  }

  // ---- replay depends on the initial state alone ----

  /** What replaying the messages one after the other from `v` answers. */
  function ReplayAlone(parse: Parser, v: Chain, ms: seq<Message>): seq<DecryptResult>
    decreases |ms|
  {
    if ms == [] then []
    else [ResultOf(parse, v, ms[0])] + ReplayAlone(parse, Next(v, ms[0]), ms[1..])
  }

  function Next(v: Chain, m: Message): Chain {
    match Decrypt(v, m)
    case Success((v', _)) => v'
    case Failure(_) => v
  }

  predicate IsReplayOf(op: Op, c: nat, key: StorageKey) {
    op.Replay? && op.context == c && KeyOf(op.envelope) == key
  }

  function Replayed(ops: seq<Op>, c: nat, key: StorageKey): seq<Message> {
    if ops == [] then []
    else (if IsReplayOf(ops[0], c, key) then [ops[0].envelope.message] else []) + Replayed(ops[1..], c, key)
  }

  /** What the replays of context `c` for `key` answer during a run. */
  function Answers(parse: Parser, w: World, ops: seq<Op>, c: nat, key: StorageKey): seq<DecryptResult>
    decreases |ops|
  {
    if ops == [] then []
    else
      (if IsReplayOf(ops[0], c, key) then [ReplayResult(parse, w.records, ContextOf(w, c), ops[0].envelope)] else [])
      + Answers(parse, Step(w, ops[0]), ops[1..], c, key)
  }

  /** The replay already has a state of its own, or the record holds the initial state it will start from. */
  ghost predicate StartsAt(w: World, c: nat, key: StorageKey, v: Chain) {
    if key in ContextOf(w, c) then ContextOf(w, c)[key] == v
    else key in w.records && w.records[key].initialState.Some? && Deserialized(w.records[key].initialState.value) == v
  }

  lemma StepKeepsStart(w: World, op: Op, c: nat, key: StorageKey, v: Chain)
    requires StartsAt(w, c, key, v)
    ensures StartsAt(Step(w, op), c, key, if IsReplayOf(op, c, key) then Next(v, op.envelope.message) else v)
  {
    if op.Replay? && op.context == c {
      assert ContextOf(Step(w, op), c) == AfterReplay(w.records, ContextOf(w, c), op.envelope);
    } else {
      assert ContextOf(Step(w, op), c) == ContextOf(w, c);
    }
  }

  lemma AnswersFrom(parse: Parser, w: World, e: Envelope, c: nat, v: Chain)
    requires StartsAt(w, c, KeyOf(e), v)
    ensures ReplayResult(parse, w.records, ContextOf(w, c), e) == ResultOf(parse, v, e.message)
  {
  }

  /** However a history replay interleaves with anything else, it answers as if it ran alone. */
  lemma {:induction false} ReplayIsFixedByInitialState(parse: Parser, w: World, ops: seq<Op>, c: nat, key: StorageKey,
                                                       v: Chain)
    requires StartsAt(w, c, key, v)
    ensures Answers(parse, w, ops, c, key) == ReplayAlone(parse, v, Replayed(ops, c, key))
    decreases |ops|
  {
    if ops != [] {
      var rest := Replayed(ops[1..], c, key);
      StepKeepsStart(w, ops[0], c, key, v);
      if IsReplayOf(ops[0], c, key) {
        var m := ops[0].envelope.message;
        AnswersFrom(parse, w, ops[0].envelope, c, v);
        ReplayIsFixedByInitialState(parse, Step(w, ops[0]), ops[1..], c, key, Next(v, m));
        assert ([m] + rest)[1..] == rest;
      } else {
        ReplayIsFixedByInitialState(parse, Step(w, ops[0]), ops[1..], c, key, v);
        assert [] + rest == rest;
      }
    }
  }

  /**
   * A record from before initial states were kept does not have this property: whatever it holds,
   * one live decrypt of the sender's next message makes a later replay refuse that message.
   */
  lemma LegacyReplayDependsOnLiveTraffic(parse: Parser, w: World, c: nat, e: Envelope, plain: Plaintext)
    requires KeyOf(e) in w.records && w.records[KeyOf(e)].initialState.None? && KeyOf(e) !in ContextOf(w, c)
    requires w.records[KeyOf(e)].state.chainId <= MAX_SAFE_INTEGER
    requires e.message == NextMessage(w.records[KeyOf(e)].state, e.message.distributionId, plain)
    ensures Answers(parse, w, [Replay(c, e)], c, KeyOf(e)) == [Classify(parse, plain)]
    ensures Answers(parse, w, [Live(e), Replay(c, e)], c, KeyOf(e)) == [DecryptFailed]
  {
    var p := w.records[KeyOf(e)].state;
    var v := Deserialized(p);
    NextMessageOpens(p, e.message.distributionId, plain);
    var live := Step(w, Live(e));
    var initial := Serialized(Decrypt(v, e.message).value.0);
    assert live.records[KeyOf(e)] == Record(initial, Some(initial));
    assert StartsAt(live, c, KeyOf(e), Deserialized(initial));
    AnswersFrom(parse, live, e, c, Deserialized(initial));
    OneAnswer(parse, w, e, c);
    OneAnswer(parse, live, e, c);
    var both := [Live(e), Replay(c, e)];
    assert both[1..] == [Replay(c, e)];
    assert Answers(parse, w, both, c, KeyOf(e)) == [] + Answers(parse, live, both[1..], c, KeyOf(e));
  }

  lemma OneAnswer(parse: Parser, w: World, e: Envelope, c: nat)
    ensures Answers(parse, w, [Replay(c, e)], c, KeyOf(e)) == [ReplayResult(parse, w.records, ContextOf(w, c), e)]
  {
    var ops := [Replay(c, e)];
    assert Answers(parse, Step(w, ops[0]), ops[1..], c, KeyOf(e)) == [];
  }

  /** What the sender standing at `p` sends next. */
  function NextMessage(p: Point, distributionId: string, plain: Plaintext): Message {
    MessageAt(Origin(p.chainKey, p.chainId, distributionId, p.signingPublicKey), p.chainId, plain)
  }

  lemma NextMessageOpens(p: Point, distributionId: string, plain: Plaintext)
    requires p.chainId <= MAX_SAFE_INTEGER
    ensures var r := Decrypt(Deserialized(p), NextMessage(p, distributionId, plain));
            && r.Success? && r.value.1 == plain && r.value.0.chainId == p.chainId + 1
            && Decrypt(Deserialized(Serialized(r.value.0)), NextMessage(p, distributionId, plain)).Failure?
  {
    var o := Origin(p.chainKey, p.chainId, distributionId, p.signingPublicKey);
    DecryptExact(o, Deserialized(p), {}, NextMessage(p, distributionId, plain), plain);
    assert Authentic(o, NextMessage(p, distributionId, plain), plain);
  }

  /** What a replay answers depends on nothing but the envelopes it is given. */
  ghost predicate FixedReplay(parse: Parser, w: World, c: nat, key: StorageKey) {
    forall first: seq<Op>, second: seq<Op> :: Replayed(first, c, key) == Replayed(second, c, key) ==>
      Answers(parse, w, first, c, key) == Answers(parse, w, second, c, key)
  }

  /** A point no message of which the record, if there is one, could open. */
  function OtherPoint(existing: Option<Record>): Point {
    Point(Random(0), 0, if existing.Some? then existing.value.state.signingPublicKey + 1 else 0)
  }

  /** Where no replay has begun and no initial state is stored, an import decides what a replay answers. */
  lemma ReplayDependsOnImport(parse: Parser, w: World, c: nat, key: StorageKey, e: Envelope)
    requires key !in ContextOf(w, c) && (key in w.records ==> w.records[key].initialState.None?)
    requires var p := OtherPoint(Find(w.records, key));
             e == Envelope(key.groupId, key.senderDeviceId, NextMessage(p, key.distributionId, ""))
    ensures Answers(parse, w, [Replay(c, e)], c, key)
            == [if key in w.records then DecryptFailed else MissingSenderKey]
    ensures Answers(parse, w, [Import(key, OtherPoint(Find(w.records, key))), Replay(c, e)], c, key) == [Classify(parse, "")]
  {
    var p := OtherPoint(Find(w.records, key));
    var later := Step(w, Import(key, p));
    NextMessageOpens(p, key.distributionId, "");
    OneAnswer(parse, w, e, c);
    assert StartsAt(later, c, key, Deserialized(p));
    AnswersFrom(parse, later, e, c, Deserialized(p));
    OneAnswer(parse, later, e, c);
    var both := [Import(key, p), Replay(c, e)];
    assert both[1..] == [Replay(c, e)];
    assert Answers(parse, w, both, c, key) == [] + Answers(parse, later, both[1..], c, key);
  }

  /** Exactly when a replay is independent of everything else: it has begun, or an initial state is stored. */
  lemma ReplayIsFixedExactly(parse: Parser, w: World, c: nat, key: StorageKey)
    ensures FixedReplay(parse, w, c, key) <==>
              key in ContextOf(w, c) || (key in w.records && w.records[key].initialState.Some?)
  {
    if key in ContextOf(w, c) || (key in w.records && w.records[key].initialState.Some?) {
      var v := ReplayFrom(w.records, ContextOf(w, c), key).value;
      forall first: seq<Op>, second: seq<Op> | Replayed(first, c, key) == Replayed(second, c, key)
        ensures Answers(parse, w, first, c, key) == Answers(parse, w, second, c, key)
      {
        ReplayIsFixedByInitialState(parse, w, first, c, key, v);
        ReplayIsFixedByInitialState(parse, w, second, c, key, v);
      }
    } else {
      var p := OtherPoint(Find(w.records, key));
      var e := Envelope(key.groupId, key.senderDeviceId, NextMessage(p, key.distributionId, ""));
      var first, second := [Replay(c, e)], [Import(key, p), Replay(c, e)];
      ReplayDependsOnImport(parse, w, c, key, e);
      assert Classify(parse, "") != DecryptFailed && Classify(parse, "") != MissingSenderKey;
      assert second[1..] == first;
      assert Replayed(second, c, key) == Replayed(first, c, key);
      assert Answers(parse, w, first, c, key)[0] != Answers(parse, w, second, c, key)[0];
    }
  }
}
