/**
 * Two parties run the Double Ratchet over a network that may reorder, delay, drop, repeat,
 * reflect or invent messages. The history of a run is kept beside the two states: `keys[e]` is
 * the key pair of DH epoch e, `chains[e]` the plaintexts sent in it. Odd epochs are sent by the
 * initiator, even ones by the responder; epoch 0 is the responder's signed prekey.
 */
module RatchetSession {
  import opened Wrappers
  import opened Symbolic
  import opened RatchetModel

  datatype Side = Initiator | Responder

  datatype System = System(
    secret: Term,
    context: seq<nat>,
    initiator: Ratchet,
    responder: Ratchet,
    initiatorEpoch: nat,
    responderEpoch: nat,
    keys: seq<nat>,
    chains: seq<seq<Plaintext>>,
    accepted: set<(nat, nat)>,
    evicted: set<(nat, nat)>,
    nextKey: nat)

  function StateOf(s: System, side: Side): Ratchet {
    if side == Initiator then s.initiator else s.responder
  }

  function WithState(s: System, side: Side, v: Ratchet): System {
    if side == Initiator then s.(initiator := v) else s.(responder := v)
  }

  // ---- the one derivation both parties walk along ----

  ghost function Root(secret: Term, keys: seq<nat>, e: nat): Term
    requires e < |keys|
  {
    if e == 0 then secret
    else RootKey(Root(secret, keys, e - 1), SharedOf(keys[e - 1], keys[e]))
  }

  ghost function ChainBase(secret: Term, keys: seq<nat>, e: nat): Term
    requires 1 <= e < |keys|
  {
    ChainKey(Root(secret, keys, e - 1), SharedOf(keys[e - 1], keys[e]))
  }

  ghost function KeyAt(secret: Term, keys: seq<nat>, e: nat, n: nat): Term
    requires 1 <= e < |keys|
  {
    MessageKey(Advance(ChainBase(secret, keys, e), n))
  }

  // ---- genuine messages ----

  /** The number of messages sent in the chain before epoch e by e's sender. */
  ghost function PreviousLength(chains: seq<seq<Plaintext>>, e: nat): nat
    requires e < |chains|
  {
    if e < 2 then 0 else |chains[e - 2]|
  }

  ghost predicate Sent(s: System, e: nat, n: nat) {
    1 <= e < |s.keys| && |s.chains| == |s.keys| && n < |s.chains[e]|
  }

  /** The n-th message of epoch e as its sender produced it. */
  ghost function Genuine(s: System, e: nat, n: nat): Message
    requires Sent(s, e, n)
  {
    var pn := PreviousLength(s.chains, e);
    Message(Header(s.keys[e], pn, n),
            Sealed(KeyAt(s.secret, s.keys, e, n), s.chains[e][n],
                   HeaderAd(s.context, s.keys[e], pn % TWO_32, n % TWO_32)))
  }

  /**
   * What the network can deliver: a message under a key derived from the session's secret is one
   * that was sent, with any header. Everything else is free.
   */
  ghost predicate Possible(s: System, m: Message) {
    m.ciphertext.Sealed? && RootedIn(m.ciphertext.key, s.secret) ==>
      exists e: nat, n: nat :: Sent(s, e, n) && IsVariant(s, m, e, n)
  }

  /** The counters of a header are written with 32 bits. */
  ghost predicate EncodesAlike(h: Header, g: Header) {
    h.dh == g.dh && h.pn % TWO_32 == g.pn % TWO_32 && h.n % TWO_32 == g.n % TWO_32
  }

  /**
   * The header may be anything, another one that encodes the same included. Only a message whose own
   * counters outgrew 32 bits is taken to arrive with its own header or one that encodes differently.
   */
  ghost predicate IsVariant(s: System, m: Message, e: nat, n: nat)
    requires Sent(s, e, n)
  {
    var g := Genuine(s, e, n);
    m.ciphertext == g.ciphertext
    && (m.header == g.header || !EncodesAlike(m.header, g.header)
        || (g.header.pn < TWO_32 && g.header.n < TWO_32))
  }

  // ---- positions ----

  /** The sending epoch of a party. */
  function Epoch(s: System, side: Side): nat {
    if side == Initiator then s.initiatorEpoch else s.responderEpoch
  }

  function StepEpoch(s: System, side: Side): System {
    if side == Initiator then s.(initiatorEpoch := s.initiatorEpoch + 2)
    else s.(responderEpoch := s.responderEpoch + 2)
  }

  function Other(side: Side): Side {
    if side == Initiator then Responder else Initiator
  }

  /** Epochs alternate: the responder reads the initiator's epoch 1, the initiator reads epoch 2, ... */
  ghost function Receiver(e: nat): Side {
    if e == 0 then Initiator else Other(Receiver(e - 1))
  }

  /** Both parties are at an epoch of the history. */
  ghost predicate InHistory(s: System) {
    |s.chains| == |s.keys| && s.initiatorEpoch < |s.keys| && s.responderEpoch < |s.keys|
  }

  /** Whether the receiver's chain is past message n of epoch e. */
  ghost predicate Passed(s: System, e: nat, n: nat)
    requires InHistory(s)
  {
    var i := Epoch(s, Receiver(e));
    1 <= e < i && n < if e == i - 1 then StateOf(s, Receiver(e)).nr else |s.chains[e]|
  }

  /** The keys of `v` sit at epoch i of the shared derivation. */
  ghost predicate AtEpoch(secret: Term, keys: seq<nat>, chains: seq<seq<Plaintext>>, i: nat, v: Ratchet)
    requires |chains| == |keys| && i < |keys|
  {
    && v.dhs == keys[i]
    && v.dhsPrivate == Private(keys[i])
    && v.dhr == (if i == 0 then None else Some(keys[i - 1]))
    && v.rk == Root(secret, keys, i)
    && v.cks == (if i == 0 then None else Some(Advance(ChainBase(secret, keys, i), |chains[i]|)))
    && v.ns == |chains[i]|
    && v.pn == PreviousLength(chains, i)
    && if i < 2 then v.ckr == None && v.nr == 0
       else v.ckr == Some(Advance(ChainBase(secret, keys, i - 1), v.nr)) && v.nr <= |chains[i - 1]|
  }

  ghost predicate KeysInStep(s: System, side: Side)
    requires InHistory(s)
  {
    AtEpoch(s.secret, s.keys, s.chains, Epoch(s, side), StateOf(s, side))
  }

  /** What the store must hold for message n of epoch e. */
  ghost function Expected(s: System, e: nat, n: nat): Option<Term>
    requires 1 <= e < |s.keys|
  {
    if (e, n) in s.accepted || (e, n) in s.evicted then None else Some(KeyAt(s.secret, s.keys, e, n))
  }

  ghost predicate StoreComplete(s: System, side: Side)
    requires InHistory(s)
  {
    forall e: nat, n: nat :: Passed(s, e, n) && Receiver(e) == side ==>
      Lookup(StateOf(s, side).skipped, s.keys[e], n) == Expected(s, e, n)
  }

  ghost predicate IsPassedKey(s: System, side: Side, dh: nat, n: nat)
    requires InHistory(s)
  {
    exists e: nat :: Passed(s, e, n) && Receiver(e) == side && s.keys[e] == dh
  }

  ghost predicate StoreSound(s: System, side: Side)
    requires InHistory(s)
  {
    forall dh: nat, n: nat :: Lookup(StateOf(s, side).skipped, dh, n).Some? ==> IsPassedKey(s, side, dh, n)
  }

  /** The store holds the key of every passed message that is neither accepted nor evicted. */
  ghost predicate StoreExact(s: System, side: Side)
    requires InHistory(s)
  {
    StoreComplete(s, side) && StoreSound(s, side)
  }

  ghost predicate DistinctBelow(keys: seq<nat>, bound: nat) {
    && (forall i, j :: 0 <= i < j < |keys| ==> keys[i] != keys[j])
    && (forall i :: 0 <= i < |keys| ==> keys[i] < bound)
  }

  /** The parties hold the last two epochs, one each; no key is reused. */
  ghost predicate Shape(s: System) {
    && |s.keys| >= 2 && |s.chains| == |s.keys| && s.chains[0] == []
    && Receiver(s.initiatorEpoch) == Responder && Receiver(s.responderEpoch) == Initiator
    && ((s.initiatorEpoch == s.responderEpoch + 1 == |s.keys| - 1)
        || (s.responderEpoch == s.initiatorEpoch + 1 == |s.keys| - 1))
    && DistinctBelow(s.keys, s.nextKey)
  }

  /** What was accepted or evicted has been passed; the current chain is never collected. */
  ghost predicate LogExact(s: System)
    requires InHistory(s)
  {
    && (forall e: nat, n: nat :: (e, n) in s.accepted ==> Passed(s, e, n) && (e, n) !in s.evicted)
    && (forall e: nat, n: nat :: (e, n) in s.evicted ==> Passed(s, e, n) && e + 3 <= Epoch(s, Receiver(e)))
  }

  /**
   * The parties hold the last two epochs of one derivation, one each, and each receiver has the
   * key of every message it passed but neither accepted nor evicted.
   */
  ghost predicate Lockstep(s: System) {
    && Shape(s)
    && (forall side :: KeysInStep(s, side))
    && (forall side :: StoreExact(s, side))
    && LogExact(s)
  }

  // ---- steps ----

  ghost function EpochOf(keys: seq<nat>, dh: nat): nat {
    if exists e: nat :: e < |keys| && keys[e] == dh then (var e: nat :| e < |keys| && keys[e] == dh; e) else |keys|
  }

  ghost predicate TakesDhStep(v: Ratchet, m: Message) {
    Lookup(v.skipped, m.header.dh, m.header.n).None? && IsDhStep(v, m.header.dh)
  }

  /** The messages whose keys the collection of a DH step throws away. */
  ghost function EvictedBy(s: System, before: seq<Entry>): set<(nat, nat)>
    requires |s.chains| == |s.keys|
  {
    set e: nat, n: nat | e < |s.keys| && n < |s.chains[e]|
      && Lookup(before, s.keys[e], n).Some? && Lookup(Collect(before), s.keys[e], n).None? :: (e, n)
  }

  ghost function Send(s: System, side: Side, plain: Plaintext): Result<(System, Message), RatchetError>
    requires InHistory(s)
  {
    match Encrypt(StateOf(s, side), plain, s.context)
    case Failure(e) => Failure(e)
    case Success((v, m)) =>
      var i := Epoch(s, side);
      Success((WithState(s, side, v).(chains := s.chains[i := s.chains[i] + [plain]]), m))
  }

  ghost function Deliver(s: System, side: Side, m: Message): (System, Option<Plaintext>)
    requires InHistory(s)
  {
    var v := StateOf(s, side);
    match Decrypt(v, m, s.context, s.nextKey)
    case Failure(e) => (s.(nextKey := s.nextKey + 1), None)
    case Success((w, plain)) =>
      var t := WithState(s, side, w).(accepted := s.accepted + {(EpochOf(s.keys, m.header.dh), m.header.n)},
                                      nextKey := s.nextKey + 1);
      if TakesDhStep(v, m) then
        (StepEpoch(t, side).(keys := s.keys + [s.nextKey], chains := s.chains + [[]],
                             evicted := s.evicted + EvictedBy(s, Skip(v, m.header.pn).value.skipped)), Some(plain))
      else (t, Some(plain))
  }

  /** The states after x3dh: the initiator has ratcheted once against the responder's prekey. */
  ghost function Start(secret: Term, context: seq<nat>, prekey: nat, first: nat): System {
    System(secret, context, InitSender(secret, prekey, first), InitReceiver(secret, prekey, Private(prekey)),
           1, 0, [prekey, first], [[], []], {}, {}, if prekey < first then first + 1 else prekey + 1)
  }

  ghost predicate Step(s: System, t: System) {
    InHistory(s)
    && ((exists side, plain: Plaintext :: Send(s, side, plain).Success? && t == Send(s, side, plain).value.0)
        || (exists side, m :: Possible(s, m) && t == Deliver(s, side, m).0))
  }

  ghost predicate IsRun(run: seq<System>) {
    && |run| > 0
    && (exists secret, context, prekey: nat, first: nat ::
          prekey != first && run[0] == Start(secret, context, prekey, first))
    && forall i :: 0 <= i < |run| - 1 ==> Step(run[i], run[i + 1])
  }
}
