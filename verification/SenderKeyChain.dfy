/**
 * Whole runs of a group sender-key chain: what a receiver's state is after any stream of messages,
 * and exactly which genuine messages it can still open.
 */
module SenderKeyChain {
  import opened Wrappers
  import opened Symbolic
  import opened SenderKey

  /** Where a distribution message put its receivers: chain key `base` at index `start`. */
  datatype Origin = Origin(base: Term, start: nat, distributionId: string, signer: nat)

  function KeyAt(o: Origin, id: nat): Term
    requires o.start <= id
  {
    MessageKey(Advance(o.base, id - o.start))
  }

  function Fresh(o: Origin): Chain {
    Chain(o.base, o.start, o.signer, false, map[])
  }

  /** The cache holds the key of every index passed over and not yet consumed, and nothing else. */
  ghost predicate CacheExact(o: Origin, chainId: nat, skipped: map<SkipKey, Term>, consumed: set<nat>) {
    && (forall k: SkipKey ::
          k in skipped <==> k.distributionId == o.distributionId && o.start <= k.messageId < chainId
                            && k.messageId !in consumed)
    && forall k: SkipKey :: k in skipped && o.start <= k.messageId ==> skipped[k] == KeyAt(o, k.messageId)
  }

  /** The one state a receiver of `o` can be in once it has opened exactly the indices in `consumed`. */
  ghost predicate Canonical(o: Origin, v: Chain, consumed: set<nat>) {
    && o.start <= v.chainId
    && v.chainKey == Advance(o.base, v.chainId - o.start)
    && v.signingPublicKey == o.signer && !v.canSign
    && (forall id: nat :: id in consumed ==> o.start <= id < v.chainId)
    && (v.chainId == o.start || v.chainId - 1 in consumed)
    && CacheExact(o, v.chainId, v.skipped, consumed)
  }

  // ---- the cache ----

  lemma {:induction false} CacheAt(cached: map<SkipKey, Term>, ck: Term, d: string, from: nat, until: nat, k: SkipKey)
    requires from <= until
    ensures k in Cache(cached, ck, d, from, until) <==>
              k in cached || (k.distributionId == d && from <= k.messageId < until)
    ensures k in Cache(cached, ck, d, from, until) ==>
              Cache(cached, ck, d, from, until)[k] ==
              if k.distributionId == d && from <= k.messageId < until
              then MessageKey(Advance(ck, k.messageId - from)) else cached[k]
    decreases until
  {
    if from < until {
      CacheAt(cached, ck, d, from, until - 1, k);
    }
  }

  lemma {:induction false} CacheSize(cached: map<SkipKey, Term>, ck: Term, d: string, from: nat, until: nat)
    requires from <= until
    ensures |Cache(cached, ck, d, from, until)| <= |cached| + (until - from)
    decreases until
  {
    if from < until {
      CacheSize(cached, ck, d, from, until - 1);
    }
  }

  /** Passing over `chainId <= i < until` and opening `until` caches exactly what is then missing. */
  lemma CacheStaysExact(o: Origin, chainId: nat, skipped: map<SkipKey, Term>, consumed: set<nat>, until: nat)
    requires o.start <= chainId <= until && CacheExact(o, chainId, skipped, consumed)
    requires forall id: nat :: id in consumed ==> o.start <= id < chainId
    ensures CacheExact(o, until + 1,
                       Cache(skipped, Advance(o.base, chainId - o.start), o.distributionId, chainId, until),
                       consumed + {until})
  {
    var ck := Advance(o.base, chainId - o.start);
    var cache := Cache(skipped, ck, o.distributionId, chainId, until);
    forall k: SkipKey
      ensures k in cache <==> k.distributionId == o.distributionId && o.start <= k.messageId < until + 1
                              && k.messageId !in consumed + {until}
      ensures k in cache && o.start <= k.messageId ==> cache[k] == KeyAt(o, k.messageId)
    {
      CacheAt(skipped, ck, o.distributionId, chainId, until, k);
      if chainId <= k.messageId {
        AdvanceAdd(o.base, chainId - o.start, k.messageId - chainId);
      }
    }
  }

  lemma PassedIsCachedOrConsumed(o: Origin, v: Chain, consumed: set<nat>, cached: set<nat>)
    requires Canonical(o, v, consumed) && cached == set k | k in v.skipped :: k.messageId
    ensures cached !! consumed && o.start <= v.chainId
    ensures forall k :: k in v.skipped ==> k.distributionId == o.distributionId
    ensures forall id: nat :: id in cached + consumed <==> o.start <= id < v.chainId
  {
    forall id: nat | o.start <= id < v.chainId && id !in consumed
      ensures id in cached
    {
      assert SkipKey(o.distributionId, id) in v.skipped;
    }
  }

  /** Passed-over indices are either consumed or cached: none is lost, none is held twice. */
  lemma CachedPlusConsumed(o: Origin, v: Chain, consumed: set<nat>)
    requires Canonical(o, v, consumed)
    ensures |v.skipped| + |consumed| == v.chainId - o.start
  {
    hide Canonical;
    var cached := set k | k in v.skipped :: k.messageId;
    PassedIsCachedOrConsumed(o, v, consumed, cached);
    KeysAsIndices(v.skipped, o.distributionId, cached);
    IntervalSize(cached + consumed, o.start, v.chainId);
    DisjointSizes(cached, consumed);
  }

  lemma DisjointSizes(a: set<nat>, b: set<nat>)
    requires a !! b
    ensures |a + b| == |a| + |b|
  {
  }

  lemma {:induction false} KeysAsIndices(m: map<SkipKey, Term>, d: string, ids: set<nat>)
    requires forall k :: k in m ==> k.distributionId == d
    requires ids == set k | k in m :: k.messageId
    ensures |ids| == |m|
    decreases |m|
  {
    if |m| > 0 {
      var k :| k in m;
      var rest := m - {k};
      assert ids == (set j | j in rest :: j.messageId) + {k.messageId};
      KeysAsIndices(rest, d, set j | j in rest :: j.messageId);
    }
  }

  lemma {:induction false} IntervalSize(s: set<nat>, from: nat, until: nat)
    requires from <= until
    requires forall i: nat :: i in s <==> from <= i < until
    ensures |s| == until - from
    decreases until
  {
    if from == until {
      assert s == {};
    } else {
      IntervalSize(s - {until - 1}, from, until - 1);
    }
  }

  // ---- one decryption ----

  /** The message carries, under its own index, the key and header the sender of `o` would use. */
  ghost predicate Authentic(o: Origin, m: Message, plain: Plaintext) {
    && m.distributionId == o.distributionId
    && o.start <= m.messageId <= MAX_SAFE_INTEGER
    && m.signature == Signature(o.signer, SignData(m.distributionId, m.chainId % TWO_32, m.messageId % TWO_32,
                                                   m.ciphertext))
    && m.ciphertext == Sealed(KeyAt(o, m.messageId), plain,
                              if m.authenticatesHeader
                              then GroupAd(m.distributionId, m.chainId % TWO_32, m.messageId % TWO_32) else EmptyAd)
  }

  /**
   * The delivery window. Counting indices rather than stored keys: a message is openable when it
   * was passed over and not yet opened, or when at most 1000 indices below it stay unopened.
   */
  ghost predicate InWindow(o: Origin, v: Chain, consumed: set<nat>, id: int) {
    if id < v.chainId then id >= o.start && id !in consumed
    else id - o.start - |consumed| <= MAX_SENDER_KEY_SKIP
  }

  /** At or above the chain's index the chain has to move up to the message. */
  lemma DecryptAhead(o: Origin, v: Chain, consumed: set<nat>, m: Message, plain: Plaintext)
    requires Canonical(o, v, consumed) && m.distributionId == o.distributionId && v.chainId <= m.messageId
    requires |v.skipped| + |consumed| == v.chainId - o.start
    ensures Decrypt(v, m).Success? && Decrypt(v, m).value.1 == plain <==>
              Authentic(o, m, plain) && InWindow(o, v, consumed, m.messageId)
  {
    hide Cache;
    AdvanceAdd(o.base, v.chainId - o.start, m.messageId - v.chainId);
    assert SkipKey(m.distributionId, m.messageId) !in v.skipped;
  }

  /** Below it, only a cached key opens anything. */
  lemma DecryptBehind(o: Origin, v: Chain, consumed: set<nat>, m: Message, plain: Plaintext)
    requires Canonical(o, v, consumed) && m.distributionId == o.distributionId && m.messageId < v.chainId
    ensures Decrypt(v, m).Success? && Decrypt(v, m).value.1 == plain <==>
              Authentic(o, m, plain) && InWindow(o, v, consumed, m.messageId)
  {
    hide Cache;
  }

  lemma DecryptExact(o: Origin, v: Chain, consumed: set<nat>, m: Message, plain: Plaintext)
    requires Canonical(o, v, consumed) && m.distributionId == o.distributionId
    ensures Decrypt(v, m).Success? && Decrypt(v, m).value.1 == plain <==>
              Authentic(o, m, plain) && InWindow(o, v, consumed, m.messageId)
  {
    CachedPlusConsumed(o, v, consumed);
    if v.chainId <= m.messageId {
      DecryptAhead(o, v, consumed, m, plain);
    } else {
      DecryptBehind(o, v, consumed, m, plain);
    }
  }

  /**
   * What opens, in any state, is signed with the sender's key over the message's own distribution,
   * chain and index and its own ciphertext, and sealed for them (a legacy message, for nothing).
   */
  lemma SignatureCovers(v: Chain, m: Message)
    requires Decrypt(v, m).Success?
    ensures m.messageId >= 0 && m.signature.signer == v.signingPublicKey
    ensures m.signature.data.distributionId == m.distributionId
    ensures m.signature.data.chainId == m.chainId % TWO_32 && m.signature.data.messageId == m.messageId % TWO_32
    ensures m.signature.data.ciphertext == m.ciphertext
    ensures m.ciphertext.Sealed? && m.ciphertext.plain == Decrypt(v, m).value.1
    ensures m.ciphertext.ad == if m.authenticatesHeader
                               then GroupAd(m.distributionId, m.chainId % TWO_32, m.messageId % TWO_32) else EmptyAd
  {
    hide Cache;
  }

  /** Why a message is refused: the first of these that applies. */
  lemma RefusalsAreExact(v: Chain, m: Message)
    ensures Decrypt(v, m).Failure? ==>
              Decrypt(v, m).error ==
              if m.messageId < 0 || m.messageId > 0x1f_ffff_ffff_ffff then InvalidMessageId
              else if m.signature != Signature(v.signingPublicKey, SignData(m.distributionId, m.chainId % TWO_32,
                                                                            m.messageId % TWO_32, m.ciphertext))
              then InvalidSignature
              else if SkipKey(m.distributionId, m.messageId) in v.skipped then AuthenticationFailed
              else if m.messageId < v.chainId then AlreadyProcessed
              else if m.messageId - v.chainId + |v.skipped| > 1000 then TooManySkippedMessages
              else AuthenticationFailed
  {
    hide Cache;
  }

  /** Where the loop leaves a chain that passes over everything below `id` and opens `id`. */
  function Moved(v: Chain, d: string, id: nat): Chain
    requires v.chainId <= id
  {
    v.(chainKey := Advance(v.chainKey, id - v.chainId + 1), chainId := id + 1,
       skipped := Cache(v.skipped, v.chainKey, d, v.chainId, id))
  }

  lemma MovingStaysCanonical(o: Origin, v: Chain, consumed: set<nat>, id: nat)
    requires Canonical(o, v, consumed) && v.chainId <= id
    ensures id !in consumed && Canonical(o, Moved(v, o.distributionId, id), consumed + {id})
  {
    hide Cache;
    AdvanceAdd(o.base, v.chainId - o.start, id - v.chainId + 1);
    CacheStaysExact(o, v.chainId, v.skipped, consumed, id);
  }

  lemma TakingCachedStaysCanonical(o: Origin, v: Chain, consumed: set<nat>, id: nat)
    requires Canonical(o, v, consumed) && SkipKey(o.distributionId, id) in v.skipped
    ensures id !in consumed
    ensures Canonical(o, v.(skipped := v.skipped - {SkipKey(o.distributionId, id)}), consumed + {id})
  {
  }

  lemma NextMoves(v: Chain, m: Message)
    requires m.messageId >= 0 && DecryptNext(v, m).Success?
    ensures v.chainId <= m.messageId && DecryptNext(v, m).value.0 == Moved(v, m.distributionId, m.messageId)
  {
  }

  lemma DecryptKeepsCanonical(o: Origin, v: Chain, consumed: set<nat>, m: Message)
    requires Canonical(o, v, consumed) && m.distributionId == o.distributionId
    requires Decrypt(v, m).Success?
    ensures m.messageId !in consumed && Canonical(o, Decrypt(v, m).value.0, consumed + {m.messageId})
  {
    hide Canonical;
    hide Cache;
    if SkipKey(m.distributionId, m.messageId) in v.skipped {
      TakingCachedStaysCanonical(o, v, consumed, m.messageId);
    } else {
      NextMoves(v, m);
      MovingStaysCanonical(o, v, consumed, m.messageId);
    }
  }

  // ---- the sender ----

  /** The message a sender standing at `o` makes at index `id`. */
  function MessageAt(o: Origin, id: nat, plain: Plaintext): Message
    requires o.start <= id
  {
    var ciphertext := Sealed(KeyAt(o, id), plain, GroupAd(o.distributionId, id % TWO_32, id % TWO_32));
    Message(o.distributionId, id, id, ciphertext,
            Signature(o.signer, SignData(o.distributionId, id % TWO_32, id % TWO_32, ciphertext)), true)
  }

  function EncryptAll(v: Chain, d: string, plains: seq<Plaintext>): Result<(Chain, seq<Message>), SenderKeyError> {
    if plains == [] then Success((v, []))
    else
      match EncryptAll(v, d, plains[..|plains| - 1])
      case Failure(e) => Failure(e)
      case Success((w, ms)) =>
        match Encrypt(w, d, plains[|plains| - 1])
        case Failure(e) => Failure(e)
        case Success((w', m)) => Success((w', ms + [m]))
  }

  /** The `k`-th message sent carries index `start + k`, under the key of that index and no other. */
  lemma {:induction false} SentInOrder(o: Origin, v: Chain, plains: seq<Plaintext>)
    requires v.canSign && v.chainKey == o.base && v.chainId == o.start && v.signingPublicKey == o.signer
    ensures EncryptAll(v, o.distributionId, plains).Success?
    ensures var (w, ms) := EncryptAll(v, o.distributionId, plains).value;
            && w == v.(chainKey := Advance(o.base, |plains|), chainId := o.start + |plains|)
            && |ms| == |plains|
            && forall k :: 0 <= k < |ms| ==> ms[k] == MessageAt(o, o.start + k, plains[k])
  {
    if plains != [] {
      SentInOrder(o, v, plains[..|plains| - 1]);
    }
  }

  // ---- whole runs of a receiver ----

  /** A receiver keeps its state when a message is refused. */
  function ReceiveAll(v: Chain, ms: seq<Message>): Chain {
    if ms == [] then v
    else
      var w := ReceiveAll(v, ms[..|ms| - 1]);
      match Decrypt(w, ms[|ms| - 1])
      case Success((w', _)) => w'
      case Failure(_) => w
  }

  /** The indices of the messages opened along the way. */
  function Opened(v: Chain, ms: seq<Message>): set<nat> {
    if ms == [] then {}
    else
      var before := ms[..|ms| - 1];
      var m := ms[|ms| - 1];
      if Decrypt(ReceiveAll(v, before), m).Success? then Opened(v, before) + {m.messageId}
      else Opened(v, before)
  }

  ghost predicate AllFor(o: Origin, ms: seq<Message>) {
    forall m :: m in ms ==> m.distributionId == o.distributionId
  }

  lemma {:induction false} ReceivingStaysCanonical(o: Origin, ms: seq<Message>)
    requires AllFor(o, ms)
    ensures Canonical(o, ReceiveAll(Fresh(o), ms), Opened(Fresh(o), ms))
  {
    if ms != [] {
      var before := ms[..|ms| - 1];
      ReceivingStaysCanonical(o, before);
      assert ms[|ms| - 1] in ms;
      if Decrypt(ReceiveAll(Fresh(o), before), ms[|ms| - 1]).Success? {
        DecryptKeepsCanonical(o, ReceiveAll(Fresh(o), before), Opened(Fresh(o), before), ms[|ms| - 1]);
      }
    }
  }

  lemma CanonicalIsUnique(o: Origin, v: Chain, w: Chain, consumed: set<nat>)
    requires Canonical(o, v, consumed) && Canonical(o, w, consumed)
    ensures v == w
  {
    assert v.chainId == w.chainId;
    assert v.skipped.Keys == w.skipped.Keys;
  }

  /** Two streams, in any order and with any refused messages mixed in, that open the same indices agree. */
  lemma OrderDoesNotMatter(o: Origin, first: seq<Message>, second: seq<Message>)
    requires AllFor(o, first) && AllFor(o, second)
    requires Opened(Fresh(o), first) == Opened(Fresh(o), second)
    ensures ReceiveAll(Fresh(o), first) == ReceiveAll(Fresh(o), second)
  {
    ReceivingStaysCanonical(o, first);
    ReceivingStaysCanonical(o, second);
    CanonicalIsUnique(o, ReceiveAll(Fresh(o), first), ReceiveAll(Fresh(o), second), Opened(Fresh(o), first));
  }

  /** After any stream, a genuine message opens, to its own plaintext, exactly inside the window. */
  lemma DeliveryWindow(o: Origin, ms: seq<Message>, id: nat, plain: Plaintext)
    requires AllFor(o, ms) && o.start <= id
    ensures var v := ReceiveAll(Fresh(o), ms);
            var done := Opened(Fresh(o), ms);
            var r := Decrypt(v, MessageAt(o, id, plain));
            && (r.Success? <==> id <= MAX_SAFE_INTEGER && InWindow(o, v, done, id))
            && (r.Success? <==>
                  id <= MAX_SAFE_INTEGER
                  && (SkipKey(o.distributionId, id) in v.skipped
                      || (id >= v.chainId && id - v.chainId + |v.skipped| <= MAX_SENDER_KEY_SKIP)))
            && (r.Success? ==> r.value.1 == plain)
  {
    var v := ReceiveAll(Fresh(o), ms);
    var done := Opened(Fresh(o), ms);
    var m := MessageAt(o, id, plain);
    ReceivingStaysCanonical(o, ms);
    CachedPlusConsumed(o, v, done);
    DecryptExact(o, v, done, m, plain);
    assert id <= MAX_SAFE_INTEGER ==> Authentic(o, m, plain);
  }

  lemma {:induction false} ReceivingKeepsSigner(v: Chain, ms: seq<Message>)
    ensures ReceiveAll(v, ms).signingPublicKey == v.signingPublicKey
  {
    hide Cache;
    if ms != [] {
      ReceivingKeepsSigner(v, ms[..|ms| - 1]);
    }
  }

  /** After any stream, a message that carries a signature of another ciphertext, or another's signature, is refused. */
  lemma ReplacedCiphertextIsRefused(o: Origin, ms: seq<Message>, m: Message)
    requires m.signature.data.ciphertext != m.ciphertext || m.signature.signer != o.signer
    ensures Decrypt(ReceiveAll(Fresh(o), ms), m).Failure?
  {
    hide Decrypt;
    ReceivingKeepsSigner(Fresh(o), ms);
    if Decrypt(ReceiveAll(Fresh(o), ms), m).Success? {
      SignatureCovers(ReceiveAll(Fresh(o), ms), m);
    }
  }

  /** So is a sent message whose distribution, chain or index was changed in transit, signature and all else kept. */
  lemma AlteredHeaderIsRefused(o: Origin, ms: seq<Message>, id: nat, plain: Plaintext, distributionId: string,
                               chainId: nat, messageId: nat)
    requires o.start <= id
    requires distributionId != o.distributionId || chainId % TWO_32 != id % TWO_32 || messageId % TWO_32 != id % TWO_32
    ensures Decrypt(ReceiveAll(Fresh(o), ms),
                    MessageAt(o, id, plain).(distributionId := distributionId, chainId := chainId, messageId := messageId))
              .Failure?
  {
    hide Decrypt;
    var m := MessageAt(o, id, plain).(distributionId := distributionId, chainId := chainId, messageId := messageId);
    if Decrypt(ReceiveAll(Fresh(o), ms), m).Success? {
      SignatureCovers(ReceiveAll(Fresh(o), ms), m);
    }
  }

  /** Only a holder of the signing key can send. */
  lemma SendingNeedsSigningKey(v: Chain, distributionId: string, plain: Plaintext)
    ensures Encrypt(v, distributionId, plain)
            == if v.canSign
               then Success((v.(chainKey := NextChainKey(v.chainKey), chainId := v.chainId + 1),
                             MessageAt(Origin(v.chainKey, v.chainId, distributionId, v.signingPublicKey), v.chainId, plain)))
               else Failure(NoSigningPrivateKey)
  {
  }

  // ---- claims about every message stream, mixed distributions and forgeries included ----

  ghost predicate Behind(v: Chain) {
    forall k :: k in v.skipped ==> k.messageId < v.chainId
  }

  /** The key a message needs is behind the chain and no longer cached. */
  ghost predicate Gone(v: Chain, k: SkipKey) {
    k.messageId < v.chainId && k !in v.skipped
  }

  lemma DecryptKeepsBehind(v: Chain, m: Message)
    requires Behind(v) && Decrypt(v, m).Success?
    ensures Behind(Decrypt(v, m).value.0)
  {
    forall k | k in Decrypt(v, m).value.0.skipped
      ensures k.messageId < Decrypt(v, m).value.0.chainId
    {
      if v.chainId <= m.messageId {
        CacheAt(v.skipped, v.chainKey, m.distributionId, v.chainId, m.messageId, k);
      }
    }
  }

  lemma DecryptSpends(v: Chain, m: Message, k: SkipKey)
    requires Behind(v) && Decrypt(v, m).Success?
    requires Gone(v, k) || k == SkipKey(m.distributionId, m.messageId)
    ensures Gone(Decrypt(v, m).value.0, k)
  {
    if v.chainId <= m.messageId {
      CacheAt(v.skipped, v.chainKey, m.distributionId, v.chainId, m.messageId, k);
    }
  }

  lemma DecryptKeepsBound(v: Chain, m: Message)
    requires |v.skipped| <= MAX_SENDER_KEY_SKIP && Decrypt(v, m).Success?
    ensures |Decrypt(v, m).value.0.skipped| <= MAX_SENDER_KEY_SKIP
  {
    var k := SkipKey(m.distributionId, m.messageId);
    if k in v.skipped {
      assert (v.skipped - {k}).Keys == v.skipped.Keys - {k};
    } else {
      CacheSize(v.skipped, v.chainKey, m.distributionId, v.chainId, m.messageId);
    }
  }

  lemma {:induction false} ReceivingStaysBehind(v: Chain, ms: seq<Message>)
    requires Behind(v)
    ensures Behind(ReceiveAll(v, ms))
  {
    if ms != [] {
      ReceivingStaysBehind(v, ms[..|ms| - 1]);
      var w := ReceiveAll(v, ms[..|ms| - 1]);
      if Decrypt(w, ms[|ms| - 1]).Success? {
        DecryptKeepsBehind(w, ms[|ms| - 1]);
      }
    }
  }

  lemma {:induction false} GoneStaysGone(v: Chain, ms: seq<Message>, k: SkipKey)
    requires Behind(v) && Gone(v, k)
    ensures Gone(ReceiveAll(v, ms), k)
  {
    if ms != [] {
      GoneStaysGone(v, ms[..|ms| - 1], k);
      ReceivingStaysBehind(v, ms[..|ms| - 1]);
      var w := ReceiveAll(v, ms[..|ms| - 1]);
      if Decrypt(w, ms[|ms| - 1]).Success? {
        DecryptSpends(w, ms[|ms| - 1], k);
      }
    }
  }

  /** Once a message was opened, nothing with its distribution and index is ever opened again. */
  lemma OpenedAtMostOnce(o: Origin, before: seq<Message>, m: Message, between: seq<Message>, again: Message)
    requires Decrypt(ReceiveAll(Fresh(o), before), m).Success?
    requires again.distributionId == m.distributionId && again.messageId == m.messageId
    ensures Decrypt(ReceiveAll(Decrypt(ReceiveAll(Fresh(o), before), m).value.0, between), again).Failure?
  {
    var k := SkipKey(m.distributionId, m.messageId);
    var v := ReceiveAll(Fresh(o), before);
    ReceivingStaysBehind(Fresh(o), before);
    DecryptSpends(v, m, k);
    DecryptKeepsBehind(v, m);
    GoneStaysGone(Decrypt(v, m).value.0, between, k);
  }

  lemma {:induction false} CacheStaysBounded(v: Chain, ms: seq<Message>)
    requires |v.skipped| <= MAX_SENDER_KEY_SKIP
    ensures |ReceiveAll(v, ms).skipped| <= MAX_SENDER_KEY_SKIP
  {
    if ms != [] {
      CacheStaysBounded(v, ms[..|ms| - 1]);
      var w := ReceiveAll(v, ms[..|ms| - 1]);
      if Decrypt(w, ms[|ms| - 1]).Success? {
        DecryptKeepsBound(w, ms[|ms| - 1]);
      }
    }
  }
}
