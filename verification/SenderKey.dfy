/**
 * Group sender keys (packages/crypto/src/sender-keys.ts): a signed hash chain whose receiver keeps
 * a bounded cache of passed-over message keys.
 */
module SenderKey {
  import opened Wrappers
  import opened Symbolic
  import opened LiveRatchet

  const MAX_SENDER_KEY_SKIP: nat := 1000
  const MAX_SAFE_INTEGER: nat := 0x1f_ffff_ffff_ffff

  /** What an Ed25519 signature covers (`buildSignData`; distribution ids have one fixed length). */
  datatype SignData = SignData(distributionId: string, chainId: nat, messageId: nat, ciphertext: Ciphertext)

  datatype Signature = Signature(signer: nat, data: SignData)

  datatype Message = Message(
    distributionId: string,
    chainId: nat,
    messageId: int,
    ciphertext: Ciphertext,
    signature: Signature,
    authenticatesHeader: bool)     // aeadVersion 1; the legacy version 0 has no associated data

  datatype SkipKey = SkipKey(distributionId: string, messageId: nat)   // `${distributionId}:${messageId}`

  /** The value of a sender-key state. */
  datatype Chain = Chain(
    chainKey: Term,
    chainId: nat,
    signingPublicKey: nat,
    canSign: bool,
    skipped: map<SkipKey, Term>)

  datatype SenderKeyError =
    | NoSigningPrivateKey
    | InvalidMessageId
    | InvalidSignature
    | AlreadyProcessed
    | TooManySkippedMessages
    | AuthenticationFailed

  function SignedBytes(distributionId: string, chainId: nat, messageId: nat, ciphertext: Ciphertext): SignData {
    SignData(distributionId, chainId % TWO_32, messageId % TWO_32, ciphertext)
  }

  function AeadBytes(m: Message): AssocData
    requires m.messageId >= 0
  {
    if m.authenticatesHeader then GroupAd(m.distributionId, m.chainId % TWO_32, m.messageId % TWO_32) else EmptyAd
  }

  function Encrypt(v: Chain, distributionId: string, plain: Plaintext): Result<(Chain, Message), SenderKeyError> {
    if !v.canSign then Failure(NoSigningPrivateKey)
    else
      var ciphertext := Sealed(MessageKey(v.chainKey), plain,
                               GroupAd(distributionId, v.chainId % TWO_32, v.chainId % TWO_32));
      var signature := Signature(v.signingPublicKey,
                                 SignedBytes(distributionId, v.chainId, v.chainId, ciphertext));
      Success((v.(chainKey := NextChainKey(v.chainKey), chainId := v.chainId + 1),
               Message(distributionId, v.chainId, v.chainId, ciphertext, signature, true)))
  }

  /** A cache after the keys of the indices `from <= i < until` went in, for a chain standing at `from`. */
  function Cache(cached: map<SkipKey, Term>, ck: Term, distributionId: string, from: nat, until: nat)
    : map<SkipKey, Term>
    decreases until
  {
    if until <= from then cached
    else Cache(cached, ck, distributionId, from, until - 1)
         [SkipKey(distributionId, until - 1) := MessageKey(Advance(ck, until - 1 - from))]
  }

  predicate Verifies(v: Chain, m: Message)
    requires m.messageId >= 0
  {
    m.signature == Signature(v.signingPublicKey,
                             SignedBytes(m.distributionId, m.chainId, m.messageId, m.ciphertext))
  }

  /** A message whose key is not cached: the chain advances past it. */
  function DecryptNext(v: Chain, m: Message): Result<(Chain, Plaintext), SenderKeyError>
    requires m.messageId >= 0
  {
    var gap := m.messageId - v.chainId;
    if gap < 0 then Failure(AlreadyProcessed)
    else if gap + |v.skipped| > MAX_SENDER_KEY_SKIP then Failure(TooManySkippedMessages)
    else
      match Open(MessageKey(Advance(v.chainKey, gap)), m.ciphertext, AeadBytes(m))
      case None => Failure(AuthenticationFailed)
      case Some(plain) =>
        Success((v.(chainKey := Advance(v.chainKey, gap + 1), chainId := m.messageId + 1,
                    skipped := Cache(v.skipped, v.chainKey, m.distributionId, v.chainId, m.messageId)),
                 plain))
  }

  function Decrypt(v: Chain, m: Message): Result<(Chain, Plaintext), SenderKeyError> {
    if m.messageId < 0 || m.messageId > MAX_SAFE_INTEGER then Failure(InvalidMessageId)
    else if !Verifies(v, m) then Failure(InvalidSignature)
    else
      var skipKey := SkipKey(m.distributionId, m.messageId);
      if skipKey in v.skipped then
        match Open(v.skipped[skipKey], m.ciphertext, AeadBytes(m))
        case None => Failure(AuthenticationFailed)
        case Some(plain) => Success((v.(skipped := v.skipped - {skipKey}), plain))
      else DecryptNext(v, m)
  }

  // ---- the code, on byte arrays ----

  /** A state is never changed in place; later states may share its arrays. */
  datatype SenderKeyState = SenderKeyState(
    chainKey: Bytes,
    chainId: nat,
    signingPublicKey: nat,
    canSign: bool,
    MKSKIPPED: map<SkipKey, Bytes>)

  function TermsOf(m: map<SkipKey, Bytes>): map<SkipKey, Term>
    reads set k | k in m :: m[k]
  {
    map k | k in m :: m[k].term
  }

  function ChainOf(s: SenderKeyState): Chain
    reads s.chainKey, set k | k in s.MKSKIPPED :: s.MKSKIPPED[k]
  {
    Chain(s.chainKey.term, s.chainId, s.signingPublicKey, s.canSign, TermsOf(s.MKSKIPPED))
  }

  lemma TermsOfSize(m: map<SkipKey, Bytes>)
    ensures |TermsOf(m)| == |m|
  {
    assert TermsOf(m).Keys == m.Keys;
  }

  method SenderKeyEncrypt(state: SenderKeyState, distributionId: string, plain: Plaintext)
    returns (r: Result<(Message, SenderKeyState), SenderKeyError>)
    ensures match Encrypt(ChainOf(state), distributionId, plain)
            case Success((v, m)) => r.Success? && r.value.0 == m && ChainOf(r.value.1) == v
            case Failure(e) => r == Failure(e)
  {
    if !state.canSign {
      return Failure(NoSigningPrivateKey);
    }
    var nextCk, mk := KdfCk(state.chainKey);
    var id := state.chainId;
    var ciphertext := Sealed(mk.term, plain, GroupAd(distributionId, id % TWO_32, id % TWO_32));
    mk.Fill0();
    var signature := Signature(state.signingPublicKey, SignedBytes(distributionId, id, id, ciphertext));
    var message := Message(distributionId, id, id, ciphertext, signature, true);
    r := Success((message, state.(chainKey := nextCk, chainId := id + 1)));
  }

  /** The arrays of `m` hold `terms`. */
  ghost predicate Holds(m: map<SkipKey, Bytes>, terms: map<SkipKey, Term>)
    reads set k | k in m :: m[k]
  {
    m.Keys == terms.Keys && forall k :: k in m ==> m[k].term == terms[k]
  }

  lemma HoldsIsTermsOf(m: map<SkipKey, Bytes>, terms: map<SkipKey, Term>)
    ensures Holds(m, terms) <==> TermsOf(m) == terms
  {
    if TermsOf(m) == terms {
      assert TermsOf(m).Keys == m.Keys;
    }
  }

  /** Advances a chain past `target`, caching the keys it passes; the last key is the message's own. */
  method AdvanceTo(chainKey: Bytes, cached: map<SkipKey, Bytes>, distributionId: string, from: nat, target: nat,
                   ghost terms: map<SkipKey, Term>)
    returns (ck: Bytes, skipped: map<SkipKey, Bytes>, mk: Bytes)
    requires from <= target && Holds(cached, terms)
    ensures fresh(ck) && ck.term == Advance(chainKey.term, target + 1 - from)
    ensures fresh(mk) && mk != ck && mk.term == MessageKey(Advance(chainKey.term, target - from))
    ensures forall k :: k in skipped ==> skipped[k] != mk
    ensures Holds(skipped, Cache(terms, chainKey.term, distributionId, from, target))
  {
    ck, skipped := chainKey, cached;
    var chainId := from;
    var found: Bytes? := null;
    ghost var base := chainKey.term;
    ghost var want := terms;
    while chainId <= target
      invariant from <= chainId <= target + 1 && chainKey.term == base
      invariant ck.term == Advance(base, chainId - from) && (chainId > from ==> fresh(ck))
      invariant Holds(skipped, want)
      invariant want == Cache(terms, base, distributionId, from, if chainId <= target then chainId else target)
      invariant found != null <==> chainId == target + 1
      invariant found != null ==> fresh(found) && found != ck && found.term == MessageKey(Advance(base, target - from))
      invariant forall k :: k in skipped ==> skipped[k] != found
    {
      var nextCk, adv := KdfCk(ck);
      if chainId == target {
        found := adv;
      } else {
        skipped := skipped[SkipKey(distributionId, chainId) := adv];
        want := want[SkipKey(distributionId, chainId) := adv.term];
      }
      ck := nextCk;
      chainId := chainId + 1;
    }
    mk := found;
  }

  /**
   * `senderKeyDecrypt`. The method writes to no array its caller could hold: a cached key is
   * opened on a copy, so the caller's retained state stays usable.
   */
  method SenderKeyDecrypt(state: SenderKeyState, m: Message)
    returns (r: Result<(Plaintext, SenderKeyState), SenderKeyError>)
    ensures match Decrypt(old(ChainOf(state)), m)
            case Success((v, plain)) => r.Success? && r.value.0 == plain && ChainOf(r.value.1) == v
            case Failure(e) => r == Failure(e)
    ensures ChainOf(state) == old(ChainOf(state))
  {
    if m.messageId < 0 || m.messageId > MAX_SAFE_INTEGER {
      return Failure(InvalidMessageId);
    }
    if m.signature != Signature(state.signingPublicKey,
                                SignedBytes(m.distributionId, m.chainId, m.messageId, m.ciphertext)) {
      return Failure(InvalidSignature);
    }
    if SkipKey(m.distributionId, m.messageId) in state.MKSKIPPED {
      r := OpenCached(state, m);
    } else {
      r := OpenNext(state, m);
    }
  }

  /** The fast path: the message arrived after its key was cached. */
  method OpenCached(state: SenderKeyState, m: Message)
    returns (r: Result<(Plaintext, SenderKeyState), SenderKeyError>)
    requires m.messageId >= 0 && SkipKey(m.distributionId, m.messageId) in state.MKSKIPPED
    ensures var skipKey := SkipKey(m.distributionId, m.messageId);
            match Open(state.MKSKIPPED[skipKey].term, m.ciphertext, AeadBytes(m))
            case None => r == Failure(AuthenticationFailed)
            case Some(plain) =>
              r == Success((plain, state.(MKSKIPPED := state.MKSKIPPED - {skipKey})))
  {
    var skipKey := SkipKey(m.distributionId, m.messageId);
    var mk := new Bytes(state.MKSKIPPED[skipKey].term);
    var newSkipped := state.MKSKIPPED - {skipKey};
    var plain := Open(mk.term, m.ciphertext, AeadBytes(m));
    mk.Fill0();
    r := if plain.Some? then Success((plain.value, state.(MKSKIPPED := newSkipped)))
         else Failure(AuthenticationFailed);
  }

  method OpenNext(state: SenderKeyState, m: Message)
    returns (r: Result<(Plaintext, SenderKeyState), SenderKeyError>)
    requires m.messageId >= 0
    ensures match DecryptNext(old(ChainOf(state)), m)
            case Success((v, plain)) => r.Success? && r.value.0 == plain && ChainOf(r.value.1) == v
            case Failure(e) => r == Failure(e)
  {
    TermsOfSize(state.MKSKIPPED);
    var gap := m.messageId - state.chainId;
    if gap < 0 {
      return Failure(AlreadyProcessed);
    }
    if gap + |state.MKSKIPPED| > MAX_SENDER_KEY_SKIP {
      return Failure(TooManySkippedMessages);
    }
    ghost var cached := TermsOf(state.MKSKIPPED);
    HoldsIsTermsOf(state.MKSKIPPED, cached);
    var ck, newSkipped, mk := AdvanceTo(state.chainKey, state.MKSKIPPED, m.distributionId, state.chainId,
                                        m.messageId, cached);
    var plain := Open(mk.term, m.ciphertext, AeadBytes(m));
    mk.Fill0();
    if plain.None? {
      return Failure(AuthenticationFailed);
    }
    r := Success((plain.value, state.(chainKey := ck, chainId := m.messageId + 1, MKSKIPPED := newSkipped)));
    HoldsIsTermsOf(newSkipped, Cache(cached, old(state.chainKey.term), m.distributionId, state.chainId, m.messageId));
  }
}
