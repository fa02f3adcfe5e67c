/** X3DH key agreement (packages/crypto/src/x3dh.ts) and the session a receiver bootstraps from it. */
module X3dh {
  import opened Wrappers
  import opened Symbolic
  import opened RatchetModel
  import opened LiveRatchet
  import RatchetSession
  import RatchetAgreement

  datatype KeyPair = KeyPair(pub: nat, secret: Term)

  /** A detached signature, as what verification reads off it. */
  datatype Signature = Signature(signer: nat, over: nat)

  datatype PreKeyBundle = PreKeyBundle(
    identityKey: nat,
    signingKey: nat,
    signedPreKey: nat,
    signature: Signature,
    oneTimePreKey: Option<nat>)

  datatype Agreement = Agreement(sharedSecret: Term, associatedData: seq<nat>)

  datatype X3dhError = InvalidSignedPreKeySignature

  predicate Honest(k: KeyPair) {
    k.secret == Private(k.pub)
  }

  function Send(identity: KeyPair, ephemeral: KeyPair, bundle: PreKeyBundle): Result<Agreement, X3dhError> {
    if bundle.signature != Signature(bundle.signingKey, bundle.signedPreKey) then Failure(InvalidSignedPreKeySignature)
    else
      var dh1 := Dh(identity.secret, bundle.signedPreKey);
      var dh2 := Dh(ephemeral.secret, bundle.identityKey);
      var dh3 := Dh(ephemeral.secret, bundle.signedPreKey);
      var dh4 := if bundle.oneTimePreKey.Some? then [Dh(ephemeral.secret, bundle.oneTimePreKey.value)] else [];
      Success(Agreement(Agreed([dh1, dh2, dh3] + dh4), [identity.pub, bundle.identityKey]))
  }

  function Receive(identity: KeyPair, signedPreKey: KeyPair, oneTimePreKey: Option<KeyPair>,
                   senderIdentity: nat, senderEphemeral: nat): Agreement
  {
    var dh1 := Dh(signedPreKey.secret, senderIdentity);
    var dh2 := Dh(identity.secret, senderEphemeral);
    var dh3 := Dh(signedPreKey.secret, senderEphemeral);
    var dh4 := if oneTimePreKey.Some? then [Dh(oneTimePreKey.value.secret, senderEphemeral)] else [];
    Agreement(Agreed([dh1, dh2, dh3] + dh4), [senderIdentity, identity.pub])
  }

  function PublicOf(k: Option<KeyPair>): Option<nat> {
    if k.Some? then Some(k.value.pub) else None
  }

  /** A bundle is used exactly when its owner's signing key signed the very prekey it carries. */
  lemma SignedPreKeyIsChecked(identity: KeyPair, ephemeral: KeyPair, bundle: PreKeyBundle)
    ensures Send(identity, ephemeral, bundle).Success?
            <==> bundle.signature.signer == bundle.signingKey && bundle.signature.over == bundle.signedPreKey
    ensures Send(identity, ephemeral, bundle).Failure? ==>
              Send(identity, ephemeral, bundle).error == InvalidSignedPreKeySignature
  {
  }

  /** So neither the prekey nor the signing key of a good bundle can be replaced by another. */
  lemma SubstitutionIsRefused(identity: KeyPair, ephemeral: KeyPair, bundle: PreKeyBundle, signedPreKey: nat,
                              signingKey: nat)
    requires Send(identity, ephemeral, bundle).Success?
    requires signedPreKey != bundle.signedPreKey || signingKey != bundle.signingKey
    ensures Send(identity, ephemeral, bundle.(signedPreKey := signedPreKey, signingKey := signingKey)).Failure?
  {
    SignedPreKeyIsChecked(identity, ephemeral, bundle);
    SignedPreKeyIsChecked(identity, ephemeral, bundle.(signedPreKey := signedPreKey, signingKey := signingKey));
  }

  /**
   * Both sides agree on the secret exactly when the bundle carried the signed prekey and the
   * one-time prekey (or none) that the receiver uses; the associated data then agrees too.
   */
  lemma AgreeIffSamePreKeys(alice: KeyPair, ephemeral: KeyPair, bob: KeyPair, signedPreKey: KeyPair,
                            oneTimePreKey: Option<KeyPair>, bundle: PreKeyBundle)
    requires Honest(alice) && Honest(ephemeral) && Honest(bob) && Honest(signedPreKey)
    requires oneTimePreKey.Some? ==> Honest(oneTimePreKey.value)
    requires bundle.identityKey == bob.pub && Send(alice, ephemeral, bundle).Success?
    ensures var sent := Send(alice, ephemeral, bundle).value;
            var received := Receive(bob, signedPreKey, oneTimePreKey, alice.pub, ephemeral.pub);
            && sent.associatedData == received.associatedData
            && (sent.sharedSecret == received.sharedSecret <==>
                  bundle.signedPreKey == signedPreKey.pub && bundle.oneTimePreKey == PublicOf(oneTimePreKey))
  {
    var sent := Send(alice, ephemeral, bundle).value.sharedSecret;
    var received := Receive(bob, signedPreKey, oneTimePreKey, alice.pub, ephemeral.pub).sharedSecret;
    if sent == received {
      assert sent.parts[0] == received.parts[0] && |sent.parts| == |received.parts|;
      if bundle.oneTimePreKey.Some? {
        assert sent.parts[3] == received.parts[3];
      }
    }
  }

  lemma SameFirstParts(a: Agreement, b: Agreement)
    requires a.sharedSecret.Agreed? && b.sharedSecret.Agreed? && |a.sharedSecret.parts| >= 3
    requires a.sharedSecret == b.sharedSecret
    ensures |b.sharedSecret.parts| == |a.sharedSecret.parts|
    ensures forall i :: 0 <= i < |a.sharedSecret.parts| ==> a.sharedSecret.parts[i] == b.sharedSecret.parts[i]
  {
  }

  /**
   * Against the signed prekey it was made for, the secret binds everything else: the receiver derives
   * it exactly for the sender's own identity and ephemeral key, as the owner of the bundle's identity
   * key, with the bundle's one-time prekey or none.
   */
  lemma SecretBindsIdentities(alice: KeyPair, ephemeral: KeyPair, bundle: PreKeyBundle, receiver: KeyPair,
                              signedPreKey: KeyPair, oneTimePreKey: Option<KeyPair>, senderIdentity: nat,
                              senderEphemeral: nat)
    requires Honest(alice) && Honest(ephemeral) && Honest(receiver) && Honest(signedPreKey)
    requires oneTimePreKey.Some? ==> Honest(oneTimePreKey.value)
    requires Send(alice, ephemeral, bundle).Success? && bundle.signedPreKey == signedPreKey.pub
    ensures Send(alice, ephemeral, bundle).value.sharedSecret
            == Receive(receiver, signedPreKey, oneTimePreKey, senderIdentity, senderEphemeral).sharedSecret
            <==> senderIdentity == alice.pub && senderEphemeral == ephemeral.pub && receiver.pub == bundle.identityKey
                 && PublicOf(oneTimePreKey) == bundle.oneTimePreKey
    ensures Send(alice, ephemeral, bundle).value.associatedData == [alice.pub, bundle.identityKey]
    ensures Receive(receiver, signedPreKey, oneTimePreKey, senderIdentity, senderEphemeral).associatedData
            == [senderIdentity, receiver.pub]
  {
    var sent := Send(alice, ephemeral, bundle).value;
    var received := Receive(receiver, signedPreKey, oneTimePreKey, senderIdentity, senderEphemeral);
    if sent.sharedSecret == received.sharedSecret {
      SameFirstParts(sent, received);
      assert sent.sharedSecret.parts[0] == received.sharedSecret.parts[0];
      assert sent.sharedSecret.parts[2] == received.sharedSecret.parts[2];
      assert sent.sharedSecret.parts[1] == received.sharedSecret.parts[1];
      if bundle.oneTimePreKey.Some? {
        assert sent.sharedSecret.parts[3] == received.sharedSecret.parts[3];
      }
    }
  }

  /** The two sessions made from one agreement are the start of a lockstep run. */
  lemma AgreedSessionsStartInLockstep(alice: KeyPair, ephemeral: KeyPair, bob: KeyPair, signedPreKey: KeyPair,
                                      oneTimePreKey: Option<KeyPair>, bundle: PreKeyBundle, first: nat)
    requires Honest(alice) && Honest(ephemeral) && Honest(bob) && Honest(signedPreKey)
    requires oneTimePreKey.Some? ==> Honest(oneTimePreKey.value)
    requires bundle.identityKey == bob.pub && Send(alice, ephemeral, bundle).Success?
    requires bundle.signedPreKey == signedPreKey.pub && bundle.oneTimePreKey == PublicOf(oneTimePreKey)
    requires first != signedPreKey.pub
    ensures var sent := Send(alice, ephemeral, bundle).value;
            var received := Receive(bob, signedPreKey, oneTimePreKey, alice.pub, ephemeral.pub);
            var s := RatchetSession.Start(sent.sharedSecret, sent.associatedData, signedPreKey.pub, first);
            && s.initiator == InitSender(sent.sharedSecret, bundle.signedPreKey, first)
            && s.responder == InitReceiver(received.sharedSecret, signedPreKey.pub, signedPreKey.secret)
            && received.associatedData == s.context
            && RatchetSession.Lockstep(s)
  {
    AgreeIffSamePreKeys(alice, ephemeral, bob, signedPreKey, oneTimePreKey, bundle);
    var sent := Send(alice, ephemeral, bundle).value;
    RatchetAgreement.StartInLockstep(sent.sharedSecret, sent.associatedData, signedPreKey.pub, first);
  }

  datatype PreKeyPair = PreKeyPair(id: nat, keys: KeyPair)

  datatype Bootstrap = Bootstrap(session: RatchetState, plaintext: Plaintext, consumedOneTimePreKeyId: Option<nat>)

  function KeysOf(k: Option<PreKeyPair>): Option<KeyPair> {
    if k.Some? then Some(k.value.keys) else None
  }

  /**
   * `bootstrapReceiverSession`: agrees, starts a receiving session, reads the first message and
   * wipes the shared secret, which the session does not share. The signed prekey is not written to,
   * and a one-time prekey is reported as consumed only when the message was read.
   */
  method BootstrapReceiverSession(identity: KeyPair, signedPreKey: nat, signedPreKeySecret: Bytes,
                                  oneTimePreKey: Option<PreKeyPair>, senderIdentity: nat, senderEphemeral: nat,
                                  initialMessage: Message, associatedData: seq<nat>, source: KeySource)
    returns (r: Result<Bootstrap, RatchetError>)
    modifies source
    ensures var oneTime := if oneTimePreKey.Some? then Some(oneTimePreKey.value.keys) else None;
            var secret := Receive(identity, KeyPair(signedPreKey, signedPreKeySecret.term), oneTime,
                                  senderIdentity, senderEphemeral).sharedSecret;
            match Decrypt(InitReceiver(secret, signedPreKey, signedPreKeySecret.term), initialMessage,
                          associatedData, old(source.next))
            case Success((v, plain)) => r.Success? && r.value.plaintext == plain && r.value.session.View() == v
            case Failure(e) => r == Failure(e)
    ensures r.Success? ==>
              r.value.consumedOneTimePreKeyId == if oneTimePreKey.Some? then Some(oneTimePreKey.value.id) else None
  {
    var agreement := Receive(identity, KeyPair(signedPreKey, signedPreKeySecret.term), KeysOf(oneTimePreKey),
                             senderIdentity, senderEphemeral);
    var sharedSecret := new Bytes(agreement.sharedSecret);
    var session := CreateReceiver(sharedSecret, signedPreKey, signedPreKeySecret);
    var outcome;
    ghost var derived;
    outcome, derived := session.RatchetDecrypt(initialMessage, associatedData, source);
    session.Wipe(sharedSecret);
    if outcome.Failure? {
      return Failure(outcome.error);
    }
    var consumed := None;
    if oneTimePreKey.Some? {
      consumed := Some(oneTimePreKey.value.id);
    }
    r := Success(Bootstrap(session, outcome.value, consumed));
  }
}
