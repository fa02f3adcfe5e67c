/**
 * At-most-once delivery, with no trust in anyone: the messages a party receives here are
 * arbitrary, the peer may misuse its keys, and the associated data may differ from call to call.
 */
module RatchetReplay {
  import opened Wrappers
  import opened Symbolic
  import opened RatchetModel

  // ---- the place of a key in the derivation ----

  ghost function BaseOf(ck: Term): Term {
    if ck.NextChainKey? then BaseOf(ck.ck) else ck
  }

  ghost function IndexOf(ck: Term): nat {
    if ck.NextChainKey? then 1 + IndexOf(ck.ck) else 0
  }

  /** The chain key sits on a chain that branched off strictly below root key `rk`. */
  ghost predicate BranchedBelow(ck: Term, rk: Term) {
    BaseOf(ck).ChainKey? && RootDepth(BaseOf(ck).rk) < RootDepth(rk)
  }

  /** `key` comes from an earlier chain than `ck`, or from the same chain at a smaller index. */
  ghost predicate Earlier(key: Term, ck: Term)
    requires BaseOf(ck).ChainKey?
  {
    key.MessageKey? && BaseOf(key.ck).ChainKey?
    && (RootDepth(BaseOf(key.ck).rk) < RootDepth(BaseOf(ck).rk)
        || (BaseOf(key.ck) == BaseOf(ck) && IndexOf(key.ck) < IndexOf(ck)))
  }

  ghost predicate KeysDistinct(s: seq<Entry>) {
    s == [] || ((forall e :: e in s[1..] ==> e.key != s[0].key) && KeysDistinct(s[1..]))
  }

  ghost predicate AllEarlier(s: seq<Entry>, ck: Term)
    requires BaseOf(ck).ChainKey?
  {
    forall e :: e in s ==> Earlier(e.key, ck)
  }

  /** Every stored key is one the receiving chain has left behind, and none is stored twice. */
  ghost predicate Orderly(v: Ratchet) {
    if v.ckr.None? then v.skipped == []
    else
      && v.dhr.Some?
      && BranchedBelow(v.ckr.value, v.rk)
      && AllEarlier(v.skipped, v.ckr.value)
      && KeysDistinct(v.skipped)
  }

  /** `key` is behind the receiving chain and no longer stored. */
  ghost predicate Spent(v: Ratchet, key: Term) {
    Orderly(v) && v.ckr.Some? && Earlier(key, v.ckr.value) && forall e :: e in v.skipped ==> e.key != key
  }

  // ---- the store operations ----

  lemma {:induction false} PutDistinct(s: seq<Entry>, e: Entry)
    requires KeysDistinct(s) && forall x :: x in s ==> x.key != e.key
    ensures KeysDistinct(Put(s, e)) && forall x :: x in Put(s, e) ==> x == e || x in s
  {
    if s != [] && !(s[0].dh == e.dh && s[0].n == e.n) {
      PutDistinct(s[1..], e);
      assert Put(s, e)[1..] == Put(s[1..], e);
    } else if s != [] {
      assert Put(s, e)[1..] == s[1..];
    }
  }

  lemma {:induction false} DropDistinct(s: seq<Entry>, dh: nat)
    requires KeysDistinct(s)
    ensures KeysDistinct(DropEpoch(s, dh)) && forall x :: x in DropEpoch(s, dh) ==> x in s
  {
    if s != [] {
      DropDistinct(s[1..], dh);
      if s[0].dh != dh {
        assert DropEpoch(s, dh)[1..] == DropEpoch(s[1..], dh);
      }
    }
  }

  lemma {:induction false} EvictDistinct(s: seq<Entry>, order: seq<nat>)
    requires KeysDistinct(s)
    ensures KeysDistinct(EvictUntilSmall(s, order)) && forall x :: x in EvictUntilSmall(s, order) ==> x in s
    decreases |order|
  {
    if order != [] && |s| > MAX_SKIP {
      DropDistinct(s, order[0]);
      EvictDistinct(DropEpoch(s, order[0]), order[1..]);
    }
  }

  lemma {:induction false} RemoveDistinct(s: seq<Entry>, dh: nat, n: nat)
    requires KeysDistinct(s)
    ensures KeysDistinct(Remove(s, dh, n)) && forall x :: x in Remove(s, dh, n) ==> x in s
    ensures Lookup(s, dh, n).Some? ==>
              (exists x :: x in s && x.key == Lookup(s, dh, n).value)
              && forall x :: x in Remove(s, dh, n) ==> x.key != Lookup(s, dh, n).value
  {
    if s != [] {
      RemoveDistinct(s[1..], dh, n);
      if s[0].dh == dh && s[0].n == n {
        assert s[0] in s;
      } else {
        assert Remove(s, dh, n)[1..] == Remove(s[1..], dh, n);
      }
    }
  }

  lemma {:induction false} LookupMember(s: seq<Entry>, dh: nat, n: nat)
    requires Lookup(s, dh, n).Some?
    ensures exists x :: x in s && x.key == Lookup(s, dh, n).value
  {
    if s[0].dh == dh && s[0].n == n {
      assert s[0] in s;
    } else {
      LookupMember(s[1..], dh, n);
    }
  }

  // ---- every operation keeps the order, and spent keys stay spent ----

  /** `w` has moved on from `v`: orderly still, and what was spent stays spent. */
  ghost predicate MovesOn(v: Ratchet, w: Ratchet) {
    Orderly(w) && forall key :: Spent(v, key) ==> Spent(w, key)
  }

  lemma SkipOneMovesOn(v: Ratchet)
    requires Orderly(v) && v.ckr.Some?
    ensures MovesOn(v, SkipOne(v))
  {
    PutDistinct(v.skipped, Entry(v.dhr.value, v.nr, MessageKey(v.ckr.value)));
  }

  lemma {:induction false} SkipLoopMovesOn(v: Ratchet, until: nat)
    requires Orderly(v) && v.ckr.Some?
    ensures SkipLoop(v, until).Success? ==> MovesOn(v, SkipLoop(v, until).value)
    ensures SkipLoop(v, until).Success? ==> SkipLoop(v, until).value.ckr.Some?
    ensures SkipLoop(v, until).Success? ==> SkipLoop(v, until).value.rk == v.rk
    decreases until - v.nr
  {
    if v.nr < until {
      SkipOneMovesOn(v);
      SkipLoopMovesOn(SkipOne(v), until);
    }
  }

  lemma SkipMovesOn(v: Ratchet, until: nat)
    requires Orderly(v)
    ensures Skip(v, until).Success? ==> MovesOn(v, Skip(v, until).value)
  {
    if v.ckr.Some? {
      SkipLoopMovesOn(v, until);
    }
  }

  lemma DhStepMovesOn(v: Ratchet, remote: nat, key: nat)
    requires Orderly(v)
    ensures MovesOn(v, DhStep(v, remote, key))
  {
    if v.ckr.Some? {
      EvictDistinct(v.skipped, EpochOrder(v.skipped));
    }
  }

  lemma ReachMovesOn(v: Ratchet, h: Header, key: nat)
    requires Orderly(v)
    ensures Reach(v, h, key).Success? ==> MovesOn(v, Reach(v, h, key).value)
  {
    if IsDhStep(v, h.dh) {
      SkipMovesOn(v, h.pn);
      if Skip(v, h.pn).Success? {
        var w := Skip(v, h.pn).value;
        DhStepMovesOn(w, h.dh, key);
        SkipMovesOn(DhStep(w, h.dh, key), h.n);
      }
    } else {
      SkipMovesOn(v, h.n);
    }
  }

  /** Accepting a message spends its key; a message under a spent key is never accepted. */
  lemma DecryptMovesOn(v: Ratchet, m: Message, context: seq<nat>, newKey: nat)
    requires Orderly(v) && Decrypt(v, m, context, newKey).Success?
    ensures MovesOn(v, Decrypt(v, m, context, newKey).value.0)
    ensures m.ciphertext.Sealed? && Spent(Decrypt(v, m, context, newKey).value.0, m.ciphertext.key)
    ensures !Spent(v, m.ciphertext.key)
  {
    var h := m.header;
    if Lookup(v.skipped, h.dh, h.n).Some? {
      LookupMember(v.skipped, h.dh, h.n);
      RemoveDistinct(v.skipped, h.dh, h.n);
    } else {
      ReachMovesOn(v, h, newKey);
    }
  }

  /** The states of one party: created by either role, then any sends and any accepted messages. */
  ghost predicate Follows(v: Ratchet, w: Ratchet) {
    || (exists plain: Plaintext, context :: Encrypt(v, plain, context).Success?
                                         && w == Encrypt(v, plain, context).value.0)
    || (exists m, context, key: nat :: Decrypt(v, m, context, key).Success?
                                    && w == Decrypt(v, m, context, key).value.0)
  }

  ghost predicate IsLife(life: seq<Ratchet>) {
    && |life| > 0
    && ((exists secret, recipient: nat, key: nat :: life[0] == InitSender(secret, recipient, key))
        || (exists secret, pub: nat, scalar :: life[0] == InitReceiver(secret, pub, scalar)))
    && forall i :: 0 <= i < |life| - 1 ==> Follows(life[i], life[i + 1])
  }

  lemma FollowsMovesOn(v: Ratchet, w: Ratchet)
    requires Orderly(v) && Follows(v, w)
    ensures MovesOn(v, w)
  {
    if m, context, key: nat :| Decrypt(v, m, context, key).Success? && w == Decrypt(v, m, context, key).value.0 {
      DecryptMovesOn(v, m, context, key);
    } else {
      var plain: Plaintext, context :| Encrypt(v, plain, context).Success?
                                    && w == Encrypt(v, plain, context).value.0;
      assert w == v.(cks := w.cks, ns := w.ns);
    }
  }

  lemma {:induction false} LifeIsOrderly(life: seq<Ratchet>, i: nat)
    requires IsLife(life) && i < |life|
    ensures Orderly(life[i])
  {
    if i > 0 {
      LifeIsOrderly(life, i - 1);
      assert Follows(life[i - 1], life[i - 1 + 1]);
      FollowsMovesOn(life[i - 1], life[i]);
    }
  }

  lemma {:induction false} SpentForever(life: seq<Ratchet>, i: nat, j: nat, key: Term)
    requires IsLife(life) && i <= j < |life| && Spent(life[i], key)
    ensures Spent(life[j], key)
  {
    hide Follows;
    hide Spent;
    hide Orderly;
    if i < j {
      SpentForever(life, i, j - 1, key);
      LifeIsOrderly(life, j - 1);
      assert Follows(life[j - 1], life[j - 1 + 1]);
      FollowsMovesOn(life[j - 1], life[j]);
    }
  }

  /**
   * At most once: when a party in any state it can come to accepts a message, no later state of
   * it accepts that ciphertext again, under any header and with any associated data.
   */
  lemma AcceptedAtMostOnce(life: seq<Ratchet>, i: nat, j: nat, m: Message, context: seq<nat>, key: nat,
                           replay: Message, context': seq<nat>, key': nat)
    requires IsLife(life) && i < j < |life|
    requires Decrypt(life[i], m, context, key).Success? && life[i + 1] == Decrypt(life[i], m, context, key).value.0
    requires replay.ciphertext == m.ciphertext
    ensures Decrypt(life[j], replay, context', key').Failure?
  {
    LifeIsOrderly(life, i);
    DecryptMovesOn(life[i], m, context, key);
    SpentForever(life, i + 1, j, m.ciphertext.key);
    if Decrypt(life[j], replay, context', key').Success? {
      DecryptMovesOn(life[j], replay, context', key');
      assert false;
    }
  }
}
