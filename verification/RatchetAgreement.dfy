/** The theorems about runs of two ratcheting parties: lockstep, authenticity, exact delivery. */
module RatchetAgreement {
  import opened Wrappers
  import opened Symbolic
  import opened RatchetModel
  import opened RatchetSession

  // ---- the shared derivation ----

  lemma {:induction false} RootStable(secret: Term, keys: seq<nat>, more: seq<nat>, e: nat)
    requires e < |keys|
    ensures Root(secret, keys + more, e) == Root(secret, keys, e)
  {
    if e > 0 {
      RootStable(secret, keys, more, e - 1);
    }
  }

  lemma KeysStable(secret: Term, keys: seq<nat>, key: nat)
    ensures forall e: nat :: e < |keys| ==> Root(secret, keys + [key], e) == Root(secret, keys, e)
    ensures forall e: nat :: 1 <= e < |keys| ==>
              ChainBase(secret, keys + [key], e) == ChainBase(secret, keys, e)
    ensures forall e: nat, n: nat :: 1 <= e < |keys| ==>
              KeyAt(secret, keys + [key], e, n) == KeyAt(secret, keys, e, n)
  {
    forall e: nat | e < |keys| ensures Root(secret, keys + [key], e) == Root(secret, keys, e) {
      RootStable(secret, keys, [key], e);
    }
  }

  lemma {:induction false} RootFacts(secret: Term, keys: seq<nat>, e: nat)
    requires e < |keys|
    ensures RootDepth(Root(secret, keys, e)) == e + RootDepth(secret)
    ensures RootedIn(Root(secret, keys, e), secret)
  {
    if e > 0 {
      RootFacts(secret, keys, e - 1);
    }
  }

  lemma KeyAtRooted(secret: Term, keys: seq<nat>, e: nat, n: nat)
    requires 1 <= e < |keys|
    ensures RootedIn(KeyAt(secret, keys, e, n), secret)
  {
    RootFacts(secret, keys, e - 1);
    AdvanceRooted(ChainBase(secret, keys, e), n, secret);
  }

  /** A message key names its epoch and its place in the chain. */
  lemma KeyAtInjective(secret: Term, keys: seq<nat>, e: nat, n: nat, f: nat, k: nat)
    requires 1 <= e < |keys| && 1 <= f < |keys|
    ensures KeyAt(secret, keys, e, n) == KeyAt(secret, keys, f, k) <==> e == f && n == k
  {
    AdvanceInjective(ChainBase(secret, keys, e), n, ChainBase(secret, keys, f), k);
    RootFacts(secret, keys, e - 1);
    RootFacts(secret, keys, f - 1);
  }

  /** A DH step from epoch i reaches a key of the session only against the peer's next public key. */
  lemma StepKeyInjective(secret: Term, keys: seq<nat>, i: nat, dh: nat, n: nat, f: nat, k: nat)
    requires i < |keys| && 1 <= f < |keys|
    requires MessageKey(Advance(ChainKey(Root(secret, keys, i), SharedOf(keys[i], dh)), n))
          == KeyAt(secret, keys, f, k)
    ensures f == i + 1 && k == n && dh == keys[f]
  {
    AdvanceInjective(ChainKey(Root(secret, keys, i), SharedOf(keys[i], dh)), n, ChainBase(secret, keys, f), k);
    RootFacts(secret, keys, i);
    RootFacts(secret, keys, f - 1);
    SharedInjective(keys[i], dh, keys[f]);
  }

  // ---- authenticity ----

  /** A message that opens under a key of the session was sent; its header encodes as the sent one does. */
  lemma OpenedWasSent(s: System, key: Term, m: Message) returns (e: nat, n: nat)
    requires Possible(s, m) && RootedIn(key, s.secret)
    requires Open(key, m.ciphertext, HeaderBytes(s.context, m.header)).Some?
    ensures Sent(s, e, n) && SentWithLikeHeader(s, m, e, n) && key == KeyAt(s.secret, s.keys, e, n)
    ensures Open(key, m.ciphertext, HeaderBytes(s.context, m.header)) == Some(s.chains[e][n])
  {
    e, n :| Sent(s, e, n) && IsVariant(s, m, e, n);
  }

  ghost predicate SentWithLikeHeader(s: System, m: Message, e: nat, n: nat)
    requires Sent(s, e, n)
  {
    var g := Genuine(s, e, n);
    && m.ciphertext == g.ciphertext
    && EncodesAlike(m.header, g.header)
    && (m.header == g.header || (g.header.pn < TWO_32 && g.header.n < TWO_32))
  }

  // ---- where a candidate state stands before the message's own key ----

  /** A message of the current receiving epoch. */
  lemma ReachSameEpoch(s: System, side: Side, h: Header)
    requires InHistory(s) && KeysInStep(s, side)
    requires !IsDhStep(StateOf(s, side), h.dh)
    ensures var v := StateOf(s, side); var i := Epoch(s, side);
            && i >= 1 && h.dh == s.keys[i - 1]
            && (Reach(v, h, s.nextKey).Success? <==> h.n <= v.nr + MAX_SKIP)
            && (Reach(v, h, s.nextKey).Success? ==>
                  var w := Reach(v, h, s.nextKey).value;
                  if i == 1 then w == v else Skipped(v, ChainBase(s.secret, s.keys, i - 1), h.n, w))
  {
    var v := StateOf(s, side);
    var i := Epoch(s, side);
    if i >= 2 {
      SkipMeaning(v, ChainBase(s.secret, s.keys, i - 1), h.n);
    }
  }

  /** A message with another public key: the chain it opens is the step from this epoch against it. */
  lemma ReachNextEpoch(s: System, side: Side, h: Header)
    requires InHistory(s) && KeysInStep(s, side)
    requires IsDhStep(StateOf(s, side), h.dh)
    ensures var v := StateOf(s, side); var i := Epoch(s, side);
            var base := ChainKey(Root(s.secret, s.keys, i), SharedOf(s.keys[i], h.dh));
            && (Reach(v, h, s.nextKey).Success? <==> h.pn <= v.nr + MAX_SKIP && h.n <= MAX_SKIP)
            && (Reach(v, h, s.nextKey).Success? ==>
                  && Skip(v, h.pn).Success?
                  && (if i < 2 then Skip(v, h.pn).value == v
                      else Skipped(v, ChainBase(s.secret, s.keys, i - 1), h.pn, Skip(v, h.pn).value))
                  && Skipped(DhStep(Skip(v, h.pn).value, h.dh, s.nextKey), base, h.n,
                             Reach(v, h, s.nextKey).value))
  {
    var v := StateOf(s, side);
    var i := Epoch(s, side);
    var base := ChainKey(Root(s.secret, s.keys, i), SharedOf(s.keys[i], h.dh));
    if i >= 2 {
      SkipMeaning(v, ChainBase(s.secret, s.keys, i - 1), h.pn);
    }
    if Skip(v, h.pn).Success? {
      SkipMeaning(DhStep(Skip(v, h.pn).value, h.dh, s.nextKey), base, h.n);
    }
  }

  lemma StoredIsPassed(s: System, side: Side, dh: nat, n: nat) returns (e: nat)
    requires Shape(s) && StoreExact(s, side) && Lookup(StateOf(s, side).skipped, dh, n).Some?
    ensures Passed(s, e, n) && Receiver(e) == side && s.keys[e] == dh
    ensures (e, n) !in s.accepted && (e, n) !in s.evicted
    ensures Lookup(StateOf(s, side).skipped, dh, n) == Some(KeyAt(s.secret, s.keys, e, n))
  {
    e :| Passed(s, e, n) && Receiver(e) == side && s.keys[e] == dh;
  }

  ghost predicate Accepts(s: System, side: Side, m: Message) {
    Possible(s, m) && Decrypt(StateOf(s, side), m, s.context, s.nextKey).Success?
  }

  ghost predicate AcceptedAs(s: System, side: Side, m: Message, e: nat, n: nat)
    requires Accepts(s, side, m)
  {
    && Sent(s, e, n) && Receiver(e) == side
    && SentWithLikeHeader(s, m, e, n) && m.header.n == n
    && Decrypt(StateOf(s, side), m, s.context, s.nextKey).value.1 == s.chains[e][n]
  }

  /** A like header of the same index is the sent one, unless its count of the chain before differs. */
  lemma LikeHeader(s: System, m: Message, e: nat, n: nat)
    requires Sent(s, e, n) && SentWithLikeHeader(s, m, e, n) && m.header.n == n
    ensures m.header.dh == s.keys[e]
    ensures m.header.pn == PreviousLength(s.chains, e) ==> m == Genuine(s, e, n)
  {
  }

  /** Counts that encode the same are equal when one has 32 bits and the other is no more than MAX_SKIP above it. */
  lemma SameCount(a: nat, b: nat)
    requires a % TWO_32 == b % TWO_32 && b < TWO_32 && a <= b + MAX_SKIP
    ensures a == b
  {
  }

  lemma LikeIndex(s: System, m: Message, e: nat, n: nat)
    requires Sent(s, e, n) && SentWithLikeHeader(s, m, e, n) && m.header.n <= n
    ensures m.header.n == n
  {
  }

  lemma AcceptedFromStore(s: System, side: Side, m: Message) returns (e: nat, n: nat)
    requires Shape(s) && StoreExact(s, side) && Accepts(s, side, m)
    requires Lookup(StateOf(s, side).skipped, m.header.dh, m.header.n).Some?
    ensures AcceptedAs(s, side, m, e, n) && Passed(s, e, n)
    ensures (e, n) !in s.accepted && (e, n) !in s.evicted
  {
    var f := StoredIsPassed(s, side, m.header.dh, m.header.n);
    KeyAtRooted(s.secret, s.keys, f, m.header.n);
    e, n := OpenedWasSent(s, KeyAt(s.secret, s.keys, f, m.header.n), m);
    KeyAtInjective(s.secret, s.keys, f, m.header.n, e, n);
  }

  lemma AcceptedInEpoch(s: System, side: Side, m: Message) returns (e: nat, n: nat)
    requires Shape(s) && KeysInStep(s, side) && Accepts(s, side, m)
    requires Lookup(StateOf(s, side).skipped, m.header.dh, m.header.n).None?
    requires !IsDhStep(StateOf(s, side), m.header.dh)
    ensures AcceptedAs(s, side, m, e, n)
    ensures e == Epoch(s, side) - 1 && StateOf(s, side).nr <= n <= StateOf(s, side).nr + MAX_SKIP
  {
    hide HeaderBytes;
    hide UniqueKeys;
    ReachSameEpoch(s, side, m.header);
    var w := Reach(StateOf(s, side), m.header, s.nextKey).value;
    var i := Epoch(s, side);
    KeyAtRooted(s.secret, s.keys, i - 1, w.nr);
    e, n := OpenedWasSent(s, MessageKey(w.ckr.value), m);
    KeyAtInjective(s.secret, s.keys, i - 1, w.nr, e, n);
    if m.header.n != n {
      LikeIndex(s, m, e, n);
    }
  }

  lemma AcceptedInNextEpoch(s: System, side: Side, m: Message) returns (e: nat, n: nat)
    requires Shape(s) && KeysInStep(s, side) && Accepts(s, side, m)
    requires Lookup(StateOf(s, side).skipped, m.header.dh, m.header.n).None?
    requires IsDhStep(StateOf(s, side), m.header.dh)
    ensures AcceptedAs(s, side, m, e, n) && m == Genuine(s, e, n) && e == Epoch(s, side) + 1 == |s.keys| - 1
    ensures m.header.pn <= StateOf(s, side).nr + MAX_SKIP && n <= MAX_SKIP
  {
    ReachNextEpoch(s, side, m.header);
    var i := Epoch(s, side);
    var base := ChainKey(Root(s.secret, s.keys, i), SharedOf(s.keys[i], m.header.dh));
    RootFacts(s.secret, s.keys, i);
    AdvanceRooted(base, m.header.n, s.secret);
    e, n := OpenedWasSent(s, MessageKey(Advance(base, m.header.n)), m);
    StepKeyInjective(s.secret, s.keys, i, m.header.dh, m.header.n, e, n);
    if m.header.pn != PreviousLength(s.chains, e) {
      SameCount(m.header.pn, PreviousLength(s.chains, e));
    }
    LikeHeader(s, m, e, n);
  }

  // ---- every step keeps the parties in lockstep ----

  lemma EpochOfUnique(s: System, e: nat)
    requires Shape(s) && e < |s.keys|
    ensures EpochOf(s.keys, s.keys[e]) == e
  {
  }

  /** The rest of a system moved while party `side` stood still. */
  ghost predicate StoodStill(s: System, t: System, side: Side)
    requires InHistory(s)
  {
    var j := Epoch(s, side);
    && t.secret == s.secret && InHistory(t)
    && (t.keys == s.keys || exists key :: t.keys == s.keys + [key])
    && Epoch(t, side) == j && StateOf(t, side) == StateOf(s, side)
    && (forall e: nat :: e <= j && e + 1 != j ==> t.chains[e] == s.chains[e])
    && (j >= 1 ==> |t.chains[j - 1]| >= |s.chains[j - 1]|)
    && (forall e: nat, n: nat :: Receiver(e) == side ==>
          ((e, n) in t.accepted <==> (e, n) in s.accepted) && ((e, n) in t.evicted <==> (e, n) in s.evicted))
  }

  lemma StoodStillKeepsKeys(s: System, t: System, side: Side)
    requires Shape(s) && KeysInStep(s, side) && StoodStill(s, t, side)
    ensures KeysInStep(t, side)
  {
    if t.keys != s.keys {
      KeysStable(s.secret, s.keys, t.keys[|s.keys|]);
    }
  }

  lemma StoodStillKeepsStore(s: System, t: System, side: Side)
    requires Shape(s) && StoreExact(s, side) && StoodStill(s, t, side)
    ensures StoreExact(t, side)
  {
    if t.keys != s.keys {
      KeysStable(s.secret, s.keys, t.keys[|s.keys|]);
    }
    assert forall e: nat, n: nat :: Receiver(e) == side ==> (Passed(t, e, n) <==> Passed(s, e, n));
  }

  lemma StoodStillKeepsParty(s: System, t: System, side: Side)
    requires Shape(s) && KeysInStep(s, side) && StoreExact(s, side) && StoodStill(s, t, side)
    ensures KeysInStep(t, side) && StoreExact(t, side)
  {
    StoodStillKeepsKeys(s, t, side);
    StoodStillKeepsStore(s, t, side);
  }

  lemma BothParties(t: System, side: Side)
    requires Shape(t) && LogExact(t)
    requires KeysInStep(t, side) && StoreExact(t, side)
    requires KeysInStep(t, Other(side)) && StoreExact(t, Other(side))
    ensures Lockstep(t)
  {
    forall p: Side ensures KeysInStep(t, p) && StoreExact(t, p) {
      assert p == side || p == Other(side);
    }
  }

  /** `t` is `s` after `side`, now in state `v`, accepted message (e, n) of an epoch it knew. */
  ghost predicate Accepted(s: System, side: Side, v: Ratchet, e: nat, n: nat, t: System) {
    && t.secret == s.secret && t.context == s.context && t.keys == s.keys && t.chains == s.chains
    && StateOf(t, side) == v && StateOf(t, Other(side)) == StateOf(s, Other(side))
    && t.initiatorEpoch == s.initiatorEpoch && t.responderEpoch == s.responderEpoch
    && t.accepted == s.accepted + {(e, n)} && t.evicted == s.evicted && t.nextKey == s.nextKey + 1
  }

  lemma AcceptedOther(s: System, side: Side, v: Ratchet, e: nat, n: nat, t: System)
    requires Lockstep(s) && Accepted(s, side, v, e, n, t) && Receiver(e) == side
    ensures KeysInStep(t, Other(side)) && StoreExact(t, Other(side))
  {
    StoodStillKeepsParty(s, t, Other(side));
  }

  /** `t` is `s` after `side` accepted message (e, n) out of its store. */
  ghost predicate TookStored(s: System, side: Side, e: nat, n: nat, t: System)
    requires e < |s.keys|
  {
    var v := StateOf(s, side);
    Accepted(s, side, v.(skipped := Remove(v.skipped, s.keys[e], n)), e, n, t)
  }

  lemma TookStoredKeys(s: System, side: Side, e: nat, n: nat, t: System)
    requires Shape(s) && KeysInStep(s, side) && e < |s.keys| && TookStored(s, side, e, n, t)
    ensures Shape(t) && KeysInStep(t, side)
  {
  }

  lemma TookStoredPassed(s: System, side: Side, e: nat, n: nat, t: System)
    requires Shape(s) && e < |s.keys| && TookStored(s, side, e, n, t)
    ensures InHistory(t)
    ensures forall f: nat, k: nat :: Passed(t, f, k) <==> Passed(s, f, k)
  {
    assert forall p: Side :: Epoch(t, p) == Epoch(s, p) && StateOf(t, p).nr == StateOf(s, p).nr;
  }

  lemma TookStoredFacts(s: System, side: Side, e: nat, n: nat, t: System)
    requires Shape(s) && KeysInStep(s, side) && Passed(s, e, n) && TookStored(s, side, e, n, t)
    ensures Shape(t) && KeysInStep(t, side)
    ensures forall f: nat, k: nat :: Passed(t, f, k) <==> Passed(s, f, k)
  {
    TookStoredKeys(s, side, e, n, t);
    TookStoredPassed(s, side, e, n, t);
  }

  lemma TookStoredLookup(s: System, side: Side, e: nat, n: nat, t: System)
    requires e < |s.keys| && TookStored(s, side, e, n, t)
    ensures forall dh: nat, k: nat :: Lookup(StateOf(t, side).skipped, dh, k)
              == if dh == s.keys[e] && k == n then None else Lookup(StateOf(s, side).skipped, dh, k)
  {
    forall dh: nat, k: nat
      ensures Lookup(StateOf(t, side).skipped, dh, k)
           == if dh == s.keys[e] && k == n then None else Lookup(StateOf(s, side).skipped, dh, k)
    {
      LookupRemove(StateOf(s, side).skipped, s.keys[e], n, dh, k);
    }
  }

  lemma TookStoredSound(s: System, side: Side, e: nat, n: nat, t: System)
    requires Shape(s) && KeysInStep(s, side) && StoreSound(s, side) && Passed(s, e, n) && TookStored(s, side, e, n, t)
    ensures Shape(t) && StoreSound(t, side)
  {
    TookStoredFacts(s, side, e, n, t);
    TookStoredLookup(s, side, e, n, t);
    forall dh: nat, k: nat | Lookup(StateOf(t, side).skipped, dh, k).Some? ensures IsPassedKey(t, side, dh, k) {
      assert IsPassedKey(s, side, dh, k);
      var f: nat :| Passed(s, f, k) && Receiver(f) == side && s.keys[f] == dh;
      assert Passed(t, f, k);
    }
  }

  lemma TookStoredComplete(s: System, side: Side, e: nat, n: nat, t: System)
    requires Shape(s) && KeysInStep(s, side) && StoreComplete(s, side)
    requires Passed(s, e, n) && TookStored(s, side, e, n, t)
    ensures Shape(t) && StoreComplete(t, side)
  {
    TookStoredFacts(s, side, e, n, t);
    TookStoredLookup(s, side, e, n, t);
    forall f: nat, k: nat | Passed(t, f, k) && Receiver(f) == side
      ensures Lookup(StateOf(t, side).skipped, t.keys[f], k) == Expected(t, f, k)
    {
      assert Passed(s, f, k);
    }
  }

  lemma TookStoredLog(s: System, side: Side, e: nat, n: nat, t: System)
    requires Shape(s) && KeysInStep(s, side) && LogExact(s)
    requires Passed(s, e, n) && (e, n) !in s.evicted && TookStored(s, side, e, n, t)
    ensures Shape(t) && LogExact(t)
  {
    TookStoredFacts(s, side, e, n, t);
  }

  lemma StoredKeepsLockstep(s: System, side: Side, e: nat, n: nat, t: System)
    requires Lockstep(s) && Passed(s, e, n) && Receiver(e) == side && (e, n) !in s.evicted
    requires TookStored(s, side, e, n, t)
    ensures Lockstep(t)
  {
    assert KeysInStep(s, side) && StoreExact(s, side);
    TookStoredFacts(s, side, e, n, t);
    TookStoredSound(s, side, e, n, t);
    TookStoredComplete(s, side, e, n, t);
    TookStoredLog(s, side, e, n, t);
    AcceptedOther(s, side, StateOf(t, side), e, n, t);
    BothParties(t, side);
  }

  /** `w` is the state of a receiver that moved up to message n of its current epoch. */
  ghost predicate MovedTo(s: System, side: Side, n: nat, w: Ratchet)
    requires InHistory(s)
  {
    var v := StateOf(s, side);
    var i := Epoch(s, side);
    && i >= 2 && v.nr <= n < |s.chains[i - 1]|
    && w == v.(ckr := Some(Advance(ChainBase(s.secret, s.keys, i - 1), n + 1)), nr := n + 1, skipped := w.skipped)
    && forall dh: nat, k: nat :: Lookup(w.skipped, dh, k)
         == if dh == s.keys[i - 1] && v.nr <= k < n then Some(KeyAt(s.secret, s.keys, i - 1, k))
            else Lookup(v.skipped, dh, k)
  }

  /** `t` is `s` after `side` accepted message n of its current epoch by moving up to it. */
  ghost predicate Moved(s: System, side: Side, n: nat, t: System)
    requires InHistory(s)
  {
    MovedTo(s, side, n, StateOf(t, side)) && Accepted(s, side, StateOf(t, side), Epoch(s, side) - 1, n, t)
  }

  lemma MovedKeys(s: System, side: Side, n: nat, t: System)
    requires Shape(s) && KeysInStep(s, side) && Moved(s, side, n, t)
    ensures Shape(t) && KeysInStep(t, side)
  {
  }

  lemma MovedPassed(s: System, side: Side, n: nat, t: System)
    requires Shape(s) && Moved(s, side, n, t)
    ensures InHistory(t)
    ensures forall f: nat, k: nat ::
              Passed(t, f, k) <==> Passed(s, f, k) || (f == Epoch(s, side) - 1 && StateOf(s, side).nr <= k <= n)
  {
    assert forall p: Side :: Epoch(t, p) == Epoch(s, p) && (p != side ==> StateOf(t, p).nr == StateOf(s, p).nr);
    assert Receiver(Epoch(s, side) - 1) == side;
  }

  lemma MovedFacts(s: System, side: Side, n: nat, t: System)
    requires Shape(s) && KeysInStep(s, side) && Moved(s, side, n, t)
    ensures Shape(t) && KeysInStep(t, side)
    ensures forall f: nat, k: nat ::
              Passed(t, f, k) <==> Passed(s, f, k) || (f == Epoch(s, side) - 1 && StateOf(s, side).nr <= k <= n)
  {
    MovedKeys(s, side, n, t);
    MovedPassed(s, side, n, t);
  }

  lemma MovedSound(s: System, side: Side, n: nat, t: System)
    requires Shape(s) && KeysInStep(s, side) && StoreExact(s, side) && Moved(s, side, n, t)
    ensures Shape(t) && StoreSound(t, side)
  {
    var e := Epoch(s, side) - 1;
    MovedFacts(s, side, n, t);
    forall dh: nat, k: nat | Lookup(StateOf(t, side).skipped, dh, k).Some? ensures IsPassedKey(t, side, dh, k) {
      if dh == s.keys[e] && StateOf(s, side).nr <= k < n {
        assert Passed(t, e, k);
      } else {
        var f := StoredIsPassed(s, side, dh, k);
        assert Passed(t, f, k);
      }
    }
  }

  lemma MovedEntry(s: System, side: Side, n: nat, t: System, f: nat, k: nat)
    requires Shape(s) && KeysInStep(s, side) && StoreExact(s, side) && LogExact(s) && Moved(s, side, n, t)
    requires InHistory(t) && Passed(t, f, k) && Receiver(f) == side
    ensures Lookup(StateOf(t, side).skipped, t.keys[f], k) == Expected(t, f, k)
  {
    if Passed(s, f, k) {
      assert Lookup(StateOf(s, side).skipped, s.keys[f], k) == Expected(s, f, k);
    } else {
      NotLogged(s, f, k);
      NotStoredYet(s, side, f, k);
    }
  }

  lemma MovedComplete(s: System, side: Side, n: nat, t: System)
    requires Shape(s) && KeysInStep(s, side) && StoreExact(s, side) && LogExact(s) && Moved(s, side, n, t)
    ensures Shape(t) && StoreComplete(t, side)
  {
    MovedFacts(s, side, n, t);
    forall f: nat, k: nat | Passed(t, f, k) && Receiver(f) == side
      ensures Lookup(StateOf(t, side).skipped, t.keys[f], k) == Expected(t, f, k)
    {
      MovedEntry(s, side, n, t, f, k);
    }
  }

  lemma MovedLog(s: System, side: Side, n: nat, t: System)
    requires Shape(s) && KeysInStep(s, side) && LogExact(s) && Moved(s, side, n, t)
    ensures Shape(t) && LogExact(t)
  {
    MovedFacts(s, side, n, t);
    NotLogged(s, Epoch(s, side) - 1, n);
  }

  lemma MovedKeepsLockstep(s: System, side: Side, n: nat, t: System)
    requires Lockstep(s) && Moved(s, side, n, t)
    ensures Lockstep(t)
  {
    hide AtEpoch;
    hide StoreComplete;
    hide StoreSound;
    assert KeysInStep(s, side) && StoreExact(s, side);
    MovedFacts(s, side, n, t);
    MovedSound(s, side, n, t);
    MovedComplete(s, side, n, t);
    MovedLog(s, side, n, t);
    AcceptedOther(s, side, StateOf(t, side), Epoch(s, side) - 1, n, t);
    BothParties(t, side);
  }

  lemma NotLogged(s: System, f: nat, k: nat)
    requires Shape(s) && LogExact(s) && !Passed(s, f, k)
    ensures (f, k) !in s.accepted && (f, k) !in s.evicted
  {
  }

  lemma NotStoredYet(s: System, side: Side, e: nat, k: nat)
    requires Shape(s) && StoreExact(s, side) && e < |s.keys| && !Passed(s, e, k)
    ensures Lookup(StateOf(s, side).skipped, s.keys[e], k) == None
  {
    if Lookup(StateOf(s, side).skipped, s.keys[e], k).Some? {
      var g := StoredIsPassed(s, side, s.keys[e], k);
      assert false;
    }
  }

  /** `t` is `s` after `side` stepped from epoch i to i + 2 on the peer's message n of epoch i + 1. */
  ghost predicate SteppedState(s: System, side: Side, before: seq<Entry>, n: nat, t: System)
    requires InHistory(s)
  {
    var i := Epoch(s, side);
    var w := StateOf(t, side);
    && i + 1 == |s.keys| - 1 && n < |s.chains[i + 1]|
    && t.secret == s.secret && t.context == s.context
    && t.keys == s.keys + [s.nextKey] && t.chains == s.chains + [[]] && t.nextKey == s.nextKey + 1
    && t.accepted == s.accepted + {(i + 1, n)} && t.evicted == s.evicted + EvictedBy(s, before)
    && Epoch(t, side) == i + 2 && Epoch(t, Other(side)) == Epoch(s, Other(side))
    && StateOf(t, Other(side)) == StateOf(s, Other(side))
    && w == Ratchet(s.nextKey, Private(s.nextKey), Some(s.keys[i + 1]),
                    Root(s.secret, t.keys, i + 2), Some(ChainBase(s.secret, t.keys, i + 2)),
                    Some(Advance(ChainBase(s.secret, s.keys, i + 1), n + 1)),
                    0, n + 1, |s.chains[i]|, w.skipped)
  }

  /** `before` is the party's store when the collection ran: the finished chain was skipped to its end. */
  ghost predicate SteppedStores(s: System, side: Side, before: seq<Entry>, n: nat, t: System)
    requires InHistory(s) && Epoch(s, side) + 1 < |s.keys|
  {
    var i := Epoch(s, side);
    && (forall dh: nat, k: nat :: Lookup(StateOf(t, side).skipped, dh, k)
          == if dh == s.keys[i + 1] && k < n then Some(KeyAt(s.secret, s.keys, i + 1, k))
             else Lookup(Collect(before), dh, k))
    && (forall dh: nat, k: nat :: Lookup(before, dh, k)
          == if i >= 2 && dh == s.keys[i - 1] && StateOf(s, side).nr <= k < |s.chains[i - 1]|
             then Some(KeyAt(s.secret, s.keys, i - 1, k))
             else Lookup(StateOf(s, side).skipped, dh, k))
  }

  ghost predicate Stepped(s: System, side: Side, before: seq<Entry>, n: nat, t: System)
    requires InHistory(s)
  {
    SteppedState(s, side, before, n, t) && SteppedStores(s, side, before, n, t)
  }

  lemma CollectLookup(before: seq<Entry>, dh: nat, k: nat)
    ensures Lookup(Collect(before), dh, k) == None || Lookup(Collect(before), dh, k) == Lookup(before, dh, k)
  {
    var j := CollectShortestPrefix(before);
    LookupDropEpochs(before, EpochOrder(before)[..j], dh, k);
  }

  lemma SteppedShape(s: System, side: Side, before: seq<Entry>, n: nat, t: System)
    requires Shape(s) && SteppedState(s, side, before, n, t)
    ensures Shape(t) && Epoch(t, side) == Epoch(s, side) + 2
    ensures Epoch(t, Other(side)) == Epoch(s, Other(side)) == Epoch(s, side) + 1
  {
  }

  lemma SteppedKeys(s: System, side: Side, before: seq<Entry>, n: nat, t: System)
    requires Shape(s) && SteppedState(s, side, before, n, t)
    ensures Epoch(t, side) == Epoch(s, side) + 2 && KeysInStep(t, side)
  {
    hide EvictedBy;
    SteppedShape(s, side, before, n, t);
    KeysStable(s.secret, s.keys, s.nextKey);
    var i := Epoch(s, side);
    assert t.chains[i + 1] == s.chains[i + 1] && t.chains[i] == s.chains[i] && t.chains[i + 2] == [];
    assert ChainBase(s.secret, t.keys, i + 1) == ChainBase(s.secret, s.keys, i + 1);
  }

  /** By a step, a party passes the rest of the finished chain and the start of the new one. */
  lemma SteppedPassed(s: System, side: Side, before: seq<Entry>, n: nat, t: System)
    requires Shape(s) && KeysInStep(s, side) && SteppedState(s, side, before, n, t)
    ensures InHistory(t)
    ensures forall f: nat, k: nat :: Receiver(f) == side ==>
              (Passed(t, f, k) <==>
                 Passed(s, f, k) || (f == Epoch(s, side) + 1 && k <= n)
                 || (f >= 1 && f == Epoch(s, side) - 1 && StateOf(s, side).nr <= k < |s.chains[f]|))
    ensures forall f: nat, k: nat :: Receiver(f) != side ==> (Passed(t, f, k) <==> Passed(s, f, k))
  {
    SteppedShape(s, side, before, n, t);
    assert forall e: nat :: e < |s.keys| ==> t.chains[e] == s.chains[e];
    forall f: nat, k: nat | Receiver(f) != side ensures Passed(t, f, k) <==> Passed(s, f, k) {
      assert Receiver(f) == Other(side);
      assert StateOf(t, Other(side)) == StateOf(s, Other(side));
    }
  }

  /** What the party held or passed over when the collection ran, message by message. */
  lemma BeforeCollection(s: System, side: Side, before: seq<Entry>, n: nat, t: System, f: nat, k: nat)
    requires Lockstep(s) && Stepped(s, side, before, n, t)
    requires Receiver(f) == side && Passed(t, f, k) && f <= Epoch(s, side)
    ensures f < |s.keys| && k < |s.chains[f]| && f + 3 <= Epoch(t, side)
    ensures Lookup(before, s.keys[f], k) == Expected(s, f, k)
  {
    SteppedPassed(s, side, before, n, t);
    SteppedShape(s, side, before, n, t);
    assert KeysInStep(s, side) && StoreExact(s, side);
    if !Passed(s, f, k) {
      assert (f, k) !in s.accepted && (f, k) !in s.evicted;
    }
  }

  lemma SteppedSound(s: System, side: Side, before: seq<Entry>, n: nat, t: System)
    requires Shape(s) && KeysInStep(s, side) && StoreExact(s, side) && Stepped(s, side, before, n, t)
    ensures Shape(t) && StoreSound(t, side)
  {
    SteppedShape(s, side, before, n, t);
    forall dh: nat, k: nat | Lookup(StateOf(t, side).skipped, dh, k).Some? ensures IsPassedKey(t, side, dh, k) {
      SteppedPassedKey(s, side, before, n, t, dh, k);
    }
  }

  /** The epochs next to a party's own are the ones it reads. */
  lemma ReadsNeighbours(s: System, side: Side)
    requires Shape(s)
    ensures Receiver(Epoch(s, side) + 1) == side
    ensures Epoch(s, side) >= 1 ==> Receiver(Epoch(s, side) - 1) == side
  {
  }

  lemma SteppedPassedKey(s: System, side: Side, before: seq<Entry>, n: nat, t: System, dh: nat, k: nat)
    requires Shape(s) && KeysInStep(s, side) && StoreExact(s, side) && Stepped(s, side, before, n, t)
    requires Shape(t) && Lookup(StateOf(t, side).skipped, dh, k).Some?
    ensures IsPassedKey(t, side, dh, k)
  {
    hide AtEpoch;
    hide Expected;
    hide Collect;
    hide EvictedBy;
    var i := Epoch(s, side);
    ReadsNeighbours(s, side);
    SteppedPassed(s, side, before, n, t);
    CollectLookup(before, dh, k);
    if dh == s.keys[i + 1] && k < n {
      assert Passed(t, i + 1, k) && t.keys[i + 1] == dh;
    } else if i >= 2 && dh == s.keys[i - 1] && StateOf(s, side).nr <= k < |s.chains[i - 1]| {
      assert Passed(t, i - 1, k) && t.keys[i - 1] == dh;
    } else {
      var f := StoredIsPassed(s, side, dh, k);
      assert Passed(t, f, k);
    }
  }

  lemma SteppedStore(s: System, side: Side, before: seq<Entry>, n: nat, t: System)
    requires Lockstep(s) && Shape(t) && Stepped(s, side, before, n, t)
    ensures StoreExact(t, side)
  {
    assert KeysInStep(s, side) && StoreExact(s, side);
    SteppedSound(s, side, before, n, t);
    forall f: nat, k: nat | Passed(t, f, k) && Receiver(f) == side
      ensures Lookup(StateOf(t, side).skipped, t.keys[f], k) == Expected(t, f, k)
    {
      SteppedEntry(s, side, before, n, t, f, k);
    }
  }

  lemma ExpectedStable(s: System, t: System, f: nat, k: nat)
    requires 1 <= f < |s.keys| && t.secret == s.secret && exists key :: t.keys == s.keys + [key]
    requires (f, k) in t.accepted <==> (f, k) in s.accepted
    requires (f, k) in t.evicted <==> (f, k) in s.evicted
    ensures Expected(t, f, k) == Expected(s, f, k)
  {
    KeysStable(s.secret, s.keys, t.keys[|s.keys|]);
  }

  lemma SteppedEntry(s: System, side: Side, before: seq<Entry>, n: nat, t: System, f: nat, k: nat)
    requires Lockstep(s) && Stepped(s, side, before, n, t)
    requires Shape(t) && Passed(t, f, k) && Receiver(f) == side
    ensures Lookup(StateOf(t, side).skipped, t.keys[f], k) == Expected(t, f, k)
  {
    hide Stepped;
    hide Lockstep;
    hide Expected;
    hide Lookup;
    if f == Epoch(s, side) + 1 {
      SteppedNewEntry(s, side, before, n, t, k);
    } else {
      SteppedOldEntry(s, side, before, n, t, f, k);
    }
  }

  lemma SteppedNewEntry(s: System, side: Side, before: seq<Entry>, n: nat, t: System, k: nat)
    requires Lockstep(s) && Stepped(s, side, before, n, t)
    requires Shape(t) && Passed(t, Epoch(s, side) + 1, k) && Receiver(Epoch(s, side) + 1) == side
    ensures var f := Epoch(s, side) + 1;
            Lookup(StateOf(t, side).skipped, t.keys[f], k) == Expected(t, f, k)
  {
    hide AtEpoch;
    hide StoreComplete;
    hide StoreSound;
    hide Collect;
    var f := Epoch(s, side) + 1;
    assert k <= n by {
      SteppedShape(s, side, before, n, t);
    }
    NotLogged(s, f, k);
    NothingBefore(s, side, before, n, t, k);
    CollectLookup(before, s.keys[f], k);
    if k < n {
      assert (f, k) !in EvictedBy(s, before);
      ExpectedStable(s, t, f, k);
    }
  }

  lemma SteppedOldEntry(s: System, side: Side, before: seq<Entry>, n: nat, t: System, f: nat, k: nat)
    requires Lockstep(s) && Stepped(s, side, before, n, t)
    requires Shape(t) && Passed(t, f, k) && Receiver(f) == side && f != Epoch(s, side) + 1
    ensures Lookup(StateOf(t, side).skipped, t.keys[f], k) == Expected(t, f, k)
  {
    SteppedShape(s, side, before, n, t);
    CollectLookup(before, t.keys[f], k);
    BeforeCollection(s, side, before, n, t, f, k);
    if (f, k) in EvictedBy(s, before) || (f, k) in s.evicted {
      assert Lookup(before, s.keys[f], k) == Expected(s, f, k);
    } else {
      ExpectedStable(s, t, f, k);
    }
  }

  lemma NothingBefore(s: System, side: Side, before: seq<Entry>, n: nat, t: System, k: nat)
    requires Lockstep(s) && Stepped(s, side, before, n, t)
    ensures Lookup(before, s.keys[Epoch(s, side) + 1], k) == None
  {
    NotStoredYet(s, side, Epoch(s, side) + 1, k);
  }

  lemma SteppedKeepsLockstep(s: System, side: Side, before: seq<Entry>, n: nat, t: System)
    requires Lockstep(s) && Stepped(s, side, before, n, t)
    ensures Lockstep(t)
  {
    SteppedKeys(s, side, before, n, t);
    SteppedShape(s, side, before, n, t);
    SteppedStore(s, side, before, n, t);
    SteppedLog(s, side, before, n, t);
    StoodStillKeepsParty(s, t, Other(side));
    BothParties(t, side);
  }

  lemma SteppedLog(s: System, side: Side, before: seq<Entry>, n: nat, t: System)
    requires Lockstep(s) && Stepped(s, side, before, n, t)
    ensures LogExact(t)
    ensures forall f: nat, k: nat :: (f, k) in EvictedBy(s, before) ==> Receiver(f) == side
  {
    var i := Epoch(s, side);
    SteppedShape(s, side, before, n, t);
    SteppedPassed(s, side, before, n, t);
    forall f: nat, k: nat | (f, k) in EvictedBy(s, before)
      ensures Receiver(f) == side && Passed(t, f, k) && f + 3 <= Epoch(t, Receiver(f))
      ensures (f, k) !in s.accepted && (f, k) != (i + 1, n)
    {
      EvictedWasHeld(s, side, before, n, t, f, k);
    }
  }

  lemma EvictedWasHeld(s: System, side: Side, before: seq<Entry>, n: nat, t: System, f: nat, k: nat)
    requires Lockstep(s) && Stepped(s, side, before, n, t) && (f, k) in EvictedBy(s, before)
    ensures Receiver(f) == side && Passed(t, f, k) && f <= Epoch(s, side) && f + 3 <= Epoch(t, side)
    ensures (f, k) !in s.accepted
  {
    HeldWasPassed(s, side, before, n, t, f, k);
    SteppedShape(s, side, before, n, t);
    assert KeysInStep(s, side);
    SteppedPassed(s, side, before, n, t);
  }

  lemma HeldWasPassed(s: System, side: Side, before: seq<Entry>, n: nat, t: System, f: nat, k: nat)
    requires Lockstep(s) && Stepped(s, side, before, n, t)
    requires f < |s.keys| && Lookup(before, s.keys[f], k).Some?
    ensures Receiver(f) == side && f < Epoch(s, side) && (f, k) !in s.accepted
    ensures Passed(s, f, k)
         || (f >= 1 && f == Epoch(s, side) - 1 && StateOf(s, side).nr <= k < |s.chains[f]|)
  {
    var i := Epoch(s, side);
    if i >= 2 && s.keys[f] == s.keys[i - 1] && StateOf(s, side).nr <= k < |s.chains[i - 1]| {
      assert f == i - 1;
      NotLogged(s, f, k);
    } else {
      assert StoreExact(s, side);
      var g := StoredIsPassed(s, side, s.keys[f], k);
      assert g == f;
    }
  }

  // ---- deliveries and sends are these steps ----

  lemma DeliverStored(s: System, side: Side, m: Message)
    requires Lockstep(s) && Accepts(s, side, m)
    requires Lookup(StateOf(s, side).skipped, m.header.dh, m.header.n).Some?
    ensures Lockstep(Deliver(s, side, m).0)
  {
    assert StoreExact(s, side);
    var e, n := AcceptedFromStore(s, side, m);
    EpochOfUnique(s, e);
    StoredKeepsLockstep(s, side, e, n, Deliver(s, side, m).0);
  }

  /** The state a party commits when the message's key came off the chain. */
  lemma CommittedState(s: System, side: Side, m: Message)
    requires Accepts(s, side, m) && Lookup(StateOf(s, side).skipped, m.header.dh, m.header.n).None?
    ensures Reach(StateOf(s, side), m.header, s.nextKey).Success?
    ensures var w := Reach(StateOf(s, side), m.header, s.nextKey).value;
            w.ckr.Some? && Decrypt(StateOf(s, side), m, s.context, s.nextKey).value.0
                        == w.(ckr := Some(NextChainKey(w.ckr.value)), nr := w.nr + 1)
  {
  }

  lemma DeliverMoves(s: System, side: Side, m: Message, n: nat)
    requires Shape(s) && KeysInStep(s, side) && Accepts(s, side, m)
    requires Lookup(StateOf(s, side).skipped, m.header.dh, m.header.n).None?
    requires !IsDhStep(StateOf(s, side), m.header.dh)
    requires Epoch(s, side) >= 1 && AcceptedAs(s, side, m, Epoch(s, side) - 1, n) && StateOf(s, side).nr <= n
    ensures MovedTo(s, side, n, Decrypt(StateOf(s, side), m, s.context, s.nextKey).value.0)
  {
    CommittedState(s, side, m);
    ReachSameEpoch(s, side, m.header);
  }

  lemma DeliverInEpoch(s: System, side: Side, m: Message)
    requires Lockstep(s) && Accepts(s, side, m)
    requires Lookup(StateOf(s, side).skipped, m.header.dh, m.header.n).None?
    requires !IsDhStep(StateOf(s, side), m.header.dh)
    ensures Lockstep(Deliver(s, side, m).0)
  {
    assert KeysInStep(s, side);
    var e, n := AcceptedInEpoch(s, side, m);
    DeliverMoves(s, side, m, n);
    EpochOfUnique(s, e);
    MovedKeepsLockstep(s, side, n, Deliver(s, side, m).0);
  }

  ghost predicate AcceptedWhole(s: System, side: Side, m: Message, e: nat, n: nat)
    requires Accepts(s, side, m)
  {
    AcceptedAs(s, side, m, e, n) && m == Genuine(s, e, n)
  }

  lemma NextRoots(s: System, i: nat, key: nat)
    requires i + 2 == |s.keys|
    ensures var keys := s.keys + [key];
            var rk := RootKey(Root(s.secret, s.keys, i), SharedOf(s.keys[i], s.keys[i + 1]));
            && Root(s.secret, keys, i + 2) == RootKey(rk, SharedOf(key, s.keys[i + 1]))
            && ChainBase(s.secret, keys, i + 2) == ChainKey(rk, SharedOf(key, s.keys[i + 1]))
  {
    RootStable(s.secret, s.keys, [key], i + 1);
    SharedInjective(key, s.keys[i + 1], 0);
  }

  lemma DeliverStepKeys(s: System, side: Side, m: Message, n: nat)
    requires Shape(s) && KeysInStep(s, side) && Accepts(s, side, m)
    requires TakesDhStep(StateOf(s, side), m) && AcceptedWhole(s, side, m, Epoch(s, side) + 1, n)
    requires Epoch(s, side) + 2 == |s.keys|
    ensures var w := Decrypt(StateOf(s, side), m, s.context, s.nextKey).value.0;
            var i := Epoch(s, side); var keys := s.keys + [s.nextKey];
            w == Ratchet(s.nextKey, Private(s.nextKey), Some(s.keys[i + 1]),
                         Root(s.secret, keys, i + 2), Some(ChainBase(s.secret, keys, i + 2)),
                         Some(Advance(ChainBase(s.secret, s.keys, i + 1), n + 1)),
                         0, n + 1, |s.chains[i]|, w.skipped)
  {
    CommittedState(s, side, m);
    ReachNextEpoch(s, side, m.header);
    NextRoots(s, Epoch(s, side), s.nextKey);
  }

  lemma DeliverStepFrame(s: System, side: Side, m: Message)
    requires InHistory(s) && Accepts(s, side, m) && TakesDhStep(StateOf(s, side), m)
    ensures var t := Deliver(s, side, m).0;
            && t.secret == s.secret && t.context == s.context
            && t.keys == s.keys + [s.nextKey] && t.chains == s.chains + [[]] && t.nextKey == s.nextKey + 1
            && t.accepted == s.accepted + {(EpochOf(s.keys, m.header.dh), m.header.n)}
            && t.evicted == s.evicted + EvictedBy(s, Skip(StateOf(s, side), m.header.pn).value.skipped)
            && Epoch(t, side) == Epoch(s, side) + 2 && Epoch(t, Other(side)) == Epoch(s, Other(side))
            && StateOf(t, Other(side)) == StateOf(s, Other(side))
            && StateOf(t, side) == Decrypt(StateOf(s, side), m, s.context, s.nextKey).value.0
  {
  }

  lemma DeliverStepState(s: System, side: Side, m: Message, n: nat)
    requires Shape(s) && KeysInStep(s, side) && Accepts(s, side, m)
    requires TakesDhStep(StateOf(s, side), m) && AcceptedWhole(s, side, m, Epoch(s, side) + 1, n)
    ensures SteppedState(s, side, Skip(StateOf(s, side), m.header.pn).value.skipped, n, Deliver(s, side, m).0)
  {
    hide Deliver;
    hide Decrypt;
    hide Skip;
    hide EvictedBy;
    DeliverStepFrame(s, side, m);
    DeliverStepKeys(s, side, m, n);
    EpochOfUnique(s, Epoch(s, side) + 1);
  }

  lemma DeliverStepLookups(s: System, side: Side, m: Message, n: nat)
    requires Shape(s) && KeysInStep(s, side) && Accepts(s, side, m)
    requires TakesDhStep(StateOf(s, side), m) && AcceptedWhole(s, side, m, Epoch(s, side) + 1, n)
    ensures var w := Decrypt(StateOf(s, side), m, s.context, s.nextKey).value.0;
            forall dh: nat, k: nat :: Lookup(w.skipped, dh, k)
              == if dh == m.header.dh && k < n then Some(KeyAt(s.secret, s.keys, Epoch(s, side) + 1, k))
                 else Lookup(Collect(Skip(StateOf(s, side), m.header.pn).value.skipped), dh, k)
  {
    CommittedState(s, side, m);
    ReachNextEpoch(s, side, m.header);
  }

  lemma DeliverStepStores(s: System, side: Side, m: Message, n: nat)
    requires Shape(s) && KeysInStep(s, side) && Accepts(s, side, m)
    requires TakesDhStep(StateOf(s, side), m) && AcceptedWhole(s, side, m, Epoch(s, side) + 1, n)
    ensures SteppedStores(s, side, Skip(StateOf(s, side), m.header.pn).value.skipped, n, Deliver(s, side, m).0)
  {
    DeliverStepLookups(s, side, m, n);
    DeliverStepBefore(s, side, m, n);
  }

  lemma DeliverStepBefore(s: System, side: Side, m: Message, n: nat)
    requires Shape(s) && KeysInStep(s, side) && Accepts(s, side, m)
    requires TakesDhStep(StateOf(s, side), m) && AcceptedWhole(s, side, m, Epoch(s, side) + 1, n)
    ensures var i := Epoch(s, side);
            forall dh: nat, k: nat :: Lookup(Skip(StateOf(s, side), m.header.pn).value.skipped, dh, k)
              == if i >= 2 && dh == s.keys[i - 1] && StateOf(s, side).nr <= k < |s.chains[i - 1]|
                 then Some(KeyAt(s.secret, s.keys, i - 1, k))
                 else Lookup(StateOf(s, side).skipped, dh, k)
  {
    ReachNextEpoch(s, side, m.header);
  }

  lemma DeliverNextEpoch(s: System, side: Side, m: Message)
    requires Lockstep(s) && Accepts(s, side, m) && TakesDhStep(StateOf(s, side), m)
    ensures Lockstep(Deliver(s, side, m).0)
  {
    assert KeysInStep(s, side);
    var e, n := AcceptedInNextEpoch(s, side, m);
    DeliverStepState(s, side, m, n);
    DeliverStepStores(s, side, m, n);
    SteppedKeepsLockstep(s, side, Skip(StateOf(s, side), m.header.pn).value.skipped, n, Deliver(s, side, m).0);
  }

  lemma DeliverKeepsLockstep(s: System, side: Side, m: Message)
    requires Lockstep(s) && Possible(s, m)
    ensures Lockstep(Deliver(s, side, m).0)
  {
    if Decrypt(StateOf(s, side), m, s.context, s.nextKey).Failure? {
      assert Lockstep(s.(nextKey := s.nextKey + 1)) by {
        var t := s.(nextKey := s.nextKey + 1);
        forall p: Side ensures KeysInStep(t, p) && StoreExact(t, p) {
          assert KeysInStep(s, p) && StoreExact(s, p);
          StoodStillKeepsParty(s, t, p);
        }
        assert forall f: nat, k: nat :: Passed(t, f, k) <==> Passed(s, f, k);
      }
    } else if Lookup(StateOf(s, side).skipped, m.header.dh, m.header.n).Some? {
      DeliverStored(s, side, m);
    } else if IsDhStep(StateOf(s, side), m.header.dh) {
      DeliverNextEpoch(s, side, m);
    } else {
      DeliverInEpoch(s, side, m);
    }
  }

  /** A sent message is the next of its sender's epoch, and what was sent before stays as it was. */
  lemma SendIsGenuine(s: System, side: Side, plain: Plaintext)
    requires Shape(s) && KeysInStep(s, side)
    ensures Send(s, side, plain).Failure? <==> Epoch(s, side) == 0
    ensures Send(s, side, plain).Success? ==>
              var (t, m) := Send(s, side, plain).value;
              var i := Epoch(s, side);
              Sent(t, i, |s.chains[i]|) && m == Genuine(t, i, |s.chains[i]|) && t.chains[i][|s.chains[i]|] == plain
  {
  }

  lemma SentStaysOnSend(s: System, side: Side, plain: Plaintext, e: nat, n: nat)
    requires Shape(s) && KeysInStep(s, side) && Send(s, side, plain).Success? && Sent(s, e, n)
    ensures var t := Send(s, side, plain).value.0;
            Sent(t, e, n) && Genuine(t, e, n) == Genuine(s, e, n) && t.chains[e][n] == s.chains[e][n]
  {
  }

  lemma SentStaysOnDeliver(s: System, side: Side, m: Message, e: nat, n: nat)
    requires Shape(s) && Sent(s, e, n)
    ensures var t := Deliver(s, side, m).0;
            Sent(t, e, n) && Genuine(t, e, n) == Genuine(s, e, n) && t.chains[e][n] == s.chains[e][n]
  {
    KeysStable(s.secret, s.keys, s.nextKey);
  }

  lemma SendMovesNothingPassed(s: System, side: Side, plain: Plaintext)
    requires Shape(s) && KeysInStep(s, side) && Send(s, side, plain).Success?
    ensures var t := Send(s, side, plain).value.0;
            Shape(t) && forall f: nat, k: nat :: Passed(t, f, k) <==> Passed(s, f, k)
  {
  }

  lemma EncryptKeepsEpoch(secret: Term, keys: seq<nat>, chains: seq<seq<Plaintext>>, i: nat, v: Ratchet,
                          plain: Plaintext)
    requires |chains| == |keys| && 1 <= i < |keys| && AtEpoch(secret, keys, chains, i, v)
    ensures AtEpoch(secret, keys, chains[i := chains[i] + [plain]], i,
                    v.(cks := Some(NextChainKey(v.cks.value)), ns := v.ns + 1))
  {
  }

  lemma SendKeepsKeys(s: System, side: Side, plain: Plaintext)
    requires Shape(s) && KeysInStep(s, side) && Send(s, side, plain).Success?
    ensures Shape(Send(s, side, plain).value.0) && KeysInStep(Send(s, side, plain).value.0, side)
  {
    EncryptKeepsEpoch(s.secret, s.keys, s.chains, Epoch(s, side), StateOf(s, side), plain);
  }

  lemma SendOther(s: System, side: Side, plain: Plaintext)
    requires Shape(s) && Send(s, side, plain).Success?
    ensures StoodStill(s, Send(s, side, plain).value.0, Other(side))
  {
  }

  lemma SendKeepsLog(s: System, side: Side, plain: Plaintext)
    requires Shape(s) && KeysInStep(s, side) && LogExact(s) && Send(s, side, plain).Success?
    ensures Shape(Send(s, side, plain).value.0) && LogExact(Send(s, side, plain).value.0)
  {
    SendMovesNothingPassed(s, side, plain);
  }

  lemma SendKeepsLockstep(s: System, side: Side, plain: Plaintext)
    requires Lockstep(s) && Send(s, side, plain).Success?
    ensures Lockstep(Send(s, side, plain).value.0)
  {
    var t := Send(s, side, plain).value.0;
    assert KeysInStep(s, side) && StoreExact(s, side);
    assert KeysInStep(s, Other(side)) && StoreExact(s, Other(side));
    SendKeepsKeys(s, side, plain);
    SendKeepsStore(s, side, plain);
    SendOther(s, side, plain);
    StoodStillKeepsParty(s, t, Other(side));
    SendKeepsLog(s, side, plain);
    BothParties(t, side);
  }

  lemma SendKeepsStore(s: System, side: Side, plain: Plaintext)
    requires Shape(s) && KeysInStep(s, side) && StoreExact(s, side) && Send(s, side, plain).Success?
    ensures Shape(Send(s, side, plain).value.0) && StoreExact(Send(s, side, plain).value.0, side)
  {
    var t := Send(s, side, plain).value.0;
    SendMovesNothingPassed(s, side, plain);
    forall dh: nat, n: nat | IsPassedKey(s, side, dh, n) ensures IsPassedKey(t, side, dh, n) {
      var e: nat :| Passed(s, e, n) && Receiver(e) == side && s.keys[e] == dh;
      assert Passed(t, e, n);
    }
    forall e: nat, n: nat | Passed(t, e, n) && Receiver(e) == side
      ensures Lookup(StateOf(t, side).skipped, t.keys[e], n) == Expected(t, e, n)
    {
      assert Passed(s, e, n);
    }
  }

  // ---- theorems over whole runs ----

  lemma StartInLockstep(secret: Term, context: seq<nat>, prekey: nat, first: nat)
    requires prekey != first
    ensures Lockstep(Start(secret, context, prekey, first))
  {
    var s := Start(secret, context, prekey, first);
    assert Root(secret, s.keys, 1) == RootKey(secret, SharedOf(prekey, first));
    assert forall e: nat, n: nat :: !Passed(s, e, n);
    forall side: Side ensures KeysInStep(s, side) && StoreExact(s, side) {
      assert side == Initiator || side == Responder;
    }
  }

  /** In every state of every run the parties are in lockstep. */
  lemma {:induction false} RunsStayInLockstep(run: seq<System>, i: nat)
    requires IsRun(run) && i < |run|
    ensures Lockstep(run[i])
  {
    if i == 0 {
      var secret, context, prekey: nat, first: nat :|
        prekey != first && run[0] == Start(secret, context, prekey, first);
      StartInLockstep(secret, context, prekey, first);
    } else {
      RunsStayInLockstep(run, i - 1);
      var s, t := run[i - 1], run[i];
      assert Step(run[i - 1], run[i - 1 + 1]);
      if side, plain: Plaintext :| Send(s, side, plain).Success? && t == Send(s, side, plain).value.0 {
        SendKeepsLockstep(s, side, plain);
      } else {
        var side, m :| Possible(s, m) && t == Deliver(s, side, m).0;
        DeliverKeepsLockstep(s, side, m);
      }
    }
  }

  /** The parties' sending epochs differ by exactly one, so no receiving epoch is ever missed. */
  lemma EpochsDifferByOne(run: seq<System>, i: nat)
    requires IsRun(run) && i < |run|
    ensures InHistory(run[i])
    ensures var a := Epoch(run[i], Initiator); var b := Epoch(run[i], Responder);
            a == b + 1 || b == a + 1
    ensures run[i].initiator.rk == Root(run[i].secret, run[i].keys, Epoch(run[i], Initiator))
    ensures run[i].responder.rk == Root(run[i].secret, run[i].keys, Epoch(run[i], Responder))
    ensures forall side :: StateOf(run[i], side).pn == PreviousLength(run[i].chains, Epoch(run[i], side))
  {
    RunsStayInLockstep(run, i);
    forall side: Side ensures KeysInStep(run[i], side) { }
    assert KeysInStep(run[i], Initiator) && KeysInStep(run[i], Responder);
  }

  // ---- exact delivery ----

  /** Whether the receiver of message n of epoch e can still read it; a check on its counters alone. */
  ghost predicate Deliverable(s: System, e: nat, n: nat)
    requires Shape(s) && Sent(s, e, n)
  {
    var i := Epoch(s, Receiver(e));
    var nr := StateOf(s, Receiver(e)).nr;
    if Passed(s, e, n) then (e, n) !in s.evicted
    else if e == i - 1 then n <= nr + MAX_SKIP
    else PreviousLength(s.chains, e) <= nr + MAX_SKIP && n <= MAX_SKIP
  }

  lemma GenuineUnique(s: System, e: nat, n: nat, f: nat, k: nat)
    requires Shape(s) && Sent(s, e, n) && Sent(s, f, k)
    requires SentWithLikeHeader(s, Genuine(s, e, n), f, k) && n == k
    ensures e == f
  {
    LikeHeader(s, Genuine(s, e, n), f, k);
  }

  lemma GenuineIsPossible(s: System, e: nat, n: nat)
    requires Sent(s, e, n)
    ensures Possible(s, Genuine(s, e, n))
  {
    assert IsVariant(s, Genuine(s, e, n), e, n);
  }

  lemma DeliverPassed(s: System, e: nat, n: nat)
    requires Lockstep(s) && Sent(s, e, n) && Passed(s, e, n)
    ensures Deliver(s, Receiver(e), Genuine(s, e, n)).1
         == if (e, n) !in s.accepted && (e, n) !in s.evicted then Some(s.chains[e][n]) else None
  {
    var side := Receiver(e);
    var m := Genuine(s, e, n);
    assert KeysInStep(s, side) && StoreExact(s, side);
    assert Lookup(StateOf(s, side).skipped, s.keys[e], n) == Expected(s, e, n);
    GenuineIsPossible(s, e, n);
    if Expected(s, e, n).None? && Accepts(s, side, m) {
      var f, k := AcceptedPlace(s, side, m);
      GenuineUnique(s, e, n, f, k);
      assert false;
    }
  }

  lemma AcceptedPlace(s: System, side: Side, m: Message) returns (f: nat, k: nat)
    requires Shape(s) && KeysInStep(s, side) && Accepts(s, side, m)
    requires Lookup(StateOf(s, side).skipped, m.header.dh, m.header.n).None?
    ensures AcceptedAs(s, side, m, f, k) && !Passed(s, f, k)
    ensures IsDhStep(StateOf(s, side), m.header.dh) ==> m == Genuine(s, f, k)
  {
    if IsDhStep(StateOf(s, side), m.header.dh) {
      f, k := AcceptedInNextEpoch(s, side, m);
    } else {
      f, k := AcceptedInEpoch(s, side, m);
    }
  }

  lemma DeliverCurrent(s: System, e: nat, n: nat)
    requires Lockstep(s) && Sent(s, e, n) && !Passed(s, e, n) && e + 1 == Epoch(s, Receiver(e))
    ensures Deliver(s, Receiver(e), Genuine(s, e, n)).1
         == if n <= StateOf(s, Receiver(e)).nr + MAX_SKIP then Some(s.chains[e][n]) else None
  {
    assert KeysInStep(s, Receiver(e)) && StoreExact(s, Receiver(e));
    NotStoredYet(s, Receiver(e), e, n);
    ReachSameEpoch(s, Receiver(e), Genuine(s, e, n).header);
    DecryptOffChain(StateOf(s, Receiver(e)), Genuine(s, e, n), s.context, s.nextKey,
                    KeyAt(s.secret, s.keys, e, n));
  }

  lemma DecryptOffChain(v: Ratchet, m: Message, context: seq<nat>, key: nat, mk: Term)
    requires Lookup(v.skipped, m.header.dh, m.header.n).None?
    requires Reach(v, m.header, key).Success? ==>
               Reach(v, m.header, key).value.ckr.Some? && MessageKey(Reach(v, m.header, key).value.ckr.value) == mk
    requires m.ciphertext.Sealed? && m.ciphertext.key == mk && m.ciphertext.ad == HeaderBytes(context, m.header)
    ensures Decrypt(v, m, context, key).Success? <==> Reach(v, m.header, key).Success?
    ensures Decrypt(v, m, context, key).Success? ==>
              Decrypt(v, m, context, key).value.1 == m.ciphertext.plain
  {
  }

  lemma DeliverNext(s: System, e: nat, n: nat)
    requires Lockstep(s) && Sent(s, e, n) && e == Epoch(s, Receiver(e)) + 1
    ensures Deliver(s, Receiver(e), Genuine(s, e, n)).1
         == if PreviousLength(s.chains, e) <= StateOf(s, Receiver(e)).nr + MAX_SKIP && n <= MAX_SKIP
            then Some(s.chains[e][n]) else None
  {
    var m := Genuine(s, e, n);
    assert KeysInStep(s, Receiver(e)) && StoreExact(s, Receiver(e));
    NotStoredYet(s, Receiver(e), e, n);
    ReachNextEpoch(s, Receiver(e), m.header);
    DecryptOffChain(StateOf(s, Receiver(e)), m, s.context, s.nextKey, KeyAt(s.secret, s.keys, e, n));
  }

  /**
   * Agreement: in every state of every run, the first delivery of a sent message returns its
   * plaintext if and only if its gaps are within MAX_SKIP and its stored key was not evicted.
   * Any later delivery of it returns nothing.
   */
  lemma DeliveryIsExact(run: seq<System>, i: nat, e: nat, n: nat)
    requires IsRun(run) && i < |run| && Sent(run[i], e, n)
    ensures Shape(run[i])
    ensures Deliver(run[i], Receiver(e), Genuine(run[i], e, n)).1
         == if (e, n) !in run[i].accepted && Deliverable(run[i], e, n) then Some(run[i].chains[e][n]) else None
  {
    var s := run[i];
    RunsStayInLockstep(run, i);
    if Passed(s, e, n) {
      DeliverPassed(s, e, n);
    } else {
      NotLogged(s, e, n);
      if e + 1 == Epoch(s, Receiver(e)) {
        DeliverCurrent(s, e, n);
      } else {
        DeliverNext(s, e, n);
      }
    }
  }

  /**
   * Authenticity over runs: whatever the network delivers in whatever state, what a party accepts
   * is a message its peer sent it, for the first time, and it reads what was encrypted. The header is
   * the sent one too, except that a party that takes no DH step ignores the count of the chain before,
   * and so accepts any count that encodes the same.
   */
  lemma AcceptanceIsAuthentic(run: seq<System>, i: nat, side: Side, m: Message) returns (e: nat, n: nat)
    requires IsRun(run) && i < |run| && Possible(run[i], m) && InHistory(run[i])
    requires Deliver(run[i], side, m).1.Some?
    ensures Sent(run[i], e, n) && Receiver(e) == side && m.ciphertext == Genuine(run[i], e, n).ciphertext
    ensures m.header.dh == run[i].keys[e] && m.header.n == n
    ensures m.header.pn % TWO_32 == PreviousLength(run[i].chains, e) % TWO_32
    ensures TakesDhStep(StateOf(run[i], side), m) ==> m == Genuine(run[i], e, n)
    ensures Deliver(run[i], side, m).1 == Some(run[i].chains[e][n])
    ensures (e, n) !in run[i].accepted && Deliver(run[i], side, m).0.accepted == run[i].accepted + {(e, n)}
  {
    hide AtEpoch;
    hide StoreComplete;
    hide StoreSound;
    hide Possible;
    var s := run[i];
    RunsStayInLockstep(run, i);
    assert KeysInStep(s, side) && StoreExact(s, side);
    if Lookup(StateOf(s, side).skipped, m.header.dh, m.header.n).Some? {
      e, n := AcceptedFromStore(s, side, m);
    } else {
      e, n := AcceptedPlace(s, side, m);
      NotLogged(s, e, n);
    }
    LikeHeader(s, m, e, n);
    EpochOfUnique(s, e);
  }

  /** Without a DH step, a header that encodes the same is delivered the same. */
  lemma IgnoredCountReadsTheSame(s: System, side: Side, m: Message, pn: nat)
    requires InHistory(s) && !TakesDhStep(StateOf(s, side), m) && pn % TWO_32 == m.header.pn % TWO_32
    ensures Deliver(s, side, m.(header := m.header.(pn := pn))) == Deliver(s, side, m)
  {
  }

  /** In every state, a sent message under any header is refused by a party that decrypts it for other identities. */
  lemma OtherIdentitiesAreRefused(s: System, side: Side, e: nat, n: nat, h: Header, context: seq<nat>, newKey: nat)
    requires Sent(s, e, n) && context != s.context
    ensures Decrypt(StateOf(s, side), Message(h, Genuine(s, e, n).ciphertext), context, newKey).Failure?
  {
    hide Decrypt;
    var v, m := StateOf(s, side), Message(h, Genuine(s, e, n).ciphertext);
    if Decrypt(v, m, context, newKey).Success? {
      DecryptBindsHeader(v, m, context, newKey);
    }
  }

  /** So is one whose header was changed into one that does not encode the same. */
  lemma AlteredHeaderIsRefused(s: System, side: Side, e: nat, n: nat, h: Header, newKey: nat)
    requires Sent(s, e, n)
    requires var g := Genuine(s, e, n).header;
             h.dh != g.dh || h.pn % TWO_32 != g.pn % TWO_32 || h.n % TWO_32 != g.n % TWO_32
    ensures Decrypt(StateOf(s, side), Message(h, Genuine(s, e, n).ciphertext), s.context, newKey).Failure?
  {
    hide Decrypt;
    var v, m := StateOf(s, side), Message(h, Genuine(s, e, n).ciphertext);
    if Decrypt(v, m, s.context, newKey).Success? {
      DecryptBindsHeader(v, m, s.context, newKey);
    }
  }
}
