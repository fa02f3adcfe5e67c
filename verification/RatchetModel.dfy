/**
 * The pairwise Double Ratchet (packages/crypto/src/double-ratchet.ts) on values.
 */
module RatchetModel {
  import opened Wrappers
  import opened Symbolic

  // What each operation makes of a state. LiveRatchet proves the in-place code against these
  // functions; RatchetReplay and RatchetAgreement prove what the functions are for.

  const MAX_SKIP: nat := 1000

  datatype Header = Header(dh: nat, pn: nat, n: nat)

  datatype Message = Message(header: Header, ciphertext: Ciphertext)

  /** One entry of MKSKIPPED, whose string key `hex(dh):n` is the pair (dh, n). */
  datatype Entry = Entry(dh: nat, n: nat, key: Term)

  datatype Ratchet = Ratchet(
    dhs: nat,
    dhsPrivate: Term,
    dhr: Option<nat>,
    rk: Term,
    cks: Option<Term>,
    ckr: Option<Term>,
    ns: nat,
    nr: nat,
    pn: nat,
    skipped: seq<Entry>)

  datatype RatchetError =
    | SendingChainNotInitialised
    | TooManySkippedMessages
    | DhrNotSet
    | ReceivingChainNotInitialised
    | AuthenticationFailed

  /** `concat(associatedData, encodeHeader(header))`: the two counters are written with 32 bits. */
  function HeaderBytes(context: seq<nat>, h: Header): AssocData {
    HeaderAd(context, h.dh, h.pn % TWO_32, h.n % TWO_32)
  }

  // ---- the insertion-ordered map MKSKIPPED ----

  function Lookup(s: seq<Entry>, dh: nat, n: nat): Option<Term> {
    if s == [] then None
    else if s[0].dh == dh && s[0].n == n then Some(s[0].key)
    else Lookup(s[1..], dh, n)
  }

  function Put(s: seq<Entry>, e: Entry): seq<Entry> {
    if s == [] then [e]
    else if s[0].dh == e.dh && s[0].n == e.n then [e] + s[1..]
    else [s[0]] + Put(s[1..], e)
  }

  function Remove(s: seq<Entry>, dh: nat, n: nat): seq<Entry> {
    if s == [] then []
    else if s[0].dh == dh && s[0].n == n then Remove(s[1..], dh, n)
    else [s[0]] + Remove(s[1..], dh, n)
  }

  /** A map holds a key once. */
  ghost predicate UniqueKeys(s: seq<Entry>) {
    forall i, j :: 0 <= i < j < |s| ==> s[i].dh != s[j].dh || s[i].n != s[j].n
  }

  // ---- garbage collection ----

  function DropEpoch(s: seq<Entry>, dh: nat): seq<Entry> {
    if s == [] then []
    else if s[0].dh == dh then DropEpoch(s[1..], dh)
    else [s[0]] + DropEpoch(s[1..], dh)
  }

  function DropEpochs(s: seq<Entry>, dhs: seq<nat>): seq<Entry>
    decreases |dhs|
  {
    if dhs == [] then s else DropEpochs(DropEpoch(s, dhs[0]), dhs[1..])
  }

  /** The epochs of a store, each once, by their earliest entry. */
  function EpochOrder(s: seq<Entry>): seq<nat> {
    if s == [] then []
    else
      var before := EpochOrder(s[..|s| - 1]);
      if s[|s| - 1].dh in before then before else before + [s[|s| - 1].dh]
  }

  function EvictUntilSmall(s: seq<Entry>, order: seq<nat>): seq<Entry>
    decreases |order|
  {
    if order == [] || |s| <= MAX_SKIP then s
    else EvictUntilSmall(DropEpoch(s, order[0]), order[1..])
  }

  function Collect(s: seq<Entry>): seq<Entry> {
    if |s| > MAX_SKIP then EvictUntilSmall(s, EpochOrder(s)) else s
  }

  // ---- operations ----

  function InitSender(secret: Term, recipient: nat, newKey: nat): Ratchet {
    var dh := Dh(Private(newKey), recipient);
    Ratchet(newKey, Private(newKey), Some(recipient), RootKey(secret, dh), Some(ChainKey(secret, dh)), None,
            0, 0, 0, [])
  }

  function InitReceiver(secret: Term, pub: nat, privateKey: Term): Ratchet {
    Ratchet(pub, privateKey, None, secret, None, None, 0, 0, 0, [])
  }

  function Encrypt(v: Ratchet, plain: Plaintext, context: seq<nat>): Result<(Ratchet, Message), RatchetError> {
    if v.cks.None? then Failure(SendingChainNotInitialised)
    else
      var header := Header(v.dhs, v.pn, v.ns);
      var sealed := Sealed(MessageKey(v.cks.value), plain, HeaderBytes(context, header));
      Success((v.(cks := Some(NextChainKey(v.cks.value)), ns := v.ns + 1), Message(header, sealed)))
  }

  /** One turn of the loop that stores a passed-over message key. */
  function SkipOne(v: Ratchet): Ratchet
    requires v.ckr.Some? && v.dhr.Some?
  {
    v.(ckr := Some(NextChainKey(v.ckr.value)),
       skipped := Put(v.skipped, Entry(v.dhr.value, v.nr, MessageKey(v.ckr.value))),
       nr := v.nr + 1)
  }

  function SkipLoop(v: Ratchet, until: nat): Result<Ratchet, RatchetError>
    requires v.ckr.Some?
    decreases until - v.nr
  {
    if v.nr >= until then Success(v)
    else if v.dhr.None? then Failure(DhrNotSet)
    else SkipLoop(SkipOne(v), until)
  }

  function Skip(v: Ratchet, until: nat): Result<Ratchet, RatchetError> {
    if v.nr + MAX_SKIP < until then Failure(TooManySkippedMessages)
    else if v.ckr.None? then Success(v)
    else SkipLoop(v, until)
  }

  function DhStep(v: Ratchet, remote: nat, newKey: nat): Ratchet {
    var dh1 := Dh(v.dhsPrivate, remote);
    var rk1 := RootKey(v.rk, dh1);
    var dh2 := Dh(Private(newKey), remote);
    Ratchet(newKey, Private(newKey), Some(remote), RootKey(rk1, dh2), Some(ChainKey(rk1, dh2)),
            Some(ChainKey(v.rk, dh1)), 0, 0, v.ns, Collect(v.skipped))
  }

  predicate IsDhStep(v: Ratchet, dh: nat) {
    v.dhr != Some(dh)
  }

  /** The candidate state whose receiving chain is at the message: every step before its own key. */
  function Reach(v: Ratchet, h: Header, newKey: nat): Result<Ratchet, RatchetError> {
    if IsDhStep(v, h.dh) then
      match Skip(v, h.pn)
      case Failure(e) => Failure(e)
      case Success(w) => Skip(DhStep(w, h.dh, newKey), h.n)
    else Skip(v, h.n)
  }

  function DecryptAdvance(v: Ratchet, m: Message, context: seq<nat>, newKey: nat)
    : Result<(Ratchet, Plaintext), RatchetError>
  {
    match Reach(v, m.header, newKey)
    case Failure(e) => Failure(e)
    case Success(w) =>
      if w.ckr.None? then Failure(ReceivingChainNotInitialised)
      else
        match Open(MessageKey(w.ckr.value), m.ciphertext, HeaderBytes(context, m.header))
        case None => Failure(AuthenticationFailed)
        case Some(plain) => Success((w.(ckr := Some(NextChainKey(w.ckr.value)), nr := w.nr + 1), plain))
  }

  function Decrypt(v: Ratchet, m: Message, context: seq<nat>, newKey: nat)
    : Result<(Ratchet, Plaintext), RatchetError>
  {
    match Lookup(v.skipped, m.header.dh, m.header.n)
    case Some(key) =>
      (match Open(key, m.ciphertext, HeaderBytes(context, m.header))
       case None => Failure(AuthenticationFailed)
       case Some(plain) =>
         Success((v.(skipped := Remove(v.skipped, m.header.dh, m.header.n)), plain)))
    case None => DecryptAdvance(v, m, context, newKey)
  }

  // ---- laws of the store ----

  lemma {:induction false} LookupPut(s: seq<Entry>, e: Entry, dh: nat, n: nat)
    ensures Lookup(Put(s, e), dh, n)
         == if e.dh == dh && e.n == n then Some(e.key) else Lookup(s, dh, n)
  {
    if s != [] && !(s[0].dh == e.dh && s[0].n == e.n) {
      LookupPut(s[1..], e, dh, n);
    }
  }

  lemma {:induction false} LookupRemove(s: seq<Entry>, dh0: nat, n0: nat, dh: nat, n: nat)
    ensures Lookup(Remove(s, dh0, n0), dh, n)
         == if dh0 == dh && n0 == n then None else Lookup(s, dh, n)
  {
    if s != [] {
      LookupRemove(s[1..], dh0, n0, dh, n);
    }
  }

  lemma {:induction false} LookupDropEpochs(s: seq<Entry>, dhs: seq<nat>, dh: nat, n: nat)
    ensures Lookup(DropEpochs(s, dhs), dh, n) == if dh in dhs then None else Lookup(s, dh, n)
    decreases |dhs|
  {
    if dhs != [] {
      LookupDropEpoch(s, dhs[0], dh, n);
      LookupDropEpochs(DropEpoch(s, dhs[0]), dhs[1..], dh, n);
    }
  }

  lemma {:induction false} LookupDropEpoch(s: seq<Entry>, e: nat, dh: nat, n: nat)
    ensures Lookup(DropEpoch(s, e), dh, n) == if e == dh then None else Lookup(s, dh, n)
  {
    if s != [] {
      LookupDropEpoch(s[1..], e, dh, n);
    }
  }

  /** Storing adds at most one entry, and keeps the keys of the map unique. */
  lemma {:induction false} PutSize(s: seq<Entry>, e: Entry)
    ensures |s| <= |Put(s, e)| <= |s| + 1
    ensures forall i :: 0 <= i < |Put(s, e)| ==> Put(s, e)[i] == e || Put(s, e)[i] in s
    ensures UniqueKeys(s) ==> UniqueKeys(Put(s, e))
  {
    if s != [] && !(s[0].dh == e.dh && s[0].n == e.n) {
      PutSize(s[1..], e);
      if UniqueKeys(s) {
        assert UniqueKeys(s[1..]) by {
          assert forall i :: 0 <= i < |s[1..]| ==> s[1..][i] == s[i + 1];
        }
      }
    }
  }

  ghost predicate HasEpoch(s: seq<Entry>, d: nat) {
    exists i :: 0 <= i < |s| && s[i].dh == d
  }

  lemma {:induction false} RemoveKeeps(s: seq<Entry>, dh: nat, n: nat)
    ensures |Remove(s, dh, n)| <= |s|
    ensures forall i :: 0 <= i < |Remove(s, dh, n)| ==> Remove(s, dh, n)[i] in s
    ensures UniqueKeys(s) ==> UniqueKeys(Remove(s, dh, n))
  {
    if s != [] {
      RemoveKeeps(s[1..], dh, n);
      if UniqueKeys(s) {
        assert UniqueKeys(s[1..]) by {
          assert forall i :: 0 <= i < |s[1..]| ==> s[1..][i] == s[i + 1];
        }
      }
    }
  }

  lemma {:induction false} EpochOrderExact(s: seq<Entry>)
    ensures forall i :: 0 <= i < |s| ==> s[i].dh in EpochOrder(s)
    ensures forall d :: d in EpochOrder(s) ==> HasEpoch(s, d)
    ensures forall i, j :: 0 <= i < j < |EpochOrder(s)| ==> EpochOrder(s)[i] != EpochOrder(s)[j]
  {
    if s != [] {
      var t := s[..|s| - 1];
      EpochOrderExact(t);
      forall d | d in EpochOrder(s) ensures HasEpoch(s, d) {
        if d in EpochOrder(t) {
          var i :| 0 <= i < |t| && t[i].dh == d;
          assert s[i].dh == d;
        } else {
          assert s[|s| - 1].dh == d;
        }
      }
      forall i | 0 <= i < |s| ensures s[i].dh in EpochOrder(s) {
        assert i < |t| ==> t[i].dh in EpochOrder(t);
      }
    }
  }

  /** Epochs are ordered by the position of their earliest entry. */
  lemma {:induction false} EpochOrderIsOldestFirst(s: seq<Entry>, i: nat, j: nat)
    requires i < j < |EpochOrder(s)|
    ensures exists p :: 0 <= p < |s| && s[p].dh == EpochOrder(s)[i]
                     && forall q :: 0 <= q <= p ==> s[q].dh != EpochOrder(s)[j]
  {
    var t := s[..|s| - 1];
    if j < |EpochOrder(t)| {
      EpochOrderIsOldestFirst(t, i, j);
      var p :| 0 <= p < |t| && t[p].dh == EpochOrder(t)[i]
            && forall q :: 0 <= q <= p ==> t[q].dh != EpochOrder(t)[j];
      assert s[p].dh == EpochOrder(s)[i];
      assert forall q :: 0 <= q <= p ==> s[q] == t[q];
    } else {
      EpochOrderExact(t);
      assert EpochOrder(s)[i] in EpochOrder(t);
      var p :| 0 <= p < |t| && t[p].dh == EpochOrder(s)[i];
      assert s[p].dh == EpochOrder(s)[i];
      forall q | 0 <= q <= p ensures s[q].dh != EpochOrder(s)[j] {
        assert t[q].dh in EpochOrder(t);
      }
    }
  }

  lemma {:induction false} EvictIsPrefix(s: seq<Entry>, order: seq<nat>) returns (k: nat)
    ensures k <= |order| && EvictUntilSmall(s, order) == DropEpochs(s, order[..k])
    ensures k == |order| || |DropEpochs(s, order[..k])| <= MAX_SKIP
    ensures forall j :: 0 <= j < k ==> |DropEpochs(s, order[..j])| > MAX_SKIP
    decreases |order|
  {
    if order == [] || |s| <= MAX_SKIP {
      k := 0;
    } else {
      var rest := EvictIsPrefix(DropEpoch(s, order[0]), order[1..]);
      k := rest + 1;
      assert order[..k][1..] == order[1..][..rest];
      forall j | 0 <= j < k ensures |DropEpochs(s, order[..j])| > MAX_SKIP {
        if j > 0 {
          assert order[..j][1..] == order[1..][..j - 1];
        }
      }
    }
  }

  lemma {:induction false} DropEpochsKeeps(s: seq<Entry>, dhs: seq<nat>)
    ensures |DropEpochs(s, dhs)| <= |s|
    ensures forall e :: e in DropEpochs(s, dhs) ==> e in s && e.dh !in dhs
    ensures UniqueKeys(s) ==> UniqueKeys(DropEpochs(s, dhs))
    decreases |dhs|
  {
    if dhs != [] {
      DropEpochKeeps(s, dhs[0]);
      DropEpochsKeeps(DropEpoch(s, dhs[0]), dhs[1..]);
    }
  }

  lemma {:induction false} DropEpochKeeps(s: seq<Entry>, e: nat)
    ensures |DropEpoch(s, e)| <= |s|
    ensures forall i :: 0 <= i < |DropEpoch(s, e)| ==> DropEpoch(s, e)[i] in s && DropEpoch(s, e)[i].dh != e
    ensures UniqueKeys(s) ==> UniqueKeys(DropEpoch(s, e))
  {
    if s != [] {
      DropEpochKeeps(s[1..], e);
      if UniqueKeys(s) {
        assert UniqueKeys(s[1..]) by {
          assert forall i :: 0 <= i < |s[1..]| ==> s[1..][i] == s[i + 1];
        }
      }
    }
  }

  /**
   * Collection removes a prefix of whole epochs, oldest first, and no epoch more than it takes
   * to bring the store to MAX_SKIP entries.
   */
  lemma CollectShortestPrefix(s: seq<Entry>) returns (k: nat)
    ensures k <= |EpochOrder(s)| && Collect(s) == DropEpochs(s, EpochOrder(s)[..k])
    ensures |Collect(s)| <= MAX_SKIP
    ensures forall j :: 0 <= j < k ==> |DropEpochs(s, EpochOrder(s)[..j])| > MAX_SKIP
  {
    if |s| > MAX_SKIP {
      k := EvictIsPrefix(s, EpochOrder(s));
      if |Collect(s)| > MAX_SKIP {
        var left := Collect(s)[0];
        assert EpochOrder(s)[..k] == EpochOrder(s);
        assert left in DropEpochs(s, EpochOrder(s));
        EpochOrderExact(s);
        DropEpochsKeeps(s, EpochOrder(s));
        assert false;
      }
    } else {
      k := 0;
    }
  }

  // ---- what skipping does ----

  lemma {:induction false} SkipLoopWalks(v: Ratchet, until: nat)
    requires v.ckr.Some? && (v.nr >= until || v.dhr.Some?)
    ensures var steps := if v.nr < until then until - v.nr else 0;
            SkipLoop(v, until).Success?
            && var w := SkipLoop(v, until).value;
               w == v.(ckr := Some(Advance(v.ckr.value, steps)), nr := v.nr + steps, skipped := w.skipped)
               && |w.skipped| <= |v.skipped| + steps
               && (UniqueKeys(v.skipped) ==> UniqueKeys(w.skipped))
    decreases until - v.nr
  {
    hide Put;
    hide UniqueKeys;
    if v.nr < until {
      var u := SkipOne(v);
      SkipLoopWalks(u, until);
      PutSize(v.skipped, Entry(v.dhr.value, v.nr, MessageKey(v.ckr.value)));
      AdvanceStep(v.ckr.value, until - u.nr);
    }
  }

  lemma {:induction false} SkipLoopStores(v: Ratchet, until: nat, dh: nat, n: nat)
    requires v.ckr.Some? && (v.nr >= until || v.dhr.Some?) && SkipLoop(v, until).Success?
    ensures Lookup(SkipLoop(v, until).value.skipped, dh, n)
            == if v.dhr == Some(dh) && v.nr <= n < until then Some(MessageKey(Advance(v.ckr.value, n - v.nr)))
               else Lookup(v.skipped, dh, n)
    decreases until - v.nr
  {
    hide Put;
    hide Lookup;
    if v.nr < until {
      var u := SkipOne(v);
      SkipLoopStores(u, until, dh, n);
      LookupPut(v.skipped, Entry(v.dhr.value, v.nr, MessageKey(v.ckr.value)), dh, n);
      if u.nr <= n {
        AdvanceStep(v.ckr.value, n - u.nr);
      }
    }
  }

  /** A successful skip walks one chain forward, `until - nr` steps, and stores only what it passes. */
  lemma SkipLoopMeaning(v: Ratchet, until: nat)
    requires v.ckr.Some? && (v.nr >= until || v.dhr.Some?)
    ensures var steps := if v.nr < until then until - v.nr else 0;
            SkipLoop(v, until).Success?
            && var w := SkipLoop(v, until).value;
               w == v.(ckr := Some(Advance(v.ckr.value, steps)), nr := v.nr + steps, skipped := w.skipped)
               && |w.skipped| <= |v.skipped| + steps
               && (UniqueKeys(v.skipped) ==> UniqueKeys(w.skipped))
    ensures forall dh: nat, n: nat :: Lookup(SkipLoop(v, until).value.skipped, dh, n)
                         == if v.dhr == Some(dh) && v.nr <= n < until
                            then Some(MessageKey(Advance(v.ckr.value, n - v.nr)))
                            else Lookup(v.skipped, dh, n)
  {
    hide SkipLoop;
    hide Lookup;
    SkipLoopWalks(v, until);
    forall dh: nat, n: nat
      ensures Lookup(SkipLoop(v, until).value.skipped, dh, n)
           == if v.dhr == Some(dh) && v.nr <= n < until
              then Some(MessageKey(Advance(v.ckr.value, n - v.nr)))
              else Lookup(v.skipped, dh, n)
    {
      SkipLoopStores(v, until, dh, n);
    }
  }

  /** `w` is `v` with its chain moved up to `until`, the keys in between stored. */
  ghost predicate Skipped(v: Ratchet, base: Term, until: nat, w: Ratchet)
    requires v.dhr.Some?
  {
    var nr := if v.nr < until then until else v.nr;
    && w == v.(ckr := Some(Advance(base, nr)), nr := nr, skipped := w.skipped)
    && |w.skipped| <= |v.skipped| + (nr - v.nr)
    && (UniqueKeys(v.skipped) ==> UniqueKeys(w.skipped))
    && forall dh: nat, n: nat :: Lookup(w.skipped, dh, n)
         == if dh == v.dhr.value && v.nr <= n < until then Some(MessageKey(Advance(base, n)))
            else Lookup(v.skipped, dh, n)
  }

  /**
   * On a chain at its own index, skipping fails exactly when the message is more than MAX_SKIP
   * ahead, and otherwise stores the key of every index it passes.
   */
  lemma SkipMeaning(v: Ratchet, base: Term, until: nat)
    requires v.dhr.Some? && v.ckr == Some(Advance(base, v.nr))
    ensures Skip(v, until).Success? <==> until <= v.nr + MAX_SKIP
    ensures Skip(v, until).Success? ==> Skipped(v, base, until, Skip(v, until).value)
  {
    hide Lookup;
    hide SkipLoop;
    hide UniqueKeys;
    if until <= v.nr + MAX_SKIP {
      SkipLoopMeaning(v, until);
      if v.nr < until {
        AdvanceAdd(base, v.nr, until - v.nr);
      }
      var w := Skip(v, until).value;
      forall dh: nat, n: nat
        ensures Lookup(w.skipped, dh, n)
             == if dh == v.dhr.value && v.nr <= n < until then Some(MessageKey(Advance(base, n)))
                else Lookup(v.skipped, dh, n)
      {
        if v.nr <= n {
          AdvanceAdd(base, v.nr, n - v.nr);
        }
      }
    }
  }

  /**
   * However full the store was, a message accepted with a DH step leaves at most 2 * MAX_SKIP
   * keys in it; and the store stays a map.
   */
  lemma StepBoundsStore(v: Ratchet, m: Message, context: seq<nat>, newKey: nat)
    requires Decrypt(v, m, context, newKey).Success?
    ensures Lookup(v.skipped, m.header.dh, m.header.n).None? && IsDhStep(v, m.header.dh) ==>
              |Decrypt(v, m, context, newKey).value.0.skipped| <= 2 * MAX_SKIP
  {
    if Lookup(v.skipped, m.header.dh, m.header.n).None? && IsDhStep(v, m.header.dh) {
      var w := DhStep(Skip(v, m.header.pn).value, m.header.dh, newKey);
      var k := CollectShortestPrefix(Skip(v, m.header.pn).value.skipped);
      SkipLoopMeaning(w, m.header.n);
    }
  }

  lemma {:induction false} SkipKeepsMap(v: Ratchet, until: nat)
    requires UniqueKeys(v.skipped) && v.ckr.Some?
    ensures SkipLoop(v, until).Success? ==> UniqueKeys(SkipLoop(v, until).value.skipped)
    decreases until - v.nr
  {
    if v.nr < until && v.dhr.Some? {
      PutSize(v.skipped, Entry(v.dhr.value, v.nr, MessageKey(v.ckr.value)));
      SkipKeepsMap(SkipOne(v), until);
    }
  }

  lemma CollectKeepsMap(s: seq<Entry>)
    requires UniqueKeys(s)
    ensures UniqueKeys(Collect(s))
  {
    var k := CollectShortestPrefix(s);
    DropEpochsKeeps(s, EpochOrder(s)[..k]);
  }

  lemma DecryptKeepsMap(v: Ratchet, m: Message, context: seq<nat>, newKey: nat)
    requires UniqueKeys(v.skipped) && Decrypt(v, m, context, newKey).Success?
    ensures UniqueKeys(Decrypt(v, m, context, newKey).value.0.skipped)
  {
    var h := m.header;
    RemoveKeeps(v.skipped, h.dh, h.n);
    if Lookup(v.skipped, h.dh, h.n).None? {
      var w := v;
      if IsDhStep(v, h.dh) {
        if v.ckr.Some? {
          SkipKeepsMap(v, h.pn);
        }
        CollectKeepsMap(Skip(v, h.pn).value.skipped);
        w := DhStep(Skip(v, h.pn).value, h.dh, newKey);
      }
      if w.ckr.Some? {
        SkipKeepsMap(w, h.n);
      }
    }
  }

  // ---- what one operation promises, in plain terms ----

  /** A message is sealed under the sending chain's next key, bound to its header and the session's identities. */
  lemma EncryptMeaning(v: Ratchet, plain: Plaintext, context: seq<nat>)
    ensures Encrypt(v, plain, context).Success? <==> v.cks.Some?
    ensures v.cks.Some? ==>
              var (v', m) := Encrypt(v, plain, context).value;
              && m.header == Header(v.dhs, v.pn, v.ns)
              && m.ciphertext == Sealed(MessageKey(v.cks.value), plain,
                                        HeaderAd(context, v.dhs, v.pn % TWO_32, v.ns % TWO_32))
              && v' == v.(cks := Some(NextChainKey(v.cks.value)), ns := v.ns + 1)
  {
  }

  /** What is read was sealed for this very header and these identities, and for nothing else. */
  lemma DecryptBindsHeader(v: Ratchet, m: Message, context: seq<nat>, newKey: nat)
    requires Decrypt(v, m, context, newKey).Success?
    ensures m.ciphertext.Sealed? && Decrypt(v, m, context, newKey).value.1 == m.ciphertext.plain
    ensures m.ciphertext.ad == HeaderAd(context, m.header.dh, m.header.pn % TWO_32, m.header.n % TWO_32)
  {
    hide Reach;
    hide Lookup;
    hide Remove;
  }

  /** A step would have to pass over more than 1000 messages. */
  predicate GapTooLarge(v: Ratchet, h: Header) {
    if v.dhr == Some(h.dh) then h.n > v.nr + 1000 else h.pn > v.nr + 1000 || h.n > 1000
  }

  lemma SkipOutcome(v: Ratchet, until: nat)
    requires v.ckr.Some? ==> v.dhr.Some?
    ensures Skip(v, until).Success? <==> until <= v.nr + 1000
    ensures Skip(v, until).Failure? ==> Skip(v, until).error == TooManySkippedMessages
    ensures Skip(v, until).Success? ==> Skip(v, until).value.ckr.Some? == v.ckr.Some?
  {
    if until <= v.nr + MAX_SKIP && v.ckr.Some? {
      SkipLoopWalks(v, until);
    }
  }

  /**
   * Why a message is refused. A stored key leaves only authentication to fail; otherwise a gap that is
   * too large comes first, then a chain that was never started, then authentication.
   */
  lemma RefusalsAreExact(v: Ratchet, m: Message, context: seq<nat>, newKey: nat)
    requires v.ckr.Some? ==> v.dhr.Some?
    ensures var r := Decrypt(v, m, context, newKey);
            var stored := Lookup(v.skipped, m.header.dh, m.header.n).Some?;
            r.Failure? ==>
              r.error == if stored then AuthenticationFailed
                         else if GapTooLarge(v, m.header) then TooManySkippedMessages
                         else if v.dhr == Some(m.header.dh) && v.ckr.None? then ReceivingChainNotInitialised
                         else AuthenticationFailed
    ensures Lookup(v.skipped, m.header.dh, m.header.n).None? && GapTooLarge(v, m.header) ==>
              Decrypt(v, m, context, newKey).Failure?
  {
    hide SkipLoop;
    hide Lookup;
    hide Remove;
    hide Collect;
    var h := m.header;
    if IsDhStep(v, h.dh) {
      SkipOutcome(v, h.pn);
      if h.pn <= v.nr + 1000 {
        SkipOutcome(DhStep(Skip(v, h.pn).value, h.dh, newKey), h.n);
      }
    } else {
      SkipOutcome(v, h.n);
    }
  }
}
