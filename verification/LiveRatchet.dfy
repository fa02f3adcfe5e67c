/**
 * The Double Ratchet as the code runs it: a state object whose keys are byte arrays, changed in
 * place on a deep clone, wiped with `fill(0)`, and committed only after authentication. Each
 * method is proved against its function in RatchetModel. `Unshared` says that no array is held twice,
 * so that wiping a key that was used wipes no other.
 */
module LiveRatchet {
  import opened Wrappers
  import opened Symbolic
  import opened RatchetModel

  /** A Uint8Array that holds a key. */
  class Bytes {
    var term: Term

    constructor (t: Term)
      ensures term == t
    {
      term := t;
    }

    method Fill0()
      modifies this
      ensures term == Zero
    {
      term := Zero;
    }
  }

  /** Where `generateKeyPair` takes key pairs from: no name is handed out twice. */
  class KeySource {
    var next: nat

    constructor (first: nat)
      ensures next == first
    {
      next := first;
    }

    method GenerateKeyPair() returns (pub: nat, secret: Bytes)
      modifies this
      ensures next == old(next) + 1 && pub == old(next)
      ensures fresh(secret) && secret.term == Private(pub)
    {
      pub := next;
      secret := new Bytes(Private(pub));
      next := next + 1;
    }
  }

  method KdfCk(ck: Bytes) returns (nextCk: Bytes, mk: Bytes)
    ensures fresh(nextCk) && fresh(mk) && nextCk != mk
    ensures nextCk.term == NextChainKey(ck.term) && mk.term == MessageKey(ck.term)
  {
    nextCk := new Bytes(NextChainKey(ck.term));
    mk := new Bytes(MessageKey(ck.term));
  }

  method KdfRk(rk: Bytes, dh: Bytes) returns (newRk: Bytes, newCk: Bytes)
    ensures fresh(newRk) && fresh(newCk) && newRk != newCk
    ensures newRk.term == RootKey(rk.term, dh.term) && newCk.term == ChainKey(rk.term, dh.term)
  {
    newRk := new Bytes(RootKey(rk.term, dh.term));
    newCk := new Bytes(ChainKey(rk.term, dh.term));
  }

  /** `dhRatchet` then `kdfRk`, with the DH output wiped in between. */
  method StepRoot(rk: Bytes, scalar: Bytes, pub: nat) returns (newRk: Bytes, newCk: Bytes)
    ensures fresh(newRk) && fresh(newCk) && newRk != newCk
    ensures newRk.term == RootKey(rk.term, Dh(scalar.term, pub))
    ensures newCk.term == ChainKey(rk.term, Dh(scalar.term, pub))
  {
    var dhOut := new Bytes(Dh(scalar.term, pub));
    newRk, newCk := KdfRk(rk, dhOut);
    dhOut.Fill0();
  }

  /** An entry of the live MKSKIPPED map. */
  datatype Slot = Slot(dh: nat, n: nat, key: Bytes)

  ghost function KeysOf(slots: seq<Slot>): set<Bytes> {
    set e | e in slots :: e.key
  }

  ghost function Entries(slots: seq<Slot>): (s: seq<Entry>)
    reads KeysOf(slots)
    ensures |s| == |slots|
  {
    if slots == [] then []
    else [Entry(slots[0].dh, slots[0].n, slots[0].key.term)] + Entries(slots[1..])
  }

  function Without(slots: seq<Slot>, dh: nat, n: nat): seq<Slot> {
    if slots == [] then []
    else if slots[0].dh == dh && slots[0].n == n then Without(slots[1..], dh, n)
    else [slots[0]] + Without(slots[1..], dh, n)
  }

  function With(slots: seq<Slot>, e: Slot): seq<Slot> {
    if slots == [] then [e]
    else if slots[0].dh == e.dh && slots[0].n == e.n then [e] + slots[1..]
    else [slots[0]] + With(slots[1..], e)
  }

  lemma {:induction false} WithoutEntries(slots: seq<Slot>, dh: nat, n: nat)
    ensures Entries(Without(slots, dh, n)) == Remove(Entries(slots), dh, n)
    ensures forall e :: e in Without(slots, dh, n) <==> e in slots && !(e.dh == dh && e.n == n)
  {
    if slots != [] {
      WithoutEntries(slots[1..], dh, n);
    }
  }

  lemma {:induction false} WithEntries(slots: seq<Slot>, e: Slot)
    ensures Entries(With(slots, e)) == Put(Entries(slots), Entry(e.dh, e.n, e.key.term))
    ensures forall x :: x in With(slots, e) ==> x in slots || x == e
  {
    if slots != [] && !(slots[0].dh == e.dh && slots[0].n == e.n) {
      WithEntries(slots[1..], e);
    }
  }

  function Find(slots: seq<Slot>, dh: nat, n: nat): (r: Option<Bytes>)
    ensures r.Some? ==> exists e :: e in slots && e.dh == dh && e.n == n && e.key == r.value
  {
    if slots == [] then None
    else if slots[0].dh == dh && slots[0].n == n then
      assert slots[0] in slots;
      Some(slots[0].key)
    else Find(slots[1..], dh, n)
  }

  lemma {:induction false} FindLooksUp(slots: seq<Slot>, dh: nat, n: nat)
    ensures Lookup(Entries(slots), dh, n)
         == match Find(slots, dh, n) case None => None case Some(b) => Some(b.term)
  {
    if slots != [] {
      FindLooksUp(slots[1..], dh, n);
    }
  }

  /** No two entries share an array. */
  ghost predicate OwnKeys(slots: seq<Slot>) {
    slots == [] || (slots[0].key !in KeysOf(slots[1..]) && OwnKeys(slots[1..]))
  }

  lemma {:induction false} WithoutOwn(slots: seq<Slot>, dh: nat, n: nat)
    requires OwnKeys(slots)
    ensures OwnKeys(Without(slots, dh, n)) && KeysOf(Without(slots, dh, n)) <= KeysOf(slots)
    ensures Find(slots, dh, n).Some? ==> Find(slots, dh, n).value !in KeysOf(Without(slots, dh, n))
  {
    WithoutEntries(slots, dh, n);
    if slots != [] {
      WithoutOwn(slots[1..], dh, n);
      if !(slots[0].dh == dh && slots[0].n == n) {
        assert Without(slots, dh, n)[1..] == Without(slots[1..], dh, n);
      }
      forall k | k in KeysOf(Without(slots, dh, n)) ensures k in KeysOf(slots) {
        var e :| e in Without(slots, dh, n) && e.key == k;
        assert e in slots;
      }
    }
  }

  lemma {:induction false} WithOwn(slots: seq<Slot>, e: Slot)
    requires OwnKeys(slots) && e.key !in KeysOf(slots)
    ensures OwnKeys(With(slots, e)) && KeysOf(With(slots, e)) <= KeysOf(slots) + {e.key}
  {
    WithEntries(slots, e);
    if slots != [] {
      if slots[0].dh == e.dh && slots[0].n == e.n {
        assert With(slots, e)[1..] == slots[1..];
      } else {
        WithOwn(slots[1..], e);
        assert With(slots, e)[1..] == With(slots[1..], e);
      }
    }
  }

  lemma {:induction false} Snoc(slots: seq<Slot>, e: Slot)
    ensures Entries(slots + [e]) == Entries(slots) + [Entry(e.dh, e.n, e.key.term)]
    ensures KeysOf(slots + [e]) == KeysOf(slots) + {e.key}
    ensures OwnKeys(slots) && e.key !in KeysOf(slots) ==> OwnKeys(slots + [e])
  {
    assert forall x :: x in slots + [e] <==> x in slots || x == e;
    if slots != [] {
      Snoc(slots[1..], e);
      assert (slots + [e])[1..] == slots[1..] + [e];
    }
  }

  function TermOf(b: Bytes?): Option<Term>
    reads if b == null then {} else {b}
  {
    if b == null then None else Some(b.term)
  }

  function SetOf(b: Bytes?): set<Bytes> {
    if b == null then {} else {b as Bytes}
  }

  method CopyOf(b: Bytes?) returns (copy: Bytes?)
    ensures fresh(SetOf(copy)) && TermOf(copy) == TermOf(b)
  {
    copy := null;
    if b != null {
      copy := new Bytes(b.term);
    }
  }

  lemma {:induction false} EntriesAt(slots: seq<Slot>, i: nat)
    requires i < |slots|
    ensures slots[i] in slots && Entries(slots)[i] == Entry(slots[i].dh, slots[i].n, slots[i].key.term)
  {
    if i > 0 {
      EntriesAt(slots[1..], i - 1);
    }
  }

  lemma NoEntries()
    ensures Entries([]) == []
  {
  }

  /** The loop of a clone over the skipped keys: each goes into the new map as a copied array. */
  method CopySlots(slots: seq<Slot>) returns (copy: seq<Slot>)
    ensures fresh(KeysOf(copy)) && OwnKeys(copy) && Entries(copy) == old(Entries(slots))
  {
    hide Entries;
    ghost var want := Entries(slots);
    copy := [];
    NoEntries();
    forall i | 0 <= i < |slots| ensures want[i] == Entry(slots[i].dh, slots[i].n, slots[i].key.term) {
      EntriesAt(slots, i);
    }
    for i := 0 to |slots|
      invariant forall k :: 0 <= k < |slots| ==> want[k] == Entry(slots[k].dh, slots[k].n, slots[k].key.term)
      invariant fresh(KeysOf(copy)) && OwnKeys(copy) && Entries(copy) == want[..i]
    {
      var key := new Bytes(slots[i].key.term);
      var slot := Slot(slots[i].dh, slots[i].n, key);
      Snoc(copy, slot);
      copy := copy + [slot];
    }
  }

  // ---- collecting whole epochs ----

  function WithoutEpoch(slots: seq<Slot>, dh: nat): seq<Slot> {
    if slots == [] then []
    else if slots[0].dh == dh then WithoutEpoch(slots[1..], dh)
    else [slots[0]] + WithoutEpoch(slots[1..], dh)
  }

  lemma {:induction false} WithoutEpochEntries(slots: seq<Slot>, dh: nat)
    ensures Entries(WithoutEpoch(slots, dh)) == DropEpoch(Entries(slots), dh)
    ensures forall e :: e in WithoutEpoch(slots, dh) <==> e in slots && e.dh != dh
  {
    if slots != [] {
      WithoutEpochEntries(slots[1..], dh);
    }
  }

  /** Removing one at a time the indices an epoch has in a snapshot removes the epoch. */
  function WithoutAll(slots: seq<Slot>, dh: nat, ns: seq<nat>): seq<Slot> {
    if ns == [] then slots else Without(WithoutAll(slots, dh, ns[..|ns| - 1]), dh, ns[|ns| - 1])
  }

  lemma {:induction false} WithoutAllCons(e: Slot, rest: seq<Slot>, dh: nat, ns: seq<nat>)
    ensures WithoutAll([e] + rest, dh, ns)
         == if e.dh == dh && e.n in ns then WithoutAll(rest, dh, ns) else [e] + WithoutAll(rest, dh, ns)
  {
    if ns == [] {
      assert WithoutAll(rest, dh, ns) == rest;
    } else {
      var before := ns[..|ns| - 1];
      WithoutAllCons(e, rest, dh, before);
      assert e.n in ns <==> e.n in before || e.n == ns[|ns| - 1];
      assert ([e] + WithoutAll(rest, dh, before))[1..] == WithoutAll(rest, dh, before);
    }
  }

  lemma {:induction false} WithoutAllNil(dh: nat, ns: seq<nat>)
    ensures WithoutAll([], dh, ns) == []
  {
    if ns != [] {
      WithoutAllNil(dh, ns[..|ns| - 1]);
    }
  }

  lemma {:induction false} WithoutAllIsWithoutEpoch(slots: seq<Slot>, dh: nat, ns: seq<nat>)
    requires forall e :: e in slots && e.dh == dh ==> e.n in ns
    ensures WithoutAll(slots, dh, ns) == WithoutEpoch(slots, dh)
  {
    if slots == [] {
      WithoutAllNil(dh, ns);
    } else {
      assert slots[0] in slots && slots == [slots[0]] + slots[1..];
      WithoutAllCons(slots[0], slots[1..], dh, ns);
      WithoutAllIsWithoutEpoch(slots[1..], dh, ns);
    }
  }

  function IndicesOf(slots: seq<Slot>, dh: nat): seq<nat> {
    if slots == [] then []
    else if slots[|slots| - 1].dh == dh then IndicesOf(slots[..|slots| - 1], dh) + [slots[|slots| - 1].n]
    else IndicesOf(slots[..|slots| - 1], dh)
  }

  lemma {:induction false} IndicesOfAll(slots: seq<Slot>, dh: nat)
    ensures forall e :: e in slots && e.dh == dh ==> e.n in IndicesOf(slots, dh)
  {
    if slots != [] {
      IndicesOfAll(slots[..|slots| - 1], dh);
      assert slots == slots[..|slots| - 1] + [slots[|slots| - 1]];
    }
  }

  /** The lists cover the entries: each is in the list of its epoch. */
  ghost predicate Listed(slots: seq<Slot>, epochs: map<nat, seq<nat>>) {
    forall e :: e in slots && e.dh in epochs ==> e.n in epochs[e.dh]
  }

  lemma GroupOneMore(slots: seq<Slot>, i: nat)
    requires i < |slots|
    ensures var order := EpochOrder(Entries(slots[..i]));
            EpochOrder(Entries(slots[..i + 1])) == if slots[i].dh in order then order else order + [slots[i].dh]
    ensures forall dh: nat :: IndicesOf(slots[..i + 1], dh)
              == IndicesOf(slots[..i], dh) + if slots[i].dh == dh then [slots[i].n] else []
  {
    assert slots[..i + 1][..i] == slots[..i] && slots[..i + 1] == slots[..i] + [slots[i]];
    Snoc(slots[..i], slots[i]);
    assert Entries(slots[..i + 1])[..i] == Entries(slots[..i]);
  }

  /** Groups the keys of the map by epoch, epochs in the order of their first key. */
  method GroupByEpoch(slots: seq<Slot>) returns (epochs: map<nat, seq<nat>>, order: seq<nat>)
    ensures order == EpochOrder(Entries(slots))
    ensures forall dh :: dh in epochs <==> dh in order
    ensures forall dh :: dh in epochs ==> epochs[dh] == IndicesOf(slots, dh)
  {
    epochs, order := map[], [];
    for i := 0 to |slots|
      invariant order == EpochOrder(Entries(slots[..i]))
      invariant forall dh :: dh in epochs <==> dh in order
      invariant forall dh: nat :: IndicesOf(slots[..i], dh) == if dh in epochs then epochs[dh] else []
    {
      var k := slots[i];
      GroupOneMore(slots, i);
      var list := if k.dh in epochs then epochs[k.dh] else [];
      if k.dh !in epochs {
        order := order + [k.dh];
      }
      epochs := epochs[k.dh := list + [k.n]];
    }
    assert slots[..|slots|] == slots;
  }

  class RatchetState {
    var DHsPublic: nat
    var DHsPrivate: Bytes
    var DHr: Option<nat>
    var RK: Bytes
    var CKs: Bytes?
    var CKr: Bytes?
    var Ns: nat
    var Nr: nat
    var PN: nat
    var MKSKIPPED: seq<Slot>

    ghost function Chains(): set<Bytes>
      reads this
    {
      {DHsPrivate, RK} + SetOf(CKs) + SetOf(CKr)
    }

    ghost function Buffers(): set<Bytes>
      reads this
    {
      Chains() + KeysOf(MKSKIPPED)
    }

    /** The value of the state: what its arrays hold. */
    ghost function View(): Ratchet
      reads this, Buffers()
    {
      Ratchet(DHsPublic, DHsPrivate.term, DHr, RK.term, TermOf(CKs), TermOf(CKr), Ns, Nr, PN, Entries(MKSKIPPED))
    }

    /** Wiping one stored key wipes nothing else. */
    ghost predicate Unshared()
      reads this
    {
      OwnKeys(MKSKIPPED) && KeysOf(MKSKIPPED) !! Chains()
    }

    constructor (dhsPublic: nat, dhsPrivate: Bytes, dhr: Option<nat>, rk: Bytes, cks: Bytes?, ckr: Bytes?,
                 ns: nat, nr: nat, pn: nat, skipped: seq<Slot>)
      ensures DHsPublic == dhsPublic && DHsPrivate == dhsPrivate && DHr == dhr && RK == rk
      ensures CKs == cks && CKr == ckr && Ns == ns && Nr == nr && PN == pn && MKSKIPPED == skipped
    {
      DHsPublic, DHsPrivate, DHr, RK := dhsPublic, dhsPrivate, dhr, rk;
      CKs, CKr, Ns, Nr, PN, MKSKIPPED := cks, ckr, ns, nr, pn, skipped;
    }

    /** The deep clone a decrypt works on: equal in value, no array in common. */
    method CloneRatchetState() returns (clone: RatchetState)
      ensures fresh(clone) && fresh(clone.Buffers()) && clone.Unshared()
      ensures clone.View() == old(View())
    {
      hide Entries;
      hide OwnKeys;
      var slots := CopySlots(MKSKIPPED);
      var dhs := new Bytes(DHsPrivate.term);
      var rk := new Bytes(RK.term);
      var cks := CopyOf(CKs);
      var ckr := CopyOf(CKr);
      clone := new RatchetState(DHsPublic, dhs, DHr, rk, cks, ckr, Ns, Nr, PN, slots);
    }

    method Assign(dhsPublic: nat, dhsPrivate: Bytes, dhr: Option<nat>, rk: Bytes, cks: Bytes?, ckr: Bytes?,
                  ns: nat, nr: nat, pn: nat, skipped: seq<Slot>)
      modifies this
      ensures DHsPublic == dhsPublic && DHsPrivate == dhsPrivate && DHr == dhr && RK == rk
      ensures CKs == cks && CKr == ckr && Ns == ns && Nr == nr && PN == pn && MKSKIPPED == skipped
    {
      DHsPublic, DHsPrivate, DHr, RK := dhsPublic, dhsPrivate, dhr, rk;
      CKs, CKr, Ns, Nr, PN, MKSKIPPED := cks, ckr, ns, nr, pn, skipped;
    }

    /** Overwrites the live state with copies of the candidate's arrays; no array is written to. */
    method CommitRatchetState(source: RatchetState)
      requires source != this
      modifies this
      ensures View() == old(source.View())
      ensures fresh(Buffers()) && Unshared()
    {
      var copy := source.CloneRatchetState();
      Assign(copy.DHsPublic, copy.DHsPrivate, copy.DHr, copy.RK, copy.CKs, copy.CKr, copy.Ns, copy.Nr, copy.PN,
             copy.MKSKIPPED);
    }

    /** `trySkippedMessageKey`: takes a stored key out of the map. */
    method TrySkippedMessageKey(h: Header) returns (mk: Bytes?)
      requires Unshared()
      modifies this`MKSKIPPED
      ensures TermOf(mk) == Lookup(old(View()).skipped, h.dh, h.n)
      ensures mk == null ==> MKSKIPPED == old(MKSKIPPED)
      ensures mk != null ==> View() == old(View()).(skipped := Remove(old(View()).skipped, h.dh, h.n))
      ensures Unshared() && Buffers() <= old(Buffers()) && (mk != null ==> mk in old(Buffers()) && mk !in Buffers())
    {
      FindLooksUp(MKSKIPPED, h.dh, h.n);
      var found := Find(MKSKIPPED, h.dh, h.n);
      mk := null;
      if found.Some? {
        mk := found.value;
        WithoutEntries(MKSKIPPED, h.dh, h.n);
        WithoutOwn(MKSKIPPED, h.dh, h.n);
        MKSKIPPED := Without(MKSKIPPED, h.dh, h.n);
      }
    }

    /** `skipMessageKeys`; `derived` counts the message keys it computes. */
    method SkipMessageKeys(until: nat) returns (err: Option<RatchetError>, ghost derived: nat)
      requires Unshared()
      modifies this`CKr, this`Nr, this`MKSKIPPED
      ensures err == match Skip(old(View()), until) case Success(_) => None case Failure(e) => Some(e)
      ensures err.None? ==> View() == Skip(old(View()), until).value
      ensures Unshared() && fresh(Buffers() - old(Buffers()))
      ensures derived <= MAX_SKIP
    {
      hide SkipOne;
      derived := 0;
      err := None;
      if Nr + MAX_SKIP < until {
        err := Some(TooManySkippedMessages);
        return;
      }
      if CKr == null {
        return;
      }
      while Nr < until
        invariant CKr != null && Unshared() && fresh(Buffers() - old(Buffers()))
        invariant SkipLoop(View(), until) == Skip(old(View()), until)
        invariant Nr >= old(Nr) && derived == Nr - old(Nr) && (Nr <= until || Nr == old(Nr))
        modifies this`CKr, this`Nr, this`MKSKIPPED
        decreases until - Nr
      {
        derived := derived + 1;
        if DHr.None? {
          err := Some(DhrNotSet);
          return;
        }
        SkipMessageKey();
      }
    }

    method SkipMessageKey()
      requires Unshared() && CKr != null && DHr.Some?
      modifies this`CKr, this`Nr, this`MKSKIPPED
      ensures CKr != null && Nr == old(Nr) + 1
      ensures View() == SkipOne(old(View()))
      ensures Unshared() && fresh(Buffers() - old(Buffers()))
    {
      hide Put;
      hide With;
      hide Entries;
      hide OwnKeys;
      var nextCk, mk := KdfCk(CKr);
      var slot := Slot(DHr.value, Nr, mk);
      WithEntries(MKSKIPPED, slot);
      WithOwn(MKSKIPPED, slot);
      CKr, MKSKIPPED, Nr := nextCk, With(MKSKIPPED, slot), Nr + 1;
    }

    /** Wipes and removes one entry, if it is there. */
    method EvictKey(dh: nat, n: nat)
      requires Unshared()
      modifies this`MKSKIPPED, KeysOf(MKSKIPPED)
      ensures MKSKIPPED == Without(old(MKSKIPPED), dh, n)
      ensures Unshared() && KeysOf(MKSKIPPED) <= old(KeysOf(MKSKIPPED)) && unchanged(KeysOf(MKSKIPPED))
    {
      WithoutOwn(MKSKIPPED, dh, n);
      var mk := Find(MKSKIPPED, dh, n);
      if mk.Some? {
        mk.value.Fill0();
      }
      MKSKIPPED := Without(MKSKIPPED, dh, n);
    }

    /** Wipes and removes the listed entries of one epoch. */
    method EvictEpoch(dh: nat, epochs: map<nat, seq<nat>>)
      requires Unshared() && dh in epochs && Listed(MKSKIPPED, epochs)
      modifies this`MKSKIPPED, KeysOf(MKSKIPPED)
      ensures Entries(MKSKIPPED) == DropEpoch(old(Entries(MKSKIPPED)), dh)
      ensures Unshared() && KeysOf(MKSKIPPED) <= old(KeysOf(MKSKIPPED)) && Listed(MKSKIPPED, epochs)
    {
      var ns := epochs[dh];
      WithoutEpochEntries(MKSKIPPED, dh);
      for j := 0 to |ns|
        invariant MKSKIPPED == WithoutAll(old(MKSKIPPED), dh, ns[..j])
        invariant Unshared() && KeysOf(MKSKIPPED) <= old(KeysOf(MKSKIPPED))
        invariant unchanged(KeysOf(MKSKIPPED))
      {
        EvictKey(dh, ns[j]);
        assert ns[..j + 1][..j] == ns[..j];
      }
      assert ns[..|ns|] == ns;
      WithoutAllIsWithoutEpoch(old(MKSKIPPED), dh, ns);
    }

    /** The collection of `dhRatchetStep`. */
    method EvictOldEpochs()
      requires Unshared()
      modifies this`MKSKIPPED, KeysOf(MKSKIPPED)
      ensures Entries(MKSKIPPED) == Collect(old(Entries(MKSKIPPED)))
      ensures Unshared() && KeysOf(MKSKIPPED) <= old(KeysOf(MKSKIPPED))
    {
      if |MKSKIPPED| > MAX_SKIP {
        var epochs, order := GroupByEpoch(MKSKIPPED);
        assert Listed(MKSKIPPED, epochs) by {
          forall e | e in MKSKIPPED && e.dh in epochs ensures e.n in epochs[e.dh] {
            IndicesOfAll(MKSKIPPED, e.dh);
          }
        }
        EvictInOrder(epochs, order);
      }
    }

    method EvictInOrder(epochs: map<nat, seq<nat>>, order: seq<nat>)
      requires Unshared() && Listed(MKSKIPPED, epochs) && forall dh :: dh in order ==> dh in epochs
      modifies this`MKSKIPPED, KeysOf(MKSKIPPED)
      ensures Entries(MKSKIPPED) == EvictUntilSmall(old(Entries(MKSKIPPED)), order)
      ensures Unshared() && KeysOf(MKSKIPPED) <= old(KeysOf(MKSKIPPED))
    {
      var rest := order;
      while rest != [] && |MKSKIPPED| > MAX_SKIP
        invariant Unshared() && KeysOf(MKSKIPPED) <= old(KeysOf(MKSKIPPED)) && Listed(MKSKIPPED, epochs)
        invariant forall dh :: dh in rest ==> dh in epochs
        invariant EvictUntilSmall(Entries(MKSKIPPED), rest) == EvictUntilSmall(old(Entries(MKSKIPPED)), order)
        decreases |rest|
      {
        EvictEpoch(rest[0], epochs);
        rest := rest[1..];
      }
    }

    /** `dhRatchetStep`, with the new key pair taken from `source`. */
    method DhRatchetStep(remote: nat, source: KeySource)
      requires Unshared()
      modifies this, KeysOf(MKSKIPPED), source
      ensures View() == DhStep(old(View()), remote, old(source.next)) && source.next == old(source.next) + 1
      ensures Unshared() && fresh(Buffers() - old(Buffers()))
    {
      BeginStep(remote);
      StepKeys(remote, source);
    }

    /** The counters, the remote key and the collection. */
    method BeginStep(remote: nat)
      requires Unshared()
      modifies this`PN, this`Ns, this`Nr, this`DHr, this`MKSKIPPED, KeysOf(MKSKIPPED)
      ensures var v := old(View());
              View() == v.(pn := v.ns, ns := 0, nr := 0, dhr := Some(remote), skipped := Collect(v.skipped))
      ensures Unshared() && Buffers() <= old(Buffers())
    {
      hide Collect;
      PN, Ns, Nr, DHr := Ns, 0, 0, Some(remote);
      EvictOldEpochs();
    }

    /** The two root steps of `dhRatchetStep`: receive with the old key pair, send with a new one. */
    method StepKeys(remote: nat, source: KeySource)
      requires Unshared()
      modifies this`RK, this`CKr, this`CKs, this`DHsPublic, this`DHsPrivate, source
      ensures source.next == old(source.next) + 1
      ensures var v := old(View()); var rk1 := RootKey(v.rk, Dh(v.dhsPrivate, remote));
              var dh2 := Dh(Private(old(source.next)), remote);
              View() == v.(dhs := old(source.next), dhsPrivate := Private(old(source.next)),
                           rk := RootKey(rk1, dh2), cks := Some(ChainKey(rk1, dh2)),
                           ckr := Some(ChainKey(v.rk, Dh(v.dhsPrivate, remote))))
      ensures fresh(Chains()) && Unshared()
    {
      hide Entries;
      hide OwnKeys;
      var rk1, ckr := StepRoot(RK, DHsPrivate, remote);
      var pub, secret := source.GenerateKeyPair();
      var rk2, cks := StepRoot(rk1, secret, remote);
      TakeKeys(pub, secret, rk2, ckr, cks);
    }

    method TakeKeys(pub: nat, secret: Bytes, rk: Bytes, ckr: Bytes, cks: Bytes)
      requires Unshared() && KeysOf(MKSKIPPED) !! {secret, rk, ckr, cks}
      modifies this`RK, this`CKr, this`CKs, this`DHsPublic, this`DHsPrivate
      ensures View() == old(View()).(dhs := pub, dhsPrivate := secret.term, rk := rk.term, cks := Some(cks.term),
                                     ckr := Some(ckr.term))
      ensures Chains() == {secret, rk, ckr, cks} && Unshared()
    {
      hide Entries;
      hide OwnKeys;
      DHsPublic, DHsPrivate, RK, CKr, CKs := pub, secret, rk, ckr, cks;
    }

    method RatchetEncrypt(plain: Plaintext, context: seq<nat>) returns (r: Result<Message, RatchetError>)
      modifies this`CKs, this`Ns
      ensures match Encrypt(old(View()), plain, context)
              case Success((v, m)) => r == Success(m) && View() == v
              case Failure(e) => r == Failure(e) && unchanged(this)
    {
      if CKs == null {
        return Failure(SendingChainNotInitialised);
      }
      var nextCk, mk := KdfCk(CKs);
      CKs := nextCk;
      var header := Header(DHsPublic, PN, Ns);
      Ns := Ns + 1;
      var ciphertext := Sealed(mk.term, plain, HeaderBytes(context, header));
      mk.Fill0();
      assert unchanged(KeysOf(MKSKIPPED));
      r := Success(Message(header, ciphertext));
    }

    /** The skips and the DH step of a decrypt. */
    method ReachMessage(h: Header, source: KeySource) returns (err: Option<RatchetError>, ghost derived: nat)
      requires Unshared()
      modifies this, Buffers(), source
      ensures err == match Reach(old(View()), h, old(source.next)) case Success(_) => None case Failure(e) => Some(e)
      ensures err.None? ==> View() == Reach(old(View()), h, old(source.next)).value
      ensures derived <= 2 * MAX_SKIP && source.next <= old(source.next) + 1
    {
      if DHr == Some(h.dh) {
        err, derived := SkipMessageKeys(h.n);
      } else {
        err, derived := SkipMessageKeys(h.pn);
        if err.None? {
          DhRatchetStep(h.dh, source);
          ghost var more;
          err, more := SkipMessageKeys(h.n);
          derived := derived + more;
        }
      }
    }

    /** Moves a candidate up to a message whose key is not stored, and opens the message. */
    method OpenNext(m: Message, context: seq<nat>, source: KeySource)
      returns (r: Result<Plaintext, RatchetError>, ghost derived: nat)
      requires Unshared()
      modifies this, Buffers(), source
      ensures match DecryptAdvance(old(View()), m, context, old(source.next))
              case Success((v, plain)) => r == Success(plain) && View() == v
              case Failure(e) => r == Failure(e)
      ensures derived <= 2 * MAX_SKIP + 1 && source.next <= old(source.next) + 1
    {
      hide Entries;
      hide OwnKeys;
      hide Reach;
      hide Open;
      var err;
      err, derived := ReachMessage(m.header, source);
      if err.Some? {
        return Failure(err.value), derived;
      }
      if CKr == null {
        return Failure(ReceivingChainNotInitialised), derived;
      }
      derived := derived + 1;
      r := OpenHere(m, context);
    }

    /** Opens a message with the next key of the receiving chain, and steps the chain. */
    method OpenHere(m: Message, context: seq<nat>) returns (r: Result<Plaintext, RatchetError>)
      requires CKr != null
      modifies this`CKr, this`Nr
      ensures var v := old(View());
              View() == v.(ckr := Some(NextChainKey(v.ckr.value)), nr := v.nr + 1)
              && r == match Open(MessageKey(v.ckr.value), m.ciphertext, HeaderBytes(context, m.header))
                      case Some(plain) => Success(plain)
                      case None => Failure(AuthenticationFailed)
    {
      var nextCk, msgKey := KdfCk(CKr);
      CKr, Nr := nextCk, Nr + 1;
      var plain := Open(msgKey.term, m.ciphertext, HeaderBytes(context, m.header));
      msgKey.Fill0();
      assert unchanged(KeysOf(MKSKIPPED));
      r := if plain.Some? then Success(plain.value) else Failure(AuthenticationFailed);
    }

    /** Opens a message on this candidate, with a stored key (returned, for wiping) or the next one. */
    method OpenOnCandidate(m: Message, context: seq<nat>, source: KeySource)
      returns (r: Result<Plaintext, RatchetError>, mk: Bytes?, ghost derived: nat)
      requires Unshared()
      modifies this, Buffers(), source
      ensures match Decrypt(old(View()), m, context, old(source.next))
              case Success((v, plain)) => r == Success(plain) && View() == v
              case Failure(e) => r == Failure(e)
      ensures mk != null ==> mk in old(Buffers()) && mk !in Buffers()
      ensures derived <= 2 * MAX_SKIP + 1 && source.next <= old(source.next) + 1
    {
      mk := TrySkippedMessageKey(m.header);
      if mk != null {
        var plain := Open(mk.term, m.ciphertext, HeaderBytes(context, m.header));
        r := if plain.Some? then Success(plain.value) else Failure(AuthenticationFailed);
        derived := 0;
      } else {
        r, derived := OpenNext(m, context, source);
      }
    }

    /** Opens a message on a clone; this state and its arrays stay as they are. */
    method OpenOnClone(m: Message, context: seq<nat>, source: KeySource)
      returns (r: Result<Plaintext, RatchetError>, candidate: RatchetState, mk: Bytes?, ghost derived: nat)
      modifies source
      ensures fresh(candidate) && (mk != null ==> fresh(mk))
      ensures match Decrypt(old(View()), m, context, old(source.next))
              case Success((v, plain)) => r == Success(plain) && candidate.View() == v
              case Failure(e) => r == Failure(e)
      ensures View() == old(View())
      ensures derived <= 2 * MAX_SKIP + 1 && source.next <= old(source.next) + 1
    {
      candidate := CloneRatchetState();
      r, mk, derived := candidate.OpenOnCandidate(m, context, source);
      assert unchanged(KeysOf(MKSKIPPED));
    }

    /**
     * `ratchetDecrypt`. It works on a clone and may write the fields of this object only when it
     * commits: on failure nothing of the state has changed, and since no array that existed before
     * is in the frame, none is written to in either case. `derived` counts message keys computed.
     */
    method RatchetDecrypt(m: Message, context: seq<nat>, source: KeySource)
      returns (r: Result<Plaintext, RatchetError>, ghost derived: nat)
      modifies this, source
      ensures match Decrypt(old(View()), m, context, old(source.next))
              case Success((v, plain)) => r == Success(plain) && View() == v
              case Failure(e) => r == Failure(e) && unchanged(this) && View() == old(View())
      ensures r.Success? ==> fresh(Buffers())
      ensures derived <= 2 * MAX_SKIP + 1 && source.next <= old(source.next) + 1
    {
      var candidate, mk;
      r, candidate, mk, derived := OpenOnClone(m, context, source);
      if r.Success? {
        CommitRatchetState(candidate);
      }
      Wipe(mk);
    }

    /** `mk.fill(0)` of an array that is not, or no longer, part of this state. */
    method Wipe(mk: Bytes?)
      requires mk !in Buffers()
      modifies SetOf(mk)
      ensures View() == old(View())
    {
      if mk != null {
        mk.Fill0();
      }
    }
  }

  /** `initSender`: ratchets once against the recipient's public key. */
  method CreateSender(sharedSecret: Bytes, recipient: nat, source: KeySource) returns (state: RatchetState)
    modifies source
    ensures fresh(state) && source.next == old(source.next) + 1
    ensures state.View() == InitSender(sharedSecret.term, recipient, old(source.next))
  {
    var pub, secret := source.GenerateKeyPair();
    var newRk, newCk := StepRoot(sharedSecret, secret, recipient);
    state := new RatchetState(pub, secret, Some(recipient), newRk, newCk, null, 0, 0, 0, []);
  }

  /** `initReceiver`: the root key is a copy, the key pair is the caller's own. */
  method CreateReceiver(sharedSecret: Bytes, pub: nat, secret: Bytes) returns (state: RatchetState)
    ensures fresh(state) && fresh(state.Buffers() - {secret})
    ensures state.View() == InitReceiver(sharedSecret.term, pub, secret.term)
  {
    var rootKey := new Bytes(sharedSecret.term);
    state := new RatchetState(pub, secret, None, rootKey, null, null, 0, 0, 0, []);
  }
}
