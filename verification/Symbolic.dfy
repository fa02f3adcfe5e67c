/**
 * The cryptography the messenger calls, as terms. Every primitive is a free, injective
 * constructor, so two derivations agree exactly when they are the same derivation; the one
 * equation is that Diffie-Hellman is symmetric. A public key is the name of its private half.
 */
module Symbolic {
  import opened Wrappers

  datatype Term =
    | Zero                                // what `fill(0)` leaves behind
    | Private(id: nat)
    | Random(id: nat)
    | Shared(lo: nat, hi: nat)            // X25519 of two key pairs, in either order
    | BadShared(scalar: Term, pub: nat)   // X25519 with bytes that are no private key
    | Agreed(parts: seq<Term>)            // the X3DH HKDF over its DH outputs
    | RootKey(rk: Term, dh: Term)
    | ChainKey(rk: Term, dh: Term)
    | NextChainKey(ck: Term)
    | MessageKey(ck: Term)

  type Plaintext = string

  /** The associated data of an AEAD call; every field holds what its bytes can tell apart. */
  datatype AssocData =
    | EmptyAd
    | HeaderAd(context: seq<nat>, dh: nat, pn: nat, n: nat)
    | GroupAd(distribution: string, chainId: nat, messageId: nat)

  datatype Ciphertext =
    | Sealed(key: Term, plain: Plaintext, ad: AssocData)
    | Garbage(tag: nat)

  const TWO_32: nat := 0x1_0000_0000

  function SharedOf(a: nat, b: nat): Term {
    if a <= b then Shared(a, b) else Shared(b, a)
  }

  function Dh(scalar: Term, pub: nat): Term {
    if scalar.Private? then SharedOf(scalar.id, pub) else BadShared(scalar, pub)
  }

  function Open(key: Term, c: Ciphertext, ad: AssocData): Option<Plaintext> {
    if c.Sealed? && c.key == key && c.ad == ad then Some(c.plain) else None
  }

  /** The chain key `steps` HMAC steps after `ck`. */
  function Advance(ck: Term, steps: nat): Term {
    if steps == 0 then ck else NextChainKey(Advance(ck, steps - 1))
  }

  /** How many root-key steps lie under a root key. */
  function RootDepth(t: Term): nat {
    match t
    case RootKey(rk, _) => 1 + RootDepth(rk)
    case _ => 0
  }

  /** Whether a key was derived, in any number of ratchet steps, from `secret`. */
  predicate RootedIn(t: Term, secret: Term) {
    t == secret ||
    match t
    case RootKey(rk, _) => RootedIn(rk, secret)
    case ChainKey(rk, _) => RootedIn(rk, secret)
    case NextChainKey(ck) => RootedIn(ck, secret)
    case MessageKey(ck) => RootedIn(ck, secret)
    case _ => false
  }

  /** One derivation yields one key: a chain position is readable from the key it gives. */
  lemma {:induction false} AdvanceInjective(a: Term, i: nat, b: Term, j: nat)
    requires !a.NextChainKey? && !b.NextChainKey?
    ensures Advance(a, i) == Advance(b, j) <==> a == b && i == j
  {
    if i > 0 && j > 0 {
      AdvanceInjective(a, i - 1, b, j - 1);
    }
  }

  lemma {:induction false} AdvanceStep(ck: Term, steps: nat)
    ensures Advance(NextChainKey(ck), steps) == Advance(ck, steps + 1)
  {
    if steps > 0 {
      AdvanceStep(ck, steps - 1);
    }
  }

  lemma {:induction false} AdvanceAdd(ck: Term, a: nat, b: nat)
    ensures Advance(Advance(ck, a), b) == Advance(ck, a + b)
  {
    if b > 0 {
      AdvanceAdd(ck, a, b - 1);
    }
  }

  lemma {:induction false} AdvanceRooted(ck: Term, steps: nat, secret: Term)
    requires RootedIn(ck, secret)
    ensures RootedIn(Advance(ck, steps), secret)
  {
    if steps > 0 {
      AdvanceRooted(ck, steps - 1, secret);
    }
  }

  lemma SharedInjective(a: nat, b: nat, c: nat)
    ensures SharedOf(a, b) == SharedOf(b, a)
    ensures SharedOf(a, b) == SharedOf(a, c) <==> b == c
  {
  }
}
