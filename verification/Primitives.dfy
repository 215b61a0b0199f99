/** The foreign cryptographic calls, as function values bound only by the laws the protocol relies on. */
module Primitives {
  import opened Bytes

  const ZERO_32: Octets := seq(32, _ => 0)
  type Key = k: Octets | |k| == 32 witness seq(32, _ => 0)

  /**
    * HKDF, SHA-256, X25519 and AES-GCM. Nothing is known about them beyond `Lawful`: output lengths,
    * commuting key agreement (section 6.1 of RFC 7748), and that opening undoes sealing under the same
    * key, nonce and associated data.
    */
  datatype Suite = Suite(
    hkdf: (Octets, Octets, Octets, nat) -> Octets,
    digest: Octets -> Octets,
    publicOf: Octets -> Octets,
    agree: (Octets, Octets) -> Octets,
    seal: (Octets, Octets, Octets, Octets) -> Octets,
    unseal: (Octets, Octets, Octets, Octets) -> Option<Octets>)

  ghost predicate Lawful(c: Suite)
  {
    && (forall ikm, salt, info, n :: |c.hkdf(ikm, salt, info, n)| == n)
    && (forall p :: |c.publicOf(p)| == 32)
    && (forall p, q :: c.agree(p, c.publicOf(q)) == c.agree(q, c.publicOf(p)))
    && (forall k, n, a, p :: c.unseal(k, n, a, c.seal(k, n, a, p)) == Some(p))
  }

  function Sealed(p: Octets): (x: Octets) { [1] + p }

  function Unsealed(x: Octets): (p: Option<Octets>) { if |x| > 0 && x[0] == 1 then Some(x[1..]) else None }

  lemma UnsealedSealed(p: Octets)
    ensures Unsealed(Sealed(p)) == Some(p)
  {
    assert ([1] + p)[1..] == p;
  }

  /** The laws are consistent: some suite obeys them and still rejects some ciphertexts. */
  lemma LawsAreSatisfiable()
    ensures exists c: Suite, k: Octets, n: Octets, a: Octets, x: Octets :: Lawful(c) && c.unseal(k, n, a, x) == None
  {
    var c := Suite(
      (ikm: Octets, salt: Octets, info: Octets, n: nat) => seq(n, _ => 0),
      (m: Octets) => [],
      (p: Octets) => ZERO_32,
      (p: Octets, q: Octets) => [],
      (k: Octets, n: Octets, a: Octets, p: Octets) => Sealed(p),
      (k: Octets, n: Octets, a: Octets, x: Octets) => Unsealed(x));
    forall k: Octets, n: Octets, a: Octets, p: Octets
      ensures c.unseal(k, n, a, c.seal(k, n, a, p)) == Some(p)
    {
      UnsealedSealed(p);
    }
    assert Lawful(c);
    assert c.unseal([], [], [], []) == None;
  }

  function Ascii(s: string): (b: Octets)
  {
    seq(|s|, i requires 0 <= i < |s| => s[i] as int % 256)
  }
}
