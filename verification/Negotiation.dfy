/** The verification phrase: what two peers must share for their phrases to agree. */
module Negotiation {
  import opened Bytes
  import opened Primitives

  /** Everything that is hashed into the phrase, in the order it is serialised. */
  datatype Material = Material(
    appVersion: string, peerAppVersion: string, featureFlags: seq<string>, peerFeatureFlags: seq<string>,
    protocolVersion: nat, profileHash: string, sessionCodeHash: Octets, identityA: Octets, identityB: Octets)

  datatype Peer = Peer(publicKey: Octets, appVersion: string, featureFlags: seq<string>, protocolVersion: nat, profileHash: string)

  /** Lexicographic order on strings by code unit, as Array.prototype.sort and the < operator use it. */
  predicate StringLess(a: string, b: string)
  {
    |b| != 0 && (|a| == 0 || a[0] < b[0] || (a[0] == b[0] && StringLess(a[1..], b[1..])))
  }

  function InsertFlag(f: string, fs: seq<string>): (r: seq<string>)
  {
    if |fs| == 0 || !StringLess(fs[0], f) then [f] + fs else [fs[0]] + InsertFlag(f, fs[1..])
  }

  function SortFlags(fs: seq<string>): (r: seq<string>)
  {
    if |fs| == 0 then [] else InsertFlag(fs[0], SortFlags(fs[1..]))
  }

  /** The hex forms compare as the bytes do, so the lower key comes first on both sides. */
  function IdentityPair(local: Octets, peer: Octets): (r: (Octets, Octets))
  {
    if Compare(local, peer) < 0 then (local, peer) else (peer, local)
  }

  function PhraseMaterial(c: Suite, local: Peer, remote: Peer, sessionCode: Octets): (m: Material)
  {
    var (a, b) := IdentityPair(local.publicKey, remote.publicKey);
    var digest := c.digest(sessionCode);
    Material(local.appVersion, remote.appVersion, local.featureFlags, SortFlags(remote.featureFlags),
             local.protocolVersion, local.profileHash,
             if |digest| >= 16 then digest[..16] else digest, a, b)
  }

  lemma IdentityPairIsSymmetric(a: Octets, b: Octets)
    ensures IdentityPair(a, b) == IdentityPair(b, a)
  {
    CompareIsAntisymmetric(a, b);
  }

  /**
    * In one room, both peers hash the same material exactly when they agree on version, feature flags in order,
    * protocol version and profile hash; the keys never get in the way because they are put in order first.
    */
  lemma SamePhraseMaterialIff(c: Suite, x: Peer, y: Peer, sessionCode: Octets)
    ensures PhraseMaterial(c, x, y, sessionCode) == PhraseMaterial(c, y, x, sessionCode)
       <==> x.appVersion == y.appVersion && x.featureFlags == y.featureFlags
            && x.protocolVersion == y.protocolVersion && x.profileHash == y.profileHash
  {
    IdentityPairIsSymmetric(x.publicKey, y.publicKey);
  }

  /** The phrase: eight words picked by the low six bits of the first bytes of the hash; `json` serialises the material. */
  function PhraseWords(c: Suite, json: Material -> Octets, m: Material): (words: seq<nat>)
  {
    var d := c.digest(json(m));
    seq(if |d| < 8 then |d| else 8, i requires 0 <= i < |d| => d[i] % 64)
  }

  /** Peers that agree on version, flags, protocol and profile see the same phrase, whichever of them is local. */
  lemma SamePhrase(c: Suite, json: Material -> Octets, x: Peer, y: Peer, sessionCode: Octets)
    requires x.appVersion == y.appVersion && x.featureFlags == y.featureFlags
    requires x.protocolVersion == y.protocolVersion && x.profileHash == y.profileHash
    ensures PhraseWords(c, json, PhraseMaterial(c, x, y, sessionCode)) == PhraseWords(c, json, PhraseMaterial(c, y, x, sessionCode))
  {
    SamePhraseMaterialIff(c, x, y, sessionCode);
  }
}
