/** Session establishment, the ratchet over the real primitives, and the end-to-end theorem between two peers. */
module SecureSession {
  import opened Bytes
  import opened Primitives
  import opened Envelope
  import Padding
  import opened Ratchet
  import opened RatchetRuns

  datatype Config = Config(buckets: seq<nat>, maxSkipped: nat)
  {
    ghost predicate Valid() { Padding.ValidBuckets(buckets) }
  }

  // ---- locking one packet --------------------------------------------------

  function DeriveStep(c: Suite, chain: Octets): (r: Link<Octets>)
    requires Lawful(c)
    ensures |r.next| == 32 && |r.message| == 32
  {
    var material := c.hkdf(chain, ZERO_32, Ascii("onlytwo-v2-chain-step"), 64);
    Link(material[..32], material[32..])
  }

  function Lock(c: Suite, cfg: Config, key: Octets, n: nat, req: Request): (r: Option<Packet>)
  {
    match EncodeAad(req.ctx, n, req.nonce)
    case Err(_) => None
    case Ok(aad) =>
      match Padding.Pad(cfg.buckets, req.data, req.noise)
      case None => None
      case Some(padded) => Some(Packet(req.ctx, n, req.nonce, c.seal(key, req.nonce, aad, padded)))
  }

  function Unlock(c: Suite, cfg: Config, key: Octets, p: Packet): (o: Outcome)
  {
    match EncodeAad(p.ctx, p.counter, p.nonce)
    case Err(_) => Rejected(NonceLength)
    case Ok(aad) =>
      match c.unseal(key, p.nonce, aad, p.text)
      case None => Rejected(BadTag)
      case Some(padded) =>
        match Padding.Parse(cfg.buckets, padded)
        case Some(plain) => Accepted(plain)
        case None => Rejected(BadPadding)
  }

  function EngineOf(c: Suite, cfg: Config): (e: Engine<Octets>)
    requires Lawful(c)
  {
    Engine(Ladder((k: Octets) => DeriveStep(c, k), cfg.maxSkipped),
           (k: Octets, n: nat, req: Request) => Lock(c, cfg, k, n, req),
           (k: Octets, p: Packet) => Unlock(c, cfg, k, p))
  }

  /** A packet locked under a key unlocks under that key to the data it was locked from. */
  lemma UnlockInvertsLock(c: Suite, cfg: Config, key: Octets, n: nat, req: Request)
    requires Lawful(c) && cfg.Valid() && Lock(c, cfg, key, n, req).Some?
    ensures var p := Lock(c, cfg, key, n, req).value;
            p.counter == n && |p.nonce| == NONCE_BYTES && Unlock(c, cfg, key, p) == Accepted(req.data)
  {
    Padding.ParseInvertsPad(cfg.buckets, req.data, req.noise);
  }

  /** Over the real primitives: a payload is refused exactly when no bucket holds it, given a nonce of the right length. */
  lemma PayloadRefusedIff(c: Suite, cfg: Config, st: State<Octets>, req: Request)
    requires Lawful(c) && cfg.Valid()
    ensures RefusesPayload(EngineOf(c, cfg), st, req) <==>
      |req.nonce| != NONCE_BYTES || forall b :: b in cfg.buckets ==> b < |req.data| + 4
  {
    Padding.ParseInvertsPad(cfg.buckets, req.data, req.noise);
  }

  /** And a packet ahead fails exactly when the cipher does not open its text under the key of its counter. */
  lemma FailsAheadIff(c: Suite, cfg: Config, root: Octets, st: State<Octets>, p: Packet)
    requires Lawful(c) && Invariant(EngineOf(c, cfg).ladder, root, st)
    ensures FailsAhead(EngineOf(c, cfg), st, p) <==>
      && |p.nonce| == NONCE_BYTES && st.highest < p.counter <= st.highest + cfg.maxSkipped + 1
      && Lookup(st.skipped, p.counter).None?
      && c.unseal(KeyAt(EngineOf(c, cfg).ladder, root, p.counter), p.nonce, Prefix(p.ctx, p.counter, p.nonce), p.text) == None
  {
    if p.counter > st.highest {
      ChainComposes(EngineOf(c, cfg).ladder, root, st.highest, p.counter - 1 - st.highest);
    }
  }

  // ---- the sender's packets are authentic ----------------------------------

  lemma {:induction false} SenderChain(e: Engine<Octets>, st: State<Octets>, root: Octets, reqs: seq<Request>)
    requires st.send == root && st.outbound == 0
    ensures var r := EncryptAll(e, st, reqs).0; r.send == ChainAt(e.ladder, root, |reqs|) && r.outbound == |reqs|
  {
    if |reqs| != 0 {
      SenderChain(e, st, root, reqs[..|reqs| - 1]);
    }
  }

  lemma {:induction false} PacketAt(e: Engine<Octets>, st: State<Octets>, root: Octets, reqs: seq<Request>, i: nat)
    requires st.send == root && st.outbound == 0 && i < |reqs|
    ensures EncryptAll(e, st, reqs).1[i] == e.lock(KeyAt(e.ladder, root, i + 1), i + 1, reqs[i])
  {
    var k := |reqs| - 1;
    if i < k {
      PacketAt(e, st, root, reqs[..k], i);
    } else {
      SenderChain(e, st, root, reqs[..k]);
    }
  }

  /** The plaintext of each counter a sender has used. */
  ghost function Texts(reqs: seq<Request>): (m: map<nat, Octets>)
  {
    if |reqs| == 0 then map[] else Texts(reqs[..|reqs| - 1])[|reqs| := reqs[|reqs| - 1].data]
  }

  lemma {:induction false} TextAt(reqs: seq<Request>, i: nat)
    requires i < |reqs|
    ensures i + 1 in Texts(reqs) && Texts(reqs)[i + 1] == reqs[i].data
  {
    if i < |reqs| - 1 {
      TextAt(reqs[..|reqs| - 1], i);
    }
  }

  lemma SentIsAuthentic(c: Suite, cfg: Config, st: State<Octets>, root: Octets, reqs: seq<Request>, i: nat)
    requires Lawful(c) && cfg.Valid() && st.send == root && st.outbound == 0 && i < |reqs|
    requires EncryptAll(EngineOf(c, cfg), st, reqs).1[i].Some?
    ensures var p := EncryptAll(EngineOf(c, cfg), st, reqs).1[i].value;
            p.counter == i + 1 && Authentic(EngineOf(c, cfg), root, p, reqs[i].data)
  {
    var e := EngineOf(c, cfg);
    PacketAt(e, st, root, reqs, i);
    UnlockInvertsLock(c, cfg, KeyAt(e.ladder, root, i + 1), i + 1, reqs[i]);
  }

  // ---- establishing the two chains -----------------------------------------

  datatype Refusal = BadPeerKey | IdenticalKey
  datatype Established = Chains(send: Octets, recv: Octets) | Refused(why: Refusal)

  function RootKey(c: Suite, shared: Octets, profileHash: string): (k: Octets)
  {
    c.hkdf(shared, c.digest(Ascii("onlytwo-v2:" + profileHash)), Ascii("onlytwo-v2-root"), 32)
  }

  /** The chain named after the sending side of the lower identity, or the other one. */
  function ChainKey(c: Suite, root: Octets, lowSends: bool): (k: Octets)
  {
    c.hkdf(root, ZERO_32, Ascii(if lowSends then "onlytwo-v2-chain-send" else "onlytwo-v2-chain-recv"), 32)
  }

  function Establish(c: Suite, secret: Octets, peer: Octets, profileHash: string): (r: Established)
  {
    var local := c.publicOf(secret);
    if |peer| != 32 then Refused(BadPeerKey)
    else if Compare(local, peer) == 0 then Refused(IdenticalKey)
    else
      var root, low := RootKey(c, c.agree(secret, peer), profileHash), Compare(local, peer) < 0;
      Chains(ChainKey(c, root, low), ChainKey(c, root, !low))
  }

  /** Two peers refuse each other exactly when their identities coincide; otherwise their chains cross over. */
  lemma ChainsCross(c: Suite, a: Octets, b: Octets, profileHash: string)
    requires Lawful(c)
    ensures var x, y := Establish(c, a, c.publicOf(b), profileHash), Establish(c, b, c.publicOf(a), profileHash);
      && (x.Refused? <==> c.publicOf(a) == c.publicOf(b))
      && (y.Refused? <==> c.publicOf(a) == c.publicOf(b))
      && (x.Chains? ==> x.send == y.recv && x.recv == y.send)
  {
    CompareIsAntisymmetric(c.publicOf(a), c.publicOf(b));
    assert c.agree(a, c.publicOf(b)) == c.agree(b, c.publicOf(a));
  }

  // ---- the end-to-end theorem ----------------------------------------------

  /** The packets a network hands over: any selection of sent packets, in any order, with losses and repeats. */
  ghost predicate DeliveredFrom(ps: seq<Packet>, sent: seq<Option<Packet>>)
  {
    forall j :: 0 <= j < |ps| ==> exists i :: 0 <= i < |sent| && sent[i] == Some(ps[j])
  }

  lemma DeliveredIsAuthentic(c: Suite, cfg: Config, st: State<Octets>, root: Octets, reqs: seq<Request>, ps: seq<Packet>)
    requires Lawful(c) && cfg.Valid() && st.send == root && st.outbound == 0
    requires DeliveredFrom(ps, EncryptAll(EngineOf(c, cfg), st, reqs).1)
    ensures AllAuthentic(EngineOf(c, cfg), root, ps, Texts(reqs))
  {
    var sent := EncryptAll(EngineOf(c, cfg), st, reqs).1;
    forall j | 0 <= j < |ps|
      ensures ps[j].counter in Texts(reqs) && Authentic(EngineOf(c, cfg), root, ps[j], Texts(reqs)[ps[j].counter])
    {
      var i :| 0 <= i < |sent| && sent[i] == Some(ps[j]);
      SentIsAuthentic(c, cfg, st, root, reqs, i);
      TextAt(reqs, i);
    }
  }

  /**
    * Two peers with distinct identities and the same profile: whatever one encrypts, and however the network
    * delays, reorders, drops or repeats the packets, the other accepts each counter at most once, with the text it
    * was encrypted from; and if the outstanding counters always fit the skipped-key cache, it accepts every counter
    * on first delivery.
    */
  lemma EndToEnd(c: Suite, cfg: Config, a: Octets, b: Octets, profileHash: string, reqs: seq<Request>, ps: seq<Packet>)
    requires Lawful(c) && cfg.Valid() && c.publicOf(a) != c.publicOf(b)
    requires var x := Establish(c, a, c.publicOf(b), profileHash);
             x.Chains? && DeliveredFrom(ps, EncryptAll(EngineOf(c, cfg), Fresh(x.send, x.recv), reqs).1)
    ensures var y := Establish(c, b, c.publicOf(a), profileHash);
      && y.Chains?
      && var os := DecryptAll(EngineOf(c, cfg), Fresh(y.send, y.recv), ps).1;
         && (forall j :: 0 <= j < |ps| && os[j].Accepted? ==>
               ps[j].counter in Texts(reqs) && os[j].plain == Texts(reqs)[ps[j].counter])
         && (forall j, k :: 0 <= j < k < |ps| && os[j].Accepted? && os[k].Accepted? ==> ps[j].counter != ps[k].counter)
         && (WithinWindow(ps, cfg.maxSkipped) ==>
               forall j :: 0 <= j < |ps| ==> (os[j].Accepted? <==> ps[j].counter !in Delivered(ps[..j])))
  {
    var e := EngineOf(c, cfg);
    var x, y := Establish(c, a, c.publicOf(b), profileHash), Establish(c, b, c.publicOf(a), profileHash);
    ChainsCross(c, a, b, profileHash);
    DeliveredIsAuthentic(c, cfg, Fresh(x.send, x.recv), x.send, reqs, ps);
    AcceptedOnceWithOriginalText(e, y.recv, y.send, ps, Texts(reqs));
    if WithinWindow(ps, cfg.maxSkipped) {
      forall j | 0 <= j < |ps|
        ensures DecryptAll(e, Fresh(y.send, y.recv), ps).1[j].Accepted? <==> ps[j].counter !in Delivered(ps[..j])
      {
        NoLossWithinWindow(e, y.recv, y.send, ps, Texts(reqs), j);
      }
    }
  }
}
