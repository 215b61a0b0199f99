/** The message-key ratchet: one chain per direction, counters, and a bounded cache of skipped keys. */
module Ratchet {
  import opened Bytes
  import opened Envelope

  datatype Request = Request(data: Octets, ctx: Context, nonce: Octets, noise: Octets)
  datatype Packet = Packet(ctx: Context, counter: nat, nonce: Octets, text: Octets)

  datatype Reason = NonceLength | TooFarAhead | Replay | BadTag | BadPadding
  datatype Outcome = Accepted(plain: Octets) | Rejected(why: Reason)

  datatype Link<+K> = Link(next: K, message: K)

  /** One HKDF step of a chain key into the next chain key and a message key, and the bound on skipped keys. */
  datatype Ladder<!K> = Ladder(derive: K -> Link<K>, maxSkipped: nat)

  /**
    * What the ratchet needs of the key type: the chain step, and locking and unlocking one packet.
    * Module SecureSession builds it from HKDF, AES-GCM, padding and associated data.
    */
  datatype Engine<!K> = Engine(
    ladder: Ladder<K>,
    lock: (K, nat, Request) -> Option<Packet>,
    unlock: (K, Packet) -> Outcome)

  /** The skipped keys from newest to oldest insertion; at most one entry per counter. */
  datatype Cache<K> = Nil | Entry(counter: nat, key: K, older: Cache<K>)
  datatype State<K> = State(send: K, recv: K, outbound: nat, highest: nat, skipped: Cache<K>)

  // ---- chains --------------------------------------------------------------

  /** The chain key after n steps from the root. */
  function ChainAt<K>(l: Ladder<K>, root: K, n: nat): (k: K)
  {
    if n == 0 then root else l.derive(ChainAt(l, root, n - 1)).next
  }

  /** The message key of the n-th message of a chain. */
  function KeyAt<K>(l: Ladder<K>, root: K, n: nat): (k: K)
    requires n >= 1
  {
    l.derive(ChainAt(l, root, n - 1)).message
  }

  // ---- the skipped-key cache -----------------------------------------------

  function Size<K>(c: Cache<K>): (n: nat)
  {
    match c case Nil => 0 case Entry(_, _, older) => 1 + Size(older)
  }

  function Lookup<K>(c: Cache<K>, n: nat): (r: Option<K>)
  {
    match c
    case Nil => None
    case Entry(m, k, older) => if m == n then Some(k) else Lookup(older, n)
  }

  /** Overwriting a present counter keeps its place in the insertion order. */
  function Overwrite<K>(c: Cache<K>, n: nat, k: K): (r: Cache<K>)
  {
    match c
    case Nil => Nil
    case Entry(m, j, older) => if m == n then Entry(n, k, older) else Entry(m, j, Overwrite(older, n, k))
  }

  function Remove<K>(c: Cache<K>, n: nat): (r: Cache<K>)
  {
    match c
    case Nil => Nil
    case Entry(m, k, older) => if m == n then Remove(older, n) else Entry(m, k, Remove(older, n))
  }

  function DropOldest<K>(c: Cache<K>): (r: Cache<K>)
  {
    match c
    case Nil => Nil
    case Entry(m, k, older) => if older.Nil? then Nil else Entry(m, k, DropOldest(older))
  }

  /** Evict oldest entries until at most `limit` remain. */
  function Trim<K>(c: Cache<K>, limit: nat): (r: Cache<K>)
    decreases Size(c)
  {
    if Size(c) <= limit then c else
    DropOldestSize(c);
    Trim(DropOldest(c), limit)
  }

  lemma {:induction false} DropOldestSize<K>(c: Cache<K>)
    ensures Size(DropOldest(c)) == if c.Nil? then 0 else Size(c) - 1
  {
    if c.Entry? {
      DropOldestSize(c.older);
    }
  }

  function CacheSkipped<K>(c: Cache<K>, n: nat, k: K, limit: nat): (r: Cache<K>)
  {
    Trim(if Lookup(c, n).Some? then Overwrite(c, n, k) else Entry(n, k, c), limit)
  }

  /** The cache after passing over the n counters that follow `at`, from the chain key at `at`. */
  function SkipOver<K>(l: Ladder<K>, chain: K, at: nat, n: nat, c: Cache<K>): (r: Cache<K>)
  {
    if n == 0 then c
    else CacheSkipped(SkipOver(l, chain, at, n - 1, c), at + n, l.derive(ChainAt(l, chain, n - 1)).message, l.maxSkipped)
  }

  // ---- encryption and decryption -------------------------------------------

  /** The chain and counter advance even when the payload turns out too large for every bucket. */
  function Encrypt<K>(e: Engine<K>, st: State<K>, req: Request): (r: (State<K>, Option<Packet>))
  {
    var n := st.outbound + 1;
    (st.(send := e.ladder.derive(st.send).next, outbound := n), e.lock(e.ladder.derive(st.send).message, n, req))
  }

  predicate Opens(o: Outcome) { o != Rejected(BadTag) }

  /** A packet whose key was cached: the key is dropped once the packet opens. */
  function OpenCached<K>(e: Engine<K>, st: State<K>, p: Packet, key: K): (r: (State<K>, Outcome))
  {
    var o := e.unlock(key, p);
    (if Opens(o) then st.(skipped := Remove(st.skipped, p.counter)) else st, o)
  }

  /** Keys passed over are cached before the packet is authenticated; the chain and highest counter move only after. */
  function OpenAhead<K>(e: Engine<K>, st: State<K>, p: Packet): (r: (State<K>, Outcome))
    requires p.counter > st.highest
  {
    var passed := p.counter - 1 - st.highest;
    var cursor := ChainAt(e.ladder, st.recv, passed);
    var cache := SkipOver(e.ladder, st.recv, st.highest, passed, st.skipped);
    var o := e.unlock(e.ladder.derive(cursor).message, p);
    (if Opens(o) then st.(recv := e.ladder.derive(cursor).next, highest := p.counter, skipped := cache)
     else st.(skipped := cache), o)
  }

  function Decrypt<K>(e: Engine<K>, st: State<K>, p: Packet): (r: (State<K>, Outcome))
  {
    if |p.nonce| != NONCE_BYTES then (st, Rejected(NonceLength))
    else if p.counter > st.highest + e.ladder.maxSkipped + 1 then (st, Rejected(TooFarAhead))
    else match Lookup(st.skipped, p.counter)
      case Some(key) => OpenCached(e, st, p, key)
      case None => if p.counter <= st.highest then (st, Rejected(Replay)) else OpenAhead(e, st, p)
  }

  // ---- calls that leave a key in memory ------------------------------------

  /** No packet can be made of this request: its message key has been derived for nothing. */
  predicate RefusesPayload<K>(e: Engine<K>, st: State<K>, req: Request)
  {
    e.lock(e.ladder.derive(st.send).message, st.outbound + 1, req).None?
  }

  /** A packet ahead of the chain, within reach and without a cached key, that the key derived for it does not open. */
  predicate FailsAhead<K>(e: Engine<K>, st: State<K>, p: Packet)
  {
    && |p.nonce| == NONCE_BYTES && st.highest < p.counter <= st.highest + e.ladder.maxSkipped + 1
    && Lookup(st.skipped, p.counter).None?
    && e.unlock(e.ladder.derive(ChainAt(e.ladder, st.recv, p.counter - 1 - st.highest)).message, p) == Rejected(BadTag)
  }

  function DecryptAll<K>(e: Engine<K>, st: State<K>, ps: seq<Packet>): (r: (State<K>, seq<Outcome>))
    ensures |r.1| == |ps|
  {
    if |ps| == 0 then (st, []) else
    var (mid, os) := DecryptAll(e, st, ps[..|ps| - 1]);
    var (end, o) := Decrypt(e, mid, ps[|ps| - 1]);
    (end, os + [o])
  }

  function EncryptAll<K>(e: Engine<K>, st: State<K>, reqs: seq<Request>): (r: (State<K>, seq<Option<Packet>>))
    ensures |r.1| == |reqs|
  {
    if |reqs| == 0 then (st, []) else
    var (mid, ps) := EncryptAll(e, st, reqs[..|reqs| - 1]);
    var (end, p) := Encrypt(e, mid, reqs[|reqs| - 1]);
    (end, ps + [p])
  }

  // ---- invariant of every run, forged frames included ----------------------

  /** Every entry holds the true message key of its counter, which is at most `bound`. */
  ghost predicate TrueKeys<K>(l: Ladder<K>, root: K, bound: nat, c: Cache<K>)
  {
    match c
    case Nil => true
    case Entry(n, k, older) => 1 <= n <= bound && k == KeyAt(l, root, n) && TrueKeys(l, root, bound, older)
  }

  ghost predicate Invariant<K>(l: Ladder<K>, root: K, st: State<K>)
  {
    && st.recv == ChainAt(l, root, st.highest)
    && TrueKeys(l, root, st.highest + l.maxSkipped, st.skipped)
    && Size(st.skipped) <= l.maxSkipped
  }

  lemma {:induction false} OverwriteTrue<K>(l: Ladder<K>, root: K, bound: nat, c: Cache<K>, n: nat)
    requires TrueKeys(l, root, bound, c) && n >= 1
    ensures Overwrite(c, n, KeyAt(l, root, n)) == c
  {
    if c.Entry? {
      OverwriteTrue(l, root, bound, c.older, n);
    }
  }

  lemma {:induction false} DropOldestTrue<K>(l: Ladder<K>, root: K, bound: nat, c: Cache<K>)
    requires TrueKeys(l, root, bound, c)
    ensures TrueKeys(l, root, bound, DropOldest(c))
  {
    if c.Entry? {
      DropOldestTrue(l, root, bound, c.older);
    }
  }

  lemma {:induction false} TrimTrue<K>(l: Ladder<K>, root: K, bound: nat, c: Cache<K>, limit: nat)
    requires TrueKeys(l, root, bound, c)
    ensures TrueKeys(l, root, bound, Trim(c, limit)) && Size(Trim(c, limit)) <= limit
    decreases Size(c)
  {
    if Size(c) > limit {
      DropOldestSize(c);
      DropOldestTrue(l, root, bound, c);
      TrimTrue(l, root, bound, DropOldest(c), limit);
    }
  }

  lemma CacheTrue<K>(l: Ladder<K>, root: K, bound: nat, c: Cache<K>, n: nat)
    requires TrueKeys(l, root, bound, c) && 1 <= n <= bound
    ensures var r := CacheSkipped(c, n, KeyAt(l, root, n), l.maxSkipped);
            TrueKeys(l, root, bound, r) && Size(r) <= l.maxSkipped
  {
    OverwriteTrue(l, root, bound, c, n);
    TrimTrue(l, root, bound, if Lookup(c, n).Some? then c else Entry(n, KeyAt(l, root, n), c), l.maxSkipped);
  }

  lemma {:induction false} RemoveTrue<K>(l: Ladder<K>, root: K, bound: nat, c: Cache<K>, n: nat)
    requires TrueKeys(l, root, bound, c)
    ensures TrueKeys(l, root, bound, Remove(c, n)) && Size(Remove(c, n)) <= Size(c)
  {
    if c.Entry? {
      RemoveTrue(l, root, bound, c.older, n);
    }
  }

  lemma {:induction false} BoundGrows<K>(l: Ladder<K>, root: K, bound: nat, larger: nat, c: Cache<K>)
    requires TrueKeys(l, root, bound, c) && bound <= larger
    ensures TrueKeys(l, root, larger, c)
  {
    if c.Entry? {
      BoundGrows(l, root, bound, larger, c.older);
    }
  }

  lemma {:induction false} ChainComposes<K>(l: Ladder<K>, root: K, m: nat, n: nat)
    ensures ChainAt(l, ChainAt(l, root, m), n) == ChainAt(l, root, m + n)
  {
    if n != 0 {
      ChainComposes(l, root, m, n - 1);
    }
  }

  lemma {:induction false} SkipTrue<K>(l: Ladder<K>, root: K, bound: nat, at: nat, n: nat, c: Cache<K>)
    requires TrueKeys(l, root, bound, c) && Size(c) <= l.maxSkipped && at + n <= bound
    ensures var r := SkipOver(l, ChainAt(l, root, at), at, n, c);
            TrueKeys(l, root, bound, r) && Size(r) <= l.maxSkipped
  {
    if n != 0 {
      SkipTrue(l, root, bound, at, n - 1, c);
      ChainComposes(l, root, at, n - 1);
      CacheTrue(l, root, bound, SkipOver(l, ChainAt(l, root, at), at, n - 1, c), at + n);
    }
  }

  /** The cache after the derivation up to a counter ahead, under the bound before and the larger one after. */
  lemma PassedTrue<K>(l: Ladder<K>, root: K, bound: nat, larger: nat, at: nat, n: nat, c: Cache<K>)
    requires TrueKeys(l, root, bound, c) && Size(c) <= l.maxSkipped && at + n <= bound <= larger
    ensures var r := SkipOver(l, ChainAt(l, root, at), at, n, c);
            TrueKeys(l, root, bound, r) && TrueKeys(l, root, larger, r) && Size(r) <= l.maxSkipped
  {
    SkipTrue(l, root, bound, at, n, c);
    BoundGrows(l, root, bound, larger, SkipOver(l, ChainAt(l, root, at), at, n, c));
  }

  lemma OpenAheadKeeps<K>(e: Engine<K>, root: K, st: State<K>, p: Packet)
    requires Invariant(e.ladder, root, st) && st.highest < p.counter <= st.highest + e.ladder.maxSkipped + 1
    ensures Invariant(e.ladder, root, OpenAhead(e, st, p).0)
  {
    var passed, limit := p.counter - 1 - st.highest, e.ladder.maxSkipped;
    ChainComposes(e.ladder, root, st.highest, passed);
    PassedTrue(e.ladder, root, st.highest + limit, p.counter + limit, st.highest, passed, st.skipped);
  }

  /** Whatever frame arrives, authentic or not, the receiving state stays a true image of the chain. */
  lemma DecryptKeepsInvariant<K>(e: Engine<K>, root: K, st: State<K>, p: Packet)
    requires Invariant(e.ladder, root, st)
    ensures Invariant(e.ladder, root, Decrypt(e, st, p).0)
  {
    RemoveTrue(e.ladder, root, st.highest + e.ladder.maxSkipped, st.skipped, p.counter);
    if st.highest < p.counter <= st.highest + e.ladder.maxSkipped + 1 {
      OpenAheadKeeps(e, root, st, p);
    }
  }

  lemma {:induction false} EveryRunKeepsInvariant<K>(e: Engine<K>, root: K, st: State<K>, ps: seq<Packet>)
    requires Invariant(e.ladder, root, st)
    ensures Invariant(e.ladder, root, DecryptAll(e, st, ps).0)
  {
    if |ps| != 0 {
      EveryRunKeepsInvariant(e, root, st, ps[..|ps| - 1]);
      DecryptKeepsInvariant(e, root, DecryptAll(e, st, ps[..|ps| - 1]).0, ps[|ps| - 1]);
    }
  }
}
