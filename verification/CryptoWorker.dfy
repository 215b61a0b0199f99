/** The crypto worker's session: key buffers on the heap, replaced and wiped in place as the ratchet turns. */
module CryptoWorker {
  import opened Bytes
  import opened Primitives
  import opened Envelope
  import opened Ratchet
  import opened RatchetRuns
  import opened SecureSession

  type Buffer = array<byte>

  ghost predicate Wiped(b: Buffer)
    reads b
  {
    forall i :: 0 <= i < b.Length ==> b[i] == 0
  }

  // ---- the skipped-key map, with its keys as buffers -----------------------

  ghost function Buffers(c: Cache<Buffer>): (r: set<Buffer>)
  {
    match c case Nil => {} case Entry(_, key, older) => Buffers(older) + {key}
  }

  /** No counter and no buffer occurs in two entries. */
  ghost predicate Distinct(c: Cache<Buffer>)
  {
    match c
    case Nil => true
    case Entry(n, key, older) => key !in Buffers(older) && Lookup(older, n).None? && Distinct(older)
  }

  ghost function Contents(c: Cache<Buffer>): (r: Cache<Octets>)
    reads Buffers(c)
  {
    match c case Nil => Nil case Entry(n, key, older) => Entry(n, key[..], Contents(older))
  }

  function Oldest(c: Cache<Buffer>): (key: Buffer)
    requires c.Entry?
    ensures key in Buffers(c)
  {
    if c.older.Nil? then c.key else Oldest(c.older)
  }

  lemma {:induction false} AllAllocated(c: Cache<Buffer>)
    ensures forall b :: b in Buffers(c) ==> allocated(b)
  {
    if c.Entry? {
      AllAllocated(c.older);
    }
  }

  lemma {:induction false} DropOldestBuffers(c: Cache<Buffer>)
    requires Distinct(c) && c.Entry?
    ensures Distinct(DropOldest(c)) && Buffers(DropOldest(c)) == Buffers(c) - {Oldest(c)}
    ensures Contents(DropOldest(c)) == DropOldest(Contents(c)) && Size(Contents(c)) == Size(c)
  {
    if c.older.Entry? {
      DropOldestBuffers(c.older);
      DropKeepsAbsent(c.older, c.counter);
    }
  }

  lemma {:induction false} SameSize(c: Cache<Buffer>)
    ensures Size(Contents(c)) == Size(c)
  {
    if c.Entry? {
      SameSize(c.older);
    }
  }

  lemma {:induction false} SameLookup(c: Cache<Buffer>, n: nat)
    ensures Lookup(Contents(c), n).Some? <==> Lookup(c, n).Some?
    ensures Lookup(c, n).Some? ==> Lookup(c, n).value in Buffers(c) && Lookup(Contents(c), n).value == Lookup(c, n).value[..]
  {
    if c.Entry? {
      SameLookup(c.older, n);
    }
  }

  lemma {:induction false} OverwriteBuffers(c: Cache<Buffer>, n: nat, key: Buffer)
    requires Distinct(c) && Lookup(c, n).Some? && key !in Buffers(c)
    ensures var r := Overwrite(c, n, key);
      && Distinct(r) && Buffers(r) == Buffers(c) - {Lookup(c, n).value} + {key}
      && Contents(r) == Overwrite(Contents(c), n, key[..])
  {
    SameLookup(c, n);
    if c.counter != n {
      OverwriteBuffers(c.older, n, key);
      OverwriteKeepsAbsent(c.older, n, key, c.counter);
      SameLookup(c.older, n);
    }
  }

  lemma {:induction false} RemoveBuffers(c: Cache<Buffer>, n: nat)
    requires Distinct(c) && Lookup(c, n).Some?
    ensures var r := Remove(c, n);
      && Distinct(r) && Buffers(r) == Buffers(c) - {Lookup(c, n).value}
      && Contents(r) == Remove(Contents(c), n)
  {
    if c.counter == n {
      RemoveAbsent(c.older, n);
      SameLookup(c.older, n);
      RemoveAbsent(Contents(c.older), n);
    } else {
      RemoveBuffers(c.older, n);
      SameLookup(c.older, n);
      LookupAfterRemove(c.older, n, c.counter);
    }
  }

  lemma {:induction false} RemoveAbsent<K>(c: Cache<K>, n: nat)
    requires Lookup(c, n).None?
    ensures Remove(c, n) == c
  {
    if c.Entry? {
      RemoveAbsent(c.older, n);
    }
  }

  method Zeroize(b: array?<byte>)
    modifies b
    ensures b != null ==> Wiped(b)
  {
    if b != null {
      for i := 0 to b.Length
        invariant forall j :: 0 <= j < i ==> b[j] == 0
      {
        b[i] := 0;
      }
    }
  }

  method NewBuffer(s: Octets) returns (b: Buffer)
    ensures fresh(b) && b[..] == s
  {
    b := new byte[|s|](i requires 0 <= i < |s| => s[i]);
  }

  /** The keys are cut from a buffer of derived material, which is not wiped and keeps its copy of both. */
  method CutKeys(link: Link<Octets>) returns (next: Buffer, message: Buffer, ghost material: Buffer)
    ensures fresh({next, message, material}) && |{next, message, material}| == 3
    ensures Link(next[..], message[..]) == link && material[..] == next[..] + message[..]
  {
    var derived := NewBuffer(link.next + link.message);
    next := NewBuffer(derived[..|link.next|]);
    message := NewBuffer(derived[|link.next|..]);
    assert derived[..][..|link.next|] == link.next && derived[..][|link.next|..] == link.message;
    material := derived;
  }

  method StepChain(l: Ladder<Octets>, chain: Buffer) returns (next: Buffer, message: Buffer)
    ensures fresh(next) && fresh(message) && next != message
    ensures Link(next[..], message[..]) == l.derive(chain[..])
  {
    ghost var material;
    next, message, material := CutKeys(l.derive(chain[..]));
    assert |{next, message, material}| == 3;
  }

  lemma SkipStep<K>(l: Ladder<K>, root: K, at: nat, n: nat, c: Cache<K>, cursor: K, reached: Cache<K>)
    requires cursor == ChainAt(l, root, n) && reached == SkipOver(l, root, at, n, c)
    ensures l.derive(cursor).next == ChainAt(l, root, n + 1)
    ensures Ratchet.CacheSkipped(reached, at + n + 1, l.derive(cursor).message, l.maxSkipped) == SkipOver(l, root, at, n + 1, c)
  {}

  lemma AheadResult<K>(e: Engine<K>, st: State<K>, p: Packet, link: Link<K>, cache: Cache<K>)
    requires p.counter > st.highest
    requires link == e.ladder.derive(ChainAt(e.ladder, st.recv, p.counter - 1 - st.highest))
    requires cache == SkipOver(e.ladder, st.recv, st.highest, p.counter - 1 - st.highest, st.skipped)
    ensures var o := e.unlock(link.message, p);
      Ratchet.OpenAhead(e, st, p) ==
      (if Opens(o) then st.(recv := link.next, highest := p.counter, skipped := cache) else st.(skipped := cache), o)
    ensures NextAhead(e.ladder, st, p.counter) == link.next
  {}

  /** Both chains from the shared secret; that secret and the root key, in `used`, are wiped once they have served. */
  method DeriveChains(c: Suite, secret: Octets, profileHash: string, low: bool)
    returns (send: Buffer, recv: Buffer, ghost used: set<Buffer>)
    ensures fresh({send, recv} + used) && send != recv && {send, recv} !! used
    ensures var root := RootKey(c, secret, profileHash);
            send[..] == ChainKey(c, root, low) && recv[..] == ChainKey(c, root, !low)
    ensures |used| == 2 && forall b :: b in used ==> Wiped(b)
  {
    var shared := NewBuffer(secret);
    var root := NewBuffer(RootKey(c, shared[..], profileHash));
    send := NewBuffer(ChainKey(c, root[..], low));
    recv := NewBuffer(ChainKey(c, root[..], !low));
    Zeroize(shared);
    Zeroize(root);
    used := {shared, root};
  }

  /** The chain key a packet ahead would lead to. */
  function NextAhead<K>(l: Ladder<K>, st: State<K>, n: nat): (k: K)
    requires n > st.highest
  {
    l.derive(ChainAt(l, st.recv, n - 1 - st.highest)).next
  }

  datatype Failure = NoIdentity | KeyRefused(why: Refusal)

  // ---- the worker ----------------------------------------------------------

  /** Every key buffer ever issued is in use, has been wiped, or is listed as a stray. */
  ghost predicate Accounted(issued: set<Buffer>, live: set<Buffer>, strays: set<Buffer>)
    reads issued
  {
    forall b :: b in issued && b !in live && b !in strays ==> Wiped(b)
  }

  class Worker {
    var engine: Engine<Octets>
    var sendChain: array?<byte>
    var recvChain: array?<byte>
    var outbound: nat
    var highest: nat
    var skipped: Cache<Buffer>
    ghost var issued: set<Buffer>
    ghost var strays: set<Buffer>

    ghost function Live(): (r: set<Buffer>)
      reads this
    {
      (if sendChain == null then {} else {sendChain}) + (if recvChain == null then {} else {recvChain}) + Buffers(skipped)
    }

    /** The buffers in use are pairwise distinct, so wiping one never touches another. */
    ghost predicate Separate()
      reads this
    {
      && (sendChain != null ==> sendChain != recvChain && sendChain !in Buffers(skipped))
      && (recvChain != null ==> recvChain !in Buffers(skipped))
      && Distinct(skipped)
    }

    ghost predicate Valid()
      reads this, Live(), issued
    {
      && Separate()
      && (sendChain == null <==> recvChain == null)
      && (sendChain == null ==> outbound == 0 && highest == 0 && skipped == Nil)
      && Live() <= issued && Accounted(issued, Live(), strays)
    }

    ghost function View(): (st: State<Octets>)
      reads this, Live()
      requires sendChain != null && recvChain != null
    {
      State(sendChain[..], recvChain[..], outbound, highest, Contents(skipped))
    }

    /** Drops and wipes the oldest skipped key. */
    method EvictOldest()
      requires Distinct(skipped) && skipped.Entry?
      modifies this`skipped, Buffers(skipped)
      ensures Contents(skipped) == DropOldest(old(Contents(skipped))) && Size(skipped) == old(Size(skipped)) - 1
      ensures Distinct(skipped) && Buffers(skipped) == old(Buffers(skipped)) - {old(Oldest(skipped))}
      ensures Wiped(old(Oldest(skipped)))
    {
      DropOldestSize(skipped);
      DropOldestBuffers(skipped);
      AllAllocated(skipped);
      var oldest, rest := Oldest(skipped), DropOldest(skipped);
      Zeroize(oldest);
      assert Contents(rest) == old(Contents(rest));
      skipped := rest;
    }

    /** Enters a key under its counter, wiping the key it replaces. */
    method Place(n: nat, key: Buffer)
      requires Distinct(skipped) && key !in Buffers(skipped)
      modifies this`skipped, Buffers(skipped)
      ensures Contents(skipped) == var c := old(Contents(skipped));
        if Lookup(c, n).Some? then Overwrite(c, n, key[..]) else Entry(n, key[..], c)
      ensures Distinct(skipped) && key in Buffers(skipped) && Buffers(skipped) <= old(Buffers(skipped)) + {key}
      ensures forall b :: b in old(Buffers(skipped)) && b !in Buffers(skipped) ==> Wiped(b)
    {
      SameLookup(skipped, n);
      AllAllocated(skipped);
      match Lookup(skipped, n) {
        case Some(existing) =>
          OverwriteBuffers(skipped, n, key);
          var replaced := Overwrite(skipped, n, key);
          Zeroize(existing);
          assert Contents(replaced) == old(Contents(replaced));
          skipped := replaced;
        case None =>
          skipped := Entry(n, key, skipped);
      }
    }

    method CacheSkipped(n: nat, key: Buffer)
      requires Distinct(skipped) && key !in Buffers(skipped)
      modifies this`skipped, Buffers(skipped), key
      ensures Contents(skipped) == Ratchet.CacheSkipped(old(Contents(skipped)), n, old(key[..]), engine.ladder.maxSkipped)
      ensures Distinct(skipped) && Buffers(skipped) <= old(Buffers(skipped)) + {key}
      ensures forall b :: b in old(Buffers(skipped)) + {key} && b !in Buffers(skipped) ==> Wiped(b)
    {
      AllAllocated(skipped);
      Place(n, key);
      ghost var full := Contents(skipped);
      while Size(skipped) > engine.ladder.maxSkipped
        invariant Distinct(skipped) && Buffers(skipped) <= old(Buffers(skipped)) + {key}
        invariant Trim(Contents(skipped), engine.ladder.maxSkipped) == Trim(full, engine.ladder.maxSkipped)
        invariant forall b :: b in old(Buffers(skipped)) + {key} && b !in Buffers(skipped) ==> Wiped(b)
        decreases Size(skipped)
      {
        SameSize(skipped);
        EvictOldest();
      }
      SameSize(skipped);
    }

    /** All of `Valid` while a method still holds the buffer `extra`, apart from the null cases. */
    ghost predicate Holding(extra: Buffer)
      reads this, issued
    {
      && sendChain != null && recvChain != null && Separate() && Live() <= issued && extra in issued
      && Accounted(issued, Live() + {extra}, strays)
    }

    /** One step of the send chain: the old chain key is wiped, the message key handed to the caller. */
    method AdvanceSend() returns (message: Buffer)
      requires Valid() && sendChain != null
      modifies this`sendChain, this`outbound, this`issued, sendChain
      ensures Holding(message) && fresh(message) && fresh(sendChain) && message != sendChain && Wiped(old(sendChain))
      ensures Link(sendChain[..], message[..]) == engine.ladder.derive(old(sendChain[..]))
      ensures outbound == old(outbound) + 1 && issued >= old(issued)
    {
      AllAllocated(skipped);
      var next;
      next, message := StepChain(engine.ladder, sendChain);
      issued := issued + {next, message};
      Zeroize(sendChain);
      sendChain := next;
      outbound := outbound + 1;
    }

    /** The chain advances and its old key is wiped; a message key is left unwiped exactly for a payload no bucket holds. */
    method EncryptBinary(req: Request) returns (r: Option<Option<Packet>>, ghost leaked: set<Buffer>)
      requires Valid()
      modifies this`sendChain, this`outbound, this`issued, this`strays, if sendChain == null then {} else {sendChain}
      ensures Valid() && strays == old(strays) + leaked && fresh(leaked) && issued >= old(issued)
      ensures r.Some? == old(sendChain != null) == (sendChain != null)
      ensures r.Some? ==> Wiped(old(sendChain))
      ensures r.Some? ==> (View(), r.value) == Encrypt(engine, old(View()), req)
      ensures leaked != {} <==> old(sendChain != null) && RefusesPayload(engine, old(View()), req)
      ensures forall b :: b in leaked ==> b[..] == engine.ladder.derive(old(sendChain[..])).message
    {
      if sendChain == null { return None, {}; }
      AllAllocated(skipped);
      var message := AdvanceSend();
      var sent := engine.lock(message[..], outbound, req);
      if sent.None? {
        strays := strays + {message};
        return Some(None), {message};
      }
      Zeroize(message);
      return Some(sent), {};
    }

    /** `next` takes the place of the cursor, which is wiped unless it is the chain key itself. */
    method Succeed(cursor: Buffer, next: Buffer)
      requires Holding(cursor) && cursor !in Buffers(skipped) && cursor != sendChain && next !in issued
      modifies this`issued, {cursor} - {recvChain}
      ensures Holding(next) && issued == old(issued) + {next}
    {
      AllAllocated(skipped);
      if cursor != recvChain {
        Zeroize(cursor);
      }
      issued := issued + {next};
    }

    method PassOver(cursor: Buffer, next: Buffer, message: Buffer, n: nat)
      requires Holding(cursor) && cursor !in Buffers(skipped) && cursor != sendChain
      requires next !in issued && message !in issued && next != message
      modifies this`skipped, this`issued, Buffers(skipped), {cursor} - {recvChain}, message
      ensures Holding(next) && next !in Buffers(skipped) && next[..] == old(next[..])
      ensures issued == old(issued) + {next, message} && Buffers(skipped) <= old(Buffers(skipped)) + {message}
      ensures Contents(skipped) == Ratchet.CacheSkipped(old(Contents(skipped)), n, old(message[..]), engine.ladder.maxSkipped)
    {
      AllAllocated(skipped);
      Succeed(cursor, next);
      CacheSkipped(n, message);
      issued := issued + {message};
    }

    /** A step of the chain whose message key, in `link`, goes into the cache. */
    method PassOne(cursor: Buffer, n: nat, ghost link: Link<Octets>) returns (next: Buffer)
      requires Holding(cursor) && cursor !in Buffers(skipped) && cursor != sendChain
      requires link == engine.ladder.derive(cursor[..])
      modifies this`skipped, this`issued, Buffers(skipped), {cursor} - {recvChain}
      ensures Holding(next) && next !in Live() && fresh(next) && next[..] == link.next
      ensures issued >= old(issued) && fresh(Buffers(skipped) - old(Buffers(skipped)))
      ensures Contents(skipped) == Ratchet.CacheSkipped(old(Contents(skipped)), n, link.message, engine.ladder.maxSkipped)
    {
      var message;
      next, message := StepChain(engine.ladder, cursor);
      PassOver(cursor, next, message, n);
    }

    /** One passed-over counter: its key is cached and the cursor wiped, unless the cursor is the chain key itself. */
    method SkipOne(cursor: Buffer, n: nat, ghost root: Octets, ghost cache: Cache<Octets>) returns (next: Buffer)
      requires Holding(cursor) && cursor !in Buffers(skipped) && cursor != sendChain && n > highest
      requires cursor[..] == ChainAt(engine.ladder, root, n - 1 - highest)
      requires Contents(skipped) == SkipOver(engine.ladder, root, highest, n - 1 - highest, cache)
      modifies this`skipped, this`issued, Buffers(skipped), {cursor} - {recvChain}
      ensures Holding(next) && next !in Buffers(skipped) && next != sendChain && next != recvChain && fresh(next)
      ensures issued >= old(issued) && fresh(Buffers(skipped) - old(Buffers(skipped)))
      ensures next[..] == ChainAt(engine.ladder, root, n - highest)
      ensures Contents(skipped) == SkipOver(engine.ladder, root, highest, n - highest, cache)
    {
      SkipStep(engine.ladder, root, highest, n - 1 - highest, cache, cursor[..], Contents(skipped));
      next := PassOne(cursor, n, engine.ladder.derive(cursor[..]));
    }

    /** Walks the receive chain up to `n`, caching the key of every counter passed over. */
    method SkipAhead(n: nat) returns (cursor: Buffer)
      requires Valid() && recvChain != null && n > highest
      modifies this`skipped, this`issued, Buffers(skipped)
      ensures Holding(cursor) && cursor !in Buffers(skipped) && cursor != sendChain
      ensures cursor == recvChain || fresh(cursor)
      ensures issued >= old(issued) && fresh(Buffers(skipped) - old(Buffers(skipped)))
      ensures cursor[..] == ChainAt(engine.ladder, old(recvChain[..]), n - 1 - highest)
      ensures Contents(skipped) == SkipOver(
        engine.ladder, old(recvChain[..]), highest, n - 1 - highest, old(Contents(skipped)))
    {
      ghost var root, cache := recvChain[..], Contents(skipped);
      cursor := recvChain;
      var c := highest + 1;
      while c < n
        invariant highest < c <= n
        invariant Holding(cursor) && cursor !in Buffers(skipped) && cursor != sendChain
        invariant cursor == recvChain || fresh(cursor)
        invariant issued >= old(issued) && fresh(Buffers(skipped) - old(Buffers(skipped)))
        invariant cursor[..] == ChainAt(engine.ladder, root, c - 1 - highest)
        invariant Contents(skipped) == SkipOver(engine.ladder, root, highest, c - 1 - highest, cache)
      {
        cursor := SkipOne(cursor, c, root, cache);
        c := c + 1;
      }
    }

    /** The step from the cursor to the packet's own keys, which `link` holds; no other buffer in use is touched. */
    method LastStep(cursor: Buffer, ghost link: Link<Octets>) returns (next: Buffer, message: Buffer)
      requires Holding(cursor) && cursor !in Buffers(skipped) && cursor != sendChain
      requires link == engine.ladder.derive(cursor[..])
      modifies this`issued, {cursor} - {recvChain}
      ensures Holding(next) && next !in Live() && fresh(next) && fresh(message) && message !in issued
      ensures issued == old(issued) + {next}
      ensures Link(next[..], message[..]) == link && Contents(skipped) == old(Contents(skipped))
    {
      AllAllocated(skipped);
      next, message := StepChain(engine.ladder, cursor);
      Succeed(cursor, next);
    }

    /** Derives the keys for a counter ahead of the chain, which itself stays as it is. */
    method PrepareAhead(n: nat) returns (next: Buffer, message: Buffer)
      requires Valid() && recvChain != null && n > highest
      modifies this`skipped, this`issued, Buffers(skipped)
      ensures Holding(next) && next !in Live() && fresh(next)
      ensures fresh(message) && message !in issued
      ensures issued >= old(issued)
      ensures Link(next[..], message[..]) == engine.ladder.derive(ChainAt(engine.ladder, old(recvChain[..]), n - 1 - highest))
      ensures Contents(skipped) == SkipOver(
        engine.ladder, old(recvChain[..]), highest, n - 1 - highest, old(Contents(skipped)))
    {
      var cursor := SkipAhead(n);
      next, message := LastStep(cursor, engine.ladder.derive(cursor[..]));
    }

    /** Installs or abandons the keys derived for a counter ahead; the message key is wiped either way. */
    method FinishAhead(next: Buffer, message: Buffer, n: nat, genuine: bool)
      requires Holding(next) && next !in Live() && message !in issued && message !in Live() && n > 0
      modifies this`recvChain, this`highest, this`issued, this`strays, recvChain, message
      ensures Valid() && recvChain != null && issued == old(issued) + {message} && Wiped(message)
      ensures View() == if genuine then old(View()).(recv := old(next[..]), highest := n) else old(View())
      ensures genuine ==> Wiped(old(recvChain)) && strays == old(strays)
      ensures !genuine ==> strays == old(strays) + {next} && next[..] == old(next[..])
    {
      AllAllocated(skipped);
      if genuine {
        Zeroize(recvChain);
        recvChain := next;
        highest := n;
      } else {
        strays := strays + {next};
      }
      Zeroize(message);
      issued := issued + {message};
    }

    /** A counter ahead of the chain. The would-be next chain key is left unwiped exactly when authentication fails. */
    method OpenAhead(p: Packet) returns (o: Outcome, ghost leaked: set<Buffer>)
      requires Valid() && recvChain != null && p.counter > highest
      modifies this`recvChain, this`highest, this`skipped, this`issued, this`strays, Buffers(skipped), recvChain
      ensures Valid() && recvChain != null && strays == old(strays) + leaked && fresh(leaked)
      ensures (View(), o) == Ratchet.OpenAhead(engine, old(View()), p)
      ensures Opens(o) ==> Wiped(old(recvChain))
      ensures issued >= old(issued) && (leaked != {} <==> !Opens(o))
      ensures forall b :: b in leaked ==> b[..] == NextAhead(engine.ladder, old(View()), p.counter)
    {
      ghost var before := View();
      var next, message := PrepareAhead(p.counter);
      ghost var link, cache := Link(next[..], message[..]), Contents(skipped);
      o := engine.unlock(message[..], p);
      AheadResult(engine, before, p, link, cache);
      FinishAhead(next, message, p.counter, Opens(o));
      if Opens(o) {
        leaked := {};
      } else {
        assert next[..] == link.next;
        leaked := {next};
      }
    }

    /** A counter whose key is cached: a copy of the key is used and wiped, the cached key wiped once it opened the packet. */
    method OpenCached(p: Packet, cached: Buffer) returns (o: Outcome)
      requires Valid() && recvChain != null && Lookup(skipped, p.counter) == Some(cached)
      modifies this`skipped, cached
      ensures Valid() && Live() <= old(Live())
      ensures (View(), o) == Ratchet.OpenCached(engine, old(View()), p, old(cached[..]))
      ensures Opens(o) ==> Wiped(cached)
    {
      SameLookup(skipped, p.counter);
      RemoveBuffers(skipped, p.counter);
      AllAllocated(skipped);
      var message := NewBuffer(cached[..]);
      o := engine.unlock(message[..], p);
      if Opens(o) {
        var rest := Remove(skipped, p.counter);
        Zeroize(cached);
        assert Contents(rest) == old(Contents(rest));
        skipped := rest;
      }
      Zeroize(message);
    }

    /** Exactly the pure ratchet step. A key is left unwiped exactly for a packet ahead that will not open. */
    method DecryptBinary(p: Packet) returns (r: Option<Outcome>, ghost leaked: set<Buffer>)
      requires Valid()
      modifies this`recvChain, this`highest, this`skipped, this`issued, this`strays
      modifies Buffers(skipped), if recvChain == null then {} else {recvChain}
      ensures Valid() && strays == old(strays) + leaked && fresh(leaked) && issued >= old(issued)
      ensures r.Some? == old(recvChain != null) == (recvChain != null)
      ensures r.Some? ==> (View(), r.value) == Decrypt(engine, old(View()), p)
      ensures leaked != {} <==> old(recvChain != null) && FailsAhead(engine, old(View()), p)
      ensures forall b :: b in leaked && p.counter > old(highest) ==> b[..] == NextAhead(engine.ladder, old(View()), p.counter)
    {
      leaked := {};
      if recvChain == null { return None, {}; }
      if |p.nonce| != NONCE_BYTES { return Some(Rejected(NonceLength)), {}; }
      if p.counter > highest + engine.ladder.maxSkipped + 1 { return Some(Rejected(TooFarAhead)), {}; }
      SameLookup(skipped, p.counter);
      match Lookup(skipped, p.counter) {
        case Some(cached) =>
          var o := OpenCached(p, cached);
          return Some(o), {};
        case None =>
          if p.counter <= highest { return Some(Rejected(Replay)), {}; }
          var o;
          o, leaked := OpenAhead(p);
          return Some(o), leaked;
      }
    }

    /** Every key still in use is wiped and dropped. */
    method ResetSession()
      requires Valid()
      modifies this`sendChain, this`recvChain, this`outbound, this`highest, this`skipped, Live()
      ensures Valid() && sendChain == null
      ensures forall b :: b in old(Live()) ==> Wiped(b)
    {
      AllAllocated(skipped);
      Zeroize(sendChain);
      Zeroize(recvChain);
      var rest := skipped;
      while rest.Entry?
        invariant Buffers(rest) <= old(Buffers(skipped))
        invariant forall b :: b in old(Live()) && b !in Buffers(rest) ==> Wiped(b)
        invariant unchanged(this)
        invariant forall b :: b in issued && b !in old(Live()) && b !in strays ==> Wiped(b)
        decreases rest
      {
        Zeroize(rest.key);
        rest := rest.older;
      }
      sendChain, recvChain, outbound, highest, skipped := null, null, 0, 0, Nil;
    }

    method InstallChains(send: Buffer, recv: Buffer, ghost used: set<Buffer>)
      requires Valid() && sendChain == null && send != recv && {send, recv} !! (issued + used)
      requires forall b :: b in used ==> Wiped(b)
      modifies this`sendChain, this`recvChain, this`issued
      ensures Valid() && sendChain == send && recvChain == recv && issued == old(issued) + {send, recv} + used
      ensures outbound == 0 && highest == 0 && skipped == Nil
    {
      sendChain, recvChain := send, recv;
      issued := issued + {send, recv} + used;
    }

    method StartChains(c: Suite, secret: Octets, profileHash: string, low: bool)
      requires Valid() && sendChain == null
      modifies this`sendChain, this`recvChain, this`issued
      ensures Valid() && sendChain != null && recvChain != null && fresh({sendChain, recvChain}) && issued >= old(issued)
      ensures var root := RootKey(c, secret, profileHash); View() == Fresh(ChainKey(c, root, low), ChainKey(c, root, !low))
    {
      ghost var used;
      var send, recv;
      send, recv, used := DeriveChains(c, secret, profileHash, low);
      ghost var chains := Fresh(send[..], recv[..]);
      InstallChains(send, recv, used);
      assert View() == chains;
    }

    /**
      * Without an identity, or with a key it refuses, the session stays as it was; otherwise the old keys are wiped and a
      * fresh ratchet starts.
      */
    method EstablishSession(c: Suite, identity: Option<Octets>, peer: Octets, profileHash: string) returns (failure: Option<Failure>)
      requires Valid()
      modifies this`sendChain, this`recvChain, this`outbound, this`highest, this`skipped, this`issued, Live()
      ensures Valid() && issued >= old(issued)
      ensures failure.Some? ==> unchanged(this) && unchanged(old(Live()))
      ensures failure == match identity
        case None => Some(NoIdentity)
        case Some(secret) =>
          (match Establish(c, secret, peer, profileHash) case Refused(why) => Some(KeyRefused(why)) case Chains(_, _) => None)
      ensures failure.None? ==>
        && sendChain != null && recvChain != null && fresh(Live()) && (forall b :: b in old(Live()) ==> Wiped(b))
        && Chains(View().send, View().recv) == Establish(c, identity.value, peer, profileHash)
        && View() == Fresh(View().send, View().recv)
    {
      if identity.None? { return Some(NoIdentity); }
      if |peer| != 32 { return Some(KeyRefused(BadPeerKey)); }
      var order := Compare(c.publicOf(identity.value), peer);
      if order == 0 { return Some(KeyRefused(IdenticalKey)); }
      ResetSession();
      StartChains(c, c.agree(identity.value, peer), profileHash, order < 0);
      return None;
    }

    constructor (e: Engine<Octets>)
      ensures Valid() && engine == e && sendChain == null && issued == {} && strays == {}
    {
      engine, sendChain, recvChain, outbound, highest, skipped := e, null, null, 0, 0, Nil;
      issued, strays := {}, {};
    }
  }
  // ---- two runs that leave a key in memory ---------------------------------

  /** A worker with its session just established. */
  method NewSession(c: Suite, cfg: Config, secret: Octets, peer: Octets, profileHash: string) returns (w: Worker)
    requires Lawful(c) && Establish(c, secret, peer, profileHash).Chains?
    ensures fresh(w) && w.Valid() && w.engine == EngineOf(c, cfg) && w.sendChain != null && w.recvChain != null
    ensures fresh(w.Live()) && w.skipped == Nil
    ensures var e := Establish(c, secret, peer, profileHash); w.View() == Fresh(e.send, e.recv)
  {
    w := new Worker(EngineOf(c, cfg));
    var failure := w.EstablishSession(c, Some(secret), peer, profileHash);
  }

  method LeaveMessageKey(w: Worker, req: Request) returns (ghost key: Buffer)
    requires w.Valid() && w.sendChain != null && RefusesPayload(w.engine, w.View(), req)
    modifies w, w.sendChain
    ensures w.Valid() && key in w.strays && key[..] == w.engine.ladder.derive(old(w.sendChain[..])).message
  {
    var r;
    ghost var leaked;
    r, leaked := w.EncryptBinary(req);
    key :| key in leaked;
  }

  method LeaveChainKey(w: Worker, p: Packet) returns (ghost key: Buffer)
    requires w.Valid() && w.recvChain != null && FailsAhead(w.engine, w.View(), p)
    modifies w, w.recvChain, Buffers(w.skipped)
    ensures w.Valid() && key in w.strays && key[..] == NextAhead(w.engine.ladder, old(w.View()), p.counter)
  {
    var r;
    ghost var leaked;
    r, leaked := w.DecryptBinary(p);
    key :| key in leaked;
  }

  /** A new session, asked to encrypt a payload that no bucket holds, keeps the message key it derived. */
  method OversizedPayloadLeavesKey(c: Suite, cfg: Config, secret: Octets, peer: Octets, profileHash: string, req: Request)
    returns (w: Worker, ghost key: Buffer)
    requires Lawful(c) && cfg.Valid() && Establish(c, secret, peer, profileHash).Chains?
    requires |req.nonce| == NONCE_BYTES && forall b :: b in cfg.buckets ==> b < |req.data| + 4
    ensures fresh(w) && w.Valid() && key in w.strays
  {
    w := NewSession(c, cfg, secret, peer, profileHash);
    PayloadRefusedIff(c, cfg, w.View(), req);
    key := LeaveMessageKey(w, req);
  }

  /** A new session, handed a first packet that its key does not open, keeps the chain key it would have moved to. */
  method ForgedPacketLeavesKey(c: Suite, cfg: Config, secret: Octets, peer: Octets, profileHash: string, p: Packet)
    returns (w: Worker, ghost key: Buffer)
    requires Lawful(c) && Establish(c, secret, peer, profileHash).Chains? && p.counter == 1 && |p.nonce| == NONCE_BYTES
    requires c.unseal(DeriveStep(c, Establish(c, secret, peer, profileHash).recv).message, p.nonce,
                      Prefix(p.ctx, p.counter, p.nonce), p.text) == None
    ensures fresh(w) && w.Valid() && key in w.strays
  {
    w := NewSession(c, cfg, secret, peer, profileHash);
    FirstFails(c, cfg, w.View(), p);
    key := LeaveChainKey(w, p);
  }

  lemma FirstFails(c: Suite, cfg: Config, st: State<Octets>, p: Packet)
    requires Lawful(c) && st == Fresh(st.send, st.recv) && p.counter == 1 && |p.nonce| == NONCE_BYTES
    requires c.unseal(DeriveStep(c, st.recv).message, p.nonce, Prefix(p.ctx, p.counter, p.nonce), p.text) == None
    ensures FailsAhead(EngineOf(c, cfg), st, p)
  {
    var l := EngineOf(c, cfg).ladder;
    assert ChainAt(l, st.recv, 0) == st.recv;
  }
}
