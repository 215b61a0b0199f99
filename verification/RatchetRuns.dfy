/** What the ratchet promises over whole runs: original plaintexts, no replays, no losses inside the window. */
module RatchetRuns {
  import opened Bytes
  import opened Envelope
  import opened Ratchet

  /** A packet the peer really produced for this plaintext: its counter's key opens it. */
  ghost predicate Authentic<K>(e: Engine<K>, root: K, p: Packet, plain: Octets)
  {
    p.counter >= 1 && |p.nonce| == NONCE_BYTES && e.unlock(KeyAt(e.ladder, root, p.counter), p) == Accepted(plain)
  }

  /** Counters held in the cache were passed over, never accepted, and appear once. */
  ghost predicate Settled<K>(c: Cache<K>, highest: nat, accepted: set<nat>)
  {
    match c
    case Nil => true
    case Entry(n, _, older) =>
      n <= highest && n !in accepted && Lookup(older, n).None? && Settled(older, highest, accepted)
  }

  ghost predicate UpTo(s: set<nat>, highest: nat) { forall n :: n in s ==> n <= highest }

  // ---- what the cache operations keep --------------------------------------

  lemma {:induction false} SettledLookup<K>(c: Cache<K>, highest: nat, accepted: set<nat>, n: nat)
    requires Settled(c, highest, accepted) && Lookup(c, n).Some?
    ensures n <= highest && n !in accepted
  {
    if c.counter != n {
      SettledLookup(c.older, highest, accepted, n);
    }
  }

  lemma {:induction false} TrueLookup<K>(l: Ladder<K>, root: K, bound: nat, c: Cache<K>, n: nat)
    requires TrueKeys(l, root, bound, c) && Lookup(c, n).Some?
    ensures 1 <= n <= bound && Lookup(c, n).value == KeyAt(l, root, n)
  {
    if c.counter != n {
      TrueLookup(l, root, bound, c.older, n);
    }
  }

  lemma {:induction false} LookupAfterRemove<K>(c: Cache<K>, n: nat, m: nat)
    ensures Lookup(Remove(c, n), m) == if m == n then None else Lookup(c, m)
  {
    if c.Entry? {
      LookupAfterRemove(c.older, n, m);
    }
  }

  lemma {:induction false} RemoveSettled<K>(c: Cache<K>, highest: nat, accepted: set<nat>, n: nat)
    requires Settled(c, highest, accepted)
    ensures Settled(Remove(c, n), highest, accepted + {n})
  {
    if c.Entry? {
      RemoveSettled(c.older, highest, accepted, n);
      LookupAfterRemove(c.older, n, c.counter);
    }
  }

  lemma {:induction false} HigherSettled<K>(c: Cache<K>, highest: nat, accepted: set<nat>, n: nat)
    requires Settled(c, highest, accepted) && n > highest
    ensures Settled(c, n, accepted) && Settled(c, n, accepted + {n}) && Lookup(c, n).None?
  {
    if c.Entry? {
      HigherSettled(c.older, highest, accepted, n);
    }
  }

  lemma {:induction false} DropOldestSettled<K>(c: Cache<K>, highest: nat, accepted: set<nat>)
    requires Settled(c, highest, accepted)
    ensures Settled(DropOldest(c), highest, accepted)
  {
    if c.Entry? {
      DropOldestSettled(c.older, highest, accepted);
      DropKeepsAbsent(c.older, c.counter);
    }
  }

  lemma {:induction false} TrimSettled<K>(c: Cache<K>, highest: nat, accepted: set<nat>, limit: nat)
    requires Settled(c, highest, accepted)
    ensures Settled(Trim(c, limit), highest, accepted)
    decreases Size(c)
  {
    if Size(c) > limit {
      DropOldestSize(c);
      DropOldestSettled(c, highest, accepted);
      TrimSettled(DropOldest(c), highest, accepted, limit);
    }
  }

  lemma {:induction false} SkipSettled<K>(l: Ladder<K>, chain: K, at: nat, n: nat, c: Cache<K>, accepted: set<nat>)
    requires Settled(c, at, accepted) && UpTo(accepted, at)
    ensures Settled(SkipOver(l, chain, at, n, c), at + n, accepted)
  {
    if n != 0 {
      SkipSettled(l, chain, at, n - 1, c, accepted);
      var prev := SkipOver(l, chain, at, n - 1, c);
      var k := l.derive(ChainAt(l, chain, n - 1)).message;
      HigherSettled(prev, at + n - 1, accepted, at + n);
      TrimSettled(Entry(at + n, k, prev), at + n, accepted, l.maxSkipped);
    }
  }

  // ---- one authentic delivery ----------------------------------------------

  predicate InReach<K>(l: Ladder<K>, st: State<K>, n: nat)
  {
    st.highest < n <= st.highest + l.maxSkipped + 1
  }

  function Passed<K>(l: Ladder<K>, st: State<K>, n: nat): (c: Cache<K>)
    requires n > st.highest
  {
    SkipOver(l, st.recv, st.highest, n - 1 - st.highest, st.skipped)
  }

  /** An authentic packet is accepted exactly when its key is cached or its counter is ahead but not too far. */
  lemma AuthenticEffect<K>(e: Engine<K>, root: K, st: State<K>, p: Packet, plain: Octets)
    requires Invariant(e.ladder, root, st) && Authentic(e, root, p, plain)
    ensures var r := Decrypt(e, st, p);
      if Lookup(st.skipped, p.counter).Some? then
        r == (st.(skipped := Remove(st.skipped, p.counter)), Accepted(plain))
      else if InReach(e.ladder, st, p.counter) then
        r == (st.(recv := ChainAt(e.ladder, root, p.counter), highest := p.counter, skipped := Passed(e.ladder, st, p.counter)), Accepted(plain))
      else r.0 == st && r.1.Rejected?
  {
    if Lookup(st.skipped, p.counter).Some? {
      TrueLookup(e.ladder, root, st.highest + e.ladder.maxSkipped, st.skipped, p.counter);
    } else if InReach(e.ladder, st, p.counter) {
      ChainComposes(e.ladder, root, st.highest, p.counter - 1 - st.highest);
    }
  }

  ghost predicate History<K>(st: State<K>, accepted: set<nat>)
  {
    Settled(st.skipped, st.highest, accepted) && UpTo(accepted, st.highest)
  }

  lemma AheadHistory<K>(l: Ladder<K>, st: State<K>, n: nat, accepted: set<nat>, passed: Cache<K>, recv: K)
    requires History(st, accepted) && n > st.highest && passed == Passed(l, st, n)
    ensures History(st.(recv := recv, highest := n, skipped := passed), accepted + {n})
  {
    SkipSettled(l, st.recv, st.highest, n - 1 - st.highest, st.skipped, accepted);
    HigherSettled(passed, n - 1, accepted, n);
  }

  lemma AuthenticStep<K>(e: Engine<K>, root: K, st: State<K>, p: Packet, plain: Octets, accepted: set<nat>)
    requires Invariant(e.ladder, root, st) && History(st, accepted) && Authentic(e, root, p, plain)
    ensures var r := Decrypt(e, st, p);
      && (r.1.Accepted? ==> r.1.plain == plain && p.counter !in accepted)
      && History(r.0, accepted + (if r.1.Accepted? then {p.counter} else {}))
  {
    var n := p.counter;
    assert accepted + {} == accepted;
    AuthenticEffect(e, root, st, p, plain);
    if Lookup(st.skipped, n).Some? {
      SettledLookup(st.skipped, st.highest, accepted, n);
      RemoveSettled(st.skipped, st.highest, accepted, n);
    } else if InReach(e.ladder, st, n) {
      AheadHistory(e.ladder, st, n, accepted, Passed(e.ladder, st, n), ChainAt(e.ladder, root, n));
    }
  }

  // ---- every order, with loss and duplication ------------------------------

  function Fresh<K>(send: K, recv: K): (st: State<K>) { State(send, recv, 0, 0, Nil) }

  ghost predicate AllAuthentic<K>(e: Engine<K>, root: K, ps: seq<Packet>, msgs: map<nat, Octets>)
  {
    forall i :: 0 <= i < |ps| ==> ps[i].counter in msgs && Authentic(e, root, ps[i], msgs[ps[i].counter])
  }

  ghost function AcceptedBy(ps: seq<Packet>, os: seq<Outcome>): (r: set<nat>)
    requires |ps| == |os|
  {
    if |ps| == 0 then {} else
    var k := |ps| - 1;
    AcceptedBy(ps[..k], os[..k]) + (if os[k].Accepted? then {ps[k].counter} else {})
  }

  lemma {:induction false} AcceptedMember(ps: seq<Packet>, os: seq<Outcome>, i: nat)
    requires |ps| == |os| && i < |ps| && os[i].Accepted?
    ensures ps[i].counter in AcceptedBy(ps, os)
  {
    var k := |ps| - 1;
    if i < k {
      AcceptedMember(ps[..k], os[..k], i);
    }
  }

  lemma {:induction false} AuthenticRun<K>(e: Engine<K>, root: K, send: K, ps: seq<Packet>, msgs: map<nat, Octets>)
    requires AllAuthentic(e, root, ps, msgs)
    ensures var r := DecryptAll(e, Fresh(send, root), ps);
            Invariant(e.ladder, root, r.0) && History(r.0, AcceptedBy(ps, r.1))
  {
    if |ps| != 0 {
      var k := |ps| - 1;
      AuthenticRun(e, root, send, ps[..k], msgs);
      var mid := DecryptAll(e, Fresh(send, root), ps[..k]);
      DecryptKeepsInvariant(e, root, mid.0, ps[k]);
      AuthenticStep(e, root, mid.0, ps[k], msgs[ps[k].counter], AcceptedBy(ps[..k], mid.1));
      var o := Decrypt(e, mid.0, ps[k]).1;
      assert (mid.1 + [o])[..k] == mid.1;
      assert AcceptedBy(ps, mid.1 + [o]) == AcceptedBy(ps[..k], mid.1) + (if o.Accepted? then {ps[k].counter} else {});
    }
  }

  /** The outcome of the i-th delivery depends only on the deliveries up to it. */
  lemma {:induction false} OutcomeAt<K>(e: Engine<K>, st: State<K>, ps: seq<Packet>, i: nat)
    requires i < |ps|
    ensures DecryptAll(e, st, ps).1[i] == Decrypt(e, DecryptAll(e, st, ps[..i]).0, ps[i]).1
    ensures DecryptAll(e, st, ps).1[..i] == DecryptAll(e, st, ps[..i]).1
  {
    var k := |ps| - 1;
    if i < k {
      OutcomeAt(e, st, ps[..k], i);
      assert ps[..k][..i] == ps[..i];
    }
  }

  /**
    * Authentic packets delivered in any order, with any losses and duplicates: each accepted one yields the
    * plaintext it was made from, and no counter is accepted twice.
    */
  lemma AcceptedOnceWithOriginalText<K>(e: Engine<K>, root: K, send: K, ps: seq<Packet>, msgs: map<nat, Octets>)
    requires AllAuthentic(e, root, ps, msgs)
    ensures var os := DecryptAll(e, Fresh(send, root), ps).1;
      && (forall i :: 0 <= i < |ps| && os[i].Accepted? ==> os[i].plain == msgs[ps[i].counter])
      && (forall i, j :: 0 <= i < j < |ps| && os[i].Accepted? && os[j].Accepted? ==> ps[i].counter != ps[j].counter)
  {
    var os := DecryptAll(e, Fresh(send, root), ps).1;
    forall j | 0 <= j < |ps| && os[j].Accepted?
      ensures os[j].plain == msgs[ps[j].counter]
      ensures forall i :: 0 <= i < j && os[i].Accepted? ==> ps[i].counter != ps[j].counter
    {
      AcceptedOnceAt(e, root, send, ps, msgs, j);
    }
  }

  lemma AcceptedOnceAt<K>(e: Engine<K>, root: K, send: K, ps: seq<Packet>, msgs: map<nat, Octets>, j: nat)
    requires AllAuthentic(e, root, ps, msgs) && j < |ps|
    requires DecryptAll(e, Fresh(send, root), ps).1[j].Accepted?
    ensures var os := DecryptAll(e, Fresh(send, root), ps).1;
      && os[j].plain == msgs[ps[j].counter]
      && forall i :: 0 <= i < j && os[i].Accepted? ==> ps[i].counter != ps[j].counter
  {
    var os := DecryptAll(e, Fresh(send, root), ps).1;
    var before := DecryptAll(e, Fresh(send, root), ps[..j]);
    OutcomeAt(e, Fresh(send, root), ps, j);
    AuthenticRun(e, root, send, ps[..j], msgs);
    AuthenticStep(e, root, before.0, ps[j], msgs[ps[j].counter], AcceptedBy(ps[..j], before.1));
    forall i | 0 <= i < j && os[i].Accepted?
      ensures ps[i].counter != ps[j].counter
    {
      assert os[i] == os[..j][i];
      AcceptedMember(ps[..j], before.1, i);
    }
  }

  // ---- no loss inside the window -------------------------------------------

  function Delivered(ps: seq<Packet>): (r: set<nat>)
  {
    if |ps| == 0 then {} else Delivered(ps[..|ps| - 1]) + {ps[|ps| - 1].counter}
  }

  function Highest(ps: seq<Packet>): (h: nat)
  {
    if |ps| == 0 then 0 else
    var h, n := Highest(ps[..|ps| - 1]), ps[|ps| - 1].counter;
    if n > h then n else h
  }

  /** The counters lo, lo+1, ..., hi-1. */
  function Span(lo: nat, hi: nat): (r: set<nat>)
    requires lo <= hi
    ensures forall n :: n in r <==> lo <= n < hi
    decreases hi
  {
    if lo == hi then {} else Span(lo, hi - 1) + {hi - 1}
  }

  /** The counters up to the highest delivered one that have not been delivered. */
  function Missing(ps: seq<Packet>): (r: set<nat>)
  {
    Span(1, Highest(ps) + 1) - Delivered(ps)
  }

  ghost predicate WithinWindow(ps: seq<Packet>, limit: nat)
  {
    |ps| == 0 || (WithinWindow(ps[..|ps| - 1], limit) && |Missing(ps)| <= limit)
  }

  function Counters<K>(c: Cache<K>): (r: set<nat>)
    ensures forall n :: n in r <==> n >= 0 && Lookup(c, n).Some?
  {
    match c case Nil => {} case Entry(n, _, older) => Counters(older) + {n}
  }

  lemma {:induction false} SizeIsCardinality<K>(c: Cache<K>, highest: nat, accepted: set<nat>)
    requires Settled(c, highest, accepted)
    ensures |Counters(c)| == Size(c)
  {
    if c.Entry? {
      SizeIsCardinality(c.older, highest, accepted);
    }
  }

  lemma CacheWithRoom<K>(c: Cache<K>, n: nat, k: K, limit: nat)
    requires Lookup(c, n).None? && Size(c) < limit
    ensures CacheSkipped(c, n, k, limit) == Entry(n, k, c)
  {}

  /** The next counter is not cached yet, so its key is added in front. */
  lemma NextWithRoom<K>(c: Cache<K>, at: nat, k: K, accepted: set<nat>, limit: nat)
    requires Settled(c, at, accepted) && UpTo(accepted, at) && Size(c) < limit
    ensures CacheSkipped(c, at + 1, k, limit) == Entry(at + 1, k, c)
  {
    HigherSettled(c, at, accepted, at + 1);
    CacheWithRoom(c, at + 1, k, limit);
  }

  lemma {:induction false} SkipWithRoom<K>(l: Ladder<K>, chain: K, at: nat, n: nat, c: Cache<K>, accepted: set<nat>)
    requires Settled(c, at, accepted) && UpTo(accepted, at) && Size(c) + n <= l.maxSkipped
    ensures Size(SkipOver(l, chain, at, n, c)) == Size(c) + n
    ensures n == 0 || SkipOver(l, chain, at, n, c)
      == Entry(at + n, l.derive(ChainAt(l, chain, n - 1)).message, SkipOver(l, chain, at, n - 1, c))
  {
    if n != 0 {
      SkipWithRoom(l, chain, at, n - 1, c, accepted);
      SkipSettled(l, chain, at, n - 1, c, accepted);
      var prev, key := SkipOver(l, chain, at, n - 1, c), l.derive(ChainAt(l, chain, n - 1)).message;
      NextWithRoom(prev, at + n - 1, key, accepted, l.maxSkipped);
    }
  }

  lemma {:induction false} SkipWithoutEviction<K>(l: Ladder<K>, chain: K, at: nat, n: nat, c: Cache<K>, accepted: set<nat>)
    requires Settled(c, at, accepted) && UpTo(accepted, at) && Size(c) + n <= l.maxSkipped
    ensures Counters(SkipOver(l, chain, at, n, c)) == Counters(c) + Span(at + 1, at + n + 1)
  {
    if n == 0 {
      assert Counters(c) + {} == Counters(c);
    } else {
      SkipWithoutEviction(l, chain, at, n - 1, c, accepted);
      SkipWithRoom(l, chain, at, n, c, accepted);
      OneMore(c, SkipOver(l, chain, at, n - 1, c), at, n, l.derive(ChainAt(l, chain, n - 1)).message);
    }
  }

  lemma OneMore<K>(c: Cache<K>, prev: Cache<K>, at: nat, n: nat, k: K)
    requires n >= 1 && Counters(prev) == Counters(c) + Span(at + 1, at + n)
    ensures Counters(Entry(at + n, k, prev)) == Counters(c) + Span(at + 1, at + n + 1)
  {}

  /** The receiver's cache is exactly the missing counters, and its highest counter the highest delivered. */
  ghost predicate Exact<K>(st: State<K>, ps: seq<Packet>)
  {
    History(st, Delivered(ps)) && st.highest == Highest(ps) && Counters(st.skipped) == Missing(ps)
  }

  /** Inside the window a delivery is accepted exactly when it is the first of its counter. */
  lemma WindowStep<K>(e: Engine<K>, root: K, st: State<K>, ps: seq<Packet>, plain: Octets)
    requires |ps| > 0 && |Missing(ps)| <= e.ladder.maxSkipped
    requires Invariant(e.ladder, root, st) && Exact(st, ps[..|ps| - 1])
    requires Authentic(e, root, ps[|ps| - 1], plain)
    ensures var r := Decrypt(e, st, ps[|ps| - 1]);
      && Exact(r.0, ps)
      && (r.1.Accepted? <==> ps[|ps| - 1].counter !in Delivered(ps[..|ps| - 1]))
  {
    var n := ps[|ps| - 1].counter;
    AuthenticEffect(e, root, st, ps[|ps| - 1], plain);
    if n in Delivered(ps[..|ps| - 1]) {
      AgainExact(st, ps);
    } else if n <= st.highest {
      LateExact(st, ps);
    } else {
      AheadExact(e.ladder, st, ps, ChainAt(e.ladder, root, n));
    }
  }

  lemma AgainExact<K>(st: State<K>, ps: seq<Packet>)
    requires |ps| > 0 && Exact(st, ps[..|ps| - 1]) && ps[|ps| - 1].counter in Delivered(ps[..|ps| - 1])
    ensures Lookup(st.skipped, ps[|ps| - 1].counter).None? && ps[|ps| - 1].counter <= st.highest
    ensures Exact(st, ps)
  {
    assert ps[|ps| - 1].counter !in Missing(ps[..|ps| - 1]);
    assert Delivered(ps) == Delivered(ps[..|ps| - 1]);
  }

  lemma LateExact<K>(st: State<K>, ps: seq<Packet>)
    requires |ps| > 0 && Exact(st, ps[..|ps| - 1])
    requires ps[|ps| - 1].counter !in Delivered(ps[..|ps| - 1]) && 1 <= ps[|ps| - 1].counter <= st.highest
    ensures Lookup(st.skipped, ps[|ps| - 1].counter).Some?
    ensures Exact(st.(skipped := Remove(st.skipped, ps[|ps| - 1].counter)), ps)
  {
    var n := ps[|ps| - 1].counter;
    assert n in Missing(ps[..|ps| - 1]);
    LookupRemoved(st.skipped, n);
    RemoveSettled(st.skipped, st.highest, Delivered(ps[..|ps| - 1]), n);
    assert Missing(ps) == Missing(ps[..|ps| - 1]) - {n};
  }

  lemma AheadExact<K>(l: Ladder<K>, st: State<K>, ps: seq<Packet>, recv: K)
    requires |ps| > 0 && Exact(st, ps[..|ps| - 1]) && |Missing(ps)| <= l.maxSkipped
    requires ps[|ps| - 1].counter > st.highest
    ensures Lookup(st.skipped, ps[|ps| - 1].counter).None? && InReach(l, st, ps[|ps| - 1].counter)
    ensures var n := ps[|ps| - 1].counter;
            Exact(st.(recv := recv, highest := n, skipped := Passed(l, st, n)), ps)
  {
    var n, accepted := ps[|ps| - 1].counter, Delivered(ps[..|ps| - 1]);
    HigherSettled(st.skipped, st.highest, accepted, n);
    RoomAhead(st, ps);
    AheadPassed(l, st, n, accepted, Missing(ps), recv);
  }

  lemma AheadPassed<K>(l: Ladder<K>, st: State<K>, n: nat, accepted: set<nat>, missing: set<nat>, recv: K)
    requires History(st, accepted) && n > st.highest && Size(st.skipped) + n - 1 - st.highest <= l.maxSkipped
    requires missing == Counters(st.skipped) + Span(st.highest + 1, n)
    ensures InReach(l, st, n) && Counters(Passed(l, st, n)) == missing
    ensures History(st.(recv := recv, highest := n, skipped := Passed(l, st, n)), accepted + {n})
  {
    PassedCounters(l, st, n, accepted, missing);
    AheadHistory(l, st, n, accepted, Passed(l, st, n), recv);
  }

  lemma LookupRemoved<K>(c: Cache<K>, n: nat)
    ensures Counters(Remove(c, n)) == Counters(c) - {n}
  {
    forall m: nat
      ensures Lookup(Remove(c, n), m) == if m == n then None else Lookup(c, m)
    {
      LookupAfterRemove(c, n, m);
    }
  }

  lemma RoomAhead<K>(st: State<K>, ps: seq<Packet>)
    requires |ps| > 0 && Exact(st, ps[..|ps| - 1]) && ps[|ps| - 1].counter > st.highest
    ensures Size(st.skipped) + ps[|ps| - 1].counter - 1 - st.highest == |Missing(ps)|
    ensures Missing(ps) == Counters(st.skipped) + Span(st.highest + 1, ps[|ps| - 1].counter)
  {
    var before := ps[..|ps| - 1];
    LastAhead(ps);
    GapAt(before, st.highest, Delivered(before), ps, ps[|ps| - 1].counter);
    SizeIsCardinality(st.skipped, st.highest, Delivered(before));
  }

  lemma SkippedAhead<K>(l: Ladder<K>, chain: K, at: nat, n: nat, c: Cache<K>, accepted: set<nat>)
    requires n > at && Settled(c, at, accepted) && UpTo(accepted, at) && Size(c) + n - 1 - at <= l.maxSkipped
    ensures Counters(SkipOver(l, chain, at, n - 1 - at, c)) == Counters(c) + Span(at + 1, n)
  {
    SkipWithoutEviction(l, chain, at, n - 1 - at, c, accepted);
  }

  lemma PassedCounters<K>(l: Ladder<K>, st: State<K>, n: nat, accepted: set<nat>, missing: set<nat>)
    requires History(st, accepted) && n > st.highest && Size(st.skipped) + n - 1 - st.highest <= l.maxSkipped
    requires missing == Counters(st.skipped) + Span(st.highest + 1, n)
    ensures InReach(l, st, n) && Counters(Passed(l, st, n)) == missing
  {
    SkippedAhead(l, st.recv, st.highest, n, st.skipped, accepted);
  }

  lemma GapSets(h: nat, n: nat, d: set<nat>)
    requires UpTo(d, h) && h < n
    ensures Span(1, n + 1) - (d + {n}) == (Span(1, h + 1) - d) + Span(h + 1, n)
    ensures (Span(1, h + 1) - d) !! Span(h + 1, n)
  {}

  lemma GapSize(h: nat, n: nat, d: set<nat>)
    requires UpTo(d, h) && h < n
    ensures |Span(1, n + 1) - (d + {n})| == |Span(1, h + 1) - d| + n - 1 - h
  {
    GapSets(h, n, d);
    SpanSize(h + 1, n);
    DisjointSize(Span(1, h + 1) - d, Span(h + 1, n));
  }

  /** What a delivery ahead of the highest does to the two summaries of a run. */
  lemma LastAhead(ps: seq<Packet>)
    requires |ps| > 0 && ps[|ps| - 1].counter > Highest(ps[..|ps| - 1])
    ensures Highest(ps) == ps[|ps| - 1].counter
    ensures Delivered(ps) == Delivered(ps[..|ps| - 1]) + {ps[|ps| - 1].counter}
  {}

  /** A delivery ahead of the highest makes exactly the counters in between missing. */
  lemma GapAt(before: seq<Packet>, h: nat, d: set<nat>, ps: seq<Packet>, n: nat)
    requires Highest(before) == h && Delivered(before) == d && UpTo(d, h) && h < n
    requires Highest(ps) == n && Delivered(ps) == d + {n}
    ensures Missing(ps) == Missing(before) + Span(h + 1, n) && |Missing(ps)| == |Missing(before)| + n - 1 - h
  {
    GapSets(h, n, d);
    GapSize(h, n, d);
  }

  lemma DisjointSize(a: set<nat>, b: set<nat>)
    requires a !! b
    ensures |a + b| == |a| + |b|
  {}

  lemma AddedSize(a: set<nat>, x: nat)
    requires x !in a
    ensures |a + {x}| == |a| + 1
  {}

  lemma {:induction false} SpanSize(lo: nat, hi: nat)
    requires lo <= hi
    ensures |Span(lo, hi)| == hi - lo
    decreases hi
  {
    if lo < hi {
      SpanSize(lo, hi - 1);
      AddedSize(Span(lo, hi - 1), hi - 1);
    }
  }

  lemma {:induction false} WindowRun<K>(e: Engine<K>, root: K, send: K, ps: seq<Packet>, msgs: map<nat, Octets>)
    requires AllAuthentic(e, root, ps, msgs) && WithinWindow(ps, e.ladder.maxSkipped)
    ensures var r := DecryptAll(e, Fresh(send, root), ps);
            Invariant(e.ladder, root, r.0) && Exact(r.0, ps)
  {
    if |ps| != 0 {
      var k := |ps| - 1;
      WindowRun(e, root, send, ps[..k], msgs);
      var mid := DecryptAll(e, Fresh(send, root), ps[..k]).0;
      DecryptKeepsInvariant(e, root, mid, ps[k]);
      WindowStep(e, root, mid, ps, msgs[ps[k].counter]);
    }
  }

  lemma {:induction false} WindowPrefix(ps: seq<Packet>, limit: nat, i: nat)
    requires WithinWindow(ps, limit) && i <= |ps|
    ensures WithinWindow(ps[..i], limit)
  {
    if i == |ps| {
      assert ps[..i] == ps;
    } else {
      WindowPrefix(ps[..|ps| - 1], limit, i);
      assert ps[..|ps| - 1][..i] == ps[..i];
    }
  }

  /**
    * As long as no more than maxSkippedMessageKeys counters are outstanding at any time, every first delivery of a
    * counter is accepted, and every repetition is refused.
    */
  lemma NoLossWithinWindow<K>(e: Engine<K>, root: K, send: K, ps: seq<Packet>, msgs: map<nat, Octets>, i: nat)
    requires AllAuthentic(e, root, ps, msgs) && WithinWindow(ps, e.ladder.maxSkipped) && i < |ps|
    ensures DecryptAll(e, Fresh(send, root), ps).1[i].Accepted? <==> ps[i].counter !in Delivered(ps[..i])
  {
    var upto := ps[..i + 1];
    assert upto[..i] == ps[..i] && upto[i] == ps[i];
    WindowPrefix(ps, e.ladder.maxSkipped, i + 1);
    WindowPrefix(ps, e.ladder.maxSkipped, i);
    WindowRun(e, root, send, ps[..i], msgs);
    WindowStep(e, root, DecryptAll(e, Fresh(send, root), ps[..i]).0, upto, msgs[ps[i].counter]);
    OutcomeAt(e, Fresh(send, root), ps, i);
  }

  // ---- after a rejected frame ----------------------------------------------

  /** A counter that is behind the highest and has no cached key: no packet can be accepted under it any more. */
  ghost predicate Spent<K>(st: State<K>, n: nat) { n <= st.highest && Lookup(st.skipped, n).None? }

  lemma SkipKeepsSpent<K>(l: Ladder<K>, st: State<K>, m: nat, n: nat)
    requires Spent(st, n) && m > st.highest
    ensures Lookup(Passed(l, st, m), n).None?
  {
    SkipKeepsAbsentBelow(l, st.recv, st.highest, m - 1 - st.highest, st.skipped, n);
  }

  lemma {:induction false} SkipKeepsAbsentBelow<K>(l: Ladder<K>, chain: K, at: nat, n: nat, c: Cache<K>, m: nat)
    requires Lookup(c, m).None? && m <= at
    ensures Lookup(SkipOver(l, chain, at, n, c), m).None?
  {
    if n != 0 {
      SkipKeepsAbsentBelow(l, chain, at, n - 1, c, m);
      CacheKeepsAbsent(SkipOver(l, chain, at, n - 1, c), at + n, l.derive(ChainAt(l, chain, n - 1)).message, l.maxSkipped, m);
    }
  }

  /** Whatever packet arrives, a spent counter stays spent, and a packet that carries it is refused. */
  lemma SpentStep<K>(e: Engine<K>, st: State<K>, p: Packet, n: nat)
    requires Spent(st, n)
    ensures Spent(Decrypt(e, st, p).0, n)
    ensures p.counter == n ==> Decrypt(e, st, p).1.Rejected?
  {
    LookupAfterRemove(st.skipped, p.counter, n);
    if p.counter > st.highest {
      SkipKeepsSpent(e.ladder, st, p.counter, n);
    }
  }

  lemma {:induction false} SpentRun<K>(e: Engine<K>, st: State<K>, ps: seq<Packet>, n: nat)
    requires Spent(st, n)
    ensures Spent(DecryptAll(e, st, ps).0, n)
  {
    if |ps| != 0 {
      SpentRun(e, st, ps[..|ps| - 1], n);
      SpentStep(e, DecryptAll(e, st, ps[..|ps| - 1]).0, ps[|ps| - 1], n);
    }
  }

  /** In this continuation every packet that carries the counter is refused. */
  ghost predicate RefusedThroughout<K>(e: Engine<K>, st: State<K>, after: seq<Packet>, n: nat)
  {
    forall i :: 0 <= i < |after| && after[i].counter == n ==> DecryptAll(e, st, after).1[i].Rejected?
  }

  lemma SpentIsRefused<K>(e: Engine<K>, st: State<K>, after: seq<Packet>, n: nat)
    requires Spent(st, n)
    ensures RefusedThroughout(e, st, after, n)
  {
    forall i | 0 <= i < |after| && after[i].counter == n
      ensures DecryptAll(e, st, after).1[i].Rejected?
    {
      OutcomeAt(e, st, after, i);
      SpentRun(e, st, after[..i], n);
      SpentStep(e, DecryptAll(e, st, after[..i]).0, after[i], n);
    }
  }

  predicate CachedAhead<K>(st: State<K>, n: nat) { Lookup(st.skipped, n).Some? && n > st.highest }

  /** Accepting a packet spends its counter exactly when its key was not cached ahead of the highest counter. */
  lemma AcceptanceSpendsIff<K>(e: Engine<K>, root: K, st: State<K>, p: Packet, plain: Octets)
    requires Invariant(e.ladder, root, st) && Authentic(e, root, p, plain) && Decrypt(e, st, p).1.Accepted?
    ensures Spent(Decrypt(e, st, p).0, p.counter) <==> !CachedAhead(st, p.counter)
  {
    AuthenticEffect(e, root, st, p, plain);
    if Lookup(st.skipped, p.counter).Some? {
      LookupAfterRemove(st.skipped, p.counter, p.counter);
    } else {
      SkipKeepsAbsent(e.ladder, st.recv, st.highest, p.counter - 1 - st.highest, st.skipped, p.counter);
    }
  }

  lemma RepeatAccepted<K>(e: Engine<K>, root: K, st: State<K>, p: Packet, plain: Octets)
    requires Invariant(e.ladder, root, st) && Authentic(e, root, p, plain) && CachedAhead(st, p.counter)
    ensures DecryptAll(e, Decrypt(e, st, p).0, [p]).1 == [Accepted(plain)]
  {
    var n, st' := p.counter, Decrypt(e, st, p).0;
    AuthenticEffect(e, root, st, p, plain);
    DecryptKeepsInvariant(e, root, st, p);
    LookupAfterRemove(st.skipped, n, n);
    TrueLookup(e.ladder, root, st.highest + e.ladder.maxSkipped, st.skipped, n);
    AuthenticEffect(e, root, st', p, plain);
    assert [p][..0] == [];
  }

  /**
    * Once an authentic packet has been accepted, every packet with its counter is refused in every continuation, forged
    * and authentic packets in any number and order, if and only if its key had not been cached ahead of the highest
    * counter, which only a frame that failed authentication can bring about.
    */
  lemma AcceptedNeverAgainIff<K>(e: Engine<K>, root: K, st: State<K>, p: Packet, plain: Octets)
    requires Invariant(e.ladder, root, st) && Authentic(e, root, p, plain) && Decrypt(e, st, p).1.Accepted?
    ensures (forall after :: RefusedThroughout(e, Decrypt(e, st, p).0, after, p.counter)) <==> !CachedAhead(st, p.counter)
  {
    var st' := Decrypt(e, st, p).0;
    AcceptanceSpendsIff(e, root, st, p, plain);
    if CachedAhead(st, p.counter) {
      RepeatAccepted(e, root, st, p, plain);
      assert !RefusedThroughout(e, st', [p], p.counter);
    } else {
      forall after
        ensures RefusedThroughout(e, st', after, p.counter)
      {
        SpentIsRefused(e, st', after, p.counter);
      }
    }
  }

  /** The condition is reachable: after a rejected frame 2, the authentic frame 1 is accepted twice. */
  lemma AcceptedTwiceAfterRejection<K>(e: Engine<K>, root: K, send: K, f: Packet, p: Packet, plain: Octets)
    requires e.ladder.maxSkipped >= 1 && Authentic(e, root, p, plain) && p.counter == 1
    requires f.counter == 2 && |f.nonce| == NONCE_BYTES && e.unlock(KeyAt(e.ladder, root, 2), f) == Rejected(BadTag)
    ensures DecryptAll(e, Fresh(send, root), [f, p, p]).1 == [Rejected(BadTag), Accepted(plain), Accepted(plain)]
  {
    var s0 := Fresh(send, root);
    assert Invariant(e.ladder, root, s0);
    var s1 := Decrypt(e, s0, f).0;
    RejectedSkip(e, root, s0, f);
    DecryptKeepsInvariant(e, root, s0, f);
    AuthenticEffect(e, root, s1, p, plain);
    DecryptKeepsInvariant(e, root, s1, p);
    AuthenticEffect(e, root, Decrypt(e, s1, p).0, p, plain);
    ThreeDeliveries(e, s0, f, p, p);
  }

  lemma RejectedSkip<K>(e: Engine<K>, root: K, s0: State<K>, f: Packet)
    requires e.ladder.maxSkipped >= 1 && s0 == Fresh(s0.send, root)
    requires f.counter == 2 && |f.nonce| == NONCE_BYTES && e.unlock(KeyAt(e.ladder, root, 2), f) == Rejected(BadTag)
    ensures Decrypt(e, s0, f) == (s0.(skipped := Entry(1, KeyAt(e.ladder, root, 1), Nil)), Rejected(BadTag))
  {
    CacheWithRoom(Nil, 1, KeyAt(e.ladder, root, 1), e.ladder.maxSkipped);
    assert SkipOver(e.ladder, root, 0, 0, Nil) == Nil;
    assert SkipOver(e.ladder, root, 0, 1, Nil) == Entry(1, KeyAt(e.ladder, root, 1), Nil);
  }

  lemma ThreeDeliveries<K>(e: Engine<K>, st: State<K>, x: Packet, y: Packet, z: Packet)
    ensures var a := Decrypt(e, st, x); var b := Decrypt(e, a.0, y); var d := Decrypt(e, b.0, z);
            DecryptAll(e, st, [x, y, z]).1 == [a.1, b.1, d.1]
  {
    var ps := [x, y, z];
    assert ps[..0] == [];
    assert ps[..1] == [x] && [x][..0] == [];
    assert ps[..2] == [x, y] && [x, y][..1] == [x];
    OutcomeAt(e, st, ps, 0);
    OutcomeAt(e, st, ps, 1);
    OutcomeAt(e, st, ps, 2);
  }

  lemma {:induction false} SkipKeepsAbsent<K>(l: Ladder<K>, chain: K, at: nat, n: nat, c: Cache<K>, m: nat)
    requires Lookup(c, m).None? && m > at + n
    ensures Lookup(SkipOver(l, chain, at, n, c), m).None?
  {
    if n != 0 {
      SkipKeepsAbsent(l, chain, at, n - 1, c, m);
      CacheKeepsAbsent(SkipOver(l, chain, at, n - 1, c), at + n, l.derive(ChainAt(l, chain, n - 1)).message, l.maxSkipped, m);
    }
  }

  lemma CacheKeepsAbsent<K>(c: Cache<K>, n: nat, k: K, limit: nat, m: nat)
    requires Lookup(c, m).None? && m != n
    ensures Lookup(CacheSkipped(c, n, k, limit), m).None?
  {
    OverwriteKeepsAbsent(c, n, k, m);
    TrimKeepsAbsent(if Lookup(c, n).Some? then Overwrite(c, n, k) else Entry(n, k, c), limit, m);
  }

  lemma {:induction false} OverwriteKeepsAbsent<K>(c: Cache<K>, n: nat, k: K, m: nat)
    requires Lookup(c, m).None? && m != n
    ensures Lookup(Overwrite(c, n, k), m).None?
  {
    if c.Entry? {
      OverwriteKeepsAbsent(c.older, n, k, m);
    }
  }

  lemma {:induction false} TrimKeepsAbsent<K>(c: Cache<K>, limit: nat, m: nat)
    requires Lookup(c, m).None?
    ensures Lookup(Trim(c, limit), m).None?
    decreases Size(c)
  {
    if Size(c) > limit {
      DropOldestSize(c);
      DropKeepsAbsent(c, m);
      TrimKeepsAbsent(DropOldest(c), limit, m);
    }
  }

  lemma {:induction false} DropKeepsAbsent<K>(c: Cache<K>, m: nat)
    requires Lookup(c, m).None?
    ensures Lookup(DropOldest(c), m).None?
  {
    if c.Entry? {
      DropKeepsAbsent(c.older, m);
    }
  }
}
