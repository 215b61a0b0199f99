/** The outbox: four first-in-first-out lanes under per-lane and global limits, drained by priority. */
module Scheduler {
  import opened Bytes
  import opened Envelope
  import opened Profiles
  import opened LaneQueues

  const EMPTY: Lanes<Octets> := NoPackets()

  function Load(q: seq<Octets>): (n: nat)
  {
    if |q| == 0 then 0 else |q[0]| + Load(q[1..])
  }

  function TotalLoad(l: Lanes<Octets>): (n: nat) { Load(l.control) + Load(l.voice) + Load(l.text) + Load(l.file) }

  /** A packet of this size still fits behind `q`, the other lanes holding so many packets and bytes. */
  predicate Fits(p: Profile, lane: Lane, q: seq<Octets>, others: nat, load: nat, size: nat)
  {
    var b := p.Budget(lane);
    |q| < b.maxPackets && Load(q) + size <= b.maxBytes && others + |q| < p.outboxPackets && load + Load(q) + size <= p.outboxBytes
  }

  /** Evicts from the front of a drop-oldest lane until the packet fits or the lane is empty. */
  function Evict(p: Profile, lane: Lane, q: seq<Octets>, others: nat, load: nat, size: nat): (a: Admission)
    ensures a.dropped <= |q|
  {
    if Fits(p, lane, q, others, load, size) then Admission(true, 0)
    else if !p.Budget(lane).dropOldest || |q| == 0 then Admission(false, 0)
    else
      var a := Evict(p, lane, q[1..], others, load, size);
      Admission(a.ok, a.dropped + 1)
  }

  /** The least number of packets is evicted; if nothing makes room, a drop-oldest lane has lost all it held. */
  lemma {:induction false} EvictsLeast(p: Profile, lane: Lane, q: seq<Octets>, others: nat, load: nat, size: nat)
    ensures var a := Evict(p, lane, q, others, load, size);
      && (a.ok ==> Fits(p, lane, q[a.dropped..], others, load, size))
      && (forall k :: 0 <= k < a.dropped ==> !Fits(p, lane, q[k..], others, load, size))
      && (!a.ok ==> !Fits(p, lane, q[a.dropped..], others, load, size))
      && (!a.ok ==> a.dropped == if p.Budget(lane).dropOldest then |q| else 0)
      && (a.dropped > 0 ==> p.Budget(lane).dropOldest)
  {
    assert q[0..] == q;
    if !Fits(p, lane, q, others, load, size) && p.Budget(lane).dropOldest && |q| > 0 {
      EvictsLeast(p, lane, q[1..], others, load, size);
      var a := Evict(p, lane, q, others, load, size);
      assert q[1..][a.dropped - 1..] == q[a.dropped..];
      forall k | 0 <= k < a.dropped
        ensures !Fits(p, lane, q[k..], others, load, size)
      {
        if k > 0 {
          assert q[1..][k - 1..] == q[k..];
        }
      }
    }
  }

  function Others(l: Lanes<Octets>, lane: Lane): (n: nat) { Packets(l) - |l.Get(lane)| }
  function OtherLoad(l: Lanes<Octets>, lane: Lane): (n: nat) { TotalLoad(l) - Load(l.Get(lane)) }

  function Admit(p: Profile, l: Lanes<Octets>, lane: Lane, x: Octets): (a: Admission)
    ensures a.dropped <= |l.Get(lane)|
  {
    if |x| > p.maxFrame then Admission(false, 0)
    else Evict(p, lane, l.Get(lane), Others(l, lane), OtherLoad(l, lane), |x|)
  }

  predicate Ready(l: Lanes<Octets>, lane: Lane) { |l.Get(lane)| > 0 }

  /** The better of two lanes; the first named wins a tie, as a stable sort leaves it. */
  function Better(p: Profile, l: Lanes<Octets>, a: Option<Lane>, b: Lane): (r: Option<Lane>)
  {
    if !Ready(l, b) then a
    else if a.None? || p.Budget(b).priority > p.Budget(a.value).priority then Some(b) else a
  }

  function Best(p: Profile, l: Lanes<Octets>): (r: Option<Lane>)
  {
    Better(p, l, Better(p, l, Better(p, l, Better(p, l, None, Control), Voice), Text), File)
  }

  /** The lane drained next is a non-empty one of the highest priority; there is none exactly when all are empty. */
  lemma BestIsHighest(p: Profile, l: Lanes<Octets>)
    ensures Best(p, l).None? <==> l == EMPTY
    ensures Best(p, l).Some? ==>
      && Ready(l, Best(p, l).value)
      && forall lane :: Ready(l, lane) ==> p.Budget(lane).priority <= p.Budget(Best(p, l).value).priority
  {}

  // ---- runs ----------------------------------------------------------------

  datatype Event = Offer(lane: Lane, packet: Octets) | Take | ClearLane(lane: Lane) | ClearAll

  /** The queues, all packets ever accepted and all that have left, in order, and how they left. */
  datatype State = State(queued: Lanes<Octets>, entered: Lanes<Octets>, gone: Lanes<Octets>, delivered: nat, dropped: nat, cleared: nat)

  const START := State(EMPTY, EMPTY, EMPTY, 0, 0, 0)

  function Depart(s: State, lane: Lane, n: nat): (r: State)
    requires n <= |s.queued.Get(lane)|
  {
    var q := s.queued.Get(lane);
    s.(queued := s.queued.Set(lane, q[n..]), gone := s.gone.Set(lane, s.gone.Get(lane) + q[..n]))
  }

  function Clear(s: State, lane: Lane): (r: State)
  {
    var n := |s.queued.Get(lane)|;
    Depart(s, lane, n).(cleared := s.cleared + n)
  }

  function Enqueue(s: State, p: Profile, lane: Lane, x: Octets): (r: State)
  {
    var a := Admit(p, s.queued, lane, x);
    var t := Depart(s, lane, a.dropped).(dropped := s.dropped + a.dropped);
    if a.ok then Appended(t, lane, x) else t
  }

  function Next(s: State, p: Profile, e: Event): (r: State)
  {
    match e
    case Offer(lane, x) => Enqueue(s, p, lane, x)
    case Take =>
      (match Best(p, s.queued)
       case None => s
       case Some(lane) =>
         if Ready(s.queued, lane) then Depart(s, lane, 1).(delivered := s.delivered + 1) else s)
    case ClearLane(lane) => Clear(s, lane)
    case ClearAll => Clear(Clear(Clear(Clear(s, Control), Voice), Text), File)
  }

  function Run(s: State, p: Profile, es: seq<Event>): (r: State)
  {
    if |es| == 0 then s else Next(Run(s, p, es[..|es| - 1]), p, es[|es| - 1])
  }

  lemma {:induction false} LoadAppend(q: seq<Octets>, x: Octets)
    ensures Load(q + [x]) == Load(q) + |x|
  {
    if |q| == 0 {
      assert [x][1..] == [];
    } else {
      LoadAppend(q[1..], x);
      assert (q + [x])[1..] == q[1..] + [x];
    }
  }

  // ---- what every run keeps ------------------------------------------------

  /** In each lane, what entered is what has left followed by what is queued, in the same order. */
  ghost predicate Conserved(s: State)
  {
    InOrder(s, Control) && InOrder(s, Voice) && InOrder(s, Text) && InOrder(s, File)
  }

  predicate InOrder(s: State, lane: Lane) { s.entered.Get(lane) == s.gone.Get(lane) + s.queued.Get(lane) }

  ghost predicate Counted(s: State)
  {
    Packets(s.gone) == s.delivered + s.dropped + s.cleared
  }

  predicate LaneWithin(p: Profile, l: Lanes<Octets>, lane: Lane)
  {
    |l.Get(lane)| <= p.Budget(lane).maxPackets && Load(l.Get(lane)) <= p.Budget(lane).maxBytes
  }

  ghost predicate Within(p: Profile, l: Lanes<Octets>)
  {
    && Packets(l) <= p.outboxPackets && TotalLoad(l) <= p.outboxBytes
    && LaneWithin(p, l, Control) && LaneWithin(p, l, Voice) && LaneWithin(p, l, Text) && LaneWithin(p, l, File)
  }

  ghost predicate Invariant(s: State, p: Profile) { Conserved(s) && Counted(s) && Within(p, s.queued) }

  lemma {:induction false} LoadOfRest(q: seq<Octets>, n: nat)
    requires n <= |q|
    ensures Load(q[n..]) <= Load(q)
  {
    if n > 0 {
      LoadOfRest(q[1..], n - 1);
      assert q[1..][n - 1..] == q[n..];
    } else {
      assert q[n..] == q;
    }
  }

  lemma SetCounts(l: Lanes<Octets>, lane: Lane, q: seq<Octets>)
    ensures Packets(l.Set(lane, q)) == Packets(l) - |l.Get(lane)| + |q|
    ensures TotalLoad(l.Set(lane, q)) == TotalLoad(l) - Load(l.Get(lane)) + Load(q)
  {}

  lemma DepartOrder(s: State, lane: Lane, n: nat)
    requires Conserved(s) && n <= |s.queued.Get(lane)|
    ensures Conserved(Depart(s, lane, n))
  {
    var q := s.queued.Get(lane);
    assert s.gone.Get(lane) + q == s.gone.Get(lane) + q[..n] + q[n..];
  }

  lemma ShrinkWithin(p: Profile, l: Lanes<Octets>, lane: Lane, q: seq<Octets>)
    requires Within(p, l) && |q| <= |l.Get(lane)| && Load(q) <= Load(l.Get(lane))
    ensures Within(p, l.Set(lane, q))
  {}

  lemma DepartKeeps(s: State, p: Profile, lane: Lane, n: nat)
    requires Conserved(s) && Within(p, s.queued) && n <= |s.queued.Get(lane)|
    ensures var r := Depart(s, lane, n);
      Conserved(r) && Within(p, r.queued) && Packets(r.gone) == Packets(s.gone) + n
  {
    var q := s.queued.Get(lane);
    DepartOrder(s, lane, n);
    LoadOfRest(q, n);
    ShrinkWithin(p, s.queued, lane, q[n..]);
    SetCounts(s.gone, lane, s.gone.Get(lane) + q[..n]);
  }

  lemma ClearKeeps(s: State, p: Profile, lane: Lane)
    requires Invariant(s, p)
    ensures Invariant(Clear(s, lane), p)
  {
    DepartKeeps(s, p, lane, |s.queued.Get(lane)|);
  }

  lemma EnqueueKeeps(s: State, p: Profile, lane: Lane, x: Octets)
    requires Invariant(s, p)
    ensures Invariant(Enqueue(s, p, lane, x), p)
  {
    var a, q := Admit(p, s.queued, lane, x), s.queued.Get(lane);
    DepartKeeps(s, p, lane, a.dropped);
    if a.ok {
      EvictsLeast(p, lane, q, Others(s.queued, lane), OtherLoad(s.queued, lane), |x|);
      SetCounts(s.queued, lane, q[a.dropped..]);
      LoadAppend(q[a.dropped..], x);
      AppendKeeps(Depart(s, lane, a.dropped).(dropped := s.dropped + a.dropped), p, lane, x);
    }
  }

  function Appended(s: State, lane: Lane, x: Octets): (r: State)
  {
    s.(queued := s.queued.Set(lane, s.queued.Get(lane) + [x]), entered := s.entered.Set(lane, s.entered.Get(lane) + [x]))
  }

  lemma AppendOrder(s: State, lane: Lane, x: Octets)
    requires Conserved(s)
    ensures Conserved(Appended(s, lane, x))
  {
    assert s.gone.Get(lane) + (s.queued.Get(lane) + [x]) == s.gone.Get(lane) + s.queued.Get(lane) + [x];
  }

  lemma GrowWithin(p: Profile, l: Lanes<Octets>, lane: Lane, q: seq<Octets>)
    requires Within(p, l) && |q| <= p.Budget(lane).maxPackets && Load(q) <= p.Budget(lane).maxBytes
    requires Packets(l.Set(lane, q)) <= p.outboxPackets && TotalLoad(l.Set(lane, q)) <= p.outboxBytes
    ensures Within(p, l.Set(lane, q))
  {}

  lemma AppendKeeps(s: State, p: Profile, lane: Lane, x: Octets)
    requires Invariant(s, p)
    requires Fits(p, lane, s.queued.Get(lane), Others(s.queued, lane), OtherLoad(s.queued, lane), |x|)
    ensures Invariant(Appended(s, lane, x), p)
  {
    AppendOrder(s, lane, x);
    LoadAppend(s.queued.Get(lane), x);
    SetCounts(s.queued, lane, s.queued.Get(lane) + [x]);
    GrowWithin(p, s.queued, lane, s.queued.Get(lane) + [x]);
  }

  lemma NextKeeps(s: State, p: Profile, e: Event)
    requires Invariant(s, p)
    ensures Invariant(Next(s, p, e), p)
  {
    match e
    case Offer(lane, x) => EnqueueKeeps(s, p, lane, x);
    case Take =>
      if Best(p, s.queued).Some? && Ready(s.queued, Best(p, s.queued).value) {
        DepartKeeps(s, p, Best(p, s.queued).value, 1);
      }
    case ClearLane(lane) => ClearKeeps(s, p, lane);
    case ClearAll =>
      ClearKeeps(s, p, Control);
      ClearKeeps(Clear(s, Control), p, Voice);
      ClearKeeps(Clear(Clear(s, Control), Voice), p, Text);
      ClearKeeps(Clear(Clear(Clear(s, Control), Voice), Text), p, File);
  }

  lemma EmptyAt(p: Profile, lane: Lane)
    ensures InOrder(START, lane) && LaneWithin(p, EMPTY, lane) && Load(EMPTY.Get(lane)) == 0
  {
    var none: seq<Octets> := [];
    assert EMPTY.Get(lane) == none && none + none == none;
  }

  lemma StartKeeps(p: Profile)
    ensures Invariant(START, p)
  {
    EmptyAt(p, Control);
    EmptyAt(p, Voice);
    EmptyAt(p, Text);
    EmptyAt(p, File);
  }

  lemma {:induction false} RunKeeps(s: State, p: Profile, es: seq<Event>)
    requires Invariant(s, p)
    ensures Invariant(Run(s, p, es), p)
  {
    if |es| != 0 {
      RunKeeps(s, p, es[..|es| - 1]);
      NextKeeps(Run(s, p, es[..|es| - 1]), p, es[|es| - 1]);
    }
  }

  /**
    * In every run each lane is a first-in-first-out queue within its limits and the global ones, and the packets accepted
    * are those delivered, dropped, cleared and still queued.
    */
  lemma FourQueues(p: Profile, es: seq<Event>, lane: Lane)
    ensures var s := Run(START, p, es);
      && InOrder(s, lane) && Packets(s.entered) == s.delivered + s.dropped + s.cleared + Packets(s.queued)
      && LaneWithin(p, s.queued, lane) && Packets(s.queued) <= p.outboxPackets && TotalLoad(s.queued) <= p.outboxBytes
  {
    StartKeeps(p);
    RunKeeps(START, p, es);
    AtLane(Run(START, p, es), p, lane);
  }

  lemma AtLane(s: State, p: Profile, lane: Lane)
    requires Invariant(s, p)
    ensures InOrder(s, lane) && LaneWithin(p, s.queued, lane)
    ensures Packets(s.entered) == Packets(s.gone) + Packets(s.queued)
  {
    match lane case Control => case Voice => case Text => case File =>
  }

  /** A packet offered to one lane can push out packets of that lane only, and only if it drops its oldest. */
  lemma OnlyOwnLaneLoses(s: State, p: Profile, lane: Lane, x: Octets, other: Lane)
    ensures other != lane ==> Enqueue(s, p, lane, x).queued.Get(other) == s.queued.Get(other)
    ensures var a := Admit(p, s.queued, lane, x);
      && (a.dropped > 0 ==> p.Budget(lane).dropOldest)
      && Enqueue(s, p, lane, x).queued.Get(lane) == s.queued.Get(lane)[a.dropped..] + (if a.ok then [x] else [])
  {
    EvictsLeast(p, lane, s.queued.Get(lane), Others(s.queued, lane), OtherLoad(s.queued, lane), |x|);
  }
}
