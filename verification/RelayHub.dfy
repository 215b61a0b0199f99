/** The hub's count of connections per address, against the request handlers that hold a reservation. */
module RelayHub {
  import opened Bytes
  import opened Sequences

  /** How far a handler has come since its reservation; every way out releases it once. */
  datatype Phase = Reserved | Upgraded | Attached | Over
  datatype Handler = Handler(ip: string, phase: Phase)

  datatype Hub = Hub(counts: map<string, nat>, handlers: seq<Handler>)
  const START := Hub(map[], [])

  datatype Event =
    | Request(ip: string)
    | UpgradeEnds(h: nat, ok: bool) | AttachEnds(h: nat, ok: bool) | ReadLoopEnds(h: nat)

  function Count(m: map<string, nat>, ip: string): (n: nat) { if ip in m then m[ip] else 0 }

  function Reserve(m: map<string, nat>, ip: string, limit: nat): (r: Option<map<string, nat>>)
  {
    if limit > 0 && Count(m, ip) >= limit then None else Some(m[ip := Count(m, ip) + 1])
  }

  /** The empty address is never released. */
  function Release(m: map<string, nat>, ip: string): (r: map<string, nat>)
  {
    if ip == "" then m else if Count(m, ip) <= 1 then m - {ip} else m[ip := Count(m, ip) - 1]
  }

  function Move(s: Hub, h: nat, from: Phase, next: Phase): (r: Hub)
  {
    if h < |s.handlers| && s.handlers[h].phase == from && from != Over then
      var ip := s.handlers[h].ip;
      Hub(if next == Over then Release(s.counts, ip) else s.counts, s.handlers[h := Handler(ip, next)])
    else s
  }

  function Next(s: Hub, limit: nat, e: Event): (r: Hub)
  {
    match e
    case Request(ip) =>
      (match Reserve(s.counts, ip, limit)
       case None => s
       case Some(m) => Hub(m, s.handlers + [Handler(ip, Reserved)]))
    case UpgradeEnds(h, ok) => Move(s, h, Reserved, if ok then Upgraded else Over)
    case AttachEnds(h, ok) => Move(s, h, Upgraded, if ok then Attached else Over)
    case ReadLoopEnds(h) => Move(s, h, Attached, Over)
  }

  function Run(s: Hub, limit: nat, es: seq<Event>): (r: Hub)
  {
    if |es| == 0 then s else Next(Run(s, limit, es[..|es| - 1]), limit, es[|es| - 1])
  }

  /** Handlers of this address that have reserved and not released. */
  function Holders(hs: seq<Handler>, ip: string): (n: nat)
  {
    if |hs| == 0 then 0
    else Holders(hs[..|hs| - 1], ip) + One(hs[|hs| - 1].ip == ip && hs[|hs| - 1].phase != Over)
  }

  /** Handlers of this address that have ever reserved. */
  function Served(hs: seq<Handler>, ip: string): (n: nat)
  {
    if |hs| == 0 then 0 else Served(hs[..|hs| - 1], ip) + One(hs[|hs| - 1].ip == ip)
  }

  lemma {:induction false} HoldersUpdate(hs: seq<Handler>, h: nat, next: Phase, ip: string)
    requires h < |hs|
    ensures var r := hs[h := Handler(hs[h].ip, next)];
      && Holders(r, ip) == Holders(hs, ip) - One(hs[h].ip == ip && hs[h].phase != Over) + One(hs[h].ip == ip && next != Over)
      && Served(r, ip) == Served(hs, ip)
  {
    var k := |hs| - 1;
    var r := hs[h := Handler(hs[h].ip, next)];
    if h < k {
      HoldersUpdate(hs[..k], h, next, ip);
      assert r[..k] == hs[..k][h := Handler(hs[h].ip, next)];
    } else {
      assert r[..k] == hs[..k];
    }
  }

  lemma HoldersAppend(hs: seq<Handler>, x: Handler, ip: string)
    ensures Holders(hs + [x], ip) == Holders(hs, ip) + One(x.ip == ip && x.phase != Over)
    ensures Served(hs + [x], ip) == Served(hs, ip) + One(x.ip == ip)
  {
    assert (hs + [x])[..|hs|] == hs;
  }

  ghost predicate Exact(s: Hub, ip: string, limit: nat)
  {
    && Count(s.counts, ip) == (if ip == "" then Served(s.handlers, ip) else Holders(s.handlers, ip))
    && (limit > 0 ==> Count(s.counts, ip) <= limit)
  }

  lemma MoveExact(s: Hub, h: nat, from: Phase, next: Phase, ip: string, limit: nat)
    requires Exact(s, ip, limit) && next != Reserved
    ensures Exact(Move(s, h, from, next), ip, limit)
  {
    if h < |s.handlers| {
      HoldersUpdate(s.handlers, h, next, ip);
    }
  }

  lemma NextExact(s: Hub, limit: nat, e: Event, ip: string)
    requires Exact(s, ip, limit)
    ensures Exact(Next(s, limit, e), ip, limit)
  {
    match e
    case Request(x) => HoldersAppend(s.handlers, Handler(x, Reserved), ip);
    case UpgradeEnds(h, ok) => MoveExact(s, h, Reserved, if ok then Upgraded else Over, ip, limit);
    case AttachEnds(h, ok) => MoveExact(s, h, Upgraded, if ok then Attached else Over, ip, limit);
    case ReadLoopEnds(h) => MoveExact(s, h, Attached, Over, ip, limit);
  }

  lemma {:induction false} RunExact(limit: nat, es: seq<Event>, ip: string)
    ensures Exact(Run(START, limit, es), ip, limit)
  {
    if |es| != 0 {
      RunExact(limit, es[..|es| - 1], ip);
      NextExact(Run(START, limit, es[..|es| - 1]), limit, es[|es| - 1], ip);
    }
  }

  predicate NoneOver(hs: seq<Handler>, ip: string)
  {
    |hs| == 0 || (NoneOver(hs[..|hs| - 1], ip) && !(hs[|hs| - 1].ip == ip && hs[|hs| - 1].phase == Over))
  }

  lemma {:induction false} HoldersAmongServed(hs: seq<Handler>, ip: string)
    ensures Holders(hs, ip) <= Served(hs, ip)
    ensures Holders(hs, ip) == Served(hs, ip) <==> NoneOver(hs, ip)
  {
    if |hs| != 0 {
      HoldersAmongServed(hs[..|hs| - 1], ip);
    }
  }

  /**
    * The count of an address equals the handlers holding a reservation exactly when the address is not empty or none of
    * its handlers has finished yet; with a positive limit it never exceeds it.
    */
  lemma CountsReservationsIff(limit: nat, es: seq<Event>, ip: string)
    ensures var s := Run(START, limit, es);
      && (Count(s.counts, ip) == Holders(s.handlers, ip) <==> ip != "" || NoneOver(s.handlers, ip))
      && (limit > 0 ==> Count(s.counts, ip) <= limit)
  {
    RunExact(limit, es, ip);
    HoldersAmongServed(Run(START, limit, es).handlers, ip);
  }

  /** So once `limit` handlers without an address have been served, no further one ever is. */
  lemma EmptyAddressLocksOut(limit: nat, es: seq<Event>)
    ensures var s := Run(START, limit, es);
      limit > 0 && Served(s.handlers, "") >= limit ==> Next(s, limit, Request("")) == s
  {
    RunExact(limit, es, "");
  }

  /** The leak on one request without an address. */
  lemma EmptyAddressLeaks(limit: nat)
    ensures var s := Next(Next(START, limit, Request("")), limit, UpgradeEnds(0, false));
      Count(s.counts, "") == 1 && Holders(s.handlers, "") == 0
  {
    var a := Next(START, limit, Request(""));
    assert a.handlers == [Handler("", Reserved)];
    var s := Next(a, limit, UpgradeEnds(0, false));
    assert s.handlers == [Handler("", Over)];
    assert s.handlers[..0] == [];
  }
}
