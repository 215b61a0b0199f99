/**
  * The relay's registry of rooms. Each event is what one goroutine does under one lock; between two locks anything else
  * may happen, and the clock never runs backwards.
  */
module RelayRegistry {
  import opened Bytes
  import opened RoomSession

  /** The registry's map from codes to rooms; a room is known by its index among all rooms ever made. */
  datatype Directory = Vacant | Listed(code: string, creator: string, id: nat, rest: Directory)

  datatype Config = Config(ttl: nat, perCreator: nat)

  /**
    * `condemned` holds the rooms some goroutine has seen expired, `ending` those ended by a participant, `retired` those
    * taken off the registry or confirmed absent from it, which a goroutine may therefore close. `lastEnd` remembers when
    * each code was last ended.
    */
  datatype Relay = Relay(
    clock: nat, objects: seq<Room>, rooms: Directory, ended: map<string, nat>, lastEnd: map<string, nat>,
    condemned: set<nat>, ending: set<nat>, retired: set<nat>, issued: nat)

  const START := Relay(0, [], Vacant, map[], map[], {}, {}, {}, 0)

  datatype Event =
    | Tick(d: nat) | Create(code: string, creator: string, at: nat)
    | Observe(id: nat) | Delete(id: nat) | End(id: nat) | Finish(id: nat) | SweepStones(at: nat)
    | Join(id: nat, slot: string) | Leave(id: nat, slot: string, conn: nat)

  function Lookup(d: Directory, code: string): (r: Option<nat>)
  {
    match d case Vacant => None case Listed(c, _, id, rest) => if c == code then Some(id) else Lookup(rest, code)
  }

  predicate Has(d: Directory, id: nat)
  {
    match d case Vacant => false case Listed(_, _, i, rest) => i == id || Has(rest, id)
  }

  /** Deletes the room's entry, if it is still the one registered. */
  function Drop(d: Directory, id: nat): (r: Directory)
  {
    match d
    case Vacant => Vacant
    case Listed(c, k, i, rest) => if i == id then Drop(rest, id) else Listed(c, k, i, Drop(rest, id))
  }

  function CountBy(d: Directory, creator: string): (n: nat)
  {
    match d case Vacant => 0 case Listed(_, k, _, rest) => CountBy(rest, creator) + (if k == creator then 1 else 0)
  }

  // ---- the steps -----------------------------------------------------------

  /** A tombstone holds a code back until the clock, as read before locking, has reached its expiry. */
  predicate HeldBack(r: Relay, code: string, at: nat) { code in r.ended && at < r.ended[code] }

  predicate OverQuota(r: Relay, cfg: Config, creator: string)
  {
    cfg.perCreator > 0 && creator != "" && CountBy(r.rooms, creator) >= cfg.perCreator
  }

  predicate MayCreate(r: Relay, cfg: Config, code: string, creator: string, at: nat)
  {
    at <= r.clock && !HeldBack(r, code, at) && Lookup(r.rooms, code).None? && !OverQuota(r, cfg, creator)
  }

  /** CreateSessionWithCode once expired rooms have been purged; `at` is the clock as read before locking. */
  function CreateRoom(r: Relay, cfg: Config, code: string, creator: string, at: nat): (r': Relay)
  {
    if at > r.clock || HeldBack(r, code, at) then r else
    var unheld := r.(ended := r.ended - {code});
    if Lookup(r.rooms, code).Some? || OverQuota(r, cfg, creator) then unheld
    else unheld.(objects := r.objects + [NewRoom(code, creator, cfg.ttl, r.clock)],
                 rooms := Listed(code, creator, |r.objects|, r.rooms))
  }

  function Retire(r: Relay, e: Event): (r': Relay)
  {
    match e
    case Observe(id) =>
      if id < |r.objects| && Expired(r.objects[id], r.clock) then r.(condemned := r.condemned + {id}) else r
    case Delete(id) =>
      if id in r.condemned then r.(rooms := Drop(r.rooms, id), retired := r.retired + {id}) else r
    case _ => r
  }

  /** EndSession: only the registered room is ended, and its code gets a tombstone. */
  function EndRoom(r: Relay, cfg: Config, id: nat): (r': Relay)
  {
    if id < |r.objects| && Lookup(r.rooms, r.objects[id].code) == Some(id) then
      var code := r.objects[id].code;
      r.(rooms := Drop(r.rooms, id), ended := r.ended[code := r.clock + cfg.ttl], lastEnd := r.lastEnd[code := r.clock],
         ending := r.ending + {id}, retired := r.retired + {id})
    else r
  }

  function FinishRoom(r: Relay, id: nat): (r': Relay)
  {
    if id in r.retired && id < |r.objects| then r.(objects := r.objects[id := RoomSession.Drain(r.objects[id]).0]) else r
  }

  function Occupy(r: Relay, e: Event): (r': Relay)
  {
    match e
    case Join(id, slot) =>
      if id < |r.objects|
      then r.(objects := r.objects[id := Add(r.objects[id], slot, r.issued, r.clock).0], issued := r.issued + 1) else r
    case Leave(id, slot, conn) =>
      if id < |r.objects| then r.(objects := r.objects[id := Remove(r.objects[id], slot, conn, r.clock).0]) else r
    case _ => r
  }

  function Sweep(r: Relay, at: nat): (r': Relay)
  {
    if at <= r.clock then r.(ended := map c | c in r.ended && at < r.ended[c] :: r.ended[c]) else r
  }

  function Next(r: Relay, cfg: Config, e: Event): (r': Relay)
  {
    match e
    case Tick(d) => r.(clock := r.clock + d)
    case Create(code, creator, at) => CreateRoom(r, cfg, code, creator, at)
    case Observe(_) => Retire(r, e)
    case Delete(_) => Retire(r, e)
    case End(id) => EndRoom(r, cfg, id)
    case Finish(id) => FinishRoom(r, id)
    case SweepStones(at) => Sweep(r, at)
    case _ => Occupy(r, e)
  }

  function Run(r: Relay, cfg: Config, es: seq<Event>): (r': Relay)
  {
    if |es| == 0 then r else Next(Run(r, cfg, es[..|es| - 1]), cfg, es[|es| - 1])
  }

  // ---- the invariant -------------------------------------------------------

  /** Rooms are Valid, and a closed room is a retired one. */
  ghost predicate RoomsOk(objects: seq<Room>, retired: set<nat>, issued: nat)
  {
    forall i :: 0 <= i < |objects| ==> Valid(objects[i], issued) && (objects[i].closed ==> i in retired)
  }

  /** A condemned room is empty for good: closed, or past its expiry. */
  predicate Doomed(r: Room, clock: nat) { |r.conns| == 0 && (r.closed || Expired(r, clock)) }

  ghost predicate CondemnedOk(objects: seq<Room>, condemned: set<nat>, clock: nat)
  {
    forall i :: i in condemned ==> i < |objects| && Doomed(objects[i], clock)
  }

  /** Listed rooms exist, are not retired, and have distinct codes, none of them a tombstone's. */
  ghost predicate DirectoryOk(d: Directory, objects: seq<Room>, retired: set<nat>, ended: map<string, nat>)
  {
    match d
    case Vacant => true
    case Listed(code, _, id, rest) =>
      && id < |objects| && objects[id].code == code && id !in retired && code !in ended
      && Lookup(rest, code).None? && DirectoryOk(rest, objects, retired, ended)
  }

  ghost predicate StonesOk(ended: map<string, nat>, lastEnd: map<string, nat>, ttl: nat, clock: nat)
  {
    forall c :: c in lastEnd ==> (c in ended && ended[c] == lastEnd[c] + ttl) || clock >= lastEnd[c] + ttl
  }

  ghost predicate QuotaOk(d: Directory, limit: nat)
  {
    limit > 0 ==> forall k :: k != "" ==> CountBy(d, k) <= limit
  }

  ghost predicate Invariant(r: Relay, cfg: Config)
  {
    && RoomsOk(r.objects, r.retired, r.issued) && CondemnedOk(r.objects, r.condemned, r.clock)
    && DirectoryOk(r.rooms, r.objects, r.retired, r.ended) && StonesOk(r.ended, r.lastEnd, cfg.ttl, r.clock)
    && QuotaOk(r.rooms, cfg.perCreator) && r.retired <= r.condemned + r.ending
    && (forall i :: i in r.retired ==> i < |r.objects|)
  }

  // ---- directory lemmas ----------------------------------------------------

  lemma {:induction false} DirectoryFrame(d: Directory, a: seq<Room>, b: seq<Room>, retired: set<nat>, more: set<nat>, ended: map<string, nat>, fewer: map<string, nat>)
    requires DirectoryOk(d, a, retired, ended) && more <= retired && fewer.Keys <= ended.Keys
    requires |a| <= |b| && forall i :: 0 <= i < |a| ==> a[i].code == b[i].code
    ensures DirectoryOk(d, b, more, fewer)
  {
    if d.Listed? {
      DirectoryFrame(d.rest, a, b, retired, more, ended, fewer);
    }
  }

  lemma {:induction false} DropLookup(d: Directory, id: nat, code: string)
    ensures Lookup(d, code).None? ==> Lookup(Drop(d, id), code).None?
    ensures !Has(Drop(d, id), id)
  {
    if d.Listed? {
      DropLookup(d.rest, id, code);
    }
  }

  lemma {:induction false} DropOk(d: Directory, id: nat, objects: seq<Room>, retired: set<nat>, ended: map<string, nat>)
    requires DirectoryOk(d, objects, retired, ended)
    ensures DirectoryOk(Drop(d, id), objects, retired + {id}, ended)
  {
    if d.Listed? {
      DropOk(d.rest, id, objects, retired, ended);
      DropLookup(d.rest, id, d.code);
    }
  }

  /** Deleting a room by its code leaves the code unlisted, so a tombstone for it is disjoint from the rest. */
  lemma {:induction false} DropStone(d: Directory, id: nat, objects: seq<Room>, retired: set<nat>, ended: map<string, nat>, until: nat)
    requires DirectoryOk(d, objects, retired, ended) && id < |objects| && (Lookup(d, objects[id].code) == Some(id) || Lookup(d, objects[id].code).None?)
    ensures DirectoryOk(Drop(d, id), objects, retired + {id}, ended[objects[id].code := until])
  {
    if d.Listed? {
      DropStone(d.rest, id, objects, retired, ended, until);
      DropLookup(d.rest, id, d.code);
    }
  }

  lemma {:induction false} DropCount(d: Directory, id: nat, creator: string)
    ensures CountBy(Drop(d, id), creator) <= CountBy(d, creator)
  {
    if d.Listed? {
      DropCount(d.rest, id, creator);
    }
  }

  lemma DropQuota(d: Directory, id: nat, limit: nat)
    requires QuotaOk(d, limit)
    ensures QuotaOk(Drop(d, id), limit)
  {
    forall k | k != ""
      ensures CountBy(Drop(d, id), k) <= CountBy(d, k)
    {
      DropCount(d, id, k);
    }
  }

  // ---- every step keeps the invariant --------------------------------------

  lemma CreateKeeps(r: Relay, cfg: Config, code: string, creator: string, at: nat)
    requires Invariant(r, cfg)
    ensures Invariant(CreateRoom(r, cfg, code, creator, at), cfg)
  {
    if at <= r.clock && !HeldBack(r, code, at) {
      var r' := CreateRoom(r, cfg, code, creator, at);
      NewValid(code, creator, cfg.ttl, r.clock, r.issued);
      DirectoryFrame(r.rooms, r.objects, r'.objects, r.retired, r.retired, r.ended, r'.ended);
    }
  }

  lemma RetireKeeps(r: Relay, cfg: Config, e: Event)
    requires Invariant(r, cfg)
    ensures Invariant(Retire(r, e), cfg)
  {
    match e
    case Delete(id) =>
      DropOk(r.rooms, id, r.objects, r.retired, r.ended);
      DropQuota(r.rooms, id, cfg.perCreator);
    case _ =>
  }

  lemma EndKeeps(r: Relay, cfg: Config, id: nat)
    requires Invariant(r, cfg)
    ensures Invariant(EndRoom(r, cfg, id), cfg)
  {
    if id < |r.objects| && Lookup(r.rooms, r.objects[id].code) == Some(id) {
      DropStone(r.rooms, id, r.objects, r.retired, r.ended, r.clock + cfg.ttl);
      DropQuota(r.rooms, id, cfg.perCreator);
    }
  }

  /** Replacing one room by a later state of it. */
  lemma ReplaceKeeps(r: Relay, cfg: Config, id: nat, room: Room, issued: nat)
    requires Invariant(r, cfg) && id < |r.objects| && r.issued <= issued
    requires Valid(room, issued) && room.code == r.objects[id].code && (room.closed ==> id in r.retired)
    requires id in r.condemned ==> Doomed(room, r.clock)
    ensures Invariant(r.(objects := r.objects[id := room], issued := issued), cfg)
  {
    DirectoryFrame(r.rooms, r.objects, r.objects[id := room], r.retired, r.retired, r.ended, r.ended);
  }

  lemma FinishKeeps(r: Relay, cfg: Config, id: nat)
    requires Invariant(r, cfg)
    ensures Invariant(FinishRoom(r, id), cfg)
  {
    if id in r.retired && id < |r.objects| {
      DrainValid(r.objects[id], r.issued);
      ReplaceKeeps(r, cfg, id, RoomSession.Drain(r.objects[id]).0, r.issued);
    }
  }

  lemma OccupyKeeps(r: Relay, cfg: Config, e: Event)
    requires Invariant(r, cfg)
    ensures Invariant(Occupy(r, e), cfg)
  {
    match e
    case Join(id, slot) =>
      if id < |r.objects| {
        AddValid(r.objects[id], slot, r.issued, r.clock);
        ReplaceKeeps(r, cfg, id, Add(r.objects[id], slot, r.issued, r.clock).0, r.issued + 1);
      }
    case Leave(id, slot, conn) =>
      if id < |r.objects| {
        RemoveValid(r.objects[id], slot, conn, r.clock, r.issued);
        ReplaceKeeps(r, cfg, id, Remove(r.objects[id], slot, conn, r.clock).0, r.issued);
      }
    case _ =>
  }

  lemma SweepKeeps(r: Relay, cfg: Config, at: nat)
    requires Invariant(r, cfg)
    ensures Invariant(Sweep(r, at), cfg)
  {
    if at <= r.clock {
      DirectoryFrame(r.rooms, r.objects, r.objects, r.retired, r.retired, r.ended, Sweep(r, at).ended);
    }
  }

  lemma NextKeeps(r: Relay, cfg: Config, e: Event)
    requires Invariant(r, cfg)
    ensures Invariant(Next(r, cfg, e), cfg)
  {
    match e
    case Create(code, creator, at) => CreateKeeps(r, cfg, code, creator, at);
    case End(id) => EndKeeps(r, cfg, id);
    case Finish(id) => FinishKeeps(r, cfg, id);
    case SweepStones(at) => SweepKeeps(r, cfg, at);
    case Tick(_) =>
    case _ =>
      RetireKeeps(r, cfg, e);
      OccupyKeeps(r, cfg, e);
  }

  lemma {:induction false} RunKeeps(r: Relay, cfg: Config, es: seq<Event>)
    requires Invariant(r, cfg)
    ensures Invariant(Run(r, cfg, es), cfg)
  {
    if |es| != 0 {
      RunKeeps(r, cfg, es[..|es| - 1]);
      NextKeeps(Run(r, cfg, es[..|es| - 1]), cfg, es[|es| - 1]);
    }
  }

  // ---- the main statements -------------------------------------------------

  lemma {:induction false} ListedOk(d: Directory, code: string, objects: seq<Room>, retired: set<nat>, ended: map<string, nat>)
    requires DirectoryOk(d, objects, retired, ended) && Lookup(d, code).Some?
    ensures var id := Lookup(d, code).value; id < |objects| && id !in retired && objects[id].code == code && code !in ended
  {
    if d.code != code {
      ListedOk(d.rest, code, objects, retired, ended);
    }
  }

  /**
    * In every reachable state: a registered room is open and its code has no tombstone; a room seen expired by a sweep, a
    * lookup or a purge holds no connection, then or ever after; a creator's rooms stay within the quota.
    */
  lemma RegistryDiscipline(cfg: Config, es: seq<Event>, code: string, id: nat, creator: string)
    ensures var r := Run(START, cfg, es);
      && (Lookup(r.rooms, code).Some? ==>
            && Lookup(r.rooms, code).value < |r.objects| && !r.objects[Lookup(r.rooms, code).value].closed
            && code !in r.ended)
      && (id in r.condemned ==> id < |r.objects| && r.objects[id].conns == [])
      && (cfg.perCreator > 0 && creator != "" ==> CountBy(r.rooms, creator) <= cfg.perCreator)
  {
    var r := Run(START, cfg, es);
    RunKeeps(START, cfg, es);
    if Lookup(r.rooms, code).Some? {
      ListedOk(r.rooms, code, r.objects, r.retired, r.ended);
    }
  }

  /** Every room stays structurally sound: two participants at most, own slots, expiry set exactly when open and empty. */
  lemma RoomsStayValid(cfg: Config, es: seq<Event>, id: nat)
    ensures var r := Run(START, cfg, es); id < |r.objects| ==> Valid(r.objects[id], r.issued)
  {
    RunKeeps(START, cfg, es);
  }

  /** In every reachable state the peer of an attached connection is the connection in the other slot, if there is one. */
  lemma PeerInEveryRun(cfg: Config, es: seq<Event>, id: nat, i: nat)
    ensures var r := Run(START, cfg, es);
      id < |r.objects| && i < |r.objects[id].conns| ==>
        && PeerOf(r.objects[id], r.objects[id].conns[i].id, r.clock) == OtherSlot(r.objects[id].conns, r.objects[id].conns[i].slot)
        && PeerOf(r.objects[id], r.objects[id].conns[i].id, r.clock)
           == (if |r.objects[id].conns| == 2 then Some(r.objects[id].conns[1 - i]) else None)
  {
    var r := Run(START, cfg, es);
    RunKeeps(START, cfg, es);
    if id < |r.objects| && i < |r.objects[id].conns| {
      assert Valid(r.objects[id], r.issued);
      PeerIsOtherSlot(r.objects[id], r.clock, r.issued, i);
    }
  }

  // ---- connections that are out of a room ----------------------------------

  /** The connection was handed out long ago and is not in the room. */
  ghost predicate Out(r: Relay, id: nat, conn: nat)
  {
    id < |r.objects| && conn < r.issued && Absent(r.objects[id], conn)
  }

  lemma OutStep(r: Relay, cfg: Config, e: Event, id: nat, conn: nat)
    requires Out(r, id, conn)
    ensures Out(Next(r, cfg, e), id, conn)
  {}

  lemma {:induction false} OutForever(r: Relay, cfg: Config, es: seq<Event>, id: nat, conn: nat)
    requires Out(r, id, conn)
    ensures Out(Run(r, cfg, es), id, conn)
  {
    if |es| != 0 {
      OutForever(r, cfg, es[..|es| - 1], id, conn);
      OutStep(Run(r, cfg, es[..|es| - 1]), cfg, es[|es| - 1], id, conn);
    }
  }

  /**
    * A connection replaced in a reachable state may detach at any time later, whatever joined, left, ended or was swept in
    * between: it removes nobody, changes nothing and announces nothing.
    */
  lemma LateDetachIsHarmless(cfg: Config, before: seq<Event>, id: nat, slot: string, between: seq<Event>)
    requires var r := Run(START, cfg, before);
      && id < |r.objects| && Add(r.objects[id], slot, r.issued, r.clock).1.Joined?
      && Add(r.objects[id], slot, r.issued, r.clock).1.replaced.Some?
    ensures var r := Run(START, cfg, before);
      var gone := Add(r.objects[id], slot, r.issued, r.clock).1.replaced.value;
      var later := Run(Next(r, cfg, Join(id, slot)), cfg, between);
      && id < |later.objects| && Remove(later.objects[id], gone.slot, gone.id, later.clock).1 == NotCurrent
      && Next(later, cfg, Leave(id, gone.slot, gone.id)) == later
  {
    var r := Run(START, cfg, before);
    RunKeeps(START, cfg, before);
    assert Valid(r.objects[id], r.issued);
    ReplacedIsAbsent(r.objects[id], slot, r.issued, r.clock);
    var gone := Add(r.objects[id], slot, r.issued, r.clock).1.replaced.value;
    var joined := Next(r, cfg, Join(id, slot));
    assert gone in r.objects[id].conns;
    assert Out(joined, id, gone.id);
    OutForever(joined, cfg, between, id, gone.id);
    var later := Run(joined, cfg, between);
    AbsentDetach(later.objects[id], gone.slot, gone.id, later.clock);
    assert later.objects[id := later.objects[id]] == later.objects;
  }

  /** In every state after its replacement a connection relays to some attached one, determined only if there is but one. */
  lemma ReplacedRelaysInEveryRun(cfg: Config, before: seq<Event>, id: nat, conn: nat, es: seq<Event>)
    requires Out(Run(START, cfg, before), id, conn)
    ensures var r := Run(Run(START, cfg, before), cfg, es);
      && id < |r.objects|
      && (|r.objects[id].conns| > 0 ==>
            && PeerOf(r.objects[id], conn, r.clock).Some? && PeerOf(r.objects[id], conn, r.clock).value in r.objects[id].conns
            && (PeerDetermined(r.objects[id], conn) <==> |r.objects[id].conns| == 1))
  {
    var start := Run(START, cfg, before);
    RunKeeps(START, cfg, before);
    RunKeeps(start, cfg, es);
    OutForever(start, cfg, es, id, conn);
    var r := Run(start, cfg, es);
    if |r.objects[id].conns| > 0 {
      assert Valid(r.objects[id], r.issued);
      ReplacedRelaysToSome(r.objects[id], conn, r.clock, r.issued);
    }
  }

  /** Closing a room that nobody ended disconnects nobody. */
  lemma OnlyEndingDisconnects(cfg: Config, es: seq<Event>, id: nat)
    ensures var r := Run(START, cfg, es);
      id in r.retired && id !in r.ending ==> id < |r.objects| && RoomSession.Drain(r.objects[id]).1 == []
  {
    RunKeeps(START, cfg, es);
  }

  lemma ClosedStep(r: Relay, cfg: Config, e: Event, id: nat)
    requires Invariant(r, cfg) && id < |r.objects| && r.objects[id].closed
    ensures var r' := Next(r, cfg, e); id < |r'.objects| && r'.objects[id].closed
  {}

  lemma {:induction false} ClosedForever(r: Relay, cfg: Config, es: seq<Event>, id: nat)
    requires Invariant(r, cfg) && id < |r.objects| && r.objects[id].closed
    ensures var r' := Run(r, cfg, es); id < |r'.objects| && r'.objects[id].closed
  {
    if |es| != 0 {
      ClosedForever(r, cfg, es[..|es| - 1], id);
      RunKeeps(r, cfg, es[..|es| - 1]);
      ClosedStep(Run(r, cfg, es[..|es| - 1]), cfg, es[|es| - 1], id);
    }
  }

  /**
    * Ending a registered room and then closing it drains every connection it holds at that moment; whatever happens
    * afterwards, the room stays empty and no one can join it.
    */
  lemma EndIsFinal(r: Relay, cfg: Config, id: nat, between: seq<Event>, after: seq<Event>, slot: string)
    requires Invariant(r, cfg) && id < |r.objects| && Lookup(r.rooms, r.objects[id].code) == Some(id)
    ensures var mid := Run(EndRoom(r, cfg, id), cfg, between);
      && id < |mid.objects| && id in mid.retired && RoomSession.Drain(mid.objects[id]).1 == mid.objects[id].conns
      && var done := Run(FinishRoom(mid, id), cfg, after);
      && id < |done.objects| && done.objects[id].conns == []
      && Add(done.objects[id], slot, done.issued, done.clock).1.Refused?
  {
    var started := EndRoom(r, cfg, id);
    EndKeeps(r, cfg, id);
    RunKeeps(started, cfg, between);
    RetiredForever(started, cfg, between, id);
    var mid := Run(started, cfg, between);
    DrainValid(mid.objects[id], mid.issued);
    FinishKeeps(mid, cfg, id);
    ClosedForever(FinishRoom(mid, id), cfg, after, id);
    RunKeeps(FinishRoom(mid, id), cfg, after);
  }

  lemma {:induction false} RetiredForever(r: Relay, cfg: Config, es: seq<Event>, id: nat)
    requires Invariant(r, cfg) && id in r.retired
    ensures id in Run(r, cfg, es).retired
  {
    if |es| != 0 {
      RetiredForever(r, cfg, es[..|es| - 1], id);
    }
  }

  /** A code that was ended cannot be used for a new room before its time to live has passed. */
  lemma RecreatedOnlyAfterTtl(cfg: Config, es: seq<Event>, code: string, creator: string, at: nat)
    ensures var r := Run(START, cfg, es);
      && (MayCreate(r, cfg, code, creator, at) <==> |CreateRoom(r, cfg, code, creator, at).objects| > |r.objects|)
      && (MayCreate(r, cfg, code, creator, at) && code in r.lastEnd ==> r.clock >= r.lastEnd[code] + cfg.ttl)
  {
    RunKeeps(START, cfg, es);
  }

  lemma RunSnoc(r: Relay, cfg: Config, es: seq<Event>, e: Event)
    ensures Run(r, cfg, es + [e]) == Next(Run(r, cfg, es), cfg, e)
  {
    assert (es + [e])[..|es|] == es;
  }

  /** Every room still listed is in `todo` if it has expired. */
  ghost predicate ExpiredAmong(d: Directory, todo: Directory, objects: seq<Room>, clock: nat)
  {
    match d
    case Vacant => true
    case Listed(_, _, id, rest) =>
      (id < |objects| && Expired(objects[id], clock) ==> Has(todo, id)) && ExpiredAmong(rest, todo, objects, clock)
  }

  lemma {:induction false} AllAmong(d: Directory, todo: Directory, objects: seq<Room>, clock: nat)
    requires forall id :: Has(d, id) ==> Has(todo, id)
    ensures ExpiredAmong(d, todo, objects, clock)
  {
    if d.Listed? {
      AllAmong(d.rest, todo, objects, clock);
    }
  }

  /** One entry dealt with: dropped from the list, or found alive. */
  lemma {:induction false} OneLess(d: Directory, todo: Directory, objects: seq<Room>, clock: nat)
    requires ExpiredAmong(d, todo, objects, clock) && todo.Listed? && todo.id < |objects|
    ensures Expired(objects[todo.id], clock) ==> ExpiredAmong(Drop(d, todo.id), todo.rest, objects, clock)
    ensures !Expired(objects[todo.id], clock) ==> ExpiredAmong(d, todo.rest, objects, clock)
  {
    if d.Listed? {
      OneLess(d.rest, todo, objects, clock);
    }
  }
}
