/** One relay room: its two participant slots, its idle expiry and its closing. */
module RoomSession {
  import opened Bytes

  datatype Conn = Conn(slot: string, id: nat)

  /** `conns` lists the entries of the slot map; `expires` is None for the zero time. */
  datatype Room = Room(code: string, creator: string, ttl: nat, expires: Option<nat>, closed: bool, conns: seq<Conn>)

  datatype Refusal = RoomClosed | RoomFull
  datatype Added = Joined(peer: Option<Conn>, replaced: Option<Conn>) | Refused(why: Refusal)

  function NewRoom(code: string, creator: string, ttl: nat, now: nat): (r: Room)
  {
    Room(code, creator, ttl, Some(now + ttl), false, [])
  }

  predicate Expired(r: Room, now: nat)
  {
    |r.conns| == 0 && r.expires.Some? && now >= r.expires.value
  }

  /** The position of a slot's entry, or the number of entries if it has none. */
  function Find(conns: seq<Conn>, slot: string): (i: nat)
    ensures i <= |conns| && (i < |conns| ==> conns[i].slot == slot)
    ensures forall j :: 0 <= j < i ==> conns[j].slot != slot
  {
    if |conns| == 0 then 0 else if conns[0].slot == slot then 0 else 1 + Find(conns[1..], slot)
  }

  function OtherSlot(conns: seq<Conn>, slot: string): (c: Option<Conn>)
    ensures c.Some? ==> c.value in conns && c.value.slot != slot
    ensures c.None? ==> forall j :: 0 <= j < |conns| ==> conns[j].slot == slot
  {
    if |conns| == 0 then None else if conns[0].slot != slot then Some(conns[0]) else OtherSlot(conns[1..], slot)
  }

  /** AddConnection: a participant joins, or reconnects in the slot it already holds. */
  function Add(r: Room, slot: string, id: nat, now: nat): (s: (Room, Added))
  {
    if r.closed || Expired(r, now) || slot == "" then (r, Refused(RoomClosed))
    else
      var i := Find(r.conns, slot);
      if i < |r.conns| then
        var conns := r.conns[i := Conn(slot, id)];
        (r.(conns := conns, expires := None), Joined(OtherSlot(conns, slot), Some(r.conns[i])))
      else if |r.conns| >= 2 then (r, Refused(RoomFull))
      else
        var conns := r.conns + [Conn(slot, id)];
        (r.(conns := conns, expires := None), Joined(OtherSlot(conns, slot), None))
  }

  datatype Removed = NotCurrent | Gone(peer: Option<Conn>)

  /** RemoveConnection: only the connection that still holds the slot is removed. */
  function Remove(r: Room, slot: string, id: nat, now: nat): (s: (Room, Removed))
  {
    var i := Find(r.conns, slot);
    if i == |r.conns| || r.conns[i].id != id then (r, NotCurrent)
    else
      var conns := r.conns[..i] + r.conns[i + 1..];
      (r.(conns := conns, expires := if |conns| == 0 then Some(now + r.ttl) else r.expires),
       Gone(if |conns| == 0 then None else Some(conns[0])))
  }

  function OtherConn(conns: seq<Conn>, id: nat): (c: Option<Conn>)
    ensures c.Some? ==> c.value in conns && c.value.id != id
    ensures c.None? ==> forall j :: 0 <= j < |conns| ==> conns[j].id == id
  {
    if |conns| == 0 then None else if conns[0].id != id then Some(conns[0]) else OtherConn(conns[1..], id)
  }

  function PeerOf(r: Room, id: nat, now: nat): (c: Option<Conn>)
  {
    if r.closed || Expired(r, now) then None else OtherConn(r.conns, id)
  }

  /** DrainConnections: the first call closes the room and hands out its connections. */
  function Drain(r: Room): (s: (Room, seq<Conn>))
  {
    if r.closed then (r, []) else (r.(closed := true, conns := []), r.conns)
  }

  // ---- what every operation keeps ------------------------------------------

  /** At most two participants, in different slots, with ids below `issued`; expiry set exactly when an open room is empty. */
  ghost predicate Valid(r: Room, issued: nat)
  {
    && |r.conns| <= 2
    && (forall i :: 0 <= i < |r.conns| ==> r.conns[i].slot != "" && r.conns[i].id < issued)
    && (|r.conns| == 2 ==> r.conns[0].slot != r.conns[1].slot && r.conns[0].id != r.conns[1].id)
    && (r.closed ==> |r.conns| == 0)
    && (!r.closed ==> (r.expires.None? <==> |r.conns| > 0))
  }

  lemma NewValid(code: string, creator: string, ttl: nat, now: nat, issued: nat)
    ensures Valid(NewRoom(code, creator, ttl, now), issued)
  {}

  lemma AddValid(r: Room, slot: string, id: nat, now: nat)
    requires Valid(r, id)
    ensures Valid(Add(r, slot, id, now).0, id + 1)
  {}

  lemma RemoveValid(r: Room, slot: string, id: nat, now: nat, issued: nat)
    requires Valid(r, issued)
    ensures Valid(Remove(r, slot, id, now).0, issued)
  {}

  lemma DrainValid(r: Room, issued: nat)
    requires Valid(r, issued)
    ensures Valid(Drain(r).0, issued) && Drain(r).0.closed && Drain(r).0.conns == []
    ensures Drain(r).1 == r.conns
  {}

  /** Joining succeeds exactly when the room is open and live, the slot named, and held already or still free. */
  lemma AddSucceedsIff(r: Room, slot: string, id: nat, now: nat)
    requires Valid(r, id)
    ensures Add(r, slot, id, now).1.Joined? <==>
      !r.closed && !Expired(r, now) && slot != "" && (Find(r.conns, slot) < |r.conns| || |r.conns| < 2)
    ensures var (r', a) := Add(r, slot, id, now); a.Joined? ==>
      && Find(r'.conns, slot) < |r'.conns| && r'.conns[Find(r'.conns, slot)].id == id
      && (a.replaced.Some? <==> Find(r.conns, slot) < |r.conns|)
      && (a.peer.Some? ==> a.peer.value in r.conns && a.peer.value.slot != slot)
      && (a.peer.None? ==> r'.conns == [Conn(slot, id)])
  {}

  /** A connection that a scan for the peer of `id` can find first, in some order of the slot map. */
  predicate MayBePeer(r: Room, id: nat, c: Conn) { c in r.conns && c.id != id }

  ghost predicate PeerDetermined(r: Room, id: nat) { forall c, d :: MayBePeer(r, id, c) && MayBePeer(r, id, d) ==> c == d }

  /** The peer of an attached connection is the one in the other slot, if any, whatever the order of the map. */
  lemma PeerIsOtherSlot(r: Room, now: nat, issued: nat, i: nat)
    requires Valid(r, issued) && i < |r.conns|
    ensures PeerOf(r, r.conns[i].id, now) == (if |r.conns| == 2 then Some(r.conns[1 - i]) else None)
    ensures PeerOf(r, r.conns[i].id, now) == OtherSlot(r.conns, r.conns[i].slot)
    ensures PeerDetermined(r, r.conns[i].id)
  {
    if |r.conns| == 2 {
      assert r.conns[1 - i].id != r.conns[i].id && r.conns[1 - i].slot != r.conns[i].slot;
    }
  }

  /** No entry of the slot map belongs to this connection. */
  ghost predicate Absent(r: Room, id: nat) { forall i :: 0 <= i < |r.conns| ==> r.conns[i].id != id }

  /**
    * A connection that was replaced but still reads relays to some attached connection, possibly its own replacement; to
    * which one is determined exactly when the room holds a single connection.
    */
  lemma ReplacedRelaysToSome(r: Room, id: nat, now: nat, issued: nat)
    requires Valid(r, issued) && Absent(r, id) && |r.conns| > 0
    ensures PeerOf(r, id, now).Some? && MayBePeer(r, id, PeerOf(r, id, now).value)
    ensures forall c :: c in r.conns ==> MayBePeer(r, id, c)
    ensures PeerDetermined(r, id) <==> |r.conns| == 1
  {
    if |r.conns| == 2 {
      assert MayBePeer(r, id, r.conns[0]) && MayBePeer(r, id, r.conns[1]) && r.conns[0] != r.conns[1];
    }
  }

  /** A connection whose slot is taken over is out of the room. */
  lemma ReplacedIsAbsent(r: Room, slot: string, id: nat, now: nat)
    requires Valid(r, id) && Add(r, slot, id, now).1.Joined? && Add(r, slot, id, now).1.replaced.Some?
    ensures Absent(Add(r, slot, id, now).0, Add(r, slot, id, now).1.replaced.value.id)
  {}

  /** The detach of a connection that is out of the room changes nothing and announces nothing. */
  lemma AbsentDetach(r: Room, slot: string, id: nat, now: nat)
    requires Absent(r, id)
    ensures Remove(r, slot, id, now) == (r, NotCurrent)
  {}

  /** Expiry is stable: an expired room stays expired, and no one can join it any more. */
  lemma ExpiryIsStable(r: Room, slot: string, id: nat, other: nat, now: nat, later: nat)
    requires Expired(r, now) && now <= later
    ensures Expired(r, later)
    ensures Add(r, slot, id, later) == (r, Refused(RoomClosed))
    ensures Remove(r, slot, other, later) == (r, NotCurrent)
  {}
}
