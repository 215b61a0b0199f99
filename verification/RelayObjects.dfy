/** The relay's mutable objects: what each method does to the fields while it holds the object's lock. */
module RelayObjects {
  import opened Bytes
  import opened RoomSession
  import Reg = RelayRegistry
  import Hubs = RelayHub

  class Session {
    const code: string
    const creatorIP: string
    const ttl: nat
    var expiresAt: Option<nat>
    var closed: bool
    var conns: seq<Conn>

    ghost function View(): (r: Room)
      reads this
    {
      Room(code, creatorIP, ttl, expiresAt, closed, conns)
    }

    constructor (code: string, creator: string, ttl: nat, now: nat)
      ensures View() == NewRoom(code, creator, ttl, now)
    {
      this.code, creatorIP, this.ttl, expiresAt, closed, conns := code, creator, ttl, Some(now + ttl), false, [];
    }

    predicate ExpiredLocked(now: nat)
      reads this
    {
      |conns| == 0 && expiresAt.Some? && now >= expiresAt.value
    }

    /** The slot's entry in the map, by a scan. */
    method FindSlot(slot: string) returns (i: nat)
      ensures i == Find(conns, slot)
    {
      i := 0;
      while i < |conns| && conns[i].slot != slot
        invariant i <= |conns| && Find(conns, slot) == i + Find(conns[i..], slot)
      {
        assert conns[i..][1..] == conns[i + 1..];
        i := i + 1;
      }
    }

    /** The first entry in another slot, by a scan. */
    method FindOther(slot: string) returns (c: Option<Conn>)
      ensures c == OtherSlot(conns, slot)
    {
      for i := 0 to |conns|
        invariant OtherSlot(conns, slot) == OtherSlot(conns[i..], slot)
      {
        if conns[i].slot != slot { return Some(conns[i]); }
        assert conns[i..][1..] == conns[i + 1..];
      }
      return None;
    }

    method AddConnection(slot: string, id: nat, now: nat) returns (r: Added)
      modifies this
      ensures (View(), r) == Add(old(View()), slot, id, now)
    {
      if closed || ExpiredLocked(now) || slot == "" { return Refused(RoomClosed); }
      var i := FindSlot(slot);
      var replaced: Option<Conn> := None;
      if i < |conns| {
        replaced := Some(conns[i]);
        conns := conns[i := Conn(slot, id)];
      } else if |conns| >= 2 {
        return Refused(RoomFull);
      } else {
        conns := conns + [Conn(slot, id)];
      }
      expiresAt := None;
      var peer := FindOther(slot);
      return Joined(peer, replaced);
    }

    method RemoveConnection(slot: string, id: nat, now: nat) returns (r: Removed)
      modifies this
      ensures (View(), r) == Remove(old(View()), slot, id, now)
    {
      var i := FindSlot(slot);
      if i == |conns| || conns[i].id != id { return NotCurrent; }
      conns := conns[..i] + conns[i + 1..];
      if |conns| == 0 {
        expiresAt := Some(now + ttl);
        return Gone(None);
      }
      return Gone(Some(conns[0]));
    }

    method PeerOfConnection(id: nat, now: nat) returns (c: Option<Conn>)
      ensures c == PeerOf(View(), id, now)
    {
      if closed || ExpiredLocked(now) { return None; }
      for i := 0 to |conns|
        invariant OtherConn(conns, id) == OtherConn(conns[i..], id)
      {
        if conns[i].id != id { return Some(conns[i]); }
        assert conns[i..][1..] == conns[i + 1..];
      }
      return None;
    }

    method DrainConnections() returns (drained: seq<Conn>)
      modifies this
      ensures (View(), drained) == Drain(old(View()))
    {
      if closed { return []; }
      closed := true;
      drained := conns;
      conns := [];
    }
  }

  class Registry {
    const cfg: Reg.Config
    var clock: nat
    var objects: seq<Room>
    var rooms: Reg.Directory
    var ended: map<string, nat>
    ghost var lastEnd: map<string, nat>
    ghost var condemned: set<nat>
    ghost var ending: set<nat>
    ghost var retired: set<nat>
    var issued: nat

    ghost function View(): (r: Reg.Relay)
      reads this
    {
      Reg.Relay(clock, objects, rooms, ended, lastEnd, condemned, ending, retired, issued)
    }

    method CountRooms(creator: string) returns (n: nat)
      ensures n == Reg.CountBy(rooms, creator)
    {
      n := 0;
      var d := rooms;
      while d.Listed?
        invariant Reg.CountBy(rooms, creator) == n + Reg.CountBy(d, creator)
        decreases d
      {
        if d.creator == creator {
          n := n + 1;
        }
        d := d.rest;
      }
    }

    /** The tests and the insertion, once expired rooms are gone. */
    method InsertSession(code: string, creator: string, at: nat) returns (id: Option<nat>)
      requires at <= clock
      modifies this
      ensures View() == Reg.Next(old(View()), cfg, Reg.Create(code, creator, at))
      ensures id.Some? <==> Reg.MayCreate(old(View()), cfg, code, creator, at)
      ensures id.Some? ==> id.value == old(|objects|) && Reg.Lookup(rooms, code) == id
    {
      if code in ended {
        if at < ended[code] { return None; }
        ended := ended - {code};
      }
      assert ended == old(ended) - {code};
      if Reg.Lookup(rooms, code).Some? { return None; }
      if cfg.perCreator > 0 && creator != "" {
        var n := CountRooms(creator);
        if n >= cfg.perCreator { return None; }
      }
      id := Some(|objects|);
      objects := objects + [NewRoom(code, creator, cfg.ttl, clock)];
      rooms := Reg.Listed(code, creator, |objects| - 1, rooms);
    }

    /** The purge under the registry lock, as a run of the steps it takes; afterwards no listed room has expired. */
    method PurgeExpired() returns (ghost es: seq<Reg.Event>)
      requires Reg.Invariant(View(), cfg)
      modifies this`rooms, this`condemned, this`retired
      ensures View() == Reg.Run(old(View()), cfg, es)
      ensures Reg.ExpiredAmong(rooms, Reg.Vacant, objects, clock)
    {
      var d := rooms;
      es := [];
      Reg.AllAmong(rooms, rooms, objects, clock);
      while d.Listed?
        invariant View() == Reg.Run(old(View()), cfg, es)
        invariant Reg.ExpiredAmong(rooms, d, objects, clock)
        invariant Reg.DirectoryOk(d, objects, old(retired), ended)
        decreases d
      {
        var id := d.id;
        Reg.OneLess(rooms, d, objects, clock);
        if Expired(objects[id], clock) {
          Reg.RunSnoc(old(View()), cfg, es, Reg.Observe(id));
          Reg.RunSnoc(old(View()), cfg, es + [Reg.Observe(id)], Reg.Delete(id));
          es := es + [Reg.Observe(id)] + [Reg.Delete(id)];
          condemned := condemned + {id};
          rooms := Reg.Drop(rooms, id);
          retired := retired + {id};
        }
        d := d.rest;
      }
    }

    /**
      * CreateSessionWithCode under the registry lock: the purge, and then the tests on what it leaves. An expired room
      * therefore blocks neither its code nor its creator's quota.
      */
    method CreateSessionWithCode(code: string, creator: string, at: nat) returns (id: Option<nat>, ghost es: seq<Reg.Event>)
      requires at <= clock && Reg.Invariant(View(), cfg)
      modifies this
      ensures var purged := Reg.Run(old(View()), cfg, es);
        && Reg.ExpiredAmong(purged.rooms, Reg.Vacant, purged.objects, purged.clock)
        && View() == Reg.Next(purged, cfg, Reg.Create(code, creator, at))
        && (id.Some? <==> Reg.MayCreate(purged, cfg, code, creator, at))
      ensures id.Some? ==> id.value == old(|objects|) && Reg.Lookup(rooms, code) == id
      ensures Reg.Invariant(View(), cfg)
    {
      es := PurgeExpired();
      ghost var purged := View();
      Reg.RunKeeps(old(View()), cfg, es);
      Reg.NextKeeps(purged, cfg, Reg.Create(code, creator, at));
      id := InsertSession(code, creator, at);
    }

    method EndSession(id: nat) returns (ok: bool)
      requires id < |objects|
      modifies this
      ensures View() == Reg.Next(old(View()), cfg, Reg.End(id))
      ensures ok == (Reg.Lookup(old(rooms), objects[id].code) == Some(id))
    {
      var code := objects[id].code;
      if Reg.Lookup(rooms, code) != Some(id) { return false; }
      rooms := Reg.Drop(rooms, id);
      ended := ended[code := clock + cfg.ttl];
      lastEnd := lastEnd[code := clock];
      ending := ending + {id};
      retired := retired + {id};
      return true;
    }
  }

  class Hub {
    const limit: nat
    var connsByIP: map<string, nat>

    method ReserveIP(ip: string) returns (ok: bool)
      modifies this
      ensures ok == Hubs.Reserve(old(connsByIP), ip, limit).Some?
      ensures connsByIP == if ok then Hubs.Reserve(old(connsByIP), ip, limit).value else old(connsByIP)
    {
      var n := if ip in connsByIP then connsByIP[ip] else 0;
      if limit > 0 && n >= limit { return false; }
      connsByIP := connsByIP[ip := n + 1];
      return true;
    }

    method ReleaseIP(ip: string)
      modifies this
      ensures connsByIP == Hubs.Release(old(connsByIP), ip)
    {
      if ip == "" { return; }
      var n := if ip in connsByIP then connsByIP[ip] else 0;
      if n <= 1 {
        connsByIP := connsByIP - {ip};
      } else {
        connsByIP := connsByIP[ip := n - 1];
      }
    }
  }
}
