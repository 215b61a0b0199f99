/** The scheduler object, with the running totals it keeps so as not to count its queues again. */
module PacketSchedulers {
  import opened Bytes
  import opened Envelope
  import opened Profiles
  import opened LaneQueues
  import opened Scheduler

  datatype LaneQueue = LaneQueue(packets: seq<Octets>, bytes: nat)
  const EMPTY_LANE := LaneQueue([], 0)

  predicate Tallied(q: LaneQueue) { q.bytes == Load(q.packets) }

  /** The eviction loop over one lane, the other lanes holding so many packets and bytes. */
  method EvictLoop(p: Profile, lane: Lane, full: LaneQueue, others: nat, load: nat, size: nat)
    returns (a: Admission, q: LaneQueue)
    requires Tallied(full)
    ensures a == Evict(p, lane, full.packets, others, load, size)
    ensures Tallied(q) && q.packets == full.packets[a.dropped..]
  {
    var b, dropped := p.Budget(lane), 0;
    q := full;
    while |q.packets| >= b.maxPackets || q.bytes + size > b.maxBytes
       || others + |q.packets| >= p.outboxPackets || load + q.bytes + size > p.outboxBytes
      invariant Tallied(q) && 0 <= dropped <= |full.packets| && q.packets == full.packets[dropped..]
      invariant var rest := Evict(p, lane, q.packets, others, load, size);
        Evict(p, lane, full.packets, others, load, size) == Admission(rest.ok, rest.dropped + dropped)
      decreases |q.packets|
    {
      if !b.dropOldest || |q.packets| == 0 { return Admission(false, dropped), q; }
      q := LaneQueue(q.packets[1..], q.bytes - |q.packets[0]|);
      dropped := dropped + 1;
    }
    return Admission(true, dropped), q;
  }

  class PacketScheduler {
    const profile: Profile
    var control: LaneQueue
    var voice: LaneQueue
    var text: LaneQueue
    var file: LaneQueue
    var totalPackets: nat
    var totalBytes: nat

    ghost function View(): (l: Lanes<Octets>)
      reads this
    {
      Lanes(control.packets, voice.packets, text.packets, file.packets)
    }

    /** The running totals agree with the queues. */
    ghost predicate Valid()
      reads this
    {
      && Tallied(control) && Tallied(voice) && Tallied(text) && Tallied(file)
      && totalPackets == Packets(View()) && totalBytes == TotalLoad(View())
    }

    function Queue(lane: Lane): (q: LaneQueue)
      reads this
    {
      match lane case Control => control case Voice => voice case Text => text case File => file
    }

    constructor (p: Profile)
      ensures Valid() && View() == EMPTY && profile == p
    {
      profile := p;
      control, voice, text, file, totalPackets, totalBytes := EMPTY_LANE, EMPTY_LANE, EMPTY_LANE, EMPTY_LANE, 0, 0;
    }

    method Replace(lane: Lane, q: LaneQueue)
      requires Valid() && Tallied(q)
      modifies this
      ensures Valid() && View() == old(View()).Set(lane, q.packets)
    {
      var before := Queue(lane);
      SetCounts(View(), lane, q.packets);
      match lane {
        case Control => control := q;
        case Voice => voice := q;
        case Text => text := q;
        case File => file := q;
      }
      totalPackets := totalPackets - |before.packets| + |q.packets|;
      totalBytes := totalBytes - before.bytes + q.bytes;
    }

    method Shift(lane: Lane)
      requires Valid() && |View().Get(lane)| > 0
      modifies this
      ensures Valid() && View() == old(View()).Set(lane, old(View()).Get(lane)[1..])
    {
      var q := Queue(lane);
      Replace(lane, LaneQueue(q.packets[1..], q.bytes - |q.packets[0]|));
    }

    /** Evicts as the admission rule says; the other lanes are untouched. */
    method MakeRoom(lane: Lane, size: nat) returns (a: Admission)
      requires Valid()
      modifies this
      ensures Valid() && a.dropped <= |old(View()).Get(lane)|
      ensures View() == old(View()).Set(lane, old(View()).Get(lane)[a.dropped..])
      ensures a == Evict(profile, lane, old(View()).Get(lane), Others(old(View()), lane), OtherLoad(old(View()), lane), size)
    {
      var q := Queue(lane);
      var rest;
      a, rest := EvictLoop(profile, lane, q, totalPackets - |q.packets|, totalBytes - q.bytes, size);
      Replace(lane, rest);
    }

    method EnqueuePacket(lane: Lane, x: Octets) returns (a: Admission)
      requires Valid()
      modifies this
      ensures Valid() && a == Admit(profile, old(View()), lane, x)
      ensures View() == old(View()).Set(lane, old(View()).Get(lane)[a.dropped..] + (if a.ok then [x] else []))
    {
      if |x| > profile.maxFrame {
        assert View() == View().Set(lane, View().Get(lane)[0..] + []);
        return Admission(false, 0);
      }
      a := MakeRoom(lane, |x|);
      if a.ok {
        var q := Queue(lane);
        LoadAppend(q.packets, x);
        Replace(lane, LaneQueue(q.packets + [x], q.bytes + |x|));
      }
    }

    method PickLane() returns (best: Option<Lane>)
      ensures best == Best(profile, View())
    {
      best := if |control.packets| > 0 then Some(Control) else None;
      if |voice.packets| > 0 && (best.None? || profile.voice.priority > profile.control.priority) { best := Some(Voice); }
      if |text.packets| > 0 && (best.None? || profile.text.priority > profile.Budget(best.value).priority) { best := Some(Text); }
      if |file.packets| > 0 && (best.None? || profile.file.priority > profile.Budget(best.value).priority) { best := Some(File); }
    }

    /** Takes the oldest packet of the best lane. */
    method NextPacket() returns (x: Option<Octets>)
      requires Valid()
      modifies this
      ensures Valid()
      ensures match Best(profile, old(View()))
        case None => x == None && View() == old(View())
        case Some(lane) =>
          && |old(View()).Get(lane)| > 0 && x == Some(old(View()).Get(lane)[0])
          && View() == old(View()).Set(lane, old(View()).Get(lane)[1..])
    {
      BestIsHighest(profile, View());
      var best := PickLane();
      if best.None? { return None; }
      x := Some(Queue(best.value).packets[0]);
      Shift(best.value);
    }

    method ClearLane(lane: Lane)
      requires Valid()
      modifies this
      ensures Valid() && View() == old(View()).Set(lane, [])
    {
      Replace(lane, EMPTY_LANE);
    }

    /** Clears lane after lane. */
    method Clear()
      requires Valid()
      modifies this
      ensures Valid() && View() == EMPTY
    {
      var lanes := [Control, Voice, Text, File];
      for i := 0 to 4
        invariant Valid() && lanes == [Control, Voice, Text, File]
        invariant forall j :: 0 <= j < i ==> View().Get(lanes[j]) == []
      {
        ClearLane(lanes[i]);
      }
      assert View().Get(lanes[0]) == [] && View().Get(lanes[1]) == [] && View().Get(lanes[2]) == [] && View().Get(lanes[3]) == [];
    }
  }
}
