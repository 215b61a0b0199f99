/**
  * The session controller over the objects it owns: the packet scheduler of its transport and the queue of inbound voice.
  * Each method is the code between two awaits, and is proved to be a step of the epoch machine.
  */
module SessionCore {
  import opened Bytes
  import opened Sequences
  import opened Envelope
  import opened Profiles
  import opened LaneQueues
  import Scheduler
  import opened PacketSchedulers
  import opened VoiceQueue
  import opened Epochs

  /** The arrival epochs of the queued envelopes. */
  ghost function Arrivals(items: seq<Item<nat>>): (r: seq<nat>)
    ensures |r| == |items|
  {
    seq(|items|, i requires 0 <= i < |items| => items[i].value)
  }

  lemma ArrivalsBeyond(items: seq<Item<nat>>, n: nat)
    requires n <= |items|
    ensures Arrivals(items[n..]) == Beyond(Arrivals(items), n)
  {}

  lemma ArrivalsPushed(items: seq<Item<nat>>, x: Item<nat>, n: nat)
    requires n <= |items|
    ensures Arrivals(items[n..] + [x]) == Beyond(Arrivals(items) + [x.value], n)
  {}

  /** As many tags as packets in every lane. */
  ghost predicate Tagged(tags: Lanes<Packet>, packets: Lanes<Octets>)
  {
    && |tags.control| == |packets.control| && |tags.voice| == |packets.voice|
    && |tags.text| == |packets.text| && |tags.file| == |packets.file|
  }

  lemma TaggedSet(tags: Lanes<Packet>, packets: Lanes<Octets>, lane: Lane, q: seq<Packet>, p: seq<Octets>)
    requires Tagged(tags, packets) && |q| == |p|
    ensures Tagged(tags.Set(lane, q), packets.Set(lane, p)) && |tags.Get(lane)| == |packets.Get(lane)|
  {}

  ghost predicate VoiceOk(items: seq<Item<nat>>, maxFrames: nat, clock: nat)
  {
    1 <= maxFrames && |items| <= maxFrames && Ordered(items, clock)
  }

  class Controller {
    const outbox: PacketScheduler
    const inboundVoice: VoiceFreshnessQueue<nat>
    var secureEpoch: nat
    var lifecycleEpoch: nat
    var secure: Option<nat>
    var localPublicKey: Option<nat>
    var tasks: seq<Task>
    var running: Running
    var sends: seq<Sending>
    var shakes: seq<Shake>
    var preparations: seq<nat>
    var issued: nat
    var clock: nat
    /** Whether a visit to the voice queue is due, and whether the task under way is one. */
    var voiceScheduled: bool
    var visitingVoice: bool
    /** For each packet in the scheduler, the epoch it was packed in and the channel that encrypted it. */
    ghost var origins: Lanes<Packet>
    ghost var log: Log

    /** The objects are sound, every packet has its record, and no queued voice frame is without a visit to come. */
    ghost predicate Valid()
      reads this, outbox, inboundVoice
    {
      && outbox.Valid() && Tagged(origins, outbox.View())
      && VoiceOk(inboundVoice.items, inboundVoice.maxFrames, clock)
      && (|inboundVoice.items| > 0 ==> voiceScheduled) && (voiceScheduled ==> visitingVoice || TakeVoice in tasks)
    }

    ghost function View(): (s: Session)
      reads this, inboundVoice
    {
      Session(Guarded(secureEpoch, lifecycleEpoch, secure, localPublicKey, origins, Arrivals(inboundVoice.items)),
              tasks, running, sends, shakes, preparations, issued, log)
    }

    constructor (profile: Profile, voiceFrames: nat, voiceAge: nat)
      ensures Valid() && View() == START && fresh(outbox) && fresh(inboundVoice)
    {
      outbox := new PacketScheduler(profile);
      inboundVoice := new VoiceFreshnessQueue(voiceFrames, voiceAge);
      secureEpoch, lifecycleEpoch, secure, localPublicKey := 0, 0, None, None;
      tasks, running, sends, shakes, preparations, issued, clock := [], Idle, [], [], [], 0, 0;
      voiceScheduled, visitingVoice := false, false;
      origins := NoPackets();
      log := Log([], [], []);
    }

    // ---- changing the epoch ------------------------------------------------

    /** Empties the outbox lane by lane and the voice queue, and drops channel and key. */
    method ClearGuarded()
      requires Valid()
      modifies this`secure, this`localPublicKey, this`origins, this`voiceScheduled, outbox, inboundVoice`items
      ensures Valid() && View() == old(View()).(core := Guarded(secureEpoch, lifecycleEpoch, None, None, NoPackets(), []))
    {
      outbox.Clear();
      origins := NoPackets();
      var count := inboundVoice.Clear();
      voiceScheduled := false;
      secure := None;
      localPublicKey := None;
    }

    method DisconnectSession()
      requires Valid()
      modifies this`secureEpoch, this`secure, this`localPublicKey, this`origins, this`voiceScheduled, this`lifecycleEpoch, outbox, inboundVoice`items
      ensures Valid() && View() == LeaveSession(old(View()))
    {
      lifecycleEpoch := lifecycleEpoch + 1;
      secureEpoch := secureEpoch + 1;
      ClearGuarded();
    }

    /** A new room: the old session is left, and an identity asked for in the new lifecycle. */
    method BeginRoom()
      requires Valid()
      modifies this`secureEpoch, this`secure, this`localPublicKey, this`origins, this`voiceScheduled, this`lifecycleEpoch, this`preparations, outbox, inboundVoice`items
      ensures Valid() && View() == EnterRoom(old(View()))
    {
      DisconnectSession();
      preparations := preparations + [lifecycleEpoch];
    }

    method PrepareFreshCryptoEpoch()
      requires Valid()
      modifies this`secureEpoch, this`secure, this`localPublicKey, this`origins, this`voiceScheduled, this`preparations, outbox, inboundVoice`items
      ensures Valid() && View() == FreshEpoch(old(View()))
    {
      preparations := preparations + [lifecycleEpoch];
      secureEpoch := secureEpoch + 1;
      ClearGuarded();
    }

    method IdentityGenerated(k: nat)
      requires Valid()
      modifies this`preparations, this`localPublicKey, this`issued
      ensures Valid() && View() == TakeKey(old(View()), k)
    {
      if k >= |preparations| { return; }
      var lifecycle := preparations[k];
      preparations := Without(preparations, k);
      if lifecycle != lifecycleEpoch { return; }
      localPublicKey := Some(issued);
      issued := issued + 1;
    }

    // ---- inbound -----------------------------------------------------------

    /** scheduleInboundVoice: one visit at a time is put behind the other inbound work. */
    method ScheduleInboundVoice() returns (visit: bool)
      modifies this`voiceScheduled, this`tasks
      ensures voiceScheduled && visit == !old(voiceScheduled)
      ensures tasks == if visit then old(tasks) + [TakeVoice] else old(tasks)
    {
      visit := !voiceScheduled;
      if visit {
        voiceScheduled := true;
        tasks := tasks + [TakeVoice];
      }
    }

    /** Into the voice queue, which may drop its oldest frame for it, and a visit scheduled if none is due. */
    method QueueInboundVoice(now: nat) returns (trimmed: nat, visit: bool)
      requires Valid() && clock <= now && secure.Some?
      modifies this`clock, this`voiceScheduled, this`tasks, inboundVoice`items
      ensures Valid() && Arrivals(inboundVoice.items) == Beyond(old(Arrivals(inboundVoice.items)) + [secureEpoch], trimmed)
      ensures tasks == if visit then old(tasks) + [TakeVoice] else old(tasks)
    {
      clock := now;
      ghost var before := inboundVoice.items;
      trimmed := inboundVoice.Push(secureEpoch, now);
      ArrivalsPushed(before, Item(secureEpoch, now), trimmed);
      visit := ScheduleInboundVoice();
    }

    /** Voice without a channel is dropped, with one it is queued; everything else waits its turn. */
    method RouteEnvelope(env: Arrival, now: nat) returns (trimmed: nat, visit: bool)
      requires Valid() && clock <= now
      modifies this`clock, this`voiceScheduled, this`tasks, inboundVoice`items
      ensures Valid()
      ensures View() == var routed := Route(old(View()), env, trimmed); if visit then ScheduleVisit(routed) else routed
    {
      trimmed, visit := 0, false;
      if !env.VoiceEnvelope? {
        tasks := tasks + [Open(env, secureEpoch)];
      } else if secure.Some? {
        trimmed, visit := QueueInboundVoice(now);
      }
    }

    /** The end of a visit: another is scheduled while frames are queued. */
    method FinishVoiceVisit() returns (visit: bool)
      requires Valid()
      modifies this`voiceScheduled, this`visitingVoice, this`tasks
      ensures Valid() && View() == if visit then ScheduleVisit(old(View())) else old(View())
      ensures old(visitingVoice && running.Idle?) ==> !visitingVoice && (visit <==> |inboundVoice.items| > 0)
    {
      visit := false;
      if !visitingVoice || !running.Idle? { return; }
      visitingVoice, voiceScheduled := false, false;
      if |inboundVoice.items| > 0 {
        visit := ScheduleInboundVoice();
      }
    }

    method OnEnvelope(env: Arrival, arrival: nat, epoch: nat)
      requires Valid()
      modifies this`running
      ensures Valid() && View() == OpenEnvelope(old(View()), env, arrival, epoch)
    {
      if epoch != secureEpoch { return; }
      if env.HandshakeEnvelope? {
        if localPublicKey.Some? && secure.None? {
          running := Shaking(secureEpoch);
        }
        return;
      }
      if secure.Some? {
        running := Decrypting(arrival, epoch, secure.value);
      }
    }

    /** A visit to the voice queue drops what is stale and opens the oldest frame left. */
    method VisitVoice() returns (stale: nat)
      requires Valid() && running.Idle? && |tasks| > 0 && tasks[0] == TakeVoice
      modifies this`tasks, this`running, this`visitingVoice, inboundVoice`items
      ensures Valid() && View() == StartTask(old(View()), stale)
    {
      visitingVoice, tasks := true, tasks[1..];
      var frame;
      frame, stale := TakeFrame();
      if frame.Some? {
        OnEnvelope(VoiceEnvelope, frame.value, secureEpoch);
      }
    }

    /** One task at a time, and none while a visit to the voice queue has still to finish. */
    method RunNextTask(now: nat) returns (stale: nat)
      requires Valid() && clock <= now
      modifies this`clock, this`tasks, this`running, this`visitingVoice, inboundVoice`items
      ensures Valid() && View() == if old(visitingVoice) then old(View()) else StartTask(old(View()), stale)
    {
      clock := now;
      stale := 0;
      if !running.Idle? || visitingVoice || |tasks| == 0 { return; }
      match tasks[0] {
        case Open(env, epoch) =>
          tasks := tasks[1..];
          OnEnvelope(env, epoch, epoch);
        case TakeVoice => stale := VisitVoice();
      }
    }

    method TakeFrame() returns (frame: Option<nat>, stale: nat)
      requires Valid()
      modifies inboundVoice`items
      ensures Valid()
      ensures var queued := Beyond(old(Arrivals(inboundVoice.items)), stale);
        if frame.None? then queued == [] && Arrivals(inboundVoice.items) == []
        else |queued| > 0 && queued[0] == frame.value && Arrivals(inboundVoice.items) == queued[1..]
    {
      ghost var before := inboundVoice.items;
      var next := inboundVoice.ShiftFresh(clock);
      TakenFrame(before, inboundVoice.items, next);
      return next.value, next.dropped;
    }

    method HandleAppMessage(arrival: nat, unwrapped: bool)
      requires Valid()
      modifies this`running, this`log
      ensures Valid() && View() == Deliver(old(View()), arrival, unwrapped)
    {
      running := Handling;
      log := log.(dispatched := log.dispatched + [Dispatch(arrival, secureEpoch, unwrapped)]);
    }

    method Decrypted(ok: bool, reliable: bool)
      requires Valid()
      modifies this`running, this`log
      ensures Valid() && View() == FinishDecrypt(old(View()), ok, reliable)
    {
      if !running.Decrypting? { return; }
      if !ok || running.epoch != secureEpoch || secure != Some(running.channel) {
        running := Idle;
      } else if reliable {
        running := Unwrapping(running.arrival);
      } else {
        HandleAppMessage(running.arrival, false);
      }
    }

    method Acknowledged(returned: bool)
      requires Valid()
      modifies this`running, this`log
      ensures Valid() && View() == FinishUnwrap(old(View()), returned)
    {
      if !running.Unwrapping? { return; }
      if returned {
        HandleAppMessage(running.arrival, true);
      } else {
        running := Idle;
      }
    }

    method HandlerReturns()
      requires Valid()
      modifies this`running
      ensures Valid() && View() == EndHandler(old(View()))
    {
      if running.Handling? {
        running := Idle;
      }
    }

    /** The new channel becomes the session's. */
    method InstallChannel(begun: nat)
      requires Valid()
      modifies this`running, this`log, this`secure, this`issued
      ensures Valid() && running == Handling && secure == Some(old(issued)) && issued == old(issued) + 1
      ensures log == old(log).(installed := old(log).installed + [Install(begun, secureEpoch)])
    {
      log := log.(installed := log.installed + [Install(begun, secureEpoch)]);
      secure, issued, running := Some(issued), issued + 1, Handling;
    }

    method HandshakeEstablished(installed: bool)
      requires Valid()
      modifies this`running, this`log, this`secure, this`issued
      ensures Valid() && View() == FinishShake(old(View()), installed)
    {
      if !running.Shaking? { return; }
      if !installed {
        running := Idle;
        return;
      }
      InstallChannel(running.begun);
    }

    // ---- outbound ----------------------------------------------------------

    /**
      * transport.send: voice is refused while the socket is not ready for it; otherwise packed bytes go to the scheduler,
      * whose answer their records follow.
      */
    method Enqueue(lane: Lane, bytes: Octets, voiceReady: bool, ghost tag: Packet) returns (answer: Admission)
      requires Valid()
      modifies this`origins, outbox
      ensures Valid() && origins == Offered(old(origins), lane, tag, answer)
      ensures answer == if lane == Voice && !voiceReady then Admission(false, 0)
                        else Scheduler.Admit(outbox.profile, old(outbox.View()), lane, bytes)
    {
      if lane == Voice && !voiceReady {
        NothingOffered(origins, lane, tag);
        return Admission(false, 0);
      }
      ghost var before := outbox.View();
      answer := outbox.EnqueuePacket(lane, bytes);
      ghost var kept := origins.Get(lane)[answer.dropped..] + (if answer.ok then [tag] else []);
      TaggedSet(origins, before, lane, kept, before.Get(lane)[answer.dropped..] + (if answer.ok then [bytes] else []));
      origins := origins.Set(lane, kept);
    }

    method SendRawApp(lane: Lane)
      requires Valid()
      modifies this`sends
      ensures Valid() && View() == StartSend(old(View()), lane)
    {
      if secure.Some? {
        sends := sends + [Sending(secureEpoch, secure.value, lane)];
      }
    }

    /** The k-th suspended send has its ciphertext packed, or failed; it is queued only if epoch and channel are unchanged. */
    method Encrypted(k: nat, packed: Option<Octets>, voiceReady: bool) returns (answer: Admission)
      requires Valid()
      modifies this`sends, this`origins, outbox
      ensures Valid() && View() == FinishEncrypt(old(View()), k, packed.Some?, answer)
    {
      answer := Admission(false, 0);
      if k >= |sends| { return; }
      var x := sends[k];
      sends := Without(sends, k);
      if packed.Some? && x.epoch == secureEpoch && secure == Some(x.channel) {
        answer := Enqueue(x.lane, packed.value, voiceReady, Data(secureEpoch, x.channel));
      }
    }

    method SendHandshake()
      requires Valid()
      modifies this`shakes
      ensures Valid() && View() == StartHandshake(old(View()))
    {
      if localPublicKey.Some? {
        shakes := shakes + [Shake(lifecycleEpoch, secureEpoch, localPublicKey.value)];
      }
    }

    method ProfileHashed(k: nat, packed: Option<Octets>) returns (answer: Admission)
      requires Valid()
      modifies this`shakes, this`origins, outbox
      ensures Valid() && View() == FinishHash(old(View()), k, packed.Some?, answer)
    {
      answer := Admission(false, 0);
      if k >= |shakes| { return; }
      var x := shakes[k];
      shakes := Without(shakes, k);
      if packed.Some? && x.lifecycle == lifecycleEpoch && x.epoch == secureEpoch && localPublicKey == Some(x.key) {
        answer := Enqueue(Control, packed.value, true, Handshake(secureEpoch));
      }
    }

    /** Takes the oldest packet of the best lane, and its record. */
    method TakePacket() returns (bytes: Option<Octets>, lane: Lane, ghost tag: Packet)
      requires Valid()
      modifies this`origins, outbox
      ensures Valid() && (bytes.None? <==> Scheduler.Best(outbox.profile, old(outbox.View())).None?)
      ensures bytes.None? ==> origins == old(origins)
      ensures bytes.Some? ==>
        && Scheduler.Best(outbox.profile, old(outbox.View())) == Some(lane)
        && |old(outbox.View()).Get(lane)| > 0 && bytes == Some(old(outbox.View()).Get(lane)[0])
        && |old(origins).Get(lane)| > 0 && tag == old(origins).Get(lane)[0]
        && origins == old(origins).Set(lane, old(origins).Get(lane)[1..])
    {
      ghost var before := outbox.View();
      var best := outbox.PickLane();
      bytes := outbox.NextPacket();
      lane, tag := Control, Handshake(0);
      if bytes.Some? {
        lane := best.value;
        TaggedSet(origins, before, lane, origins.Get(lane)[1..], before.Get(lane)[1..]);
        tag := origins.Get(lane)[0];
        origins := origins.Set(lane, origins.Get(lane)[1..]);
      }
    }

    /**
      * One turn of the drain loop. Nothing is taken while the socket holds too much already; a voice packet is dropped
      * rather than written behind more than voice can wait for.
      */
    method WriteToSocket(buffered: nat, maxBuffered: nat, voiceLimit: nat) returns (written: Option<Octets>)
      requires Valid()
      modifies this`origins, this`log, outbox
      ensures Valid()
      ensures match Scheduler.Best(outbox.profile, old(outbox.View()))
        case None => written == None && View() == old(View())
        case Some(lane) =>
          if buffered > maxBuffered then written == None && View() == old(View())
          else if lane == Voice && buffered > voiceLimit then written == None && View() == DropPacket(old(View()), lane)
          else
            && |old(outbox.View()).Get(lane)| > 0 && written == Some(old(outbox.View()).Get(lane)[0])
            && View() == Depart(old(View()), lane)
    {
      if buffered > maxBuffered { return None; }
      var bytes, lane;
      ghost var tag;
      bytes, lane, tag := TakePacket();
      if bytes.None? || (lane == Voice && buffered > voiceLimit) { return None; }
      log := log.(departed := log.departed + [Departure(tag, secureEpoch, secure)]);
      return bytes;
    }
  }

  lemma NothingOffered(l: Lanes<Packet>, lane: Lane, x: Packet)
    ensures Offered(l, lane, x, Admission(false, 0)) == l
  {
    assert l.Get(lane)[0..] + [] == l.Get(lane);
  }

  /** What is left of the queue after a frame was taken, and the frame, by their arrival epochs. */
  lemma TakenFrame(before: seq<Item<nat>>, after: seq<Item<nat>>, next: Shift<nat>)
    requires next.dropped <= |before| && (next.value.None? <==> next.dropped == |before|)
    requires next.value.None? ==> after == []
    requires next.value.Some? ==> next.value.value == before[next.dropped].value && after == before[next.dropped + 1..]
    ensures var queued := Beyond(Arrivals(before), next.dropped);
      if next.value.None? then queued == [] && Arrivals(after) == []
      else |queued| > 0 && queued[0] == next.value.value && Arrivals(after) == queued[1..]
  {
    if next.value.Some? {
      ArrivalsBeyond(before, next.dropped);
      ArrivalsBeyond(before, next.dropped + 1);
    }
  }
}
