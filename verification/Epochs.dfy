/**
  * The crypto-epoch discipline of the session: what is queued, sent and dispatched across epoch changes, at every
  * interleaving of the suspended operations.
  */
module Epochs {
  import opened Bytes
  import opened Sequences
  import opened Envelope
  import opened LaneQueues

  /** A packed packet: the epoch it was packed in and, for data, the channel object that encrypted it. */
  datatype Packet = Handshake(epoch: nat) | Data(epoch: nat, channel: nat)

  datatype Arrival = HandshakeEnvelope | DataEnvelope | VoiceEnvelope

  /** Inbound work in arrival order: an envelope with the epoch of its arrival, or a visit to the voice queue. */
  datatype Task = Open(env: Arrival, epoch: nat) | TakeVoice

  /**
    * The inbound task that is suspended, if any: decrypting under a channel, waiting for a reliable message to be
    * acknowledged before its body is dispatched, in the middle of a handshake, or in a message handler.
    * `arrival` is the epoch in which the envelope arrived, `epoch` the one the code compares with.
    */
  datatype Running =
    | Idle
    | Decrypting(arrival: nat, epoch: nat, channel: nat)
    | Unwrapping(arrival: nat)
    | Shaking(begun: nat)
    | Handling

  datatype Sending = Sending(epoch: nat, channel: nat, lane: Lane)
  datatype Shake = Shake(lifecycle: nat, epoch: nat, key: nat)

  /** A message handed to the application: the epoch it arrived in, the epoch then current, and whether it was unwrapped. */
  datatype Dispatch = Dispatch(arrival: nat, now: nat, unwrapped: bool)
  /** A packet written to the socket, with the epoch and channel then current. */
  datatype Departure = Departure(packet: Packet, now: nat, secure: Option<nat>)
  /** A channel installed by a handshake, with the epoch the handshake began in and the epoch then current. */
  datatype Install = Install(begun: nat, now: nat)

  datatype Log = Log(dispatched: seq<Dispatch>, departed: seq<Departure>, installed: seq<Install>)

  /** The fields epochs protect: the lanes of the outbox, the inbound voice queue (arrival epochs), channel and key. */
  datatype Guarded = Guarded(epoch: nat, lifecycle: nat, secure: Option<nat>, key: Option<nat>, queue: Lanes<Packet>, voice: seq<nat>)

  /** `preparations` holds, for each suspended epoch preparation, the lifecycle it began in; `issued` counts fresh objects. */
  datatype Session = Session(
    core: Guarded, tasks: seq<Task>, running: Running, sends: seq<Sending>, shakes: seq<Shake>, preparations: seq<nat>,
    issued: nat, log: Log)

  const START := Session(Guarded(0, 0, None, None, NoPackets(), []), [], Idle, [], [], [], 0, Log([], [], []))

  /** Events carry what the model leaves open: how many voice frames a queue dropped, how the scheduler answered. */
  datatype Event =
    | Disconnect | StartRoom | PrepareFresh | KeyGenerated(k: nat) | SocketClosed
    | Arrives(env: Arrival, trimmed: nat) | TaskStarts(stale: nat) | DecryptEnds(ok: bool, reliable: bool)
    | UnwrapEnds(returned: bool) | ShakeEnds(installed: bool) | HandlerEnds | VoiceScheduled | VoiceTrimmed(trimmed: nat)
    | SendStarts(lane: Lane) | EncryptEnds(k: nat, ok: bool, answer: Admission)
    | HandshakeStarts | HashEnds(k: nat, ok: bool, answer: Admission)
    | Departs(lane: Lane) | PacketDropped(lane: Lane)

  /** Without its first n elements, or empty if there are fewer. */
  function Beyond<T>(s: seq<T>, n: nat): (r: seq<T>) { if n >= |s| then [] else s[n..] }

  // ---- epoch changes -------------------------------------------------------

  /** All ways of leaving an epoch clear everything it protects in the same step. */
  function Leave(c: Guarded, lifecycle: nat): (r: Guarded)
  {
    Guarded(c.epoch + 1, lifecycle, None, None, NoPackets(), [])
  }

  function LeaveSession(s: Session): (r: Session) { s.(core := Leave(s.core, s.core.lifecycle + 1)) }

  /** A new room leaves the old session and asks for an identity in the new lifecycle. */
  function EnterRoom(s: Session): (r: Session)
  {
    var left := LeaveSession(s);
    left.(preparations := s.preparations + [left.core.lifecycle])
  }

  function FreshEpoch(s: Session): (r: Session)
  {
    s.(core := Leave(s.core, s.core.lifecycle), preparations := s.preparations + [s.core.lifecycle])
  }

  function TakeKey(s: Session, k: nat): (r: Session)
  {
    if k >= |s.preparations| then s else
    var rest := s.(preparations := Without(s.preparations, k));
    if s.preparations[k] != s.core.lifecycle then rest
    else rest.(core := s.core.(key := Some(s.issued)), issued := s.issued + 1)
  }

  function ChangeEpoch(s: Session, e: Event): (r: Session)
  {
    match e
    case Disconnect => LeaveSession(s)
    case StartRoom => EnterRoom(s)
    case PrepareFresh => FreshEpoch(s)
    case KeyGenerated(k) => TakeKey(s, k)
    case SocketClosed => s.(core := s.core.(queue := NoPackets()))
    case _ => s
  }

  // ---- inbound -------------------------------------------------------------

  function Route(s: Session, env: Arrival, trimmed: nat): (r: Session)
  {
    if env.VoiceEnvelope? then
      if s.core.secure.None? then s
      else s.(core := s.core.(voice := Beyond(s.core.voice + [s.core.epoch], trimmed)))
    else s.(tasks := s.tasks + [Open(env, s.core.epoch)])
  }

  function ScheduleVisit(s: Session): (r: Session) { s.(tasks := s.tasks + [TakeVoice]) }

  function EndHandler(s: Session): (r: Session) { if s.running.Handling? then s.(running := Idle) else s }

  /** onEnvelope up to its first await. */
  function OpenEnvelope(s: Session, env: Arrival, arrival: nat, epoch: nat): (r: Session)
  {
    if epoch != s.core.epoch then s
    else if env.HandshakeEnvelope? then
      if s.core.key.None? || s.core.secure.Some? then s else s.(running := Shaking(s.core.epoch))
    else if s.core.secure.None? then s
    else s.(running := Decrypting(arrival, epoch, s.core.secure.value))
  }

  /** The voice queue drops what has grown stale and gives out the next frame, if one is left. */
  function StartTask(s: Session, stale: nat): (r: Session)
  {
    if !s.running.Idle? || |s.tasks| == 0 then s else
    var rest := s.(tasks := s.tasks[1..]);
    match s.tasks[0]
    case Open(env, epoch) => OpenEnvelope(rest, env, epoch, epoch)
    case TakeVoice =>
      var queued := Beyond(s.core.voice, stale);
      if |queued| == 0 then rest.(core := s.core.(voice := []))
      else OpenEnvelope(rest.(core := s.core.(voice := queued[1..])), VoiceEnvelope, queued[0], s.core.epoch)
  }

  function Deliver(s: Session, arrival: nat, unwrapped: bool): (r: Session)
  {
    s.(running := Handling, log := s.log.(dispatched := s.log.dispatched + [Dispatch(arrival, s.core.epoch, unwrapped)]))
  }

  function FinishDecrypt(s: Session, ok: bool, reliable: bool): (r: Session)
  {
    match s.running
    case Decrypting(arrival, epoch, channel) =>
      if !ok || epoch != s.core.epoch || s.core.secure != Some(channel) then s.(running := Idle)
      else if reliable then s.(running := Unwrapping(arrival))
      else Deliver(s, arrival, false)
    case _ => s
  }

  /** The reliable body is dispatched without another look at the epoch. */
  function FinishUnwrap(s: Session, returned: bool): (r: Session)
  {
    match s.running
    case Unwrapping(arrival) => if returned then Deliver(s, arrival, true) else s.(running := Idle)
    case _ => s
  }

  /** The handshake installs its channel without another look at the epoch. */
  function FinishShake(s: Session, installed: bool): (r: Session)
  {
    match s.running
    case Shaking(begun) =>
      if !installed then s.(running := Idle)
      else s.(running := Handling, core := s.core.(secure := Some(s.issued)), issued := s.issued + 1,
              log := s.log.(installed := s.log.installed + [Install(begun, s.core.epoch)]))
    case _ => s
  }

  function Inbound(s: Session, e: Event): (r: Session)
  {
    match e
    case Arrives(env, trimmed) => Route(s, env, trimmed)
    case TaskStarts(stale) => StartTask(s, stale)
    case DecryptEnds(ok, reliable) => FinishDecrypt(s, ok, reliable)
    case UnwrapEnds(returned) => FinishUnwrap(s, returned)
    case ShakeEnds(installed) => FinishShake(s, installed)
    case HandlerEnds => EndHandler(s)
    case VoiceScheduled => ScheduleVisit(s)
    case VoiceTrimmed(trimmed) => s.(core := s.core.(voice := Beyond(s.core.voice, trimmed)))
    case _ => s
  }

  // ---- outbound ------------------------------------------------------------

  /** A send remembers the epoch and the channel it began under. */
  function StartSend(s: Session, lane: Lane): (r: Session)
  {
    if s.core.secure.None? then s else s.(sends := s.sends + [Sending(s.core.epoch, s.core.secure.value, lane)])
  }

  function FinishEncrypt(s: Session, k: nat, ok: bool, answer: Admission): (r: Session)
  {
    if k >= |s.sends| then s else
    var x, rest := s.sends[k], s.(sends := Without(s.sends, k));
    if !ok || x.epoch != s.core.epoch || s.core.secure != Some(x.channel) then rest
    else rest.(core := s.core.(queue := Offered(s.core.queue, x.lane, Data(s.core.epoch, x.channel), answer)))
  }

  /** A handshake remembers the lifecycle, the epoch and the key it began under. */
  function StartHandshake(s: Session): (r: Session)
  {
    if s.core.key.None? then s
    else s.(shakes := s.shakes + [Shake(s.core.lifecycle, s.core.epoch, s.core.key.value)])
  }

  function FinishHash(s: Session, k: nat, ok: bool, answer: Admission): (r: Session)
  {
    if k >= |s.shakes| then s else
    var x, rest := s.shakes[k], s.(shakes := Without(s.shakes, k));
    if !ok || x.lifecycle != s.core.lifecycle || x.epoch != s.core.epoch || s.core.key != Some(x.key) then rest
    else rest.(core := s.core.(queue := Offered(s.core.queue, Control, Handshake(s.core.epoch), answer)))
  }

  function Depart(s: Session, lane: Lane): (r: Session)
  {
    var q := s.core.queue.Get(lane);
    if |q| == 0 then s else
    s.(core := s.core.(queue := s.core.queue.Set(lane, q[1..])),
       log := s.log.(departed := s.log.departed + [Departure(q[0], s.core.epoch, s.core.secure)]))
  }

  function DropPacket(s: Session, lane: Lane): (r: Session)
  {
    var q := s.core.queue.Get(lane);
    if |q| == 0 then s else s.(core := s.core.(queue := s.core.queue.Set(lane, q[1..])))
  }

  function Outbound(s: Session, e: Event): (r: Session)
  {
    match e
    case SendStarts(lane) => StartSend(s, lane)
    case EncryptEnds(k, ok, answer) => FinishEncrypt(s, k, ok, answer)
    case HandshakeStarts => StartHandshake(s)
    case HashEnds(k, ok, answer) => FinishHash(s, k, ok, answer)
    case Departs(lane) => Depart(s, lane)
    case PacketDropped(lane) => DropPacket(s, lane)
    case _ => s
  }

  function Next(s: Session, e: Event): (r: Session)
  {
    match e
    case Disconnect => ChangeEpoch(s, e)
    case StartRoom => ChangeEpoch(s, e)
    case PrepareFresh => ChangeEpoch(s, e)
    case KeyGenerated(_) => ChangeEpoch(s, e)
    case SocketClosed => ChangeEpoch(s, e)
    case SendStarts(_) => Outbound(s, e)
    case EncryptEnds(_, _, _) => Outbound(s, e)
    case HandshakeStarts => Outbound(s, e)
    case HashEnds(_, _, _) => Outbound(s, e)
    case Departs(_) => Outbound(s, e)
    case PacketDropped(_) => Outbound(s, e)
    case _ => Inbound(s, e)
  }

  function Run(s: Session, es: seq<Event>): (r: Session)
  {
    if |es| == 0 then s else Next(Run(s, es[..|es| - 1]), es[|es| - 1])
  }

  // ---- the invariant -------------------------------------------------------

  /** Packed in this epoch, and data encrypted by this channel. */
  predicate Current(p: Packet, epoch: nat, secure: Option<nat>)
  {
    p.epoch == epoch && (p.Data? ==> secure == Some(p.channel))
  }

  ghost predicate AllCurrentPackets(q: seq<Packet>, epoch: nat, secure: Option<nat>)
  {
    forall k :: 0 <= k < |q| ==> Current(q[k], epoch, secure)
  }

  ghost predicate QueueCurrent(l: Lanes<Packet>, epoch: nat, secure: Option<nat>)
  {
    && AllCurrentPackets(l.control, epoch, secure) && AllCurrentPackets(l.voice, epoch, secure)
    && AllCurrentPackets(l.text, epoch, secure) && AllCurrentPackets(l.file, epoch, secure)
  }

  ghost predicate Guards(c: Guarded)
  {
    QueueCurrent(c.queue, c.epoch, c.secure) && forall k :: 0 <= k < |c.voice| ==> c.voice[k] == c.epoch
  }

  lemma LaneCurrent(l: Lanes<Packet>, epoch: nat, secure: Option<nat>, lane: Lane)
    requires QueueCurrent(l, epoch, secure)
    ensures AllCurrentPackets(l.Get(lane), epoch, secure)
  {}

  lemma SetCurrent(l: Lanes<Packet>, epoch: nat, secure: Option<nat>, lane: Lane, q: seq<Packet>)
    requires QueueCurrent(l, epoch, secure) && AllCurrentPackets(q, epoch, secure)
    ensures QueueCurrent(l.Set(lane, q), epoch, secure)
  {}

  lemma OfferedCurrent(l: Lanes<Packet>, epoch: nat, secure: Option<nat>, lane: Lane, x: Packet, a: Admission)
    requires QueueCurrent(l, epoch, secure) && Current(x, epoch, secure)
    ensures QueueCurrent(Offered(l, lane, x, a), epoch, secure)
  {
    var q := l.Get(lane);
    LaneCurrent(l, epoch, secure, lane);
    if a.dropped <= |q| {
      SetCurrent(l, epoch, secure, lane, q[a.dropped..] + (if a.ok then [x] else []));
    }
  }

  ghost predicate DispatchesOk(d: seq<Dispatch>)
  {
    forall k :: 0 <= k < |d| ==> d[k].arrival == d[k].now || (d[k].unwrapped && d[k].arrival < d[k].now)
  }

  ghost predicate DeparturesOk(d: seq<Departure>)
  {
    forall k :: 0 <= k < |d| ==> Current(d[k].packet, d[k].now, d[k].secure)
  }

  predicate RunningOk(r: Running, c: Guarded)
  {
    match r
    case Decrypting(arrival, epoch, _) => arrival == epoch <= c.epoch
    case Unwrapping(arrival) => arrival <= c.epoch
    case Shaking(begun) => begun <= c.epoch && c.secure.None?
    case _ => true
  }

  ghost predicate Invariant(s: Session)
  {
    Guards(s.core) && RunningOk(s.running, s.core) && DispatchesOk(s.log.dispatched) && DeparturesOk(s.log.departed)
  }

  lemma ChangeKeeps(s: Session, e: Event)
    requires Invariant(s)
    ensures Invariant(ChangeEpoch(s, e))
  {}

  lemma StartKeeps(s: Session, stale: nat)
    requires Invariant(s)
    ensures Invariant(StartTask(s, stale))
  {}

  lemma InboundKeeps(s: Session, e: Event)
    requires Invariant(s)
    ensures Invariant(Inbound(s, e))
  {
    if e.TaskStarts? {
      StartKeeps(s, e.stale);
    }
  }

  lemma TakeKeeps(s: Session, lane: Lane)
    requires Invariant(s) && |s.core.queue.Get(lane)| > 0
    ensures Invariant(Outbound(s, Departs(lane))) && Invariant(Outbound(s, PacketDropped(lane)))
  {
    var q := s.core.queue.Get(lane);
    LaneCurrent(s.core.queue, s.core.epoch, s.core.secure, lane);
    SetCurrent(s.core.queue, s.core.epoch, s.core.secure, lane, q[1..]);
    assert Current(q[0], s.core.epoch, s.core.secure);
  }

  lemma OutboundKeeps(s: Session, e: Event)
    requires Invariant(s)
    ensures Invariant(Outbound(s, e))
  {
    match e
    case EncryptEnds(k, ok, answer) =>
      if k < |s.sends| && s.sends[k].epoch == s.core.epoch && s.core.secure == Some(s.sends[k].channel) {
        OfferedCurrent(s.core.queue, s.core.epoch, s.core.secure, s.sends[k].lane, Data(s.core.epoch, s.sends[k].channel), answer);
      }
    case HashEnds(_, _, answer) =>
      OfferedCurrent(s.core.queue, s.core.epoch, s.core.secure, Control, Handshake(s.core.epoch), answer);
    case Departs(lane) =>
      if |s.core.queue.Get(lane)| > 0 {
        TakeKeeps(s, lane);
      }
    case PacketDropped(lane) =>
      if |s.core.queue.Get(lane)| > 0 {
        TakeKeeps(s, lane);
      }
    case _ =>
  }

  lemma NextKeeps(s: Session, e: Event)
    requires Invariant(s)
    ensures Invariant(Next(s, e))
  {
    ChangeKeeps(s, e);
    InboundKeeps(s, e);
    OutboundKeeps(s, e);
  }

  lemma {:induction false} RunKeeps(s: Session, es: seq<Event>)
    requires Invariant(s)
    ensures Invariant(Run(s, es))
  {
    if |es| != 0 {
      RunKeeps(s, es[..|es| - 1]);
      NextKeeps(Run(s, es[..|es| - 1]), es[|es| - 1]);
    }
  }

  /**
    * At every interleaving: each queued packet was packed in the current epoch and each queued data packet encrypted by
    * the current channel, so without a channel no data is queued; each queued voice envelope arrived in the current
    * epoch; every packet that left was current when it left; and every message dispatched as it was decrypted had
    * arrived in the epoch current at its dispatch.
    */
  lemma NothingStaleLeavesOrIsDispatched(es: seq<Event>, lane: Lane)
    ensures var s := Run(START, es);
      && AllCurrentPackets(s.core.queue.Get(lane), s.core.epoch, s.core.secure)
      && (s.core.secure.None? ==> forall k :: 0 <= k < |s.core.queue.Get(lane)| ==> s.core.queue.Get(lane)[k].Handshake?)
      && (forall k :: 0 <= k < |s.core.voice| ==> s.core.voice[k] == s.core.epoch)
      && DeparturesOk(s.log.departed)
      && (forall k :: 0 <= k < |s.log.dispatched| ==> !s.log.dispatched[k].unwrapped ==>
            s.log.dispatched[k].arrival == s.log.dispatched[k].now)
  {
    RunKeeps(START, es);
    var c := Run(START, es).core;
    LaneCurrent(c.queue, c.epoch, c.secure, lane);
  }

  // ---- bodies of reliable messages, and handshakes -------------------------

  predicate ChangesEpoch(e: Event) { e.Disconnect? || e.StartRoom? || e.PrepareFresh? }

  /** A reliable message being acknowledged, or a handshake under way: neither looks at the epoch again. */
  predicate Exposed(r: Running) { r.Unwrapping? || r.Shaking? }

  predicate Completes(r: Running, e: Event)
  {
    (r.Unwrapping? && e == UnwrapEnds(true)) || (r.Shaking? && e == ShakeEnds(true))
  }

  /** The epoch has changed since the exposed operation that is running began. */
  ghost predicate Overtaken(es: seq<Event>)
  {
    && |es| != 0 && Exposed(Run(START, es).running)
    && (ChangesEpoch(es[|es| - 1]) || Overtaken(es[..|es| - 1]))
  }

  /** No operation completes after an epoch change has overtaken it. */
  ghost predicate NoneCompletesLate(es: seq<Event>)
  {
    |es| == 0 ||
    (var front := es[..|es| - 1];
     NoneCompletesLate(front) && !(Overtaken(front) && Completes(Run(START, front).running, es[|es| - 1])))
  }

  ghost predicate DispatchedInTime(d: seq<Dispatch>)
  {
    |d| == 0 || (DispatchedInTime(d[..|d| - 1]) && d[|d| - 1].arrival == d[|d| - 1].now)
  }

  ghost predicate InstalledInTime(d: seq<Install>)
  {
    |d| == 0 || (InstalledInTime(d[..|d| - 1]) && d[|d| - 1].begun == d[|d| - 1].now)
  }

  ghost predicate AllCurrent(l: Log) { DispatchedInTime(l.dispatched) && InstalledInTime(l.installed) }

  predicate Timely(s: Session)
  {
    match s.running
    case Unwrapping(arrival) => arrival == s.core.epoch
    case Shaking(begun) => begun == s.core.epoch
    case _ => true
  }

  lemma TimelyRunning(s: Session, e: Event)
    requires Invariant(s)
    ensures var r := Next(s, e);
      Exposed(r.running) ==> (Timely(r) <==> !ChangesEpoch(e) && (Exposed(s.running) ==> Timely(s)))
  {}

  lemma DispatchedSnoc(d: seq<Dispatch>, x: Dispatch)
    ensures DispatchedInTime(d + [x]) <==> DispatchedInTime(d) && x.arrival == x.now
  {
    assert (d + [x])[..|d|] == d;
  }

  lemma InstalledSnoc(d: seq<Install>, x: Install)
    ensures InstalledInTime(d + [x]) <==> InstalledInTime(d) && x.begun == x.now
  {
    assert (d + [x])[..|d|] == d;
  }

  lemma DecryptTimely(s: Session, ok: bool, reliable: bool)
    requires Invariant(s)
    ensures AllCurrent(FinishDecrypt(s, ok, reliable).log) <==> AllCurrent(s.log)
  {
    if s.running.Decrypting? && s.running.epoch == s.core.epoch {
      DispatchedSnoc(s.log.dispatched, Dispatch(s.running.arrival, s.core.epoch, false));
    }
  }

  lemma UnwrapTimely(s: Session, returned: bool)
    ensures AllCurrent(FinishUnwrap(s, returned).log) <==> AllCurrent(s.log) && (s.running.Unwrapping? && returned ==> Timely(s))
  {
    if s.running.Unwrapping? {
      DispatchedSnoc(s.log.dispatched, Dispatch(s.running.arrival, s.core.epoch, true));
    }
  }

  lemma ShakeTimely(s: Session, installed: bool)
    ensures AllCurrent(FinishShake(s, installed).log) <==> AllCurrent(s.log) && (s.running.Shaking? && installed ==> Timely(s))
  {
    if s.running.Shaking? {
      InstalledSnoc(s.log.installed, Install(s.running.begun, s.core.epoch));
    }
  }

  lemma OthersLogNothing(s: Session, e: Event)
    requires !e.DecryptEnds? && !e.UnwrapEnds? && !e.ShakeEnds?
    ensures Next(s, e).log.dispatched == s.log.dispatched && Next(s, e).log.installed == s.log.installed
  {}

  lemma TimelyLog(s: Session, e: Event)
    requires Invariant(s)
    ensures AllCurrent(Next(s, e).log) <==> AllCurrent(s.log) && (Completes(s.running, e) ==> Timely(s))
  {
    match e {
      case DecryptEnds(ok, reliable) => DecryptTimely(s, ok, reliable);
      case UnwrapEnds(returned) => UnwrapTimely(s, returned);
      case ShakeEnds(installed) => ShakeTimely(s, installed);
      case _ => OthersLogNothing(s, e);
    }
  }

  lemma {:induction false} OvertakenIsLate(es: seq<Event>)
    ensures Overtaken(es) <==> Exposed(Run(START, es).running) && !Timely(Run(START, es))
  {
    if |es| != 0 {
      var front := es[..|es| - 1];
      OvertakenIsLate(front);
      RunKeeps(START, front);
      TimelyRunning(Run(START, front), es[|es| - 1]);
    }
  }

  /**
    * Every message, bodies of reliable ones included, is dispatched in the epoch it arrived in, and every channel
    * installed in the epoch its handshake began in, exactly when no such operation completes after being overtaken.
    */
  lemma {:induction false} AllCurrentIff(es: seq<Event>)
    ensures AllCurrent(Run(START, es).log) <==> NoneCompletesLate(es)
  {
    if |es| != 0 {
      var front := es[..|es| - 1];
      AllCurrentIff(front);
      OvertakenIsLate(front);
      RunKeeps(START, front);
      TimelyLog(Run(START, front), es[|es| - 1]);
    }
  }

  lemma RunSnoc(es: seq<Event>, e: Event)
    ensures Run(START, es + [e]) == Next(Run(START, es), e)
  {
    assert (es + [e])[..|es|] == es;
  }

  ghost predicate Reachable(s: Session) { exists es :: Run(START, es) == s }

  lemma ReachNext(s: Session, e: Event)
    requires Reachable(s)
    ensures Reachable(Next(s, e))
  {
    var es :| Run(START, es) == s;
    RunSnoc(es, e);
  }

  /** A room just started, with a handshake under way and nothing else. */
  const MID_HANDSHAKE :=
    Session(Guarded(1, 1, None, Some(0), NoPackets(), []), [], Shaking(1), [], [], [], 1, Log([], [], []))

  lemma HandshakeStartsUp()
    ensures Reachable(MID_HANDSHAKE)
  {
    assert Run(START, []) == START;
    assert Reachable(START);
    var a := Next(START, StartRoom);
    ReachNext(START, StartRoom);
    assert a == START.(core := Guarded(1, 1, None, None, NoPackets(), []), preparations := [1]);
    ReachNext(a, KeyGenerated(0));
    var b := START.(core := Guarded(1, 1, None, Some(0), NoPackets(), []), issued := 1);
    assert Next(a, KeyGenerated(0)) == b;
    HandshakeArrives(b);
  }

  lemma HandshakeArrives(b: Session)
    requires Reachable(b) && b == START.(core := Guarded(1, 1, None, Some(0), NoPackets(), []), issued := 1)
    ensures Reachable(MID_HANDSHAKE)
  {
    var c := Next(b, Arrives(HandshakeEnvelope, 0));
    ReachNext(b, Arrives(HandshakeEnvelope, 0));
    assert c == b.(tasks := [Open(HandshakeEnvelope, 1)]);
    ReachNext(c, TaskStarts(0));
    assert Next(c, TaskStarts(0)) == MID_HANDSHAKE;
  }

  /** A disconnect during a handshake: the channel is installed into the session that has already ended. */
  lemma StaleChannelIsInstalled()
    ensures exists s :: Reachable(s) && s.core.secure.Some? && s.core.key.None? && s.log.installed == [Install(1, 2)]
  {
    HandshakeStartsUp();
    var e := Next(MID_HANDSHAKE, Disconnect);
    ReachNext(MID_HANDSHAKE, Disconnect);
    ReachNext(e, ShakeEnds(true));
    assert Next(e, ShakeEnds(true)).log.installed == [Install(1, 2)];
  }

  /** A disconnect while a reliable message is acknowledged: its body is still dispatched, one epoch late. */
  lemma StaleBodyIsDispatched()
    ensures exists s :: Reachable(s) && s.log.dispatched == [Dispatch(1, 2, true)]
  {
    HandshakeStartsUp();
    var a := Next(MID_HANDSHAKE, ShakeEnds(true));
    ReachNext(MID_HANDSHAKE, ShakeEnds(true));
    var b := Next(a, HandlerEnds);
    ReachNext(a, HandlerEnds);
    ReliableArrives(b);
  }

  lemma ReliableArrives(b: Session)
    requires Reachable(b) && b.running == Idle && b.tasks == [] && b.log.dispatched == []
    requires b.core == Guarded(1, 1, Some(1), Some(0), NoPackets(), [])
    ensures exists s :: Reachable(s) && s.log.dispatched == [Dispatch(1, 2, true)]
  {
    var c := Next(b, Arrives(DataEnvelope, 0));
    ReachNext(b, Arrives(DataEnvelope, 0));
    var d := Next(c, TaskStarts(0));
    ReachNext(c, TaskStarts(0));
    assert d.core == b.core && d.running == Decrypting(1, 1, 1);
    var f := Next(d, DecryptEnds(true, true));
    ReachNext(d, DecryptEnds(true, true));
    LateBody(f);
  }

  lemma LateBody(f: Session)
    requires Reachable(f) && f.running == Unwrapping(1) && f.core.epoch == 1 && f.log.dispatched == []
    ensures exists s :: Reachable(s) && s.log.dispatched == [Dispatch(1, 2, true)]
  {
    var g := Next(f, Disconnect);
    ReachNext(f, Disconnect);
    ReachNext(g, UnwrapEnds(true));
    assert Next(g, UnwrapEnds(true)).log.dispatched == [Dispatch(1, 2, true)];
  }
}
