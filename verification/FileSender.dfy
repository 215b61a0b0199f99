/**
  * One outgoing file transfer as a state machine. Every asynchronous method is split at its awaits: suspended sends,
  * suspended pumps and live timers are part of the state, and events resume or fire them in any order.
  */
module FileSender {
  import opened Bytes
  import opened Profiles
  import opened Sequences

  datatype Phase = Sending | WaitingAck | RetryWait
  /** What a timer does when it fires: give up waiting for the ack of an attempt, or start the next attempt. */
  datatype Timer = AckTimeout(attempts: nat) | Retry(next: nat)
  datatype Handle = NoTimer | Live(timer: Timer) | Spent
  datatype Item = Item(attempts: nat, phase: Phase, timer: Handle)

  /** A suspended send of a chunk, waiting for the file to be read or for the transport to take the message. */
  datatype Stage = Reading | Transmitting
  datatype Send = Send(attempts: nat, stage: Stage)

  /**
    * All that concerns one chunk: its entry in the inflight map, its membership in the acked set, its suspended sends,
    * the live timers that no entry refers to any more, and the attempt numbers handed to the transport so far.
    */
  datatype Slot = Slot(item: Option<Item>, acked: bool, sends: seq<Send>, orphans: seq<Timer>, sent: seq<nat>)
  const UNTOUCHED := Slot(None, false, [], [], [])

  /** What the code of one chunk reads of its transfer; `limit` is maxRetries + 1. */
  datatype Gate = Gate(cancelled: bool, held: bool, limit: nat)

  // ---- the code of one chunk -----------------------------------------------

  /** Replaces the inflight entry without clearing its timer, which then lives on as an orphan. */
  function Overwrite(s: Slot, item: Item): (r: Slot)
  {
    s.(item := Some(item),
       orphans := if s.item.Some? && s.item.value.timer.Live? then s.orphans + [s.item.value.timer.timer] else s.orphans)
  }

  /** sendChunk up to its first await. The flag tells that the retry limit was exceeded. */
  function BeginSend(g: Gate, s: Slot, attempts: nat): (r: (Slot, bool))
  {
    if g.cancelled || s.acked then (s, false)
    else if g.held then (Overwrite(s, Item(attempts, RetryWait, NoTimer)), false)
    else if attempts > g.limit then (s, true)
    else (s.(item := Some(Item(attempts, Sending, NoTimer)), sends := s.sends + [Send(attempts, Reading)]), false)
  }

  /** scheduleRetry after attempt `attempts`: a timer for the next one, or none while the transfer is held. */
  function ScheduleRetry(g: Gate, s: Slot, attempts: nat): (r: (Slot, bool))
  {
    if g.cancelled || s.acked then (s, false)
    else if attempts + 1 > g.limit then (s, true)
    else (s.(item := Some(Item(attempts, RetryWait, if g.held then NoTimer else Live(Retry(attempts + 1))))), false)
  }

  /** The k-th suspended send has read its bytes and hands the chunk to the transport, or reading failed. */
  function FinishRead(g: Gate, s: Slot, k: nat, ok: bool): (r: (Slot, bool))
    requires k < |s.sends|
  {
    var a := s.sends[k].attempts;
    if ok then (s.(sends := s.sends[k := Send(a, Transmitting)], sent := s.sent + [a]), false)
    else ScheduleRetry(g, s.(sends := Without(s.sends, k)), a)
  }

  /** The transport has answered the k-th suspended send. */
  function FinishSend(g: Gate, s: Slot, k: nat, ok: bool): (r: (Slot, bool))
    requires k < |s.sends|
  {
    var a, rest := s.sends[k].attempts, s.(sends := Without(s.sends, k));
    if !ok then ScheduleRetry(g, rest, a)
    else if g.cancelled || s.acked then (rest, false)
    else (Overwrite(rest, Item(a, WaitingAck, Live(AckTimeout(a)))), false)
  }

  function Expire(g: Gate, s: Slot, t: Timer): (r: (Slot, bool))
  {
    match t
    case AckTimeout(n) => ScheduleRetry(g, s, n)
    case Retry(n) => BeginSend(g, s, n)
  }

  predicate Ticking(s: Slot) { s.item.Some? && s.item.value.timer.Live? }

  function FireHeld(g: Gate, s: Slot): (r: (Slot, bool))
    requires Ticking(s)
  {
    Expire(g, s.(item := Some(s.item.value.(timer := Spent))), s.item.value.timer.timer)
  }

  function FireOrphan(g: Gate, s: Slot, k: nat): (r: (Slot, bool))
    requires k < |s.orphans|
  {
    Expire(g, s.(orphans := Without(s.orphans, k)), s.orphans[k])
  }

  /** holdOutstanding and clearTimers, seen from one chunk. */
  function Hold(s: Slot): (r: Slot)
  {
    if s.item.Some? then s.(item := Some(Item(s.item.value.attempts, RetryWait, NoTimer))) else s
  }

  function Drop(s: Slot): (r: Slot) { s.(item := None) }

  predicate Resumable(s: Slot)
  {
    s.item.Some? && s.item.value.phase == RetryWait && s.item.value.timer == NoTimer
  }

  // ---- what one chunk keeps ------------------------------------------------

  predicate TimerWithin(t: Timer, limit: nat)
  {
    match t case AckTimeout(n) => 1 <= n <= limit case Retry(n) => 1 <= n <= limit
  }

  predicate ItemWithin(i: Item, limit: nat)
  {
    1 <= i.attempts <= limit && (i.timer.Live? ==> TimerWithin(i.timer.timer, limit))
  }

  ghost predicate SendsWithin(x: seq<Send>, limit: nat)
  {
    |x| == 0 || (SendsWithin(x[..|x| - 1], limit) && 1 <= x[|x| - 1].attempts <= limit)
  }

  ghost predicate TimersWithin(x: seq<Timer>, limit: nat)
  {
    |x| == 0 || (TimersWithin(x[..|x| - 1], limit) && TimerWithin(x[|x| - 1], limit))
  }

  ghost predicate NumbersWithin(x: seq<nat>, limit: nat)
  {
    |x| == 0 || (NumbersWithin(x[..|x| - 1], limit) && 1 <= x[|x| - 1] <= limit)
  }

  /** No attempt number anywhere in the chunk's state exceeds the limit, and an acked chunk is not in flight. */
  ghost predicate Bounded(s: Slot, limit: nat)
  {
    && (s.item.Some? ==> !s.acked && ItemWithin(s.item.value, limit))
    && SendsWithin(s.sends, limit) && TimersWithin(s.orphans, limit) && NumbersWithin(s.sent, limit)
  }

  lemma WithoutEarlier<T>(x: seq<T>, k: nat, n: nat)
    requires k < n == |x| - 1
    ensures Without(x, k)[..n - 1] == Without(x[..n], k) && Without(x, k)[n - 1] == x[n] && |Without(x, k)| == n
  {}

  lemma {:induction false} SendsWithout(x: seq<Send>, k: nat, limit: nat)
    requires SendsWithin(x, limit) && k < |x|
    ensures 1 <= x[k].attempts <= limit && SendsWithin(Without(x, k), limit)
    ensures forall stage :: SendsWithin(x[k := Send(x[k].attempts, stage)], limit)
  {
    var n := |x| - 1;
    if k == n {
      assert Without(x, k) == x[..n];
      assert forall stage :: x[k := Send(x[k].attempts, stage)][..n] == x[..n];
    } else {
      SendsWithout(x[..n], k, limit);
      WithoutEarlier(x, k, n);
      assert forall stage :: x[k := Send(x[k].attempts, stage)][..n] == x[..n][k := Send(x[k].attempts, stage)];
    }
  }

  lemma {:induction false} TimersWithout(x: seq<Timer>, k: nat, limit: nat)
    requires TimersWithin(x, limit) && k < |x|
    ensures TimerWithin(x[k], limit) && TimersWithin(Without(x, k), limit)
  {
    var n := |x| - 1;
    if k == n {
      assert Without(x, k) == x[..n];
    } else {
      TimersWithout(x[..n], k, limit);
      WithoutEarlier(x, k, n);
    }
  }

  lemma Appended(s: Slot, limit: nat, send: Send, t: Timer, n: nat)
    requires Bounded(s, limit)
    ensures 1 <= send.attempts <= limit ==> SendsWithin(s.sends + [send], limit)
    ensures TimerWithin(t, limit) ==> TimersWithin(s.orphans + [t], limit)
    ensures 1 <= n <= limit ==> NumbersWithin(s.sent + [n], limit)
  {
    assert (s.sends + [send])[..|s.sends|] == s.sends;
    assert (s.orphans + [t])[..|s.orphans|] == s.orphans;
    assert (s.sent + [n])[..|s.sent|] == s.sent;
  }

  /** A chunk function result: still bounded, acked as before, and in flight if it was. */
  ghost predicate Sound(g: Gate, s: Slot, r: (Slot, bool))
  {
    && Bounded(r.0, g.limit) && r.0.acked == s.acked && (s.item.Some? ==> r.0.item.Some?)
    && (g.cancelled && s.item.None? ==> r.0.item.None? && !r.1)
  }

  function HeldTimer(s: Slot): (t: Timer) { if Ticking(s) then s.item.value.timer.timer else Retry(0) }

  lemma BeginSound(g: Gate, s: Slot, attempts: nat)
    requires Bounded(s, g.limit) && attempts >= 1 && (g.held ==> attempts <= g.limit)
    ensures Sound(g, s, BeginSend(g, s, attempts))
  {
    Appended(s, g.limit, Send(attempts, Reading), HeldTimer(s), 0);
  }

  lemma RetrySound(g: Gate, s: Slot, attempts: nat)
    requires Bounded(s, g.limit) && attempts >= 1
    ensures Sound(g, s, ScheduleRetry(g, s, attempts))
  {}

  lemma ReadSound(g: Gate, s: Slot, k: nat, ok: bool)
    requires Bounded(s, g.limit) && k < |s.sends|
    ensures Sound(g, s, FinishRead(g, s, k, ok))
  {
    SendsWithout(s.sends, k, g.limit);
    Appended(s, g.limit, s.sends[k], HeldTimer(s), s.sends[k].attempts);
  }

  lemma SendSound(g: Gate, s: Slot, k: nat, ok: bool)
    requires Bounded(s, g.limit) && k < |s.sends|
    ensures Sound(g, s, FinishSend(g, s, k, ok))
  {
    SendsWithout(s.sends, k, g.limit);
    Appended(s, g.limit, s.sends[k], HeldTimer(s), 0);
  }

  lemma ExpireSound(g: Gate, s: Slot, t: Timer)
    requires Bounded(s, g.limit) && TimerWithin(t, g.limit)
    ensures Sound(g, s, Expire(g, s, t))
  {
    match t
    case AckTimeout(n) => RetrySound(g, s, n);
    case Retry(n) => BeginSound(g, s, n);
  }

  lemma FireSound(g: Gate, s: Slot)
    requires Bounded(s, g.limit) && Ticking(s)
    ensures Sound(g, s, FireHeld(g, s))
  {
    ExpireSound(g, s.(item := Some(s.item.value.(timer := Spent))), s.item.value.timer.timer);
  }

  lemma OrphanSound(g: Gate, s: Slot, k: nat)
    requires Bounded(s, g.limit) && k < |s.orphans|
    ensures Sound(g, s, FireOrphan(g, s, k))
  {
    TimersWithout(s.orphans, k, g.limit);
    ExpireSound(g, s.(orphans := Without(s.orphans, k)), s.orphans[k]);
  }

  // ---- the transfer --------------------------------------------------------

  datatype Status = Queued | Offered | Active | Paused | Completed | Cancelled | Failed

  /**
    * `pumping` stays set while a pump waits at its await; `offers` counts offers whose sending has not been answered;
    * `registered` is membership in the sender's transfer map; `globalPaused` is the sender's flag.
    */
  datatype Transfer = Transfer(
    slots: seq<Slot>, next: nat, status: Status, accepted: bool, paused: bool, cancelled: bool,
    pumping: bool, offers: nat, registered: bool, globalPaused: bool)

  datatype Event =
    | OfferAnswered(ok: bool) | StartQueued | Accept | Ack(index: int) | Nack(index: int)
    | Pause | Resume(order: seq<nat>) | PauseAll | ResumeAll(order: seq<nat>)
    | Cancel | Remove | Reset
    | PumpEnds | ReadAnswered(chunk: nat, k: nat, ok: bool) | SendAnswered(chunk: nat, k: nat, ok: bool)
    | TimerFires(chunk: nat) | OrphanFires(chunk: nat, k: nat)

  function Offer(chunks: nat, queued: bool): (t: Transfer)
  {
    Transfer(seq(chunks, _ => UNTOUCHED), 0, if queued then Queued else Offered, false, queued, false,
             false, if queued then 0 else 1, true, false)
  }

  function GateOf(t: Transfer, f: FileLimits): (g: Gate)
  {
    Gate(t.cancelled, t.paused || t.globalPaused, f.maxRetries + 1)
  }

  /** The size of the inflight map. */
  function InFlight(slots: seq<Slot>): (n: nat)
  {
    if |slots| == 0 then 0 else InFlight(slots[..|slots| - 1]) + (if slots[|slots| - 1].item.Some? then 1 else 0)
  }

  /** The size of the acked set. */
  function Acked(slots: seq<Slot>): (n: nat)
  {
    if |slots| == 0 then 0 else Acked(slots[..|slots| - 1]) + (if slots[|slots| - 1].acked then 1 else 0)
  }

  function MapHold(slots: seq<Slot>): (r: seq<Slot>)
  {
    seq(|slots|, i requires 0 <= i < |slots| => Hold(slots[i]))
  }

  function DropAll(slots: seq<Slot>): (r: seq<Slot>)
  {
    seq(|slots|, i requires 0 <= i < |slots| => Drop(slots[i]))
  }

  function Fail(t: Transfer): (r: Transfer)
  {
    t.(status := Failed, cancelled := true, slots := DropAll(t.slots))
  }

  /** Stores the result of a chunk function; exceeding the retry limit fails the whole transfer. */
  function Store(t: Transfer, i: nat, r: (Slot, bool)): (t': Transfer)
    requires i < |t.slots|
  {
    var u := t.(slots := t.slots[i := r.0]);
    if r.1 then Fail(u) else u
  }

  function Fill(t: Transfer, f: FileLimits): (r: Transfer)
    ensures |r.slots| == |t.slots|
    decreases |t.slots| - t.next
  {
    if t.next < |t.slots| && InFlight(t.slots) < f.window && !t.cancelled && !t.paused && !t.globalPaused then
      Fill(Store(t, t.next, BeginSend(GateOf(t, f), t.slots[t.next], 1)).(next := t.next + 1), f)
    else t
  }

  predicate Done(t: Transfer)
  {
    !t.cancelled && t.next >= |t.slots| && InFlight(t.slots) == 0 && Acked(t.slots) >= |t.slots|
  }

  function Pump(t: Transfer, f: FileLimits): (r: Transfer)
  {
    if t.pumping || t.cancelled || !t.accepted || t.paused || t.globalPaused || t.status != Active then t
    else
      var u := Fill(t, f);
      u.(pumping := true, status := if Done(u) then Completed else u.status)
  }

  /** Restarts chunk i if it is held. */
  function RestartOne(t: Transfer, f: FileLimits, i: nat): (r: Transfer)
    ensures |r.slots| == |t.slots|
  {
    if i < |t.slots| && Resumable(t.slots[i]) then
      Store(t, i, BeginSend(GateOf(t, f), t.slots[i], t.slots[i].item.value.attempts + 1))
    else t
  }

  /** Restarts held chunks in the order the inflight map lists them, which is left open. */
  function Restart(t: Transfer, f: FileLimits, order: seq<nat>): (r: Transfer)
    ensures |r.slots| == |t.slots|
  {
    if |order| == 0 then t else RestartOne(Restart(t, f, order[..|order| - 1]), f, order[|order| - 1])
  }

  function ResumeOutstanding(t: Transfer, f: FileLimits, order: seq<nat>): (r: Transfer)
  {
    if t.cancelled || t.paused || t.globalPaused then t else Pump(Restart(t, f, order), f)
  }

  predicate Terminal(s: Status) { s == Completed || s == Cancelled || s == Failed }

  /** One chunk's share of an event that resumes a suspended send or fires a timer. */
  function Advance(t: Transfer, f: FileLimits, e: Event): (r: Transfer)
  {
    var g := GateOf(t, f);
    match e
    case ReadAnswered(i, k, ok) =>
      if i < |t.slots| && k < |t.slots[i].sends| && t.slots[i].sends[k].stage == Reading
      then Store(t, i, FinishRead(g, t.slots[i], k, ok)) else t
    case SendAnswered(i, k, ok) =>
      if i < |t.slots| && k < |t.slots[i].sends| && t.slots[i].sends[k].stage == Transmitting
      then Store(t, i, FinishSend(g, t.slots[i], k, ok)) else t
    case TimerFires(i) =>
      if i < |t.slots| && Ticking(t.slots[i]) then Store(t, i, FireHeld(g, t.slots[i])) else t
    case OrphanFires(i, k) =>
      if i < |t.slots| && k < |t.slots[i].orphans| then Store(t, i, FireOrphan(g, t.slots[i], k)) else t
    case _ => t
  }

  /** A message from the peer about one chunk; anything about an unknown index or a chunk not in flight is ignored. */
  function Answer(t: Transfer, f: FileLimits, e: Event): (r: Transfer)
  {
    match e
    case Ack(i) =>
      if t.registered && !t.cancelled && 0 <= i < |t.slots| && t.slots[i].item.Some?
      then Pump(t.(slots := t.slots[i := t.slots[i].(item := None, acked := true)]), f) else t
    case Nack(i) =>
      if t.registered && !t.cancelled && 0 <= i < |t.slots| && t.slots[i].item.Some?
      then Store(t, i, ScheduleRetry(GateOf(t, f), t.slots[i], t.slots[i].item.value.attempts)) else t
    case _ => t
  }

  function Command(t: Transfer, f: FileLimits, e: Event): (r: Transfer)
  {
    match e
    case StartQueued =>
      if t.registered && !t.cancelled && t.status == Queued
      then t.(status := Offered, paused := false, offers := t.offers + 1) else t
    case Accept =>
      if t.registered && !t.cancelled
      then Pump(t.(accepted := true, status := if t.globalPaused then Paused else Active, paused := t.globalPaused), f) else t
    case Pause =>
      if t.registered && !Terminal(t.status) then t.(paused := true, status := Paused, slots := MapHold(t.slots)) else t
    case Resume(order) =>
      if t.registered && t.status == Paused
      then ResumeOutstanding(t.(paused := false, status := if t.accepted then Active else Offered), f, order) else t
    case PauseAll =>
      var u := t.(globalPaused := true);
      if t.registered && (t.status == Active || t.status == Paused)
      then u.(paused := true, status := Paused, slots := MapHold(t.slots)) else u
    case ResumeAll(order) =>
      var u := t.(globalPaused := false);
      if t.registered && (t.status == Active || t.status == Paused)
      then ResumeOutstanding(u.(paused := false, status := Active), f, order) else u
    case _ => t
  }

  function Close(t: Transfer, e: Event): (r: Transfer)
  {
    match e
    case OfferAnswered(ok) =>
      if t.offers == 0 then t else
      var u := t.(offers := t.offers - 1);
      if ok then u else Fail(u)
    case Cancel => if t.registered then t.(cancelled := true, status := Cancelled, slots := DropAll(t.slots)) else t
    case Remove => if t.registered && Terminal(t.status) then t.(registered := false, slots := DropAll(t.slots)) else t
    case Reset => if t.registered then t.(registered := false, slots := DropAll(t.slots), globalPaused := false)
                  else t.(globalPaused := false)
    case PumpEnds => t.(pumping := false)
    case _ => t
  }

  function Next(t: Transfer, f: FileLimits, e: Event): (r: Transfer)
  {
    match e
    case ReadAnswered(_, _, _) => Advance(t, f, e)
    case SendAnswered(_, _, _) => Advance(t, f, e)
    case TimerFires(_) => Advance(t, f, e)
    case OrphanFires(_, _) => Advance(t, f, e)
    case Ack(_) => Answer(t, f, e)
    case Nack(_) => Answer(t, f, e)
    case OfferAnswered(_) => Close(t, e)
    case Cancel => Close(t, e)
    case Remove => Close(t, e)
    case Reset => Close(t, e)
    case PumpEnds => Close(t, e)
    case _ => Command(t, f, e)
  }

  function Run(t: Transfer, f: FileLimits, es: seq<Event>): (r: Transfer)
  {
    if |es| == 0 then t else Next(Run(t, f, es[..|es| - 1]), f, es[|es| - 1])
  }
}
