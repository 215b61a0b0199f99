/**
  * The sender's transfer object as the client keeps it: a map of chunks in flight, a set of acked ones, flags and counters,
  * changed in place. Every method is proved to take the step of the transfer machine it stands for.
  */
module OutgoingFiles {
  import opened Bytes
  import opened Profiles
  import opened Sequences
  import opened FileSender

  // ---- from the object's collections to the chunks of the machine ----------

  /** What the runtime holds of suspended sends, of timers no entry refers to, and the attempts made, chunk by chunk. */
  datatype Runtime = Runtime(sends: seq<seq<Send>>, orphans: seq<seq<Timer>>, sent: seq<seq<nat>>)

  predicate Sized(r: Runtime, total: nat) { |r.sends| == total && |r.orphans| == total && |r.sent| == total }

  function SlotOf(inflight: map<nat, Item>, acked: set<nat>, r: Runtime, i: nat): (s: Slot)
    requires i < |r.sends| && i < |r.orphans| && i < |r.sent|
  {
    Slot(if i in inflight then Some(inflight[i]) else None, i in acked, r.sends[i], r.orphans[i], r.sent[i])
  }

  function SlotsOf(total: nat, inflight: map<nat, Item>, acked: set<nat>, r: Runtime): (s: seq<Slot>)
    requires Sized(r, total)
    ensures |s| == total && forall i :: 0 <= i < total ==> s[i] == SlotOf(inflight, acked, r, i)
  {
    seq(total, i requires 0 <= i < total => SlotOf(inflight, acked, r, i))
  }

  ghost predicate Below(s: set<nat>, n: nat) { forall i :: i in s ==> i < n }

  /** The size of the inflight map is the number of chunks in flight. */
  lemma {:induction false} InFlightIsSize(slots: seq<Slot>, keys: set<nat>)
    requires Below(keys, |slots|) && forall i :: 0 <= i < |slots| ==> (slots[i].item.Some? <==> i in keys)
    ensures InFlight(slots) == |keys|
  {
    var n := |slots| - 1;
    if n >= 0 {
      InFlightIsSize(slots[..n], keys - {n});
    } else {
      assert keys == {};
    }
  }

  /** The size of the acked set is the number of acked chunks. */
  lemma {:induction false} AckedIsSize(slots: seq<Slot>, keys: set<nat>)
    requires Below(keys, |slots|) && forall i :: 0 <= i < |slots| ==> (slots[i].acked <==> i in keys)
    ensures Acked(slots) == |keys|
  {
    var n := |slots| - 1;
    if n >= 0 {
      AckedIsSize(slots[..n], keys - {n});
    } else {
      assert keys == {};
    }
  }

  class OutgoingFile {
    const limits: FileLimits
    const total: nat
    var inflight: map<nat, Item>
    var acked: set<nat>
    var runtime: Runtime
    var next: nat
    var status: Status
    var accepted: bool
    var paused: bool
    var cancelled: bool
    var pumping: bool
    var offers: nat
    var registered: bool
    var globalPaused: bool

    ghost predicate Valid()
      reads this
    {
      Sized(runtime, total) && Below(inflight.Keys, total) && Below(acked, total)
    }

    ghost function Slots(): (s: seq<Slot>)
      reads this
      requires Valid()
    {
      SlotsOf(total, inflight, acked, runtime)
    }

    ghost function View(): (t: Transfer)
      reads this
      requires Valid()
    {
      Transfer(Slots(), next, status, accepted, paused, cancelled, pumping, offers, registered, globalPaused)
    }

    constructor (f: FileLimits, chunks: nat, queued: bool)
      ensures Valid() && View() == Offer(chunks, queued) && limits == f
    {
      limits, total := f, chunks;
      inflight, acked := map[], {};
      runtime := Runtime(seq(chunks, _ => []), seq(chunks, _ => []), seq(chunks, _ => []));
      next, status, accepted, paused, cancelled := 0, if queued then Queued else Offered, false, queued, false;
      pumping, offers, registered, globalPaused := false, if queued then 0 else 1, true, false;
    }

    // ---- the inflight map and its timers -----------------------------------

    /** clearInflightTimer: the timer will not fire; the entry is about to be replaced or deleted. */
    method ClearInflightTimer(i: nat)
      requires Valid() && i < total
      modifies this`inflight
      ensures Valid() && inflight.Keys == old(inflight.Keys)
      ensures Slots() == old(Slots())[i := Silenced(old(Slots()[i]))]
    {
      if i in inflight && inflight[i].timer.Live? {
        inflight := inflight[i := inflight[i].(timer := Spent)];
      }
    }

    /** inflight.set: a live timer of the entry it replaces runs on without an entry. */
    method SetEntry(i: nat, item: Item)
      requires Valid() && i < total
      modifies this`inflight, this`runtime
      ensures Valid() && Slots() == old(Slots())[i := Overwrite(old(Slots()[i]), item)]
    {
      if i in inflight && inflight[i].timer.Live? {
        runtime := runtime.(orphans := runtime.orphans[i := runtime.orphans[i] + [inflight[i].timer.timer]]);
      }
      inflight := inflight[i := item];
    }

    /** Clears the timers one by one and then the map. */
    method ClearTimers()
      requires Valid()
      modifies this`inflight
      ensures Valid() && inflight == map[] && Slots() == DropAll(old(Slots()))
    {
      var todo := inflight.Keys;
      while todo != {}
        invariant Valid() && todo <= inflight.Keys
        decreases todo
      {
        var i :| i in todo;
        ClearInflightTimer(i);
        todo := todo - {i};
      }
      inflight := map[];
    }

    method FailTransfer()
      requires Valid()
      modifies this`inflight, this`status, this`cancelled
      ensures Valid() && View() == Fail(old(View()))
    {
      status := Failed;
      cancelled := true;
      ClearTimers();
    }

    // ---- the code of one chunk ---------------------------------------------

    /** sendChunk up to its first await. */
    method SendChunk(i: nat, attempts: nat)
      requires Valid() && i < total
      modifies this`inflight, this`runtime, this`status, this`cancelled
      ensures Valid()
      ensures View() == Store(old(View()), i, BeginSend(GateOf(old(View()), limits), old(Slots()[i]), attempts))
    {
      StoreSame(View(), i);
      if cancelled || i in acked { return; }
      if paused || globalPaused {
        SetEntry(i, Item(attempts, RetryWait, NoTimer));
        return;
      }
      if attempts > limits.maxRetries + 1 {
        FailTransfer();
        return;
      }
      ClearInflightTimer(i);
      SetEntry(i, Item(attempts, Sending, NoTimer));
      SuspendSend(i, Send(attempts, Reading));
      assert Slots() == old(Slots())[i := BeginSend(GateOf(old(View()), limits), old(Slots()[i]), attempts).0];
    }

    /** The send now waits for its bytes. */
    method SuspendSend(i: nat, send: Send)
      requires Valid() && i < total
      modifies this`runtime
      ensures Valid() && Slots() == old(Slots())[i := old(Slots()[i]).(sends := old(Slots()[i]).sends + [send])]
    {
      runtime := runtime.(sends := runtime.sends[i := runtime.sends[i] + [send]]);
    }

    /** scheduleRetry after attempt `attempts`. */
    method ScheduleNext(i: nat, attempts: nat)
      requires Valid() && i < total
      modifies this`inflight, this`runtime, this`status, this`cancelled
      ensures Valid()
      ensures View() == Store(old(View()), i, ScheduleRetry(GateOf(old(View()), limits), old(Slots()[i]), attempts))
    {
      StoreSame(View(), i);
      if cancelled || i in acked { return; }
      DropIgnoresItem(Slots(), i);
      ClearInflightTimer(i);
      if attempts + 1 > limits.maxRetries + 1 {
        FailTransfer();
        return;
      }
      SetEntry(i, Item(attempts, RetryWait, if paused || globalPaused then NoTimer else Live(Retry(attempts + 1))));
    }

    /** The k-th suspended send has read its bytes, or failed to. */
    method ReadEnds(i: nat, k: nat, ok: bool)
      requires Valid()
      modifies this`inflight, this`runtime, this`status, this`cancelled
      ensures Valid() && View() == Next(old(View()), limits, ReadAnswered(i, k, ok))
    {
      if i >= total || k >= |runtime.sends[i]| || runtime.sends[i][k].stage != Reading { return; }
      var attempts := runtime.sends[i][k].attempts;
      if ok {
        runtime := runtime.(sends := runtime.sends[i := runtime.sends[i][k := Send(attempts, Transmitting)]],
                            sent := runtime.sent[i := runtime.sent[i] + [attempts]]);
      } else {
        EndSend(i, k);
        ghost var rest := Slots()[i];
        StoreTwice(old(View()), i, rest, ScheduleRetry(GateOf(View(), limits), rest, attempts));
        ScheduleNext(i, attempts);
      }
    }

    /** The k-th suspended send is over. */
    method EndSend(i: nat, k: nat)
      requires Valid() && i < total && k < |runtime.sends[i]|
      modifies this`runtime
      ensures Valid() && Slots() == old(Slots())[i := old(Slots()[i]).(sends := Without(old(Slots()[i]).sends, k))]
    {
      runtime := runtime.(sends := runtime.sends[i := Without(runtime.sends[i], k)]);
    }

    /** The transport has answered the k-th suspended send. */
    method SendEnds(i: nat, k: nat, ok: bool)
      requires Valid()
      modifies this`inflight, this`runtime, this`status, this`cancelled
      ensures Valid() && View() == Next(old(View()), limits, SendAnswered(i, k, ok))
    {
      if i >= total || k >= |runtime.sends[i]| || runtime.sends[i][k].stage != Transmitting { return; }
      var attempts := runtime.sends[i][k].attempts;
      EndSend(i, k);
      ghost var rest := Slots()[i];
      if !ok {
        StoreTwice(old(View()), i, rest, ScheduleRetry(GateOf(View(), limits), rest, attempts));
        ScheduleNext(i, attempts);
      } else if !cancelled && i !in acked {
        SetEntry(i, Item(attempts, WaitingAck, Live(AckTimeout(attempts))));
      }
    }

    /** A timer that an entry refers to has fired; what it does finds the entry with a spent timer. */
    method TimerEnds(i: nat)
      requires Valid()
      modifies this`inflight, this`runtime, this`status, this`cancelled
      ensures Valid() && View() == Next(old(View()), limits, TimerFires(i))
    {
      if i !in inflight || !inflight[i].timer.Live? { return; }
      var timer := inflight[i].timer.timer;
      ClearInflightTimer(i);
      ghost var rest := Slots()[i];
      StoreTwice(old(View()), i, rest, Expire(GateOf(View(), limits), rest, timer));
      RunTimer(i, timer);
    }

    /** A timer no entry refers to any more has fired. */
    method OrphanEnds(i: nat, k: nat)
      requires Valid()
      modifies this`inflight, this`runtime, this`status, this`cancelled
      ensures Valid() && View() == Next(old(View()), limits, OrphanFires(i, k))
    {
      if i >= total || k >= |runtime.orphans[i]| { return; }
      var timer := runtime.orphans[i][k];
      runtime := runtime.(orphans := runtime.orphans[i := Without(runtime.orphans[i], k)]);
      ghost var rest := Slots()[i];
      assert Slots() == old(Slots())[i := rest];
      StoreTwice(old(View()), i, rest, Expire(GateOf(View(), limits), rest, timer));
      RunTimer(i, timer);
    }

    method RunTimer(i: nat, timer: Timer)
      requires Valid() && i < total
      modifies this`inflight, this`runtime, this`status, this`cancelled
      ensures Valid()
      ensures View() == Store(old(View()), i, Expire(GateOf(old(View()), limits), old(Slots()[i]), timer))
    {
      match timer {
        case AckTimeout(attempts) => ScheduleNext(i, attempts);
        case Retry(attempts) => SendChunk(i, attempts);
      }
    }

    // ---- pausing, resuming and the pump ------------------------------------

    /** Every entry waits for a resume, its timer cleared. */
    method HoldOutstanding()
      requires Valid()
      modifies this`inflight
      ensures Valid() && Slots() == MapHold(old(Slots()))
    {
      var todo := inflight.Keys;
      while todo != {}
        invariant Valid() && todo <= inflight.Keys == old(inflight.Keys)
        invariant forall i :: i in todo ==> inflight[i] == old(inflight)[i]
        invariant forall i :: i in inflight && i !in todo ==> inflight[i] == Item(old(inflight)[i].attempts, RetryWait, NoTimer)
        decreases todo
      {
        var i :| i in todo;
        inflight := inflight[i := Item(inflight[i].attempts, RetryWait, NoTimer)];
        todo := todo - {i};
      }
    }

    lemma Sizes()
      requires Valid()
      ensures InFlight(Slots()) == |inflight| && Acked(Slots()) == |acked|
    {
      InFlightIsSize(Slots(), inflight.Keys);
      AckedIsSize(Slots(), acked);
      assert |inflight| == |inflight.Keys|;
    }

    /** The next chunk of the file is begun. */
    method SendFirst()
      requires Valid() && next < total
      modifies this`inflight, this`runtime, this`status, this`cancelled, this`next
      ensures Valid() && View() == FirstSent(old(View()), limits)
    {
      FirstSentLater(View(), limits);
      var i := next;
      next := next + 1;
      SendChunk(i, 1);
    }

    predicate MayBegin()
      reads this
    {
      !cancelled && !paused && !globalPaused && |inflight| < limits.window && next < total
    }

    /** First sends until the window is full, the file exhausted or the transfer stopped. */
    method FillWindow()
      requires Valid()
      modifies this`inflight, this`runtime, this`status, this`cancelled, this`next
      ensures Valid() && View() == Fill(old(View()), limits)
    {
      while MayBegin()
        invariant Valid() && Fill(View(), limits) == Fill(old(View()), limits)
        decreases total - next
      {
        Sizes();
        FillUnfolds(View(), limits);
        SendFirst();
      }
      Sizes();
      FillUnfolds(View(), limits);
    }

    method PumpChunks()
      requires Valid()
      modifies this`inflight, this`runtime, this`status, this`cancelled, this`next, this`pumping
      ensures Valid() && View() == Pump(old(View()), limits)
    {
      if pumping || cancelled || !accepted || paused || globalPaused || status != Active { return; }
      FillWindow();
      Sizes();
      if !cancelled && next >= total && |inflight| == 0 && |acked| >= total {
        status := Completed;
      }
      pumping := true;
    }

    /** Held entries start again in the order the map lists them, and then the pump. */
    method ResumeOutstandingChunks(order: seq<nat>)
      requires Valid()
      modifies this`inflight, this`runtime, this`status, this`cancelled, this`next, this`pumping
      ensures Valid() && View() == ResumeOutstanding(old(View()), limits, order)
    {
      if cancelled || paused || globalPaused { return; }
      for k := 0 to |order|
        invariant Valid() && View() == Restart(old(View()), limits, order[..k])
      {
        assert order[..k + 1][..k] == order[..k];
        var i := order[k];
        if i in inflight && inflight[i].phase == RetryWait && inflight[i].timer == NoTimer {
          SendChunk(i, inflight[i].attempts + 1);
        }
      }
      assert order[..|order|] == order;
      PumpChunks();
    }

    // ---- messages and commands ---------------------------------------------

    method HandleAck(i: int)
      requires Valid()
      modifies this
      ensures Valid() && View() == Next(old(View()), limits, Ack(i))
    {
      if !registered || cancelled || i < 0 || i >= total || i !in inflight { return; }
      inflight := inflight - {i};
      acked := acked + {i};
      assert Slots() == old(Slots())[i := old(Slots()[i]).(item := None, acked := true)];
      PumpChunks();
    }

    method HandleNack(i: int)
      requires Valid()
      modifies this
      ensures Valid() && View() == Next(old(View()), limits, Nack(i))
    {
      if !registered || cancelled || i < 0 || i >= total || i !in inflight { return; }
      ScheduleNext(i, inflight[i].attempts);
    }

    method HandleAccept()
      requires Valid()
      modifies this
      ensures Valid() && View() == Next(old(View()), limits, Accept)
    {
      if !registered || cancelled { return; }
      accepted := true;
      status := if globalPaused then Paused else Active;
      paused := globalPaused;
      PumpChunks();
    }

    method PauseTransfer()
      requires Valid()
      modifies this
      ensures Valid() && View() == Next(old(View()), limits, Pause)
    {
      if !registered || Terminal(status) { return; }
      paused := true;
      status := Paused;
      HoldOutstanding();
    }

    method ResumeTransfer(order: seq<nat>)
      requires Valid()
      modifies this
      ensures Valid() && View() == Next(old(View()), limits, Resume(order))
    {
      if !registered || status != Paused { return; }
      paused := false;
      status := if accepted then Active else Offered;
      ResumeOutstandingChunks(order);
    }

    method PauseGlobally()
      requires Valid()
      modifies this
      ensures Valid() && View() == Next(old(View()), limits, PauseAll)
    {
      globalPaused := true;
      if !registered || (status != Active && status != Paused) { return; }
      paused := true;
      status := Paused;
      HoldOutstanding();
    }

    method ResumeGlobally(order: seq<nat>)
      requires Valid()
      modifies this
      ensures Valid() && View() == Next(old(View()), limits, ResumeAll(order))
    {
      globalPaused := false;
      if !registered || (status != Active && status != Paused) { return; }
      paused := false;
      status := Active;
      ghost var back := View();
      assert back == old(View()).(globalPaused := false, paused := false, status := Active);
      ResumeOutstandingChunks(order);
    }

    method SetGlobalPaused(pause: bool, order: seq<nat>)
      requires Valid()
      modifies this
      ensures Valid() && View() == Next(old(View()), limits, if pause then PauseAll else ResumeAll(order))
    {
      if pause {
        PauseGlobally();
      } else {
        ResumeGlobally(order);
      }
    }

    method CancelTransfer()
      requires Valid()
      modifies this
      ensures Valid() && View() == Next(old(View()), limits, Cancel)
    {
      if !registered { return; }
      cancelled := true;
      status := Cancelled;
      ClearTimers();
    }

    method PumpReturns()
      requires Valid()
      modifies this
      ensures Valid() && View() == Next(old(View()), limits, PumpEnds)
    {
      pumping := false;
    }

    // ---- offering and forgetting -------------------------------------------

    method StartQueuedOffer()
      requires Valid()
      modifies this
      ensures Valid() && View() == Next(old(View()), limits, StartQueued)
    {
      if !registered || cancelled || status != Queued { return; }
      status := Offered;
      paused := false;
      offers := offers + 1;
    }

    method OfferReturns(ok: bool)
      requires Valid()
      modifies this
      ensures Valid() && View() == Next(old(View()), limits, OfferAnswered(ok))
    {
      if offers == 0 { return; }
      offers := offers - 1;
      if !ok {
        FailTransfer();
      }
    }

    method RemoveTransfer()
      requires Valid()
      modifies this
      ensures Valid() && View() == Next(old(View()), limits, Remove)
    {
      if !registered || !Terminal(status) { return; }
      ClearTimers();
      registered := false;
    }

    method ResetSender()
      requires Valid()
      modifies this
      ensures Valid() && View() == Next(old(View()), limits, Reset)
    {
      if registered {
        ClearTimers();
        registered := false;
      }
      globalPaused := false;
    }
  }

  /** A chunk whose entry's timer has been cleared. */
  function Silenced(s: Slot): (r: Slot)
  {
    if Ticking(s) then s.(item := Some(s.item.value.(timer := Spent))) else s
  }

  function FirstSent(t: Transfer, f: FileLimits): (r: Transfer)
    requires t.next < |t.slots|
  {
    Store(t, t.next, BeginSend(GateOf(t, f), t.slots[t.next], 1)).(next := t.next + 1)
  }

  lemma StoreAhead(t: Transfer, i: nat, r: (Slot, bool), n: nat)
    requires i < |t.slots|
    ensures Store(t.(next := n), i, r) == Store(t, i, r).(next := n)
  {
    var u := t.(slots := t.slots[i := r.0]);
    assert t.(next := n).(slots := t.slots[i := r.0]) == u.(next := n);
  }

  /** The counter may as well move first. */
  lemma FirstSentLater(t: Transfer, f: FileLimits)
    requires t.next < |t.slots|
    ensures var u := t.(next := t.next + 1);
            FirstSent(t, f) == Store(u, t.next, BeginSend(GateOf(u, f), u.slots[t.next], 1))
  {
    var r := BeginSend(GateOf(t, f), t.slots[t.next], 1);
    StoreAhead(t, t.next, r, t.next + 1);
  }

  lemma FillUnfolds(t: Transfer, f: FileLimits)
    ensures Fill(t, f) ==
      if t.next < |t.slots| && InFlight(t.slots) < f.window && !t.cancelled && !t.paused && !t.globalPaused
      then Fill(FirstSent(t, f), f) else t
  {}

  lemma StoreSame(t: Transfer, i: nat)
    requires i < |t.slots|
    ensures Store(t, i, (t.slots[i], false)) == t && Store(t, i, (t.slots[i], true)) == Fail(t)
  {
    assert t.slots[i := t.slots[i]] == t.slots;
  }

  /** What is stored for a chunk replaces anything stored for it before. */
  lemma StoreTwice(t: Transfer, i: nat, s: Slot, r: (Slot, bool))
    requires i < |t.slots|
    ensures Store(t.(slots := t.slots[i := s]), i, r) == Store(t, i, r)
  {
    assert t.slots[i := s][i := r.0] == t.slots[i := r.0];
  }

  lemma DropIgnoresItem(slots: seq<Slot>, i: nat)
    requires i < |slots|
    ensures DropAll(slots[i := Silenced(slots[i])]) == DropAll(slots)
  {
    forall j | 0 <= j < |slots|
      ensures DropAll(slots[i := Silenced(slots[i])])[j] == DropAll(slots)[j]
    {}
  }
}
