/** What every run of an outgoing transfer keeps: the window, the retry bound, and the finality of cancellation. */
module FileSenderRuns {
  import opened Bytes
  import opened Profiles
  import opened Sequences
  import opened FileSender

  /** Chunk states of a transfer: chunks not begun are untouched; begun ones are in flight or acked, never both. */
  ghost predicate Fits(s: Slot, limit: nat, begun: bool, live: bool, cancelled: bool)
  {
    && Bounded(s, limit)
    && (!begun ==> s == UNTOUCHED)
    && (cancelled ==> s.item.None?)
    && (begun && live && !cancelled ==> s.item.Some? || s.acked)
  }

  ghost predicate AllFit(t: Transfer, limit: nat)
  {
    forall i :: 0 <= i < |t.slots| ==> Fits(t.slots[i], limit, i < t.next, t.registered, t.cancelled)
  }

  ghost predicate AllAcked(slots: seq<Slot>) { forall i :: 0 <= i < |slots| ==> slots[i].acked }

  ghost predicate Invariant(t: Transfer, f: FileLimits)
  {
    && t.next <= |t.slots| && AllFit(t, f.maxRetries + 1)
    && (t.cancelled ==> t.status == Failed || t.status == Cancelled)
    && (t.registered && !t.cancelled ==> InFlight(t.slots) <= f.window)
    && (t.status == Completed ==> AllAcked(t.slots))
  }

  // ---- counting ------------------------------------------------------------

  lemma {:induction false} InFlightUpdate(slots: seq<Slot>, i: nat, s: Slot)
    requires i < |slots|
    ensures InFlight(slots[i := s]) == InFlight(slots) - One(slots[i].item.Some?) + One(s.item.Some?)
  {
    var k := |slots| - 1;
    if i < k {
      InFlightUpdate(slots[..k], i, s);
      assert slots[i := s][..k] == slots[..k][i := s];
    } else {
      assert slots[i := s][..k] == slots[..k];
    }
  }

  lemma {:induction false} InFlightMonotone(a: seq<Slot>, b: seq<Slot>)
    requires |a| == |b| && forall i :: 0 <= i < |a| ==> a[i].item.Some? ==> b[i].item.Some?
    ensures InFlight(a) <= InFlight(b)
  {
    if |a| != 0 {
      InFlightMonotone(a[..|a| - 1], b[..|b| - 1]);
    }
  }

  lemma {:induction false} EveryAcked(slots: seq<Slot>)
    ensures Acked(slots) <= |slots|
    ensures Acked(slots) == |slots| ==> AllAcked(slots)
  {
    if |slots| != 0 {
      EveryAcked(slots[..|slots| - 1]);
      assert forall i :: 0 <= i < |slots| - 1 ==> slots[i] == slots[..|slots| - 1][i];
    }
  }

  // ---- the invariant -------------------------------------------------------

  lemma FailKeeps(t: Transfer, f: FileLimits)
    requires t.next <= |t.slots| && (forall i :: 0 <= i < |t.slots| ==> Bounded(t.slots[i], f.maxRetries + 1))
    requires forall i :: t.next <= i < |t.slots| ==> t.slots[i] == UNTOUCHED
    ensures Invariant(Fail(t), f)
  {}

  /** Storing the result of a sound chunk function on a chunk already begun keeps the invariant. */
  lemma StoreKeeps(t: Transfer, f: FileLimits, i: nat, r: (Slot, bool))
    requires Invariant(t, f) && i < t.next && Sound(GateOf(t, f), t.slots[i], r)
    ensures Invariant(Store(t, i, r), f)
  {
    InFlightUpdate(t.slots, i, r.0);
    var u := t.(slots := t.slots[i := r.0]);
    if r.1 {
      FailKeeps(u, f);
    }
  }

  lemma AdvanceKeeps(t: Transfer, f: FileLimits, e: Event)
    requires Invariant(t, f)
    ensures Invariant(Advance(t, f, e), f)
  {
    var g := GateOf(t, f);
    match e
    case ReadAnswered(i, k, ok) =>
      if i < |t.slots| && k < |t.slots[i].sends| && t.slots[i].sends[k].stage == Reading {
        ReadSound(g, t.slots[i], k, ok);
        StoreKeeps(t, f, i, FinishRead(g, t.slots[i], k, ok));
      }
    case SendAnswered(i, k, ok) =>
      if i < |t.slots| && k < |t.slots[i].sends| && t.slots[i].sends[k].stage == Transmitting {
        SendSound(g, t.slots[i], k, ok);
        StoreKeeps(t, f, i, FinishSend(g, t.slots[i], k, ok));
      }
    case TimerFires(i) =>
      if i < |t.slots| && Ticking(t.slots[i]) {
        FireSound(g, t.slots[i]);
        StoreKeeps(t, f, i, FireHeld(g, t.slots[i]));
      }
    case OrphanFires(i, k) =>
      if i < |t.slots| && k < |t.slots[i].orphans| {
        OrphanSound(g, t.slots[i], k);
        StoreKeeps(t, f, i, FireOrphan(g, t.slots[i], k));
      }
    case _ =>
  }

  lemma FirstSendKeeps(t: Transfer, f: FileLimits)
    requires Invariant(t, f) && t.next < |t.slots| && InFlight(t.slots) < f.window
    requires !t.cancelled && !t.paused && !t.globalPaused
    ensures var r := BeginSend(GateOf(t, f), t.slots[t.next], 1);
            Store(t, t.next, r) == t.(slots := t.slots[t.next := r.0]) && Invariant(Store(t, t.next, r).(next := t.next + 1), f)
  {
    assert Fits(t.slots[t.next], f.maxRetries + 1, false, t.registered, t.cancelled);
    InFlightUpdate(t.slots, t.next, BeginSend(GateOf(t, f), t.slots[t.next], 1).0);
  }

  lemma {:induction false} FillKeeps(t: Transfer, f: FileLimits)
    requires Invariant(t, f)
    ensures Invariant(Fill(t, f), f)
    decreases |t.slots| - t.next
  {
    if t.next < |t.slots| && InFlight(t.slots) < f.window && !t.cancelled && !t.paused && !t.globalPaused {
      FirstSendKeeps(t, f);
      FillKeeps(Store(t, t.next, BeginSend(GateOf(t, f), t.slots[t.next], 1)).(next := t.next + 1), f);
    }
  }

  lemma PumpKeeps(t: Transfer, f: FileLimits)
    requires Invariant(t, f)
    ensures Invariant(Pump(t, f), f)
  {
    FillKeeps(t, f);
    EveryAcked(Fill(t, f).slots);
  }

  lemma {:induction false} RestartKeeps(t: Transfer, f: FileLimits, order: seq<nat>)
    requires Invariant(t, f) && !t.paused && !t.globalPaused
    ensures var r := Restart(t, f, order); Invariant(r, f) && !r.paused && !r.globalPaused
  {
    if |order| != 0 {
      RestartKeeps(t, f, order[..|order| - 1]);
      RestartOneKeeps(Restart(t, f, order[..|order| - 1]), f, order[|order| - 1]);
    }
  }

  lemma RestartOneKeeps(u: Transfer, f: FileLimits, i: nat)
    requires Invariant(u, f) && !u.paused && !u.globalPaused
    ensures var r := RestartOne(u, f, i); Invariant(r, f) && !r.paused && !r.globalPaused
  {
    if i < |u.slots| && Resumable(u.slots[i]) {
      var n := u.slots[i].item.value.attempts + 1;
      BeginSound(GateOf(u, f), u.slots[i], n);
      StoreKeeps(u, f, i, BeginSend(GateOf(u, f), u.slots[i], n));
    }
  }

  lemma ResumeKeeps(t: Transfer, f: FileLimits, order: seq<nat>)
    requires Invariant(t, f)
    ensures Invariant(ResumeOutstanding(t, f, order), f)
  {
    if !t.cancelled && !t.paused && !t.globalPaused {
      RestartKeeps(t, f, order);
      PumpKeeps(Restart(t, f, order), f);
    }
  }

  lemma HoldKeeps(t: Transfer, f: FileLimits)
    requires Invariant(t, f)
    ensures Invariant(t.(slots := MapHold(t.slots)), f)
  {
    InFlightMonotone(MapHold(t.slots), t.slots);
  }

  lemma AckKeeps(t: Transfer, f: FileLimits, i: nat)
    requires Invariant(t, f) && i < |t.slots| && t.slots[i].item.Some?
    ensures Invariant(t.(slots := t.slots[i := t.slots[i].(item := None, acked := true)]), f)
  {
    InFlightUpdate(t.slots, i, t.slots[i].(item := None, acked := true));
  }

  lemma NackKeeps(t: Transfer, f: FileLimits, i: nat)
    requires Invariant(t, f) && i < |t.slots| && t.slots[i].item.Some?
    ensures Invariant(Store(t, i, ScheduleRetry(GateOf(t, f), t.slots[i], t.slots[i].item.value.attempts)), f)
  {
    var n := t.slots[i].item.value.attempts;
    RetrySound(GateOf(t, f), t.slots[i], n);
    StoreKeeps(t, f, i, ScheduleRetry(GateOf(t, f), t.slots[i], n));
  }

  lemma AnswerKeeps(t: Transfer, f: FileLimits, e: Event)
    requires Invariant(t, f)
    ensures Invariant(Answer(t, f, e), f)
  {
    match e
    case Ack(i) =>
      if t.registered && !t.cancelled && 0 <= i < |t.slots| && t.slots[i].item.Some? {
        AckKeeps(t, f, i);
        PumpKeeps(t.(slots := t.slots[i := t.slots[i].(item := None, acked := true)]), f);
      }
    case Nack(i) =>
      if t.registered && !t.cancelled && 0 <= i < |t.slots| && t.slots[i].item.Some? {
        NackKeeps(t, f, i);
      }
    case _ =>
  }

  /** The invariant does not read the other fields. */
  lemma FlagsKeep(t: Transfer, u: Transfer, f: FileLimits)
    requires Invariant(t, f) && u.slots == t.slots && u.next == t.next
    requires u.registered == t.registered && u.cancelled == t.cancelled
    requires u.status == t.status || (!t.cancelled && u.status != Completed)
    ensures Invariant(u, f)
  {}

  lemma PauseKeeps(t: Transfer, f: FileLimits, e: Event)
    requires Invariant(t, f) && (e.Pause? || e.PauseAll?)
    ensures Invariant(Command(t, f, e), f)
  {
    HoldKeeps(t, f);
    FlagsKeep(t, t.(globalPaused := true), f);
    if t.registered && (if e.Pause? then !Terminal(t.status) else t.status == Active || t.status == Paused) {
      FlagsKeep(t.(slots := MapHold(t.slots)), Command(t, f, e), f);
    }
  }

  lemma CommandKeeps(t: Transfer, f: FileLimits, e: Event)
    requires Invariant(t, f)
    ensures Invariant(Command(t, f, e), f)
  {
    match e
    case StartQueued =>
      if t.registered && !t.cancelled && t.status == Queued {
        FlagsKeep(t, Command(t, f, e), f);
      }
    case Accept =>
      if t.registered && !t.cancelled {
        var u := t.(accepted := true, status := if t.globalPaused then Paused else Active, paused := t.globalPaused);
        FlagsKeep(t, u, f);
        PumpKeeps(u, f);
      }
    case Resume(order) =>
      if t.registered && t.status == Paused {
        var u := t.(paused := false, status := if t.accepted then Active else Offered);
        FlagsKeep(t, u, f);
        ResumeKeeps(u, f, order);
      }
    case ResumeAll(order) =>
      FlagsKeep(t, t.(globalPaused := false), f);
      if t.registered && (t.status == Active || t.status == Paused) {
        var u := t.(globalPaused := false, paused := false, status := Active);
        FlagsKeep(t, u, f);
        ResumeKeeps(u, f, order);
      }
    case Pause => PauseKeeps(t, f, e);
    case PauseAll => PauseKeeps(t, f, e);
    case _ =>
  }

  lemma DropKeeps(t: Transfer, f: FileLimits, e: Event)
    requires Invariant(t, f) && (e.Cancel? || e.Remove? || e.Reset?)
    ensures Invariant(Close(t, e), f)
  {
    FlagsKeep(t, t.(globalPaused := false), f);
    assert forall i :: 0 <= i < |t.slots| ==> Bounded(Drop(t.slots[i]), f.maxRetries + 1) && DropAll(t.slots)[i] == Drop(t.slots[i]);
  }

  lemma OfferAnsweredKeeps(t: Transfer, f: FileLimits, ok: bool)
    requires Invariant(t, f) && t.offers > 0
    ensures Invariant(Close(t, OfferAnswered(ok)), f)
  {
    var u := t.(offers := t.offers - 1);
    FlagsKeep(t, u, f);
    if !ok {
      FailKeeps(u, f);
    }
  }

  lemma CloseKeeps(t: Transfer, f: FileLimits, e: Event)
    requires Invariant(t, f)
    ensures Invariant(Close(t, e), f)
  {
    if e.Cancel? || e.Remove? || e.Reset? {
      DropKeeps(t, f, e);
    } else if e.OfferAnswered? && t.offers > 0 {
      OfferAnsweredKeeps(t, f, e.ok);
    } else if e.PumpEnds? {
      FlagsKeep(t, t.(pumping := false), f);
    }
  }

  lemma NextKeeps(t: Transfer, f: FileLimits, e: Event)
    requires Invariant(t, f)
    ensures Invariant(Next(t, f, e), f)
  {
    AdvanceKeeps(t, f, e);
    AnswerKeeps(t, f, e);
    CommandKeeps(t, f, e);
    CloseKeeps(t, f, e);
  }

  lemma {:induction false} RunKeeps(t: Transfer, f: FileLimits, es: seq<Event>)
    requires Invariant(t, f)
    ensures Invariant(Run(t, f, es), f)
  {
    if |es| != 0 {
      RunKeeps(t, f, es[..|es| - 1]);
      NextKeeps(Run(t, f, es[..|es| - 1]), f, es[|es| - 1]);
    }
  }

  // ---- the main statements -------------------------------------------------

  /**
    * In every reachable state of a registered, uncancelled transfer the chunks in flight and the acked chunks partition
    * [0, next), at most `window` are in flight, and no attempt number exceeds maxRetries + 1.
    */
  lemma WindowDiscipline(chunks: nat, queued: bool, f: FileLimits, es: seq<Event>)
    ensures var t := Run(Offer(chunks, queued), f, es);
      && AllBounded(t, f.maxRetries + 1)
      && (t.registered && !t.cancelled ==> InFlight(t.slots) <= f.window && Partitioned(t))
  {
    OfferFits(chunks, queued, f);
    RunKeeps(Offer(chunks, queued), f, es);
    InvariantPartitions(Run(Offer(chunks, queued), f, es), f);
  }

  ghost predicate AllBounded(t: Transfer, limit: nat) { forall i :: 0 <= i < |t.slots| ==> Bounded(t.slots[i], limit) }

  /** In flight or acked exactly below `next`, and never both. */
  ghost predicate Partitioned(t: Transfer)
  {
    forall i :: 0 <= i < |t.slots| ==>
      && (i < t.next <==> t.slots[i].item.Some? || t.slots[i].acked) && !(t.slots[i].item.Some? && t.slots[i].acked)
  }

  lemma InvariantPartitions(t: Transfer, f: FileLimits)
    requires Invariant(t, f)
    ensures AllBounded(t, f.maxRetries + 1)
    ensures t.registered && !t.cancelled ==> InFlight(t.slots) <= f.window && Partitioned(t)
  {}

  lemma OfferFits(chunks: nat, queued: bool, f: FileLimits)
    ensures Invariant(Offer(chunks, queued), f)
  {
    NoneInFlight(chunks);
  }

  lemma {:induction false} NoneInFlight(n: nat)
    ensures InFlight(seq(n, _ => UNTOUCHED)) == 0
  {
    if n != 0 {
      NoneInFlight(n - 1);
      assert seq(n, _ => UNTOUCHED)[..n - 1] == seq(n - 1, _ => UNTOUCHED);
    }
  }

  lemma CancelledAdvance(t: Transfer, f: FileLimits, e: Event)
    requires t.cancelled
    ensures Advance(t, f, e).cancelled
  {
    var g := GateOf(t, f);
    match e
    case ReadAnswered(i, k, ok) =>
      if i < |t.slots| && k < |t.slots[i].sends| && t.slots[i].sends[k].stage == Reading {
        StoreCancelled(t, i, FinishRead(g, t.slots[i], k, ok));
      }
    case SendAnswered(i, k, ok) =>
      if i < |t.slots| && k < |t.slots[i].sends| && t.slots[i].sends[k].stage == Transmitting {
        StoreCancelled(t, i, FinishSend(g, t.slots[i], k, ok));
      }
    case TimerFires(i) =>
      if i < |t.slots| && Ticking(t.slots[i]) {
        StoreCancelled(t, i, FireHeld(g, t.slots[i]));
      }
    case OrphanFires(i, k) =>
      if i < |t.slots| && k < |t.slots[i].orphans| {
        StoreCancelled(t, i, FireOrphan(g, t.slots[i], k));
      }
    case _ =>
  }

  lemma StoreCancelled(t: Transfer, i: nat, r: (Slot, bool))
    requires t.cancelled && i < |t.slots|
    ensures Store(t, i, r).cancelled
  {}

  lemma CancelledClose(t: Transfer, e: Event)
    requires t.cancelled
    ensures Close(t, e).cancelled
  {}

  lemma CancelledCommand(t: Transfer, f: FileLimits, e: Event)
    requires t.cancelled && (t.status == Failed || t.status == Cancelled)
    ensures Answer(t, f, e).cancelled && Command(t, f, e).cancelled
  {}

  lemma CancelledStays(t: Transfer, f: FileLimits, e: Event)
    requires t.cancelled && (t.status == Failed || t.status == Cancelled)
    ensures Next(t, f, e).cancelled
  {
    CancelledAdvance(t, f, e);
    CancelledClose(t, e);
    CancelledCommand(t, f, e);
  }

  /** Cancellation is final: whatever is resumed, fired or received later, nothing is ever in flight again. */
  lemma {:induction false} CancelIsFinal(t: Transfer, f: FileLimits, es: seq<Event>)
    requires Invariant(t, f) && t.cancelled
    ensures var r := Run(t, f, es);
      && r.cancelled && (r.status == Failed || r.status == Cancelled)
      && (forall i :: 0 <= i < |r.slots| ==> r.slots[i].item.None?)
  {
    RunKeeps(t, f, es);
    if |es| != 0 {
      var k := |es| - 1;
      CancelIsFinal(t, f, es[..k]);
      RunKeeps(t, f, es[..k]);
      CancelledStays(Run(t, f, es[..k]), f, es[k]);
    }
  }

  /** With every chunk acked there is nothing in flight and nothing left to begin. */
  lemma CompletedIsDone(t: Transfer, f: FileLimits)
    requires Invariant(t, f) && t.status == Completed
    ensures Done(t) && !t.cancelled && t.next == |t.slots|
    ensures forall i :: 0 <= i < |t.slots| ==> t.slots[i].acked && t.slots[i].item.None?
  {
    NothingInFlight(t.slots);
    AllCounted(t.slots);
  }

  /** The code of an acked chunk without an entry never fails the transfer. */
  lemma AckedRead(g: Gate, s: Slot, k: nat, ok: bool)
    requires s.acked && k < |s.sends|
    ensures !FinishRead(g, s, k, ok).1
  {}

  lemma AckedSend(g: Gate, s: Slot, k: nat, ok: bool)
    requires s.acked && k < |s.sends|
    ensures !FinishSend(g, s, k, ok).1
  {}

  lemma AckedOrphan(g: Gate, s: Slot, k: nat)
    requires s.acked && k < |s.orphans|
    ensures !FireOrphan(g, s, k).1
  {}

  lemma CompletedAdvance(t: Transfer, f: FileLimits, e: Event)
    requires Invariant(t, f) && t.status == Completed
    ensures Advance(t, f, e).status == Completed
  {
    CompletedIsDone(t, f);
    var g := GateOf(t, f);
    match e
    case ReadAnswered(i, k, ok) =>
      if i < |t.slots| && k < |t.slots[i].sends| {
        AckedRead(g, t.slots[i], k, ok);
      }
    case SendAnswered(i, k, ok) =>
      if i < |t.slots| && k < |t.slots[i].sends| {
        AckedSend(g, t.slots[i], k, ok);
      }
    case OrphanFires(i, k) =>
      if i < |t.slots| && k < |t.slots[i].orphans| {
        AckedOrphan(g, t.slots[i], k);
      }
    case _ =>
  }

  lemma CompletedAnswer(t: Transfer, f: FileLimits, e: Event)
    requires Invariant(t, f) && t.status == Completed
    ensures Answer(t, f, e) == t
  {
    CompletedIsDone(t, f);
  }

  lemma CompletedAccept(t: Transfer, f: FileLimits)
    requires Invariant(t, f) && t.status == Completed
    ensures Command(t, f, Accept).status == Completed <==> !Undoes(t, Accept)
  {
    CompletedIsDone(t, f);
    var u := t.(accepted := true, status := if t.globalPaused then Paused else Active, paused := t.globalPaused);
    assert Fill(u, f) == u;
  }

  /** The events that end completion, and when they do. */
  predicate Undoes(t: Transfer, e: Event)
  {
    match e
    case Accept => t.registered && (t.globalPaused || t.pumping)
    case Cancel => t.registered
    case OfferAnswered(ok) => !ok && t.offers > 0
    case _ => false
  }

  /**
    * Completion is not final. It is undone exactly by a cancellation, by the refusal of an offer still unanswered, and by
    * another accept while everything is paused or a pump is suspended.
    */
  lemma CompletedStaysIff(t: Transfer, f: FileLimits, e: Event)
    requires Invariant(t, f) && t.status == Completed
    ensures Next(t, f, e).status == Completed <==> !Undoes(t, e)
  {
    if e.Accept? {
      CompletedAccept(t, f);
    } else {
      CompletedAdvance(t, f, e);
      CompletedAnswer(t, f, e);
    }
  }

  ghost predicate StaysCompleted(t: Transfer, f: FileLimits, es: seq<Event>)
  {
    |es| == 0 || (StaysCompleted(t, f, es[..|es| - 1]) && Run(t, f, es).status == Completed)
  }

  ghost predicate NoneUndoes(t: Transfer, f: FileLimits, es: seq<Event>)
  {
    |es| == 0 || (NoneUndoes(t, f, es[..|es| - 1]) && !Undoes(Run(t, f, es[..|es| - 1]), es[|es| - 1]))
  }

  /** Over a whole run: a completed transfer stays completed if and only if no event of it undoes completion. */
  lemma {:induction false} StaysCompletedIff(t: Transfer, f: FileLimits, es: seq<Event>)
    requires Invariant(t, f) && t.status == Completed
    ensures StaysCompleted(t, f, es) <==> NoneUndoes(t, f, es)
    ensures StaysCompleted(t, f, es) ==> Run(t, f, es).status == Completed
  {
    if |es| != 0 {
      StaysCompletedIff(t, f, es[..|es| - 1]);
      RunKeeps(t, f, es[..|es| - 1]);
      if StaysCompleted(t, f, es[..|es| - 1]) {
        CompletedStaysIff(Run(t, f, es[..|es| - 1]), f, es[|es| - 1]);
      }
    }
  }

  lemma {:induction false} NothingInFlight(slots: seq<Slot>)
    requires forall i :: 0 <= i < |slots| ==> slots[i].item.None?
    ensures InFlight(slots) == 0
  {
    if |slots| != 0 {
      NothingInFlight(slots[..|slots| - 1]);
    }
  }

  lemma {:induction false} AllCounted(slots: seq<Slot>)
    requires AllAcked(slots)
    ensures Acked(slots) == |slots|
  {
    if |slots| != 0 {
      AllCounted(slots[..|slots| - 1]);
    }
  }

  // ---- only an ack acknowledges --------------------------------------------

  /** The same chunks are acked in both. */
  ghost predicate SameAcks(a: seq<Slot>, b: seq<Slot>)
  {
    |a| == |b| && forall i :: 0 <= i < |a| ==> a[i].acked == b[i].acked
  }

  lemma StoreAcks(t: Transfer, i: nat, r: (Slot, bool))
    requires i < |t.slots| && r.0.acked == t.slots[i].acked
    ensures SameAcks(Store(t, i, r).slots, t.slots)
  {}

  lemma AdvanceAcks(t: Transfer, f: FileLimits, e: Event)
    ensures SameAcks(Advance(t, f, e).slots, t.slots)
  {
    var g := GateOf(t, f);
    match e
    case ReadAnswered(i, k, ok) =>
      if i < |t.slots| && k < |t.slots[i].sends| && t.slots[i].sends[k].stage == Reading {
        StoreAcks(t, i, FinishRead(g, t.slots[i], k, ok));
      }
    case SendAnswered(i, k, ok) =>
      if i < |t.slots| && k < |t.slots[i].sends| && t.slots[i].sends[k].stage == Transmitting {
        StoreAcks(t, i, FinishSend(g, t.slots[i], k, ok));
      }
    case TimerFires(i) =>
      if i < |t.slots| && Ticking(t.slots[i]) {
        StoreAcks(t, i, FireHeld(g, t.slots[i]));
      }
    case OrphanFires(i, k) =>
      if i < |t.slots| && k < |t.slots[i].orphans| {
        StoreAcks(t, i, FireOrphan(g, t.slots[i], k));
      }
    case _ =>
  }

  lemma {:induction false} FillAcks(t: Transfer, f: FileLimits)
    ensures SameAcks(Fill(t, f).slots, t.slots)
    decreases |t.slots| - t.next
  {
    if t.next < |t.slots| && InFlight(t.slots) < f.window && !t.cancelled && !t.paused && !t.globalPaused {
      var r := BeginSend(GateOf(t, f), t.slots[t.next], 1);
      StoreAcks(t, t.next, r);
      FillAcks(Store(t, t.next, r).(next := t.next + 1), f);
    }
  }

  lemma {:induction false} RestartAcks(t: Transfer, f: FileLimits, order: seq<nat>)
    ensures SameAcks(Restart(t, f, order).slots, t.slots)
  {
    if |order| != 0 {
      RestartAcks(t, f, order[..|order| - 1]);
      var u, i := Restart(t, f, order[..|order| - 1]), order[|order| - 1];
      if i < |u.slots| && Resumable(u.slots[i]) {
        StoreAcks(u, i, BeginSend(GateOf(u, f), u.slots[i], u.slots[i].item.value.attempts + 1));
      }
    }
  }

  lemma PumpAcks(t: Transfer, f: FileLimits)
    ensures SameAcks(Pump(t, f).slots, t.slots)
  {
    FillAcks(t, f);
  }

  lemma ResumeAcks(t: Transfer, f: FileLimits, order: seq<nat>)
    ensures SameAcks(ResumeOutstanding(t, f, order).slots, t.slots)
  {
    RestartAcks(t, f, order);
    PumpAcks(Restart(t, f, order), f);
  }

  lemma MapAcks(slots: seq<Slot>)
    ensures SameAcks(MapHold(slots), slots) && SameAcks(DropAll(slots), slots)
  {}

  lemma RestartingAcks(t: Transfer, f: FileLimits, e: Event)
    requires e.Resume? || e.ResumeAll?
    ensures SameAcks(Command(t, f, e).slots, t.slots)
  {
    match e
    case Resume(order) => ResumeAcks(t.(paused := false, status := if t.accepted then Active else Offered), f, order);
    case ResumeAll(order) => ResumeAcks(t.(globalPaused := false, paused := false, status := Active), f, order);
  }

  lemma CommandAcks(t: Transfer, f: FileLimits, e: Event)
    ensures SameAcks(Command(t, f, e).slots, t.slots)
  {
    if e.Resume? || e.ResumeAll? {
      RestartingAcks(t, f, e);
    } else if e.Accept? {
      PumpAcks(t.(accepted := true, status := if t.globalPaused then Paused else Active, paused := t.globalPaused), f);
    } else {
      MapAcks(t.slots);
    }
  }

  lemma AnswerAcks(t: Transfer, f: FileLimits, e: Event)
    ensures |Answer(t, f, e).slots| == |t.slots|
    ensures forall i :: 0 <= i < |t.slots| ==> t.slots[i].acked ==> Answer(t, f, e).slots[i].acked
    ensures forall i :: 0 <= i < |t.slots| ==> Answer(t, f, e).slots[i].acked ==> t.slots[i].acked || e == Ack(i)
  {
    match e
    case Ack(i) =>
      if t.registered && !t.cancelled && 0 <= i < |t.slots| && t.slots[i].item.Some? {
        PumpAcks(t.(slots := t.slots[i := t.slots[i].(item := None, acked := true)]), f);
      }
    case Nack(i) =>
      if t.registered && !t.cancelled && 0 <= i < |t.slots| && t.slots[i].item.Some? {
        StoreAcks(t, i, ScheduleRetry(GateOf(t, f), t.slots[i], t.slots[i].item.value.attempts));
      }
    case _ =>
  }

  lemma CloseAcks(t: Transfer, e: Event)
    ensures SameAcks(Close(t, e).slots, t.slots)
  {
    MapAcks(t.slots);
  }

  /** A chunk becomes acked only by an ack of that chunk, and stays acked. */
  lemma OnlyAckAcknowledges(t: Transfer, f: FileLimits, e: Event)
    ensures |Next(t, f, e).slots| == |t.slots|
    ensures forall i :: 0 <= i < |t.slots| ==> t.slots[i].acked ==> Next(t, f, e).slots[i].acked
    ensures forall i :: 0 <= i < |t.slots| ==> Next(t, f, e).slots[i].acked ==> t.slots[i].acked || e == Ack(i)
  {
    AdvanceAcks(t, f, e);
    AnswerAcks(t, f, e);
    CommandAcks(t, f, e);
    CloseAcks(t, e);
  }
}
