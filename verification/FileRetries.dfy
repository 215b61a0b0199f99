/** Attempt numbers of one chunk: strictly increasing as long as its sends do not overlap, repeated when they do. */
module FileRetries {
  import opened Bytes
  import opened Profiles
  import opened Sequences
  import opened FileSender
  import opened FileSenderRuns

  function Top(s: Slot): (n: nat) { if |s.sent| == 0 then 0 else s.sent[|s.sent| - 1] }

  /** At most one activity per chunk, and every attempt still to come is numbered above all attempts made. */
  ghost predicate Orderly(s: Slot)
  {
    && Increasing(s.sent) && |s.orphans| == 0
    && |s.sends| + One(Ticking(s)) <= 1
    && (s.item.Some? ==> s.item.value.attempts >= Top(s))
    && (Ticking(s) ==> match s.item.value.timer.timer case AckTimeout(n) => n >= Top(s) case Retry(n) => n > Top(s))
    && (|s.sends| == 1 ==> if s.sends[0].stage == Reading then s.sends[0].attempts > Top(s) else s.sends[0].attempts >= Top(s))
    && (|s.sends| == 1 && s.item.Some? ==> s.item.value.attempts >= s.sends[0].attempts)
  }

  lemma BeginOrderly(g: Gate, s: Slot, attempts: nat)
    requires Orderly(s) && !Ticking(s) && |s.sends| == 0 && attempts > Top(s)
    ensures Orderly(BeginSend(g, s, attempts).0)
  {}

  lemma RetryOrderly(g: Gate, s: Slot, attempts: nat)
    requires Orderly(s) && |s.sends| == 0 && attempts >= Top(s)
    ensures Orderly(ScheduleRetry(g, s, attempts).0)
  {}

  lemma ReadOrderly(g: Gate, s: Slot, k: nat, ok: bool)
    requires Orderly(s) && k < |s.sends| && s.sends[k].stage == Reading
    ensures Orderly(FinishRead(g, s, k, ok).0)
  {
    if ok {
      IncreasingAppend(s.sent, s.sends[k].attempts);
    }
  }

  lemma SendOrderly(g: Gate, s: Slot, k: nat, ok: bool)
    requires Orderly(s) && k < |s.sends| && s.sends[k].stage == Transmitting
    ensures Orderly(FinishSend(g, s, k, ok).0)
  {}

  lemma FireOrderly(g: Gate, s: Slot)
    requires Orderly(s) && Ticking(s)
    ensures Orderly(FireHeld(g, s).0)
  {}

  // ---- over whole runs -----------------------------------------------------

  ghost predicate AllOrderly(t: Transfer) { forall i :: 0 <= i < |t.slots| ==> Orderly(t.slots[i]) }

  /** Chunks that a resume would restart have no send suspended. */
  ghost predicate Rested(t: Transfer)
  {
    forall i :: 0 <= i < |t.slots| ==> Resumable(t.slots[i]) ==> |t.slots[i].sends| == 0
  }

  /** The event starts or schedules no send of a chunk whose previous send is still suspended. */
  ghost predicate Calm(t: Transfer, e: Event)
  {
    match e
    case Nack(i) => 0 <= i < |t.slots| ==> |t.slots[i].sends| == 0
    case Resume(_) => Rested(t)
    case ResumeAll(_) => Rested(t)
    case _ => true
  }

  ghost predicate CalmRun(t: Transfer, f: FileLimits, es: seq<Event>)
  {
    |es| == 0 || (CalmRun(t, f, es[..|es| - 1]) && Calm(Run(t, f, es[..|es| - 1]), es[|es| - 1]))
  }

  lemma DropOrderly(t: Transfer)
    requires AllOrderly(t)
    ensures AllOrderly(t.(slots := DropAll(t.slots)))
  {
    forall i | 0 <= i < |t.slots|
      ensures Orderly(DropAll(t.slots)[i])
    {
      assert Orderly(t.slots[i]);
    }
  }

  lemma HoldOrderly(t: Transfer)
    requires AllOrderly(t)
    ensures AllOrderly(t.(slots := MapHold(t.slots)))
  {
    forall i | 0 <= i < |t.slots|
      ensures Orderly(MapHold(t.slots)[i])
    {
      assert Orderly(t.slots[i]);
    }
  }

  lemma StoreOrderly(t: Transfer, i: nat, r: (Slot, bool))
    requires AllOrderly(t) && i < |t.slots| && Orderly(r.0)
    ensures AllOrderly(Store(t, i, r))
  {
    DropOrderly(t.(slots := t.slots[i := r.0]));
  }

  lemma AdvanceOrderly(t: Transfer, f: FileLimits, e: Event)
    requires AllOrderly(t)
    ensures AllOrderly(Advance(t, f, e))
  {
    var g := GateOf(t, f);
    match e
    case ReadAnswered(i, k, ok) =>
      if i < |t.slots| && k < |t.slots[i].sends| && t.slots[i].sends[k].stage == Reading {
        ReadOrderly(g, t.slots[i], k, ok);
        StoreOrderly(t, i, FinishRead(g, t.slots[i], k, ok));
      }
    case SendAnswered(i, k, ok) =>
      if i < |t.slots| && k < |t.slots[i].sends| && t.slots[i].sends[k].stage == Transmitting {
        SendOrderly(g, t.slots[i], k, ok);
        StoreOrderly(t, i, FinishSend(g, t.slots[i], k, ok));
      }
    case TimerFires(i) =>
      if i < |t.slots| && Ticking(t.slots[i]) {
        FireOrderly(g, t.slots[i]);
        StoreOrderly(t, i, FireHeld(g, t.slots[i]));
      }
    case _ =>
  }

  lemma {:induction false} FillOrderly(t: Transfer, f: FileLimits)
    requires Invariant(t, f) && AllOrderly(t)
    ensures AllOrderly(Fill(t, f))
    decreases |t.slots| - t.next
  {
    if t.next < |t.slots| && InFlight(t.slots) < f.window && !t.cancelled && !t.paused && !t.globalPaused {
      assert Fits(t.slots[t.next], f.maxRetries + 1, false, t.registered, t.cancelled);
      var r := BeginSend(GateOf(t, f), t.slots[t.next], 1);
      BeginOrderly(GateOf(t, f), t.slots[t.next], 1);
      StoreOrderly(t, t.next, r);
      FirstSendKeeps(t, f);
      FillOrderly(Store(t, t.next, r).(next := t.next + 1), f);
    }
  }

  lemma {:induction false} RestartOrderly(t: Transfer, f: FileLimits, order: seq<nat>)
    requires Invariant(t, f) && AllOrderly(t) && Rested(t) && !t.paused && !t.globalPaused
    ensures AllOrderly(Restart(t, f, order)) && Rested(Restart(t, f, order))
  {
    if |order| != 0 {
      var rest := order[..|order| - 1];
      RestartOrderly(t, f, rest);
      RestartKeeps(t, f, rest);
      RestartOneOrderly(Restart(t, f, rest), f, order[|order| - 1]);
    }
  }

  lemma RestartOneOrderly(u: Transfer, f: FileLimits, i: nat)
    requires AllOrderly(u) && Rested(u) && !u.paused && !u.globalPaused
    ensures AllOrderly(RestartOne(u, f, i)) && Rested(RestartOne(u, f, i))
  {
    if i < |u.slots| && Resumable(u.slots[i]) {
      var r := BeginSend(GateOf(u, f), u.slots[i], u.slots[i].item.value.attempts + 1);
      BeginOrderly(GateOf(u, f), u.slots[i], u.slots[i].item.value.attempts + 1);
      StoreOrderly(u, i, r);
    }
  }

  lemma ResumeOrderly(t: Transfer, f: FileLimits, order: seq<nat>)
    requires Invariant(t, f) && AllOrderly(t) && Rested(t)
    ensures AllOrderly(ResumeOutstanding(t, f, order))
  {
    if !t.cancelled && !t.paused && !t.globalPaused {
      RestartOrderly(t, f, order);
      RestartKeeps(t, f, order);
      FillOrderly(Restart(t, f, order), f);
    }
  }

  lemma AckOrderly(t: Transfer, f: FileLimits, i: nat)
    requires Invariant(t, f) && AllOrderly(t) && i < |t.slots| && t.slots[i].item.Some?
    ensures AllOrderly(Pump(t.(slots := t.slots[i := t.slots[i].(item := None, acked := true)]), f))
  {
    var s := t.slots[i].(item := None, acked := true);
    var u := t.(slots := t.slots[i := s]);
    StoreOrderly(t, i, (s, false));
    AckKeeps(t, f, i);
    FillOrderly(u, f);
  }

  lemma AnswerOrderly(t: Transfer, f: FileLimits, e: Event)
    requires Invariant(t, f) && AllOrderly(t) && Calm(t, e)
    ensures AllOrderly(Answer(t, f, e))
  {
    match e
    case Ack(i) =>
      if t.registered && !t.cancelled && 0 <= i < |t.slots| && t.slots[i].item.Some? {
        AckOrderly(t, f, i);
      }
    case Nack(i) =>
      if t.registered && !t.cancelled && 0 <= i < |t.slots| && t.slots[i].item.Some? {
        RetryOrderly(GateOf(t, f), t.slots[i], t.slots[i].item.value.attempts);
        StoreOrderly(t, i, ScheduleRetry(GateOf(t, f), t.slots[i], t.slots[i].item.value.attempts));
      }
    case _ =>
  }

  lemma CommandOrderly(t: Transfer, f: FileLimits, e: Event)
    requires Invariant(t, f) && AllOrderly(t) && Calm(t, e)
    ensures AllOrderly(Command(t, f, e))
  {
    HoldOrderly(t);
    match e
    case Accept =>
      if t.registered && !t.cancelled {
        var u := t.(accepted := true, status := if t.globalPaused then Paused else Active, paused := t.globalPaused);
        FlagsKeep(t, u, f);
        FillOrderly(u, f);
      }
    case Resume(order) =>
      if t.registered && t.status == Paused {
        var u := t.(paused := false, status := if t.accepted then Active else Offered);
        FlagsKeep(t, u, f);
        ResumeOrderly(u, f, order);
      }
    case ResumeAll(order) =>
      if t.registered && (t.status == Active || t.status == Paused) {
        var u := t.(globalPaused := false, paused := false, status := Active);
        FlagsKeep(t, u, f);
        ResumeOrderly(u, f, order);
      }
    case _ =>
  }

  lemma NextOrderly(t: Transfer, f: FileLimits, e: Event)
    requires Invariant(t, f) && AllOrderly(t) && Calm(t, e)
    ensures AllOrderly(Next(t, f, e))
  {
    AdvanceOrderly(t, f, e);
    AnswerOrderly(t, f, e);
    CommandOrderly(t, f, e);
    DropOrderly(t);
    assert AllOrderly(Close(t, e));
  }

  lemma {:induction false} RunOrderly(t: Transfer, f: FileLimits, es: seq<Event>)
    requires Invariant(t, f) && AllOrderly(t) && CalmRun(t, f, es)
    ensures AllOrderly(Run(t, f, es))
  {
    if |es| != 0 {
      var k := |es| - 1;
      RunOrderly(t, f, es[..k]);
      RunKeeps(t, f, es[..k]);
      NextOrderly(Run(t, f, es[..k]), f, es[k]);
    }
  }

  lemma {:induction false} IncreasingLength(a: seq<nat>, limit: nat)
    requires Increasing(a) && NumbersWithin(a, limit)
    ensures |a| == 0 || |a| <= a[|a| - 1] <= limit
  {
    if |a| > 1 {
      IncreasingLength(a[..|a| - 1], limit);
    }
  }

  /**
    * If no send or retry of a chunk is started while an earlier send of it is suspended, the attempt numbers handed to
    * the transport strictly increase, so the chunk is transmitted at most maxRetries + 1 times.
    */
  lemma TransmissionsBounded(chunks: nat, queued: bool, f: FileLimits, es: seq<Event>, i: nat)
    requires CalmRun(Offer(chunks, queued), f, es)
    ensures var t := Run(Offer(chunks, queued), f, es);
            i < |t.slots| ==> Increasing(t.slots[i].sent) && |t.slots[i].sent| <= f.maxRetries + 1
  {
    OfferFits(chunks, queued, f);
    OfferOrderly(chunks, queued);
    RunKeeps(Offer(chunks, queued), f, es);
    RunOrderly(Offer(chunks, queued), f, es);
    OrderlyLength(Run(Offer(chunks, queued), f, es), f, i);
  }

  lemma OfferOrderly(chunks: nat, queued: bool)
    ensures AllOrderly(Offer(chunks, queued))
  {
    assert Orderly(UNTOUCHED);
  }

  lemma OrderlyLength(t: Transfer, f: FileLimits, i: nat)
    requires Invariant(t, f) && AllOrderly(t)
    ensures i < |t.slots| ==> Increasing(t.slots[i].sent) && |t.slots[i].sent| <= f.maxRetries + 1
  {
    if i < |t.slots| {
      assert Orderly(t.slots[i]) && Bounded(t.slots[i], f.maxRetries + 1);
      IncreasingLength(t.slots[i].sent, f.maxRetries + 1);
    }
  }

  // ---- overlapping sends ---------------------------------------------------

  /** A one-chunk transfer that has been accepted and is being pumped. */
  function Single(s: Slot, next: nat): (t: Transfer)
  {
    Transfer([s], next, Active, true, false, false, true, 1, true, false)
  }

  lemma SingleStarts(f: FileLimits)
    requires f.window >= 1
    ensures Next(Offer(1, false), f, Accept)
         == Single(Slot(Some(Item(1, Sending, NoTimer)), false, [Send(1, Reading)], [], []), 1)
  {
    var s := Slot(Some(Item(1, Sending, NoTimer)), false, [Send(1, Reading)], [], []);
    var t := Offer(1, false).(accepted := true, status := Active);
    assert t.slots == [UNTOUCHED];
    NothingInFlight(t.slots);
    assert t.slots[0 := s] == [s] && [s][..0] == [];
    assert InFlight([s]) == 1;
    var u := t.(slots := [s], next := 1);
    assert Fill(u, f) == u;
    assert [] + [Send(1, Reading)] == [Send(1, Reading)];
    assert BeginSend(GateOf(t, f), UNTOUCHED, 1) == (s, false);
    assert Store(t, 0, (s, false)).(next := 1) == u;
    assert Fill(t, f) == u;
  }

  /** A pause and resume while the first send is suspended puts two sends of the chunk side by side. */
  lemma PauseResumeOverlaps(f: FileLimits, s: Slot)
    requires f.maxRetries >= 1 && s.item.Some? && s.item.value.attempts == 1 && !s.acked
    ensures Next(Next(Single(s, 1), f, Pause), f, Resume([0]))
         == Single(s.(item := Some(Item(2, Sending, NoTimer)), sends := s.sends + [Send(2, Reading)]), 1)
  {
    var held := Single(s, 1).(paused := true, status := Paused, slots := [Hold(s)]);
    assert MapHold([s]) == [Hold(s)];
    var back := Single(Hold(s), 1);
    assert [0][..0] == [] && Restart(back, f, []) == back;
    var r := s.(item := Some(Item(2, Sending, NoTimer)), sends := s.sends + [Send(2, Reading)]);
    assert BeginSend(GateOf(back, f), Hold(s), 2) == (r, false);
    assert [Hold(s)][0 := r] == [r];
    assert Restart(back, f, [0]) == Single(r, 1);
  }

  lemma RunSnoc(t: Transfer, f: FileLimits, es: seq<Event>, e: Event)
    ensures Run(t, f, es + [e]) == Next(Run(t, f, es), f, e)
  {
    assert (es + [e])[..|es|] == es;
  }

  predicate Enabled(s: Slot, e: Event)
  {
    match e
    case ReadAnswered(i, k, _) => i == 0 && k < |s.sends| && s.sends[k].stage == Reading
    case SendAnswered(i, k, _) => i == 0 && k < |s.sends| && s.sends[k].stage == Transmitting
    case TimerFires(i) => i == 0 && Ticking(s)
    case _ => false
  }

  function Move(g: Gate, s: Slot, e: Event): (r: (Slot, bool))
    requires Enabled(s, e)
  {
    match e
    case ReadAnswered(_, k, ok) => FinishRead(g, s, k, ok)
    case SendAnswered(_, k, ok) => FinishSend(g, s, k, ok)
    case TimerFires(_) => FireHeld(g, s)
  }

  /** Some run of a one-chunk transfer, accepted and never cancelled, brings its chunk to this state. */
  ghost predicate Reachable(f: FileLimits, s: Slot)
  {
    exists es :: Run(Offer(1, false), f, es) == Single(s, 1)
  }

  lemma MovesSingle(f: FileLimits, s: Slot, e: Event)
    requires Enabled(s, e) && !Move(Gate(false, false, f.maxRetries + 1), s, e).1
    ensures Next(Single(s, 1), f, e) == Single(Move(Gate(false, false, f.maxRetries + 1), s, e).0, 1)
  {
    assert [s][0 := Move(Gate(false, false, f.maxRetries + 1), s, e).0] == [Move(Gate(false, false, f.maxRetries + 1), s, e).0];
  }

  lemma Moves(f: FileLimits, s: Slot, e: Event)
    requires Reachable(f, s) && Enabled(s, e) && !Move(Gate(false, false, f.maxRetries + 1), s, e).1
    ensures Reachable(f, Move(Gate(false, false, f.maxRetries + 1), s, e).0)
  {
    var es :| Run(Offer(1, false), f, es) == Single(s, 1);
    RunSnoc(Offer(1, false), f, es, e);
    MovesSingle(f, s, e);
  }

  lemma PausedAndResumed(f: FileLimits, s: Slot)
    requires Reachable(f, s) && f.maxRetries >= 1 && s.item.Some? && s.item.value.attempts == 1 && !s.acked
    ensures Reachable(f, s.(item := Some(Item(2, Sending, NoTimer)), sends := s.sends + [Send(2, Reading)]))
  {
    var es :| Run(Offer(1, false), f, es) == Single(s, 1);
    RunSnoc(Offer(1, false), f, es, Pause);
    RunSnoc(Offer(1, false), f, es + [Pause], Resume([0]));
    PauseResumeOverlaps(f, s);
  }

  /** The chunk as its second send starts, its first still unanswered. */
  const OVERLAPPING := Slot(Some(Item(2, Sending, NoTimer)), false, [Send(1, Transmitting), Send(2, Reading)], [], [1])

  const ONE_SEND := Slot(Some(Item(1, Sending, NoTimer)), false, [Send(1, Transmitting)], [], [1])

  lemma FirstSend(f: FileLimits)
    requires f.window >= 1
    ensures Reachable(f, ONE_SEND)
  {
    var s := Slot(Some(Item(1, Sending, NoTimer)), false, [Send(1, Reading)], [], []);
    SingleStarts(f);
    RunSnoc(Offer(1, false), f, [], Accept);
    Moves(f, s, ReadAnswered(0, 0, true));
    assert Move(Gate(false, false, f.maxRetries + 1), s, ReadAnswered(0, 0, true)).0 == ONE_SEND;
  }

  lemma TwoSendsAtOnce(f: FileLimits)
    requires f.maxRetries >= 1 && f.window >= 1
    ensures Reachable(f, OVERLAPPING)
  {
    FirstSend(f);
    PausedAndResumed(f, ONE_SEND);
    assert ONE_SEND.sends + [Send(2, Reading)] == OVERLAPPING.sends;
  }

  /** From there the first ack timeout repeats attempt 2. */
  lemma SecondSendRepeats(g: Gate)
    requires !g.cancelled && !g.held && g.limit >= 2
    ensures var s5 := Move(g, OVERLAPPING, ReadAnswered(0, 1, true));
      && !s5.1 && Enabled(s5.0, SendAnswered(0, 1, true))
      && var s6 := Move(g, s5.0, SendAnswered(0, 1, true));
      && !s6.1 && Enabled(s6.0, SendAnswered(0, 0, true))
      && var s7 := Move(g, s6.0, SendAnswered(0, 0, true));
      && !s7.1 && Enabled(s7.0, TimerFires(0))
      && var s8 := Move(g, s7.0, TimerFires(0));
      && !s8.1 && Enabled(s8.0, TimerFires(0))
      && var s9 := Move(g, s8.0, TimerFires(0));
      && !s9.1 && Enabled(s9.0, ReadAnswered(0, 0, true))
      && var s10 := Move(g, s9.0, ReadAnswered(0, 0, true));
      && !s10.1 && s10.0.sent == [1, 2, 2] && AtAttempt(s10.0, 2)
  {}

  /** The chunk with its k-th attempt handed to the transport and nothing else going on but orphaned timers. */
  predicate AtAttempt(s: Slot, k: nat)
  {
    !s.acked && s.item == Some(Item(k, Sending, NoTimer)) && s.sends == [Send(k, Transmitting)]
  }

  /** Pausing and resuming while a send is suspended makes the chunk go out as attempts 1, 2 and 2 again. */
  lemma OverlapRepeatsAttempt(f: FileLimits)
    requires f.maxRetries >= 1 && f.window >= 1
    ensures exists s :: Reachable(f, s) && s.sent == [1, 2, 2] && AtAttempt(s, 2)
  {
    var g := Gate(false, false, f.maxRetries + 1);
    SecondSendRepeats(g);
    TwoSendsAtOnce(f);
    Moves(f, OVERLAPPING, ReadAnswered(0, 1, true));
    var s5 := Move(g, OVERLAPPING, ReadAnswered(0, 1, true)).0;
    Moves(f, s5, SendAnswered(0, 1, true));
    var s6 := Move(g, s5, SendAnswered(0, 1, true)).0;
    Moves(f, s6, SendAnswered(0, 0, true));
    var s7 := Move(g, s6, SendAnswered(0, 0, true)).0;
    Moves(f, s7, TimerFires(0));
    var s8 := Move(g, s7, TimerFires(0)).0;
    Moves(f, s8, TimerFires(0));
    Moves(f, Move(g, s8, TimerFires(0)).0, ReadAnswered(0, 0, true));
  }

  /** Four events later, with no ack: the next attempt is out. */
  lemma AttemptFollows(g: Gate, s: Slot, k: nat)
    requires AtAttempt(s, k) && !g.cancelled && !g.held && k + 1 <= g.limit
    ensures var a := Move(g, s, SendAnswered(0, 0, true));
      && !a.1 && Enabled(a.0, TimerFires(0))
      && var b := Move(g, a.0, TimerFires(0));
      && !b.1 && Enabled(b.0, TimerFires(0))
      && var c := Move(g, b.0, TimerFires(0));
      && !c.1 && Enabled(c.0, ReadAnswered(0, 0, true))
      && var d := Move(g, c.0, ReadAnswered(0, 0, true));
      && !d.1 && AtAttempt(d.0, k + 1) && |d.0.sent| == |s.sent| + 1
  {}

  /** A family of chunk states that contains what its members can move to. */
  ghost predicate Closed(r: iset<Slot>, g: Gate)
  {
    forall s, e :: s in r && Enabled(s, e) && !Move(g, s, e).1 ==> Move(g, s, e).0 in r
  }

  lemma AttemptReached(r: iset<Slot>, g: Gate, s: Slot, k: nat)
    requires Closed(r, g) && s in r && AtAttempt(s, k) && !g.cancelled && !g.held && k < g.limit
    ensures exists t :: t in r && AtAttempt(t, k + 1) && |t.sent| == |s.sent| + 1
  {
    AttemptFollows(g, s, k);
    var a := Move(g, s, SendAnswered(0, 0, true)).0;
    var b := Move(g, a, TimerFires(0)).0;
    var c := Move(g, b, TimerFires(0)).0;
    var d := Move(g, c, ReadAnswered(0, 0, true)).0;
    assert a in r && b in r && c in r && d in r;
  }

  lemma {:induction false} Climb(r: iset<Slot>, g: Gate, s: Slot, k: nat, left: nat)
    requires Closed(r, g) && s in r && AtAttempt(s, k) && !g.cancelled && !g.held && k + left == g.limit
    ensures exists t :: t in r && |t.sent| == |s.sent| + left
    decreases left
  {
    if left > 0 {
      AttemptReached(r, g, s, k);
      var t :| t in r && AtAttempt(t, k + 1) && |t.sent| == |s.sent| + 1;
      Climb(r, g, t, k + 1, left - 1);
    }
  }

  ghost function ReachableSlots(f: FileLimits): (r: iset<Slot>) { iset s: Slot | Reachable(f, s) }

  lemma ReachableIsClosed(f: FileLimits)
    ensures Closed(ReachableSlots(f), Gate(false, false, f.maxRetries + 1))
  {
    forall s, e | Reachable(f, s) && Enabled(s, e) && !Move(Gate(false, false, f.maxRetries + 1), s, e).1
      ensures Reachable(f, Move(Gate(false, false, f.maxRetries + 1), s, e).0)
    {
      Moves(f, s, e);
    }
  }

  /** So the bound is lost under every profile: one overlap allows maxRetries + 2 transmissions of a chunk. */
  lemma OverlapExceedsLimit(f: FileLimits)
    requires f.maxRetries >= 1 && f.window >= 1
    ensures exists s :: Reachable(f, s) && |s.sent| == f.maxRetries + 2
  {
    OverlapRepeatsAttempt(f);
    ReachableIsClosed(f);
    var s :| Reachable(f, s) && s.sent == [1, 2, 2] && AtAttempt(s, 2);
    Climb(ReachableSlots(f), Gate(false, false, f.maxRetries + 1), s, 2, f.maxRetries - 1);
  }
}
