/** The converse of the retry bound: whenever a send or retry overlaps a suspended send, attempt numbers can go back. */
module FileOverlaps {
  import opened Bytes
  import opened Profiles
  import opened Sequences
  import opened FileSender
  import opened FileRetries

  /** A family of transfers that contains whatever its members can become. */
  ghost predicate ClosedTransfers(r: iset<Transfer>, f: FileLimits)
  {
    forall t, e :: t in r ==> Next(t, f, e) in r
  }

  ghost predicate Becomes(t: Transfer, f: FileLimits, u: Transfer) { exists es :: Run(t, f, es) == u }

  ghost function Futures(t: Transfer, f: FileLimits): (r: iset<Transfer>) { iset u: Transfer | Becomes(t, f, u) }

  lemma FuturesAreClosed(t: Transfer, f: FileLimits)
    ensures ClosedTransfers(Futures(t, f), f) && t in Futures(t, f)
  {
    assert Run(t, f, []) == t;
    forall u, e | u in Futures(t, f)
      ensures Next(u, f, e) in Futures(t, f)
    {
      var es :| Run(t, f, es) == u;
      RunSnoc(t, f, es, e);
    }
  }

  // ---- the moves of one chunk ----------------------------------------------

  datatype ChunkMove = BytesRead(k: nat) | Answered(k: nat) | Fires

  predicate CanMove(s: Slot, m: ChunkMove)
  {
    match m
    case BytesRead(k) => k < |s.sends| && s.sends[k].stage == Reading
    case Answered(k) => k < |s.sends| && s.sends[k].stage == Transmitting
    case Fires => Ticking(s)
  }

  function Moved(g: Gate, s: Slot, m: ChunkMove): (r: (Slot, bool))
    requires CanMove(s, m)
  {
    match m
    case BytesRead(k) => FinishRead(g, s, k, true)
    case Answered(k) => FinishSend(g, s, k, true)
    case Fires => FireHeld(g, s)
  }

  function With(t: Transfer, i: nat, s: Slot): (r: Transfer)
    requires i < |t.slots|
  {
    t.(slots := t.slots[i := s])
  }

  predicate Running(t: Transfer) { !t.cancelled && !t.paused && !t.globalPaused }

  lemma MoveIn(r: iset<Transfer>, f: FileLimits, t: Transfer, i: nat, s: Slot, m: ChunkMove)
    requires ClosedTransfers(r, f) && Running(t) && i < |t.slots| && With(t, i, s) in r && CanMove(s, m)
    requires !Moved(Gate(false, false, f.maxRetries + 1), s, m).1
    ensures With(t, i, Moved(Gate(false, false, f.maxRetries + 1), s, m).0) in r
  {
    var u, s' := With(t, i, s), Moved(Gate(false, false, f.maxRetries + 1), s, m).0;
    var e := match m case BytesRead(k) => ReadAnswered(i, k, true) case Answered(k) => SendAnswered(i, k, true) case Fires => TimerFires(i);
    assert u.slots[i] == s && GateOf(u, f) == Gate(false, false, f.maxRetries + 1);
    assert t.slots[i := s][i := s'] == t.slots[i := s'];
    assert Next(u, f, e) == With(t, i, s');
  }

  /** A send is suspended and a later attempt has been started beside it. */
  predicate SideBySide(s: Slot, n: nat)
  {
    && !s.acked && s.item == Some(Item(n, Sending, NoTimer)) && |s.sends| == 2
    && s.sends[1] == Send(n, Reading) && s.sends[0].attempts < n
  }

  predicate BothOut(s: Slot, a: nat, n: nat)
  {
    && !s.acked && s.item == Some(Item(n, Sending, NoTimer)) && a < n
    && s.sends == [Send(a, Transmitting), Send(n, Transmitting)] && |s.sent| > 0 && s.sent[|s.sent| - 1] == n
  }

  lemma BothGoOut(g: Gate, s: Slot, n: nat)
    requires SideBySide(s, n)
    ensures s.sends[0].stage == Transmitting ==> BothOut(Moved(g, s, BytesRead(1)).0, s.sends[0].attempts, n)
    ensures s.sends[0].stage == Reading ==>
      var u := Moved(g, s, BytesRead(0)).0;
      CanMove(u, BytesRead(1)) && BothOut(Moved(g, u, BytesRead(1)).0, s.sends[0].attempts, n)
  {}

  /** The later one is answered first and the earlier one last, whose timer then runs. */
  lemma AnsweredBackwards(g: Gate, s: Slot, a: nat, n: nat)
    requires BothOut(s, a, n) && !g.cancelled && !g.held
    ensures CanMove(s, Answered(1))
    ensures var s1 := Moved(g, s, Answered(1));
      && !s1.1 && CanMove(s1.0, Answered(0))
      && var s2 := Moved(g, s1.0, Answered(0));
      && !s2.1 && WaitsFor(s2.0, a) && s2.0.sent == s.sent
  {}

  predicate WaitsFor(s: Slot, a: nat)
  {
    !s.acked && s.item == Some(Item(a, WaitingAck, Live(AckTimeout(a)))) && |s.sends| == 0
  }

  /** So the next attempt counts on from the earlier one. */
  lemma CountsOn(g: Gate, s: Slot, a: nat)
    requires WaitsFor(s, a) && !g.cancelled && !g.held && a + 1 <= g.limit
    ensures CanMove(s, Fires)
    ensures var s3 := Moved(g, s, Fires);
      && !s3.1 && CanMove(s3.0, Fires)
      && var s4 := Moved(g, s3.0, Fires);
      && !s4.1 && CanMove(s4.0, BytesRead(0))
      && var s5 := Moved(g, s4.0, BytesRead(0));
      && !s5.1 && s5.0.sent == s.sent + [a + 1]
  {}

  lemma NotIncreasing(sent: seq<nat>, m: nat)
    requires |sent| > 0 && m <= sent[|sent| - 1]
    ensures !Increasing(sent + [m])
  {}

  lemma WaitingGoesBack(r: iset<Transfer>, f: FileLimits, t: Transfer, i: nat, s: Slot, a: nat)
    requires ClosedTransfers(r, f) && Running(t) && i < |t.slots| && With(t, i, s) in r
    requires WaitsFor(s, a) && |s.sent| > 0 && a + 1 <= s.sent[|s.sent| - 1] && a + 1 <= f.maxRetries + 1
    ensures exists u :: u in r && GoesBack(u, i)
  {
    var g := Gate(false, false, f.maxRetries + 1);
    CountsOn(g, s, a);
    NotIncreasing(s.sent, a + 1);
    MoveIn(r, f, t, i, s, Fires);
    var s3 := Moved(g, s, Fires).0;
    MoveIn(r, f, t, i, s3, Fires);
    var s4 := Moved(g, s3, Fires).0;
    MoveIn(r, f, t, i, s4, BytesRead(0));
    var u := With(t, i, Moved(g, s4, BytesRead(0)).0);
    assert u in r && GoesBack(u, i);
  }

  lemma BothOutGoesBack(r: iset<Transfer>, f: FileLimits, t: Transfer, i: nat, s: Slot, a: nat, n: nat)
    requires ClosedTransfers(r, f) && Running(t) && i < |t.slots| && With(t, i, s) in r
    requires BothOut(s, a, n) && n <= f.maxRetries + 1
    ensures exists u :: u in r && GoesBack(u, i)
  {
    var g := Gate(false, false, f.maxRetries + 1);
    AnsweredBackwards(g, s, a, n);
    MoveIn(r, f, t, i, s, Answered(1));
    var s1 := Moved(g, s, Answered(1)).0;
    MoveIn(r, f, t, i, s1, Answered(0));
    WaitingGoesBack(r, f, t, i, Moved(g, s1, Answered(0)).0, a);
  }

  /** The attempt numbers handed to the transport for chunk i are not strictly increasing. */
  ghost predicate GoesBack(t: Transfer, i: nat) { i < |t.slots| && !Increasing(t.slots[i].sent) }

  lemma SideBySideGoesBack(r: iset<Transfer>, f: FileLimits, t: Transfer, i: nat, n: nat)
    requires ClosedTransfers(r, f) && t in r && Running(t) && i < |t.slots|
    requires SideBySide(t.slots[i], n) && n <= f.maxRetries + 1
    ensures exists u :: u in r && GoesBack(u, i)
  {
    var g, s := Gate(false, false, f.maxRetries + 1), t.slots[i];
    assert With(t, i, s) == t by { assert t.slots[i := s] == t.slots; }
    BothGoOut(g, s, n);
    if s.sends[0].stage == Reading {
      MoveIn(r, f, t, i, s, BytesRead(0));
      var u := Moved(g, s, BytesRead(0)).0;
      MoveIn(r, f, t, i, u, BytesRead(1));
      BothOutGoesBack(r, f, t, i, Moved(g, u, BytesRead(1)).0, s.sends[0].attempts, n);
    } else {
      MoveIn(r, f, t, i, s, BytesRead(1));
      BothOutGoesBack(r, f, t, i, Moved(g, s, BytesRead(1)).0, s.sends[0].attempts, n);
    }
  }

  // ---- the two events that overlap -----------------------------------------

  /** An orderly chunk in flight with its send suspended and a further attempt still allowed. */
  ghost predicate Overlappable(t: Transfer, f: FileLimits, i: nat)
  {
    && i < |t.slots| && t.registered && !t.cancelled && !t.slots[i].acked && Orderly(t.slots[i])
    && t.slots[i].item.Some? && |t.slots[i].sends| > 0 && t.slots[i].item.value.attempts <= f.maxRetries
  }

  /** A nack while the send is suspended. */
  lemma NackGoesBack(t: Transfer, f: FileLimits, i: nat)
    requires Overlappable(t, f, i) && Running(t)
    ensures !Calm(t, Nack(i))
    ensures exists es :: GoesBack(Run(Next(t, f, Nack(i)), f, es), i)
  {
    var s, g := t.slots[i], GateOf(t, f);
    var b := s.item.value.attempts;
    var nacked := Next(t, f, Nack(i));
    var waiting := ScheduleRetry(g, s, b).0;
    assert nacked == With(t, i, waiting);
    FuturesAreClosed(nacked, f);
    var r := Futures(nacked, f);
    MoveIn(r, f, t, i, waiting, Fires);
    var s' := Moved(g, waiting, Fires).0;
    var u := With(t, i, s');
    assert u.slots[i] == s' && SideBySide(s', b + 1);
    SideBySideGoesBack(r, f, u, i, b + 1);
    var w :| w in r && GoesBack(w, i);
    assert Becomes(nacked, f, w);
  }

  lemma {:induction false} FillLeaves(t: Transfer, f: FileLimits, i: nat)
    requires i < t.next && i < |t.slots| && Running(t)
    ensures var u := Fill(t, f); |u.slots| == |t.slots| && u.slots[i] == t.slots[i] && Running(u)
    decreases |t.slots| - t.next
  {
    if t.next < |t.slots| && InFlight(t.slots) < f.window && !t.cancelled && !t.paused && !t.globalPaused {
      FillLeaves(Store(t, t.next, BeginSend(GateOf(t, f), t.slots[t.next], 1)).(next := t.next + 1), f, i);
    }
  }

  /** No held chunk has used up its attempts, so restarting them fails nothing. */
  ghost predicate NoneAtLimit(t: Transfer, f: FileLimits)
  {
    forall j :: 0 <= j < |t.slots| ==> Resumable(t.slots[j]) ==>
      !t.slots[j].acked && t.slots[j].item.value.attempts <= f.maxRetries
  }

  function Restarted(f: FileLimits, s: Slot): (r: Slot)
    requires s.item.Some?
  {
    BeginSend(Gate(false, false, f.maxRetries + 1), s, s.item.value.attempts + 1).0
  }

  lemma RestartsOne(t: Transfer, f: FileLimits, j: nat)
    requires Running(t) && NoneAtLimit(t, f)
    ensures var u := RestartOne(t, f, j);
      && Running(u) && u.next == t.next && NoneAtLimit(u, f)
      && u == (if j < |t.slots| && Resumable(t.slots[j]) then With(t, j, Restarted(f, t.slots[j])) else t)
  {}

  /** Restarting in any order restarts each held chunk it lists, and leaves the others held. */
  lemma {:induction false} RestartsListed(t: Transfer, f: FileLimits, order: seq<nat>, i: nat)
    requires Running(t) && NoneAtLimit(t, f) && i < |t.slots| && Resumable(t.slots[i])
    ensures var u := Restart(t, f, order);
      && Running(u) && u.next == t.next && NoneAtLimit(u, f)
      && u.slots[i] == if i in order then Restarted(f, t.slots[i]) else t.slots[i]
  {
    if |order| != 0 {
      var front, j := order[..|order| - 1], order[|order| - 1];
      RestartsListed(t, f, front, i);
      RestartsOne(Restart(t, f, front), f, j);
      assert order == front + [j];
    }
  }

  lemma PumpLeaves(t: Transfer, f: FileLimits, i: nat)
    requires i < t.next && i < |t.slots| && Running(t)
    ensures var u := Pump(t, f); |u.slots| == |t.slots| && u.slots[i] == t.slots[i] && Running(u)
  {
    FillLeaves(t, f, i);
  }

  lemma ResumedGoesBack(back: Transfer, f: FileLimits, order: seq<nat>, i: nat)
    requires Running(back) && NoneAtLimit(back, f) && Overlappable(back, f, i) && i < back.next
    requires Resumable(back.slots[i]) && i in order
    ensures exists es :: GoesBack(Run(ResumeOutstanding(back, f, order), f, es), i)
  {
    var n := back.slots[i].item.value.attempts + 1;
    RestartsListed(back, f, order, i);
    PumpLeaves(Restart(back, f, order), f, i);
    var resumed := ResumeOutstanding(back, f, order);
    assert SideBySide(resumed.slots[i], n);
    FuturesAreClosed(resumed, f);
    SideBySideGoesBack(Futures(resumed, f), f, resumed, i, n);
    var w :| w in Futures(resumed, f) && GoesBack(w, i);
    assert Becomes(resumed, f, w);
  }

  /** A resume that restarts the chunk, among any others, while its send is suspended. */
  lemma ResumeGoesBack(t: Transfer, f: FileLimits, order: seq<nat>, i: nat)
    requires Overlappable(t, f, i) && i < t.next && t.status == Paused && !t.globalPaused
    requires Resumable(t.slots[i]) && i in order && NoneAtLimit(t, f)
    ensures !Calm(t, Resume(order))
    ensures exists es :: GoesBack(Run(Next(t, f, Resume(order)), f, es), i)
  {
    var back := t.(paused := false, status := if t.accepted then Active else Offered);
    assert Next(t, f, Resume(order)) == ResumeOutstanding(back, f, order);
    ResumedGoesBack(back, f, order, i);
  }

  /** And so does the end of a global pause. */
  lemma ResumeAllGoesBack(t: Transfer, f: FileLimits, order: seq<nat>, i: nat)
    requires Overlappable(t, f, i) && i < t.next && (t.status == Active || t.status == Paused)
    requires Resumable(t.slots[i]) && i in order && NoneAtLimit(t, f)
    ensures !Calm(t, ResumeAll(order))
    ensures exists es :: GoesBack(Run(Next(t, f, ResumeAll(order)), f, es), i)
  {
    var back := t.(globalPaused := false, paused := false, status := Active);
    assert Next(t, f, ResumeAll(order)) == ResumeOutstanding(back, f, order);
    ResumedGoesBack(back, f, order, i);
  }
}
