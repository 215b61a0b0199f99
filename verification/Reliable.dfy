/** The reliable channel: outcomes and transmissions of one message at the sender, returns of one id at the receiver. */
module Reliable {
  import opened Bytes

  datatype Policy = Policy(initialRetry: nat, maxRetry: nat, backoff: nat, maxAttempts: nat, jitter: real, seenTtl: nat)
  const DEFAULT := Policy(1500, 12_000, 2, 5, 0.2, 600_000)

  // ---- the sender's side of one id -----------------------------------------

  datatype Outcome = Delivered | Failed
  /** `Retry` carries the delay it was armed with. */
  datatype Timer = NoTimer | Retry(delay: nat) | GiveUp

  /**
    * `pending` is membership in the pending map, `sending` a suspended send, `attempts` the transmissions so far, `delays`
    * the retry delays between successive transmissions.
    */
  datatype Message = Message(
    pending: bool, sending: bool, attempts: nat, timer: Timer, outcomes: seq<Outcome>, delays: seq<nat>)

  /** The message as send leaves it at its first await. */
  const SENT := Message(true, true, 1, NoTimer, [], [])

  datatype Event =
    | SendAnswered(ok: bool, random: real) | TimerFires | AckArrives | NackArrives | FailAll | Reset

  function Clear(m: Message): (r: Message) { m.(pending := false, timer := NoTimer) }

  function Settle(m: Message, o: Outcome): (r: Message) { Clear(m).(outcomes := m.outcomes + [o]) }

  function Power(b: nat, n: nat): (r: nat) { if n == 0 then 1 else b * Power(b, n - 1) }

  function Base(p: Policy, attempts: nat): (b: nat)
  {
    var grown := p.initialRetry * Power(p.backoff, if attempts > 1 then attempts - 1 else 0);
    if grown <= p.maxRetry then grown else p.maxRetry
  }

  /** The delay after the given attempt; `random` is what Math.random returns, at least 0 and below 1. */
  function RetryDelay(p: Policy, attempts: nat, random: real): (d: nat)
  {
    var base := Base(p, attempts) as real;
    var spread := base * p.jitter;
    var rounded := (base - spread + random * spread * 2.0 + 0.5).Floor;
    if rounded < 1 then 1 else rounded
  }

  /** A refused send settles the message without asking whether it is still pending. */
  function Next(m: Message, p: Policy, e: Event): (r: Message)
  {
    match e
    case SendAnswered(ok, random) =>
      if !m.sending then m
      else if !ok then Settle(m.(sending := false), Failed)
      else m.(sending := false,
              timer := if m.attempts >= p.maxAttempts then GiveUp else Retry(RetryDelay(p, m.attempts, random)))
    case TimerFires =>
      (match m.timer
       case NoTimer => m
       case GiveUp => if m.pending then Settle(m, Failed) else m.(timer := NoTimer)
       case Retry(d) =>
         if m.pending
         then m.(timer := NoTimer, sending := true, attempts := m.attempts + 1, delays := m.delays + [d])
         else m.(timer := NoTimer))
    case AckArrives => if m.pending then Settle(m, Delivered) else m
    case NackArrives => if m.pending then Settle(m, Failed) else m
    case FailAll => if m.pending then Settle(m, Failed) else m
    case Reset => if m.pending then Clear(m) else m
  }

  function Run(m: Message, p: Policy, es: seq<Event>): (r: Message)
  {
    if |es| == 0 then m else Next(Run(m, p, es[..|es| - 1]), p, es[|es| - 1])
  }

  function Sum(s: seq<nat>): (n: nat) { if |s| == 0 then 0 else Sum(s[..|s| - 1]) + s[|s| - 1] }

  /** The most the delays after attempts 1 to n can add up to: each at most its base plus the jitter, rounded. */
  function LongestWait(p: Policy, n: nat): (w: nat)
  {
    if n == 0 then 0 else LongestWait(p, n - 1) + RetryDelay(p, n, 1.0)
  }

  ghost predicate Sane(p: Policy) { p.jitter >= 0.0 && p.maxAttempts >= 1 }

  ghost predicate ProperRandom(e: Event) { e.SendAnswered? ==> 0.0 <= e.random < 1.0 }

  ghost predicate Sound(m: Message, p: Policy)
  {
    && 1 <= m.attempts <= p.maxAttempts && !(m.sending && m.timer != NoTimer)
    && (m.timer.Retry? ==> m.attempts < p.maxAttempts && m.timer.delay <= RetryDelay(p, m.attempts, 1.0))
    && (m.pending ==> m.outcomes == []) && |m.outcomes| <= 2
    && (|m.outcomes| == 2 ==> !m.sending)
    && |m.delays| == m.attempts - 1 && Sum(m.delays) <= LongestWait(p, m.attempts - 1)
  }

  lemma FloorMonotone(x: real, y: real)
    requires x <= y
    ensures x.Floor <= y.Floor
  {}

  lemma DelayGrowsWithRandom(p: Policy, attempts: nat, random: real)
    requires p.jitter >= 0.0 && 0.0 <= random < 1.0
    ensures RetryDelay(p, attempts, random) <= RetryDelay(p, attempts, 1.0)
  {
    var spread := Base(p, attempts) as real * p.jitter;
    assert random * spread <= 1.0 * spread;
    var base := Base(p, attempts) as real;
    FloorMonotone(base - spread + random * spread * 2.0 + 0.5, base - spread + 1.0 * spread * 2.0 + 0.5);
  }

  lemma NextSound(m: Message, p: Policy, e: Event)
    requires Sane(p) && Sound(m, p) && ProperRandom(e)
    ensures Sound(Next(m, p, e), p)
  {
    match e
    case SendAnswered(_, random) => DelayGrowsWithRandom(p, m.attempts, random);
    case TimerFires =>
      if m.timer.Retry? {
        assert (m.delays + [m.timer.delay])[..|m.delays|] == m.delays;
      }
    case _ =>
  }

  ghost predicate AllProper(es: seq<Event>) { forall i :: 0 <= i < |es| ==> ProperRandom(es[i]) }

  lemma {:induction false} RunSound(p: Policy, es: seq<Event>)
    requires Sane(p) && AllProper(es)
    ensures Sound(Run(SENT, p, es), p)
  {
    if |es| != 0 {
      RunSound(p, es[..|es| - 1]);
      NextSound(Run(SENT, p, es[..|es| - 1]), p, es[|es| - 1]);
    }
  }

  /** A send is refused although its message already had an outcome. */
  predicate RefusedLate(m: Message, e: Event) { e.SendAnswered? && !e.ok && m.sending && m.outcomes != [] }

  ghost predicate NeverRefusedLate(p: Policy, es: seq<Event>)
  {
    |es| == 0 || (NeverRefusedLate(p, es[..|es| - 1]) && !RefusedLate(Run(SENT, p, es[..|es| - 1]), es[|es| - 1]))
  }

  /** A message is transmitted at most maxAttempts times, and has one outcome at most exactly when no send of it is refused late. */
  lemma {:induction false} OneOutcomeIff(p: Policy, es: seq<Event>)
    requires Sane(p) && AllProper(es)
    ensures var m := Run(SENT, p, es);
      m.attempts <= p.maxAttempts && |m.outcomes| <= 2 && (|m.outcomes| <= 1 <==> NeverRefusedLate(p, es))
  {
    RunSound(p, es);
    if |es| != 0 {
      RunSound(p, es[..|es| - 1]);
      OneOutcomeIff(p, es[..|es| - 1]);
    }
  }

  /** With a transport that accepts every send there is never a second outcome. */
  lemma {:induction false} AcceptingTransportSettlesOnce(p: Policy, es: seq<Event>)
    requires Sane(p) && AllProper(es)
    requires forall i :: 0 <= i < |es| ==> es[i].SendAnswered? ==> es[i].ok
    ensures |Run(SENT, p, es).outcomes| <= 1 && NeverRefusedLate(p, es)
  {
    if |es| != 0 {
      AcceptingTransportSettlesOnce(p, es[..|es| - 1]);
    }
    OneOutcomeIff(p, es);
  }

  /** An ack that overtakes a refused send: the message is reported delivered and then failed. */
  lemma DeliveredThenFailed(p: Policy)
    ensures Run(SENT, p, [AckArrives, SendAnswered(false, 0.0)]).outcomes == [Delivered, Failed]
  {
    var es := [AckArrives, SendAnswered(false, 0.0)];
    assert es[..1] == [AckArrives] && [AckArrives][..0] == [];
    assert Run(SENT, p, []) == SENT;
    assert Run(SENT, p, [AckArrives]) == Next(SENT, p, AckArrives);
  }

  /** Under the default policy at most 27 seconds of retry delay separate the first transmission from the last. */
  lemma DefaultDelays(es: seq<Event>)
    requires AllProper(es)
    ensures Run(SENT, DEFAULT, es).attempts <= 5 && Sum(Run(SENT, DEFAULT, es).delays) <= 27_000
  {
    RunSound(DEFAULT, es);
    DefaultSchedule();
    WaitMonotone(DEFAULT, Run(SENT, DEFAULT, es).attempts - 1, 4);
  }

  lemma DefaultSchedule()
    ensures LongestWait(DEFAULT, 4) == 27_000
  {
    assert Power(2, 1) == 2 && Power(2, 2) == 4 && Power(2, 3) == 8;
    assert RetryDelay(DEFAULT, 1, 1.0) == 1800;
    assert RetryDelay(DEFAULT, 2, 1.0) == 3600;
    assert RetryDelay(DEFAULT, 3, 1.0) == 7200;
    assert RetryDelay(DEFAULT, 4, 1.0) == 14400;
    assert LongestWait(DEFAULT, 1) == 1800;
    assert LongestWait(DEFAULT, 2) == 5400;
    assert LongestWait(DEFAULT, 3) == 12600;
  }

  lemma {:induction false} WaitMonotone(p: Policy, a: nat, b: nat)
    requires a <= b
    ensures LongestWait(p, a) <= LongestWait(p, b)
  {
    if a < b {
      WaitMonotone(p, a, b - 1);
    }
  }

  // ---- the receiver's side of one id ---------------------------------------

  /** `seen` is the id's entry in the seen map, `waiting` the receive calls suspended on their ack, `handed` the times a body was returned. */
  datatype Inbox = Inbox(clock: nat, seen: Option<nat>, waiting: nat, handed: seq<nat>)

  /** Every receive call sweeps the seen map first, whichever message it is for. */
  datatype Arrival = Tick(d: nat) | MessageArrives | OtherArrives | AckSent | SessionReset

  function SweepSeen(i: Inbox): (r: Inbox)
  {
    if i.seen.Some? && i.seen.value <= i.clock then i.(seen := None) else i
  }

  function Receive(i: Inbox, p: Policy, a: Arrival): (r: Inbox)
  {
    match a
    case Tick(d) => i.(clock := i.clock + d)
    case MessageArrives => SweepSeen(i).(waiting := i.waiting + 1)
    case OtherArrives => SweepSeen(i)
    case AckSent =>
      if i.waiting == 0 then i
      else if i.seen.Some? then i.(waiting := i.waiting - 1)
      else i.(waiting := i.waiting - 1, seen := Some(i.clock + p.seenTtl), handed := i.handed + [i.clock])
    case SessionReset => i.(seen := None)
  }

  function ReceiveAll(i: Inbox, p: Policy, s: seq<Arrival>): (r: Inbox)
  {
    if |s| == 0 then i else Receive(ReceiveAll(i, p, s[..|s| - 1]), p, s[|s| - 1])
  }

  function Opened(now: nat): (i: Inbox) { Inbox(now, None, 0, []) }

  ghost predicate Spaced(t: seq<nat>, gap: nat)
  {
    |t| <= 1 || (Spaced(t[..|t| - 1], gap) && t[|t| - 2] + gap <= t[|t| - 1])
  }

  /** While its entry stands the last return is remembered; once it is gone, seenTtl has passed. */
  predicate RemembersLast(i: Inbox, p: Policy)
  {
    |i.handed| > 0 ==>
      var last := i.handed[|i.handed| - 1];
      if i.seen.Some? then i.seen.value == last + p.seenTtl else last + p.seenTtl <= i.clock
  }

  ghost predicate Remembers(i: Inbox, p: Policy) { Spaced(i.handed, p.seenTtl) && RemembersLast(i, p) }

  lemma LastStep(i: Inbox, p: Policy, a: Arrival)
    requires RemembersLast(i, p) && !a.SessionReset?
    ensures RemembersLast(Receive(i, p, a), p)
    ensures var r := Receive(i, p, a).handed;
      r == i.handed || (r == i.handed + [i.clock] && (|i.handed| > 0 ==> i.handed[|i.handed| - 1] + p.seenTtl <= i.clock))
  {}

  lemma ReceiveRemembers(i: Inbox, p: Policy, a: Arrival)
    requires Remembers(i, p) && !a.SessionReset?
    ensures Remembers(Receive(i, p, a), p)
  {
    LastStep(i, p, a);
    if Receive(i, p, a).handed != i.handed {
      SpacedAppend(i.handed, p.seenTtl, i.clock);
    }
  }

  lemma SpacedAppend(t: seq<nat>, gap: nat, x: nat)
    requires Spaced(t, gap) && (|t| > 0 ==> t[|t| - 1] + gap <= x)
    ensures Spaced(t + [x], gap)
  {
    assert (t + [x])[..|t|] == t;
  }

  /** Within one session a body is returned at most once in any span shorter than seenTtl. */
  lemma {:induction false} ReturnsAreSpaced(p: Policy, now: nat, s: seq<Arrival>)
    requires forall k :: 0 <= k < |s| ==> !s[k].SessionReset?
    ensures Remembers(ReceiveAll(Opened(now), p, s), p) && Spaced(ReceiveAll(Opened(now), p, s).handed, p.seenTtl)
  {
    if |s| != 0 {
      ReturnsAreSpaced(p, now, s[..|s| - 1]);
      ReceiveRemembers(ReceiveAll(Opened(now), p, s[..|s| - 1]), p, s[|s| - 1]);
    }
  }

  lemma SpacedLength(t: seq<nat>, gap: nat, first: nat, last: nat)
    requires Spaced(t, gap) && gap > 0 && last < first + gap
    requires forall k :: 0 <= k < |t| ==> first <= t[k] <= last
    ensures |t| <= 1
  {}

  // ---- both sides, timed ---------------------------------------------------

  /** Transmission times of one message: each follows its predecessor by the retry delay and at most `slack` more. */
  ghost predicate Punctual(times: seq<nat>, delays: seq<nat>, slack: nat)
  {
    |times| == |delays| + 1
    && forall k :: 0 <= k < |delays| ==> times[k] <= times[k + 1] <= times[k] + delays[k] + slack
  }

  lemma {:induction false} PunctualSpan(times: seq<nat>, delays: seq<nat>, slack: nat, k: nat)
    requires Punctual(times, delays, slack) && k <= |delays|
    ensures times[0] <= times[k] <= times[0] + Sum(delays[..k]) + k * slack
  {
    if k != 0 {
      PunctualSpan(times, delays, slack, k - 1);
      assert delays[..k][..k - 1] == delays[..k - 1];
      assert times[k - 1] <= times[(k - 1) + 1] <= times[k - 1] + delays[k - 1] + slack;
    }
  }

  lemma {:induction false} SumPrefix(s: seq<nat>, k: nat)
    requires k <= |s|
    ensures Sum(s[..k]) <= Sum(s)
  {
    if k < |s| {
      SumPrefix(s[..|s| - 1], k);
      assert s[..|s| - 1][..k] == s[..k];
    } else {
      assert s[..k] == s;
    }
  }

  lemma WithinSpan(times: seq<nat>, delays: seq<nat>, slack: nat, delay: nat, x: nat, j: nat)
    requires Punctual(times, delays, slack) && |delays| <= 4 && Sum(delays) <= 27_000 && j < |times|
    requires times[j] <= x <= times[j] + delay
    ensures times[0] <= x <= times[0] + 27_000 + 4 * slack + delay
  {
    PunctualSpan(times, delays, slack, j);
    SumPrefix(delays, j);
    assert j * slack <= 4 * slack;
  }

  /** Every time a body was returned lies within `delay` of some transmission. */
  ghost predicate WithinDelay(handed: seq<nat>, times: seq<nat>, delay: nat)
  {
    forall k :: 0 <= k < |handed| ==> exists j :: 0 <= j < |times| && times[j] <= handed[k] <= times[j] + delay
  }

  /**
    * A message that the sender's run transmits at these times, its timers and sends late by at most `slack` each, and that
    * is received only within `delay` of some transmission, has its body returned at most once, if the retry delays, the
    * four lapses and the network delay together stay below the ten minutes for which ids are remembered.
    */
  lemma BodyReturnedAtMostOnce(es: seq<Event>, times: seq<nat>, slack: nat, delay: nat, now: nat, s: seq<Arrival>)
    requires AllProper(es) && Punctual(times, Run(SENT, DEFAULT, es).delays, slack)
    requires 27_000 + 4 * slack + delay < DEFAULT.seenTtl
    requires forall k :: 0 <= k < |s| ==> !s[k].SessionReset?
    requires WithinDelay(ReceiveAll(Opened(now), DEFAULT, s).handed, times, delay)
    ensures |ReceiveAll(Opened(now), DEFAULT, s).handed| <= 1
  {
    var r, delays := ReceiveAll(Opened(now), DEFAULT, s).handed, Run(SENT, DEFAULT, es).delays;
    ReturnsAreSpaced(DEFAULT, now, s);
    DefaultDelays(es);
    RunSound(DEFAULT, es);
    forall k | 0 <= k < |r|
      ensures times[0] <= r[k] <= times[0] + 27_000 + 4 * slack + delay
    {
      var j :| 0 <= j < |times| && times[j] <= r[k] <= times[j] + delay;
      WithinSpan(times, delays, slack, delay, r[k], j);
    }
    SpacedLength(r, DEFAULT.seenTtl, times[0], times[0] + 27_000 + 4 * slack + delay);
  }
}
