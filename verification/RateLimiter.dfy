/** The relay's per-key rate limiter: fixed windows that start with a request, and a sweep of old ones. */
module RateLimiter {
  import opened Bytes

  const MINUTE: nat := 60_000

  datatype Window = Window(count: nat, started: nat)

  /** One key's view of the limiter: its window, if it has one, and the time of the last sweep. */
  datatype Key = Key(window: Option<Window>, lastSweep: nat)

  predicate Old(w: Window, now: nat) { w.started + 2 * MINUTE < now }

  function Sweep(k: Key, now: nat): (r: Key)
  {
    if now < k.lastSweep + MINUTE then k
    else Key(if k.window.Some? && Old(k.window.value, now) then None else k.window, now)
  }

  /** The decision for a request, and the window it leaves. */
  function Decide(w: Option<Window>, limit: nat, now: nat): (r: (Option<Window>, bool))
  {
    if w.None? || now >= w.value.started + MINUTE then (Some(Window(1, now)), true)
    else if w.value.count >= limit then (w, false)
    else (Some(Window(w.value.count + 1, w.value.started)), true)
  }

  /** A request for this key, or any other call, which only sweeps. */
  datatype Event = Request(now: nat) | OtherCall(now: nat)

  function Next(k: Key, limit: nat, e: Event): (r: (Key, Option<bool>))
  {
    match e
    case OtherCall(now) => (Sweep(k, now), None)
    case Request(now) =>
      var s := Sweep(k, now);
      var (w, ok) := Decide(s.window, limit, now);
      (s.(window := w), Some(ok))
  }

  function Run(k: Key, limit: nat, es: seq<Event>): (r: (Key, seq<Option<bool>>))
    ensures |r.1| == |es|
  {
    if |es| == 0 then (k, []) else
    var (mid, ds) := Run(k, limit, es[..|es| - 1]);
    var (end, d) := Next(mid, limit, es[|es| - 1]);
    (end, ds + [d])
  }

  /** The limiter that never sweeps. */
  function Unswept(w: Option<Window>, limit: nat, es: seq<Event>): (r: (Option<Window>, seq<Option<bool>>))
  {
    if |es| == 0 then (w, []) else
    var (mid, ds) := Unswept(w, limit, es[..|es| - 1]);
    match es[|es| - 1]
    case OtherCall(_) => (mid, ds + [None])
    case Request(now) =>
      var (end, ok) := Decide(mid, limit, now);
      (end, ds + [Some(ok)])
  }

  ghost predicate Ordered(es: seq<Event>)
  {
    forall i, j :: 0 <= i < j < |es| ==> es[i].now <= es[j].now
  }

  /** A swept key agrees with the unswept one, or has lost a window that no later request can use. */
  predicate Agrees(swept: Option<Window>, w: Option<Window>, now: nat)
  {
    swept == w || (swept.None? && w.Some? && w.value.started + 2 * MINUTE < now)
  }

  /** Sweeping never changes a decision. */
  lemma {:induction false} SweepingIsNeutral(limit: nat, start: nat, es: seq<Event>)
    requires Ordered(es)
    ensures Run(Key(None, start), limit, es).1 == Unswept(None, limit, es).1
    ensures |es| > 0 ==> Agrees(Run(Key(None, start), limit, es).0.window, Unswept(None, limit, es).0, es[|es| - 1].now)
    ensures |es| == 0 ==> Run(Key(None, start), limit, es).0.window == Unswept(None, limit, es).0
  {
    if |es| != 0 {
      SweepingIsNeutral(limit, start, es[..|es| - 1]);
    }
  }

  // ---- how much any minute admits ------------------------------------------

  /** The times admitted in earlier windows, and in the current one, which began at `started`. */
  datatype History = Quiet | Counting(earlier: seq<nat>, current: seq<nat>, started: nat)

  function Admit(h: History, limit: nat, now: nat): (r: History)
  {
    match h
    case Quiet => Counting([], [now], now)
    case Counting(earlier, current, started) =>
      if now >= started + MINUTE then Counting(earlier + current, [now], now)
      else if |current| >= limit then h
      else h.(current := current + [now])
  }

  /** The window a history leaves. */
  function WindowOf(h: History): (w: Option<Window>)
  {
    match h case Quiet => None case Counting(_, current, started) => Some(Window(|current|, started))
  }

  function Admitted(h: History): (t: seq<nat>)
  {
    match h case Quiet => [] case Counting(earlier, current, _) => earlier + current
  }

  function Histories(limit: nat, es: seq<Event>): (h: History)
  {
    if |es| == 0 then Quiet else
    var h := Histories(limit, es[..|es| - 1]);
    match es[|es| - 1] case OtherCall(_) => h case Request(now) => Admit(h, limit, now)
  }

  /** The history is that of the limiter: same windows, and a request is admitted exactly when the history grows. */
  lemma {:induction false} HistoryMatches(limit: nat, es: seq<Event>)
    ensures WindowOf(Histories(limit, es)) == Unswept(None, limit, es).0
    ensures |es| > 0 ==> |Unswept(None, limit, es).1| == |es|
    ensures |es| > 0 && es[|es| - 1].Request? ==>
      var before, after := Admitted(Histories(limit, es[..|es| - 1])), Admitted(Histories(limit, es));
      after == if Unswept(None, limit, es).1[|es| - 1] == Some(true) then before + [es[|es| - 1].now] else before
  {
    if |es| != 0 {
      var front := es[..|es| - 1];
      HistoryMatches(limit, front);
      var h := Histories(limit, front);
      if es[|es| - 1].Request? && h.Counting? {
        assert h.earlier + (h.current + [es[|es| - 1].now]) == h.earlier + h.current + [es[|es| - 1].now];
      }
    }
  }

  /** How many of these times fall into the minute that begins at a. */
  function InMinute(t: seq<nat>, a: nat): (n: nat)
  {
    if |t| == 0 then 0
    else InMinute(t[..|t| - 1], a) + (if a <= t[|t| - 1] < a + MINUTE then 1 else 0)
  }

  lemma {:induction false} InMinuteJoins(s: seq<nat>, t: seq<nat>, a: nat)
    ensures InMinute(s + t, a) == InMinute(s, a) + InMinute(t, a)
  {
    if |t| == 0 {
      assert s + t == s;
    } else {
      InMinuteJoins(s, t[..|t| - 1], a);
      assert (s + t)[..|s + t| - 1] == s + t[..|t| - 1];
    }
  }

  lemma {:induction false} InMinuteBounds(t: seq<nat>, a: nat)
    ensures InMinute(t, a) <= |t|
  {
    if |t| != 0 {
      InMinuteBounds(t[..|t| - 1], a);
    }
  }

  ghost predicate Before(t: seq<nat>, x: nat) { |t| == 0 || (Before(t[..|t| - 1], x) && t[|t| - 1] < x) }

  lemma {:induction false} NoneInMinute(t: seq<nat>, x: nat, a: nat)
    requires Before(t, x) && x <= a
    ensures InMinute(t, a) == 0
  {
    if |t| != 0 {
      NoneInMinute(t[..|t| - 1], x, a);
    }
  }

  lemma {:induction false} BeforeJoins(s: seq<nat>, t: seq<nat>, x: nat, y: nat)
    requires Before(s, x) && Before(t, y) && x <= y
    ensures Before(s + t, y)
  {
    if |t| == 0 {
      assert s + t == s;
      BeforeLater(s, x, y);
    } else {
      BeforeJoins(s, t[..|t| - 1], x, y);
      assert (s + t)[..|s + t| - 1] == s + t[..|t| - 1];
    }
  }

  lemma {:induction false} BeforeLater(s: seq<nat>, x: nat, y: nat)
    requires Before(s, x) && x <= y
    ensures Before(s, y)
  {
    if |s| != 0 {
      BeforeLater(s[..|s| - 1], x, y);
    }
  }

  /** Earlier windows ended before this one began, so a minute that reaches into it meets at most one of them. */
  ghost predicate Spread(h: History, limit: nat, a: nat, latest: nat)
  {
    h.Counting? ==>
      && Before(h.earlier, h.started) && Before(h.current, h.started + MINUTE) && |h.current| <= limit
      && h.started <= latest
      && (h.started < a + MINUTE ==> InMinute(h.earlier, a) <= limit)
      && InMinute(h.earlier, a) + InMinute(h.current, a) <= 2 * limit
  }

  lemma OneTime(now: nat, a: nat)
    ensures Before([now], now + MINUTE) && InMinute([now], a) == if a <= now < a + MINUTE then 1 else 0
  {
    assert [now][..0] == [] && InMinute([], a) == 0;
  }

  lemma NewWindow(h: History, limit: nat, a: nat, now: nat)
    requires limit >= 1 && h.Counting? && Spread(h, limit, a, now) && now >= h.started + MINUTE
    ensures Spread(Admit(h, limit, now), limit, a, now)
  {
    InMinuteJoins(h.earlier, h.current, a);
    BeforeJoins(h.earlier, h.current, h.started, h.started + MINUTE);
    BeforeLater(h.earlier + h.current, h.started + MINUTE, now);
    InMinuteBounds(h.current, a);
    if now < a + MINUTE {
      NoneInMinute(h.earlier, h.started, a);
    }
    OneTime(now, a);
  }

  lemma SameWindow(h: History, limit: nat, a: nat, now: nat)
    requires limit >= 1 && h.Counting? && Spread(h, limit, a, now) && now < h.started + MINUTE
    ensures Spread(Admit(h, limit, now), limit, a, now)
  {
    if |h.current| < limit {
      InMinuteBounds(h.current, a);
      assert (h.current + [now])[..|h.current|] == h.current;
    }
  }

  lemma AdmitSpreads(h: History, limit: nat, a: nat, latest: nat, now: nat)
    requires limit >= 1 && Spread(h, limit, a, latest) && latest <= now
    ensures Spread(Admit(h, limit, now), limit, a, now)
  {
    match h
    case Quiet =>
      OneTime(now, a);
    case Counting(_, _, started) =>
      if now >= started + MINUTE {
        NewWindow(h, limit, a, now);
      } else {
        SameWindow(h, limit, a, now);
      }
  }

  lemma {:induction false} RunSpreads(limit: nat, es: seq<Event>, a: nat)
    requires limit >= 1 && Ordered(es)
    ensures Spread(Histories(limit, es), limit, a, if |es| == 0 then 0 else es[|es| - 1].now)
  {
    if |es| != 0 {
      var front, e := es[..|es| - 1], es[|es| - 1];
      RunSpreads(limit, front, a);
      assert |front| > 0 ==> front[|front| - 1].now <= e.now;
      if e.Request? {
        AdmitSpreads(Histories(limit, front), limit, a, if |front| == 0 then 0 else front[|front| - 1].now, e.now);
      }
    }
  }

  lemma HistoryAdmitsTwiceTheLimit(limit: nat, es: seq<Event>, a: nat)
    requires limit >= 1 && Ordered(es)
    ensures InMinute(Admitted(Histories(limit, es)), a) <= 2 * limit
  {
    RunSpreads(limit, es, a);
    var h := Histories(limit, es);
    if h.Counting? {
      InMinuteJoins(h.earlier, h.current, a);
    }
  }

  /** The times of the requests that were let through. */
  function TimesAdmitted(es: seq<Event>, ds: seq<Option<bool>>): (t: seq<nat>)
    requires |es| == |ds|
  {
    if |es| == 0 then [] else
    var n := |es| - 1;
    TimesAdmitted(es[..n], ds[..n]) + (if ds[n] == Some(true) then [es[n].now] else [])
  }

  lemma {:induction false} DecisionsAreHistory(limit: nat, es: seq<Event>)
    ensures |Unswept(None, limit, es).1| == |es|
    ensures TimesAdmitted(es, Unswept(None, limit, es).1) == Admitted(Histories(limit, es))
  {
    if |es| != 0 {
      var n := |es| - 1;
      DecisionsAreHistory(limit, es[..n]);
      HistoryMatches(limit, es);
      assert Unswept(None, limit, es).1[..n] == Unswept(None, limit, es[..n]).1;
      var before := Admitted(Histories(limit, es[..n]));
      assert before + [] == before;
    }
  }

  /** Any half-open minute lets at most twice the limit of one key's requests through, sweeps and other keys' calls included. */
  lemma MinuteAdmitsTwiceTheLimit(limit: nat, start: nat, es: seq<Event>, a: nat)
    requires limit >= 1 && Ordered(es)
    ensures InMinute(TimesAdmitted(es, Run(Key(None, start), limit, es).1), a) <= 2 * limit
  {
    SweepingIsNeutral(limit, start, es);
    DecisionsAreHistory(limit, es);
    HistoryAdmitsTwiceTheLimit(limit, es, a);
  }

  // ---- the limiter object --------------------------------------------------

  class Limiter {
    const limit: nat
    var windows: map<string, Window>
    var lastSweep: nat

    ghost function View(key: string): (k: Key)
      reads this
    {
      Key(if key in windows then Some(windows[key]) else None, lastSweep)
    }

    method SweepLocked(now: nat)
      modifies this
      ensures forall key :: View(key) == Sweep(old(View(key)), now)
    {
      if now < lastSweep + MINUTE { return; }
      var todo := windows.Keys;
      while todo != {}
        invariant windows.Keys <= old(windows.Keys) && todo <= windows.Keys
        invariant forall key :: key in windows ==> windows[key] == old(windows)[key]
        invariant forall key :: key in old(windows) && key !in todo ==> (key in windows <==> !Old(old(windows)[key], now))
        decreases todo
      {
        var key :| key in todo;
        if Old(windows[key], now) {
          windows := windows - {key};
        }
        todo := todo - {key};
      }
      lastSweep := now;
    }

    /** The key's own state takes a request step; every other key's only sees the sweep. */
    method Allow(key: string, now: nat) returns (ok: bool)
      modifies this
      ensures limit == 0 ==> ok
      ensures limit > 0 ==> (View(key), Some(ok)) == Next(old(View(key)), limit, Request(now))
      ensures limit > 0 ==> forall other :: other != key ==> View(other) == Next(old(View(other)), limit, OtherCall(now)).0
    {
      if limit == 0 { return true; }
      SweepLocked(now);
      if key !in windows || now >= windows[key].started + MINUTE {
        windows := windows[key := Window(1, now)];
        return true;
      }
      if windows[key].count >= limit { return false; }
      windows := windows[key := Window(windows[key].count + 1, windows[key].started)];
      return true;
    }
  }
}
