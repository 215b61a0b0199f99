/** The voice-activity gate, over frames known by their position in the captured stream and two level comparisons. */
module VoiceGate {
  import opened Sequences

  datatype Config = Config(enabled: bool, preRollFrames: nat, hangoverFrames: nat, minSpeechFrames: nat)

  /** Whether the frame's level reaches the start threshold, and the stop threshold. */
  datatype Level = Level(starts: bool, sustains: bool)

  datatype Gate = Gate(speaking: bool, aboveStart: nat, hangover: nat, preRoll: seq<nat>)
  const SILENT := Gate(false, 0, 0, [])

  datatype Decision = Decision(send: bool, started: bool, stopped: bool, frames: seq<nat>)

  /** The last n elements. */
  function Last(s: seq<nat>, n: nat): (r: seq<nat>) { if |s| <= n then s else s[|s| - n..] }

  function WhileSilent(g: Gate, c: Config, frame: nat, level: Level): (r: (Gate, Decision))
  {
    var preRoll := Last(g.preRoll + [frame], c.preRollFrames);
    var above := if level.starts then g.aboveStart + 1 else 0;
    if above >= c.minSpeechFrames then (Gate(true, 0, c.hangoverFrames, []), Decision(true, true, false, preRoll))
    else (Gate(false, above, g.hangover, preRoll), Decision(false, false, false, []))
  }

  function WhileSpeaking(g: Gate, c: Config, frame: nat, level: Level): (r: (Gate, Decision))
  {
    if level.sustains then (g.(hangover := c.hangoverFrames), Decision(true, false, false, [frame]))
    else if g.hangover > 0 then (g.(hangover := g.hangover - 1), Decision(true, false, false, [frame]))
    else (g.(speaking := false, preRoll := [frame]), Decision(false, false, true, []))
  }

  function Process(g: Gate, c: Config, frame: nat, level: Level): (r: (Gate, Decision))
  {
    if !c.enabled then (g, Decision(true, false, false, [frame]))
    else if g.speaking then WhileSpeaking(g, c, frame, level)
    else WhileSilent(g, c, frame, level)
  }

  /** What the gate lets through of the first frames of a stream, frame i having level levels[i]. */
  function Passed(c: Config, levels: seq<Level>): (r: (Gate, seq<nat>))
  {
    if |levels| == 0 then (SILENT, []) else
    var (g, out) := Passed(c, levels[..|levels| - 1]);
    var (g', d) := Process(g, c, |levels| - 1, levels[|levels| - 1]);
    (g', out + d.frames)
  }

  ghost predicate Below(s: seq<nat>, n: nat) { |s| == 0 || s[|s| - 1] < n }

  /** The frames lo, lo + 1, ..., hi - 1. */
  function Range(lo: nat, hi: nat): (r: seq<nat>)
    requires lo <= hi
    ensures |r| == hi - lo
    decreases hi
  {
    if lo == hi then [] else Range(lo, hi - 1) + [hi - 1]
  }

  lemma {:induction false} RangeDrop(lo: nat, hi: nat, k: nat)
    requires lo + k <= hi
    ensures Range(lo, hi)[k..] == Range(lo + k, hi)
    decreases hi
  {
    if lo + k < hi {
      RangeDrop(lo, hi - 1, k);
      assert (Range(lo, hi - 1) + [hi - 1])[k..] == Range(lo, hi - 1)[k..] + [hi - 1];
    }
  }

  lemma {:induction false} IncreasingRange(s: seq<nat>, lo: nat, hi: nat)
    requires Increasing(s) && Below(s, lo) && lo <= hi
    ensures Increasing(s + Range(lo, hi)) && Below(s + Range(lo, hi), hi)
    decreases hi
  {
    if lo == hi {
      assert s + [] == s;
    } else {
      IncreasingRange(s, lo, hi - 1);
      IncreasingAppend(s + Range(lo, hi - 1), hi - 1);
      assert s + (Range(lo, hi - 1) + [hi - 1]) == s + Range(lo, hi - 1) + [hi - 1];
    }
  }

  /** The pre-roll is the latest frames, none of which has been let through; nothing is let through twice. */
  ghost predicate Tidy(g: Gate, out: seq<nat>, n: nat)
  {
    && |g.preRoll| <= n && g.preRoll == Range(n - |g.preRoll|, n) && (g.speaking ==> g.preRoll == [])
    && Increasing(out) && Below(out, n - |g.preRoll|)
  }

  lemma LatestFrames(lo: nat, n: nat, k: nat)
    requires lo <= n
    ensures var p := Last(Range(lo, n) + [n], k); |p| <= n + 1 - lo && p == Range(n + 1 - |p|, n + 1)
  {
    assert Range(lo, n + 1) == Range(lo, n) + [n];
    if n + 1 - lo > k {
      RangeDrop(lo, n + 1, n + 1 - lo - k);
    }
  }

  lemma OpeningTidy(g: Gate, out: seq<nat>, p: seq<nat>, n: nat)
    requires |p| <= n && p == Range(n - |p|, n) && Increasing(out) && Below(out, n - |p|) && g.preRoll == []
    ensures Tidy(g, out + p, n)
  {
    IncreasingRange(out, n - |p|, n);
    assert Range(n, n) == [];
  }

  lemma BelowMore(s: seq<nat>, a: nat, b: nat)
    requires Below(s, a) && a <= b
    ensures Below(s, b)
  {}

  lemma SilentTidy(g: Gate, c: Config, out: seq<nat>, n: nat, level: Level)
    requires Tidy(g, out, n) && !g.speaking
    ensures var (g', d) := WhileSilent(g, c, n, level); Tidy(g', out + d.frames, n + 1)
  {
    var p := Last(g.preRoll + [n], c.preRollFrames);
    LatestFrames(n - |g.preRoll|, n, c.preRollFrames);
    BelowMore(out, n - |g.preRoll|, n + 1 - |p|);
    if WhileSilent(g, c, n, level).0.speaking {
      OpeningTidy(WhileSilent(g, c, n, level).0, out, p, n + 1);
    } else {
      assert out + [] == out;
    }
  }

  lemma OneFrame(n: nat)
    ensures Range(n, n + 1) == [n]
  {
    assert Range(n, n) == [];
  }

  lemma SpeakingTidy(g: Gate, c: Config, out: seq<nat>, n: nat, level: Level)
    requires Tidy(g, out, n) && g.speaking
    ensures var (g', d) := WhileSpeaking(g, c, n, level); Tidy(g', out + d.frames, n + 1)
  {
    OneFrame(n);
    var (g', d) := WhileSpeaking(g, c, n, level);
    if d.send {
      OpeningTidy(g', out, [n], n + 1);
    } else {
      assert out + [] == out;
    }
  }

  lemma DisabledTidy(out: seq<nat>, n: nat)
    requires Tidy(SILENT, out, n)
    ensures Tidy(SILENT, out + [n], n + 1)
  {
    OneFrame(n);
    OpeningTidy(SILENT, out, [n], n + 1);
  }

  /** The frames let through are an in-order subsequence of the captured ones without repetition. */
  lemma {:induction false} GatedInOrder(c: Config, levels: seq<Level>)
    ensures var (g, out) := Passed(c, levels);
      Tidy(g, out, |levels|) && Increasing(out) && Below(out, |levels|) && (!c.enabled ==> g == SILENT)
  {
    if |levels| != 0 {
      var n := |levels| - 1;
      GatedInOrder(c, levels[..n]);
      var (g, out) := Passed(c, levels[..n]);
      if !c.enabled {
        DisabledTidy(out, n);
      } else if g.speaking {
        SpeakingTidy(g, c, out, n, levels[n]);
      } else {
        SilentTidy(g, c, out, n, levels[n]);
      }
    }
  }

  // ---- when the gate closes ------------------------------------------------

  /** The quiet frames at the end of a stretch of speech. */
  function QuietTail(levels: seq<Level>): (n: nat)
  {
    if |levels| == 0 || levels[|levels| - 1].sustains then 0 else 1 + QuietTail(levels[..|levels| - 1])
  }

  /** The gate after frames processed since it opened. */
  function Since(g: Gate, c: Config, first: nat, levels: seq<Level>): (r: Gate)
  {
    if |levels| == 0 then g
    else Process(Since(g, c, first, levels[..|levels| - 1]), c, first + |levels| - 1, levels[|levels| - 1]).0
  }

  ghost predicate StaysOpen(g: Gate, c: Config, first: nat, levels: seq<Level>)
  {
    |levels| == 0 || (StaysOpen(g, c, first, levels[..|levels| - 1]) && Since(g, c, first, levels).speaking)
  }

  lemma {:induction false} HangoverCounts(c: Config, first: nat, levels: seq<Level>)
    requires c.enabled && StaysOpen(Gate(true, 0, c.hangoverFrames, []), c, first, levels)
    ensures var g := Since(Gate(true, 0, c.hangoverFrames, []), c, first, levels);
      g.speaking && QuietTail(levels) <= c.hangoverFrames && g.hangover == c.hangoverFrames - QuietTail(levels)
  {
    if |levels| != 0 {
      HangoverCounts(c, first, levels[..|levels| - 1]);
    }
  }

  /** An open gate closes exactly on the (hangoverFrames + 1)-th consecutive quiet frame. */
  lemma ClosesIff(c: Config, first: nat, levels: seq<Level>, next: Level)
    requires c.enabled && StaysOpen(Gate(true, 0, c.hangoverFrames, []), c, first, levels)
    ensures var g := Since(Gate(true, 0, c.hangoverFrames, []), c, first, levels);
      Process(g, c, first + |levels|, next).1.stopped <==> QuietTail(levels + [next]) == c.hangoverFrames + 1
  {
    HangoverCounts(c, first, levels);
    assert (levels + [next])[..|levels|] == levels;
  }

  /** The frames at the end of a silence that reach the start threshold. */
  function LoudTail(levels: seq<Level>): (n: nat)
  {
    if |levels| == 0 || !levels[|levels| - 1].starts then 0 else 1 + LoudTail(levels[..|levels| - 1])
  }

  ghost predicate StaysShut(g: Gate, c: Config, first: nat, levels: seq<Level>)
  {
    |levels| == 0 || (StaysShut(g, c, first, levels[..|levels| - 1]) && !Since(g, c, first, levels).speaking)
  }

  lemma {:induction false} LoudFramesCount(g: Gate, c: Config, first: nat, levels: seq<Level>)
    requires c.enabled && !g.speaking && g.aboveStart == 0 && StaysShut(g, c, first, levels)
    ensures !Since(g, c, first, levels).speaking && Since(g, c, first, levels).aboveStart == LoudTail(levels)
  {
    if |levels| != 0 {
      LoudFramesCount(g, c, first, levels[..|levels| - 1]);
    }
  }

  /** A shut gate opens exactly on the frame that completes minSpeechFrames consecutive loud ones. */
  lemma OpensIff(g: Gate, c: Config, first: nat, levels: seq<Level>, next: Level)
    requires c.enabled && !g.speaking && g.aboveStart == 0 && StaysShut(g, c, first, levels)
    ensures Process(Since(g, c, first, levels), c, first + |levels|, next).1.started
       <==> LoudTail(levels + [next]) >= c.minSpeechFrames
  {
    LoudFramesCount(g, c, first, levels);
    assert (levels + [next])[..|levels|] == levels;
  }

  // ---- the gate object -----------------------------------------------------

  class VadGate {
    const config: Config
    var speaking: bool
    var aboveStartFrames: nat
    var hangoverRemaining: nat
    var preRoll: seq<nat>

    ghost function View(): (g: Gate)
      reads this
    {
      Gate(speaking, aboveStartFrames, hangoverRemaining, preRoll)
    }

    method RememberFrame(frame: nat)
      modifies this`preRoll
      ensures preRoll == Last(old(preRoll) + [frame], config.preRollFrames)
    {
      preRoll := preRoll + [frame];
      ghost var all := preRoll;
      while |preRoll| > config.preRollFrames
        invariant |preRoll| <= |all| && preRoll == all[|all| - |preRoll|..]
        invariant |all| <= config.preRollFrames ==> preRoll == all
        invariant |all| > config.preRollFrames ==> |preRoll| >= config.preRollFrames
      {
        preRoll := preRoll[1..];
      }
    }

    method ProcessFrame(frame: nat, level: Level) returns (d: Decision)
      modifies this
      ensures (View(), d) == Process(old(View()), config, frame, level)
    {
      if !config.enabled { return Decision(true, false, false, [frame]); }
      if !speaking {
        RememberFrame(frame);
        aboveStartFrames := if level.starts then aboveStartFrames + 1 else 0;
        if aboveStartFrames < config.minSpeechFrames { return Decision(false, false, false, []); }
        d := Decision(true, true, false, preRoll);
        preRoll, speaking, hangoverRemaining, aboveStartFrames := [], true, config.hangoverFrames, 0;
        return;
      }
      if level.sustains {
        hangoverRemaining := config.hangoverFrames;
        return Decision(true, false, false, [frame]);
      }
      if hangoverRemaining > 0 {
        hangoverRemaining := hangoverRemaining - 1;
        return Decision(true, false, false, [frame]);
      }
      speaking := false;
      preRoll := [frame];
      return Decision(false, false, true, []);
    }
  }
}
