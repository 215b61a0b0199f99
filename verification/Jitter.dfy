/** The jitter buffer: frames by sequence number, handed out in order, never behind what was handed out already. */
module Jitter {
  import opened Bytes
  import opened Sequences

  /** The entries of the frame map, by ascending sequence number. */
  datatype Frames<T> = NoFrames | Frame(number: int, value: T, later: Frames<T>)
  datatype Buffer<T> = Buffer(frames: Frames<T>, expected: Option<int>)

  function Size<T>(f: Frames<T>): (n: nat)
  {
    match f case NoFrames => 0 case Frame(_, _, later) => 1 + Size(later)
  }

  function Get<T>(f: Frames<T>, k: int): (r: Option<T>)
  {
    match f case NoFrames => None case Frame(n, v, later) => if n == k then Some(v) else Get(later, k)
  }

  /** Sets an entry of the map, replacing one of the same number. */
  function Insert<T>(f: Frames<T>, k: int, v: T): (r: Frames<T>)
  {
    match f
    case NoFrames => Frame(k, v, NoFrames)
    case Frame(n, w, later) =>
      if k < n then Frame(k, v, f) else if k == n then Frame(k, v, later) else Frame(n, w, Insert(later, k, v))
  }

  /** Drops oldest entries until at most `max` remain; dropping the awaited one moves the expectation on. */
  function Trim<T>(b: Buffer<T>, max: nat): (r: Buffer<T>)
    decreases Size(b.frames)
  {
    if Size(b.frames) <= max then b
    else Trim(Buffer(b.frames.later, if b.expected == Some(b.frames.number) then Some(b.frames.number + 1) else b.expected), max)
  }

  function Push<T>(b: Buffer<T>, max: nat, k: int, v: T): (r: Buffer<T>)
  {
    if b.expected.Some? && k < b.expected.value then b else Trim(b.(frames := Insert(b.frames, k, v)), max)
  }

  function Pop<T>(b: Buffer<T>): (r: (Buffer<T>, Option<(int, T)>))
  {
    match b.frames
    case NoFrames => (b, None)
    case Frame(oldest, _, _) =>
      var expected := if b.expected.Some? then b.expected.value else oldest;
      match Get(b.frames, expected)
      case Some(v) => (Buffer(Delete(b.frames, expected), Some(expected + 1)), Some((expected, v)))
      case None => (Buffer(b.frames.later, Some(oldest + 1)), Some((oldest, b.frames.value)))
  }

  function Delete<T>(f: Frames<T>, k: int): (r: Frames<T>)
  {
    match f case NoFrames => NoFrames case Frame(n, v, later) => if n == k then later else Frame(n, v, Delete(later, k))
  }

  // ---- invariant -----------------------------------------------------------

  /** Ascending numbers, none below x. */
  ghost predicate From<T>(f: Frames<T>, x: int)
  {
    match f case NoFrames => true case Frame(n, _, later) => x <= n && From(later, n + 1)
  }

  ghost predicate Valid<T>(b: Buffer<T>)
  {
    match b.expected
    case Some(e) => From(b.frames, e)
    case None => b.frames.NoFrames? || From(b.frames, b.frames.number)
  }

  lemma FromLower<T>(f: Frames<T>, x: int, y: int)
    requires From(f, x) && y <= x
    ensures From(f, y)
  {}

  lemma FromItsFirst<T>(f: Frames<T>, x: int)
    requires f.Frame? && From(f, x)
    ensures From(f, f.number)
  {}

  lemma {:induction false} InsertFrom<T>(f: Frames<T>, k: int, v: T, x: int)
    requires From(f, x) && x <= k
    ensures From(Insert(f, k, v), x)
  {
    if f.Frame? && k > f.number {
      InsertFrom(f.later, k, v, f.number + 1);
    }
  }

  lemma {:induction false} GetAbsent<T>(f: Frames<T>, x: int, k: int)
    requires From(f, x) && k < x
    ensures Get(f, k) == None
  {
    if f.Frame? {
      GetAbsent(f.later, f.number + 1, k);
    }
  }

  /** Insertion sets exactly one entry of the map. */
  lemma {:induction false} GetAfterInsert<T>(f: Frames<T>, k: int, v: T, x: int, j: int)
    requires From(f, x)
    ensures Get(Insert(f, k, v), j) == if j == k then Some(v) else Get(f, j)
  {
    if f.Frame? {
      GetAfterInsert(f.later, k, v, f.number + 1, j);
    }
  }

  lemma {:induction false} TrimKeeps<T>(b: Buffer<T>, max: nat)
    requires Valid(b)
    ensures Valid(Trim(b, max)) && Size(Trim(b, max).frames) <= max
    ensures b.expected.Some? ==> Trim(b, max).expected.Some? && b.expected.value <= Trim(b, max).expected.value
    ensures b.expected.None? ==> Trim(b, max).expected.None?
    decreases Size(b.frames)
  {
    if Size(b.frames) > max {
      var f := b.frames;
      if b.expected.Some? {
        FromLower(f.later, f.number + 1, if b.expected == Some(f.number) then f.number + 1 else b.expected.value);
      } else if f.later.Frame? {
        FromItsFirst(f.later, f.number + 1);
      }
      TrimKeeps(Buffer(f.later, if b.expected == Some(f.number) then Some(f.number + 1) else b.expected), max);
    }
  }

  lemma PushKeeps<T>(b: Buffer<T>, max: nat, k: int, v: T)
    requires Valid(b)
    ensures var r := Push(b, max, k, v);
      && Valid(r) && (b.expected.None? ==> r.expected.None?)
      && (b.expected.Some? ==> r.expected.Some? && b.expected.value <= r.expected.value)
      && (b.expected.None? || k >= b.expected.value ==> Size(r.frames) <= max)
  {
    if b.expected.None? || k >= b.expected.value {
      var low := if b.expected.Some? then b.expected.value else if b.frames.Frame? && b.frames.number < k then b.frames.number else k;
      if b.frames.Frame? {
        FromLower(b.frames, if b.expected.Some? then b.expected.value else b.frames.number, low);
      }
      InsertFrom(b.frames, k, v, low);
      TrimKeeps(b.(frames := Insert(b.frames, k, v)), max);
    }
  }

  lemma {:induction false} DeleteFirst<T>(f: Frames<T>, k: int)
    requires From(f, k) && Get(f, k).Some?
    ensures f.Frame? && f.number == k && Delete(f, k) == f.later
  {
    if f.number != k {
      GetAbsent(f.later, f.number + 1, k);
    }
  }

  /** A pop takes the frame of the least number, which is not below what was expected, and expects the one after it. */
  lemma PopEffect<T>(b: Buffer<T>)
    requires Valid(b)
    ensures var (r, p) := Pop(b);
      && Valid(r) && (p.None? <==> b.frames.NoFrames?)
      && (p.None? ==> r == b)
      && (p.Some? ==> p.value == (b.frames.number, b.frames.value) && r == Buffer(b.frames.later, Some(p.value.0 + 1))
                      && (b.expected.Some? ==> b.expected.value <= p.value.0))
  {
    if b.frames.Frame? {
      var e := if b.expected.Some? then b.expected.value else b.frames.number;
      if Get(b.frames, e).Some? {
        DeleteFirst(b.frames, e);
      }
    }
  }

  // ---- runs ----------------------------------------------------------------

  datatype Event<T> = Arrives(number: int, value: T) | Played | Cleared

  /** The buffer and the numbers popped since it was last cleared. */
  function Run<T>(max: nat, es: seq<Event<T>>): (r: (Buffer<T>, seq<int>))
  {
    if |es| == 0 then (Buffer(NoFrames, None), []) else
    var (b, out) := Run(max, es[..|es| - 1]);
    match es[|es| - 1]
    case Arrives(k, v) => (Push(b, max, k, v), out)
    case Played => var (r, p) := Pop(b); (r, if p.Some? then out + [p.value.0] else out)
    case Cleared => (Buffer(NoFrames, None), [])
  }

  ghost predicate Ahead<T>(b: Buffer<T>, out: seq<int>)
  {
    |out| > 0 ==> b.expected.Some? && out[|out| - 1] < b.expected.value
  }

  lemma PlayedKeeps<T>(b: Buffer<T>, out: seq<int>)
    requires Valid(b) && b.frames.Frame? && Increasing(out) && Ahead(b, out)
    ensures var (r, p) := Pop(b);
      p.Some? && Valid(r) && Size(r.frames) <= Size(b.frames) && Increasing(out + [p.value.0]) && Ahead(r, out + [p.value.0])
  {
    PopEffect(b);
    IncreasingAppend(out, b.frames.number);
  }

  /** Between clears, what is popped strictly increases, and the buffer never holds more than its limit. */
  lemma {:induction false} PopsIncrease<T>(max: nat, es: seq<Event<T>>)
    ensures var (b, out) := Run(max, es); Valid(b) && Size(b.frames) <= max && Increasing(out) && Ahead(b, out)
  {
    if |es| != 0 {
      PopsIncrease(max, es[..|es| - 1]);
      var (b, out) := Run(max, es[..|es| - 1]);
      match es[|es| - 1]
      case Arrives(k, v) => PushKeeps(b, max, k, v);
      case Played =>
        if b.frames.Frame? {
          PlayedKeeps(b, out);
        }
      case Cleared =>
    }
  }

  // ---- the buffer object ---------------------------------------------------

  class JitterBuffer<T> {
    const maxFrames: nat
    var frames: Frames<T>
    var expected: Option<int>

    ghost function View(): (b: Buffer<T>)
      reads this
    {
      Buffer(frames, expected)
    }

    method PushFrame(k: int, v: T)
      modifies this
      ensures View() == Push(old(View()), maxFrames, k, v)
    {
      if expected.Some? && k < expected.value { return; }
      frames := Insert(frames, k, v);
      ghost var all := View();
      while Size(frames) > maxFrames
        invariant Trim(View(), maxFrames) == Trim(all, maxFrames)
        decreases Size(frames)
      {
        var oldest := frames.number;
        frames := frames.later;
        if expected == Some(oldest) {
          expected := Some(oldest + 1);
        }
      }
    }

    method PopFrame() returns (r: Option<(int, T)>)
      modifies this
      ensures (View(), r) == Pop(old(View()))
    {
      if frames.NoFrames? { return None; }
      if expected.None? {
        expected := Some(frames.number);
      }
      var exact := Get(frames, expected.value);
      if exact.Some? {
        r := Some((expected.value, exact.value));
        frames := Delete(frames, expected.value);
        expected := Some(expected.value + 1);
        return;
      }
      r := Some((frames.number, frames.value));
      expected := Some(frames.number + 1);
      frames := frames.later;
    }
  }
}
