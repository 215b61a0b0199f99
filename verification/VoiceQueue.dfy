/** The freshness queue of voice frames: bounded in number, and giving out nothing older than its age limit. */
module VoiceQueue {
  import opened Bytes

  datatype Item<T> = Item(value: T, queuedAt: nat)
  datatype Shift<T> = Shift(value: Option<T>, dropped: nat)

  /** The first position whose item is fresh at this time. */
  function FirstFresh<T>(items: seq<Item<T>>, maxAge: nat, now: int): (k: nat)
    ensures k <= |items|
    ensures forall i :: 0 <= i < k ==> now - items[i].queuedAt > maxAge
    ensures k < |items| ==> now - items[k].queuedAt <= maxAge
  {
    if |items| == 0 || now - items[0].queuedAt <= maxAge then 0 else 1 + FirstFresh(items[1..], maxAge, now)
  }

  /** Queued in the order of their times, none later than now. */
  ghost predicate Ordered<T>(items: seq<Item<T>>, now: nat)
  {
    forall i, j :: 0 <= i <= j < |items| ==> items[i].queuedAt <= items[j].queuedAt <= now
  }

  /** With a clock that does not run backwards, exactly the stale items go: everything behind the first fresh one is fresh. */
  lemma ExactlyStaleDropped<T>(items: seq<Item<T>>, maxAge: nat, now: nat)
    requires Ordered(items, now)
    ensures var k := FirstFresh(items, maxAge, now);
      forall i :: 0 <= i < |items| ==> (i < k <==> now - items[i].queuedAt > maxAge)
  {
    var k := FirstFresh(items, maxAge, now);
    forall i | k <= i < |items|
      ensures now - items[i].queuedAt <= maxAge
    {
      assert items[k].queuedAt <= items[i].queuedAt;
    }
  }

  class VoiceFreshnessQueue<T> {
    var items: seq<Item<T>>
    var maxFrames: nat
    var maxAge: nat

    constructor (frames: int, age: int)
      ensures items == [] && maxFrames == (if frames < 1 then 1 else frames) && maxAge == (if age < 1 then 1 else age)
    {
      items := [];
      maxFrames := if frames < 1 then 1 else frames;
      maxAge := if age < 1 then 1 else age;
    }

    /** Drops the oldest until at most maxFrames are left. */
    method TrimOverflow() returns (dropped: nat)
      modifies this`items
      ensures dropped == if old(|items|) > maxFrames then old(|items|) - maxFrames else 0
      ensures items == old(items)[dropped..] && |items| <= maxFrames
    {
      dropped := 0;
      while |items| > maxFrames
        invariant dropped <= old(|items|) && items == old(items)[dropped..]
        invariant dropped > 0 ==> |items| >= maxFrames
      {
        items := items[1..];
        dropped := dropped + 1;
      }
    }

    method SetLimits(frames: int, age: int) returns (dropped: nat)
      modifies this
      ensures maxFrames == (if frames < 1 then 1 else frames) && maxAge == (if age < 1 then 1 else age)
      ensures dropped <= old(|items|) && items == old(items)[dropped..] && |items| <= maxFrames
    {
      maxFrames := if frames < 1 then 1 else frames;
      maxAge := if age < 1 then 1 else age;
      dropped := TrimOverflow();
    }

    /** The newest is always kept, since the limit is at least one. */
    method Push(value: T, now: nat) returns (dropped: nat)
      requires maxFrames >= 1 && |items| <= maxFrames && Ordered(items, now)
      modifies this`items
      ensures |items| <= maxFrames && Ordered(items, now) && dropped <= old(|items|)
      ensures items == old(items)[dropped..] + [Item(value, now)]
      ensures dropped == if old(|items|) == maxFrames then 1 else 0
    {
      items := items + [Item(value, now)];
      dropped := TrimOverflow();
    }

    /** Everything stale is dropped and the oldest fresh item handed out. */
    method ShiftFresh(now: nat) returns (r: Shift<T>)
      requires Ordered(items, now)
      modifies this`items
      ensures r.dropped == FirstFresh(old(items), maxAge, now)
      ensures r.value.None? <==> r.dropped == old(|items|)
      ensures r.value.None? ==> items == [] && forall i :: 0 <= i < old(|items|) ==> now - old(items)[i].queuedAt > maxAge
      ensures r.value.Some? ==>
        && r.value.value == old(items)[r.dropped].value && items == old(items)[r.dropped + 1..]
        && now - old(items)[r.dropped].queuedAt <= maxAge
        && forall i :: 0 <= i < |items| ==> now - items[i].queuedAt <= maxAge
      ensures Ordered(items, now)
    {
      ExactlyStaleDropped(items, maxAge, now);
      var dropped := 0;
      while |items| > 0 && now - items[0].queuedAt > maxAge
        invariant dropped <= old(|items|) && items == old(items)[dropped..]
        invariant dropped <= FirstFresh(old(items), maxAge, now)
      {
        items := items[1..];
        dropped := dropped + 1;
      }
      if |items| == 0 { return Shift(None, dropped); }
      r := Shift(Some(items[0].value), dropped);
      items := items[1..];
    }

    method Clear() returns (count: nat)
      modifies this`items
      ensures items == [] && count == old(|items|)
    {
      count := |items|;
      items := [];
    }
  }
}
