/** Small vocabulary on sequences shared by the state machines. */
module Sequences {
  /** The sequence with its k-th element taken out. */
  function Without<T>(s: seq<T>, k: nat): (r: seq<T>)
    requires k < |s|
  {
    s[..k] + s[k + 1..]
  }

  ghost predicate Increasing(s: seq<int>)
  {
    |s| <= 1 || (Increasing(s[..|s| - 1]) && s[|s| - 2] < s[|s| - 1])
  }

  lemma IncreasingAppend(s: seq<int>, x: int)
    requires Increasing(s) && (|s| > 0 ==> s[|s| - 1] < x)
    ensures Increasing(s + [x])
  {
    assert (s + [x])[..|s|] == s;
  }

  function One(b: bool): (n: nat) { if b then 1 else 0 }
}
