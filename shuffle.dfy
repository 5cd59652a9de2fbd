/** Python's `random.shuffle`, the Fisher-Yates shuffle every deck in the
    repository goes through.  The random source is a parameter: `rolls` is the
    stream of raw draws, and draw k is reduced modulo the range the shuffle
    asks for at step k (a missing draw counts as 0).  Any permutation can be
    produced by some stream, so the shuffle stands for an arbitrary one. */
module Shuffle {

  /** The k-th draw, brought into [0, bound). */
  function Roll(rolls: seq<nat>, k: nat, bound: nat): (r: nat)
    requires bound > 0
    ensures r < bound
  {
    (if k < |rolls| then rolls[k] else 0) % bound
  }

  function Swap<T>(s: seq<T>, i: nat, j: nat): (r: seq<T>)
    requires i < |s| && j < |s|
    ensures |r| == |s|
  {
    s[i := s[j]][j := s[i]]
  }

  lemma SwapPermutes<T>(s: seq<T>, i: nat, j: nat)
    requires i < |s| && j < |s|
    ensures multiset(Swap(s, i, j)) == multiset(s)
  {
    var t := s[i := s[j]];
    assert multiset(t) == multiset(s) - multiset{s[i]} + multiset{s[j]};
    assert t[j] == s[j] || (i == j);
  }

  /** The steps `for i in reversed(range(1, i + 1))` of the shuffle:
      swap position i with a position drawn from [0, i]. */
  function ShuffleFrom<T>(s: seq<T>, rolls: seq<nat>, i: nat): (r: seq<T>)
    requires i < |s|
    ensures |r| == |s|
    decreases i
  {
    if i == 0 then s
    else ShuffleFrom(Swap(s, i, Roll(rolls, |s| - 1 - i, i + 1)), rolls, i - 1)
  }

  /** The whole shuffle of `s`. */
  function Shuffled<T>(s: seq<T>, rolls: seq<nat>): (r: seq<T>)
    ensures |r| == |s|
  {
    if |s| == 0 then s else ShuffleFrom(s, rolls, |s| - 1)
  }

  lemma {:induction false} ShuffleFromPermutes<T>(s: seq<T>, rolls: seq<nat>, i: nat)
    requires i < |s|
    ensures multiset(ShuffleFrom(s, rolls, i)) == multiset(s)
    decreases i
  {
    if i > 0 {
      var j := Roll(rolls, |s| - 1 - i, i + 1);
      SwapPermutes(s, i, j);
      ShuffleFromPermutes(Swap(s, i, j), rolls, i - 1);
    }
  }

  /** Shuffling only reorders: same length, same cards. */
  lemma ShuffledPermutes<T>(s: seq<T>, rolls: seq<nat>)
    ensures |Shuffled(s, rolls)| == |s|
    ensures multiset(Shuffled(s, rolls)) == multiset(s)
  {
    if |s| > 0 {
      ShuffleFromPermutes(s, rolls, |s| - 1);
    }
  }

  /** The in-place loop of `random.shuffle`, on a copy of the list. */
  method Shuffle<T>(s: seq<T>, rolls: seq<nat>) returns (r: seq<T>)
    ensures r == Shuffled(s, rolls)
    ensures multiset(r) == multiset(s)
  {
    ShuffledPermutes(s, rolls);
    r := s;
    if |s| == 0 {
      return;
    }
    var i := |s| - 1;
    while i > 0
      invariant 0 <= i < |s| && |r| == |s|
      invariant ShuffleFrom(r, rolls, i) == Shuffled(s, rolls)
    {
      var j := Roll(rolls, |s| - 1 - i, i + 1);
      r := r[i := r[j]][j := r[i]];
      i := i - 1;
    }
  }
}
