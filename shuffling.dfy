/** random.shuffle, which reorders the image list in place. The random source is
    a parameter: draws[i] is the index in [0, i] it yields when the loop is at i. */
module Shuffling {

  /** The draws a random source may yield for a list of length n. */
  predicate ValidDraws(draws: seq<nat>, n: nat)
  {
    |draws| == n && forall i :: 0 <= i < n ==> draws[i] <= i
  }

  function Swap<T>(s: seq<T>, i: nat, j: nat): (r: seq<T>)
    requires i < |s| && j < |s|
    ensures |r| == |s| && r[i] == s[j] && r[j] == s[i]
    ensures forall k :: 0 <= k < |s| && k != i && k != j ==> r[k] == s[k]
  {
    s[i := s[j]][j := s[i]]
  }

  /** The list after the loop has handled positions i-1 down to 1. */
  function FisherYates<T>(s: seq<T>, draws: seq<nat>, i: nat): seq<T>
    requires i <= |s| && ValidDraws(draws, |s|)
    decreases i
  {
    if i <= 1 then s else FisherYates(Swap(s, i - 1, draws[i - 1]), draws, i - 1)
  }

  /** Every swap keeps the elements, so the whole shuffle is a permutation. */
  lemma {:induction false} FisherYatesPermutes<T>(s: seq<T>, draws: seq<nat>, i: nat)
    requires i <= |s| && ValidDraws(draws, |s|)
    ensures |FisherYates(s, draws, i)| == |s|
    ensures multiset(FisherYates(s, draws, i)) == multiset(s)
    decreases i
  {
    if 1 < i {
      var t := Swap(s, i - 1, draws[i - 1]);
      SwapPermutes(s, i - 1, draws[i - 1]);
      FisherYatesPermutes(t, draws, i - 1);
    }
  }

  lemma SwapPermutes<T>(s: seq<T>, i: nat, j: nat)
    requires i < |s| && j < |s|
    ensures multiset(Swap(s, i, j)) == multiset(s)
  {
    if i != j {
      var r := Swap(s, i, j);
      assert r == s[i := s[j]][j := s[i]];
    }
  }

  /** Line 61: for i from n-1 down to 1, swap a[i] with a[draws[i]]. */
  method Shuffle<T>(a: array<T>, draws: seq<nat>)
    requires ValidDraws(draws, a.Length)
    modifies a
    ensures a[..] == FisherYates(old(a[..]), draws, a.Length)
    ensures multiset(a[..]) == multiset(old(a[..]))
  {
    ghost var original := a[..];
    var i := a.Length;
    while 1 < i
      invariant 0 <= i <= a.Length
      invariant FisherYates(a[..], draws, i) == FisherYates(original, draws, a.Length)
    {
      var j := draws[i - 1];
      var t := a[i - 1];
      a[i - 1] := a[j];
      a[j] := t;
      i := i - 1;
    }
    FisherYatesPermutes(original, draws, a.Length);
  }
}
