/** Python slicing, and the split of the shuffled list into three blocks. */
module Slicing {

  /** Where a Python slice bound lands in a list of length n: a negative bound
      counts from the end, and the result is clamped to [0, n]. */
  function Bound(i: int, n: nat): (b: nat)
    ensures b <= n
    ensures 0 <= i <= n ==> b == i
    ensures i < 0 && -i <= n ==> b == n + i
  {
    if i < 0 then (if n + i < 0 then 0 else n + i)
    else if n < i then n
    else i
  }

  /** s[lo:hi]: empty when the normalised bounds cross. */
  function Slice<T>(s: seq<T>, lo: int, hi: int): (r: seq<T>)
    ensures |r| <= |s|
    ensures 0 <= lo <= hi <= |s| ==> r == s[lo..hi]
  {
    var a, b := Bound(lo, |s|), Bound(hi, |s|);
    if a <= b then s[a..b] else []
  }

  /** The three groups of the split, in the order the script slices them. */
  datatype Groups<T> = Groups(train: seq<T>, val: seq<T>, test: seq<T>)

  /** Lines 84-86: s[:trainNum], s[trainNum:trainNum + valNum] and
      s[trainNum + valNum:]. Validation is the middle block, test the tail. */
  function Partition<T>(s: seq<T>, trainNum: int, valNum: int): Groups<T>
  {
    Groups(Slice(s, 0, trainNum), Slice(s, trainNum, trainNum + valNum), Slice(s, trainNum + valNum, |s|))
  }

  /** With counts that fit, the three blocks are consecutive, have the
      requested lengths and together are exactly the list. */
  lemma PartitionIsExact<T>(s: seq<T>, trainNum: int, valNum: int)
    requires 0 <= trainNum && 0 <= valNum && trainNum + valNum <= |s|
    ensures var g := Partition(s, trainNum, valNum);
      && g.train == s[..trainNum] && g.val == s[trainNum..trainNum + valNum] && g.test == s[trainNum + valNum..]
      && g.train + g.val + g.test == s
  {
    var g := Partition(s, trainNum, valNum);
    var b := trainNum + valNum;
    assert g.train == s[0..trainNum];
    assert g.val == s[trainNum..b];
    assert g.test == s[b..|s|];
    assert s[..trainNum] + s[trainNum..b] == s[..b];
    assert s[..b] + s[b..] == s;
  }

  /** Whatever the counts, negative or too large, every element of the list
      lands in at least one of the three blocks, and nothing else does. */
  lemma PartitionCovers<T>(s: seq<T>, trainNum: int, valNum: int)
    ensures var g := Partition(s, trainNum, valNum);
      forall x :: x in s <==> x in g.train || x in g.val || x in g.test
  {
    var g := Partition(s, trainNum, valNum);
    var a, b := Bound(trainNum, |s|), Bound(trainNum + valNum, |s|);
    assert g.train == s[..a];
    assert g.test == s[b..];
    forall x | x in s
      ensures x in g.train || x in g.val || x in g.test
    {
      var k :| 0 <= k < |s| && s[k] == x;
      if k < a {
        assert s[..a][k] == x;
      } else if b <= k {
        assert s[b..][k - b] == x;
      } else {
        assert a <= k < b;
        assert g.val == s[a..b];
        assert s[a..b][k - a] == x;
      }
    }
    SliceWithin(s, trainNum, trainNum + valNum);
  }

  /** A slice holds only elements of the list. */
  lemma SliceWithin<T>(s: seq<T>, lo: int, hi: int)
    ensures forall x :: x in Slice(s, lo, hi) ==> x in s
  {
    var a, b := Bound(lo, |s|), Bound(hi, |s|);
    if a <= b {
      forall x | x in s[a..b] ensures x in s {
        var k :| 0 <= k < b - a && s[a..b][k] == x;
        assert s[a + k] == x;
      }
    }
  }

  /** With counts that fit and no element twice in the list, no element is
      in two blocks. */
  lemma BlocksDisjoint<T>(s: seq<T>, trainNum: int, valNum: int)
    requires 0 <= trainNum && 0 <= valNum && trainNum + valNum <= |s|
    requires forall x :: multiset(s)[x] <= 1
    ensures var g := Partition(s, trainNum, valNum);
      forall x :: (x in g.train ==> x !in g.val && x !in g.test) && (x in g.val ==> x !in g.test)
  {
    var g := Partition(s, trainNum, valNum);
    PartitionIsExact(s, trainNum, valNum);
    assert multiset(s) == multiset(g.train) + multiset(g.val) + multiset(g.test);
    forall x
      ensures (x in g.train ==> x !in g.val && x !in g.test) && (x in g.val ==> x !in g.test)
    {
      assert multiset(s)[x] == multiset(g.train)[x] + multiset(g.val)[x] + multiset(g.test)[x];
      assert x in g.train <==> x in multiset(g.train);
      assert x in g.val <==> x in multiset(g.val);
      assert x in g.test <==> x in multiset(g.test);
    }
  }
}
