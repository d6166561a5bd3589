/** The list comprehension that keeps the image files of a directory walk. */
module Selection {
  import opened Paths

  /** a is b with some elements left out, the rest in their order. */
  ghost predicate IsSubsequence(a: seq<Path>, b: seq<Path>)
    decreases |b|
  {
    a == [] || (b != [] && if a[0] == b[0] then IsSubsequence(a[1..], b[1..]) else IsSubsequence(a, b[1..]))
  }

  /** The paths of a directory walk whose lower-cased suffix is an image extension,
      in walk order. */
  function SelectImages(walk: seq<Path>): (r: seq<Path>)
    ensures forall p :: p in r <==> p in walk && IsImage(p)
    ensures forall p :: multiset(r)[p] == if IsImage(p) then multiset(walk)[p] else 0
    ensures IsSubsequence(r, walk)
    decreases |walk|
  {
    if walk == [] then []
    else
      assert walk == [walk[0]] + walk[1..];
      if IsImage(walk[0]) then [walk[0]] + SelectImages(walk[1..])
      else SelectImages(walk[1..])
  }
}
