/** Paths as pathlib sees them: a parent directory and a final name, with the
    name's suffix and stem, and the test that picks out image files. */
module Paths {

  /** A directory, as the list of its components below the file-system root. */
  type Dir = seq<string>

  /** A directory entry: the directory holding it (pathlib's `parent`) and its
      last component (pathlib's `name`). */
  datatype Path = Path(parent: Dir, name: string)

  /** The extensions the script accepts, in lower case. */
  const ImageSuffixes: seq<string> := [".jpg", ".png", ".jpeg"]

  /** Index of the last occurrence of c in s, or -1 when there is none (str.rfind). */
  function LastIndexOf(s: string, c: char): (i: int)
    ensures -1 <= i < |s|
    ensures 0 <= i ==> s[i] == c
    ensures forall k :: i < k < |s| ==> s[k] != c
  {
    if s == [] then -1
    else if s[|s| - 1] == c then |s| - 1
    else LastIndexOf(s[..|s| - 1], c)
  }

  /** pathlib's `suffix`: the name from its last dot on, provided that dot is
      neither the first nor the last character of the name; otherwise empty. */
  function Suffix(name: string): (r: string)
    ensures r == "" <==> |name| <= 1 || '.' !in name[1..] || name[|name| - 1] == '.'
    ensures r != "" ==> 2 <= |r| < |name| && r == name[|name| - |r|..] && r[0] == '.' && '.' !in r[1..]
  {
    var i := LastIndexOf(name, '.');
    LastDotFacts(name);
    if 0 < i < |name| - 1 then name[i..] else ""
  }

  /** What the position of the last dot says about the name. */
  lemma LastDotFacts(name: string)
    ensures var i := LastIndexOf(name, '.');
      && (0 <= i ==> '.' !in name[i + 1..] && name[i..][0] == '.' && name[i..][1..] == name[i + 1..])
      && (0 < i ==> '.' in name[1..])
      && (1 < |name| && '.' in name[1..] ==> 0 < i)
  {
    var i := LastIndexOf(name, '.');
    if 0 <= i {
      var tail := name[i + 1..];
      forall k | 0 <= k < |tail| ensures tail[k] != '.' {
        assert tail[k] == name[i + 1 + k];
      }
    }
    if 0 < i {
      assert name[1..][i - 1] == '.';
    }
    if 1 < |name| && '.' in name[1..] {
      var k :| 0 <= k < |name[1..]| && name[1..][k] == '.';
      assert name[k + 1] == '.';
    }
  }

  /** pathlib's `stem`: the name without its suffix. */
  function Stem(name: string): (r: string)
    ensures r + Suffix(name) == name
    ensures r == "" <==> name == ""
  {
    var i := LastIndexOf(name, '.');
    if 0 < i < |name| - 1 then name[..i] else name
  }

  /** ASCII lower-casing of one character (str.lower on the characters that matter here). */
  function LowerChar(c: char): char
  {
    if 'A' <= c <= 'Z' then (c as int + ('a' as int - 'A' as int)) as char else c
  }

  function Lower(s: string): string
  {
    seq(|s|, k requires 0 <= k < |s| => LowerChar(s[k]))
  }

  /** The filter of split_dataset.py: a path is kept when its lower-cased
      suffix is one of the image extensions. */
  predicate IsImage(p: Path)
  {
    Lower(Suffix(p.name)) in ImageSuffixes
  }

  lemma {:induction false} LastDotOfLower(s: string)
    ensures LastIndexOf(Lower(s), '.') == LastIndexOf(s, '.')
    decreases |s|
  {
    if s != [] {
      assert Lower(s)[..|s| - 1] == Lower(s[..|s| - 1]);
      assert Lower(s)[|s| - 1] == LowerChar(s[|s| - 1]);
      LastDotOfLower(s[..|s| - 1]);
    }
  }

  /** A dot at i, strictly inside the name and with no dot after it, starts the suffix. */
  lemma SuffixAt(name: string, i: nat)
    requires 0 < i < |name| - 1 && name[i] == '.'
    requires forall k :: i < k < |name| ==> name[k] != '.'
    ensures Suffix(name) == name[i..] && Stem(name) == name[..i]
  {
  }

  /** Taking the suffix and lower-casing commute: lower-casing moves no dot. */
  lemma SuffixOfLower(name: string)
    ensures Suffix(Lower(name)) == Lower(Suffix(name))
  {
    LastDotOfLower(name);
  }

  /** The image test ignores case: two names that lower-case alike are both
      images or both not. */
  lemma ImageTestIgnoresCase(d: Dir, name: string, other: string)
    requires Lower(name) == Lower(other)
    ensures IsImage(Path(d, name)) == IsImage(Path(d, other))
  {
    SuffixOfLower(name);
    SuffixOfLower(other);
  }

  /** An upper-case extension is accepted: the match is on the lower-cased suffix. */
  lemma UpperCaseExtensionAccepted(d: Dir)
    ensures IsImage(Path(d, "cat.JPG"))
  {
    SuffixAt("cat.JPG", 3);
    assert Lower(".JPG") == ".jpg";
  }

  /** Only the last extension counts, so a doubled extension ending in an image one is accepted. */
  lemma LastExtensionDecides(d: Dir)
    ensures IsImage(Path(d, "scan.tar.png"))
  {
    SuffixAt("scan.tar.png", 8);
    assert Lower(".png") == ".png";
  }

  /** A label file is not taken for an image. */
  lemma TextFileRejected(d: Dir)
    ensures !IsImage(Path(d, "a.txt"))
  {
    SuffixAt("a.txt", 1);
    assert Lower(".txt") == ".txt";
  }

  /** A name that is only an extension, or ends in a dot, has no suffix and is not an image. */
  lemma NoSuffixNoImage(d: Dir)
    ensures !IsImage(Path(d, ".jpg"))
    ensures !IsImage(Path(d, "photo.jpg."))
  {
    assert '.' !in ".jpg"[1..];
    assert Lower("") == "";
  }
}
