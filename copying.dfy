/** copy_files: every image of a group is copied into the group's images folder
    under its own name, and its annotation, when one exists, into the group's
    labels folder. */
module Copying {
  import opened Outcomes
  import opened Paths
  import opened Disk

  /** The two folders one group is copied into. */
  datatype Destination = Destination(images: Dir, labels: Dir)

  /** The files after a sequence of copies, and whether none of them raised. */
  datatype Copied = Copied(files: Files, ok: bool)

  /** The annotation's file name: the image's stem with ".txt". */
  function LabelName(img: Path): string
  {
    Stem(img.name) + ".txt"
  }

  /** Where the annotation of an image is looked for. */
  function LabelSource(img: Path, labels: Dir): Path
  {
    Path(labels, LabelName(img))
  }

  function ImageTarget(img: Path, dest: Destination): Path
  {
    Path(dest.images, img.name)
  }

  function LabelTarget(img: Path, dest: Destination): Path
  {
    Path(dest.labels, LabelName(img))
  }

  /** One pass of the loop: copy the image, then the annotation if it exists.
      A copy that raises ends the run with what was copied so far. */
  function CopyOne(files: Files, dirs: set<Dir>, img: Path, dest: Destination, labels: Dir): Copied
  {
    match AfterCopy(files, dirs, img, ImageTarget(img, dest))
    case None => Copied(files, false)
    case Some(f) =>
      if !PathExists(f, dirs, LabelSource(img, labels)) then Copied(f, true)
      else
        match AfterCopy(f, dirs, LabelSource(img, labels), LabelTarget(img, dest))
        case None => Copied(f, false)
        case Some(g) => Copied(g, true)
  }

  /** The whole loop, image by image, stopping at the first copy that raises. */
  function CopyAll(files: Files, dirs: set<Dir>, imgs: seq<Path>, dest: Destination, labels: Dir): Copied
    decreases |imgs|
  {
    if imgs == [] then Copied(files, true)
    else
      var c := CopyOne(files, dirs, imgs[0], dest, labels);
      if !c.ok then c else CopyAll(c.files, dirs, imgs[1..], dest, labels)
  }

  /** d has no sub-directory, as a freshly created destination folder. */
  ghost predicate Leaf(dirs: set<Dir>, d: Dir)
  {
    forall e :: e in dirs && |e| == |d| + 1 ==> e[..|d|] != d
  }

  /** The layout the script sets up: two distinct destination folders without
      sub-directories, apart from the source labels folder and from the folders
      the images are in. */
  ghost predicate Separate(dirs: set<Dir>, imgs: seq<Path>, dest: Destination, labels: Dir)
  {
    && dest.images != dest.labels && labels != dest.images && labels != dest.labels
    && Leaf(dirs, dest.images) && Leaf(dirs, dest.labels)
    && forall img :: img in imgs ==> img.parent != dest.images && img.parent != dest.labels
  }

  ghost function ImageTargets(imgs: seq<Path>, dest: Destination): set<Path>
  {
    set img | img in imgs :: ImageTarget(img, dest)
  }

  /** The label targets of the images whose annotation exists. */
  ghost function LabelsCopied(files: Files, dirs: set<Dir>, imgs: seq<Path>, dest: Destination, labels: Dir): set<Path>
  {
    set img | img in imgs && PathExists(files, dirs, LabelSource(img, labels)) :: LabelTarget(img, dest)
  }

  /** When a run of copies succeeds: every image is a regular file and the
      images folder exists, and every annotation that exists is a regular file
      and the labels folder exists. */
  ghost predicate CanCopy(files: Files, dirs: set<Dir>, imgs: seq<Path>, dest: Destination, labels: Dir)
  {
    imgs == [] || (dest.images in dirs && forall img :: img in imgs ==> Copyable(files, dirs, img, dest, labels))
  }

  /** The image is a regular file, and its annotation, if it exists, is a
      regular file with a labels folder to go to. */
  ghost predicate Copyable(files: Files, dirs: set<Dir>, img: Path, dest: Destination, labels: Dir)
  {
    && img in files
    && (PathExists(files, dirs, LabelSource(img, labels)) ==> LabelSource(img, labels) in files && dest.labels in dirs)
  }

  /** One pass under the script's layout succeeds exactly when the images
      folder exists and the image can be copied. */
  lemma CopyOneSucceeds(files: Files, dirs: set<Dir>, img: Path, dest: Destination, labels: Dir)
    requires Separate(dirs, [img], dest, labels)
    ensures CopyOne(files, dirs, img, dest, labels).ok <==> dest.images in dirs && Copyable(files, dirs, img, dest, labels)
  {
    assert img in [img];
    var it, src, lt := ImageTarget(img, dest), LabelSource(img, labels), LabelTarget(img, dest);
    LeafTarget(dirs, dest.images, img, img.name);
    LeafTarget(dirs, dest.labels, src, LabelName(img));
    if AfterCopy(files, dirs, img, it).Some? {
      assert src != it;
    }
  }

  /** A successful pass adds the image target with the image's contents and,
      when the annotation exists, the label target with the annotation's. */
  lemma CopyOneWrites(files: Files, dirs: set<Dir>, img: Path, dest: Destination, labels: Dir)
    requires Separate(dirs, [img], dest, labels) && CopyOne(files, dirs, img, dest, labels).ok
    ensures var c := CopyOne(files, dirs, img, dest, labels);
      var src := LabelSource(img, labels);
      var hasLabel := PathExists(files, dirs, src);
      && c.files.Keys == files.Keys + {ImageTarget(img, dest)} + (if hasLabel then {LabelTarget(img, dest)} else {})
      && c.files[ImageTarget(img, dest)] == files[img]
      && (hasLabel ==> src in files && c.files[LabelTarget(img, dest)] == files[src])
  {
    assert img in [img];
    var it, src, lt := ImageTarget(img, dest), LabelSource(img, labels), LabelTarget(img, dest);
    LeafTarget(dirs, dest.images, img, img.name);
    LeafTarget(dirs, dest.labels, src, LabelName(img));
    assert src != it && it != lt;
    CopyEffect(files, dirs, img, it);
    var f := AfterCopy(files, dirs, img, it).value;
    assert PathExists(f, dirs, src) == PathExists(files, dirs, src);
    if PathExists(f, dirs, src) {
      CopyEffect(f, dirs, src, lt);
    }
  }

  /** Copying a group writes only the group's image targets and the label
      targets of the images whose annotation exists: sources, the label
      target of an image without annotation (a file an earlier run may have
      left there) and every other entry keep their presence and contents,
      whether or not the run succeeds. */
  lemma CopyAllFrame(files: Files, dirs: set<Dir>, imgs: seq<Path>, dest: Destination, labels: Dir)
    requires Separate(dirs, imgs, dest, labels)
    ensures var r := CopyAll(files, dirs, imgs, dest, labels).files;
      forall p :: p !in ImageTargets(imgs, dest) && p !in LabelsCopied(files, dirs, imgs, dest, labels) ==>
        (p in r <==> p in files) && (p in files ==> r[p] == files[p])
  {
    forall p | p !in ImageTargets(imgs, dest) && p !in LabelsCopied(files, dirs, imgs, dest, labels)
      ensures var r := CopyAll(files, dirs, imgs, dest, labels).files;
        (p in r <==> p in files) && (p in files ==> r[p] == files[p])
    {
      forall img | img in imgs
        ensures p != ImageTarget(img, dest)
        ensures PathExists(files, dirs, LabelSource(img, labels)) ==> p != LabelTarget(img, dest)
      {
        assert ImageTarget(img, dest) in ImageTargets(imgs, dest);
        if PathExists(files, dirs, LabelSource(img, labels)) {
          assert LabelTarget(img, dest) in LabelsCopied(files, dirs, imgs, dest, labels);
        }
      }
      CopyAllUntouchedAt(files, dirs, imgs, dest, labels, p);
    }
  }

  /** A path that is no image target of the group, and the label target only
      of images whose annotation is missing, is left as it was. */
  lemma {:induction false} CopyAllUntouchedAt(files: Files, dirs: set<Dir>, imgs: seq<Path>, dest: Destination, labels: Dir, p: Path)
    requires Separate(dirs, imgs, dest, labels)
    requires forall img :: img in imgs ==>
      p != ImageTarget(img, dest) && (PathExists(files, dirs, LabelSource(img, labels)) ==> p != LabelTarget(img, dest))
    ensures var r := CopyAll(files, dirs, imgs, dest, labels).files;
      (p in r <==> p in files) && (p in files ==> r[p] == files[p])
    decreases |imgs|
  {
    if imgs != [] {
      var c := CopyOne(files, dirs, imgs[0], dest, labels);
      SeparateTail(dirs, imgs, dest, labels);
      assert imgs[0] in imgs;
      CopyOneUntouchedAt(files, dirs, imgs[0], dest, labels, p);
      if c.ok {
        SourcesSurviveOnePass(files, dirs, imgs, dest, labels);
        forall img | img in imgs[1..] ensures img in imgs {}
        CopyAllUntouchedAt(c.files, dirs, imgs[1..], dest, labels, p);
      }
    }
  }

  /** One pass writes the image target, and the label target only when the
      annotation exists. */
  lemma CopyOneUntouchedAt(files: Files, dirs: set<Dir>, img: Path, dest: Destination, labels: Dir, p: Path)
    requires Separate(dirs, [img], dest, labels)
    requires p != ImageTarget(img, dest)
    requires PathExists(files, dirs, LabelSource(img, labels)) ==> p != LabelTarget(img, dest)
    ensures var c := CopyOne(files, dirs, img, dest, labels);
      (p in c.files <==> p in files) && (p in files ==> c.files[p] == files[p])
  {
    var it, src, lt := ImageTarget(img, dest), LabelSource(img, labels), LabelTarget(img, dest);
    LeafTarget(dirs, dest.images, img, img.name);
    LeafTarget(dirs, dest.labels, src, LabelName(img));
    var f := AfterCopy(files, dirs, img, it);
    if f.Some? {
      assert src != it;
      CopyEffect(files, dirs, img, it);
      assert PathExists(f.value, dirs, src) == PathExists(files, dirs, src);
      if PathExists(files, dirs, src) {
        CopyEffect(f.value, dirs, src, lt);
      }
    }
  }

  lemma {:induction false} CopyAllFrameAt(files: Files, dirs: set<Dir>, imgs: seq<Path>, dest: Destination, labels: Dir, p: Path)
    requires Leaf(dirs, dest.images) && Leaf(dirs, dest.labels)
    requires forall img :: img in imgs ==> p != ImageTarget(img, dest) && p != LabelTarget(img, dest)
    ensures var r := CopyAll(files, dirs, imgs, dest, labels).files;
      (p in r <==> p in files) && (p in files ==> r[p] == files[p])
    decreases |imgs|
  {
    if imgs != [] {
      var c := CopyOne(files, dirs, imgs[0], dest, labels);
      CopyOneFrameAt(files, dirs, imgs[0], dest, labels, p);
      if c.ok {
        forall img | img in imgs[1..] ensures img in imgs {}
        CopyAllFrameAt(c.files, dirs, imgs[1..], dest, labels, p);
      }
    }
  }

  /** One pass writes nothing but the image's two targets. */
  lemma CopyOneFrameAt(files: Files, dirs: set<Dir>, img: Path, dest: Destination, labels: Dir, p: Path)
    requires Leaf(dirs, dest.images) && Leaf(dirs, dest.labels)
    requires p != ImageTarget(img, dest) && p != LabelTarget(img, dest)
    ensures var c := CopyOne(files, dirs, img, dest, labels);
      (p in c.files <==> p in files) && (p in files ==> c.files[p] == files[p])
  {
    LeafTarget(dirs, dest.images, img, img.name);
    LeafTarget(dirs, dest.labels, LabelSource(img, labels), LabelName(img));
  }

  /** A copy into a folder without sub-directories writes the named file. */
  lemma LeafTarget(dirs: set<Dir>, d: Dir, src: Path, name: string)
    requires Leaf(dirs, d)
    ensures CopyTarget(dirs, src, Path(d, name)) == Path(d, name)
  {
    assert AsDir(Path(d, name))[..|d|] == d;
  }

  /** Nothing outside the two destination folders changes. */
  lemma OutsideDestinationsUnchanged(files: Files, dirs: set<Dir>, imgs: seq<Path>, dest: Destination, labels: Dir, p: Path)
    requires Separate(dirs, imgs, dest, labels)
    requires p.parent != dest.images && p.parent != dest.labels
    ensures var r := CopyAll(files, dirs, imgs, dest, labels).files;
      (p in r <==> p in files) && (p in files ==> r[p] == files[p])
  {
    CopyAllFrameAt(files, dirs, imgs, dest, labels, p);
  }

  /** The pass over the first image leaves every source of the group as it
      was, so whether a later image can be copied does not change. */
  lemma SourcesSurviveOnePass(files: Files, dirs: set<Dir>, imgs: seq<Path>, dest: Destination, labels: Dir)
    requires Separate(dirs, imgs, dest, labels) && imgs != []
    ensures var c := CopyOne(files, dirs, imgs[0], dest, labels);
      forall img :: img in imgs ==>
        var src := LabelSource(img, labels);
        && Copyable(c.files, dirs, img, dest, labels) == Copyable(files, dirs, img, dest, labels)
        && PathExists(c.files, dirs, src) == PathExists(files, dirs, src)
        && (img in c.files <==> img in files) && (img in files ==> c.files[img] == files[img])
        && (src in c.files <==> src in files) && (src in files ==> c.files[src] == files[src])
  {
    var c := CopyOne(files, dirs, imgs[0], dest, labels);
    var it, lt := ImageTarget(imgs[0], dest), LabelTarget(imgs[0], dest);
    forall img | img in imgs
      ensures var src := LabelSource(img, labels);
        && (img in c.files <==> img in files) && (img in files ==> c.files[img] == files[img])
        && (src in c.files <==> src in files) && (src in files ==> c.files[src] == files[src])
    {
      var src := LabelSource(img, labels);
      CopyOneFrameAt(files, dirs, imgs[0], dest, labels, img);
      CopyOneFrameAt(files, dirs, imgs[0], dest, labels, src);
    }
  }

  /** The run of copies succeeds exactly when CanCopy holds of the files before it. */
  lemma {:induction false} CopyAllSucceeds(files: Files, dirs: set<Dir>, imgs: seq<Path>, dest: Destination, labels: Dir)
    requires Separate(dirs, imgs, dest, labels)
    ensures CopyAll(files, dirs, imgs, dest, labels).ok <==> CanCopy(files, dirs, imgs, dest, labels)
    decreases |imgs|
  {
    if imgs != [] {
      var c := CopyOne(files, dirs, imgs[0], dest, labels);
      SeparateTail(dirs, imgs, dest, labels);
      CopyOneSucceeds(files, dirs, imgs[0], dest, labels);
      assert imgs == [imgs[0]] + imgs[1..];
      if c.ok {
        SourcesSurviveOnePass(files, dirs, imgs, dest, labels);
        CopyAllSucceeds(c.files, dirs, imgs[1..], dest, labels);
        assert CanCopy(c.files, dirs, imgs[1..], dest, labels) == CanCopy(files, dirs, imgs[1..], dest, labels);
      }
    }
  }

  /** After a successful run the files are the old ones plus one image target
      per image and one label target per image whose annotation exists. */
  lemma {:induction false} CopyAllTargets(files: Files, dirs: set<Dir>, imgs: seq<Path>, dest: Destination, labels: Dir)
    requires Separate(dirs, imgs, dest, labels) && CopyAll(files, dirs, imgs, dest, labels).ok
    ensures CopyAll(files, dirs, imgs, dest, labels).files.Keys
      == files.Keys + ImageTargets(imgs, dest) + LabelsCopied(files, dirs, imgs, dest, labels)
    decreases |imgs|
  {
    if imgs != [] {
      var c := CopyOne(files, dirs, imgs[0], dest, labels);
      SeparateTail(dirs, imgs, dest, labels);
      CopyAllStep(files, dirs, imgs, dest, labels);
      CopyOneWrites(files, dirs, imgs[0], dest, labels);
      SourcesSurviveOnePass(files, dirs, imgs, dest, labels);
      CopyAllTargets(c.files, dirs, imgs[1..], dest, labels);
      ImageTargetsCons(imgs, dest);
      LabelsCopiedCons(files, c.files, dirs, imgs, dest, labels);
    }
  }

  lemma SeparateTail(dirs: set<Dir>, imgs: seq<Path>, dest: Destination, labels: Dir)
    requires Separate(dirs, imgs, dest, labels) && imgs != []
    ensures Separate(dirs, [imgs[0]], dest, labels) && Separate(dirs, imgs[1..], dest, labels)
  {
    forall img | img in imgs[1..] ensures img in imgs {}
  }

  /** The image targets of a group: the first image's and the rest's. */
  lemma ImageTargetsCons(imgs: seq<Path>, dest: Destination)
    requires imgs != []
    ensures ImageTargets(imgs, dest) == {ImageTarget(imgs[0], dest)} + ImageTargets(imgs[1..], dest)
  {
    forall img | img in imgs[1..] ensures img in imgs {}
    assert imgs[0] in imgs;
    forall t | t in ImageTargets(imgs, dest)
      ensures t == ImageTarget(imgs[0], dest) || t in ImageTargets(imgs[1..], dest)
    {
      var img :| img in imgs && ImageTarget(img, dest) == t;
      HeadOrTail(imgs, img);
    }
  }

  /** The label targets copied for a group: the first image's, if its
      annotation exists, and the rest's, judged on a file state where the
      annotations are the same. */
  lemma LabelsCopiedCons(files: Files, files': Files, dirs: set<Dir>, imgs: seq<Path>, dest: Destination, labels: Dir)
    requires imgs != []
    requires forall img :: img in imgs ==>
      PathExists(files', dirs, LabelSource(img, labels)) == PathExists(files, dirs, LabelSource(img, labels))
    ensures LabelsCopied(files, dirs, imgs, dest, labels)
      == (if PathExists(files, dirs, LabelSource(imgs[0], labels)) then {LabelTarget(imgs[0], dest)} else {})
         + LabelsCopied(files', dirs, imgs[1..], dest, labels)
  {
    forall img | img in imgs[1..] ensures img in imgs {}
    assert imgs[0] in imgs;
    forall t | t in LabelsCopied(files, dirs, imgs, dest, labels)
      ensures (t == LabelTarget(imgs[0], dest) && PathExists(files, dirs, LabelSource(imgs[0], labels)))
        || t in LabelsCopied(files', dirs, imgs[1..], dest, labels)
    {
      var img :| img in imgs && PathExists(files, dirs, LabelSource(img, labels)) && LabelTarget(img, dest) == t;
      HeadOrTail(imgs, img);
    }
  }

  /** No later image of the group has the same name as imgs[i]. */
  ghost predicate LastOfItsName(imgs: seq<Path>, i: int)
  {
    0 <= i < |imgs| && forall j :: i < j < |imgs| ==> imgs[j].name != imgs[i].name
  }

  lemma LastOfItsNameTail(imgs: seq<Path>, i: nat)
    requires 0 < i && LastOfItsName(imgs, i)
    ensures imgs[1..][i - 1] == imgs[i] && imgs[i] in imgs && LastOfItsName(imgs[1..], i - 1)
  {
    forall j | i - 1 < j < |imgs| - 1
      ensures imgs[1..][j].name != imgs[1..][i - 1].name
    {
      assert imgs[1..][j] == imgs[j + 1];
    }
  }

  /** The pass over the first image leaves every image of the group as it was. */
  lemma ImageSurvives(files: Files, dirs: set<Dir>, imgs: seq<Path>, dest: Destination, labels: Dir, img: Path)
    requires Separate(dirs, imgs, dest, labels) && imgs != [] && img in imgs
    ensures var c := CopyOne(files, dirs, imgs[0], dest, labels);
      (img in c.files <==> img in files) && (img in files ==> c.files[img] == files[img])
  {
    CopyOneFrameAt(files, dirs, imgs[0], dest, labels, img);
  }

  /** A successful run is a successful first pass followed by a run over the rest. */
  lemma CopyAllStep(files: Files, dirs: set<Dir>, imgs: seq<Path>, dest: Destination, labels: Dir)
    requires imgs != [] && CopyAll(files, dirs, imgs, dest, labels).ok
    ensures var c := CopyOne(files, dirs, imgs[0], dest, labels);
      c.ok && CopyAll(files, dirs, imgs, dest, labels) == CopyAll(c.files, dirs, imgs[1..], dest, labels)
  {
  }

  /** After a successful run an image target holds the contents of the last
      image of that name (images of one name from different sub-folders
      overwrite each other). */
  lemma {:induction false} CopyAllImageContents(files: Files, dirs: set<Dir>, imgs: seq<Path>, dest: Destination, labels: Dir, i: nat)
    requires Separate(dirs, imgs, dest, labels) && CopyAll(files, dirs, imgs, dest, labels).ok
    requires LastOfItsName(imgs, i)
    ensures var r := CopyAll(files, dirs, imgs, dest, labels).files;
      imgs[i] in files && ImageTarget(imgs[i], dest) in r && r[ImageTarget(imgs[i], dest)] == files[imgs[i]]
    decreases |imgs|
  {
    if i == 0 {
      FirstImageKept(files, dirs, imgs, dest, labels);
    } else {
      var c := CopyOne(files, dirs, imgs[0], dest, labels);
      SeparateTail(dirs, imgs, dest, labels);
      CopyAllStep(files, dirs, imgs, dest, labels);
      LastOfItsNameTail(imgs, i);
      ImageSurvives(files, dirs, imgs, dest, labels, imgs[i]);
      CopyAllImageContents(c.files, dirs, imgs[1..], dest, labels, i - 1);
    }
  }

  /** The first image's target, when no later image shares its name. */
  lemma FirstImageKept(files: Files, dirs: set<Dir>, imgs: seq<Path>, dest: Destination, labels: Dir)
    requires Separate(dirs, imgs, dest, labels) && CopyAll(files, dirs, imgs, dest, labels).ok
    requires LastOfItsName(imgs, 0)
    ensures var r := CopyAll(files, dirs, imgs, dest, labels).files;
      imgs[0] in files && ImageTarget(imgs[0], dest) in r && r[ImageTarget(imgs[0], dest)] == files[imgs[0]]
  {
    var c := CopyOne(files, dirs, imgs[0], dest, labels);
    SeparateTail(dirs, imgs, dest, labels);
    CopyAllStep(files, dirs, imgs, dest, labels);
    CopyOneWrites(files, dirs, imgs[0], dest, labels);
    var it := ImageTarget(imgs[0], dest);
    forall img | img in imgs[1..]
      ensures it != ImageTarget(img, dest) && it != LabelTarget(img, dest)
    {
      var j :| 0 <= j < |imgs[1..]| && imgs[1..][j] == img;
      assert imgs[j + 1] == img;
    }
    CopyAllFrameAt(c.files, dirs, imgs[1..], dest, labels, it);
  }

  /** After a successful run the label target of an image whose annotation
      exists holds that annotation's contents. */
  lemma {:induction false} CopyAllLabelContents(files: Files, dirs: set<Dir>, imgs: seq<Path>, dest: Destination, labels: Dir, img: Path)
    requires Separate(dirs, imgs, dest, labels) && CopyAll(files, dirs, imgs, dest, labels).ok
    requires img in imgs && PathExists(files, dirs, LabelSource(img, labels))
    ensures var r := CopyAll(files, dirs, imgs, dest, labels).files;
      var src := LabelSource(img, labels);
      src in files && LabelTarget(img, dest) in r && r[LabelTarget(img, dest)] == files[src]
    decreases |imgs|
  {
    var c := CopyOne(files, dirs, imgs[0], dest, labels);
    SeparateTail(dirs, imgs, dest, labels);
    CopyAllStep(files, dirs, imgs, dest, labels);
    var src := LabelSource(img, labels);
    if later :| later in imgs[1..] && LabelName(later) == LabelName(img) {
      assert LabelSource(later, labels) == src && LabelTarget(later, dest) == LabelTarget(img, dest);
      LabelSourceSurvives(files, dirs, imgs, dest, labels, img);
      CopyAllLabelContents(c.files, dirs, imgs[1..], dest, labels, later);
    } else {
      HeadOrTail(imgs, img);
      FirstLabelKept(files, dirs, imgs, dest, labels);
    }
  }

  lemma HeadOrTail<T>(s: seq<T>, x: T)
    requires x in s
    ensures x == s[0] || x in s[1..]
  {
    assert s == [s[0]] + s[1..];
  }

  lemma LabelSourceSurvives(files: Files, dirs: set<Dir>, imgs: seq<Path>, dest: Destination, labels: Dir, img: Path)
    requires Separate(dirs, imgs, dest, labels) && imgs != [] && img in imgs
    ensures var c := CopyOne(files, dirs, imgs[0], dest, labels);
      var src := LabelSource(img, labels);
      && PathExists(c.files, dirs, src) == PathExists(files, dirs, src)
      && (src in c.files <==> src in files) && (src in files ==> c.files[src] == files[src])
  {
    CopyOneFrameAt(files, dirs, imgs[0], dest, labels, LabelSource(img, labels));
  }

  /** The first image's annotation, when no later image shares its stem. */
  lemma FirstLabelKept(files: Files, dirs: set<Dir>, imgs: seq<Path>, dest: Destination, labels: Dir)
    requires Separate(dirs, imgs, dest, labels) && CopyAll(files, dirs, imgs, dest, labels).ok
    requires imgs != [] && PathExists(files, dirs, LabelSource(imgs[0], labels))
    requires forall later :: later in imgs[1..] ==> LabelName(later) != LabelName(imgs[0])
    ensures var r := CopyAll(files, dirs, imgs, dest, labels).files;
      var src := LabelSource(imgs[0], labels);
      src in files && LabelTarget(imgs[0], dest) in r && r[LabelTarget(imgs[0], dest)] == files[src]
  {
    var c := CopyOne(files, dirs, imgs[0], dest, labels);
    SeparateTail(dirs, imgs, dest, labels);
    CopyAllStep(files, dirs, imgs, dest, labels);
    CopyOneWrites(files, dirs, imgs[0], dest, labels);
    CopyAllFrameAt(c.files, dirs, imgs[1..], dest, labels, LabelTarget(imgs[0], dest));
  }

  /** Copies only add entries: whatever existed before a run still exists
      after it, whether or not the run succeeds. */
  lemma {:induction false} CopyAllKeepsKeys(files: Files, dirs: set<Dir>, imgs: seq<Path>, dest: Destination, labels: Dir)
    ensures files.Keys <= CopyAll(files, dirs, imgs, dest, labels).files.Keys
    decreases |imgs|
  {
    if imgs != [] {
      var img := imgs[0];
      var c := CopyOne(files, dirs, img, dest, labels);
      CopyEffect(files, dirs, img, ImageTarget(img, dest));
      var f := AfterCopy(files, dirs, img, ImageTarget(img, dest));
      if f.Some? {
        CopyEffect(f.value, dirs, LabelSource(img, labels), LabelTarget(img, dest));
      }
      if c.ok {
        CopyAllKeepsKeys(c.files, dirs, imgs[1..], dest, labels);
      }
    }
  }

  /** The group's copies as r holds them, measured against the files before
      the group was copied: each image target holds the last image of that
      name, and the label target of each image whose annotation exists holds
      that annotation. */
  ghost predicate Delivered(files: Files, dirs: set<Dir>, imgs: seq<Path>, dest: Destination, labels: Dir, r: Files)
  {
    && (forall i :: LastOfItsName(imgs, i) ==>
          imgs[i] in files && ImageTarget(imgs[i], dest) in r && r[ImageTarget(imgs[i], dest)] == files[imgs[i]])
    && (forall img :: img in imgs && PathExists(files, dirs, LabelSource(img, labels)) ==>
          LabelSource(img, labels) in files && LabelTarget(img, dest) in r
          && r[LabelTarget(img, dest)] == files[LabelSource(img, labels)])
  }

  /** A successful group copy delivers the group. */
  lemma CopyAllDelivers(files: Files, dirs: set<Dir>, imgs: seq<Path>, dest: Destination, labels: Dir)
    requires Separate(dirs, imgs, dest, labels) && CopyAll(files, dirs, imgs, dest, labels).ok
    ensures Delivered(files, dirs, imgs, dest, labels, CopyAll(files, dirs, imgs, dest, labels).files)
  {
    forall i | LastOfItsName(imgs, i)
      ensures var r := CopyAll(files, dirs, imgs, dest, labels).files;
        imgs[i] in files && ImageTarget(imgs[i], dest) in r && r[ImageTarget(imgs[i], dest)] == files[imgs[i]]
    {
      CopyAllImageContents(files, dirs, imgs, dest, labels, i);
    }
    forall img | img in imgs && PathExists(files, dirs, LabelSource(img, labels))
      ensures var r := CopyAll(files, dirs, imgs, dest, labels).files;
        LabelSource(img, labels) in files && LabelTarget(img, dest) in r
        && r[LabelTarget(img, dest)] == files[LabelSource(img, labels)]
    {
      CopyAllLabelContents(files, dirs, imgs, dest, labels, img);
    }
  }

  /** Folders of two destinations that have none in common. */
  predicate Apart(d: Destination, e: Destination)
  {
    d.images != e.images && d.images != e.labels && d.labels != e.images && d.labels != e.labels
  }

  /** Copying a later group into other folders keeps what an earlier group delivered. */
  lemma DeliveredKept(files: Files, dirs: set<Dir>, imgs: seq<Path>, dest: Destination, labels: Dir, r: Files,
                      later: seq<Path>, dest': Destination)
    requires Delivered(files, dirs, imgs, dest, labels, r)
    requires Separate(dirs, later, dest', labels) && Apart(dest, dest')
    ensures Delivered(files, dirs, imgs, dest, labels, CopyAll(r, dirs, later, dest', labels).files)
  {
    forall i | LastOfItsName(imgs, i) {
      OutsideDestinationsUnchanged(r, dirs, later, dest', labels, ImageTarget(imgs[i], dest));
    }
    forall img | img in imgs && PathExists(files, dirs, LabelSource(img, labels)) {
      OutsideDestinationsUnchanged(r, dirs, later, dest', labels, LabelTarget(img, dest));
    }
  }

  /** Copying an earlier group into other folders leaves a later group's
      images and annotations as they were, so what the later group delivers
      is measured against the files before both. */
  lemma DeliveredFromEarlier(files: Files, dirs: set<Dir>, first: seq<Path>, dest1: Destination,
                             imgs: seq<Path>, dest: Destination, labels: Dir, r: Files)
    requires Separate(dirs, first, dest1, labels)
    requires forall img :: img in imgs ==> img.parent != dest1.images && img.parent != dest1.labels
    requires Delivered(CopyAll(files, dirs, first, dest1, labels).files, dirs, imgs, dest, labels, r)
    ensures Delivered(files, dirs, imgs, dest, labels, r)
  {
    var f := CopyAll(files, dirs, first, dest1, labels).files;
    forall img | img in imgs
      ensures (img in f <==> img in files) && (img in files ==> f[img] == files[img])
      ensures var src := LabelSource(img, labels);
        (src in f <==> src in files) && (src in files ==> f[src] == files[src])
    {
      OutsideDestinationsUnchanged(files, dirs, first, dest1, labels, img);
      OutsideDestinationsUnchanged(files, dirs, first, dest1, labels, LabelSource(img, labels));
    }
    forall i | LastOfItsName(imgs, i) ensures imgs[i] in imgs {}
  }

  /** Copying an earlier group does not change which annotations of a later
      group exist. */
  lemma LabelsCopiedFromEarlier(files: Files, dirs: set<Dir>, first: seq<Path>, dest1: Destination,
                                imgs: seq<Path>, dest: Destination, labels: Dir)
    requires Separate(dirs, first, dest1, labels)
    ensures LabelsCopied(CopyAll(files, dirs, first, dest1, labels).files, dirs, imgs, dest, labels)
      == LabelsCopied(files, dirs, imgs, dest, labels)
  {
    var f := CopyAll(files, dirs, first, dest1, labels).files;
    forall img | img in imgs
      ensures PathExists(f, dirs, LabelSource(img, labels)) == PathExists(files, dirs, LabelSource(img, labels))
    {
      OutsideDestinationsUnchanged(files, dirs, first, dest1, labels, LabelSource(img, labels));
    }
  }

  /** Lines 72-81: the loop over a group's images. */
  method CopyFiles(fs: FileSystem, imgs: seq<Path>, dest: Destination, labels: Dir) returns (ok: bool)
    requires fs.Valid()
    modifies fs
    ensures fs.Valid() && fs.dirs == old(fs.dirs)
    ensures Copied(fs.files, ok) == CopyAll(old(fs.files), fs.dirs, imgs, dest, labels)
  {
    var i := 0;
    while i < |imgs|
      invariant 0 <= i <= |imgs|
      invariant fs.Valid() && fs.dirs == old(fs.dirs)
      invariant CopyAll(fs.files, fs.dirs, imgs[i..], dest, labels) == CopyAll(old(fs.files), fs.dirs, imgs, dest, labels)
    {
      var img := imgs[i];
      assert imgs[i..][0] == img && imgs[i..][1..] == imgs[i + 1..];
      var txtName := Stem(img.name) + ".txt";
      var txtPath := Path(labels, txtName);
      ok := fs.Copy(img, Path(dest.images, img.name));
      if !ok {
        return;
      }
      if fs.Exists(txtPath) {
        ok := fs.Copy(txtPath, Path(dest.labels, txtName));
        if !ok {
          return;
        }
      }
      i := i + 1;
    }
    ok := true;
  }
}
