/** The script as a whole: check the arguments, create the six output folders,
    select and shuffle the images, count and slice them, and copy each group. */
module SplitDataset {
  import opened Outcomes
  import opened Paths
  import opened Selection
  import opened Ratios
  import opened Slicing
  import opened Shuffling
  import opened Disk
  import opened Copying

  /** The images and labels folders of one group under the working directory. */
  function GroupDest(cwd: Dir, group: string): (d: Destination)
    ensures d.images != d.labels && |d.images| == |d.labels| == |cwd| + 3
  {
    var d := Destination(cwd + ["data", group, "images"], cwd + ["data", group, "labels"]);
    assert d.images[|cwd| + 2] == "images" && d.labels[|cwd| + 2] == "labels";
    d
  }

  function TrainDest(cwd: Dir): Destination { GroupDest(cwd, "train") }
  function ValDest(cwd: Dir): Destination { GroupDest(cwd, "validation") }
  function TestDest(cwd: Dir): Destination { GroupDest(cwd, "test") }

  /** Two groups of different names share no folder. */
  lemma GroupsApart(cwd: Dir, a: string, b: string)
    requires a != b
    ensures Apart(GroupDest(cwd, a), GroupDest(cwd, b))
  {
    var d, e := GroupDest(cwd, a), GroupDest(cwd, b);
    assert d.images[|cwd| + 1] == a && d.labels[|cwd| + 1] == a;
    assert e.images[|cwd| + 1] == b && e.labels[|cwd| + 1] == b;
  }

  /** The train, validation and test folders are six different folders. */
  lemma DestsApart(cwd: Dir)
    ensures Apart(TrainDest(cwd), ValDest(cwd)) && Apart(TrainDest(cwd), TestDest(cwd)) && Apart(ValDest(cwd), TestDest(cwd))
  {
    GroupsApart(cwd, "train", "validation");
    GroupsApart(cwd, "train", "test");
    GroupsApart(cwd, "validation", "test");
  }

  /** Lines 50-52: the folders created, in the order they are created. */
  function OutputDirs(cwd: Dir): (ds: seq<Dir>)
    ensures |ds| == 6 && forall d :: d in ds ==> |d| == |cwd| + 3 && d[..|cwd|] == cwd
  {
    var t, v, s := TrainDest(cwd), ValDest(cwd), TestDest(cwd);
    [t.images, t.labels, v.images, v.labels, s.images, s.labels]
  }

  /** Where the annotations are looked for (line 38). */
  function LabelsDir(dataPath: Dir): Dir
  {
    dataPath + ["labels"]
  }

  /** The folders after a run of os.makedirs calls, and whether none raised. */
  datatype Made = Made(dirs: set<Dir>, ok: bool)

  /** Lines 50-53: makedirs on each folder in turn; the first that raises ends
      the script. */
  function MakeAll(files: Files, dirs: set<Dir>, ds: seq<Dir>): Made
    decreases |ds|
  {
    if ds == [] then Made(dirs, true)
    else
      match AfterMakeDirs(files, dirs, ds[0])
      case None => Made(dirs, false)
      case Some(made) => MakeAll(files, made, ds[1..])
  }

  /** The loop succeeds exactly when no component of any folder is a file;
      then every folder and all of its ancestors exist. It only ever adds
      directories, and only ancestors of the requested ones. */
  lemma {:induction false} MakeAllEffect(files: Files, dirs: set<Dir>, ds: seq<Dir>)
    ensures var m := MakeAll(files, dirs, ds);
      && (m.ok <==> forall d :: d in ds ==> NoFileOnPath(files, d))
      && (m.ok ==> forall d, e :: d in ds && e <= d ==> e in m.dirs)
      && dirs <= m.dirs
      && (forall e :: e in m.dirs ==> e in dirs || exists d :: d in ds && e <= d)
    decreases |ds|
  {
    if ds != [] {
      assert ds == [ds[0]] + ds[1..];
      var r := AfterMakeDirs(files, dirs, ds[0]);
      if r.Some? {
        MakeAllEffect(files, r.value, ds[1..]);
        var m := MakeAll(files, dirs, ds);
        assert m == MakeAll(files, r.value, ds[1..]);
        forall e | e in m.dirs
          ensures e in dirs || exists d :: d in ds && e <= d
        {
          if e !in r.value {
            var d :| d in ds[1..] && e <= d;
            assert d in ds && e <= d;
          } else if e !in dirs {
            assert ds[0] in ds && e <= ds[0];
          }
        }
      }
    }
  }

  /** Lines 50-53, on the file system. */
  method CreateDirs(fs: FileSystem, ds: seq<Dir>) returns (ok: bool)
    requires fs.Valid()
    modifies fs
    ensures fs.Valid() && fs.files == old(fs.files)
    ensures Made(fs.dirs, ok) == MakeAll(fs.files, old(fs.dirs), ds)
  {
    var i := 0;
    while i < |ds|
      invariant 0 <= i <= |ds|
      invariant fs.Valid() && fs.files == old(fs.files)
      invariant MakeAll(fs.files, fs.dirs, ds[i..]) == MakeAll(fs.files, old(fs.dirs), ds)
    {
      assert ds[i..][0] == ds[i] && ds[i..][1..] == ds[i + 1..];
      ok := fs.MakeDirs(ds[i]);
      if !ok {
        return;
      }
      i := i + 1;
    }
    ok := true;
  }

  /** Lines 88-90: the three groups in turn; an exception in one ends the
      script before the next. */
  function CopyGroups(files: Files, dirs: set<Dir>, groups: Groups<Path>, cwd: Dir, labels: Dir): Copied
  {
    var train := CopyAll(files, dirs, groups.train, TrainDest(cwd), labels);
    if !train.ok then train
    else
      var val := CopyAll(train.files, dirs, groups.val, ValDest(cwd), labels);
      if !val.ok then val
      else CopyAll(val.files, dirs, groups.test, TestDest(cwd), labels)
  }

  /** What a completed run computed: the shuffled image list, the counts and
      the three groups. */
  datatype Report = Report(shuffled: seq<Path>, counts: Counts, groups: Groups<Path>)

  /** The result of a run and the file system it leaves behind. */
  datatype Outcome = Outcome(result: Result<Report>, files: Files, dirs: set<Dir>)

  /** The whole script. walk is what rglob yields under the images folder, in
      its order; draws is what the random source yields to the shuffle. */
  function Split(files: Files, dirs: set<Dir>, dataPath: Dir, cwd: Dir, train: real, test: real,
                 walk: seq<Path>, draws: seq<nat>): Outcome
    requires ValidDraws(draws, |SelectImages(walk)|)
  {
    match Validate(dataPath in dirs, train, test)
    case Err(e) => Outcome(Err(e), files, dirs)
    case Ok(shares) =>
      var m := MakeAll(files, dirs, OutputDirs(cwd));
      if !m.ok then Outcome(Err(CannotCreateDirectory), files, m.dirs)
      else SplitImages(files, m.dirs, shares, dataPath, cwd, walk, draws)
  }

  /** Lines 56-90, once the folders exist. */
  function SplitImages(files: Files, dirs: set<Dir>, shares: Shares, dataPath: Dir, cwd: Dir,
                       walk: seq<Path>, draws: seq<nat>): Outcome
    requires ValidDraws(draws, |SelectImages(walk)|)
  {
    var images := SelectImages(walk);
    var shuffled := FisherYates(images, draws, |images|);
    var counts := CountsFor(|images|, shares.train, shares.test);
    var groups := Partition(shuffled, counts.train, counts.val);
    var c := CopyGroups(files, dirs, groups, cwd, LabelsDir(dataPath));
    Outcome(if c.ok then Ok(Report(shuffled, counts, groups)) else Err(CopyFailed), c.files, dirs)
  }

  /** Lines 21-92 on the file system. */
  method Run(fs: FileSystem, dataPath: Dir, cwd: Dir, trainPct: real, testPct: real,
             walk: seq<Path>, draws: seq<nat>) returns (r: Result<Report>)
    requires fs.Valid() && ValidDraws(draws, |SelectImages(walk)|)
    modifies fs
    ensures fs.Valid()
    ensures Outcome(r, fs.files, fs.dirs) == Split(old(fs.files), old(fs.dirs), dataPath, cwd, trainPct, testPct, walk, draws)
  {
    var isDir := fs.IsDir(dataPath);
    var shares := Validate(isDir, trainPct, testPct);
    if shares.Err? {
      return Err(shares.error);
    }
    var made := CreateDirs(fs, OutputDirs(cwd));
    if !made {
      return Err(CannotCreateDirectory);
    }
    r := RunSplit(fs, shares.value, dataPath, cwd, walk, draws);
  }

  /** Lines 56-90 on the file system. */
  method RunSplit(fs: FileSystem, shares: Shares, dataPath: Dir, cwd: Dir, walk: seq<Path>, draws: seq<nat>)
    returns (r: Result<Report>)
    requires fs.Valid() && ValidDraws(draws, |SelectImages(walk)|)
    modifies fs
    ensures fs.Valid()
    ensures Outcome(r, fs.files, fs.dirs) == SplitImages(old(fs.files), old(fs.dirs), shares, dataPath, cwd, walk, draws)
  {
    var images := SelectImages(walk);
    var shuffled := ShuffleImages(images, draws);
    var counts := CountsFor(|shuffled|, shares.train, shares.test);
    var groups := Partition(shuffled, counts.train, counts.val);
    var ok := CopyEachGroup(fs, groups, cwd, LabelsDir(dataPath));
    r := if ok then Ok(Report(shuffled, counts, groups)) else Err(CopyFailed);
  }

  /** Line 61: the image list is put in an array and shuffled in place. */
  method ShuffleImages(images: seq<Path>, draws: seq<nat>) returns (shuffled: seq<Path>)
    requires ValidDraws(draws, |images|)
    ensures shuffled == FisherYates(images, draws, |images|)
    ensures multiset(shuffled) == multiset(images)
  {
    var a := new Path[|images|](k requires 0 <= k < |images| => images[k]);
    assert a[..] == images;
    Shuffle(a, draws);
    shuffled := a[..];
  }

  /** Lines 88-90 on the file system. */
  method CopyEachGroup(fs: FileSystem, groups: Groups<Path>, cwd: Dir, labels: Dir) returns (ok: bool)
    requires fs.Valid()
    modifies fs
    ensures fs.Valid() && fs.dirs == old(fs.dirs)
    ensures Copied(fs.files, ok) == CopyGroups(old(fs.files), fs.dirs, groups, cwd, labels)
  {
    ok := CopyFiles(fs, groups.train, TrainDest(cwd), labels);
    if ok {
      ok := CopyFiles(fs, groups.val, ValDest(cwd), labels);
    }
    if ok {
      ok := CopyFiles(fs, groups.test, TestDest(cwd), labels);
    }
  }

  /** A rejected argument ends the script before it touches the disk, and only
      a rejected argument yields those two errors. */
  lemma RejectedRunChangesNothing(files: Files, dirs: set<Dir>, dataPath: Dir, cwd: Dir, train: real, test: real,
                                  walk: seq<Path>, draws: seq<nat>)
    requires ValidDraws(draws, |SelectImages(walk)|)
    ensures var o := Split(files, dirs, dataPath, cwd, train, test, walk, draws);
      var v := Validate(dataPath in dirs, train, test);
      && (o.result == Err(DirectoryNotFound) || o.result == Err(RatiosTooLarge) <==> v.Err?)
      && (v.Err? ==> o.result == Err(v.error) && o.files == files && o.dirs == dirs)
  {
    var v := Validate(dataPath in dirs, train, test);
    var m := MakeAll(files, dirs, OutputDirs(cwd));
    if v.Ok? && m.ok {
      SplitImagesResult(files, m.dirs, v.value, dataPath, cwd, walk, draws);
    }
  }

  /** Past the checks, a run either completes or fails in a copy. */
  lemma SplitImagesResult(files: Files, dirs: set<Dir>, shares: Shares, dataPath: Dir, cwd: Dir,
                          walk: seq<Path>, draws: seq<nat>)
    requires ValidDraws(draws, |SelectImages(walk)|)
    ensures var r := SplitImages(files, dirs, shares, dataPath, cwd, walk, draws).result;
      r.Ok? || r == Err(CopyFailed)
  {
  }

  /** What a completed run reports: the selected images in the order the
      shuffle leaves them, which is a reordering of them, the counts computed
      from their number, and the slices of the shuffled list by those counts.
      ReportOfSplit states what these are. */
  lemma SplitReport(files: Files, dirs: set<Dir>, dataPath: Dir, cwd: Dir, train: real, test: real,
                    walk: seq<Path>, draws: seq<nat>)
    requires ValidDraws(draws, |SelectImages(walk)|)
    ensures var o := Split(files, dirs, dataPath, cwd, train, test, walk, draws);
      o.result.Ok? ==>
        var rep, images := o.result.value, SelectImages(walk);
        && rep.shuffled == FisherYates(images, draws, |images|)
        && multiset(rep.shuffled) == multiset(images)
        && rep.counts == CountsFor(|images|, train, test)
        && rep.groups == Partition(rep.shuffled, rep.counts.train, rep.counts.val)
        && train + test < 1.0
  {
    var v := Validate(dataPath in dirs, train, test);
    var m := MakeAll(files, dirs, OutputDirs(cwd));
    if v.Ok? && m.ok {
      var images := SelectImages(walk);
      FisherYatesPermutes(images, draws, |images|);
    }
  }

  /** The report's properties, on the image list alone. */
  lemma ReportOfSplit(images: seq<Path>, draws: seq<nat>, train: real, test: real)
    requires ValidDraws(draws, |images|)
    ensures var shuffled := FisherYates(images, draws, |images|);
      var counts := CountsFor(|images|, train, test);
      var g := Partition(shuffled, counts.train, counts.val);
      && multiset(shuffled) == multiset(images)
      && (forall x :: x in images <==> x in g.train || x in g.val || x in g.test)
      && (0.0 <= train && 0.0 <= test && train + test < 1.0 ==>
           && g.train + g.val + g.test == shuffled
           && |g.train| == counts.train && |g.val| == counts.val && |g.test| == counts.test
           && (0 < |images| ==> 0 < |g.val|))
  {
    var shuffled := FisherYates(images, draws, |images|);
    FisherYatesPermutes(images, draws, |images|);
    var counts := CountsFor(|images|, train, test);
    PartitionCovers(shuffled, counts.train, counts.val);
    forall x ensures x in images <==> x in shuffled {
      assert x in images <==> x in multiset(images);
      assert x in shuffled <==> x in multiset(shuffled);
    }
    if 0.0 <= train && 0.0 <= test && train + test < 1.0 {
      CountsInRange(|images|, train, test);
      PartitionIsExact(shuffled, counts.train, counts.val);
    }
  }

  /** rglob yields each path once; then with ratios that are not negative no
      image is copied into two groups. */
  lemma DistinctImagesInOneGroup(files: Files, dirs: set<Dir>, dataPath: Dir, cwd: Dir, train: real, test: real,
                                 walk: seq<Path>, draws: seq<nat>)
    requires ValidDraws(draws, |SelectImages(walk)|)
    requires forall p :: multiset(walk)[p] <= 1
    requires 0.0 <= train && 0.0 <= test
    ensures var o := Split(files, dirs, dataPath, cwd, train, test, walk, draws);
      o.result.Ok? ==>
        var g := o.result.value.groups;
        forall x :: (x in g.train ==> x !in g.val && x !in g.test) && (x in g.val ==> x !in g.test)
  {
    var v := Validate(dataPath in dirs, train, test);
    var m := MakeAll(files, dirs, OutputDirs(cwd));
    if v.Ok? && m.ok {
      var images := SelectImages(walk);
      SelectedOnce(walk);
      var o := SplitImages(files, m.dirs, v.value, dataPath, cwd, walk, draws);
      if o.result.Ok? {
        DisjointGroups(images, draws, train, test, o.result.value.groups);
      }
    }
  }

  /** Selection keeps a path at most as often as the walk has it. */
  lemma SelectedOnce(walk: seq<Path>)
    requires forall p :: multiset(walk)[p] <= 1
    ensures forall p :: multiset(SelectImages(walk))[p] <= 1
  {
  }

  /** The disjointness, on the image list alone. */
  lemma DisjointGroups(images: seq<Path>, draws: seq<nat>, train: real, test: real, g: Groups<Path>)
    requires ValidDraws(draws, |images|)
    requires forall x :: multiset(images)[x] <= 1
    requires 0.0 <= train && 0.0 <= test && train + test < 1.0
    requires var counts := CountsFor(|images|, train, test);
      g == Partition(FisherYates(images, draws, |images|), counts.train, counts.val)
    ensures forall x :: (x in g.train ==> x !in g.val && x !in g.test) && (x in g.val ==> x !in g.test)
  {
    var shuffled := FisherYates(images, draws, |images|);
    FisherYatesPermutes(images, draws, |images|);
    var counts := CountsFor(|images|, train, test);
    CountsInRange(|images|, train, test);
    BlocksDisjoint(shuffled, counts.train, counts.val);
  }

  /** The ratios -0.3 and 0.5 pass the checks on lines 30-32, and on ten images
      the slices of lines 84-86 put the sixth and seventh image into both the
      train and the test group while validation gets none. */
  lemma NegativeRatioCopiesTwice(s: seq<Path>)
    requires |s| == 10
    ensures Validate(true, -0.3, 0.5).Ok?
    ensures var c := CountsFor(10, -0.3, 0.5);
      && c == Counts(-3, 8, 5)
      && var g := Partition(s, c.train, c.val);
         g.train == s[..7] && g.val == [] && g.test == s[5..]
  {
    assert Scaled(10, -0.3) == -3.0;
    assert Scaled(10, 0.5) == 5.0;
  }

  /** The layout the copy lemmas rely on: the output folders have no
      sub-folders, the annotations folder is none of them, and no image lies
      directly in one of them. */
  ghost predicate Layout(dirs: set<Dir>, dataPath: Dir, cwd: Dir, walk: seq<Path>)
  {
    && (forall d :: d in OutputDirs(cwd) ==> Leaf(dirs, d))
    && LabelsDir(dataPath) !in OutputDirs(cwd)
    && forall p :: p in walk ==> p.parent !in OutputDirs(cwd)
  }

  /** makedirs only adds ancestors of the requested folders, so folders
      longer than all of those are the old ones. */
  lemma {:induction false} MakeAllAddsShort(files: Files, dirs: set<Dir>, ds: seq<Dir>, n: nat)
    requires forall d :: d in ds ==> |d| <= n
    ensures forall e :: e in MakeAll(files, dirs, ds).dirs && n < |e| ==> e in dirs
    decreases |ds|
  {
    if ds != [] {
      var r := AfterMakeDirs(files, dirs, ds[0]);
      if r.Some? {
        forall d | d in ds[1..] ensures |d| <= n {
          assert d in ds;
        }
        MakeAllAddsShort(files, r.value, ds[1..], n);
      }
    }
  }

  /** Creating the output folders gives none of them a sub-folder. */
  lemma LeafAfterMakeAll(files: Files, dirs: set<Dir>, cwd: Dir)
    requires forall d :: d in OutputDirs(cwd) ==> Leaf(dirs, d)
    ensures forall d :: d in OutputDirs(cwd) ==> Leaf(MakeAll(files, dirs, OutputDirs(cwd)).dirs, d)
  {
    MakeAllAddsShort(files, dirs, OutputDirs(cwd), |cwd| + 3);
  }

  /** Every image of a group comes from the walk. */
  lemma GroupsFromWalk(walk: seq<Path>, draws: seq<nat>, counts: Counts)
    requires ValidDraws(draws, |SelectImages(walk)|)
    ensures var images := SelectImages(walk);
      var g := Partition(FisherYates(images, draws, |images|), counts.train, counts.val);
      forall x :: x in g.train || x in g.val || x in g.test ==> x in walk
  {
    var images := SelectImages(walk);
    var shuffled := FisherYates(images, draws, |images|);
    FisherYatesPermutes(images, draws, |images|);
    PartitionCovers(shuffled, counts.train, counts.val);
    forall x | x in shuffled ensures x in images {
      assert x in multiset(shuffled);
    }
  }

  /** The layout of the three groups the copy lemmas rely on: the output
      folders have no sub-folders, and neither the annotations folder nor the
      folder of any grouped image is one of them. */
  ghost predicate GroupsLayout(dirs: set<Dir>, groups: Groups<Path>, cwd: Dir, labels: Dir)
  {
    && (forall d :: d in OutputDirs(cwd) ==> Leaf(dirs, d))
    && labels !in OutputDirs(cwd)
    && forall img :: img in groups.train || img in groups.val || img in groups.test ==> img.parent !in OutputDirs(cwd)
  }

  /** Under the group layout each group's copy meets the conditions of the
      copy lemmas, and no later group has an image in an earlier group's folders. */
  lemma LayoutSeparates(dirs: set<Dir>, groups: Groups<Path>, cwd: Dir, labels: Dir)
    requires GroupsLayout(dirs, groups, cwd, labels)
    ensures Separate(dirs, groups.train, TrainDest(cwd), labels)
    ensures Separate(dirs, groups.val, ValDest(cwd), labels)
    ensures Separate(dirs, groups.test, TestDest(cwd), labels)
    ensures forall img :: img in groups.val || img in groups.test ==>
      img.parent != TrainDest(cwd).images && img.parent != TrainDest(cwd).labels
    ensures forall img :: img in groups.test ==> img.parent != ValDest(cwd).images && img.parent != ValDest(cwd).labels
  {
    var ds := OutputDirs(cwd);
    assert ds[0] in ds && ds[1] in ds && ds[2] in ds && ds[3] in ds && ds[4] in ds && ds[5] in ds;
  }

  /** Under the layout, the groups of a run meet the group layout once the
      folders are made. */
  lemma GroupsSeparate(files: Files, dirs: set<Dir>, dataPath: Dir, cwd: Dir, walk: seq<Path>, draws: seq<nat>,
                       counts: Counts)
    requires ValidDraws(draws, |SelectImages(walk)|) && Layout(dirs, dataPath, cwd, walk)
    ensures var made := MakeAll(files, dirs, OutputDirs(cwd)).dirs;
      var images := SelectImages(walk);
      var g := Partition(FisherYates(images, draws, |images|), counts.train, counts.val);
      GroupsLayout(made, g, cwd, LabelsDir(dataPath))
  {
    LeafAfterMakeAll(files, dirs, cwd);
    GroupsFromWalk(walk, draws, counts);
  }

  /** The three group copies write only into the six output folders. */
  lemma CopyGroupsFrame(files: Files, dirs: set<Dir>, groups: Groups<Path>, cwd: Dir, labels: Dir, p: Path)
    requires Separate(dirs, groups.train, TrainDest(cwd), labels)
    requires Separate(dirs, groups.val, ValDest(cwd), labels)
    requires Separate(dirs, groups.test, TestDest(cwd), labels)
    requires p.parent !in OutputDirs(cwd)
    ensures var r := CopyGroups(files, dirs, groups, cwd, labels).files;
      (p in r <==> p in files) && (p in files ==> r[p] == files[p])
  {
    var train := CopyAll(files, dirs, groups.train, TrainDest(cwd), labels);
    OutsideDestinationsUnchanged(files, dirs, groups.train, TrainDest(cwd), labels, p);
    var val := CopyAll(train.files, dirs, groups.val, ValDest(cwd), labels);
    OutsideDestinationsUnchanged(train.files, dirs, groups.val, ValDest(cwd), labels, p);
    OutsideDestinationsUnchanged(val.files, dirs, groups.test, TestDest(cwd), labels, p);
  }

  /** After three successful group copies the files are the old ones plus,
      for each group, one image target per image and one label target per
      image whose annotation existed before the run. */
  lemma CopyGroupsTargets(files: Files, dirs: set<Dir>, groups: Groups<Path>, cwd: Dir, labels: Dir)
    requires GroupsLayout(dirs, groups, cwd, labels) && CopyGroups(files, dirs, groups, cwd, labels).ok
    ensures var r := CopyGroups(files, dirs, groups, cwd, labels).files;
      r.Keys == files.Keys
        + ImageTargets(groups.train, TrainDest(cwd)) + LabelsCopied(files, dirs, groups.train, TrainDest(cwd), labels)
        + ImageTargets(groups.val, ValDest(cwd)) + LabelsCopied(files, dirs, groups.val, ValDest(cwd), labels)
        + ImageTargets(groups.test, TestDest(cwd)) + LabelsCopied(files, dirs, groups.test, TestDest(cwd), labels)
  {
    var td, vd, sd := TrainDest(cwd), ValDest(cwd), TestDest(cwd);
    LayoutSeparates(dirs, groups, cwd, labels);
    var train := CopyAll(files, dirs, groups.train, td, labels);
    var val := CopyAll(train.files, dirs, groups.val, vd, labels);
    CopyAllTargets(files, dirs, groups.train, td, labels);
    CopyAllTargets(train.files, dirs, groups.val, vd, labels);
    CopyAllTargets(val.files, dirs, groups.test, sd, labels);
    LabelsCopiedFromEarlier(files, dirs, groups.train, td, groups.val, vd, labels);
    LabelsCopiedFromEarlier(files, dirs, groups.train, td, groups.test, sd, labels);
    LabelsCopiedFromEarlier(train.files, dirs, groups.val, vd, groups.test, sd, labels);
  }

  /** After three successful group copies every group is delivered, measured
      against the files before the run: later groups do not overwrite an
      earlier group's folders, and earlier groups do not change a later
      group's images or annotations. */
  lemma CopyGroupsContents(files: Files, dirs: set<Dir>, groups: Groups<Path>, cwd: Dir, labels: Dir)
    requires GroupsLayout(dirs, groups, cwd, labels) && CopyGroups(files, dirs, groups, cwd, labels).ok
    ensures var r := CopyGroups(files, dirs, groups, cwd, labels).files;
      && Delivered(files, dirs, groups.train, TrainDest(cwd), labels, r)
      && Delivered(files, dirs, groups.val, ValDest(cwd), labels, r)
      && Delivered(files, dirs, groups.test, TestDest(cwd), labels, r)
  {
    var td, vd, sd := TrainDest(cwd), ValDest(cwd), TestDest(cwd);
    LayoutSeparates(dirs, groups, cwd, labels);
    DestsApart(cwd);
    var train := CopyAll(files, dirs, groups.train, td, labels);
    var val := CopyAll(train.files, dirs, groups.val, vd, labels);
    var test := CopyAll(val.files, dirs, groups.test, sd, labels);
    CopyAllDelivers(files, dirs, groups.train, td, labels);
    DeliveredKept(files, dirs, groups.train, td, labels, train.files, groups.val, vd);
    DeliveredKept(files, dirs, groups.train, td, labels, val.files, groups.test, sd);
    CopyAllDelivers(train.files, dirs, groups.val, vd, labels);
    DeliveredKept(train.files, dirs, groups.val, vd, labels, val.files, groups.test, sd);
    DeliveredFromEarlier(files, dirs, groups.train, td, groups.val, vd, labels, test.files);
    CopyAllDelivers(val.files, dirs, groups.test, sd, labels);
    DeliveredFromEarlier(train.files, dirs, groups.val, vd, groups.test, sd, labels, test.files);
    DeliveredFromEarlier(files, dirs, groups.train, td, groups.test, sd, labels, test.files);
  }

  /** Under the layout, whatever happens, no file outside the six output
      folders is created, removed or changed. */
  lemma SplitLeavesOtherFilesAlone(files: Files, dirs: set<Dir>, dataPath: Dir, cwd: Dir, train: real, test: real,
                                   walk: seq<Path>, draws: seq<nat>, p: Path)
    requires ValidDraws(draws, |SelectImages(walk)|) && Layout(dirs, dataPath, cwd, walk)
    requires p.parent !in OutputDirs(cwd)
    ensures var o := Split(files, dirs, dataPath, cwd, train, test, walk, draws);
      (p in o.files <==> p in files) && (p in files ==> o.files[p] == files[p])
  {
    var v := Validate(dataPath in dirs, train, test);
    var m := MakeAll(files, dirs, OutputDirs(cwd));
    if v.Ok? && m.ok {
      var images := SelectImages(walk);
      var counts := CountsFor(|images|, v.value.train, v.value.test);
      var groups := Partition(FisherYates(images, draws, |images|), counts.train, counts.val);
      GroupsSeparate(files, dirs, dataPath, cwd, walk, draws, counts);
      LayoutSeparates(m.dirs, groups, cwd, LabelsDir(dataPath));
      CopyGroupsFrame(files, m.dirs, groups, cwd, LabelsDir(dataPath), p);
    }
  }

  /** Under the layout, a completed run has added to the files exactly one
      copy of each grouped image, under its own name in its group's images
      folder, and one copy of each existing annotation in its group's labels
      folder; each image copy holds the last image of that name in the group
      and each annotation copy the annotation, as they were before the run. */
  lemma SplitCopiesEveryImage(files: Files, dirs: set<Dir>, dataPath: Dir, cwd: Dir, train: real, test: real,
                              walk: seq<Path>, draws: seq<nat>)
    requires ValidDraws(draws, |SelectImages(walk)|) && Layout(dirs, dataPath, cwd, walk)
    ensures var o := Split(files, dirs, dataPath, cwd, train, test, walk, draws);
      o.result.Ok? ==>
        var g, made, labels := o.result.value.groups, MakeAll(files, dirs, OutputDirs(cwd)).dirs, LabelsDir(dataPath);
        && o.files.Keys == files.Keys
             + ImageTargets(g.train, TrainDest(cwd)) + LabelsCopied(files, made, g.train, TrainDest(cwd), labels)
             + ImageTargets(g.val, ValDest(cwd)) + LabelsCopied(files, made, g.val, ValDest(cwd), labels)
             + ImageTargets(g.test, TestDest(cwd)) + LabelsCopied(files, made, g.test, TestDest(cwd), labels)
        && Delivered(files, made, g.train, TrainDest(cwd), labels, o.files)
        && Delivered(files, made, g.val, ValDest(cwd), labels, o.files)
        && Delivered(files, made, g.test, TestDest(cwd), labels, o.files)
  {
    var v := Validate(dataPath in dirs, train, test);
    var m := MakeAll(files, dirs, OutputDirs(cwd));
    if v.Ok? && m.ok {
      var images := SelectImages(walk);
      var counts := CountsFor(|images|, v.value.train, v.value.test);
      var groups := Partition(FisherYates(images, draws, |images|), counts.train, counts.val);
      GroupsSeparate(files, dirs, dataPath, cwd, walk, draws, counts);
      if CopyGroups(files, m.dirs, groups, cwd, LabelsDir(dataPath)).ok {
        CopyGroupsTargets(files, m.dirs, groups, cwd, LabelsDir(dataPath));
        CopyGroupsContents(files, m.dirs, groups, cwd, LabelsDir(dataPath));
      }
    }
  }
}
