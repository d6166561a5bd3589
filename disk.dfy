/** The part of the file system the script touches: regular files with their
    contents and directories, with shutil.copy, os.makedirs, os.path.exists and
    os.path.isdir over them. */
module Disk {
  import opened Outcomes
  import opened Paths

  type Files = map<Path, seq<bv8>>

  /** The directory a path names when it is one. */
  function AsDir(p: Path): Dir
  {
    p.parent + [p.name]
  }

  /** A consistent file system: the root exists, every directory's parent
      exists, every file's directory exists and no path is both a file and a
      directory. */
  ghost predicate WellFormed(files: Files, dirs: set<Dir>)
  {
    && [] in dirs
    && (forall d :: d in dirs && d != [] ==> d[..|d| - 1] in dirs)
    && (forall p :: p in files ==> p.parent in dirs && AsDir(p) !in dirs)
  }

  /** os.path.exists: a file or a directory is there. */
  predicate PathExists(files: Files, dirs: set<Dir>, p: Path)
  {
    p in files || AsDir(p) in dirs
  }

  /** shutil.copy writes into dst, or, when dst names a directory, into a file
      of the source's name inside it. */
  function CopyTarget(dirs: set<Dir>, src: Path, dst: Path): Path
  {
    if AsDir(dst) in dirs then Path(AsDir(dst), src.name) else dst
  }

  /** shutil.copy(src, dst): the target gets the source's contents. It fails
      (the exception of the script) when the source is not a regular file, the
      target's directory is missing, the target is a directory, or source and
      target are the same file. */
  function AfterCopy(files: Files, dirs: set<Dir>, src: Path, dst: Path): Option<Files>
  {
    var t := CopyTarget(dirs, src, dst);
    if src in files && t.parent in dirs && AsDir(t) !in dirs && t != src then Some(files[t := files[src]])
    else None
  }

  /** What shutil.copy does: it succeeds exactly when the source is a regular
      file, the target's directory exists, the target is not a directory and
      not the source; then the target, and nothing else, is written, with the
      source's contents. */
  lemma CopyEffect(files: Files, dirs: set<Dir>, src: Path, dst: Path)
    ensures var r := AfterCopy(files, dirs, src, dst);
      var t := CopyTarget(dirs, src, dst);
      && (r.Some? <==> src in files && t.parent in dirs && AsDir(t) !in dirs && t != src)
      && (r.Some? ==>
        && r.value.Keys == files.Keys + {t}
        && r.value[t] == files[src]
        && forall p :: p in files && p != t ==> r.value[p] == files[p])
  {
  }

  /** No component of d is an existing file. */
  predicate NoFileOnPath(files: Files, d: Dir)
  {
    forall k :: 0 <= k < |d| ==> Path(d[..k], d[k]) !in files
  }

  /** os.makedirs(d, exist_ok=True): d and all of its ancestors are
      directories afterwards; it fails when one of them is a file. */
  function AfterMakeDirs(files: Files, dirs: set<Dir>, d: Dir): (r: Option<set<Dir>>)
    ensures r.Some? <==> NoFileOnPath(files, d)
    ensures r.Some? ==> forall e :: e in r.value <==> e in dirs || e <= d
  {
    if NoFileOnPath(files, d) then
      PrefixesAre(d);
      Some(dirs + Prefixes(d))
    else None
  }

  /** d and all of its ancestors, up to the root. */
  function Prefixes(d: Dir): set<Dir>
  {
    set k | 0 <= k <= |d| :: d[..k]
  }

  lemma PrefixesAre(d: Dir)
    ensures forall e :: e in Prefixes(d) <==> e <= d
  {
    forall e | e <= d
      ensures e in Prefixes(d)
    {
      assert e == d[..|e|];
    }
  }

  /** Copying keeps the file system consistent. */
  lemma CopyKeepsWellFormed(files: Files, dirs: set<Dir>, src: Path, dst: Path)
    requires WellFormed(files, dirs) && AfterCopy(files, dirs, src, dst).Some?
    ensures WellFormed(AfterCopy(files, dirs, src, dst).value, dirs)
  {
  }

  /** Creating directories keeps the file system consistent. */
  lemma MakeDirsKeepsWellFormed(files: Files, dirs: set<Dir>, d: Dir)
    requires WellFormed(files, dirs) && AfterMakeDirs(files, dirs, d).Some?
    ensures WellFormed(files, AfterMakeDirs(files, dirs, d).value)
  {
    var made := AfterMakeDirs(files, dirs, d).value;
    forall e | e in made && e != []
      ensures e[..|e| - 1] in made
    {
      if e !in dirs {
        assert e <= d;
        assert e[..|e| - 1] <= d;
      }
    }
    forall p | p in files
      ensures AsDir(p) !in made
    {
      if AsDir(p) <= d {
        OnPath(p, d);
        assert false;
      }
    }
  }

  /** A path whose directory form is an ancestor of d is one of d's components. */
  lemma OnPath(p: Path, d: Dir)
    requires AsDir(p) <= d
    ensures |p.parent| < |d| && Path(d[..|p.parent|], d[|p.parent|]) == p
  {
    assert AsDir(p)[..|p.parent|] == p.parent;
  }

  /** The file system the script runs against. */
  class FileSystem {
    var files: Files
    var dirs: set<Dir>

    ghost predicate Valid()
      reads this
    {
      WellFormed(files, dirs)
    }

    /** os.path.isdir */
    predicate IsDir(d: Dir)
      reads this
    {
      d in dirs
    }

    /** os.path.exists */
    predicate Exists(p: Path)
      reads this
    {
      PathExists(files, dirs, p)
    }

    /** shutil.copy; ok is false where it raises, and then nothing changes. */
    method Copy(src: Path, dst: Path) returns (ok: bool)
      requires Valid()
      modifies this
      ensures Valid() && dirs == old(dirs)
      ensures ok == AfterCopy(old(files), dirs, src, dst).Some?
      ensures files == if ok then AfterCopy(old(files), dirs, src, dst).value else old(files)
    {
      var r := AfterCopy(files, dirs, src, dst);
      ok := r.Some?;
      if ok {
        CopyKeepsWellFormed(files, dirs, src, dst);
        files := r.value;
      }
    }

    /** os.makedirs(d, exist_ok=True); ok is false where it raises, and then
        nothing changes (the ancestors it would have created before the
        conflicting file already exist). */
    method MakeDirs(d: Dir) returns (ok: bool)
      requires Valid()
      modifies this
      ensures Valid() && files == old(files)
      ensures ok == AfterMakeDirs(files, old(dirs), d).Some?
      ensures dirs == if ok then AfterMakeDirs(files, old(dirs), d).value else old(dirs)
    {
      var r := AfterMakeDirs(files, dirs, d);
      ok := r.Some?;
      if ok {
        MakeDirsKeepsWellFormed(files, dirs, d);
        dirs := r.value;
      }
    }
  }
}
