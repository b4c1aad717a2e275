/**
 The part of a directory tree and its os calls that removals use. A calm disk refuses
 a call only for a reason the tree itself gives; any other may also fail at will.
 */
module Disk {
  import opened Wrappers
  import opened Text
  import opened Failure
  import opened Paths

  type Content = Str

  type Files = map<Path, Content>

  type Dirs = set<Path>

  function Parent(p: Path): Path { if p == [] then [] else p[..|p| - 1] }

  /** Every file and directory lies in a directory. */
  ghost predicate Tree(files: Files, dirs: Dirs)
  {
    && [] in dirs && files.Keys !! dirs
    && (forall p | p in files :: Parent(p) in dirs)
    && forall p | p in dirs :: Parent(p) in dirs
  }

  predicate HasChild(files: Files, dirs: Dirs, d: Path)
  {
    (exists p | p in files :: Parent(p) == d) || (exists p | p in dirs :: p != [] && Parent(p) == d)
  }

  predicate Exists(files: Files, dirs: Dirs, p: Path) { p in files || p in dirs }

  /** A file stands where the path needs a directory. */
  predicate Blocked(files: Files, p: Path) { exists k | 0 <= k < |p| :: p[..k] in files }

  /** Whatever is above something that exists is a directory. */
  lemma {:induction false} AncestorIsDir(files: Files, dirs: Dirs, p: Path, q: Path)
    requires Tree(files, dirs) && Exists(files, dirs, p) && q < p
    ensures q in dirs
    decreases |p|
  {
    var up := Parent(p);
    assert up in dirs;
    if q != up {
      assert q == p[..|q|] == up[..|q|];
      AncestorIsDir(files, dirs, up, q);
    }
  }

  lemma NotBlocked(files: Files, dirs: Dirs, p: Path)
    requires Tree(files, dirs) && Exists(files, dirs, p)
    ensures !Blocked(files, p)
  {
    forall k | 0 <= k < |p| ensures p[..k] !in files {
      AncestorIsDir(files, dirs, p, p[..k]);
    }
  }

  /** Nothing in the tree stops a file from being at p: no directory there, no file above. */
  predicate Reachable(files: Files, dirs: Dirs, p: Path) { p !in dirs && !Blocked(files, p) }

  lemma StillReachable(files: Files, dirs: Dirs, files': Files, dirs': Dirs, p: Path)
    requires Reachable(files, dirs, p) && files'.Keys <= files.Keys && dirs' <= dirs
    ensures Reachable(files', dirs', p)
  {
  }

  lemma ParentUnblocked(files: Files, p: Path)
    requires p != [] && !Blocked(files, p)
    ensures Parent(p) !in files && !Blocked(files, Parent(p))
  {
    assert Parent(p) == p[..|p| - 1];
    forall k | 0 <= k < |p| - 1 ensures Parent(p)[..k] !in files {
      assert Parent(p)[..k] == p[..k];
    }
  }

  /** There is room for all of these files at once: each can be put in place, and none lies inside another. */
  ghost predicate Room(files: Files, dirs: Dirs, paths: set<Path>)
  {
    (forall p | p in paths :: Reachable(files, dirs, p)) && forall p, q | p in paths && q in paths :: !(p < q)
  }

  /** Putting one of them in place leaves room for all. */
  lemma RoomStays(files: Files, dirs: Dirs, paths: set<Path>, p: Path, files': Files, dirs': Dirs)
    requires Room(files, dirs, paths) && p in paths
    requires files'.Keys <= files.Keys + {p} && forall d | d in dirs' && d !in dirs :: d < p
    ensures Room(files', dirs', paths)
  {
    forall q | q in paths ensures Reachable(files', dirs', q) {
      assert Reachable(files, dirs, q) && !(q < p) && !(p < q);
      forall k | 0 <= k < |q| ensures q[..k] !in files' {
        assert q[..k] != p;
      }
    }
  }

  lemma RoomShrinks(files: Files, dirs: Dirs, paths: set<Path>, files': Files, dirs': Dirs)
    requires Room(files, dirs, paths) && files'.Keys <= files.Keys && dirs' <= dirs
    ensures Room(files', dirs', paths)
  {
    forall q | q in paths ensures Reachable(files', dirs', q) {
      StillReachable(files, dirs, files', dirs', q);
    }
  }

  lemma SidecarParent(path: Path)
    ensures Parent(LrcSidecar(path)) == Parent(path) && LrcSidecar(path) != []
  {
    hide LastDot;
  }

  datatype Removal = Removed | NotExist | Refused(error: Err)

  class FileSystem {
    const calm: bool
    var files: Files
    var dirs: Dirs
    ghost var refusals: nat // calls that have failed

    ghost predicate Valid()
      reads this
    {
      Tree(files, dirs)
    }

    constructor (files: Files, dirs: Dirs, calm: bool)
      requires Tree(files, dirs)
      ensures Valid() && this.files == files && this.dirs == dirs && this.calm == calm
    {
      this.files, this.dirs, this.calm := files, dirs, calm;
      this.refusals := 0;
    }

    /** Any call on a disk that is not calm may fail. */
    method Fails() returns (fails: bool)
      ensures calm ==> !fails
    {
      fails := *;
      if calm {
        fails := false;
      }
    }

    /** os.Lstat, reporting whether the name exists. */
    method Lstat(p: Path) returns (r: Result<bool, Err>)
      modifies this`refusals
      ensures refusals == old(refusals) + if r.Err? then 1 else 0
      ensures r.Ok? ==> (r.value <==> Exists(files, dirs, p))
      ensures Blocked(files, p) && !Exists(files, dirs, p) ==> r.Err?
      ensures calm && (Exists(files, dirs, p) || !Blocked(files, p)) ==> r.Ok?
    {
      var fails := Fails();
      if fails {
        refusals := refusals + 1;
        return Err(Leaf(Other(2)));
      }
      if Exists(files, dirs, p) {
        return Ok(true);
      }
      if Blocked(files, p) {
        refusals := refusals + 1;
        return Err(Leaf(Other(3)));
      }
      return Ok(false);
    }

    /** os.Remove: a file, or a directory with nothing in it. */
    method Remove(p: Path) returns (r: Removal)
      requires Valid()
      modifies this
      ensures Valid()
      ensures refusals == old(refusals) + if r.Refused? then 1 else 0
      ensures r.Removed? ==> Exists(old(files), old(dirs), p) && files == old(files) - {p} && dirs == old(dirs) - {p}
      ensures r.Removed? && p in old(dirs) ==> !HasChild(old(files), old(dirs), p)
      ensures !r.Removed? ==> files == old(files) && dirs == old(dirs)
      ensures r.NotExist? ==> !Exists(files, dirs, p) && !Blocked(files, p)
      ensures r.Refused? && calm ==> p == [] || Blocked(files, p) || (p in dirs && HasChild(files, dirs, p))
    {
      var fails := Fails();
      if fails {
        refusals := refusals + 1;
        return Refused(Leaf(Other(2)));
      }
      if p in files {
        files := files - {p};
        assert dirs - {p} == dirs;
        return Removed;
      }
      if p in dirs {
        if p == [] || HasChild(files, dirs, p) {
          refusals := refusals + 1;
          return Refused(Leaf(Other(4)));
        }
        assert forall q | q in files :: Parent(q) != p;
        assert forall q | q in dirs && q != [] :: Parent(q) != p;
        dirs := dirs - {p};
        assert files - {p} == files;
        return Removed;
      }
      if Blocked(files, p) {
        refusals := refusals + 1;
        return Refused(Leaf(Other(3)));
      }
      return NotExist;
    }

    /** os.ReadDir, reporting whether the directory is empty. */
    method ReadDir(p: Path) returns (r: Result<bool, Err>)
      modifies this`refusals
      ensures refusals == old(refusals) + if r.Err? then 1 else 0
      ensures r.Ok? ==> p in dirs && (r.value <==> !HasChild(files, dirs, p))
      ensures calm && p in dirs ==> r.Ok?
    {
      var fails := Fails();
      if fails || p !in dirs {
        refusals := refusals + 1;
        return Err(Leaf(Other(5)));
      }
      return Ok(!HasChild(files, dirs, p));
    }

    /** os.MkdirAll; on an error some of the missing ancestors may have been made. */
    method MkdirAll(dir: Path) returns (err: Option<Err>)
      requires Valid()
      modifies this`dirs, this`refusals
      ensures Valid()
      ensures refusals == old(refusals) + if err.Some? then 1 else 0
      ensures old(dirs) <= dirs && forall d | d in dirs && d !in old(dirs) :: d <= dir
      ensures err.None? ==> dir in dirs
      ensures calm && dir !in files && !Blocked(files, dir) ==> err.None?
    {
      for k := 0 to |dir| + 1
        invariant Valid() && refusals == old(refusals)
        invariant old(dirs) <= dirs && forall d | d in dirs && d !in old(dirs) :: d <= dir
        invariant k > 0 ==> dir[..k - 1] in dirs
      {
        var fails := Fails();
        if fails {
          refusals := refusals + 1;
          return Some(Leaf(Other(2)));
        }
        var d := dir[..k];
        if d in files {
          assert k == |dir| ==> d == dir;
          refusals := refusals + 1;
          return Some(Leaf(Other(3)));
        }
        assert k > 0 ==> Parent(d) == dir[..k - 1];
        dirs := dirs + {d};
      }
      assert dir[..|dir|] == dir;
      return None;
    }

    /** A complete file is put in place at p, in a directory that is there. */
    method Leave(p: Path, content: Content) returns (ok: bool)
      requires Valid()
      modifies this`files, this`refusals
      ensures Valid()
      ensures refusals == old(refusals) + if ok then 0 else 1
      ensures ok ==> Parent(p) in dirs && p !in dirs
      ensures files == if ok then old(files)[p := content] else old(files)
      ensures calm && Parent(p) in dirs && p !in dirs ==> ok
    {
      var fails := Fails();
      if fails || p in dirs || Parent(p) !in dirs {
        refusals := refusals + 1;
        return false;
      }
      files := files[p := content];
      return true;
    }

    /** os.Rename of a file, replacing a file at dest. */
    method Rename(src: Path, dest: Path) returns (err: Option<Err>)
      requires Valid()
      modifies this`files, this`refusals
      ensures Valid()
      ensures refusals == old(refusals) + if err.Some? then 1 else 0
      ensures err.Some? ==> files == old(files)
      ensures err.None? ==> src in old(files) && files == (old(files) - {src})[dest := old(files)[src]]
      ensures calm && src in old(files) && dest != [] && Parent(dest) in dirs && dest !in dirs ==> err.None?
    {
      var fails := Fails();
      if fails {
        refusals := refusals + 1;
        return Some(Leaf(Other(2)));
      }
      if src !in files || Parent(dest) !in dirs || dest in dirs {
        refusals := refusals + 1;
        return Some(Leaf(Other(6)));
      }
      files := (files - {src})[dest := files[src]];
      return None;
    }
  }
}
