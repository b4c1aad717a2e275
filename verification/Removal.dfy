/** Reconciling the library with the favorites (internal/sync/removal.go). */
module Removal {
  import opened Wrappers
  import opened Text
  import opened Failure
  import opened Paths
  import opened Disk
  import opened Tracks
  import opened Sorting
  import opened Enumerate
  import opened Snapshot

  datatype Policy = Keep | Mirror | Trash | Unknown

  const TRASH: Str := Ascii(".trash")

  function TrashRoot(music: Path): Path { music + [TRASH] }

  predicate UnderTrash(music: Path, p: Path) { TrashRoot(music) <= p }

  /** <music>/.trash/<rel> for a path below the music root. */
  function Slot(music: Path, p: Path): Path
    requires music <= p
  {
    TrashRoot(music) + p[|music|..]
  }

  lemma SlotInjective(music: Path, a: Path, b: Path)
    requires music <= a && music <= b && Slot(music, a) == Slot(music, b)
    ensures a == b
  {
    assert a == music + Slot(music, a)[|music| + 1..];
    assert b == music + Slot(music, b)[|music| + 1..];
  }

  /** The files a removal of this recorded path acts on: the audio file and, inside the root, its sidecar. */
  function Targets(music: Path, path: Path): set<Path>
  {
    {path} + if WithinMusic(music, LrcSidecar(path)) then {LrcSidecar(path)} else {}
  }

  /** The recorded path of id, if applyPolicy would act on it. */
  function Recorded(rows: Table, music: Path, id: Id): Option<Path>
  {
    if id in rows && rows[id].path.Some? && WithinMusic(music, rows[id].path.value) then rows[id].path else None
  }

  predicate CleanRows(rows: Table) { forall id | id in rows && rows[id].path.Some? :: Clean(rows[id].path.value) }

  // ----- Mirror: files only disappear -----

  ghost predicate Deleted(before: Files, after: Files, targets: set<Path>)
  {
    && (forall p | p in after :: p in before && after[p] == before[p])
    && forall p | p in before && p !in after :: p in targets
  }

  // ----- Trash: files only move to their slots -----

  predicate Trashable(music: Path, p: Path) { music <= p && !UnderTrash(music, p) }

  /** p is the slot of a target that has been moved, and holds it now. */
  ghost predicate SlotTaken(music: Path, before: Files, after: Files, targets: set<Path>, p: Path)
  {
    exists t | t in targets && t in before && t !in after ::
      Trashable(music, t) && p == Slot(music, t) && p in after && after[p] == before[t]
  }

  /** Each old file is where it was, or in its slot, or stood in a slot that was taken; and nothing else is there. */
  ghost predicate Relocated(music: Path, before: Files, after: Files, targets: set<Path>)
  {
    && (forall p | p in before :: FileKept(music, before, after, targets, p))
    && forall p | p in after :: (p in before && after[p] == before[p]) || SlotTaken(music, before, after, targets, p)
  }

  ghost predicate FileKept(music: Path, before: Files, after: Files, targets: set<Path>, p: Path)
    requires p in before
  {
    || (p in after && after[p] == before[p])
    || (p in targets && Trashable(music, p) && p !in after
          && Slot(music, p) in after && after[Slot(music, p)] == before[p])
    || SlotTaken(music, before, after, targets, p)
  }

  lemma SlotUnderTrash(music: Path, p: Path)
    requires music <= p
    ensures UnderTrash(music, Slot(music, p))
  {
  }

  /** A slot once taken stays taken while another target moves. */
  lemma TakenStays(music: Path, before: Files, middle: Files, targets: set<Path>, t: Path, p: Path)
    requires SlotTaken(music, before, middle, targets, p) && Trashable(music, t) && t in middle && p != Slot(music, t)
    ensures SlotTaken(music, before, (middle - {t})[Slot(music, t) := middle[t]], targets + {t}, p)
  {
    var u :| u in targets && u in before && u !in middle
      && Trashable(music, u) && p == Slot(music, u) && p in middle && middle[p] == before[u];
    SlotUnderTrash(music, t);
    SlotUnderTrash(music, u);
    assert u in targets + {t};
  }

  /** Moving one more target to its slot. */
  lemma RelocateMore(music: Path, before: Files, middle: Files, targets: set<Path>, t: Path)
    requires Relocated(music, before, middle, targets) && Trashable(music, t) && t in middle
    ensures Relocated(music, before, (middle - {t})[Slot(music, t) := middle[t]], targets + {t})
  {
    hide UnderTrash;
    var slot := Slot(music, t);
    var after := (middle - {t})[slot := middle[t]];
    SlotUnderTrash(music, t);
    assert t in before && middle[t] == before[t] by {
      forall u | u in targets && u in before && Trashable(music, u) ensures t != Slot(music, u) {
        SlotUnderTrash(music, u);
      }
    }
    assert SlotTaken(music, before, after, targets + {t}, slot) by {
      assert t in targets + {t};
    }
    forall p | p in before ensures FileKept(music, before, after, targets + {t}, p) {
      RelocateOld(music, before, middle, targets, t, p);
    }
    forall p | p in after && p != slot && !(p in before && after[p] == before[p])
      ensures SlotTaken(music, before, after, targets + {t}, p)
    {
      TakenStays(music, before, middle, targets, t, p);
    }
  }

  lemma RelocateOld(music: Path, before: Files, middle: Files, targets: set<Path>, t: Path, p: Path)
    requires Relocated(music, before, middle, targets) && Trashable(music, t) && t in middle && p in before
    requires t in before && middle[t] == before[t]
    requires SlotTaken(music, before, (middle - {t})[Slot(music, t) := middle[t]], targets + {t}, Slot(music, t))
    ensures FileKept(music, before, (middle - {t})[Slot(music, t) := middle[t]], targets + {t}, p)
  {
    hide UnderTrash, SlotTaken;
    var slot := Slot(music, t);
    SlotUnderTrash(music, t);
    assert FileKept(music, before, middle, targets, p);
    if p != slot {
      if SlotTaken(music, before, middle, targets, p) {
        TakenStays(music, before, middle, targets, t, p);
      } else if !(p in middle && middle[p] == before[p]) {
        SlotUnderTrash(music, p);
        if Slot(music, p) == slot {
          SlotInjective(music, p, t);
        }
      }
    }
  }

  lemma RelocatedMore(music: Path, before: Files, after: Files, targets: set<Path>, more: set<Path>)
    requires Relocated(music, before, after, targets) && targets <= more
    ensures Relocated(music, before, after, more)
  {
    hide UnderTrash;
    forall p | SlotTaken(music, before, after, targets, p) ensures SlotTaken(music, before, after, more, p) {
      var u :| u in targets && u in before && u !in after
        && Trashable(music, u) && p == Slot(music, u) && p in after && after[p] == before[u];
      assert u in more;
    }
    forall p | p in before ensures FileKept(music, before, after, more, p) {
      assert FileKept(music, before, after, targets, p);
    }
  }

  // ----- Whole passes -----

  function TargetsOf(rows: Table, music: Path, id: Id): set<Path>
  {
    var path := Recorded(rows, music, id);
    if path.Some? then Targets(music, path.value) else {}
  }

  function AllTargets(rows: Table, music: Path, ids: seq<Id>): set<Path>
  {
    if ids == [] then {} else AllTargets(rows, music, ids[..|ids| - 1]) + TargetsOf(rows, music, ids[|ids| - 1])
  }

  /** No recorded path of these ids lies in the trash folder. */
  ghost predicate OutsideTrash(rows: Table, music: Path, ids: seq<Id>)
  {
    forall i | 0 <= i < |ids| && Recorded(rows, music, ids[i]).Some? ::
      Trashable(music, Recorded(rows, music, ids[i]).value)
  }

  /** What a pass over ids may do to files. */
  ghost predicate PassFiles(policy: Policy, rows: Table, music: Path, ids: seq<Id>, before: Files, after: Files)
  {
    match policy
    case Mirror => Deleted(before, after, AllTargets(rows, music, ids))
    case Trash => OutsideTrash(rows, music, ids) ==> Relocated(music, before, after, AllTargets(rows, music, ids))
    case _ => after == before
  }

  ghost predicate NoneExist(files: Files, dirs: Dirs, targets: set<Path>)
  {
    forall t | t in targets :: !Exists(files, dirs, t)
  }

  /** None of the targets is left where it was recorded; the trash folder holds what was moved there. */
  ghost predicate GoneOutside(music: Path, files: Files, dirs: Dirs, targets: set<Path>)
  {
    forall t | t in targets && !UnderTrash(music, t) :: !Exists(files, dirs, t)
  }

  /** Nothing is left to do for id: there never was anything to remove, or the file and its sidecar are gone. */
  ghost predicate Discharged(policy: Policy, rows: Table, music: Path, files: Files, dirs: Dirs, id: Id)
  {
    match policy
    case Mirror => NoneExist(files, dirs, TargetsOf(rows, music, id))
    case Trash => GoneOutside(music, files, dirs, TargetsOf(rows, music, id))
    case _ => true
  }

  lemma DeletedMore(before: Files, middle: Files, after: Files, targets: set<Path>, more: set<Path>)
    requires Deleted(before, middle, targets) && Deleted(middle, after, more)
    ensures Deleted(before, after, targets + more)
  {
    forall p | p in before && p !in after ensures p in targets + more {
      assert p in middle ==> p in more;
    }
  }

  lemma SidecarClean(path: Path)
    requires Clean(path)
    ensures Clean(LrcSidecar(path))
  {
    if path != [] {
      var base := path[|path| - 1];
      var side := base[..LastDot(base)] + LRC;
      assert Name(base);
      assert side[|side| - 1] == LRC[3];
      assert SLASH !in LRC;
      assert forall b | b in base[..LastDot(base)] :: b in base;
    } else {
      assert SLASH !in LRC && LRC[1] == 108;
    }
  }

  lemma UnderTrashByName(music: Path, p: Path)
    requires music <= p
    ensures UnderTrash(music, p) <==> |p| > |music| && p[|music|] == TRASH
  {
    if |p| > |music| && p[|music|] == TRASH {
      assert p[..|music| + 1] == TrashRoot(music);
    }
  }

  lemma SidecarIsNotTrash(base: Str)
    ensures base[..LastDot(base)] + LRC != TRASH && LRC != TRASH
  {
    var side := base[..LastDot(base)] + LRC;
    assert side[|side| - 1] == LRC[3] == 99;
    assert TRASH[5] == 104 && |TRASH| == 6 && |LRC| == 4;
  }

  /** A sidecar inside the root is outside the trash when its audio file is. */
  lemma SidecarTrashable(music: Path, path: Path)
    requires Clean(path) && Trashable(music, path)
    ensures forall t | t in Targets(music, path) :: Clean(t) && Trashable(music, t)
  {
    hide Clean, WithinMusic, UnderTrash, LastDot;
    var lrc := LrcSidecar(path);
    SidecarClean(path);
    WithinExactly(music, lrc);
    UnderTrashByName(music, path);
    if music <= lrc {
      UnderTrashByName(music, lrc);
      SidecarIsNotTrash(if path == [] then [] else path[|path| - 1]);
      var n := |music|;
      assert n + 1 < |path| ==> lrc[n] == path[n];
    }
  }

  predicate CanTrash(files: Files, dirs: Dirs, music: Path, src: Path)
    requires music <= src
  {
    Reachable(files, dirs, src) && Reachable(files, dirs, Slot(music, src))
  }

  /** Directories only disappeared, and only on the way from dir up to, not including, the root. */
  ghost predicate PrunedChain(before: Dirs, after: Dirs, music: Path, dir: Path)
  {
    after <= before && forall d | d in before && d !in after :: music < d <= dir
  }

  /** No empty directory is left on that way. */
  ghost predicate NothingEmpty(files: Files, dirs: Dirs, music: Path, dir: Path)
  {
    forall d | d in dirs && music < d <= dir :: HasChild(files, dirs, d)
  }

  /** What removals are to leave no empty directory in: strictly below the root, and, when trashing,
    outside the trash. */
  predicate Watched(policy: Policy, music: Path, d: Path) { music < d && (policy.Trash? ==> !UnderTrash(music, d)) }

  /** No directory has been emptied and left, and whatever has gone has taken the empty ones above it along. */
  ghost predicate TidyStep(policy: Policy, music: Path, files: Files, dirs: Dirs, files': Files, dirs': Dirs)
  {
    && (forall d | d in dirs' && Watched(policy, music, d) && !HasChild(files', dirs', d) ::
          d in dirs && !HasChild(files, dirs, d))
    && forall d | d in dirs && d !in dirs' && Watched(policy, music, d) :: NothingEmpty(files', dirs', music, d)
  }

  lemma NothingEmptyStays(
    policy: Policy, music: Path, files: Files, dirs: Dirs, files': Files, dirs': Dirs, dir: Path)
    requires TidyStep(policy, music, files, dirs, files', dirs')
    requires NothingEmpty(files, dirs, music, dir) && (policy.Trash? ==> !UnderTrash(music, dir))
    ensures NothingEmpty(files', dirs', music, dir)
  {
    hide HasChild;
  }

  lemma TidyOn(
    policy: Policy, music: Path, files: Files, dirs: Dirs, files': Files, dirs': Dirs, files'': Files, dirs'': Dirs)
    requires TidyStep(policy, music, files, dirs, files', dirs')
    requires TidyStep(policy, music, files', dirs', files'', dirs'')
    ensures TidyStep(policy, music, files, dirs, files'', dirs'')
  {
    hide HasChild, NothingEmpty, UnderTrash;
    forall d | d in dirs && d !in dirs'' && Watched(policy, music, d)
      ensures NothingEmpty(files'', dirs'', music, d)
    {
      if d !in dirs' {
        NothingEmptyStays(policy, music, files', dirs', files'', dirs'', d);
      }
    }
  }

  /** Nothing that is watched goes or comes. */
  lemma TidySame(policy: Policy, music: Path, files: Files, dirs: Dirs, files': Files, dirs': Dirs)
    requires Tree(files, dirs) && forall p | Exists(files, dirs, p) :: Exists(files', dirs', p)
    requires forall d | Watched(policy, music, d) :: d in dirs' <==> d in dirs
    ensures TidyStep(policy, music, files, dirs, files', dirs')
  {
    hide UnderTrash;
    forall d | d in dirs' && Watched(policy, music, d) && HasChild(files, dirs, d) ensures HasChild(files', dirs', d) {
      ChildStays(files, dirs, files', dirs', d);
    }
  }

  lemma ChildStays(files: Files, dirs: Dirs, files': Files, dirs': Dirs, d: Path)
    requires HasChild(files, dirs, d)
    requires forall p | Exists(files, dirs, p) && p != [] && Parent(p) == d :: Exists(files', dirs', p)
    requires Tree(files, dirs)
    ensures HasChild(files', dirs', d)
  {
    var p :| Exists(files, dirs, p) && p != [] && Parent(p) == d;
    assert Exists(files', dirs', p);
  }

  /** What goes lies in dir, or is a directory on the way up from it, and none of those is left empty. */
  lemma TidyTake(policy: Policy, music: Path, files: Files, dirs: Dirs, files': Files, dirs': Dirs, dir: Path)
    requires Tree(files, dirs) && NothingEmpty(files', dirs', music, dir)
    requires forall p | Exists(files, dirs, p) && !Exists(files', dirs', p) :: Parent(p) == dir || music < p <= dir
    requires forall d | Watched(policy, music, d) :: (d in dirs' ==> d in dirs) && (d in dirs ==> d !in files')
    ensures TidyStep(policy, music, files, dirs, files', dirs')
  {
    hide UnderTrash, HasChild;
    forall d | d in dirs' && Watched(policy, music, d) && HasChild(files, dirs, d) ensures HasChild(files', dirs', d) {
      if !(d <= dir) {
        forall p | Exists(files, dirs, p) && p != [] && Parent(p) == d ensures Exists(files', dirs', p) {
          ParentAbove(p, dir);
        }
        ChildStays(files, dirs, files', dirs', d);
      }
    }
    forall d | d in dirs && d !in dirs' && Watched(policy, music, d)
      ensures NothingEmpty(files', dirs', music, d)
    {
      assert Parent(d) == dir || music < d <= dir;
      forall e | e in dirs' && music < e <= d ensures HasChild(files', dirs', e) {
        AboveParent(e, d);
      }
    }
  }

  lemma ParentAbove(p: Path, dir: Path)
    ensures p <= dir ==> Parent(p) <= dir
  {
  }

  lemma AboveParent(e: Path, d: Path)
    ensures e <= d ==> e == d || e <= Parent(d)
  {
  }

  /** A track's files have gone, and the directories above with them as far as they were empty. */
  lemma TookTrack(
    policy: Policy, music: Path, files: Files, dirs: Dirs, files': Files, dirs': Dirs, path: Path)
    requires Tree(files, dirs) && Parent(path) in dirs && NothingEmpty(files', dirs', music, Parent(path))
    requires forall p | Exists(files, dirs, p) && !Exists(files', dirs', p) ::
      p == path || p == LrcSidecar(path) || music < p <= Parent(path)
    requires forall d | Watched(policy, music, d) :: (d in dirs' ==> d in dirs) && (d in dirs ==> d !in files')
    ensures TidyStep(policy, music, files, dirs, files', dirs')
  {
    hide Tree, LrcSidecar, NothingEmpty, Watched, Exists, TidyStep;
    SidecarParent(path);
    TidyTake(policy, music, files, dirs, files', dirs', Parent(path));
  }

  /** While the sidecar stands nothing above it is empty. */
  lemma LrcStands(music: Path, files: Files, dirs: Dirs, path: Path)
    requires Tree(files, dirs) && Parent(path) in dirs
    requires Exists(files, dirs, LrcSidecar(path)) || Blocked(files, LrcSidecar(path))
    ensures NothingEmpty(files, dirs, music, Parent(path))
  {
    hide LrcSidecar;
    var lrc, dir := LrcSidecar(path), Parent(path);
    SidecarParent(path);
    NotBlocked(files, dirs, dir);
    assert Blocked(files, lrc) ==> dir in files || Blocked(files, dir) by {
      ParentUnblockedConverse(files, lrc);
    }
    ChildrenAbove(files, dirs, dir);
    assert HasChild(files, dirs, dir);
  }

  lemma ParentUnblockedConverse(files: Files, p: Path)
    requires p != []
    ensures Blocked(files, p) ==> Parent(p) in files || Blocked(files, Parent(p))
  {
    if k :| 0 <= k < |p| && p[..k] in files {
      if k < |p| - 1 {
        assert Parent(p)[..k] == p[..k];
      }
    }
  }

  /** The walk has cleared everything from dir down to below current. */
  ghost predicate Walked(before: Dirs, dirs: Dirs, music: Path, dir: Path, current: Path)
  {
    && current <= dir && (music <= dir ==> music <= current)
    && (dir in before ==> current in dirs && forall d | d in dirs && d <= dir :: d <= current)
  }

  lemma WalkStarts(before: Dirs, music: Path, dir: Path)
    ensures PrunedChain(before, before, music, dir) && Walked(before, before, music, dir, dir)
  {
  }

  lemma WalkOn(before: Dirs, dirs: Dirs, less: Dirs, music: Path, dir: Path, current: Path)
    requires PrunedChain(before, dirs, music, dir) && Walked(before, dirs, music, dir, current)
    requires less == dirs - {current} && music <= current != music && Clean(current) && Parent(current) in dirs
    ensures PrunedChain(before, less, music, dir) && Walked(before, less, music, dir, Parent(current))
    ensures Clean(Parent(current)) && |Parent(current)| < |current|
  {
    forall d | d in less && d <= dir && dir in before ensures d <= Parent(current) {
      assert d == current[..|d|] && d != current;
    }
  }

  lemma DirFacts(files: Files, dirs: Dirs, d: Path)
    requires Tree(files, dirs) && d in dirs
    ensures !Blocked(files, d) && Parent(d) in dirs && files - {d} == files
  {
    NotBlocked(files, dirs, d);
  }

  lemma WalkStops(before: Dirs, files: Files, dirs: Dirs, music: Path, dir: Path, current: Path)
    requires Tree(files, dirs) && Walked(before, dirs, music, dir, current)
    ensures dir in before ==> current in dirs
    ensures dir in before && HasChild(files, dirs, current) ==> NothingEmpty(files, dirs, music, dir)
  {
    ChildrenAbove(files, dirs, current);
  }

  lemma WalkEnds(before: Dirs, files: Files, dirs: Dirs, music: Path, dir: Path, current: Path)
    requires Walked(before, dirs, music, dir, current)
    requires current == music || !(music <= current)
    ensures dir in before ==> NothingEmpty(files, dirs, music, dir)
  {
    hide HasChild;
    if dir in before && music <= dir {
      assert forall d | d in dirs && d <= dir :: |d| <= |music|;
    }
  }

  /**
   An id whose removal was handled has left no empty directory, strictly below the root, on
   the way to its recorded file; moves into the trash folder make no such promise there.
   */
  ghost predicate Tidied(
    policy: Policy, rows: Table, music: Path, before: Dirs, files: Files, dirs: Dirs, id: Id)
  {
    var path := Recorded(rows, music, id);
    (policy.Mirror? || policy.Trash?) && path.Some? && Parent(path.value) in before ==>
      (policy.Trash? ==> !UnderTrash(music, Parent(path.value))) ==>
      forall d | d in dirs && music < d <= Parent(path.value) :: HasChild(files, dirs, d)
  }

  lemma MirrorNothing(policy: Policy, music: Path, files: Files, dirs: Dirs)
    requires Tree(files, dirs)
    ensures TidyStep(policy, music, files, dirs, files, dirs)
  {
    hide TidyStep, Watched;
    TidySame(policy, music, files, dirs, files, dirs);
  }

  /** The audio file went, but its sidecar would not. */
  lemma MirrorHalf(policy: Policy, music: Path, files: Files, dirs: Dirs, files': Files, dirs': Dirs, path: Path)
    requires Tree(files, dirs) && Tree(files', dirs') && files' == files - {path} && dirs' == dirs - {path}
    requires !Reachable(files', dirs', LrcSidecar(path))
    ensures TidyStep(policy, music, files, dirs, files', dirs')
  {
    hide TidyStep, NothingEmpty, LrcSidecar, Blocked, Watched;
    assert path != [];
    if Parent(path) in dirs {
      ParentShorter(path);
      LrcStands(music, files', dirs', path);
      WatchedLess(policy, music, files, dirs, files', dirs');
      TookTrack(policy, music, files, dirs, files', dirs', path);
    } else {
      assert files' == files && dirs' == dirs;
      MirrorNothing(policy, music, files, dirs);
    }
  }

  lemma ParentShorter(p: Path)
    requires p != []
    ensures Parent(p) != p
  {
  }

  lemma WatchedLess(policy: Policy, music: Path, files: Files, dirs: Dirs, files': Files, dirs': Dirs)
    requires Tree(files, dirs) && files'.Keys <= files.Keys && dirs' <= dirs
    ensures forall d | Watched(policy, music, d) :: (d in dirs' ==> d in dirs) && (d in dirs ==> d !in files')
  {
  }

  /** Both have gone, and the walk is done. */
  lemma MirrorTidy(
    policy: Policy, music: Path, files: Files, dirs: Dirs, middle: Dirs, files': Files, dirs': Dirs, path: Path)
    requires Tree(files, dirs) && Tree(files', middle) && files'.Keys <= files.Keys && middle <= dirs
    requires forall p | Exists(files, dirs, p) && !Exists(files', middle, p) :: p == path || p == LrcSidecar(path)
    requires PrunedChain(middle, dirs', music, Parent(path))
    requires Parent(path) !in middle ==> dirs' == middle
    requires Parent(path) in middle ==> NothingEmpty(files', dirs', music, Parent(path))
    ensures Parent(path) in dirs ==> NothingEmpty(files', dirs', music, Parent(path))
    ensures TidyStep(policy, music, files, dirs, files', dirs')
  {
    hide TidyStep, NothingEmpty, LrcSidecar, Watched;
    SidecarParent(path);
    WatchedLess(policy, music, files, dirs, files', dirs');
    if Parent(path) in dirs {
      ParentKept(files, dirs, files', middle, path);
      TookTrack(policy, music, files, dirs, files', dirs', path);
    } else {
      NoneThere(files, dirs, path);
      assert forall p | Exists(files, dirs, p) :: Exists(files', dirs', p);
      assert Parent(path) !in middle && forall d | d in dirs :: Exists(files, dirs, d) && d !in files';
      TidySame(policy, music, files, dirs, files', dirs');
    }
  }

  lemma ParentKept(files: Files, dirs: Dirs, files': Files, dirs': Dirs, path: Path)
    requires Tree(files, dirs) && Tree(files', dirs') && files'.Keys <= files.Keys && Parent(path) in dirs
    requires forall p | Exists(files, dirs, p) && !Exists(files', dirs', p) :: p == path || p == LrcSidecar(path)
    ensures Parent(path) in dirs'
  {
    hide LrcSidecar;
    SidecarParent(path);
    if path != [] {
      ParentShorter(path);
    }
    ParentShorter(LrcSidecar(path));
    assert Exists(files, dirs, Parent(path)) && Parent(path) !in files';
    assert Exists(files', dirs', Parent(path));
  }

  /** Without its directory there is no track and no sidecar. */
  lemma NoneThere(files: Files, dirs: Dirs, path: Path)
    requires Tree(files, dirs) && Parent(path) !in dirs
    ensures !Exists(files, dirs, path) && !Exists(files, dirs, LrcSidecar(path))
  {
    hide LrcSidecar;
    SidecarParent(path);
  }

  /** Files go only from path and its sidecar, and nothing comes but in the trash folder. */
  ghost predicate TrashMoves(music: Path, files: Files, dirs: Dirs, files': Files, dirs': Dirs, path: Path)
  {
    && dirs <= dirs' && (forall d | d in dirs' && d !in dirs :: UnderTrash(music, d))
    && (forall p | p in files && p !in files' :: p == path || p == LrcSidecar(path))
    && forall p | p in files' && p !in files :: UnderTrash(music, p)
  }

  lemma TrashMovesOne(
    music: Path, files: Files, dirs: Dirs, files': Files, dirs': Dirs, path: Path, src: Path, moved: bool)
    requires music <= src && MovedOrSame(music, files, files', src, moved) && (src == path || src == LrcSidecar(path))
    requires dirs <= dirs' && forall d | d in dirs' && d !in dirs :: UnderTrash(music, d)
    ensures TrashMoves(music, files, dirs, files', dirs', path)
  {
    hide LrcSidecar, UnderTrash;
    SlotUnderTrash(music, src);
  }

  lemma TrashMovesOn(
    music: Path, files: Files, dirs: Dirs, files': Files, dirs': Dirs, files'': Files, dirs'': Dirs, path: Path)
    requires TrashMoves(music, files, dirs, files', dirs', path)
    requires TrashMoves(music, files', dirs', files'', dirs'', path)
    ensures TrashMoves(music, files, dirs, files'', dirs'', path)
  {
    hide LrcSidecar, UnderTrash;
  }

  lemma WatchedMoves(music: Path, files: Files, dirs: Dirs, files': Files, dirs': Dirs, less: Dirs, path: Path)
    requires Tree(files, dirs) && TrashMoves(music, files, dirs, files', dirs', path) && less <= dirs'
    ensures forall d | Watched(Trash, music, d) :: (d in less ==> d in dirs) && (d in dirs ==> d !in files')
  {
    hide LrcSidecar, UnderTrash;
  }

  /** A move failed with the files of the track untouched, or with its sidecar still there. */
  lemma TrashHalf(music: Path, files: Files, dirs: Dirs, files': Files, dirs': Dirs, path: Path)
    requires Tree(files, dirs) && Tree(files', dirs') && TrashMoves(music, files, dirs, files', dirs', path)
    requires files' == files || Exists(files', dirs', LrcSidecar(path)) || Blocked(files', LrcSidecar(path))
    ensures TidyStep(Trash, music, files, dirs, files', dirs')
  {
    hide TidyStep, NothingEmpty, LrcSidecar, Blocked, UnderTrash;
    WatchedMoves(music, files, dirs, files', dirs', dirs', path);
    if Parent(path) in dirs && files' != files {
      LrcStands(music, files', dirs', path);
      TookTrack(Trash, music, files, dirs, files', dirs', path);
    } else {
      if Parent(path) !in dirs {
        NoneThere(files, dirs, path);
      }
      TidySame(Trash, music, files, dirs, files', dirs');
    }
  }

  /** Moves of a track's files to their slots, on top of those of a pass. */
  ghost predicate TrashedSoFar(
    music: Path, path: Path, before: Files, done: set<Path>, files: Files, dirs: Dirs, files': Files, dirs': Dirs)
    requires music <= path
  {
    && Footprint(music, Targets(music, path), files, dirs, files', dirs')
    && TrashMoves(music, files, dirs, files', dirs', path)
    && OnlyTrashGrows(music, files, dirs, files', dirs')
    && (Relocated(music, before, files, done) && Trashable(music, path) ==>
          Relocated(music, before, files', done + Targets(music, path)))
  }

  /** Without the track's directory nothing moves. */
  ghost predicate IdleWithout(path: Path, files: Files, dirs: Dirs, files': Files, dirs': Dirs)
  {
    Parent(path) !in dirs ==> files' == files && dirs' == dirs
  }

  lemma TrashStarts(music: Path, path: Path, before: Files, done: set<Path>, files: Files, dirs: Dirs)
    requires music <= path
    ensures TrashedSoFar(music, path, before, done, files, dirs, files, dirs)
    ensures IdleWithout(path, files, dirs, files, dirs)
  {
    hide UnderTrash, LrcSidecar, WithinMusic, Relocated, Targets;
    if Relocated(music, before, files, done) {
      RelocatedMore(music, before, files, done, done + Targets(music, path));
    }
  }

  lemma TrashOneMore(
    music: Path, path: Path, before: Files, done: set<Path>, files: Files, dirs: Dirs,
    files': Files, dirs': Dirs, files'': Files, dirs'': Dirs, src: Path, r: Result<bool, Err>)
    requires Clean(path) && music <= path && (src == path || (src == LrcSidecar(path) && WithinMusic(music, src)))
    requires TrashedSoFar(music, path, before, done, files, dirs, files', dirs') && music <= src
    requires MovedOrSame(music, files', files'', src, r == Ok(true)) && dirs' <= dirs''
    requires OnlyTrashGrows(music, files', dirs', files'', dirs'')
    requires forall d | d in dirs'' && d !in dirs' :: UnderTrash(music, d) && d <= Parent(Slot(music, src))
    requires Tree(files, dirs) && (r == Ok(false) ==> dirs'' == dirs')
    ensures TrashedSoFar(music, path, before, done, files, dirs, files'', dirs'')
    ensures r.Ok? && IdleWithout(path, files, dirs, files', dirs') ==> IdleWithout(path, files, dirs, files'', dirs'')
    ensures !UnderTrash(music, path) && !Exists(files', dirs', path) ==> !Exists(files'', dirs'', path)
  {
    hide UnderTrash, LrcSidecar, WithinMusic, Relocated, Footprint, TrashMoves, Clean, Tree;
    if Parent(path) !in dirs {
      NoneThere(files, dirs, path);
    }
    var targets, moved := Targets(music, path), r == Ok(true);
    FootprintOne(music, targets, files', dirs', files'', dirs'', src, moved);
    FootprintOn(music, targets, files, dirs, files', dirs', files'', dirs'');
    TrashMovesOne(music, files', dirs', files'', dirs'', path, src, moved);
    TrashMovesOn(music, files, dirs, files', dirs', files'', dirs'', path);
    if r.Ok? && r.value {
      assert r == Ok(true);
    } else if r.Ok? {
      assert r == Ok(false);
    }
    assert !UnderTrash(music, path) && !Exists(files', dirs', path) ==> !Exists(files'', dirs'', path);
    if Relocated(music, before, files, done) && Trashable(music, path) {
      SidecarTrashable(music, path);
      RelocateStep(music, before, files', files'', done + targets, src, moved);
    }
  }

  /** The second of the moves, or the first, failed. */
  lemma TrashStops(
    music: Path, path: Path, before: Files, done: set<Path>, files: Files, dirs: Dirs,
    files': Files, files'': Files, dirs'': Dirs, src: Path)
    requires music <= path && music <= src && (files' == files || src == LrcSidecar(path))
    requires TrashedSoFar(music, path, before, done, files, dirs, files'', dirs'')
    requires MovedOrSame(music, files', files'', src, false)
    requires Tree(files, dirs) && Tree(files'', dirs'')
    ensures TrashedSoFar(music, path, before, done, files, dirs, files'', dirs'')
    ensures Footprint(music, Targets(music, path), files, dirs, files'', dirs'')
    ensures OnlyTrashGrows(music, files, dirs, files'', dirs'')
    ensures Relocated(music, before, files, done) && Trashable(music, path) ==>
      Relocated(music, before, files'', done + Targets(music, path))
    ensures dirs <= dirs''
    ensures Exists(files'', dirs'', src) || Blocked(files'', src) ==>
      TidyStep(Trash, music, files, dirs, files'', dirs'')
  {
    hide UnderTrash, LrcSidecar, WithinMusic, Relocated, Footprint, Tree, Blocked, TidyStep, Targets, OnlyTrashGrows;
    if Exists(files'', dirs'', src) || Blocked(files'', src) {
      TrashHalf(music, files, dirs, files'', dirs'', path);
    }
  }

  lemma TargetsGone(music: Path, path: Path, files: Files, dirs: Dirs)
    requires !UnderTrash(music, path) ==> !Exists(files, dirs, path)
    requires WithinMusic(music, LrcSidecar(path)) && !UnderTrash(music, LrcSidecar(path)) ==>
      !Exists(files, dirs, LrcSidecar(path))
    ensures forall less: Dirs | less <= dirs :: GoneOutside(music, files, less, Targets(music, path))
  {
    hide UnderTrash, LrcSidecar, WithinMusic;
  }

  lemma TrashEnds(
    music: Path, path: Path, before: Files, done: set<Path>, files: Files, dirs: Dirs,
    files': Files, middle: Dirs, dirs': Dirs, calm: bool)
    requires music <= path && TrashedSoFar(music, path, before, done, files, dirs, files', middle)
    requires Tree(files, dirs) && PrunedChain(middle, dirs', music, Parent(path))
    requires Parent(path) !in middle ==> dirs' == middle
    requires calm && Parent(path) in middle ==> NothingEmpty(files', dirs', music, Parent(path))
    requires IdleWithout(path, files, dirs, files', middle)
    ensures Footprint(music, Targets(music, path), files, dirs, files', dirs')
    ensures OnlyTrashGrows(music, files, dirs, files', dirs')
    ensures forall d | d in dirs && d !in dirs' :: music < d <= path
    ensures Relocated(music, before, files, done) && Trashable(music, path) ==>
      Relocated(music, before, files', done + Targets(music, path))
    ensures calm && Parent(path) in dirs ==> NothingEmpty(files', dirs', music, Parent(path))
    ensures calm ==> TidyStep(Trash, music, files, dirs, files', dirs')
  {
    hide UnderTrash, LrcSidecar, WithinMusic, Relocated, Tree, TidyStep, Targets, NothingEmpty, Footprint;
    FootprintLess(music, Targets(music, path), files, dirs, files', middle, dirs');
    if calm {
      TrashTidy(music, files, dirs, files', middle, dirs', path);
    }
  }

  /** Both moves done, and the walk. */
  lemma TrashTidy(music: Path, files: Files, dirs: Dirs, files': Files, middle: Dirs, dirs': Dirs, path: Path)
    requires Tree(files, dirs) && TrashMoves(music, files, dirs, files', middle, path)
    requires PrunedChain(middle, dirs', music, Parent(path))
    requires Parent(path) in middle ==> NothingEmpty(files', dirs', music, Parent(path))
    requires Parent(path) !in dirs ==> files' == files && dirs' == dirs
    ensures Parent(path) in dirs ==> NothingEmpty(files', dirs', music, Parent(path))
    ensures TidyStep(Trash, music, files, dirs, files', dirs')
  {
    hide TidyStep, NothingEmpty, LrcSidecar, UnderTrash;
    WatchedMoves(music, files, dirs, files', middle, dirs', path);
    if Parent(path) in dirs {
      TookTrack(Trash, music, files, dirs, files', dirs', path);
    } else {
      MirrorNothing(Trash, music, files, dirs);
    }
  }

  class Remover {
    const disk: FileSystem
    const rows: Table
    const music: Path
    const policy: Policy

    constructor (disk: FileSystem, rows: Table, music: Path, policy: Policy)
      ensures this.disk == disk && this.rows == rows && this.music == music && this.policy == policy
    {
      this.disk, this.rows, this.music, this.policy := disk, rows, music, policy;
    }

    method RemovePath(path: Path) returns (r: Result<bool, Err>)
      requires disk.Valid()
      modifies disk
      ensures disk.Valid()
      ensures r.Ok? ==> disk.files == old(disk.files) - {path} && disk.dirs == old(disk.dirs) - {path}
      ensures r.Ok? ==> (r.value <==> Exists(old(disk.files), old(disk.dirs), path))
      ensures r.Err? ==> disk.files == old(disk.files) && disk.dirs == old(disk.dirs)
      ensures disk.calm && Reachable(old(disk.files), old(disk.dirs), path) ==> r.Ok?
    {
      var removed := disk.Remove(path);
      match removed
      case Removed => return Ok(true);
      case NotExist => return Ok(false);
      case Refused(e) => return Err(Wrap(e));
    }

    /**
     Removes empty directories from dir upwards, strictly below the root. That the disk
     is still a tree afterwards means every directory removed was empty.
     */
    method PruneEmptyDirs(dir: Path)
      requires disk.Valid() && Clean(dir)
      modifies disk
      ensures disk.Valid() && disk.files == old(disk.files)
      ensures PrunedChain(old(disk.dirs), disk.dirs, music, dir)
      ensures dir !in old(disk.dirs) ==> disk.dirs == old(disk.dirs)
      ensures disk.calm && dir in old(disk.dirs) ==> NothingEmpty(disk.files, disk.dirs, music, dir)
    {
      hide WithinMusic, HasChild, Clean, PrunedChain, NothingEmpty, Walked, Blocked, Tree;
      ghost var before := disk.dirs;
      var current := dir;
      WalkStarts(before, music, dir);
      WithinExactly(music, current);
      while current != music && WithinMusic(music, current)
        invariant disk.Valid() && disk.files == old(disk.files)
        invariant PrunedChain(before, disk.dirs, music, dir)
        invariant Walked(before, disk.dirs, music, dir, current)
        invariant dir !in before ==> disk.dirs == before && current == dir
        invariant Clean(current) && (WithinMusic(music, current) <==> music <= current)
        decreases |current|
      {
        var empty := disk.ReadDir(current);
        if empty.Err? || !empty.value {
          WalkStops(before, disk.files, disk.dirs, music, dir, current);
          return;
        }
        ghost var dirs := disk.dirs;
        DirFacts(disk.files, dirs, current);
        var removed := disk.Remove(current);
        if !removed.Removed? {
          return;
        }
        WalkOn(before, dirs, disk.dirs, music, dir, current);
        current := Parent(current);
        WithinExactly(music, current);
      }
      WalkEnds(before, disk.files, disk.dirs, music, dir, current);
    }

    /** Either src ends up in its slot, replacing what stood there, or no file moves at all. */
    method MoveToTrash(src: Path) returns (r: Result<bool, Err>)
      requires disk.Valid() && Clean(src) && Clean(music) && music <= src
      modifies disk
      ensures disk.Valid() && old(disk.dirs) <= disk.dirs
      ensures forall d | d in disk.dirs && d !in old(disk.dirs) :: UnderTrash(music, d) && d <= Parent(Slot(music, src))
      ensures MovedOrSame(music, old(disk.files), disk.files, src, r == Ok(true))
      ensures OnlyTrashGrows(music, old(disk.files), old(disk.dirs), disk.files, disk.dirs)
      ensures r.Ok? && !UnderTrash(music, src) ==> !Exists(disk.files, disk.dirs, src)
      ensures r == Ok(false) ==> !Exists(disk.files, disk.dirs, src) && disk.dirs == old(disk.dirs)
      ensures disk.calm && r.Err? ==> Exists(disk.files, disk.dirs, src) || Blocked(disk.files, src)
      ensures r.Ok? <==> disk.refusals == old(disk.refusals)
      ensures disk.calm && CanTrash(old(disk.files), old(disk.dirs), music, src) ==> r.Ok?
    {
      hide HasChild, Blocked, CleanFrom, Rel, UnderTrash;
      SlotUnderTrash(music, src);
      var found := disk.Lstat(src);
      if found.Err? {
        return Err(Wrap(found.error));
      }
      if !found.value {
        return Ok(false);
      }
      var dest := CleanFrom([], music + [TRASH] + Rel(music, src));
      SlotIsJoin(music, src);
      assert dest == Slot(music, src);
      RootIsDir(disk.files, disk.dirs, music, src);
      if !Blocked(disk.files, dest) {
        ParentUnblocked(disk.files, dest);
      }
      var made := disk.MkdirAll(Parent(dest));
      if made.Some? {
        return Err(Wrap(made.value));
      }
      var renamed := disk.Rename(src, dest);
      if renamed.Some? {
        return Err(Wrap(renamed.value));
      }
      return Ok(true);
    }

    /** The audio file and its sidecar disappear, and nothing else; on an error what is left is retried. */
    method MirrorTrack(path: Path) returns (err: Option<Err>)
      requires disk.Valid() && Clean(path) && music <= path
      modifies disk
      ensures disk.Valid()
      ensures Deleted(old(disk.files), disk.files, Targets(music, path))
      ensures disk.dirs <= old(disk.dirs)
      ensures forall d | d in old(disk.dirs) && d !in disk.dirs :: music < d <= path || d in Targets(music, path)
      ensures err.None? ==> NoneExist(disk.files, disk.dirs, Targets(music, path))
      ensures disk.calm && AllReachable(old(disk.files), old(disk.dirs), Targets(music, path)) ==> err.None?
      ensures disk.calm && err.None? && Parent(path) in old(disk.dirs) ==>
        NothingEmpty(disk.files, disk.dirs, music, Parent(path))
      ensures disk.calm ==> TidyStep(policy, music, old(disk.files), old(disk.dirs), disk.files, disk.dirs)
    {
      hide WithinMusic, LrcSidecar, Blocked, HasChild, Tree, Clean, TidyStep, NothingEmpty;
      ghost var files, dirs := disk.files, disk.dirs;
      ghost var targets := Targets(music, path);
      var deleted := RemovePath(path);
      if deleted.Err? {
        MirrorNothing(policy, music, files, dirs);
        return Some(Wrap(deleted.error));
      }
      var lrc := LrcSidecar(path);
      if WithinMusic(music, lrc) {
        if AllReachable(files, dirs, targets) {
          StillReachable(files, dirs, disk.files, disk.dirs, lrc);
        }
        var deletedLrc := RemovePath(lrc);
        if deletedLrc.Err? {
          if disk.calm {
            MirrorHalf(policy, music, files, dirs, disk.files, disk.dirs, path);
          }
          return Some(Wrap(deletedLrc.error));
        }
      }
      ParentClean(path);
      ghost var files', dirs' := disk.files, disk.dirs;
      PruneEmptyDirs(Parent(path));
      if disk.calm {
        MirrorTidy(policy, music, files, dirs, dirs', disk.files, disk.dirs, path);
      }
      return None;
    }

    /** The audio file and its sidecar move to their slots, on top of all that moved before. */
    method TrashTrack(path: Path, ghost before: Files, ghost done: set<Path>) returns (err: Option<Err>)
      requires disk.Valid() && Clean(music) && Clean(path) && music <= path
      modifies disk
      ensures disk.Valid()
      ensures Relocated(music, before, old(disk.files), done) && Trashable(music, path) ==>
        Relocated(music, before, disk.files, done + Targets(music, path))
      ensures OnlyTrashGrows(music, old(disk.files), old(disk.dirs), disk.files, disk.dirs)
      ensures forall d | d in old(disk.dirs) && d !in disk.dirs :: music < d <= path
      ensures err.None? ==> GoneOutside(music, disk.files, disk.dirs, Targets(music, path))
      ensures Footprint(music, Targets(music, path), old(disk.files), old(disk.dirs), disk.files, disk.dirs)
      ensures disk.calm && Trashable(music, path) && CanTrashAll(old(disk.files), old(disk.dirs), music, path) ==>
        err.None?
      ensures disk.calm && err.None? && Parent(path) in old(disk.dirs) ==>
        NothingEmpty(disk.files, disk.dirs, music, Parent(path))
      ensures disk.calm ==> TidyStep(Trash, music, old(disk.files), old(disk.dirs), disk.files, disk.dirs)
    {
      hide WithinMusic, LrcSidecar, Blocked, HasChild, Tree, Clean, Relocated, UnderTrash, MovedOrSame, CanTrash;
      hide CanTrashAll, Footprint, TidyStep, NothingEmpty, OnlyTrashGrows, TrashedSoFar, GoneOutside, Reachable;
      hide IdleWithout;
      ghost var files, dirs := disk.files, disk.dirs;
      var lrc := LrcSidecar(path);
      SidecarClean(path);
      CanTrashParts(files, dirs, music, path);
      WithinExactly(music, lrc);
      ParentClean(path);
      TrashStarts(music, path, before, done, files, dirs);
      var moved := MoveToTrash(path);
      TrashOneMore(music, path, before, done, files, dirs, files, dirs, disk.files, disk.dirs, path, moved);
      if moved.Err? {
        TrashStops(music, path, before, done, files, dirs, files, disk.files, disk.dirs, path);
        return Some(Wrap(moved.error));
      }
      if WithinMusic(music, lrc) {
        if Trashable(music, path) && CanTrashAll(files, dirs, music, path) {
          LrcStillCan(music, files, dirs, disk.files, disk.dirs, path, moved == Ok(true));
        }
        ghost var files', dirs' := disk.files, disk.dirs;
        var movedLrc := MoveToTrash(lrc);
        TrashOneMore(music, path, before, done, files, dirs, files', dirs', disk.files, disk.dirs, lrc, movedLrc);
        if movedLrc.Err? {
          TrashStops(music, path, before, done, files, dirs, files', disk.files, disk.dirs, lrc);
          return Some(Wrap(movedLrc.error));
        }
      }
      ghost var files', dirs' := disk.files, disk.dirs;
      TargetsGone(music, path, files', dirs');
      PruneEmptyDirs(Parent(path));
      TrashEnds(music, path, before, done, files, dirs, files', dirs', disk.dirs, disk.calm);
      return None;
    }

    /**
     Acts on the recorded path of one unfavorited track. `before` and `done` say what the
     pass has acted on so far.
     */
    method ApplyPolicy(id: Id, fault: Option<Err>, ghost before: Files, ghost done: seq<Id>) returns (v: Verdict)
      requires disk.Valid() && Clean(music) && CleanRows(rows)
      modifies disk
      ensures disk.Valid()
      ensures v.Fatal? <==> fault.Some?
      ensures PassFiles(policy, rows, music, done, before, old(disk.files)) ==>
        PassFiles(policy, rows, music, done + [id], before, disk.files)
      ensures PassFrame(policy, music, old(disk.files), old(disk.dirs), disk.files, disk.dirs)
      ensures policy.Trash? ==>
        Footprint(music, TargetsOf(rows, music, id), old(disk.files), old(disk.dirs), disk.files, disk.dirs)
      ensures v.Handled? ==> Discharged(policy, rows, music, disk.files, disk.dirs, id)
      ensures disk.calm && policy.Mirror? ==>
        AllReachable(old(disk.files), old(disk.dirs), TargetsOf(rows, music, id)) ==> v.Handled? || v.Fatal?
      ensures disk.calm && policy.Trash? && CanTrashId(rows, music, old(disk.files), old(disk.dirs), id) ==>
        v.Handled? || v.Fatal?
      ensures disk.calm ==> TidyStep(policy, music, old(disk.files), old(disk.dirs), disk.files, disk.dirs)
      ensures disk.calm && v.Handled? ==> Tidied(policy, rows, music, old(disk.dirs), disk.files, disk.dirs, id)
    {
      hide WithinMusic, Tree, Clean, Relocated, Deleted, Targets, OnlyTrashGrows, AllReachable, NoneExist;
      hide GoneOutside, Footprint, TidyStep, NothingEmpty, Tidied;
      MirrorNothing(policy, music, disk.files, disk.dirs);
      TidiedWithout(policy, rows, music, disk.dirs, disk.files, disk.dirs, id);
      FootprintNone(music, TargetsOf(rows, music, id), disk.files, disk.dirs);
      PassNext(policy, rows, music, done, id, before, disk.files);
      FrameStart(music, disk.files, disk.dirs);
      if fault.Some? {
        return Fatal(Wrap(fault.value));
      }
      NoTargets(music, disk.files, disk.dirs);
      if id !in rows {
        return Handled;
      }
      var track := rows[id];
      if track.path == None {
        return Handled;
      }
      if !WithinMusic(music, track.path.value) {
        return Handled;
      }
      var path := track.path.value;
      WithinExactly(music, path);
      ghost var targets := Targets(music, path);
      ghost var all := AllTargets(rows, music, done);
      var err: Option<Err> := None;
      match policy {
        case Mirror =>
          ghost var files := disk.files;
          err := MirrorTrack(path);
          if Deleted(before, files, all) {
            DeletedMore(before, files, disk.files, all, targets);
          }
          DeletedKeys(files, disk.files, targets);
          TidiedOne(policy, rows, music, old(disk.dirs), disk.files, disk.dirs, id, path);
        case Trash =>
          err := TrashTrack(path, before, all);
          TidiedOne(policy, rows, music, old(disk.dirs), disk.files, disk.dirs, id, path);
        case _ =>
      }
      return if err.Some? then Retry(err.value) else Handled;
    }

    /**
     One pass over the ids that left the favorites, in order. Unless the store fails, each
     of them is discharged or reported pending, whatever the disk does; pending repeats
     nothing and lists only ids that are not current.
     */
    method Reconcile(
      table: SnapshotTable, current: seq<SnapshotItem>, diffFault: Option<Err>, faults: Id -> Option<Err>)
      returns (r: Result<seq<Id>, Err>, ghost removed: seq<Id>)
      requires disk.Valid() && Clean(music) && CleanRows(rows)
      modifies disk
      ensures disk.Valid()
      ensures diffFault.None? ==>
        forall id :: id in removed <==> id in Ids(table.favorites, TRACKS) && id !in ItemIds(current)
      ensures diffFault.Some? ==> removed == []
      ensures Ascending(removed)
      ensures r.Err? <==>
        diffFault.Some? || (!policy.Keep? && exists i | 0 <= i < |removed| :: faults(removed[i]).Some?)
      ensures PassFiles(policy, rows, music, removed, old(disk.files), disk.files)
      ensures PassFrame(policy, music, old(disk.files), old(disk.dirs), disk.files, disk.dirs)
      ensures r.Ok? ==> Ascending(r.value) && forall id | id in r.value :: id in removed
      ensures r.Ok? ==> forall id | id in removed ::
        id in r.value || Discharged(policy, rows, music, disk.files, disk.dirs, id)
      ensures r.Ok? && policy.Keep? ==> r.value == []
      ensures r.Ok? && policy.Mirror? && disk.calm ==>
        AllReachable(old(disk.files), old(disk.dirs), AllTargets(rows, music, removed)) ==> r.value == []
      ensures r.Ok? && policy.Trash? && disk.calm ==>
        ClearWay(music, old(disk.files), old(disk.dirs), AllTargets(rows, music, removed)) ==> r.value == []
      ensures r.Ok? && disk.calm ==> forall id | id in removed ::
        id in r.value || Tidied(policy, rows, music, old(disk.dirs), disk.files, disk.dirs, id)
    {
      hide PassFiles, PassFrame, Discharged, OutsideTrash, AllTargets, AllReachable, LexBelow, Ids, ItemIds, Tree;
      hide Clean, ClearWay, Footprint, TidyStep, Tidied;
      ghost var files, dirs := disk.files, disk.dirs;
      PassStarts(policy, rows, music, files, dirs);
      var added, gone, err := table.DiffSnapshot(TRACKS, current, diffFault);
      removed := gone;
      if err.Some? {
        removed := [];
        return Err(Wrap(err.value)), [];
      }
      PassWiden(policy, rows, music, [], removed, files, files);
      MirrorNothing(policy, music, files, dirs);
      if |gone| == 0 {
        return Ok([]), removed;
      }
      if policy == Keep {
        KeepDischarges(rows, music, files, dirs);
        KeepTidies(rows, music, files, dirs);
        return Ok([]), removed;
      }
      var pending: seq<Id> := [];
      for k := 0 to |gone|
        invariant disk.Valid() && removed == gone
        invariant forall i | 0 <= i < k :: faults(gone[i]).None?
        invariant PassFiles(policy, rows, music, gone[..k], files, disk.files)
        invariant PassFrame(policy, music, files, dirs, disk.files, disk.dirs)
        invariant Ascending(pending) && forall id | id in pending :: id in gone[..k]
        invariant forall i | 0 <= i < k ::
          gone[i] in pending || Discharged(policy, rows, music, disk.files, disk.dirs, gone[i])
        invariant policy.Mirror? && disk.calm && AllReachable(files, dirs, AllTargets(rows, music, gone)) ==>
          pending == []
        invariant policy.Trash? && disk.calm && ClearWay(music, files, dirs, AllTargets(rows, music, gone)) ==>
          pending == [] && ClearWay(music, disk.files, disk.dirs, AllTargets(rows, music, gone))
        invariant disk.calm ==> TidyStep(policy, music, files, dirs, disk.files, disk.dirs)
        invariant disk.calm ==> forall i | 0 <= i < k ::
          gone[i] in pending || Tidied(policy, rows, music, dirs, disk.files, disk.dirs, gone[i])
      {
        ghost var files', dirs' := disk.files, disk.dirs;
        assert gone[..k + 1] == gone[..k] + [gone[k]];
        ReachableOne(policy, rows, music, gone, k, files, dirs, files', dirs');
        ClearOne(rows, music, gone, k, files', dirs');
        var v := ApplyPolicy(gone[k], faults(gone[k]), files, gone[..k]);
        FrameOn(policy, music, files, dirs, files', dirs', disk.files, disk.dirs);
        if policy.Trash? && ClearWay(music, files', dirs', AllTargets(rows, music, gone)) {
          TargetsAmong(rows, music, gone, k);
          ClearStays(music, TargetsOf(rows, music, gone[k]), AllTargets(rows, music, gone), files', dirs',
                     disk.files, disk.dirs);
        }
        if v.Fatal? {
          PassWiden(policy, rows, music, gone[..k + 1], gone, files, disk.files);
          return Err(v.error), removed;
        }
        forall i | 0 <= i < k && Discharged(policy, rows, music, files', dirs', gone[i])
          ensures Discharged(policy, rows, music, disk.files, disk.dirs, gone[i])
        {
          DischargedStays(policy, rows, music, files', dirs', disk.files, disk.dirs, gone[i]);
        }
        if disk.calm {
          forall i | 0 <= i < k && Tidied(policy, rows, music, dirs, files', dirs', gone[i])
            ensures Tidied(policy, rows, music, dirs, disk.files, disk.dirs, gone[i])
          {
            TidiedStays(policy, rows, music, dirs, files', dirs', disk.files, disk.dirs, gone[i]);
          }
          if v.Handled? {
            TidiedLate(policy, rows, music, files, dirs, files', dirs', disk.files, disk.dirs, gone[k]);
          }
          TidyOn(policy, music, files, dirs, files', dirs', disk.files, disk.dirs);
        }
        if v.Retry? {
          AscendMore(gone, pending, k);
          pending := pending + [gone[k]];
        }
      }
      assert gone[..|gone|] == gone;
      return Ok(pending), removed;
    }
  }

  ghost predicate Ascending(ids: seq<Id>) { forall i, j | 0 <= i < j < |ids| :: LexBelow(ids[i], ids[j]) }

  lemma AscendMore(ids: seq<Id>, some: seq<Id>, k: nat)
    requires Ascending(ids) && Ascending(some) && k < |ids| && forall id | id in some :: id in ids[..k]
    ensures Ascending(some + [ids[k]])
  {
    hide LexBelow;
    forall i | 0 <= i < |some| ensures LexBelow(some[i], ids[k]) {
      assert some[i] in ids[..k];
      var j :| 0 <= j < k && ids[j] == some[i];
    }
  }

  lemma PassStarts(policy: Policy, rows: Table, music: Path, files: Files, dirs: Dirs)
    ensures PassFiles(policy, rows, music, [], files, files) && PassFrame(policy, music, files, dirs, files, dirs)
  {
  }

  lemma KeepTidies(rows: Table, music: Path, files: Files, dirs: Dirs)
    ensures forall id :: Tidied(Keep, rows, music, dirs, files, dirs, id)
  {
  }

  lemma TidiedWithout(
    policy: Policy, rows: Table, music: Path, before: Dirs, files: Files, dirs: Dirs, id: Id)
    ensures Recorded(rows, music, id).None? || !(policy.Mirror? || policy.Trash?) ==>
      Tidied(policy, rows, music, before, files, dirs, id)
  {
    hide WithinMusic;
  }

  lemma TidiedOne(
    policy: Policy, rows: Table, music: Path, before: Dirs, files: Files, dirs: Dirs, id: Id, path: Path)
    requires Recorded(rows, music, id) == Some(path)
    ensures (Parent(path) in before ==> NothingEmpty(files, dirs, music, Parent(path))) ==>
      Tidied(policy, rows, music, before, files, dirs, id)
  {
    hide WithinMusic, HasChild, UnderTrash;
  }

  lemma TidiedStays(
    policy: Policy, rows: Table, music: Path, before: Dirs, files: Files, dirs: Dirs, files': Files, dirs': Dirs,
    id: Id)
    requires TidyStep(policy, music, files, dirs, files', dirs')
    requires Tidied(policy, rows, music, before, files, dirs, id)
    ensures Tidied(policy, rows, music, before, files', dirs', id)
  {
    hide TidyStep, HasChild, UnderTrash;
    var path := Recorded(rows, music, id);
    if path.Some? && NothingEmpty(files, dirs, music, Parent(path.value)) {
      if policy.Trash? ==> !UnderTrash(music, Parent(path.value)) {
        NothingEmptyStays(policy, music, files, dirs, files', dirs', Parent(path.value));
      }
    }
  }

  /** A directory that went earlier in the pass left nothing empty either. */
  lemma TidiedLate(
    policy: Policy, rows: Table, music: Path, files: Files, dirs: Dirs, files': Files, dirs': Dirs,
    files'': Files, dirs'': Dirs, id: Id)
    requires TidyStep(policy, music, files, dirs, files', dirs')
    requires TidyStep(policy, music, files', dirs', files'', dirs'')
    requires Tidied(policy, rows, music, dirs', files'', dirs'', id)
    ensures Tidied(policy, rows, music, dirs, files'', dirs'', id)
  {
    hide UnderTrash, HasChild;
    var path := Recorded(rows, music, id);
    if path.Some? && Parent(path.value) in dirs && Parent(path.value) !in dirs' {
      var dir := Parent(path.value);
      if Watched(policy, music, dir) {
        NothingEmptyStays(policy, music, files', dirs', files'', dirs'', dir);
      } else {
        NotBelow(files'', dirs'', music, dir);
      }
    }
  }

  lemma NotBelow(files: Files, dirs: Dirs, music: Path, dir: Path)
    ensures !(music < dir) ==> NothingEmpty(files, dirs, music, dir)
  {
    hide HasChild;
  }

  lemma KeepDischarges(rows: Table, music: Path, files: Files, dirs: Dirs)
    ensures forall id :: Discharged(Keep, rows, music, files, dirs, id)
  {
  }

  lemma {:induction false} PassWiden(
    policy: Policy, rows: Table, music: Path, done: seq<Id>, all: seq<Id>, before: Files, files: Files)
    requires PassFiles(policy, rows, music, done, before, files) && done <= all
    ensures PassFiles(policy, rows, music, all, before, files)
    decreases |all|
  {
    hide PassFiles;
    if done != all {
      var most := all[..|all| - 1];
      assert all == most + [all[|all| - 1]];
      PassWiden(policy, rows, music, done, most, before, files);
      PassNext(policy, rows, music, most, all[|all| - 1], before, files);
    } else {
      assert done == all;
    }
  }

  lemma FrameOn(
    policy: Policy, music: Path, files: Files, dirs: Dirs, files': Files, dirs': Dirs, files'': Files, dirs'': Dirs)
    requires PassFrame(policy, music, files, dirs, files', dirs')
    requires PassFrame(policy, music, files', dirs', files'', dirs'')
    ensures PassFrame(policy, music, files, dirs, files'', dirs'')
  {
  }

  /** Later removals bring nothing back. */
  lemma DischargedStays(
    policy: Policy, rows: Table, music: Path, files: Files, dirs: Dirs, files': Files, dirs': Dirs, id: Id)
    requires PassFrame(policy, music, files, dirs, files', dirs')
    requires Discharged(policy, rows, music, files, dirs, id)
    ensures Discharged(policy, rows, music, files', dirs', id)
  {
    hide UnderTrash, TargetsOf;
  }

  lemma {:induction false} TargetsAmong(rows: Table, music: Path, ids: seq<Id>, k: nat)
    requires k < |ids|
    ensures TargetsOf(rows, music, ids[k]) <= AllTargets(rows, music, ids)
    decreases |ids|
  {
    if k < |ids| - 1 {
      TargetsAmong(rows, music, ids[..|ids| - 1], k);
    }
  }

  lemma ReachableOne(
    policy: Policy, rows: Table, music: Path, ids: seq<Id>, k: nat, files: Files, dirs: Dirs, files': Files,
    dirs': Dirs)
    requires k < |ids| && PassFrame(policy, music, files, dirs, files', dirs')
    ensures policy.Mirror? && AllReachable(files, dirs, AllTargets(rows, music, ids)) ==>
      AllReachable(files', dirs', TargetsOf(rows, music, ids[k]))
  {
    hide TargetsOf, AllTargets;
    TargetsAmong(rows, music, ids, k);
    if policy.Mirror? && AllReachable(files, dirs, AllTargets(rows, music, ids)) {
      forall t | t in TargetsOf(rows, music, ids[k]) ensures Reachable(files', dirs', t) {
        StillReachable(files, dirs, files', dirs', t);
      }
    }
  }

  /** New files are slots of targets, new directories lie in the trash folder above such slots. */
  ghost predicate Footprint(music: Path, targets: set<Path>, files: Files, dirs: Dirs, files': Files, dirs': Dirs)
  {
    && (forall p | p in files' && p !in files :: exists t | t in targets :: music <= t && p == Slot(music, t))
    && forall d | d in dirs' && d !in dirs ::
         UnderTrash(music, d) && exists t | t in targets :: music <= t && d < Slot(music, t)
  }

  lemma FootprintNone(music: Path, targets: set<Path>, files: Files, dirs: Dirs)
    ensures Footprint(music, targets, files, dirs, files, dirs)
  {
  }

  lemma FootprintOne(
    music: Path, targets: set<Path>, files: Files, dirs: Dirs, files': Files, dirs': Dirs, t: Path, moved: bool)
    requires music <= t && t in targets && MovedOrSame(music, files, files', t, moved)
    requires forall d | d in dirs' && d !in dirs :: UnderTrash(music, d) && d <= Parent(Slot(music, t))
    ensures Footprint(music, targets, files, dirs, files', dirs')
  {
    forall d | d in dirs' && d !in dirs ensures d < Slot(music, t) {
      assert Parent(Slot(music, t)) < Slot(music, t);
    }
  }

  lemma FootprintOn(
    music: Path, targets: set<Path>, files: Files, dirs: Dirs, files': Files, dirs': Dirs, files'': Files, dirs'': Dirs)
    requires Footprint(music, targets, files, dirs, files', dirs')
    requires Footprint(music, targets, files', dirs', files'', dirs'')
    ensures Footprint(music, targets, files, dirs, files'', dirs'')
  {
    hide UnderTrash, Slot;
  }

  lemma FootprintLess(
    music: Path, targets: set<Path>, files: Files, dirs: Dirs, files': Files, dirs': Dirs, less: Dirs)
    requires Footprint(music, targets, files, dirs, files', dirs') && less <= dirs'
    ensures Footprint(music, targets, files, dirs, files', less)
  {
    hide UnderTrash, Slot;
  }

  /** All targets can be moved, and none lies inside another. */
  ghost predicate ClearWay(music: Path, files: Files, dirs: Dirs, targets: set<Path>)
  {
    && (forall t | t in targets :: Trashable(music, t) && CanTrash(files, dirs, music, t))
    && forall s, t | s in targets && t in targets :: !(s < t)
  }

  lemma ClearOne(rows: Table, music: Path, ids: seq<Id>, k: nat, files: Files, dirs: Dirs)
    requires k < |ids| && CleanRows(rows)
    ensures ClearWay(music, files, dirs, AllTargets(rows, music, ids)) ==> CanTrashId(rows, music, files, dirs, ids[k])
  {
    hide WithinMusic, LrcSidecar, AllTargets, CanTrash, Clean, UnderTrash;
    TargetsAmong(rows, music, ids, k);
    var path := Recorded(rows, music, ids[k]);
    if path.Some? {
      SidecarClean(path.value);
      WithinExactly(music, LrcSidecar(path.value));
    }
  }

  /** Moving some of the targets leaves the way clear for all. */
  lemma ClearStays(
    music: Path, some: set<Path>, all: set<Path>, files: Files, dirs: Dirs, files': Files, dirs': Dirs)
    requires some <= all && ClearWay(music, files, dirs, all) && Footprint(music, some, files, dirs, files', dirs')
    ensures ClearWay(music, files', dirs', all)
  {
    hide Blocked;
    forall t | t in all ensures CanTrash(files', dirs', music, t) {
      ClearTarget(music, some, all, files, dirs, files', dirs', t);
    }
  }

  lemma ClearTarget(
    music: Path, some: set<Path>, all: set<Path>, files: Files, dirs: Dirs, files': Files, dirs': Dirs, t: Path)
    requires some <= all && ClearWay(music, files, dirs, all) && Footprint(music, some, files, dirs, files', dirs')
    requires t in all
    ensures CanTrash(files', dirs', music, t)
  {
    var slot := Slot(music, t);
    assert CanTrash(files, dirs, music, t);
    forall k | 0 <= k < |t| ensures t[..k] !in files' {
      forall s | s in some && music <= s ensures t[..k] != Slot(music, s) {
        SlotUnderTrash(music, s);
      }
    }
    forall k | 0 <= k < |slot| ensures slot[..k] !in files' {
      forall s | s in some && music <= s ensures slot[..k] != Slot(music, s) {
        SlotBelow(music, s, t);
      }
    }
    forall s | s in some && music <= s ensures !(slot < Slot(music, s)) {
      SlotBelow(music, t, s);
    }
  }

  lemma SlotBelow(music: Path, s: Path, t: Path)
    requires music <= s && music <= t
    ensures Slot(music, s) < Slot(music, t) ==> s < t
  {
    var a, b := Slot(music, s), Slot(music, t);
    assert s == music + a[|music| + 1..] && t == music + b[|music| + 1..];
    if a < b {
      assert b[..|a|] == a;
      assert t[..|s|] == s;
    }
  }

  ghost predicate CanTrashId(rows: Table, music: Path, files: Files, dirs: Dirs, id: Id)
  {
    var path := Recorded(rows, music, id);
    path.Some? ==> Trashable(music, path.value) && CanTrashAll(files, dirs, music, path.value)
  }

  /** What applyPolicy reports: done or skipped, to be retried, or an error that aborts the pass. */
  datatype Verdict = Handled | Retry(error: Err) | Fatal(error: Err)

  /** Mirroring only takes away; trashing adds nothing outside the trash folder; other policies touch nothing. */
  ghost predicate PassFrame(policy: Policy, music: Path, files: Files, dirs: Dirs, files': Files, dirs': Dirs)
  {
    match policy
    case Mirror => files'.Keys <= files.Keys && dirs' <= dirs
    case Trash => OnlyTrashGrows(music, files, dirs, files', dirs')
    case _ => files' == files && dirs' == dirs
  }

  lemma FrameStart(music: Path, files: Files, dirs: Dirs)
    ensures OnlyTrashGrows(music, files, dirs, files, dirs)
  {
  }

  lemma DeletedKeys(before: Files, after: Files, targets: set<Path>)
    requires Deleted(before, after, targets)
    ensures after.Keys <= before.Keys
  {
  }

  lemma NoTargets(music: Path, files: Files, dirs: Dirs)
    ensures NoneExist(files, dirs, {}) && GoneOutside(music, files, dirs, {})
  {
  }

  /** What one more id asks of the pass. */
  lemma PassNext(policy: Policy, rows: Table, music: Path, done: seq<Id>, id: Id, before: Files, files: Files)
    ensures AllTargets(rows, music, done + [id]) == AllTargets(rows, music, done) + TargetsOf(rows, music, id)
    ensures OutsideTrash(rows, music, done + [id]) <==>
      OutsideTrash(rows, music, done) && OutsideTrash(rows, music, [id])
    ensures OutsideTrash(rows, music, [id]) && Recorded(rows, music, id).Some? ==>
      Trashable(music, Recorded(rows, music, id).value)
    ensures PassFiles(policy, rows, music, done, before, files) ==>
      PassFiles(policy, rows, music, done + [id], before, files)
  {
    hide Recorded, Trashable, Targets, Relocated, Deleted;
    var more := done + [id];
    assert more[..|more| - 1] == done;
    assert OutsideTrash(rows, music, more) ==> OutsideTrash(rows, music, done) by {
      assert forall i | 0 <= i < |done| :: more[i] == done[i];
    }
    assert more[|done|] == id;
    if policy.Mirror? && PassFiles(policy, rows, music, done, before, files) {
      DeletedMonotone(before, files, AllTargets(rows, music, done), AllTargets(rows, music, more));
    }
    if policy.Trash? && PassFiles(policy, rows, music, done, before, files) && OutsideTrash(rows, music, more) {
      RelocatedMore(music, before, files, AllTargets(rows, music, done), AllTargets(rows, music, more));
    }
  }

  lemma DeletedMonotone(before: Files, after: Files, targets: set<Path>, more: set<Path>)
    requires Deleted(before, after, targets) && targets <= more
    ensures Deleted(before, after, more)
  {
  }

  lemma ParentClean(path: Path)
    requires Clean(path)
    ensures Clean(Parent(path)) && Parent(path) <= path
  {
  }

  /** Either the file at src is in its slot now, or no file has moved. */
  ghost predicate MovedOrSame(music: Path, before: Files, after: Files, src: Path, moved: bool)
    requires music <= src
  {
    if moved then src in before && after == (before - {src})[Slot(music, src) := before[src]] else after == before
  }

  lemma RelocateStep(music: Path, before: Files, files: Files, after: Files, all: set<Path>, t: Path, moved: bool)
    requires t in all && Trashable(music, t) && Relocated(music, before, files, all)
    requires MovedOrSame(music, files, after, t, moved)
    ensures Relocated(music, before, after, all)
  {
    if moved {
      RelocateMore(music, before, files, all, t);
      assert all + {t} == all;
    }
  }

  predicate CanTrashAll(files: Files, dirs: Dirs, music: Path, path: Path)
    requires music <= path
  {
    && CanTrash(files, dirs, music, path)
    && (music <= LrcSidecar(path) ==> CanTrash(files, dirs, music, LrcSidecar(path)))
  }

  lemma CanTrashParts(files: Files, dirs: Dirs, music: Path, path: Path)
    requires music <= path
    ensures CanTrashAll(files, dirs, music, path) ==> CanTrash(files, dirs, music, path)
  {
  }

  /** Moving the audio file does not get in the way of its sidecar. */
  lemma LrcStillCan(music: Path, files: Files, dirs: Dirs, files': Files, dirs': Dirs, path: Path, moved: bool)
    requires Tree(files, dirs) && Clean(path) && Trashable(music, path) && CanTrashAll(files, dirs, music, path)
    requires MovedOrSame(music, files, files', path, moved)
    requires forall d | d in dirs' && d !in dirs :: UnderTrash(music, d) && d <= Parent(Slot(music, path))
    requires WithinMusic(music, LrcSidecar(path))
    ensures music <= LrcSidecar(path) && CanTrash(files', dirs', music, LrcSidecar(path))
  {
    hide WithinMusic;
    var lrc := LrcSidecar(path);
    SidecarClean(path);
    WithinExactly(music, lrc);
    SidecarTrashable(music, path);
    assert lrc in Targets(music, path);
    assert path !in dirs;
    SlotUnderTrash(music, path);
    forall k | 0 <= k < |lrc| ensures lrc[..k] !in files' {
      assert UnderTrash(music, lrc[..k]) ==> UnderTrash(music, lrc);
    }
    var slot := Slot(music, lrc);
    forall k | 0 <= k < |slot| ensures slot[..k] !in files' {
      assert |slot| == |Slot(music, path)|;
    }
  }

  /** Nothing new exists outside the trash folder. */
  ghost predicate OnlyTrashGrows(music: Path, files: Files, dirs: Dirs, files': Files, dirs': Dirs)
  {
    forall p | Exists(files', dirs', p) && !UnderTrash(music, p) :: Exists(files, dirs, p)
  }

  ghost predicate AllReachable(files: Files, dirs: Dirs, targets: set<Path>)
  {
    forall t | t in targets :: Reachable(files, dirs, t)
  }

  /** filepath.Join(music, ".trash", rel) is the slot. */
  lemma SlotIsJoin(music: Path, src: Path)
    requires Clean(music) && Clean(src) && music <= src
    ensures CleanFrom([], music + [TRASH] + Rel(music, src)) == Slot(music, src)
  {
    hide CleanFrom, Rel, Common, Name;
    WithinExactly(music, src);
    var raw := music + [TRASH] + src[|music|..];
    TrashIsName();
    forall i | 0 <= i < |raw| ensures Name(raw[i]) {
      if i > |music| {
        assert raw[i] == src[i - 1];
      }
    }
    CleanNames([], raw);
    assert [] + raw == raw;
  }

  lemma TrashIsName()
    ensures Name(TRASH)
  {
    assert TRASH[0] == DOT && TRASH[1] == 116 && SLASH !in TRASH;
  }

  /** New directories on the way to a slot are all in the trash folder: the root is there already. */
  lemma RootIsDir(files: Files, dirs: Dirs, music: Path, src: Path)
    requires Tree(files, dirs) && Exists(files, dirs, src) && music <= src
    ensures forall d | d <= Parent(Slot(music, src)) && d !in dirs && d !in files :: UnderTrash(music, d)
  {
    if music < src {
      AncestorIsDir(files, dirs, src, music);
    } else {
      assert music == src;
    }
    forall d | d <= Parent(Slot(music, src)) && d !in dirs && d !in files ensures UnderTrash(music, d) {
      BelowRoot(files, dirs, music, d);
      assert |d| <= |music| ==> d <= music;
      assert d[..|music| + 1] == TrashRoot(music);
    }
  }

  lemma BelowRoot(files: Files, dirs: Dirs, music: Path, d: Path)
    requires Tree(files, dirs) && Exists(files, dirs, music)
    ensures d <= music ==> Exists(files, dirs, d)
  {
    if d < music {
      AncestorIsDir(files, dirs, music, d);
    } else if d <= music {
      assert d == music;
    }
  }

  /** The directories above one that is there each contain the next. */
  lemma ChildrenAbove(files: Files, dirs: Dirs, d: Path)
    requires Tree(files, dirs)
    ensures d in dirs ==> forall up | up < d :: up in dirs && HasChild(files, dirs, up)
  {
    if d in dirs {
      forall up | up < d ensures up in dirs && HasChild(files, dirs, up) {
        AncestorIsDir(files, dirs, d, up);
        var next := d[..|up| + 1];
        assert Parent(next) == up;
        if next != d {
          AncestorIsDir(files, dirs, d, next);
        }
      }
    }
  }

  // ----- What a pass leaves alone -----

  lemma {:induction false} TargetFrom(rows: Table, music: Path, ids: seq<Id>, t: Path) returns (i: nat)
    requires t in AllTargets(rows, music, ids)
    ensures i < |ids| && t in TargetsOf(rows, music, ids[i])
    decreases |ids|
  {
    hide TargetsOf;
    var last := |ids| - 1;
    if t in TargetsOf(rows, music, ids[last]) {
      i := last;
    } else {
      i := TargetFrom(rows, music, ids[..last], t);
    }
  }

  /** Files are recorded as .flac files inside the root and outside the trash folder, no two ids share one. */
  ghost predicate ProperRecords(rows: Table, music: Path)
  {
    && CleanRows(rows)
    && (forall id | id in rows && rows[id].path.Some? ::
          IsFlac(rows[id].path.value) && Trashable(music, rows[id].path.value))
    && forall a, b | a in rows && b in rows && a != b && rows[a].path.Some? :: rows[a].path != rows[b].path
  }

  /** The audio file of one id, or its sidecar, is no target of another. */
  lemma OthersTargets(rows: Table, music: Path, ids: seq<Id>, c: Id, p: Path)
    requires ProperRecords(rows, music) && c !in ids
    requires c in rows && rows[c].path.Some? && p in {rows[c].path.value, LrcSidecar(rows[c].path.value)}
    ensures p !in AllTargets(rows, music, ids)
  {
    hide WithinMusic, LrcSidecar, IsFlac, AllTargets, Trashable, Clean;
    if p in AllTargets(rows, music, ids) {
      var i := TargetFrom(rows, music, ids, p);
      var mine, theirs := rows[c].path.value, rows[ids[i]].path.value;
      assert ids[i] in ids;
      SidecarBeside(mine);
      SidecarBeside(theirs);
      assert mine != theirs;
      if LrcSidecar(mine) == LrcSidecar(theirs) {
        SidecarInjective(mine, theirs);
      }
    }
  }

  predicate SameFile(before: Files, after: Files, p: Path)
  {
    (p in before <==> p in after) && (p in before ==> after[p] == before[p])
  }

  /** A pass changes neither the file nor the sidecar of any track it was not asked to remove. */
  lemma OthersUntouched(
    policy: Policy, rows: Table, music: Path, ids: seq<Id>, before: Files, after: Files, c: Id, p: Path)
    requires PassFiles(policy, rows, music, ids, before, after) && ProperRecords(rows, music) && Clean(music)
    requires c !in ids && c in rows && rows[c].path.Some?
    requires p == rows[c].path.value || (p == LrcSidecar(rows[c].path.value) && WithinMusic(music, p))
    ensures SameFile(before, after, p)
  {
    hide LrcSidecar, IsFlac, AllTargets, UnderTrash, Clean, WithinMusic;
    OthersTargets(rows, music, ids, c, p);
    var path := rows[c].path.value;
    SidecarTrashable(music, path);
    assert p in Targets(music, path);
    if policy.Trash? {
      forall i | 0 <= i < |ids| && Recorded(rows, music, ids[i]).Some?
        ensures Trashable(music, Recorded(rows, music, ids[i]).value)
      {
      }
      forall t | Trashable(music, t) ensures p != Slot(music, t) {
        SlotUnderTrash(music, t);
      }
    }
  }

  /**
   Trashing loses nothing: every file that was there is still there, or is gone from its
   place and in its own trash slot, except what stood in the slot that a file moved by this
   pass has taken.
   */
  lemma TrashLosesNothing(rows: Table, music: Path, ids: seq<Id>, before: Files, after: Files, p: Path)
    requires PassFiles(Trash, rows, music, ids, before, after) && OutsideTrash(rows, music, ids)
    requires p in before && !SlotTaken(music, before, after, AllTargets(rows, music, ids), p)
    ensures (p in after && after[p] == before[p])
      || (Trashable(music, p) && p !in after && Slot(music, p) in after && after[Slot(music, p)] == before[p])
  {
    hide AllTargets, UnderTrash, SlotTaken;
    assert FileKept(music, before, after, AllTargets(rows, music, ids), p);
  }
}
