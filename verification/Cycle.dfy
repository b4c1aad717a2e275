/**
 What one sync cycle (cmd/sync.go, executeSync) does to the rows, the favorites snapshot
 and the files, and what holds over runs of many cycles. Module Sync performs the cycles.
 */
module Cycle {
  import opened Wrappers
  import opened Text
  import opened Failure
  import opened Paths
  import opened Disk
  import opened Download
  import opened Tracks
  import opened Process
  import opened Enumerate
  import opened Removal
  import opened Workers

  /** The rows, the ids in the stored snapshot, and the file tree. */
  datatype World = World(rows: Table, favorites: set<Id>, files: Files, dirs: Dirs)

  /**
   One cycle: whether it stored its snapshot; the tracks it enumerated and how each fared;
   the rows they were processed against; the file tree when the removals began; the ids
   whose removal was asked for, and those of them left pending. A cycle that was aborted or
   killed anywhere before its snapshot was stored is not done.
   */
  datatype CycleEvent = CycleEvent(
    done: bool, job: Job, before: Table, files: Files, dirs: Dirs, asked: seq<Id>, pending: seq<Id>)
  {
    /** The ids of the tracks it enumerated: the current favorites. */
    function Current(): set<Id> { KeysOf(job.tracks) }
  }

  function KeysOf(tracks: seq<Track>): (keys: set<Id>)
    ensures forall i | 0 <= i < |tracks| :: tracks[i].Key() in keys
    ensures forall k | k in keys :: exists i | 0 <= i < |tracks| :: tracks[i].Key() == k
  {
    set t | t in tracks :: t.Key()
  }

  function Elems(ids: seq<Id>): set<Id> { set id | id in ids }

  /** The genre backfill changes nothing else. */
  ghost predicate SameButGenre(a: Table, b: Table)
  {
    a.Keys == b.Keys && forall id | id in a :: b[id] == a[id].(genre := b[id].genre)
  }

  // ----- The files a job leaves -----

  function FilesSequential(job: Job, rows: Table, files: Files, n: nat): Files
    requires |job.fates| == |job.tracks| && n <= |job.tracks|
  {
    if n == 0 then files
    else FilesAfter(FilesSequential(job, rows, files, n - 1), Sequential(job, rows, n - 1),
                    job.tracks[n - 1], job.cfg, job.fates[n - 1])
  }

  /** The n-th track meets its own row as it was when the job began. */
  lemma OutcomeAlone(job: Job, rows: Table, n: nat)
    requires ValidJob(job) && n < |job.tracks|
    ensures var t, now := job.tracks[n], Sequential(job, rows, n);
      && OutcomeOf(now, t, job.cfg, job.fates[n]) == OutcomeOf(rows, t, job.cfg, job.fates[n])
      && (ReachesDownload(now, t, job.cfg, job.fates[n]) <==> ReachesDownload(rows, t, job.cfg, job.fates[n]))
  {
    hide OutcomeOf, Skips, Itoa, After, Cause, Sequential;
    var t := job.tracks[n];
    SequentialRow(job, rows, n);
    assert SequentialOk(job, rows, n, n);
    ProcessIsLocal(Sequential(job, rows, n), rows, t, job.cfg, job.fates[n]);
    SkipsRow(Sequential(job, rows, n), rows, t.Key(), job.cfg);
  }

  /** The paths at which the first n tracks left a file. */
  function LeftBy(job: Job, rows: Table, n: nat): set<Path>
    requires |job.fates| == |job.tracks| && n <= |job.tracks|
  {
    if n == 0 then {}
    else
      var t, fate := job.tracks[n - 1], job.fates[n - 1];
      LeftBy(job, rows, n - 1) + LeftByTrack(Sequential(job, rows, n - 1), t, job.cfg, fate)
  }

  function LeftByTrack(rows: Table, t: Track, cfg: Config, fate: Fate): set<Path>
  {
    if ReachesDownload(rows, t, cfg, fate) then LaidPaths(fate.left) else {}
  }

  function Left(e: CycleEvent): set<Path>
    requires |e.job.fates| == |e.job.tracks|
  {
    LeftBy(e.job, e.before, |e.job.tracks|)
  }

  lemma {:induction false} FilesSequentialKeys(job: Job, rows: Table, files: Files, n: nat)
    requires |job.fates| == |job.tracks| && n <= |job.tracks|
    ensures FilesSequential(job, rows, files, n).Keys == files.Keys + LeftBy(job, rows, n)
  {
    hide ReachesDownload, Lay, LaidPaths, Sequential;
    if n > 0 {
      FilesSequentialKeys(job, rows, files, n - 1);
      LayKeys(FilesSequential(job, rows, files, n - 1), job.fates[n - 1].left);
    }
  }

  // ----- One cycle -----

  /** A track that succeeded left its file at the path that gets recorded, at a tier that honours the floor. */
  predicate FateOk(cfg: Config, fate: Fate)
  {
    fate.pipeline.Ok? ==>
      && fate.pipeline.value.dest in LaidPaths(fate.left)
      && Rank(fate.pipeline.value.tier) >= Rank(cfg.floor)
      && Clean(fate.pipeline.value.dest)
  }

  /** Rows and files up to the removals: a backfill of genres, then the tracks one by one. */
  ghost predicate Downloads(w: World, e: CycleEvent, rows: Table)
  {
    && ValidJob(e.job) && SameButGenre(w.rows, e.before)
    && (forall i | 0 <= i < |e.job.fates| :: FateOk(e.job.cfg, e.job.fates[i]))
    && rows == Sequential(e.job, e.before, |e.job.tracks|)
    && e.files == FilesSequential(e.job, e.before, w.files, |e.job.tracks|)
  }

  /** The removal pass and the new snapshot. */
  ghost predicate Reconciled(policy: Policy, music: Path, w: World, e: CycleEvent, w': World)
  {
    && PassFiles(policy, w'.rows, music, e.asked, e.files, w'.files)
    && PassFrame(policy, music, e.files, e.dirs, w'.files, w'.dirs)
    && Elems(e.asked) <= w.favorites - e.Current()
    && if e.done then
         && Elems(e.asked) == w.favorites - e.Current() && Elems(e.pending) <= Elems(e.asked)
         && w'.favorites == e.Current() + Elems(e.pending)
         && forall id | id in e.asked :: id in e.pending || Discharged(policy, w'.rows, music, w'.files, w'.dirs, id)
       else w'.favorites == w.favorites
  }

  ghost predicate CycleStep(policy: Policy, music: Path, w: World, e: CycleEvent, w': World)
  {
    Downloads(w, e, w'.rows) && Reconciled(policy, music, w, e, w')
  }

  ghost predicate Trace(policy: Policy, music: Path, ws: seq<World>, es: seq<CycleEvent>)
  {
    |ws| == |es| + 1 && forall i | 0 <= i < |es| :: CycleStep(policy, music, ws[i], es[i], ws[i + 1])
  }

  lemma TracePrefix(policy: Policy, music: Path, ws: seq<World>, es: seq<CycleEvent>, n: nat)
    requires Trace(policy, music, ws, es) && n <= |es|
    ensures Trace(policy, music, ws[..n + 1], es[..n])
  {
    hide CycleStep;
    var vs, ds := ws[..n + 1], es[..n];
    forall i | 0 <= i < |ds| ensures CycleStep(policy, music, vs[i], ds[i], vs[i + 1]) {
      assert CycleStep(policy, music, ws[i], es[i], ws[i + 1]);
    }
  }

  lemma TraceSnoc(policy: Policy, music: Path, ws: seq<World>, es: seq<CycleEvent>, e: CycleEvent, w: World)
    requires Trace(policy, music, ws, es) && CycleStep(policy, music, ws[|es|], e, w)
    ensures Trace(policy, music, ws + [w], es + [e])
  {
    hide CycleStep;
    var vs, ds := ws + [w], es + [e];
    forall i | 0 <= i < |ds| ensures CycleStep(policy, music, vs[i], ds[i], vs[i + 1]) {
      if i < |es| {
        assert CycleStep(policy, music, ws[i], es[i], ws[i + 1]);
      }
    }
  }

  // ----- Removal obligations -----

  /** The i-th cycle completed and discharged id. */
  ghost predicate DischargedBy(policy: Policy, music: Path, ws: seq<World>, es: seq<CycleEvent>, id: Id, i: int)
    requires |ws| == |es| + 1
  {
    && 0 <= i < |es| && es[i].done && id in es[i].asked && id !in es[i].pending
    && Discharged(policy, ws[i + 1].rows, music, ws[i + 1].files, ws[i + 1].dirs, id)
  }

  /** What a cycle makes of an id in the snapshot that it does not enumerate. */
  lemma ObligationStep(policy: Policy, music: Path, w: World, e: CycleEvent, w': World, id: Id)
    requires CycleStep(policy, music, w, e, w') && id in w.favorites && (e.done ==> id !in e.Current())
    ensures !e.done ==> id in w'.favorites
    ensures e.done ==> id in e.asked && (id in e.pending <==> id in w'.favorites)
    ensures e.done && id !in e.pending ==> Discharged(policy, w'.rows, music, w'.files, w'.dirs, id)
  {
    hide Discharged, PassFiles, PassFrame, KeysOf, Downloads;
    assert e.done ==> id in Elems(e.asked);
  }

  /**
   Removal obligations are never dropped. Over any run of cycles, completed or aborted
   anywhere, an id that once was in the snapshot and that no completed cycle enumerates
   stays in the snapshot until one of them has discharged it.
   */
  lemma {:induction false} ObligationsNeverDropped(
    policy: Policy, music: Path, ws: seq<World>, es: seq<CycleEvent>, id: Id)
    requires Trace(policy, music, ws, es) && id in ws[0].favorites
    requires forall i | 0 <= i < |es| && es[i].done :: id !in es[i].Current()
    ensures id in ws[|es|].favorites || exists i :: DischargedBy(policy, music, ws, es, id, i)
    decreases |es|
  {
    hide Discharged, CycleStep;
    if es != [] {
      var n := |es| - 1;
      TracePrefix(policy, music, ws, es, n);
      ObligationsNeverDropped(policy, music, ws[..n + 1], es[..n], id);
      if id in ws[n].favorites {
        ObligationStep(policy, music, ws[n], es[n], ws[n + 1], id);
        assert id in ws[n + 1].favorites || DischargedBy(policy, music, ws, es, id, n);
      } else {
        var i :| DischargedBy(policy, music, ws[..n + 1], es[..n], id, i);
        assert DischargedBy(policy, music, ws, es, id, i);
      }
    }
  }

  /** Aborted cycles leave the snapshot's ids alone. */
  lemma {:induction false} AbortedKeep(policy: Policy, music: Path, ws: seq<World>, es: seq<CycleEvent>, i: nat, j: nat)
    requires Trace(policy, music, ws, es) && i <= j <= |es|
    requires forall k | i <= k < j :: !es[k].done
    ensures ws[j].favorites == ws[i].favorites
    decreases j - i
  {
    hide Downloads, PassFiles, PassFrame;
    if i < j {
      AbortedKeep(policy, music, ws, es, i, j - 1);
      assert CycleStep(policy, music, ws[j - 1], es[j - 1], ws[j]);
    }
  }

  /**
   A removal left pending is asked for again: by the next cycle to complete, however many
   are aborted in between, unless that cycle enumerates the track again.
   */
  lemma PendingIsAskedAgain(policy: Policy, music: Path, ws: seq<World>, es: seq<CycleEvent>, i: nat, j: nat, id: Id)
    requires Trace(policy, music, ws, es) && i < j < |es|
    requires es[i].done && id in es[i].pending && es[j].done && id !in es[j].Current()
    requires forall k | i < k < j :: !es[k].done
    ensures id in es[j].asked
    ensures id in es[j].pending || DischargedBy(policy, music, ws, es, id, j)
  {
    hide Discharged, PassFiles, PassFrame, Downloads;
    assert CycleStep(policy, music, ws[i], es[i], ws[i + 1]);
    assert id in Elems(es[i].pending);
    AbortedKeep(policy, music, ws, es, i + 1, j);
    assert CycleStep(policy, music, ws[j], es[j], ws[j + 1]);
    ObligationStep(policy, music, ws[j], es[j], ws[j + 1], id);
  }

  /**
   Removal is only ever skipped by the keep policy: under mirror and trash a discharged id
   with a file recorded inside the root has neither file nor sidecar left there.
   */
  lemma DischargedMeansGone(policy: Policy, rows: Table, music: Path, files: Files, dirs: Dirs, id: Id)
    requires Discharged(policy, rows, music, files, dirs, id)
    requires policy.Mirror? || (policy.Trash? && CleanRows(rows) && OutsideTrash(rows, music, [id]))
    requires id in rows && rows[id].path.Some? && WithinMusic(music, rows[id].path.value)
    ensures !Exists(files, dirs, rows[id].path.value)
    ensures WithinMusic(music, LrcSidecar(rows[id].path.value)) ==>
      !Exists(files, dirs, LrcSidecar(rows[id].path.value))
  {
    hide WithinMusic, LrcSidecar, UnderTrash, Clean;
    var path := rows[id].path.value;
    if policy.Trash? {
      assert [id][0] == id;
      SidecarTrashable(music, path);
    }
    assert path in Targets(music, path);
    assert WithinMusic(music, LrcSidecar(path)) ==> LrcSidecar(path) in Targets(music, path);
  }

  // ----- Which recorded files are there -----

  /** The cycle's removals acted on p: it is the file or sidecar of an id whose removal was asked for. */
  predicate ActedOn(policy: Policy, music: Path, e: CycleEvent, w': World, p: Path)
  {
    (policy.Mirror? || policy.Trash?) && p in AllTargets(w'.rows, music, e.asked)
  }

  /** The last thing a run did to p was to leave a file there, not to act on it. */
  predicate Kept(policy: Policy, music: Path, ws: seq<World>, es: seq<CycleEvent>, p: Path)
    requires |ws| == |es| + 1 && forall i | 0 <= i < |es| :: |es[i].job.fates| == |es[i].job.tracks|
  {
    if es == [] then p in ws[0].files
    else
      var n := |es| - 1;
      !ActedOn(policy, music, es[n], ws[n + 1], p) && (p in Left(es[n]) || Kept(policy, music, ws[..n + 1], es[..n], p))
  }

  /** Removals at p go through: the cycle completes and no pending id has p among its targets. */
  ghost predicate Unhindered(music: Path, e: CycleEvent, w': World, p: Path)
  {
    e.done && forall id | id in e.pending :: p !in TargetsOf(w'.rows, music, id)
  }

  /** What the trash policy needs to know p by: nothing in the trash folder is recorded, and p is not in it. */
  ghost predicate OutOfTrash(policy: Policy, music: Path, e: CycleEvent, w': World, p: Path)
  {
    policy.Trash? ==> !UnderTrash(music, p) && OutsideTrash(w'.rows, music, e.asked)
  }

  /** A pass leaves every path it does not act on as it is. */
  lemma NotActedOn(policy: Policy, music: Path, w: World, e: CycleEvent, w': World, p: Path)
    requires CycleStep(policy, music, w, e, w') && OutOfTrash(policy, music, e, w', p)
    requires !ActedOn(policy, music, e, w', p)
    ensures p in w'.files <==> p in e.files
  {
    hide Downloads, PassFrame, Discharged, KeysOf, AllTargets, UnderTrash, Elems;
    if policy.Trash? {
      forall t | Trashable(music, t) ensures p != Slot(music, t) {
        SlotUnderTrash(music, t);
      }
      if p in e.files {
        assert FileKept(music, e.files, w'.files, AllTargets(w'.rows, music, e.asked), p);
      }
    }
  }

  /** A pass that acts on a path unhindered leaves nothing there. */
  lemma ActedOnIsGone(policy: Policy, music: Path, w: World, e: CycleEvent, w': World, p: Path)
    requires CycleStep(policy, music, w, e, w') && OutOfTrash(policy, music, e, w', p)
    requires ActedOn(policy, music, e, w', p) && Unhindered(music, e, w', p)
    ensures p !in w'.files
  {
    hide Downloads, PassFrame, PassFiles, KeysOf, AllTargets, TargetsOf, UnderTrash;
    var i := TargetFrom(w'.rows, music, e.asked, p);
    assert e.asked[i] in e.asked;
    assert Discharged(policy, w'.rows, music, w'.files, w'.dirs, e.asked[i]);
  }

  /**
   Over any run, a path at which the last thing that happened was a download leaving a file
   has its file. The converse holds too when removals at that path went through.
   */
  lemma {:induction false} PresentExactly(policy: Policy, music: Path, ws: seq<World>, es: seq<CycleEvent>, p: Path)
    requires Trace(policy, music, ws, es)
    requires forall i | 0 <= i < |es| :: OutOfTrash(policy, music, es[i], ws[i + 1], p)
    ensures forall i | 0 <= i < |es| :: |es[i].job.fates| == |es[i].job.tracks|
    ensures Kept(policy, music, ws, es, p) ==> p in ws[|es|].files
    ensures (forall i | 0 <= i < |es| && ActedOn(policy, music, es[i], ws[i + 1], p) ::
               Unhindered(music, es[i], ws[i + 1], p)) ==>
      (p in ws[|es|].files <==> Kept(policy, music, ws, es, p))
    decreases |es|
  {
    hide Reconciled, OutOfTrash, ActedOn, Unhindered, Sequential, LeftBy, FilesSequential;
    forall i | 0 <= i < |es| ensures |es[i].job.fates| == |es[i].job.tracks| {
      assert CycleStep(policy, music, ws[i], es[i], ws[i + 1]);
    }
    if es != [] {
      var n := |es| - 1;
      TracePrefix(policy, music, ws, es, n);
      PresentExactly(policy, music, ws[..n + 1], es[..n], p);
      var w, e, w' := ws[n], es[n], ws[n + 1];
      assert CycleStep(policy, music, w, e, w');
      FilesSequentialKeys(e.job, e.before, w.files, |e.job.tracks|);
      if ActedOn(policy, music, e, w', p) {
        if Unhindered(music, e, w', p) {
          ActedOnIsGone(policy, music, w, e, w', p);
        }
      } else {
        NotActedOn(policy, music, w, e, w', p);
      }
    }
  }

  /** Rows get their paths from downloads that left a file there. */
  lemma {:induction false} SequentialPaths(job: Job, rows: Table, n: nat, id: Id)
    requires |job.fates| == |job.tracks| && n <= |job.tracks|
    requires forall i | 0 <= i < |job.fates| :: FateOk(job.cfg, job.fates[i])
    ensures var now := Sequential(job, rows, n);
      id in now && now[id].path.Some? ==>
        now[id].path.value in LeftBy(job, rows, n) || (id in rows && rows[id].path == now[id].path)
  {
    hide Cancellation, PermanentFailure, Skips, LaidPaths, Itoa, Clean;
    if n > 0 {
      SequentialPaths(job, rows, n - 1, id);
    }
  }

  /** Every recorded path was left by some download of the run, or recorded when it began. */
  lemma {:induction false} RecordedWasLeft(policy: Policy, music: Path, ws: seq<World>, es: seq<CycleEvent>, id: Id)
    requires Trace(policy, music, ws, es)
    requires id in ws[|es|].rows && ws[|es|].rows[id].path.Some?
    ensures forall i | 0 <= i < |es| :: |es[i].job.fates| == |es[i].job.tracks|
    ensures var p := ws[|es|].rows[id].path.value;
      || (id in ws[0].rows && ws[0].rows[id].path == Some(p))
      || exists i | 0 <= i < |es| :: p in Left(es[i])
    decreases |es|
  {
    hide Reconciled, Sequential, LeftBy;
    forall i | 0 <= i < |es| ensures |es[i].job.fates| == |es[i].job.tracks| {
      assert CycleStep(policy, music, ws[i], es[i], ws[i + 1]);
    }
    if es != [] {
      var n := |es| - 1;
      var e := es[n];
      assert CycleStep(policy, music, ws[n], e, ws[n + 1]);
      SequentialPaths(e.job, e.before, |e.job.tracks|, id);
      var p := ws[n + 1].rows[id].path.value;
      if p !in Left(e) {
        TracePrefix(policy, music, ws, es, n);
        RecordedWasLeft(policy, music, ws[..n + 1], es[..n], id);
        if !(id in ws[0].rows && ws[0].rows[id].path == Some(p)) {
          var i :| 0 <= i < n && p in Left(es[..n][i]);
          assert p in Left(es[i]);
        }
      }
    }
  }

  /** The i-th cycle acted on p and no later one has left a file there again. */
  ghost predicate TakenBy(policy: Policy, music: Path, ws: seq<World>, es: seq<CycleEvent>, p: Path, i: int)
    requires |ws| == |es| + 1 && forall i | 0 <= i < |es| :: |es[i].job.fates| == |es[i].job.tracks|
  {
    && 0 <= i < |es| && ActedOn(policy, music, es[i], ws[i + 1], p)
    && forall j | i < j < |es| :: p !in Left(es[j])
  }

  /** Of a path that ever held a file, Kept says that no pass has acted on it since it was last left. */
  lemma {:induction false} KeptMeans(policy: Policy, music: Path, ws: seq<World>, es: seq<CycleEvent>, p: Path)
    requires |ws| == |es| + 1 && forall i | 0 <= i < |es| :: |es[i].job.fates| == |es[i].job.tracks|
    requires p in ws[0].files || exists i | 0 <= i < |es| :: p in Left(es[i])
    ensures Kept(policy, music, ws, es, p) <==> !exists i :: TakenBy(policy, music, ws, es, p, i)
    decreases |es|
  {
    hide ActedOn, Left;
    if es != [] {
      var n := |es| - 1;
      var vs, ds := ws[..n + 1], es[..n];
      if ActedOn(policy, music, es[n], ws[n + 1], p) {
        assert TakenBy(policy, music, ws, es, p, n);
      } else if p in Left(es[n]) {
        forall i ensures !TakenBy(policy, music, ws, es, p, i) {
        }
      } else {
        if p !in ws[0].files {
          var i :| 0 <= i < |es| && p in Left(es[i]);
          assert ds[i] == es[i];
        }
        KeptMeans(policy, music, vs, ds, p);
        forall i ensures TakenBy(policy, music, ws, es, p, i) <==> TakenBy(policy, music, vs, ds, p, i) {
          TakenShift(policy, music, ws, es, p, i);
        }
      }
    }
  }

  lemma TakenShift(policy: Policy, music: Path, ws: seq<World>, es: seq<CycleEvent>, p: Path, i: int)
    requires |ws| == |es| + 1 && forall i | 0 <= i < |es| :: |es[i].job.fates| == |es[i].job.tracks|
    requires es != [] && !ActedOn(policy, music, es[|es| - 1], ws[|es|], p) && p !in Left(es[|es| - 1])
    ensures var n := |es| - 1;
      TakenBy(policy, music, ws, es, p, i) <==> TakenBy(policy, music, ws[..n + 1], es[..n], p, i)
  {
    hide ActedOn, Left;
    var n := |es| - 1;
    var vs, ds := ws[..n + 1], es[..n];
    assert forall j | 0 <= j < n :: ds[j] == es[j] && vs[j + 1] == ws[j + 1];
    if TakenBy(policy, music, vs, ds, p, i) {
      forall j | i < j < |es| ensures p !in Left(es[j]) {
        assert j < n ==> p !in Left(ds[j]);
      }
    }
    if TakenBy(policy, music, ws, es, p, i) {
      assert i < n;
      forall j | i < j < |ds| ensures p !in Left(ds[j]) {
        assert p !in Left(es[j]);
      }
    }
  }

  /**
   "Every wanted track has its file", and exactly when it does. Over any run on a disk that
   nobody else touches, starting with every recorded file in place: a row's recorded file is
   there if and only if no removal pass has acted on its path since a download last left it,
   provided the passes that acted on it went through. Whether the track is wanted, and
   whether its row says done, makes no difference: removing a file keeps its row.
   */
  lemma RecordedFileExactly(policy: Policy, music: Path, ws: seq<World>, es: seq<CycleEvent>, id: Id)
    requires Trace(policy, music, ws, es)
    requires forall k | k in ws[0].rows && ws[0].rows[k].path.Some? :: ws[0].rows[k].path.value in ws[0].files
    requires id in ws[|es|].rows && ws[|es|].rows[id].path.Some?
    requires var p := ws[|es|].rows[id].path.value;
      forall i | 0 <= i < |es| ::
        && OutOfTrash(policy, music, es[i], ws[i + 1], p)
        && (ActedOn(policy, music, es[i], ws[i + 1], p) ==> Unhindered(music, es[i], ws[i + 1], p))
    ensures forall i | 0 <= i < |es| :: |es[i].job.fates| == |es[i].job.tracks|
    ensures var p := ws[|es|].rows[id].path.value;
      p in ws[|es|].files <==> !exists i :: TakenBy(policy, music, ws, es, p, i)
  {
    hide CycleStep, OutOfTrash, ActedOn, Unhindered, Kept, TakenBy, Left;
    var p := ws[|es|].rows[id].path.value;
    RecordedWasLeft(policy, music, ws, es, id);
    PresentExactly(policy, music, ws, es, p);
    KeptMeans(policy, music, ws, es, p);
  }

  // ----- What kind of paths are recorded -----

  predicate AllRecorded(rows: Table, good: Path -> bool)
  {
    forall id | id in rows && rows[id].path.Some? :: good(rows[id].path.value)
  }

  /** Whatever succeeds succeeds at a good destination. */
  predicate GoodFates(fates: seq<Fate>, good: Path -> bool)
  {
    forall i | 0 <= i < |fates| && fates[i].pipeline.Ok? :: good(fates[i].pipeline.value.dest)
  }

  lemma {:induction false} SequentialRecorded(job: Job, rows: Table, n: nat, good: Path -> bool)
    requires |job.fates| == |job.tracks| && n <= |job.tracks| && GoodFates(job.fates, good) && AllRecorded(rows, good)
    ensures AllRecorded(Sequential(job, rows, n), good)
  {
    hide Cancellation, PermanentFailure, Skips, Itoa;
    if n > 0 {
      SequentialRecorded(job, rows, n - 1, good);
    }
  }

  /** Over any run, at every moment, records are as good as those at the start and the destinations of the run. */
  lemma {:induction false} RunRecorded(
    policy: Policy, music: Path, ws: seq<World>, es: seq<CycleEvent>, n: nat, good: Path -> bool)
    requires Trace(policy, music, ws, es) && n <= |es| && AllRecorded(ws[0].rows, good)
    requires forall i | 0 <= i < |es| :: GoodFates(es[i].job.fates, good)
    ensures AllRecorded(ws[n].rows, good)
  {
    hide Reconciled, FateOk, Sequential, GoodFates;
    if n > 0 {
      RunRecorded(policy, music, ws, es, n - 1, good);
      assert CycleStep(policy, music, ws[n - 1], es[n - 1], ws[n]);
      assert AllRecorded(es[n - 1].before, good);
      SequentialRecorded(es[n - 1].job, es[n - 1].before, |es[n - 1].job.tracks|, good);
    }
  }

  // ----- Lossless throughout -----

  lemma {:induction false} SequentialLossless(job: Job, rows: Table, n: nat)
    requires |job.fates| == |job.tracks| && n <= |job.tracks|
    requires ValidQuality(job.cfg.request, job.cfg.floor)
    requires forall i | 0 <= i < |job.fates| :: FateOk(job.cfg, job.fates[i])
    requires NoLossyFile(rows)
    ensures NoLossyFile(Sequential(job, rows, n))
  {
    hide Cancellation, PermanentFailure, Skips, LaidPaths, Itoa, Clean;
    if n > 0 {
      SequentialLossless(job, rows, n - 1);
      assert FateOk(job.cfg, job.fates[n - 1]);
    }
  }

  /** Every recorded file was obtained at a lossless tier. */
  ghost predicate NoLossyFile(rows: Table)
  {
    forall id | id in rows :: rows[id].path == None || MeetsLosslessFloor(rows[id].obtained)
  }

  /** Under validated configs no run of cycles ever records a lossy file. */
  lemma {:induction false} RunNeverLossy(policy: Policy, music: Path, ws: seq<World>, es: seq<CycleEvent>)
    requires Trace(policy, music, ws, es) && NoLossyFile(ws[0].rows)
    requires forall i | 0 <= i < |es| :: ValidQuality(es[i].job.cfg.request, es[i].job.cfg.floor)
    ensures NoLossyFile(ws[|es|].rows)
    decreases |es|
  {
    hide Reconciled, FateOk, Sequential;
    if es != [] {
      var n := |es| - 1;
      TracePrefix(policy, music, ws, es, n);
      RunNeverLossy(policy, music, ws[..n + 1], es[..n]);
      assert CycleStep(policy, music, ws[n], es[n], ws[n + 1]);
      SequentialLossless(es[n].job, es[n].before, |es[n].job.tracks|);
    }
  }

  // ----- Stubs -----

  /** No id-only stub ever reaches downloadOne, whatever the interleaving of the workers. */
  lemma StubsNeverDownload(job: Job, rows: Table, dates: map<int, Str>, steps: seq<Workers.Step>, i: nat)
    requires |job.fates| == |job.tracks| && ListedOk(job.tracks, dates, rows, job.cfg)
    requires i < |job.tracks| && job.tracks[i].Stub?
    ensures ValidJob(job)
    ensures var p := Workers.Run(job, Workers.Initial(job, rows), steps).phases[i];
      !p.Piping? && !p.Marking? && !p.Marked? && p != Finished(WasDownloaded)
  {
    hide Skips, Itoa;
    SettledNeverDownloads(job, rows, steps, i);
  }

  // ----- The fixpoint -----

  /** The cycle ended with successes and recorded permanent failures only. */
  ghost predicate AllSettled(job: Job, rows: Table)
    requires |job.fates| == |job.tracks|
  {
    forall i | 0 <= i < |job.tracks| :: SettledBy(job, rows, i)
  }

  ghost predicate SettledBy(job: Job, rows: Table, i: nat)
    requires |job.fates| == |job.tracks| && i < |job.tracks|
  {
    var t, fate := job.tracks[i], job.fates[i];
    var o := OutcomeOf(rows, t, job.cfg, fate);
    && fate.readFault.None? && o != Uncounted
    && (o == HasFailed ==> fate.recordFault.None? && PermanentFailure(Cause(rows, t, job.cfg, fate).value))
  }

  lemma SettledLater(rows: Table, t: Track, cfg: Config, fate: Fate)
    requires fate.readFault.None? && OutcomeOf(rows, t, cfg, fate) != Uncounted
    requires OutcomeOf(rows, t, cfg, fate) == HasFailed ==>
      fate.recordFault.None? && PermanentFailure(Cause(rows, t, cfg, fate).value)
    ensures Skips(After(rows, t, cfg, fate), t.Key(), cfg.(retryFailed := false))
  {
    hide Itoa, PermanentFailure;
  }

  lemma SkipsIgnoresGenre(a: Table, b: Table, id: Id, cfg: Config)
    requires SameButGenre(a, b)
    ensures Skips(a, id, cfg) == Skips(b, id, cfg)
  {
  }

  lemma SkippedStays(rows: Table, t: Track, cfg: Config, fate: Fate)
    requires fate.readFault.None? && Skips(rows, t.Key(), cfg)
    ensures After(rows, t, cfg, fate) == rows && OutcomeOf(rows, t, cfg, fate) == WasSkipped
    ensures !ReachesDownload(rows, t, cfg, fate)
  {
    hide Skips;
  }

  lemma {:induction false} AllSkipped(job: Job, rows: Table, n: nat)
    requires |job.fates| == |job.tracks| && n <= |job.tracks|
    requires forall i | 0 <= i < n :: job.fates[i].readFault.None? && Skips(rows, job.tracks[i].Key(), job.cfg)
    ensures Sequential(job, rows, n) == rows && LeftBy(job, rows, n) == {}
    ensures forall files :: FilesSequential(job, rows, files, n) == files
    ensures Tally(job, rows, n, WasSkipped) == n
    ensures Tally(job, rows, n, WasDownloaded) == Tally(job, rows, n, HasFailed) == Tally(job, rows, n, Uncounted) == 0
  {
    hide Skips, After, OutcomeOf, ReachesDownload, Itoa;
    if n > 0 {
      AllSkipped(job, rows, n - 1);
      SkippedStays(rows, job.tracks[n - 1], job.cfg, job.fates[n - 1]);
    }
  }

  /** Every track of an enumeration with the same ids is settled by the first cycle's rows. */
  lemma SettledAgain(first: Job, rows: Table, id: int)
    requires ValidJob(first) && AllSettled(first, rows) && id in TrackIds(first.tracks)
    ensures Skips(Sequential(first, rows, |first.tracks|), Itoa(id), first.cfg.(retryFailed := false))
  {
    hide Skips, After, OutcomeOf, Cause, PermanentFailure, Itoa, Sequential;
    var after := Sequential(first, rows, |first.tracks|);
    SequentialRow(first, rows, |first.tracks|);
    var j :| 0 <= j < |first.tracks| && first.tracks[j].id == id;
    assert SettledBy(first, rows, j) && SequentialOk(first, rows, |first.tracks|, j);
    SettledLater(rows, first.tracks[j], first.cfg, first.fates[j]);
    SkipsRow(after, After(rows, first.tracks[j], first.cfg, first.fates[j]), first.tracks[j].Key(),
             first.cfg.(retryFailed := false));
  }

  lemma SameKeys(a: seq<Track>, b: seq<Track>)
    requires TrackIds(a) == TrackIds(b)
    ensures KeysOf(a) == KeysOf(b)
  {
    hide Itoa;
    KeysWithin(a, b);
    KeysWithin(b, a);
  }

  lemma KeysWithin(a: seq<Track>, b: seq<Track>)
    requires TrackIds(a) <= TrackIds(b)
    ensures KeysOf(a) <= KeysOf(b)
  {
    hide Itoa;
    forall k | k in KeysOf(a) ensures k in KeysOf(b) {
      var i :| 0 <= i < |a| && a[i].Key() == k;
      assert a[i].id in TrackIds(b);
      var j :| 0 <= j < |b| && b[j].id == a[i].id;
      assert b[j].Key() == k;
    }
  }

  /**
   The fixpoint. After a completed cycle with only successes and recorded permanent
   failures, a completed cycle that enumerates the same ids, makes the same request and is
   not told to retry skips every track, changes no row but for genres, leaves no file, and
   is asked for exactly the removals that were pending.
   */
  lemma SecondCycle(policy: Policy, music: Path, w: World, e: CycleEvent, w': World, f: CycleEvent, w'': World)
    requires CycleStep(policy, music, w, e, w') && CycleStep(policy, music, w', f, w'') && e.done && f.done
    requires AllSettled(e.job, e.before) && TrackIds(f.job.tracks) == TrackIds(e.job.tracks)
    requires f.job.cfg == e.job.cfg.(retryFailed := false)
    requires forall i | 0 <= i < |f.job.fates| :: f.job.fates[i].readFault.None?
    ensures var n := |f.job.tracks|;
      && Tally(f.job, f.before, n, WasSkipped) == n
      && Tally(f.job, f.before, n, WasDownloaded) == Tally(f.job, f.before, n, HasFailed) == 0
      && SameButGenre(w'.rows, w''.rows) && Left(f) == {} && f.files == w'.files
      && Elems(f.asked) == Elems(e.pending)
  {
    hide PassFiles, PassFrame, Discharged, Skips, Sequential, Tally, LeftBy, FilesSequential, AllSettled, Itoa;
    hide KeysOf, TrackIds;
    var n := |f.job.tracks|;
    forall i | 0 <= i < n ensures Skips(f.before, f.job.tracks[i].Key(), f.job.cfg) {
      assert f.job.tracks[i].id in TrackIds(f.job.tracks);
      SettledAgain(e.job, e.before, f.job.tracks[i].id);
      SkipsIgnoresGenre(w'.rows, f.before, f.job.tracks[i].Key(), f.job.cfg);
    }
    AllSkipped(f.job, f.before, n);
    SameKeys(e.job.tracks, f.job.tracks);
  }

  /**
   Raising the request, instead, attempts again exactly the tracks whose row was recorded
   below the new request.
   */
  lemma RaisedRequestRetries(
    policy: Policy, music: Path, w: World, e: CycleEvent, w': World, f: CycleEvent, w'': World, i: nat)
    requires CycleStep(policy, music, w, e, w') && CycleStep(policy, music, w', f, w'')
    requires AllSettled(e.job, e.before) && TrackIds(f.job.tracks) == TrackIds(e.job.tracks)
    requires !f.job.cfg.retryFailed && i < |f.job.tracks| && f.job.fates[i].readFault.None?
    ensures var id := f.job.tracks[i].Key();
      && id in w'.rows
      && (ReachesDownload(f.before, f.job.tracks[i], f.job.cfg, f.job.fates[i]) <==>
            Rank(w'.rows[id].requested) < Rank(f.job.cfg.request))
  {
    hide Reconciled, Skips, Sequential, AllSettled, Itoa, TrackIds, FilesSequential;
    var id := f.job.tracks[i].Key();
    assert f.job.tracks[i].id in TrackIds(f.job.tracks);
    SettledAgain(e.job, e.before, f.job.tracks[i].id);
    SkipsIgnoresGenre(w'.rows, f.before, id, f.job.cfg);
    SkipsMeans(w'.rows, id, e.job.cfg.(retryFailed := false), f.job.cfg);
  }

  lemma SkipsMeans(rows: Table, id: Id, cfg: Config, other: Config)
    requires Skips(rows, id, cfg) && cfg.retryFailed == other.retryFailed
    ensures id in rows && (Skips(rows, id, other) <==> Rank(rows[id].requested) >= Rank(other.request))
  {
  }
}
