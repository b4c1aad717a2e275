/**
 The sync cycle as it is performed (cmd/sync.go, executeSync; internal/sync/engine.go,
 SyncOnce): backfill genres, enumerate, process the tracks, reconcile removals, keep the
 ids whose removal is pending, replace the snapshot; once, and over many rounds. Exports,
 which come after the snapshot is stored, are not part of this model.
 */
module Sync {
  import opened Wrappers
  import opened Text
  import opened Failure
  import opened Paths
  import opened Disk
  import opened Tracks
  import opened Process
  import opened Collections
  import opened Enumerate
  import opened Snapshot
  import opened Removal
  import opened Workers
  import opened Cycle

  /**
   The configuration of one cycle and what the world answers during it. genre reads the
   genre of a recorded file, if it has one; a cancelled cycle processes only the tracks
   that `reached` says.
   */
  datatype Round = Round(
    cfg: Config, scope: Scope, token: Option<Err>,
    gapFault: Option<Err>, genre: Path -> Option<Str>, genreFault: Id -> Option<Err>,
    remote: Remote, faults: Faults, told: int -> Told, cancelled: Option<Err>, reached: int -> bool,
    diffFault: Option<Err>, trackFaults: Id -> Option<Err>, replaceFault: Option<Err>)

  /** Destinations are cleaned: downloadOne joins the root and the rendered name. */
  ghost predicate CleanTold(r: Round) { forall id :: Clean(r.told(id).dest) }

  /** Nothing but the remote's content and the tracks' own pipelines decides the cycle. */
  ghost predicate RoundWell(r: Round)
  {
    && r.token.None? && Healthy(r.remote, r.faults) && r.cancelled.None? && r.diffFault.None? && r.replaceFault.None?
    && forall id :: r.trackFaults(id).None?
  }

  function JobOf(tracks: seq<Track>, fates: seq<Fate>, cfg: Config): Job { Job(tracks, fates, cfg, 1) }

  /** The store keys of what the remote's favorites list. */
  function LiveKeys(r: Round, listing: Listing): set<Id>
  {
    set id | id in LiveIds(r.remote, r.scope, listing) :: Itoa(id)
  }

  // ----- Jobs under construction -----

  ghost predicate Agree(a: Job, b: Job, n: nat)
  {
    && |a.fates| == |a.tracks| && |b.fates| == |b.tracks| && a.tracks == b.tracks && a.cfg == b.cfg
    && n <= |a.tracks| && forall i | 0 <= i < n :: a.fates[i] == b.fates[i]
  }

  lemma {:induction false} SamePrefix(a: Job, b: Job, rows: Table, files: Files, n: nat)
    requires Agree(a, b, n)
    ensures Sequential(a, rows, n) == Sequential(b, rows, n)
    ensures FilesSequential(a, rows, files, n) == FilesSequential(b, rows, files, n)
    ensures forall o :: Tally(a, rows, n, o) == Tally(b, rows, n, o)
  {
    hide After, FilesAfter, OutcomeOf;
    if n > 0 {
      SamePrefix(a, b, rows, files, n - 1);
    }
  }

  lemma FollowsOk(told: Told, cfg: Config, fate: Fate)
    requires Follows(told, cfg, fate) && Clean(told.dest)
    ensures FateOk(cfg, fate)
  {
    hide Follows, LaidPaths, Clean;
    FollowsMeans(told, cfg, fate);
  }

  lemma UntouchedOk(rows: Table, files: Files, t: Track, cfg: Config)
    ensures FateOk(cfg, UNTOUCHED) && FilesAfter(files, rows, t, cfg, UNTOUCHED) == files
    ensures !ReachesDownload(rows, t, cfg, UNTOUCHED)
  {
  }

  lemma CleanAfter(rows: Table, t: Track, cfg: Config, fate: Fate)
    requires CleanRows(rows) && FateOk(cfg, fate)
    ensures CleanRows(After(rows, t, cfg, fate))
  {
    hide Clean, Cancellation, PermanentFailure, Skips, Itoa, LaidPaths;
  }

  /** On a disk with room for it, nothing but the world's answers decides a pipeline that is reached. */
  ghost predicate Ideal(r: Round, job: Job, rows: Table, i: nat)
    requires |job.fates| == |job.tracks| && i < |job.tracks|
  {
    IdealFate(r, rows, job.tracks[i], job.fates[i])
  }

  ghost predicate IdealFate(r: Round, rows: Table, t: Track, fate: Fate)
  {
    ReachesDownload(rows, t, r.cfg, fate) ==> (fate.pipeline, fate.left) == Undisturbed(r.told(t.id), r.cfg)
  }

  ghost predicate RoomForAll(r: Round, tracks: seq<Track>, room: set<Path>)
  {
    forall i | 0 <= i < |tracks| :: ToldPaths(r.told(tracks[i].id)) <= room
  }

  /** The fates of a job are those of its round, but for tracks a cancellation kept it from. */
  ghost predicate FatesOf(r: Round, job: Job, n: nat)
    requires |job.fates| == |job.tracks| && n <= |job.tracks|
  {
    forall i | 0 <= i < n :: FateOf(r, job.tracks[i], job.fates[i])
  }

  ghost predicate FateOf(r: Round, t: Track, fate: Fate)
  {
    if r.cancelled.Some? && !r.reached(t.id) then fate == UNTOUCHED else Follows(r.told(t.id), r.cfg, fate)
  }

  ghost predicate Counts(c: Counters, job: Job, rows: Table, n: nat, downloaded: nat, skipped: nat, failed: nat)
    requires |job.fates| == |job.tracks| && n <= |job.tracks|
    reads c
  {
    && c.downloaded == downloaded + Tally(job, rows, n, WasDownloaded)
    && c.skipped == skipped + Tally(job, rows, n, WasSkipped)
    && c.failed == failed + Tally(job, rows, n, HasFailed)
  }

  /** A done track whose file is there to be asked for its genre. */
  predicate GenreGap(row: Row) { row.status == Done && row.genre == [] && row.path.Some? }

  /** TracksMissingGenre. */
  function Gaps(rows: Table): set<Id> { set id | id in rows && GenreGap(rows[id]) }

  function Filled(row: Row, genre: Path -> Option<Str>): Row
  {
    if GenreGap(row) && genre(row.path.value).Some? then row.(genre := genre(row.path.value).value) else row
  }

  /** Every done track without a genre whose file has one has got it, and nothing else has changed. */
  ghost predicate GapsFilled(rows: Table, now: Table, genre: Path -> Option<Str>)
  {
    && now.Keys == rows.Keys
    && forall id | id in rows ::
         var row := rows[id];
         now[id] == if row.status == Done && row.genre == [] && row.path.Some? && genre(row.path.value).Some?
                    then row.(genre := genre(row.path.value).value) else row
  }

  /** The store does all the backfill asks of it. */
  ghost predicate Willing(r: Round) { r.gapFault.None? && forall id :: r.genreFault(id).None? }

  /** The gaps in todo are as they were, every other row is filled in. */
  ghost predicate Filling(rows: Table, now: Table, todo: set<Id>, genre: Path -> Option<Str>)
  {
    && todo <= rows.Keys && now.Keys == rows.Keys
    && (forall id | id in todo :: GenreGap(rows[id]))
    && forall id | id in rows :: now[id] == if id in todo then rows[id] else Filled(rows[id], genre)
  }

  lemma FillingStarts(rows: Table, genre: Path -> Option<Str>)
    ensures Filling(rows, rows, Gaps(rows), genre) && SameButGenre(rows, rows)
  {
  }

  lemma FillingSameButGenre(rows: Table, now: Table, todo: set<Id>, genre: Path -> Option<Str>)
    requires Filling(rows, now, todo, genre)
    ensures SameButGenre(rows, now) && (todo == {} ==> GapsFilled(rows, now, genre))
  {
  }

  lemma FillOne(rows: Table, now: Table, todo: set<Id>, genre: Path -> Option<Str>, id: Id)
    requires Filling(rows, now, todo, genre) && id in todo
    ensures id in now && now[id].path.Some?
    ensures var found := genre(now[id].path.value);
      Filling(rows, if found.Some? then WithGenre(now, id, found.value) else now, todo - {id}, genre)
  {
  }

  /** The snapshot items of tracks: the key, the listed title of a full track, and the date it was listed with. */
  ghost predicate ItemsFor(items: seq<SnapshotItem>, tracks: seq<Track>, dates: map<int, Str>)
  {
    && |items| == |tracks|
    && forall i | 0 <= i < |items| ::
         && items[i].tidalId == Itoa(tracks[i].id)
         && items[i].name == (if tracks[i].Full? then tracks[i].title else [])
         && items[i].addedAt == (if tracks[i].id in dates then dates[tracks[i].id] else [])
  }

  ghost predicate RemoteTracks(tracks: seq<Track>, remote: Remote)
  {
    forall i | 0 <= i < |tracks| :: tracks[i].Stub? || Lists(remote, tracks[i])
  }

  /** Names and dates in the stored snapshot: those listed for tracks, none for ids whose removal is pending. */
  ghost predicate SnapshotRows(favorites: Favorites, tracks: seq<Track>, dates: map<int, Str>, pending: seq<Id>)
  {
    && (forall i | 0 <= i < |tracks| ::
          && (TRACKS, Itoa(tracks[i].id)) in favorites
          && favorites[(TRACKS, Itoa(tracks[i].id))] ==
               Entry(if tracks[i].Full? then tracks[i].title else [],
                     if tracks[i].id in dates then dates[tracks[i].id] else []))
    && forall i | 0 <= i < |pending| ::
         (TRACKS, pending[i]) in favorites && favorites[(TRACKS, pending[i])] == Entry([], [])
  }

  class Syncer {
    const store: Store
    const table: SnapshotTable
    const cache: Cache
    const disk: FileSystem
    const music: Path
    const policy: Policy

    constructor (store: Store, table: SnapshotTable, cache: Cache, disk: FileSystem, music: Path, policy: Policy)
      ensures this.store == store && this.table == table && this.cache == cache && this.disk == disk
      ensures this.music == music && this.policy == policy
    {
      this.store, this.table, this.cache, this.disk := store, table, cache, disk;
      this.music, this.policy := music, policy;
    }

    ghost predicate Valid()
      reads cache, disk, store
    {
      cache.Valid() && disk.Valid() && Clean(music) && CleanRows(store.tracks)
    }

    ghost function Now(): World
      reads store, table, disk
    {
      World(store.tracks, Ids(table.favorites, TRACKS), disk.files, disk.dirs)
    }

    ghost predicate CacheOk(listing: Listing)
      reads cache
    {
      Coherent(cache.meta, cache.tracks, listing)
    }

    /** backfillGenres: only genres change, and with a willing store all that can be read are filled in. */
    method BackfillGenres(r: Round)
      modifies store
      ensures SameButGenre(old(store.tracks), store.tracks)
      ensures Willing(r) ==> GapsFilled(old(store.tracks), store.tracks, r.genre)
      ensures r.gapFault.Some? ==> unchanged(store)
    {
      hide GenreGap, Filling, SameButGenre, WithGenre, GapsFilled, Gaps;
      ghost var rows := store.tracks;
      FillingStarts(rows, r.genre);
      if r.gapFault.Some? {
        return;
      }
      var todo := Gaps(store.tracks);
      while todo != {}
        invariant Filling(rows, store.tracks, todo, r.genre)
      {
        var id :| id in todo;
        FillOne(rows, store.tracks, todo, r.genre, id);
        FillingSameButGenre(rows, store.tracks, todo, r.genre);
        todo := todo - {id};
        var found := r.genre(store.tracks[id].path.value);
        if found.None? {
          continue;
        }
        var err := store.SetTrackGenre(id, found.value, r.genreFault(id));
        if err.Some? {
          return;
        }
      }
      FillingSameButGenre(rows, store.tracks, todo, r.genre);
    }

    /**
     downloadAll, one track after the other: Workers.Conservation says that every
     interleaving, cut short or not, ends with the same table and counters.
     */
    method DownloadAll(tracks: seq<Track>, r: Round, c: Counters, ghost room: set<Path>) returns (ghost job: Job)
      requires disk.Valid() && CleanRows(store.tracks) && CleanTold(r)
      requires forall i, j | 0 <= i < j < |tracks| :: tracks[i].id != tracks[j].id
      modifies store, c, disk
      ensures disk.Valid() && CleanRows(store.tracks)
      ensures job.tracks == tracks && job.cfg == r.cfg && ValidJob(job) && FatesOf(r, job, |tracks|)
      ensures forall i | 0 <= i < |tracks| :: FateOk(r.cfg, job.fates[i])
      ensures store.tracks == Sequential(job, old(store.tracks), |tracks|)
      ensures disk.files == FilesSequential(job, old(store.tracks), old(disk.files), |tracks|)
      ensures Counts(c, job, old(store.tracks), |tracks|, old(c.downloaded), old(c.skipped), old(c.failed))
      ensures disk.calm && old(Room(disk.files, disk.dirs, room)) && RoomForAll(r, tracks, room) ==>
        Room(disk.files, disk.dirs, room) && forall i | 0 <= i < |tracks| :: Ideal(r, job, old(store.tracks), i)
    {
      hide After, CleanRows, Clean, Tree, Follows, Undisturbed, FateOk, Room, FilesAfter, OutcomeOf, ReachesDownload;
      hide Skips;
      hide ToldPaths, Sequential, FilesSequential, Tally, Itoa, SoFar, Ideals, RecordedAs;
      ghost var rows, files, good := store.tracks, disk.files,
        disk.calm && Room(disk.files, disk.dirs, room) && RoomForAll(r, tracks, room);
      job := JobOf(tracks, seq(|tracks|, i => UNTOUCHED), r.cfg);
      NothingYet(r, job, rows, files);
      var engine := new Engine(store, disk, r.cfg);
      for k := 0 to |tracks|
        invariant disk.Valid() && job.tracks == tracks && |job.fates| == |tracks| && job.cfg == r.cfg
        invariant SoFar(r, job, rows, files, k, store.tracks, disk.files)
        invariant Counts(c, job, rows, k, old(c.downloaded), old(c.skipped), old(c.failed))
        invariant good ==> Room(disk.files, disk.dirs, room) && Ideals(r, job, rows, k)
      {
        var track := tracks[k];
        ghost var fate := UNTOUCHED;
        ghost var rows', files' := store.tracks, disk.files;
        if r.cancelled.Some? && !r.reached(track.id) {
          UntouchedOk(rows', files', track, r.cfg);
          UntouchedLeaves(rows', track, r.cfg);
        } else {
          fate := engine.ProcessTrack(track, c, r.told(track.id), room);
          FollowsOk(r.told(track.id), r.cfg, fate);
        }
        SoFarOn(r, job, rows, files, k, rows', files', fate);
        job := job.(fates := job.fates[k := fate]);
      }
      AllDone(r, job, rows, files, store.tracks, disk.files);
    }

    /** A SyncOnce, whether it succeeded or not: what it made of the rows and the files. */
    ghost predicate Synced(r: Round, w: World, before: Table, job: Job)
      reads store, disk
    {
      && ValidJob(job) && job.cfg == r.cfg && FatesOf(r, job, |job.tracks|)
      && Downloads(w, CycleEvent(false, job, before, disk.files, disk.dirs, [], []), store.tracks)
    }

    /**
     Engine.SyncOnce. When it succeeds it has enumerated exactly the live ids, and returns
     one item per track with distinct keys. The cache stays coherent in any case.
     */
    method SyncOnce(r: Round, c: Counters, ghost room: set<Path>, ghost listing: Listing)
      returns (out: Result<seq<SnapshotItem>, Err>, ghost before: Table, ghost job: Job)
      requires Valid() && CleanTold(r)
      modifies store, cache, disk, c
      ensures Valid() && Synced(r, old(Now()), before, job)
      ensures r.token.None? && Willing(r) ==> GapsFilled(old(store.tracks), before, r.genre)
      ensures r.token.Some? ==> out == Err(Wrap(r.token.value)) && unchanged(store, cache, disk, c)
      ensures old(CacheOk(listing)) && AllTruthful(r.remote, listing) ==> CacheOk(listing)
      ensures out.Ok? ==> r.cancelled.None? && DistinctItems(out.value) && ItemIds(out.value) == KeysOf(job.tracks)
      ensures out.Ok? && old(CacheOk(listing)) && AllTruthful(r.remote, listing) ==>
        TrackIds(job.tracks) == LiveIds(r.remote, r.scope, listing)
      ensures Counts(c, job, before, |job.tracks|, old(c.downloaded), old(c.skipped), old(c.failed))
      ensures disk.calm && old(Room(disk.files, disk.dirs, room)) && RoomForAll(r, job.tracks, room) ==>
        Room(disk.files, disk.dirs, room) && forall i | 0 <= i < |job.tracks| :: Ideal(r, job, before, i)
      ensures r.token.None? && Healthy(r.remote, r.faults) && r.cancelled.None? ==> out.Ok?
      ensures out.Ok? ==> Ready(r.remote, r.scope, r.faults, before, r.cfg, old(cache.meta), old(cache.tracks))
      ensures r.token.None? && r.cancelled.None? && r.faults.prune(Album).None? && r.faults.prune(Playlist).None? ==>
        Ready(r.remote, r.scope, r.faults, before, r.cfg, old(cache.meta), old(cache.tracks)) ==> out.Ok?
      ensures out.Ok? ==> RemoteTracks(job.tracks, r.remote)
      ensures out.Ok? ==> ItemsFor(out.value, job.tracks, LiveDates(r.remote, r.scope))
    {
      hide AllTruthful, LiveIds, Healthy, TrackIds, Coherent, Clean, Tree, LiveDates, Unfavored, Sequential, Room;
      hide CleanTold, ListedOk, DesiredOk, DatedAreFull, DistinctItems, FilesSequential, Tally, KeysOf, ItemIds;
      hide Follows, Undisturbed, FateOk, ReachesDownload, ToldPaths, Willing, GapsFilled, Ready, Lists;
      before, job := store.tracks, JobOf([], [], r.cfg);
      NoTracks(r, before, disk.files);
      if r.token.Some? {
        return Err(Wrap(r.token.value)), before, job;
      }
      BackfillGenres(r);
      before := store.tracks;
      StillClean(old(store.tracks), before);
      NoTracks(r, before, disk.files);
      var enumerator := new Enumerator(store.tracks, r.cfg, cache);
      var listed := enumerator.Enumerate(r.remote, r.scope, r.faults, listing);
      if listed.Err? {
        return Err(listed.error), before, job;
      }
      var items := SnapshotItems(listed.value, enumerator.dates);
      ItemsOk(listed.value, enumerator.dates, items, before, r.cfg);
      job := DownloadAll(listed.value, r, c, room);
      if r.cancelled.Some? {
        return Err(Wrap(r.cancelled.value)), before, job;
      }
      return Ok(items), before, job;
    }

    method KeepPending(current: seq<SnapshotItem>, pending: seq<Id>) returns (snapshot: seq<SnapshotItem>)
      ensures snapshot == current + PendingItems(pending)
    {
      snapshot := current;
      for k := 0 to |pending|
        invariant snapshot == current + PendingItems(pending[..k])
      {
        snapshot := snapshot + [SnapshotItem(pending[k], [], [])];
      }
      assert pending[..|pending|] == pending;
    }

    /**
     One cycle. It fails only when something outside fails, and then keeps its snapshot. When
     it succeeds, the snapshot is what the remote's favorites list plus the pending ids, and
     every other id it used to list has been discharged.
     */
    method ExecuteSync(r: Round, c: Counters, ghost room: set<Path>, ghost listing: Listing)
      returns (err: Option<Err>, ghost e: CycleEvent)
      requires Valid() && CleanTold(r)
      modifies store, table, cache, disk, c
      ensures Valid() && CycleStep(policy, music, old(Now()), e, Now())
      ensures e.done <==> err.None?
      ensures err.Some? ==> table.favorites == old(table.favorites)
      ensures r.token.Some? ==> err == Some(Wrap(Wrap(r.token.value))) && unchanged(store, table, cache, disk, c)
      ensures RoundWell(r) ==> err.None?
      ensures e.job.cfg == r.cfg && FatesOf(r, e.job, |e.job.tracks|) && (e.done ==> r.cancelled.None?)
      ensures old(CacheOk(listing)) && AllTruthful(r.remote, listing) ==> CacheOk(listing)
      ensures old(CacheOk(listing)) && AllTruthful(r.remote, listing) && e.done ==>
        TrackIds(e.job.tracks) == LiveIds(r.remote, r.scope, listing) && e.Current() == LiveKeys(r, listing)
      ensures r.token.None? && Willing(r) ==> GapsFilled(old(store.tracks), e.before, r.genre)
      ensures e.done ==> Ready(r.remote, r.scope, r.faults, e.before, r.cfg, old(cache.meta), old(cache.tracks))
      ensures e.done ==> RemoteTracks(e.job.tracks, r.remote)
      ensures e.done ==> SnapshotRows(table.favorites, e.job.tracks, LiveDates(r.remote, r.scope), e.pending)
      ensures Counts(c, e.job, e.before, |e.job.tracks|, old(c.downloaded), old(c.skipped), old(c.failed))
      ensures disk.calm && old(Room(disk.files, disk.dirs, room)) && RoomForAll(r, e.job.tracks, room) ==>
        Room(e.files, e.dirs, room) && forall i | 0 <= i < |e.job.tracks| :: Ideal(r, e.job, e.before, i)
      ensures e.done && disk.calm ==> Effective(policy, music, e, Now())
    {
      hide Clean, Tree, CleanRows, Discharged, AllTruthful, LiveIds, Healthy, TrackIds, Coherent, Room, Itoa;
      hide CleanTold, Sequential, DistinctItems, ValidJob, Ascending, PassFiles, PassFrame, AllReachable, ClearWay;
      hide FilesSequential, Tally, KeysOf, ItemIds, Ids, FatesOf, FateOk, Ideal, RoomForAll, Willing, GapsFilled;
      hide Ready, RemoteTracks, ItemsFor, LiveDates, SnapshotRows;
      var synced, before, job := SyncOnce(r, c, room, listing);
      e := CycleEvent(false, job, before, disk.files, disk.dirs, [], []);
      if synced.Err? {
        PassStarts(policy, store.tracks, music, disk.files, disk.dirs);
        return Some(Wrap(synced.error)), e;
      }
      var current := synced.value;
      CurrentIsLive(r, job.tracks, listing);
      var remover := new Remover(disk, store.tracks, music, policy);
      var pending, removed := remover.Reconcile(table, current, r.diffFault, r.trackFaults);
      e := e.(asked := removed);
      if pending.Err? {
        return Some(Wrap(pending.error)), e;
      }
      e := e.(pending := pending.value);
      var snapshot := KeepPending(current, pending.value);
      RebuiltDistinct(current, pending.value);
      var replaced := table.ReplaceSnapshot(TRACKS, snapshot, r.replaceFault);
      if replaced.Some? {
        return Some(Wrap(replaced.value)), e;
      }
      RebuiltIds(current, pending.value);
      RowsRebuilt(table.favorites, current, pending.value, e.job.tracks, LiveDates(r.remote, r.scope));
      e := e.(done := true);
      return None, e;
    }

    /**
     Many cycles over one store, snapshot, cache and disk, failed ones among them. From a
     coherent cache and truthful remotes it performs one cycle per round.
     */
    method RunCycles(rounds: seq<Round>, ghost listing: Listing)
      returns (done: seq<bool>, ghost ws: seq<World>, ghost es: seq<CycleEvent>)
      requires Valid() && forall i | 0 <= i < |rounds| :: CleanTold(rounds[i])
      modifies store, table, cache, disk
      ensures Valid() && |done| == |es| == |rounds| && Trace(policy, music, ws, es)
      ensures ws[0] == old(Now()) && ws[|rounds|] == Now()
      ensures forall i | 0 <= i < |rounds| :: (done[i] <==> es[i].done) && (RoundWell(rounds[i]) ==> done[i])
      ensures old(CacheOk(listing)) && AllRoundsTruthful(rounds, listing) ==>
        CacheOk(listing) && Performed(policy, music, rounds, ws, es, listing)
    {
      hide CycleStep, AllTruthful, RoundWell, CycleOf, Coherent, Clean, Tree, CleanRows, CleanTold, Effective, Trace;
      hide FatesOf, LiveKeys, Counts, Ideal, Room, RoomForAll, KeysOf, TrackIds, LiveIds, Healthy, Ids;
      ghost var honest := CacheOk(listing) && AllRoundsTruthful(rounds, listing);
      done, ws, es := [], [Now()], [];
      NoCycles(policy, music, Now());
      for k := 0 to |rounds|
        invariant Valid() && |done| == |es| == k && |ws| == k + 1 && Trace(policy, music, ws, es)
        invariant ws[0] == old(Now()) && ws[k] == Now()
        invariant forall i | 0 <= i < k :: (done[i] <==> es[i].done) && (RoundWell(rounds[i]) ==> done[i])
        invariant honest ==> CacheOk(listing) && forall i | 0 <= i < k :: CycleOf(rounds[i], es[i], listing)
      {
        var c := new Counters();
        var err, e := ExecuteSync(rounds[k], c, {}, listing);
        TraceSnoc(policy, music, ws, es, e, Now());
        if honest {
          assert AllTruthful(rounds[k].remote, listing);
          ItsCycle(policy, music, ws[k], rounds[k], e, Now(), listing);
        }
        done, ws, es := done + [err.None?], ws + [Now()], es + [e];
      }
    }
  }

  ghost predicate AllRoundsTruthful(rounds: seq<Round>, listing: Listing)
  {
    forall i | 0 <= i < |rounds| :: AllTruthful(rounds[i].remote, listing)
  }

  // ----- Runs of cycles -----

  /** e is a cycle of round r; when it completed it enumerated exactly the ids that were live. */
  ghost predicate CycleOf(r: Round, e: CycleEvent, listing: Listing)
  {
    && |e.job.fates| == |e.job.tracks| && e.job.cfg == r.cfg && FatesOf(r, e.job, |e.job.tracks|)
    && (e.done ==>
          && r.cancelled.None? && e.Current() == LiveKeys(r, listing)
          && TrackIds(e.job.tracks) == LiveIds(r.remote, r.scope, listing))
  }

  ghost predicate Performed(
    policy: Policy, music: Path, rounds: seq<Round>, ws: seq<World>, es: seq<CycleEvent>, listing: Listing)
  {
    && Trace(policy, music, ws, es) && |rounds| == |es|
    && forall i | 0 <= i < |es| :: CycleOf(rounds[i], es[i], listing)
  }

  lemma NoCycles(policy: Policy, music: Path, w: World)
    ensures Trace(policy, music, [w], [])
  {
  }

  lemma ItsCycle(policy: Policy, music: Path, w: World, r: Round, e: CycleEvent, w': World, listing: Listing)
    requires CycleStep(policy, music, w, e, w') && e.job.cfg == r.cfg && FatesOf(r, e.job, |e.job.tracks|)
    requires e.done ==> r.cancelled.None? && e.Current() == LiveKeys(r, listing)
    requires e.done ==> TrackIds(e.job.tracks) == LiveIds(r.remote, r.scope, listing)
    ensures CycleOf(r, e, listing)
  {
  }

  /**
   Removal obligations, in terms of the remote: over any run, an id of the first snapshot
   that the remote no longer lists at any completed cycle stays in the snapshot until a
   cycle has discharged it.
   */
  lemma UnlistedUntilDischarged(
    policy: Policy, music: Path, rounds: seq<Round>, ws: seq<World>, es: seq<CycleEvent>, listing: Listing, id: Id)
    requires Performed(policy, music, rounds, ws, es, listing) && id in ws[0].favorites
    requires forall i | 0 <= i < |es| && es[i].done :: id !in LiveKeys(rounds[i], listing)
    ensures id in ws[|es|].favorites || exists i :: DischargedBy(policy, music, ws, es, id, i)
  {
    hide Trace, LiveKeys, FatesOf, KeysOf, DischargedBy;
    forall i | 0 <= i < |es| && es[i].done ensures id !in es[i].Current() {
      assert CycleOf(rounds[i], es[i], listing);
    }
    ObligationsNeverDropped(policy, music, ws, es, id);
  }

  /**
   The fixpoint, in terms of the remote. After a completed cycle with only successes and
   recorded permanent failures, a completed cycle for which the same ids are live, with the
   same request and no retry, skips every track, changes no row but for genres, leaves no
   file and is asked for exactly the removals that were pending.
   */
  lemma UnchangedRemote(
    policy: Policy, music: Path, rounds: seq<Round>, ws: seq<World>, es: seq<CycleEvent>, listing: Listing, i: nat)
    requires Performed(policy, music, rounds, ws, es, listing)
    requires i + 1 < |es| && es[i].done && es[i + 1].done && AllSettled(es[i].job, es[i].before)
    requires var r, next := rounds[i], rounds[i + 1];
      && LiveIds(next.remote, next.scope, listing) == LiveIds(r.remote, r.scope, listing)
      && next.cfg == r.cfg.(retryFailed := false) && forall id :: next.told(id).readFault.None?
    ensures var f, n := es[i + 1], |es[i + 1].job.tracks|;
      && n == |f.job.fates|
      && Tally(f.job, f.before, n, WasSkipped) == n
      && Tally(f.job, f.before, n, WasDownloaded) == Tally(f.job, f.before, n, HasFailed) == 0
      && SameButGenre(ws[i + 1].rows, ws[i + 2].rows) && Left(f) == {} && f.files == ws[i + 1].files
      && Elems(f.asked) == Elems(es[i].pending)
  {
    hide CycleStep, LiveKeys, LiveIds, TrackIds, KeysOf, AllSettled, Tally, Left;
    var e, f := es[i], es[i + 1];
    assert CycleOf(rounds[i], e, listing) && CycleOf(rounds[i + 1], f, listing);
    assert CycleStep(policy, music, ws[i], e, ws[i + 1]) && CycleStep(policy, music, ws[i + 1], f, ws[i + 2]);
    forall j | 0 <= j < |f.job.fates| ensures f.job.fates[j].readFault.None? {
      assert FateOf(rounds[i + 1], f.job.tracks[j], f.job.fates[j]);
    }
    SecondCycle(policy, music, ws[i], e, ws[i + 1], f, ws[i + 2]);
  }

  /** On a calm disk nothing stays pending that the tree does not stand in the way of, and no empty directory stays. */
  ghost predicate Effective(policy: Policy, music: Path, e: CycleEvent, w: World)
  {
    && (policy.Mirror? && AllReachable(e.files, e.dirs, AllTargets(w.rows, music, e.asked)) ==> e.pending == [])
    && (policy.Trash? && ClearWay(music, e.files, e.dirs, AllTargets(w.rows, music, e.asked)) ==> e.pending == [])
    && forall id | id in e.asked :: id in e.pending || Tidied(policy, w.rows, music, e.dirs, w.files, w.dirs, id)
  }

  /** The first k tracks have been processed. */
  ghost predicate SoFar(r: Round, job: Job, rows: Table, files: Files, k: nat, rows': Table, files': Files)
    requires |job.fates| == |job.tracks|
  {
    && k <= |job.tracks| && job.cfg == r.cfg && FatesOf(r, job, k) && CleanRows(rows')
    && (forall i | 0 <= i < |job.fates| :: FateOk(r.cfg, job.fates[i]))
    && rows' == Sequential(job, rows, k) && files' == FilesSequential(job, rows, files, k)
  }

  ghost predicate Ideals(r: Round, job: Job, rows: Table, k: nat)
    requires |job.fates| == |job.tracks| && k <= |job.tracks|
  {
    forall i | 0 <= i < k :: Ideal(r, job, rows, i)
  }

  lemma NothingYet(r: Round, job: Job, rows: Table, files: Files)
    requires |job.fates| == |job.tracks| && job.cfg == r.cfg && CleanRows(rows)
    requires forall i | 0 <= i < |job.fates| :: job.fates[i] == UNTOUCHED
    ensures SoFar(r, job, rows, files, 0, rows, files) && Ideals(r, job, rows, 0)
    ensures forall o :: Tally(job, rows, 0, o) == 0
  {
  }

  /** The folds over a job, one track further. */
  lemma OneMore(job: Job, rows: Table, files: Files, k: nat)
    requires |job.fates| == |job.tracks| && k < |job.tracks|
    ensures var t, now := job.tracks[k], Sequential(job, rows, k);
      && Sequential(job, rows, k + 1) == After(now, t, job.cfg, job.fates[k])
      && FilesSequential(job, rows, files, k + 1) ==
           FilesAfter(FilesSequential(job, rows, files, k), now, t, job.cfg, job.fates[k])
      && forall o :: Tally(job, rows, k + 1, o) ==
           Tally(job, rows, k, o) + if OutcomeOf(rows, t, job.cfg, job.fates[k]) == o then 1 else 0
  {
    hide After, FilesAfter, OutcomeOf;
  }

  lemma SoFarOn(
    r: Round, job: Job, rows: Table, files: Files, k: nat, rows': Table, files': Files, fate: Fate)
    requires |job.fates| == |job.tracks| && k < |job.tracks| && SoFar(r, job, rows, files, k, rows', files')
    requires forall i, j | 0 <= i < j < |job.tracks| :: job.tracks[i].id != job.tracks[j].id
    requires FateOf(r, job.tracks[k], fate) && FateOk(r.cfg, fate)
    ensures var next, t := job.(fates := job.fates[k := fate]), job.tracks[k];
      && SoFar(r, next, rows, files, k + 1, After(rows', t, r.cfg, fate), FilesAfter(files', rows', t, r.cfg, fate))
      && (forall o :: Tally(next, rows, k + 1, o) ==
            Tally(job, rows, k, o) + if OutcomeOf(rows', t, r.cfg, fate) == o then 1 else 0)
      && (Ideals(r, job, rows, k) && IdealFate(r, rows', t, fate) ==> Ideals(r, next, rows, k + 1))
  {
    hide After, FilesAfter, OutcomeOf, Sequential, FilesSequential, Tally, Clean, CleanRows, FateOk, FateOf;
    hide Undisturbed;
    hide ReachesDownload, Itoa;
    var next, t := job.(fates := job.fates[k := fate]), job.tracks[k];
    CleanAfter(rows', t, r.cfg, fate);
    SamePrefix(job, next, rows, files, k);
    OutcomeAlone(next, rows, k);
    OneMore(next, rows, files, k);
    assert FatesOf(r, next, k + 1);
    if Ideals(r, job, rows, k) && IdealFate(r, rows', t, fate) {
      forall i | 0 <= i < k + 1 ensures Ideal(r, next, rows, i) {
        assert i < k ==> Ideal(r, job, rows, i);
      }
    }
  }

  lemma AllDone(r: Round, job: Job, rows: Table, files: Files, rows': Table, files': Files)
    requires |job.fates| == |job.tracks| && SoFar(r, job, rows, files, |job.tracks|, rows', files')
    ensures FatesOf(r, job, |job.tracks|) && CleanRows(rows')
    ensures forall i | 0 <= i < |job.tracks| :: FateOk(r.cfg, job.fates[i])
    ensures rows' == Sequential(job, rows, |job.tracks|) && files' == FilesSequential(job, rows, files, |job.tracks|)
    ensures Ideals(r, job, rows, |job.tracks|) ==> forall i | 0 <= i < |job.tracks| :: Ideal(r, job, rows, i)
  {
  }

  lemma NoTracks(r: Round, rows: Table, files: Files)
    ensures var job := JobOf([], [], r.cfg);
      && ValidJob(job) && Sequential(job, rows, 0) == rows && FilesSequential(job, rows, files, 0) == files
      && forall o :: Tally(job, rows, 0, o) == 0
  {
  }

  lemma StillClean(a: Table, b: Table)
    requires CleanRows(a) && SameButGenre(a, b)
    ensures CleanRows(b)
  {
  }

  lemma ItemsOk(tracks: seq<Track>, dates: map<int, Str>, items: seq<SnapshotItem>, rows: Table, cfg: Config)
    requires |items| == |tracks| && forall i | 0 <= i < |items| :: items[i] == ItemOf(tracks[i], dates)
    requires ListedOk(tracks, dates, rows, cfg)
    ensures DistinctItems(items) && ItemIds(items) == KeysOf(tracks)
    ensures forall i, j | 0 <= i < j < |tracks| :: tracks[i].id != tracks[j].id
  {
    hide Itoa, Skips;
    forall i, j | 0 <= i < j < |items| ensures items[i].tidalId != items[j].tidalId {
      ItoaInjective(tracks[i].id, tracks[j].id);
    }
    forall k ensures k in ItemIds(items) <==> k in KeysOf(tracks) {
      if k in ItemIds(items) {
        var item :| item in items && item.tidalId == k;
        var i :| 0 <= i < |items| && items[i] == item;
        assert tracks[i].Key() == k;
      }
      if k in KeysOf(tracks) {
        var i :| 0 <= i < |tracks| && tracks[i].Key() == k;
        assert items[i] in items;
      }
    }
  }

  lemma CurrentIsLive(r: Round, tracks: seq<Track>, listing: Listing)
    ensures TrackIds(tracks) == LiveIds(r.remote, r.scope, listing) ==> KeysOf(tracks) == LiveKeys(r, listing)
  {
    hide Itoa, LiveIds, TrackIds;
    if TrackIds(tracks) == LiveIds(r.remote, r.scope, listing) {
      forall k ensures k in KeysOf(tracks) <==> k in LiveKeys(r, listing) {
        if k in KeysOf(tracks) {
          var i :| 0 <= i < |tracks| && tracks[i].Key() == k;
          assert tracks[i].id in LiveIds(r.remote, r.scope, listing);
        }
        if k in LiveKeys(r, listing) {
          var id :| id in LiveIds(r.remote, r.scope, listing) && Itoa(id) == k;
          var i :| 0 <= i < |tracks| && tracks[i].id == id;
          assert tracks[i].Key() == k;
        }
      }
    }
  }

  function PendingItems(ids: seq<Id>): (items: seq<SnapshotItem>)
    ensures |items| == |ids| && forall i | 0 <= i < |items| :: items[i] == SnapshotItem(ids[i], [], [])
  {
    seq(|ids|, i requires 0 <= i < |ids| => SnapshotItem(ids[i], [], []))
  }

  /** The rebuilt snapshot never repeats a key: pending ids repeat nothing and are not current. */
  lemma RebuiltDistinct(current: seq<SnapshotItem>, pending: seq<Id>)
    requires DistinctItems(current) && Ascending(pending) && forall id | id in pending :: id !in ItemIds(current)
    ensures DistinctItems(current + PendingItems(pending))
  {
    var items := current + PendingItems(pending);
    NoneListedTwice(pending);
    forall i, j | 0 <= i < j < |items| ensures items[i].tidalId != items[j].tidalId {
      if i < |current| <= j {
        assert items[i] in current;
        assert pending[j - |current|] in pending;
      }
    }
  }

  /** What replacing the snapshot stored for each of them. */
  lemma RowsRebuilt(
    favorites: Favorites, current: seq<SnapshotItem>, pending: seq<Id>, tracks: seq<Track>, dates: map<int, Str>)
    requires ItemsFor(current, tracks, dates)
    requires var items := current + PendingItems(pending);
      && Ids(favorites, TRACKS) == ItemIds(items)
      && forall i | 0 <= i < |items| && (TRACKS, items[i].tidalId) in favorites ::
           favorites[(TRACKS, items[i].tidalId)] == Entry(items[i].name, items[i].addedAt)
    ensures SnapshotRows(favorites, tracks, dates, pending)
  {
    hide Itoa;
    var items := current + PendingItems(pending);
    assert forall i | 0 <= i < |items| :: items[i].tidalId in ItemIds(items);
    forall i | 0 <= i < |tracks|
      ensures (TRACKS, Itoa(tracks[i].id)) in favorites
      ensures favorites[(TRACKS, Itoa(tracks[i].id))] ==
        Entry(if tracks[i].Full? then tracks[i].title else [],
          if tracks[i].id in dates then dates[tracks[i].id] else [])
    {
      assert items[i] == current[i];
    }
    forall i | 0 <= i < |pending|
      ensures (TRACKS, pending[i]) in favorites && favorites[(TRACKS, pending[i])] == Entry([], [])
    {
      assert items[|current| + i] == SnapshotItem(pending[i], [], []);
    }
  }

  lemma RebuiltIds(current: seq<SnapshotItem>, pending: seq<Id>)
    ensures ItemIds(current + PendingItems(pending)) == ItemIds(current) + Elems(pending)
  {
    var items := current + PendingItems(pending);
    forall id | id in pending ensures id in ItemIds(items) {
      var i :| 0 <= i < |pending| && pending[i] == id;
      assert items[|current| + i] in items;
    }
    forall id | id in ItemIds(current) ensures id in ItemIds(items) {
      var item :| item in current && item.tidalId == id;
      assert item in items;
    }
  }
}
