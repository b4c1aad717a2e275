/**
 One concrete run in which a wanted track has no file: it is downloaded, unfavorited, and
 favorited again. Cycle.RecordedFileExactly says exactly when that happens in general.
 */
module Refavorite {
  import opened Wrappers
  import opened Text
  import opened Paths
  import opened Disk
  import opened Download
  import opened Tracks
  import opened Process
  import opened Collections
  import opened Enumerate
  import opened Snapshot
  import opened Removal
  import opened Workers
  import opened Cycle
  import opened Sync

  const MUSIC: Path := [Ascii("music")]

  const DEST: Path := [Ascii("music"), Ascii("a.flac")]

  const TRACK: Track := Full(1, [], 1, [])

  const CFG := Config(HiResLossless, Lossless, false)

  /** Everything goes well: the best tier is granted, and the file is written, checked and tagged. */
  const TOLD := Told(
    None, None, DEST, _ => Granted(Playback(HiResLossless, Bts)), _ => None, false, [], None, None, [], None, None)

  const NO_FAULTS := Faults(_ => None, _ => None, _ => None, _ => true)

  function Favoriting(favorites: seq<Favorite>): Remote
  {
    Remote(Stream(favorites, None), Stream([], None), Stream([], None), _ => Stream([], None))
  }

  /** A cycle in which nothing fails, of a remote with these favorites only. */
  function RoundOf(favorites: seq<Favorite>): Round
  {
    Round(CFG, Scope(true, true, true, true), None, None, _ => None, _ => None, Favoriting(favorites), NO_FAULTS,
          _ => TOLD, None, _ => true, None, _ => None, None)
  }

  const LIKED := RoundOf([Favorite(TRACK, [])])

  const UNLIKED := RoundOf([])

  const KEY := Itoa(1)

  /** The two paths the pipeline may write to. */
  const ROOM := ToldPaths(TOLD)

  /** What a listing of no collections says. */
  function NoListing(): Listing { (_, _) => {} }

  lemma Names()
    ensures Clean(DEST) && Clean(MUSIC) && IsFlac(DEST)
  {
    var base := DEST[1];
    assert base[|base| - 5..] == FLAC;
  }

  lemma InsideMusic()
    ensures MUSIC <= DEST && WithinMusic(MUSIC, DEST) && Targets(MUSIC, DEST) <= ROOM
  {
    hide WithinMusic, LrcSidecar, Clean;
    Names();
    WithinExactly(MUSIC, DEST);
  }

  lemma EmptyTree()
    ensures Tree(map[], {[], MUSIC}) && Room(map[], {[], MUSIC}, ROOM)
  {
    hide LrcSidecar, IsFlac, Clean;
    Names();
    SidecarBeside(DEST);
    assert Parent(MUSIC) == [];
    assert |DEST| == 2 && |LrcSidecar(DEST)| == 2;
    assert forall p | p in ROOM :: |p| == 2;
  }

  lemma NothingFails(favorites: seq<Favorite>)
    ensures RoundWell(RoundOf(favorites)) && CleanTold(RoundOf(favorites))
    ensures AllTruthful(Favoriting(favorites), NoListing())
    ensures LiveIds(Favoriting(favorites), RoundOf(favorites).scope, NoListing()) == FavoriteIds(favorites)
  {
    hide Clean;
    Names();
    assert AlbumRefs(Favoriting(favorites)) == [] && PlaylistRefs(Favoriting(favorites)) == [];
  }

  lemma PipelineIsSmooth()
    ensures Smooth(TOLD, CFG)
  {
    assert Settles(TOLD.provider, CFG.request, CFG.floor, 0);
  }

  lemma LiveKeysOf(favorites: seq<Favorite>)
    requires FavoriteIds(favorites) <= {1}
    ensures LiveKeys(RoundOf(favorites), NoListing()) == if 1 in FavoriteIds(favorites) then {KEY} else {}
  {
    hide Itoa, LiveIds;
    NothingFails(favorites);
    var live := LiveKeys(RoundOf(favorites), NoListing());
    forall k | k in live ensures k == KEY && 1 in FavoriteIds(favorites) {
      var id :| id in FavoriteIds(favorites) && Itoa(id) == k;
    }
  }

  lemma SomeElem(ids: seq<Id>)
    ensures ids != [] ==> Elems(ids) != {}
  {
    assert ids != [] ==> ids[0] in Elems(ids);
  }

  lemma SomeTrack(tracks: seq<Track>)
    ensures tracks != [] ==> TrackIds(tracks) != {}
  {
    assert tracks != [] ==> tracks[0].id in TrackIds(tracks);
  }

  lemma TwoTracks(job: Job, id: int)
    requires ValidJob(job) && |job.tracks| > 1
    ensures TrackIds(job.tracks) != {id}
  {
    assert job.tracks[0].id in TrackIds(job.tracks) && job.tracks[1].id in TrackIds(job.tracks);
    assert job.tracks[0].id != job.tracks[1].id;
  }

  lemma OneTrack(job: Job)
    requires ValidJob(job) && TrackIds(job.tracks) == {1}
    ensures |job.tracks| == 1 && job.tracks[0].id == 1
  {
    var i :| 0 <= i < |job.tracks| && job.tracks[i].id == 1;
    if |job.tracks| > 1 {
      TwoTracks(job, 1);
    }
  }

  /** The track's row, once it has been downloaded. */
  ghost predicate HasRow(rows: Table)
  {
    && rows.Keys == {KEY}
    && rows[KEY].status == Done && rows[KEY].path == Some(DEST) && rows[KEY].requested == CFG.request
  }

  /** Nobody is recorded, so nothing is removed. */
  lemma NothingAsked(w: World, e: CycleEvent, w': World)
    requires Reconciled(Mirror, MUSIC, w, e, w') && e.done && w.favorites <= e.Current()
    ensures w'.favorites == e.Current() && w'.files == e.files && w'.dirs <= e.dirs
  {
    hide KeysOf;
    SomeElem(e.asked);
    assert AllTargets(w'.rows, MUSIC, e.asked) == {};
  }

  /** The only track of a job, met with no row, with a pipeline that succeeds. */
  lemma OnlyTrackDone(job: Job, files: Files)
    requires |job.fates| == |job.tracks| == 1 && job.tracks[0].Key() == KEY && job.cfg == CFG
    requires Follows(TOLD, CFG, job.fates[0]) && job.fates[0].pipeline.Ok?
    ensures HasRow(Sequential(job, map[], 1)) && Tally(job, map[], 1, WasDownloaded) == 1
    ensures DEST in FilesSequential(job, map[], files, 1)
  {
    hide Itoa, LaidPaths, Lay, ToldPaths, Piped, Delivery;
    FollowsMeans(TOLD, CFG, job.fates[0]);
    assert Sequential(job, map[], 0) == map[];
    LayKeys(files, job.fates[0].left);
  }

  lemma LikedLists1()
    ensures LiveIds(LIKED.remote, LIKED.scope, NoListing()) == {1} && LiveKeys(LIKED, NoListing()) == {KEY}
  {
    hide Itoa, LiveIds, LiveKeys, Clean;
    var favorites := [Favorite(TRACK, [])];
    NothingFails(favorites);
    assert favorites[0] in favorites;
    assert FavoriteIds(favorites) == {1};
    LiveKeysOf(favorites);
  }

  /** A cycle of the liked round is about that one track. */
  lemma LikedCycle(e: CycleEvent)
    requires CycleOf(LIKED, e, NoListing()) && e.done && ValidJob(e.job)
    ensures |e.job.fates| == |e.job.tracks| == 1 && e.job.tracks[0].id == 1 && e.job.cfg == CFG
    ensures Follows(TOLD, CFG, e.job.fates[0]) && e.Current() == {KEY}
  {
    hide Itoa, LiveIds, LiveKeys, TrackIds, KeysOf, Follows;
    LikedLists1();
    OneTrack(e.job);
    assert FateOf(LIKED, e.job.tracks[0], e.job.fates[0]);
  }

  /** The track is downloaded. */
  lemma First(w: World, e: CycleEvent, w': World)
    requires w == World(map[], {}, map[], {[], MUSIC}) && CycleStep(Mirror, MUSIC, w, e, w') && e.done
    requires CycleOf(LIKED, e, NoListing()) && Ideals(LIKED, e.job, e.before, |e.job.tracks|)
    requires Room(e.files, e.dirs, ROOM)
    ensures HasRow(w'.rows) && w'.favorites == {KEY} && DEST in w'.files && Room(w'.files, w'.dirs, ROOM)
    ensures Tally(e.job, e.before, |e.job.tracks|, WasDownloaded) == 1
  {
    hide Itoa, Reconciled, CycleOf, KeysOf, Smooth, Follows, ToldPaths, Room, Sequential, FilesSequential, Tally;
    hide HasRow;
    hide FateOk, Skips;
    LikedCycle(e);
    assert e.before == map[];
    assert Ideal(LIKED, e.job, e.before, 0);
    NoRowReaches(e.before, e.job.tracks[0], e.job.fates[0]);
    PipelineIsSmooth();
    SmoothSucceeds(TOLD, CFG);
    OnlyTrackDone(e.job, w.files);
    NothingAsked(w, e, w');
    RoomShrinks(e.files, e.dirs, ROOM, w'.files, w'.dirs);
  }

  lemma NoRowReaches(rows: Table, t: Track, fate: Fate)
    requires rows == map[] && Follows(TOLD, CFG, fate)
    ensures ReachesDownload(rows, t, CFG, fate)
  {
  }

  /** It is no longer a favorite: its file is removed and its row kept. */
  lemma Second(w: World, e: CycleEvent, w': World)
    requires HasRow(w.rows) && w.favorites == {KEY} && CycleStep(Mirror, MUSIC, w, e, w') && e.done
    requires CycleOf(UNLIKED, e, NoListing()) && Effective(Mirror, MUSIC, e, w')
    requires Room(e.files, e.dirs, ROOM)
    ensures HasRow(w'.rows) && w'.favorites == {} && DEST !in w'.files && Room(w'.files, w'.dirs, ROOM)
  {
    hide Itoa, LiveKeys, LiveIds, KeysOf, LrcSidecar, WithinMusic, Clean, ToldPaths;
    NothingFails([]);
    LiveKeysOf([]);
    SomeTrack(e.job.tracks);
    InsideMusic();
    forall p | p in AllTargets(w'.rows, MUSIC, e.asked) ensures Reachable(e.files, e.dirs, p) {
      var i := TargetFrom(w'.rows, MUSIC, e.asked, p);
    }
    RoomShrinks(e.files, e.dirs, ROOM, w'.files, w'.dirs);
    assert KEY in Elems(e.asked);
    assert DEST in TargetsOf(w'.rows, MUSIC, KEY);
  }

  /** It is one again, and skipped. */
  lemma Third(w: World, e: CycleEvent, w': World)
    requires HasRow(w.rows) && w.favorites == {} && DEST !in w.files && CycleStep(Mirror, MUSIC, w, e, w') && e.done
    requires CycleOf(LIKED, e, NoListing())
    ensures HasRow(w'.rows) && w'.favorites == {KEY} && DEST !in w'.files
    ensures Tally(e.job, e.before, |e.job.tracks|, WasSkipped) == 1
  {
    hide Itoa, Reconciled, CycleOf, KeysOf, LaidPaths, ToldPaths, Sequential, FilesSequential, Tally;
    LikedCycle(e);
    AllSkipped(e.job, e.before, 1);
    NothingAsked(w, e, w');
  }

  lemma EnoughRoom(favorites: seq<Favorite>, tracks: seq<Track>)
    ensures RoomForAll(RoundOf(favorites), tracks, ROOM)
  {
  }

  lemma HasIdeals(r: Round, job: Job, rows: Table)
    requires |job.fates| == |job.tracks| && forall i | 0 <= i < |job.tracks| :: Ideal(r, job, rows, i)
    ensures Ideals(r, job, rows, |job.tracks|)
  {
  }

  /** One cycle with nothing in its way. */
  method OneCycle(syncer: Syncer, favorites: seq<Favorite>) returns (c: Counters, ghost e: CycleEvent)
    requires syncer.Valid() && syncer.CacheOk(NoListing()) && syncer.policy == Mirror && syncer.music == MUSIC
    requires syncer.disk.calm && Room(syncer.disk.files, syncer.disk.dirs, ROOM)
    modifies syncer.store, syncer.table, syncer.cache, syncer.disk
    ensures syncer.Valid() && syncer.CacheOk(NoListing()) && fresh(c)
    ensures e.done && CycleOf(RoundOf(favorites), e, NoListing())
    ensures CycleStep(Mirror, MUSIC, old(syncer.Now()), e, syncer.Now())
    ensures c.downloaded == Tally(e.job, e.before, |e.job.tracks|, WasDownloaded)
    ensures c.skipped == Tally(e.job, e.before, |e.job.tracks|, WasSkipped)
    ensures Room(e.files, e.dirs, ROOM) && Ideals(RoundOf(favorites), e.job, e.before, |e.job.tracks|)
    ensures Effective(Mirror, MUSIC, e, syncer.Now())
  {
    hide CycleStep, Clean, Tree, Room, RoundWell, CleanTold, AllTruthful, LiveIds, LiveKeys, Effective, Coherent;
    hide FatesOf, KeysOf, TrackIds, Tally, Itoa, Ideal, ToldPaths, Ids, FavoriteIds, RoomForAll, CleanRows, Ideals;
    hide CycleOf;
    NothingFails(favorites);
    c := new Counters();
    var err, event := syncer.ExecuteSync(RoundOf(favorites), c, ROOM, NoListing());
    e := event;
    EnoughRoom(favorites, e.job.tracks);
    ItsCycle(Mirror, MUSIC, old(syncer.Now()), RoundOf(favorites), e, syncer.Now(), NoListing());
    JobFates(RoundOf(favorites), e);
    HasIdeals(RoundOf(favorites), e.job, e.before);
  }

  lemma JobFates(r: Round, e: CycleEvent)
    requires CycleOf(r, e, NoListing())
    ensures |e.job.fates| == |e.job.tracks|
  {
  }

  /**
   The run: the first cycle downloads the track's file; at the end the track is a favorite
   and recorded as done, with its file gone, and the last cycle counted it as skipped.
   */
  method DownloadUnlikeLike()
    returns (store: Store, table: SnapshotTable, disk: FileSystem, downloaded: nat, skipped: nat,
            ghost between: Files)
    ensures KEY in Ids(table.favorites, TRACKS) && HasRow(store.tracks) && DEST !in disk.files
    ensures downloaded == 1 && skipped == 1 && DEST in between
  {
    hide CycleStep, CycleOf, Clean, Tree, Room, HasRow, Effective, Ideals, Coherent, CleanRows;
    hide KeysOf, Tally, Itoa, ToldPaths, Ids, FavoriteIds;
    Names();
    EmptyTree();
    store := new Store(map[]);
    table := new SnapshotTable();
    disk := new FileSystem(map[], {[], MUSIC}, true);
    var cache := new Cache();
    var syncer := new Syncer(store, table, cache, disk, MUSIC, Mirror);
    Fresh();
    ghost var w0 := syncer.Now();
    var a, e := OneCycle(syncer, [Favorite(TRACK, [])]);
    ghost var w1 := syncer.Now();
    First(w0, e, w1);
    between := w1.files;
    var b, f := OneCycle(syncer, []);
    ghost var w2 := syncer.Now();
    Second(w1, f, w2);
    var c, g := OneCycle(syncer, [Favorite(TRACK, [])]);
    Third(w2, g, syncer.Now());
    downloaded, skipped := a.downloaded, c.skipped;
  }

  lemma Fresh()
    ensures CleanRows(map[]) && Coherent(map[], {}, NoListing()) && Ids(map[], TRACKS) == {}
  {
  }
}
