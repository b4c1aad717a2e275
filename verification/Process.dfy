/**
 The per-track pipeline of one cycle (internal/sync/process.go) and its counters
 (summary.go): the store row it reads and writes, and the files it leaves on disk.
 */
module Process {
  import opened Wrappers
  import opened Text
  import opened Failure
  import opened Paths
  import opened Disk
  import opened Download
  import opened Tracks

  /** An enumerated track: full metadata, or the id alone when its collection came from the cache. */
  datatype Track =
    | Stub(id: int)
    | Full(id: int, isrc: Str, albumId: int, title: Str)
  {
    function Key(): Id { Itoa(id) }
    function Isrc(): Str { if Full? then isrc else [] }
    function AlbumKey(): Str { Itoa(if Full? then albumId else 0) }
    function Title(): Str { if Full? then title else [] }
  }

  datatype Config = Config(request: Tier, floor: Tier, retryFailed: bool)

  /**
   All that the outside world answers while one track is processed: the store when its row
   is read; album lookup and path rendering (before, dest); the provider and the staged
   write; checking and tagging (after) and the lyrics to put beside; and the store again.
   `published` says that a write that failed had already renamed its file into place.
   */
  datatype Told = Told(
    readFault: Option<Err>, before: Option<Err>, dest: Path, provider: Tier -> Answer,
    write: ManifestKind -> Option<Err>, published: bool, audio: Content, after: Option<Err>,
    lyrics: Option<Content>, genre: Str, markFault: Option<Err>, recordFault: Option<Err>)

  /** What a track that downloads, verifies and tags leaves to record. */
  datatype Obtained = Obtained(dest: Path, tier: Tier, genre: Str)

  /** How processing went: the store's answers, the pipeline's result, and the files it left, in order. */
  datatype Fate = Fate(
    readFault: Option<Err>, pipeline: Result<Obtained, Err>, left: seq<(Path, Content)>,
    markFault: Option<Err>, recordFault: Option<Err>)

  datatype Outcome = WasDownloaded | WasSkipped | HasFailed | Uncounted

  // ----- shouldSkip -----

  /** The row settles the track for this request: nothing would be downloaded again. */
  predicate Settled(row: Row, cfg: Config)
  {
    match row.status
    case Failed => !cfg.retryFailed && row.permanent && Rank(row.requested) >= Rank(cfg.request)
    case Done => Rank(row.requested) >= Rank(cfg.request)
    case Pending => false
  }

  predicate Skips(rows: Table, id: Id, cfg: Config) { id in rows && Settled(rows[id], cfg) }

  // ----- What processing one track does -----

  function DoneRow(t: Track, cfg: Config, o: Obtained): Row
  {
    Row(t.Isrc(), t.AlbumKey(), Some(o.dest), o.tier, cfg.request, o.genre, Done, false)
  }

  function FailedRow(t: Track, cfg: Config, cause: Err): Row
  {
    Row(t.Isrc(), t.AlbumKey(), None, NO_TIER, cfg.request, [], Failed, PermanentFailure(cause))
  }

  /** The cause markFailed is called with, if it is called. */
  function Cause(rows: Table, t: Track, cfg: Config, fate: Fate): Option<Err>
  {
    if fate.readFault.Some? then Some(Wrap(Wrap(fate.readFault.value)))
    else if Skips(rows, t.Key(), cfg) then None
    else match fate.pipeline
         case Err(e) => Some(e)
         case Ok(_) => if fate.markFault.Some? then Some(Wrap(Wrap(fate.markFault.value))) else None
  }

  function After(rows: Table, t: Track, cfg: Config, fate: Fate): Table
  {
    match Cause(rows, t, cfg, fate)
    case Some(cause) =>
      if Cancellation(cause) || fate.recordFault.Some? then rows
      else MarkedFailed(rows, t.Key(), FailedRow(t, cfg, cause))
    case None =>
      if Skips(rows, t.Key(), cfg) || fate.pipeline.Err? then rows
      else rows[t.Key() := DoneRow(t, cfg, fate.pipeline.value)]
  }

  function OutcomeOf(rows: Table, t: Track, cfg: Config, fate: Fate): Outcome
  {
    match Cause(rows, t, cfg, fate)
    case Some(cause) => if Cancellation(cause) then Uncounted else HasFailed
    case None => if Skips(rows, t.Key(), cfg) then WasSkipped else WasDownloaded
  }

  /** The track gets past shouldSkip, so its metadata is about to be used. */
  predicate ReachesDownload(rows: Table, t: Track, cfg: Config, fate: Fate)
  {
    fate.readFault.None? && !Skips(rows, t.Key(), cfg)
  }

  /** The files after laying these down in order. */
  function Lay(files: Files, left: seq<(Path, Content)>): Files
  {
    if left == [] then files
    else
      var last := left[|left| - 1];
      Lay(files, left[..|left| - 1])[last.0 := last.1]
  }

  function LaidPaths(left: seq<(Path, Content)>): (paths: set<Path>)
    ensures forall i | 0 <= i < |left| :: left[i].0 in paths
  {
    set file | file in left :: file.0
  }

  lemma LayNothing(files: Files)
    ensures Lay(files, []) == files
  {
  }

  lemma LaySnoc(files: Files, left: seq<(Path, Content)>, p: Path, c: Content)
    ensures Lay(files, left + [(p, c)]) == Lay(files, left)[p := c]
  {
    assert (left + [(p, c)])[..|left|] == left;
  }

  lemma {:induction false} LayKeys(files: Files, left: seq<(Path, Content)>)
    ensures Lay(files, left).Keys == files.Keys + LaidPaths(left)
    decreases |left|
  {
    if left != [] {
      var n := |left| - 1;
      LayKeys(files, left[..n]);
      assert left == left[..n] + [left[n]];
    }
  }

  function FilesAfter(files: Files, rows: Table, t: Track, cfg: Config, fate: Fate): Files
  {
    if ReachesDownload(rows, t, cfg, fate) then Lay(files, fate.left) else files
  }

  function ToldPaths(told: Told): set<Path> { {told.dest, LrcSidecar(told.dest)} }

  /** What the pipeline fails with when the disk does not take a directory or a file. */
  const DISK_ERROR: Err := Wrap(Leaf(Other(7)))

  /**
   What the pipeline comes to and which files it leaves on a disk that takes them: an error
   from before the download; what the download comes to, which may have published its file;
   an error of checking or tagging, with the file in place; or the file recorded, at the tier
   that was granted, with its lyrics beside it.
   */
  ghost function Undisturbed(told: Told, cfg: Config): (Result<Obtained, Err>, seq<(Path, Content)>)
  {
    if told.before.Some? then (Err(told.before.value), [])
    else match Delivery(told.provider, cfg.request, cfg.floor, told.write)
         case Err(e) => (Err(Wrap(e)), if told.published then [(told.dest, told.audio)] else [])
         case Ok(tier) =>
           if told.after.Some? then (Err(told.after.value), [(told.dest, told.audio)])
           else (Ok(Obtained(told.dest, tier, told.genre)),
                 [(told.dest, told.audio)]
                   + if told.lyrics.Some? then [(LrcSidecar(told.dest), told.lyrics.value)] else [])
  }

  /** The same on any disk: it may refuse the directory, or one of the files. */
  ghost predicate Piped(told: Told, cfg: Config, r: Result<Obtained, Err>, left: seq<(Path, Content)>)
  {
    var (best, files) := Undisturbed(told, cfg);
    || (r == best && left == files)
    || (told.before.None? && r == Err(DISK_ERROR) && left == [])
    || (left < files && r ==
          if Delivery(told.provider, cfg.request, cfg.floor, told.write).Err? then best else Err(DISK_ERROR))
  }

  /**
   A fate that these answers can lead to. Of a track that never gets as far as its pipeline
   the fate is that of a disk that takes nothing.
   */
  ghost predicate Follows(told: Told, cfg: Config, fate: Fate)
  {
    && fate.readFault == told.readFault && fate.markFault == told.markFault && fate.recordFault == told.recordFault
    && Piped(told, cfg, fate.pipeline, fate.left)
  }

  ghost function NotRun(told: Told): Fate
  {
    Fate(told.readFault, Err(if told.before.Some? then told.before.value else DISK_ERROR), [],
         told.markFault, told.recordFault)
  }

  lemma NotRunFollows(told: Told, cfg: Config)
    ensures Follows(told, cfg, NotRun(told))
  {
    hide Delivery;
  }

  /** A pipeline leaves no file but the destination and its sidecar; one that succeeds has left the destination. */
  lemma FollowsMeans(told: Told, cfg: Config, fate: Fate)
    requires Follows(told, cfg, fate)
    ensures LaidPaths(fate.left) <= ToldPaths(told)
    ensures told.before.Some? ==> fate.pipeline == Err(told.before.value) && fate.left == []
    ensures fate.pipeline.Ok? ==>
      && told.before.None? && told.after.None? && told.dest in LaidPaths(fate.left)
      && fate.pipeline.value.dest == told.dest && fate.pipeline.value.genre == told.genre
      && Delivery(told.provider, cfg.request, cfg.floor, told.write) == Ok(fate.pipeline.value.tier)
      && Rank(fate.pipeline.value.tier) >= Rank(cfg.floor)
  {
    hide LrcSidecar, Delivery;
    var got := Delivery(told.provider, cfg.request, cfg.floor, told.write);
    var files := Undisturbed(told, cfg).1;
    if got.Ok? {
      DeliveredTier(told.provider, cfg.request, cfg.floor, told.write);
    }
    assert fate.left <= files;
    forall p | p in LaidPaths(fate.left) ensures p in ToldPaths(told) {
      var i :| 0 <= i < |fate.left| && fate.left[i].0 == p;
      assert files[i] == fate.left[i];
    }
    if fate.pipeline.Ok? {
      assert fate.left[0] == (told.dest, told.audio);
    }
  }

  /** Nothing but the disk can keep the pipeline from succeeding. */
  ghost predicate Smooth(told: Told, cfg: Config)
  {
    && told.before.None? && told.after.None? && (forall kind :: told.write(kind).None?)
    && exists i :: Settles(told.provider, cfg.request, cfg.floor, i) && Streams(told.provider(LADDER[i]))
  }

  lemma SmoothSucceeds(told: Told, cfg: Config)
    requires Smooth(told, cfg)
    ensures Undisturbed(told, cfg).0.Ok?
  {
    hide Delivery, InBand, Accepted, Aborts;
    var i :| Settles(told.provider, cfg.request, cfg.floor, i) && Streams(told.provider(LADDER[i]));
    DeliveryIs(told.provider, cfg.request, cfg.floor, told.write, i);
  }

  predicate Streams(a: Answer) { a.Granted? && (a.playback.manifest.Bts? || a.playback.manifest.Dash?) }

  /** The row of a download: the track's own isrc and album, its destination and genre, and the tier granted. */
  ghost predicate RecordedAs(rows: Table, track: Track, told: Told, cfg: Config)
  {
    var got := Delivery(told.provider, cfg.request, cfg.floor, told.write);
    && track.Key() in rows && got.Ok? && told.before.None? && told.after.None? && told.markFault.None?
    && rows[track.Key()] == Row(
         if track.Full? then track.isrc else [], Itoa(if track.Full? then track.albumId else 0),
         Some(told.dest), got.value, cfg.request, told.genre, Done, false)
  }

  class Counters {
    var downloaded: nat
    var skipped: nat
    var failed: nat

    constructor ()
      ensures downloaded == skipped == failed == 0
    {
      downloaded, skipped, failed := 0, 0, 0;
    }
  }

  class Engine {
    const store: Store
    const disk: FileSystem
    const cfg: Config

    constructor (store: Store, disk: FileSystem, cfg: Config)
      ensures this.store == store && this.disk == disk && this.cfg == cfg
    {
      this.store, this.disk, this.cfg := store, disk, cfg;
    }

    method ShouldSkip(track: Track, fault: Option<Err>) returns (r: Result<bool, Err>)
      ensures fault.Some? ==> r == Err(Wrap(Wrap(fault.value)))
      ensures fault.None? ==> r == Ok(Skips(store.tracks, track.Key(), cfg))
    {
      var looked := store.GetTrack(track.Key(), fault);
      match looked
      case Err(e) => return Err(Wrap(e));
      case Ok(None) => return Ok(false);
      case Ok(Some(record)) =>
        if record.status == Failed {
          var skip := SkipPermanentFailure(record);
          return Ok(skip);
        }
        if record.status != Done {
          return Ok(false);
        }
        return Ok(Rank(record.requested) >= Rank(cfg.request));
    }

    method SkipPermanentFailure(record: Row) returns (skip: bool)
      requires record.status == Failed
      ensures skip == Settled(record, cfg)
    {
      if cfg.retryFailed {
        return false;
      }
      if !record.permanent {
        return false;
      }
      return Rank(record.requested) >= Rank(cfg.request);
    }

    /** Puts one file in place and notes it among those left. */
    method Put(p: Path, content: Content, ghost before: Files, ghost left: seq<(Path, Content)>, ghost room: set<Path>)
      returns (ok: bool, ghost now: seq<(Path, Content)>)
      requires disk.Valid() && disk.files == Lay(before, left)
      modifies disk
      ensures disk.Valid() && disk.files == Lay(before, now)
      ensures now == if ok then left + [(p, content)] else left
      ensures disk.dirs == old(disk.dirs)
      ensures ok <==> disk.refusals == old(disk.refusals)
      ensures disk.calm && Parent(p) in disk.dirs && old(Room(disk.files, disk.dirs, room)) && p in room ==>
        ok && Room(disk.files, disk.dirs, room)
    {
      hide Room, Lay;
      ghost var files, dirs := disk.files, disk.dirs;
      if disk.calm && Room(files, dirs, room) && p in room {
        assert Reachable(files, dirs, p) by { RoomFor(files, dirs, room, p); }
      }
      ok := disk.Leave(p, content);
      now := if ok then left + [(p, content)] else left;
      LaySnoc(before, left, p, content);
      if Room(files, dirs, room) && p in room {
        RoomStays(files, dirs, room, p, disk.files, disk.dirs);
      }
    }

    /** The directory of a destination is made before anything is downloaded. */
    method Prepare(dest: Path, ghost room: set<Path>) returns (err: Option<Err>)
      requires disk.Valid()
      modifies disk
      ensures disk.Valid() && disk.files == old(disk.files) && old(disk.dirs) <= disk.dirs
      ensures err.None? <==> disk.refusals == old(disk.refusals)
      ensures err.None? ==> Parent(dest) in disk.dirs
      ensures disk.calm && old(Room(disk.files, disk.dirs, room)) && dest in room ==>
        err.None? && Room(disk.files, disk.dirs, room)
    {
      hide Room, Blocked;
      ghost var files, dirs := disk.files, disk.dirs;
      if Room(files, dirs, room) && dest in room {
        RoomFor(files, dirs, room, dest);
        if dest != [] {
          ParentUnblocked(files, dest);
        }
      }
      err := disk.MkdirAll(Parent(dest));
      if Room(files, dirs, room) && dest in room {
        RoomStays(files, dirs, room, dest, disk.files, disk.dirs);
      }
    }

    /**
     The part of downloadOne from album lookup to the lyrics sidecar. Tags are written into
     the file in place, so its bytes are not followed any further.
     */
    method Pipeline(told: Told, ghost room: set<Path>)
      returns (r: Result<Obtained, Err>, ghost left: seq<(Path, Content)>)
      requires disk.Valid()
      modifies disk
      ensures disk.Valid() && disk.files == Lay(old(disk.files), left) && old(disk.dirs) <= disk.dirs
      ensures Follows(told, cfg, Fate(told.readFault, r, left, told.markFault, told.recordFault))
      ensures disk.calm && old(Room(disk.files, disk.dirs, room)) && ToldPaths(told) <= room ==>
        Room(disk.files, disk.dirs, room) && (r, left) == Undisturbed(told, cfg)
      ensures if disk.refusals == old(disk.refusals) then (r, left) == Undisturbed(told, cfg) else r.Err?
    {
      hide Room, Lay, Delivery, Settles, LrcSidecar, Exhausted;
      ghost var files := disk.files;
      left := [];
      LayNothing(files);
      if told.before.Some? {
        return Err(told.before.value), left;
      }
      var made := Prepare(told.dest, room);
      if made.Some? {
        return Err(DISK_ERROR), left;
      }
      SidecarParent(told.dest);
      var got := DownloadTrack(told.provider, cfg.request, cfg.floor, told.write);
      if got.Err? {
        if told.published {
          var _, now := Put(told.dest, told.audio, files, left, room);
          left := now;
        }
        return Err(Wrap(got.error)), left;
      }
      var put, now := Put(told.dest, told.audio, files, left, room);
      left := now;
      if !put {
        return Err(DISK_ERROR), left;
      }
      if told.after.Some? {
        return Err(told.after.value), left;
      }
      if told.lyrics.Some? {
        put, now := Put(LrcSidecar(told.dest), told.lyrics.value, files, left, room);
        left := now;
        if !put {
          return Err(DISK_ERROR), left;
        }
      }
      return Ok(Obtained(told.dest, got.value, told.genre)), left;
    }

    /** downloadOne: the pipeline, then markDone. */
    method DownloadOne(track: Track, told: Told, ghost room: set<Path>) returns (err: Option<Err>, ghost fate: Fate)
      requires disk.Valid()
      modifies store, disk
      ensures disk.Valid() && disk.files == Lay(old(disk.files), fate.left) && old(disk.dirs) <= disk.dirs
      ensures Follows(told, cfg, fate)
      ensures disk.calm && old(Room(disk.files, disk.dirs, room)) && ToldPaths(told) <= room ==>
        Room(disk.files, disk.dirs, room) && (fate.pipeline, fate.left) == Undisturbed(told, cfg)
      ensures if disk.refusals == old(disk.refusals) then (fate.pipeline, fate.left) == Undisturbed(told, cfg)
        else fate.pipeline.Err?
      ensures fate.pipeline.Err? ==> err == Some(fate.pipeline.error)
      ensures fate.pipeline.Ok? && fate.markFault.Some? ==> err == Some(Wrap(Wrap(fate.markFault.value)))
      ensures fate.pipeline.Ok? && fate.markFault.None? ==>
        err == None && store.tracks == old(store.tracks)[track.Key() := DoneRow(track, cfg, fate.pipeline.value)]
      ensures err.Some? ==> store.tracks == old(store.tracks)
    {
      hide Room, Lay, Piped, Undisturbed;
      var got, left := Pipeline(told, room);
      fate := Fate(told.readFault, got, left, told.markFault, told.recordFault);
      assert fate.markFault == told.markFault;
      if got.Err? {
        return Some(got.error), fate;
      }
      var marked := store.MarkTrack(track.Key(), DoneRow(track, cfg, got.value), told.markFault);
      if marked.Some? {
        return Some(Wrap(marked.value)), fate;
      }
      return None, fate;
    }

    method RecordFailure(track: Track, cause: Err, c: Counters, fault: Option<Err>)
      modifies store, c
      ensures store.tracks == if Cancellation(cause) || fault.Some? then old(store.tracks)
        else MarkedFailed(old(store.tracks), track.Key(), FailedRow(track, cfg, cause))
      ensures c.failed == old(c.failed) + (if Cancellation(cause) then 0 else 1)
      ensures c.downloaded == old(c.downloaded) && c.skipped == old(c.skipped)
      ensures !Cancellation(cause) && fault.None? ==>
        && track.Key() in store.tracks
        && var row := store.tracks[track.Key()];
           && row.status == Failed && row.requested == cfg.request && row.permanent == PermanentFailure(cause)
           && if track.Key() in old(store.tracks) then
                row == old(store.tracks)[track.Key()].(
                         status := row.status, requested := row.requested, permanent := row.permanent)
              else
                && row.isrc == (if track.Full? then track.isrc else [])
                && row.albumId == Itoa(if track.Full? then track.albumId else 0)
                && row.path == None && row.obtained == NO_TIER && row.genre == []
    {
      if Is(cause, Canceled) || Is(cause, DeadlineExceeded) {
        return;
      }
      var permanent := PermanentFailure(cause);
      c.failed := c.failed + 1;
      var record := Row(track.Isrc(), track.AlbumKey(), None, NO_TIER, cfg.request, [], Failed, permanent);
      var _ := store.MarkFailed(track.Key(), record, fault);
    }

    /**
     processTrack: exactly one counter moves, or none for a cancellation; only the track's
     own row changes; and files are left only by a track that gets past shouldSkip.
     */
    method ProcessTrack(track: Track, c: Counters, told: Told, ghost room: set<Path>) returns (ghost fate: Fate)
      requires disk.Valid()
      modifies store, c, disk
      ensures disk.Valid() && old(disk.dirs) <= disk.dirs
      ensures Follows(told, cfg, fate)
      ensures store.tracks == After(old(store.tracks), track, cfg, fate)
      ensures disk.files == FilesAfter(old(disk.files), old(store.tracks), track, cfg, fate)
      ensures var o := OutcomeOf(old(store.tracks), track, cfg, fate);
        && c.downloaded == old(c.downloaded) + (if o == WasDownloaded then 1 else 0)
        && c.skipped == old(c.skipped) + (if o == WasSkipped then 1 else 0)
        && c.failed == old(c.failed) + (if o == HasFailed then 1 else 0)
      ensures disk.calm && old(Room(disk.files, disk.dirs, room)) && ToldPaths(told) <= room ==>
        Room(disk.files, disk.dirs, room)
          && (ReachesDownload(old(store.tracks), track, cfg, fate) ==>
                (fate.pipeline, fate.left) == Undisturbed(told, cfg))
      ensures OutcomeOf(old(store.tracks), track, cfg, fate) == WasDownloaded ==>
        RecordedAs(store.tracks, track, told, cfg)
    {
      hide Room, Lay, Cancellation, PermanentFailure, MarkedFailed, Settled, ToldPaths, Piped, Undisturbed, Delivery;
      hide Itoa;
      fate := NotRun(told);
      NotRunFollows(told, cfg);
      var skip := ShouldSkip(track, told.readFault);
      if skip.Err? {
        RecordFailure(track, skip.error, c, told.recordFault);
        return;
      }
      if skip.value {
        c.skipped := c.skipped + 1;
        return;
      }
      var err;
      err, fate := DownloadOne(track, told, room);
      FollowsMeans(told, cfg, fate);
      if err.Some? {
        RecordFailure(track, err.value, c, told.recordFault);
        return;
      }
      c.downloaded := c.downloaded + 1;
    }
  }

  lemma RoomFor(files: Files, dirs: Dirs, room: set<Path>, p: Path)
    requires Room(files, dirs, room) && p in room
    ensures Reachable(files, dirs, p)
  {
  }

  // ----- What one track's processing depends on and leaves behind -----

  /** Only the track's own row is read or written. */
  lemma ProcessIsLocal(a: Table, b: Table, t: Track, cfg: Config, fate: Fate)
    requires SameRow(a, b, t.Key())
    ensures Cause(a, t, cfg, fate) == Cause(b, t, cfg, fate)
    ensures OutcomeOf(a, t, cfg, fate) == OutcomeOf(b, t, cfg, fate)
    ensures SameRow(After(a, t, cfg, fate), After(b, t, cfg, fate), t.Key())
    ensures forall k | k != t.Key() :: SameRow(After(a, t, cfg, fate), a, k)
  {
    assert Skips(a, t.Key(), cfg) == Skips(b, t.Key(), cfg);
  }

  /**
   A track is settled by its own processing exactly when it was skipped or downloaded,
   or its permanent failure was recorded and no retry is asked for: a transient failure is
   always tried again.
   */
  lemma SettlesItself(rows: Table, t: Track, cfg: Config, fate: Fate)
    requires fate.readFault.None?
    ensures Skips(After(rows, t, cfg, fate), t.Key(), cfg) <==>
      var o, cause := OutcomeOf(rows, t, cfg, fate), Cause(rows, t, cfg, fate);
      || o == WasSkipped || o == WasDownloaded
      || (o == HasFailed && fate.recordFault.None? && PermanentFailure(cause.value) && !cfg.retryFailed)
  {
  }

  // ----- The table over any engine-driven history -----

  /** One thing the engine does to the table: process a track, or backfill a genre. */
  datatype Turn = Processed(track: Track, cfg: Config, fate: Fate) | GenreFound(id: Id, genre: Str)

  function Play(turns: seq<Turn>): Table
  {
    if turns == [] then map[]
    else
      var rows := Play(turns[..|turns| - 1]);
      match turns[|turns| - 1]
      case Processed(t, cfg, fate) => After(rows, t, cfg, fate)
      case GenreFound(id, genre) => WithGenre(rows, id, genre)
  }

  /** The event a turn adds to the table's history, if it writes at all. */
  function EventOf(rows: Table, turn: Turn): seq<Event>
  {
    match turn
    case GenreFound(id, genre) => [Backfilled(id, genre)]
    case Processed(t, cfg, fate) =>
      match Cause(rows, t, cfg, fate)
      case Some(cause) =>
        if Cancellation(cause) || fate.recordFault.Some? then []
        else [DownloadFailed(t.Key(), FailedRow(t, cfg, cause))]
      case None =>
        if OutcomeOf(rows, t, cfg, fate) == WasDownloaded && fate.pipeline.Ok?
        then [Downloaded(t.Key(), DoneRow(t, cfg, fate.pipeline.value))] else []
  }

  function History(turns: seq<Turn>): seq<Event>
  {
    if turns == [] then []
    else History(turns[..|turns| - 1]) + EventOf(Play(turns[..|turns| - 1]), turns[|turns| - 1])
  }

  /** The engine's table is the one its history of downloads, failures and backfills accounts for. */
  lemma {:induction false} HistoryAccounts(turns: seq<Turn>)
    ensures Replay(History(turns)) == Play(turns)
  {
    hide After;
    if turns != [] {
      var before, turn := turns[..|turns| - 1], turns[|turns| - 1];
      HistoryAccounts(before);
      var events, more := History(before), EventOf(Play(before), turn);
      TurnApplies(Play(before), turn);
      if more == [] {
        assert events + more == events;
      } else {
        assert (events + more)[..|events + more| - 1] == events;
      }
    }
  }

  lemma TurnApplies(rows: Table, turn: Turn)
    ensures var more := EventOf(rows, turn);
      && |more| <= 1
      && (if more == [] then rows else Apply(rows, more[0])) ==
         match turn
         case Processed(t, cfg, fate) => After(rows, t, cfg, fate)
         case GenreFound(id, genre) => WithGenre(rows, id, genre)
  {
  }

  /** The config is validated, and the fate is one that ProcessTrack can bring about. */
  ghost predicate Honest(turn: Turn)
  {
    turn.Processed? ==>
      ValidQuality(turn.cfg.request, turn.cfg.floor) && exists told :: Follows(told, turn.cfg, turn.fate)
  }

  lemma {:induction false} HistoryIsLossless(turns: seq<Turn>)
    requires forall i | 0 <= i < |turns| :: Honest(turns[i])
    ensures forall i | 0 <= i < |History(turns)| && History(turns)[i].Downloaded? ::
      MeetsLosslessFloor(History(turns)[i].row.obtained)
  {
    if turns != [] {
      HistoryIsLossless(turns[..|turns| - 1]);
      assert Honest(turns[|turns| - 1]);
    }
  }

  /** Under a validated config no run of the engine ever records a lossy file. */
  lemma EngineNeverLossy(turns: seq<Turn>, id: Id)
    requires forall i | 0 <= i < |turns| :: Honest(turns[i])
    requires id in Play(turns)
    ensures MeetsLosslessFloor(Play(turns)[id].obtained) || Play(turns)[id].path == None
  {
    HistoryAccounts(turns);
    HistoryIsLossless(turns);
    NeverLossy(History(turns), id);
  }
}
