/**
 The tracks table (internal/store/tracks.go): rows that successes replace and
 failures only touch up. The updated_at stamp is not part of this model.
 */
module Tracks {
  import opened Wrappers
  import opened Text
  import opened Failure
  import opened Paths
  import opened Download

  /** A TIDAL id as the store keys it: decimal text. */
  type Id = Str

  datatype Status = Done | Failed | Pending

  /** path is None for the empty string. */
  datatype Row = Row(
    isrc: Str, albumId: Str, path: Option<Path>, obtained: Tier, requested: Tier,
    genre: Str, status: Status, permanent: bool)

  type Table = map<Id, Row>

  const NO_TIER := Unrecognized("")

  /** The upsert of MarkFailed: it keeps path, obtained quality and genre. */
  function MarkedFailed(rows: Table, id: Id, row: Row): Table
  {
    rows[id := if id in rows
               then rows[id].(requested := row.requested, status := row.status, permanent := row.permanent)
               else row.(path := None, obtained := NO_TIER, genre := [])]
  }

  function WithGenre(rows: Table, id: Id, genre: Str): Table
  {
    if id in rows then rows[id := rows[id].(genre := genre)] else rows
  }

  /** `fault` is the error the database may answer with instead of doing the work. */
  class Store {
    var tracks: Table

    constructor (tracks: Table)
      ensures this.tracks == tracks
    {
      this.tracks := tracks;
    }

    method MarkTrack(id: Id, row: Row, fault: Option<Err>) returns (err: Option<Err>)
      modifies this`tracks
      ensures err.Some? <==> fault.Some?
      ensures err.Some? ==> tracks == old(tracks) && err == Some(Wrap(fault.value))
      ensures err.None? ==> id in tracks && tracks[id] == row
      ensures err.None? ==> forall k | k != id :: SameRow(tracks, old(tracks), k)
      ensures err.None? ==> tracks == old(tracks)[id := row]
    {
      if fault.Some? {
        return Some(Wrap(fault.value));
      }
      tracks := tracks[id := row];
      return None;
    }

    method MarkFailed(id: Id, row: Row, fault: Option<Err>) returns (err: Option<Err>)
      modifies this`tracks
      ensures err.Some? <==> fault.Some?
      ensures tracks == if fault.Some? then old(tracks) else MarkedFailed(old(tracks), id, row)
    {
      if fault.Some? {
        return Some(Wrap(fault.value));
      }
      if id in tracks {
        var kept := tracks[id];
        tracks := tracks[id := kept.(requested := row.requested, status := row.status, permanent := row.permanent)];
      } else {
        tracks := tracks[id := row.(path := None, obtained := NO_TIER, genre := [])];
      }
      return None;
    }

    method SetTrackGenre(id: Id, genre: Str, fault: Option<Err>) returns (err: Option<Err>)
      modifies this`tracks
      ensures err.Some? <==> fault.Some?
      ensures tracks == if fault.Some? then old(tracks) else WithGenre(old(tracks), id, genre)
    {
      if fault.Some? {
        return Some(Wrap(fault.value));
      }
      if id in tracks {
        tracks := tracks[id := tracks[id].(genre := genre)];
      }
      return None;
    }

    /** The outer error is the database's; a missing row is the inner None. */
    method GetTrack(id: Id, fault: Option<Err>) returns (r: Result<Option<Row>, Err>)
      ensures r == if fault.Some? then Err(Wrap(fault.value)) else Ok(Lookup(tracks, id))
    {
      if fault.Some? {
        return Err(Wrap(fault.value));
      }
      return Ok(if id in tracks then Some(tracks[id]) else None);
    }
  }

  function Lookup(rows: Table, id: Id): Option<Row> { if id in rows then Some(rows[id]) else None }

  predicate SameRow(a: Table, b: Table, id: Id) { Lookup(a, id) == Lookup(b, id) }

  // ----- The history behind a row -----

  datatype Event = Downloaded(id: Id, row: Row) | DownloadFailed(id: Id, row: Row) | Backfilled(id: Id, genre: Str)

  function Apply(rows: Table, e: Event): Table
  {
    match e
    case Downloaded(id, row) => rows[id := row]
    case DownloadFailed(id, row) => MarkedFailed(rows, id, row)
    case Backfilled(id, genre) => WithGenre(rows, id, genre)
  }

  function Replay(events: seq<Event>): Table
  {
    if events == [] then map[] else Apply(Replay(events[..|events| - 1]), events[|events| - 1])
  }

  /** The row written by the last successful download of id. */
  function LastDownload(events: seq<Event>, id: Id): Option<Row>
  {
    if events == [] then None
    else
      var e := events[|events| - 1];
      if e.id == id && e.Downloaded? then Some(e.row) else LastDownload(events[..|events| - 1], id)
  }

  /** The row offered by the last download of id, failed or not. */
  function LastAttempt(events: seq<Event>, id: Id): Option<Row>
  {
    if events == [] then None
    else
      var e := events[|events| - 1];
      if e.id == id && !e.Backfilled? then Some(e.row) else LastAttempt(events[..|events| - 1], id)
  }

  /** The genre last written for id, by a download or a later backfill. */
  function LastGenre(events: seq<Event>, id: Id): Str
  {
    if events == [] then []
    else
      var e, before := events[|events| - 1], events[..|events| - 1];
      if e.id != id then LastGenre(before, id)
      else match e
           case Downloaded(_, row) => row.genre
           case DownloadFailed(_, _) => LastGenre(before, id)
           case Backfilled(_, genre) => if LastAttempt(before, id).Some? then genre else []
  }

  /**
   Record history. After any sequence of downloads, failures and genre backfills a row
   exists exactly for the ids that were attempted; its path and obtained quality are
   those of the last success, empty if there was none; what was requested, the status
   and the permanent flag are those of the last attempt.
   */
  lemma {:induction false} RecordHistory(events: seq<Event>, id: Id)
    ensures var row, success, last := Lookup(Replay(events), id), LastDownload(events, id), LastAttempt(events, id);
      && (row.Some? <==> last.Some?) && (success.Some? ==> last.Some?)
      && (row.Some? ==>
            && row.value.path == (if success.Some? then success.value.path else None)
            && row.value.obtained == (if success.Some? then success.value.obtained else NO_TIER)
            && row.value.genre == LastGenre(events, id)
            && row.value.requested == last.value.requested
            && row.value.status == last.value.status
            && row.value.permanent == last.value.permanent)
    ensures LastAttempt(events, id).None? ==> LastGenre(events, id) == []
  {
    if events != [] {
      RecordHistory(events[..|events| - 1], id);
    }
  }

  lemma {:induction false} LastDownloadHappened(events: seq<Event>, id: Id)
    ensures LastDownload(events, id).Some? ==> Downloaded(id, LastDownload(events, id).value) in events
  {
    if events != [] {
      var e, before := events[|events| - 1], events[..|events| - 1];
      LastDownloadHappened(before, id);
      assert forall x | x in before :: x in events;
    }
  }

  /** When every download met the lossless floor, no row claims a lossy tier: it is lossless or has no file at all. */
  lemma NeverLossy(events: seq<Event>, id: Id)
    requires forall i | 0 <= i < |events| && events[i].Downloaded? :: MeetsLosslessFloor(events[i].row.obtained)
    requires id in Replay(events)
    ensures var row := Replay(events)[id];
      MeetsLosslessFloor(row.obtained) || (row.obtained == NO_TIER && row.path == None)
  {
    RecordHistory(events, id);
    LastDownloadHappened(events, id);
    var success := LastDownload(events, id);
    if success.Some? {
      var i :| 0 <= i < |events| && events[i] == Downloaded(id, success.value);
    }
  }
}
