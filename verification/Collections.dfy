/** The collection cache tables (internal/store/collection.go). */
module Collections {
  import opened Wrappers
  import opened Failure
  import opened Tracks
  import opened Sorting

  datatype Kind = Album | Playlist

  datatype Coll = Coll(kind: Kind, id: Id)

  datatype CollectionCache = CollectionCache(version: Id, nTracks: nat, trackIds: seq<int>)

  /** collection_cache: one row per collection. */
  datatype Meta = Meta(version: Id, nTracks: nat)

  function Elements(ids: seq<int>): set<int> { set x | x in ids }

  predicate NoRepeat(ids: seq<int>) { forall i, j | 0 <= i < j < |ids| :: ids[i] != ids[j] }

  function TracksOf(tracks: set<(Coll, int)>, c: Coll): (ids: set<int>)
    ensures forall t :: t in ids <==> (c, t) in tracks
  {
    set row | row in tracks && row.0 == c :: row.1
  }

  /** The cached collections of a kind that are not to be kept. */
  function Doomed(meta: map<Coll, Meta>, kind: Kind, keep: seq<Id>): set<Coll>
  {
    set c | c in meta && c.kind == kind && c.id !in keep
  }

  function OfKind(meta: map<Coll, Meta>, kind: Kind): set<Coll> { set c | c in meta && c.kind == kind }

  /** The track rows of the other collections. */
  function Without(tracks: set<(Coll, int)>, gone: set<Coll>): set<(Coll, int)>
  {
    set row | row in tracks && row.0 !in gone
  }

  /** Of the collections of a kind these are still to be looked at, and those have been deleted. */
  ghost predicate Pruning(meta: map<Coll, Meta>, kind: Kind, keep: seq<Id>, todo: set<Coll>, gone: set<Coll>, done: nat)
  {
    var doomed := Doomed(meta, kind, keep);
    gone <= doomed && doomed - gone <= todo <= OfKind(meta, kind) && gone !! todo && |gone| == done
  }

  lemma PruningStarts(meta: map<Coll, Meta>, tracks: set<(Coll, int)>, kind: Kind, keep: seq<Id>)
    ensures Pruning(meta, kind, keep, OfKind(meta, kind), {}, 0)
    ensures meta - {} == meta && Without(tracks, {}) == tracks
  {
  }

  lemma PruningKeeps(
    meta: map<Coll, Meta>, kind: Kind, keep: seq<Id>, todo: set<Coll>, gone: set<Coll>, done: nat, c: Coll)
    requires Pruning(meta, kind, keep, todo, gone, done) && c in todo && c.id in keep
    ensures Pruning(meta, kind, keep, todo - {c}, gone, done)
  {
  }

  lemma PruningDrops(
    meta: map<Coll, Meta>, tracks: set<(Coll, int)>, kind: Kind, keep: seq<Id>, todo: set<Coll>, gone: set<Coll>,
    done: nat, c: Coll)
    requires Pruning(meta, kind, keep, todo, gone, done) && c in todo && c.id !in keep
    ensures Pruning(meta, kind, keep, todo - {c}, gone + {c}, done + 1)
    ensures done < |Doomed(meta, kind, keep)| && gone <= Doomed(meta, kind, keep) && |gone| == done
    ensures meta - gone - {c} == meta - (gone + {c})
    ensures Without(Without(tracks, gone), {c}) == Without(tracks, gone + {c})
  {
    MoreOf(gone, Doomed(meta, kind, keep), c);
  }

  lemma PruningEnds(meta: map<Coll, Meta>, kind: Kind, keep: seq<Id>, gone: set<Coll>, done: nat)
    requires Pruning(meta, kind, keep, {}, gone, done)
    ensures gone == Doomed(meta, kind, keep) && |gone| == done
  {
    hide Doomed, OfKind;
    forall c | c in Doomed(meta, kind, keep) ensures c in gone {
      assert c !in gone ==> c in Doomed(meta, kind, keep) - gone;
    }
  }

  lemma StillValid(meta: map<Coll, Meta>, tracks: set<(Coll, int)>, gone: set<Coll>)
    requires forall row | row in tracks :: row.0 in meta
    ensures forall row | row in Without(tracks, gone) :: row.0 in meta - gone
  {
  }

  /** What deleting some doomed collections with their tracks leaves. */
  lemma Pruned(meta: map<Coll, Meta>, tracks: set<(Coll, int)>, kind: Kind, keep: seq<Id>, gone: set<Coll>)
    requires gone <= Doomed(meta, kind, keep) && forall row | row in tracks :: row.0 in meta
    ensures var less, after := meta - gone, Without(tracks, gone);
      && (forall row | row in after :: row.0 in less)
      && less.Keys <= meta.Keys && (forall c | c in less :: less[c] == meta[c])
      && (forall c | c in meta && c !in less :: c.kind == kind && c.id !in keep)
      && (forall c, t :: (c, t) in after <==> (c, t) in tracks && c in less)
      && (gone == Doomed(meta, kind, keep) ==> forall c | c in less && c.kind == kind :: c.id in keep)
      && meta.Keys - less.Keys == gone
  {
    forall c, t ensures (c, t) in Without(tracks, gone) <==> (c, t) in tracks && c in meta - gone {
      assert (c, t) in tracks ==> (c, t).0 in meta;
    }
  }

  lemma {:induction false} MoreOf(a: set<Coll>, b: set<Coll>, c: Coll)
    requires a <= b && c in b - a
    ensures |a| < |b|
    decreases |a|
  {
    if a != {} {
      var x :| x in a;
      MoreOf(a - {x}, b - {x}, c);
    }
  }

  /** Both tables; tracks holds collection_track as (collection, track id) keys. */
  class Cache {
    var meta: map<Coll, Meta>
    var tracks: set<(Coll, int)>

    /** The foreign key. */
    ghost predicate Valid()
      reads this
    {
      forall row | row in tracks :: row.0 in meta
    }

    constructor ()
      ensures Valid() && meta == map[] && tracks == {}
    {
      meta, tracks := map[], {};
    }

    /** The row if there is one, its track ids ascending. */
    method GetCollection(c: Coll, fault: Option<Err>) returns (r: Result<Option<CollectionCache>, Err>)
      ensures fault.Some? ==> r == Err(Wrap(fault.value))
      ensures fault.None? ==> r.Ok? && (r.value.Some? <==> c in meta)
      ensures fault.None? && c in meta ==>
        && r.value.value.version == meta[c].version && r.value.value.nTracks == meta[c].nTracks
        && Elements(r.value.value.trackIds) == TracksOf(tracks, c)
        && forall i, j | 0 <= i < j < |r.value.value.trackIds| :: r.value.value.trackIds[i] < r.value.value.trackIds[j]
    {
      if fault.Some? {
        return Err(Wrap(fault.value));
      }
      if c !in meta {
        return Ok(None);
      }
      IntsOrdered();
      var ids := Sorted(TracksOf(tracks, c), Below);
      assert Elements(ids) == TracksOf(tracks, c);
      return Ok(Some(CollectionCache(meta[c].version, meta[c].nTracks, ids)));
    }

    /**
     One transaction: it either replaces the collection's rows by exactly ids, or, on a
     fault or a repeated id (the key of collection_track), leaves both tables alone.
     */
    method PutCollection(c: Coll, version: Id, ids: seq<int>, fault: Option<Err>) returns (err: Option<Err>)
      requires Valid()
      modifies this
      ensures Valid()
      ensures err.None? <==> fault.None? && NoRepeat(ids)
      ensures err.Some? ==> meta == old(meta) && tracks == old(tracks)
      ensures err.None? ==>
        && meta == old(meta)[c := Meta(version, |ids|)]
        && (forall t :: (c, t) in tracks <==> t in ids)
        && (forall d, t | d != c :: (d, t) in tracks <==> (d, t) in old(tracks))
    {
      var kept := set row | row in tracks && row.0 != c;
      for k := 0 to |ids|
        invariant meta == old(meta) && tracks == old(tracks)
        invariant NoRepeat(ids[..k])
        invariant forall t :: (c, t) in kept <==> t in ids[..k]
        invariant forall d, t | d != c :: (d, t) in kept <==> (d, t) in old(tracks)
        invariant forall row | row in kept :: row.0 == c || row in old(tracks)
      {
        var id := ids[k];
        if (c, id) in kept {
          assert id in ids[..k];
          return Some(Wrap(Leaf(Other(0))));
        }
        assert ids[..k + 1] == ids[..k] + [id];
        kept := kept + {(c, id)};
      }
      assert ids[..|ids|] == ids;
      if fault.Some? {
        return Some(Wrap(fault.value));
      }
      meta := meta[c := Meta(version, |ids|)];
      tracks := kept;
      return None;
    }

    /**
     Deletes the collections of a kind that are not in keep, one statement each, with their
     track rows; the statement after `stopAt` deletions fails and leaves the rest in place.
     `gone` are the collections deleted.
     */
    method PruneCollections(kind: Kind, keep: seq<Id>, stopAt: Option<nat>)
      returns (err: Option<Err>, ghost gone: set<Coll>)
      requires Valid()
      modifies this
      ensures Valid() && meta == old(meta) - gone && tracks == Without(old(tracks), gone)
      ensures gone <= Doomed(old(meta), kind, keep)
      ensures err.None? ==> gone == Doomed(old(meta), kind, keep)
      ensures err.Some? <==> stopAt.Some? && stopAt.value < |Doomed(old(meta), kind, keep)|
      ensures err.Some? ==> |gone| == stopAt.value
    {
      hide Doomed, Without, OfKind, Pruning;
      var todo, done := OfKind(meta, kind), 0;
      gone := {};
      PruningStarts(meta, tracks, kind, keep);
      while todo != {}
        invariant meta == old(meta) - gone && tracks == Without(old(tracks), gone)
        invariant Pruning(old(meta), kind, keep, todo, gone, done)
        invariant stopAt.Some? ==> done <= stopAt.value
      {
        var c :| c in todo;
        if c.id in keep {
          PruningKeeps(old(meta), kind, keep, todo, gone, done, c);
          todo := todo - {c};
          continue;
        }
        PruningDrops(old(meta), old(tracks), kind, keep, todo, gone, done, c);
        todo := todo - {c};
        if stopAt == Some(done) {
          StillValid(old(meta), old(tracks), gone);
          return Some(Wrap(Leaf(Other(1)))), gone;
        }
        meta := meta - {c};
        tracks := Without(tracks, {c});
        done, gone := done + 1, gone + {c};
      }
      PruningEnds(old(meta), kind, keep, gone, done);
      StillValid(old(meta), old(tracks), gone);
      return None, gone;
    }
  }
}
