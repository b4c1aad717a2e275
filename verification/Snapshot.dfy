/** The favorites_snapshot table (internal/store/snapshot.go). */
module Snapshot {
  import opened Wrappers
  import opened Text
  import opened Failure
  import opened Tracks
  import opened Enumerate
  import opened Sorting

  datatype Entry = Entry(name: Str, addedAt: Str)

  /** Keyed by (kind, tidal_id). */
  type Favorites = map<(Str, Id), Entry>

  /** SnapshotKindTracks. */
  const TRACKS: Str := Ascii("tracks")

  function Ids(favorites: Favorites, kind: Str): (ids: set<Id>)
    ensures forall id :: id in ids <==> (kind, id) in favorites
  {
    set key | key in favorites && key.0 == kind :: key.1
  }

  function ItemIds(items: seq<SnapshotItem>): set<Id> { set item | item in items :: item.tidalId }

  predicate DistinctItems(items: seq<SnapshotItem>)
  {
    forall i, j | 0 <= i < j < |items| :: items[i].tidalId != items[j].tidalId
  }

  /** The rows of every other kind are the same. */
  ghost predicate OtherKinds(a: Favorites, b: Favorites, kind: Str)
  {
    forall k, id | k != kind ::
      ((k, id) in a <==> (k, id) in b) && ((k, id) in a ==> a[(k, id)] == b[(k, id)])
  }

  class SnapshotTable {
    var favorites: Favorites

    constructor ()
      ensures favorites == map[]
    {
      favorites := map[];
    }

    /** A transaction: the kind's rows become exactly items, or nothing changes at all. */
    method ReplaceSnapshot(kind: Str, items: seq<SnapshotItem>, fault: Option<Err>) returns (err: Option<Err>)
      modifies this
      ensures err.None? <==> fault.None? && DistinctItems(items)
      ensures err.Some? ==> favorites == old(favorites)
      ensures err.None? ==>
        && Ids(favorites, kind) == ItemIds(items)
        && (forall i | 0 <= i < |items| ::
              favorites[(kind, items[i].tidalId)] == Entry(items[i].name, items[i].addedAt))
        && OtherKinds(favorites, old(favorites), kind)
    {
      var work := map key | key in favorites && key.0 != kind :: favorites[key];
      for k := 0 to |items|
        invariant favorites == old(favorites)
        invariant DistinctItems(items[..k])
        invariant forall id :: (kind, id) in work <==> exists i | 0 <= i < k :: items[i].tidalId == id
        invariant forall i | 0 <= i < k ::
          (kind, items[i].tidalId) in work && work[(kind, items[i].tidalId)] == Entry(items[i].name, items[i].addedAt)
        invariant OtherKinds(work, old(favorites), kind)
      {
        var item := items[k];
        if (kind, item.tidalId) in work {
          return Some(Wrap(Leaf(Other(0))));
        }
        work := work[(kind, item.tidalId) := Entry(item.name, item.addedAt)];
      }
      assert items[..|items|] == items;
      if fault.Some? {
        return Some(Wrap(fault.value));
      }
      favorites := work;
      forall id ensures id in Ids(favorites, kind) <==> id in ItemIds(items) {
        if id in ItemIds(items) {
          var item :| item in items && item.tidalId == id;
        }
      }
      return None;
    }

    /** added and removed are exactly the two differences, each ascending in byte order. */
    method DiffSnapshot(kind: Str, items: seq<SnapshotItem>, fault: Option<Err>)
      returns (added: seq<Id>, removed: seq<Id>, err: Option<Err>)
      ensures err == (if fault.Some? then Some(Wrap(fault.value)) else None)
      ensures err.Some? ==> added == removed == []
      ensures err.None? ==>
        && (forall id :: id in added <==> id in ItemIds(items) && id !in Ids(favorites, kind))
        && (forall id :: id in removed <==> id in Ids(favorites, kind) && id !in ItemIds(items))
        && (forall i, j | 0 <= i < j < |added| :: LexBelow(added[i], added[j]))
        && (forall i, j | 0 <= i < j < |removed| :: LexBelow(removed[i], removed[j]))
    {
      hide LexBelow;
      added, removed, err := [], [], None;
      if fault.Some? {
        err := Some(Wrap(fault.value));
        return;
      }
      var stored := Ids(favorites, kind);
      var incoming: set<Id> := {};
      for k := 0 to |items|
        invariant incoming == ItemIds(items[..k])
      {
        assert items[..k + 1] == items[..k] + [items[k]];
        incoming := incoming + {items[k].tidalId};
      }
      assert items[..|items|] == items;
      StringsOrdered();
      added := Sorted(incoming - stored, LexBelow);
      removed := Sorted(stored - incoming, LexBelow);
    }
  }

  lemma NoneListedTwice(ids: seq<Id>)
    requires forall i, j | 0 <= i < j < |ids| :: LexBelow(ids[i], ids[j])
    ensures forall i, j | 0 <= i < j < |ids| :: ids[i] != ids[j]
  {
    forall i, j | 0 <= i < j < |ids| ensures ids[i] != ids[j] {
      LexTotal(ids[i], ids[j]);
    }
  }
}
