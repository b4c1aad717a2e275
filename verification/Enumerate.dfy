/**
 Enumeration of the desired tracks through the collection cache
 (internal/sync/enumerate.go, collection_cache.go and snapshotItems in engine.go).
 */
module Enumerate {
  import opened Wrappers
  import opened Text
  import opened Failure
  import opened Tracks
  import opened Process
  import opened Collections
  import opened Sorting

  /** A paged listing: what it yields before it ends or fails. */
  datatype Stream<T> = Stream(items: seq<T>, error: Option<Err>)

  /** Listings carry full metadata. */
  type Known = t: Track | t.Full? witness Full(0, [], 0, [])

  datatype Favorite = Favorite(track: Known, addedAt: Str)

  datatype PlaylistRef = PlaylistRef(uuid: Id, lastUpdated: Str)

  datatype Scope = Scope(all: bool, tracks: bool, albums: bool, playlists: bool)

  /** What TIDAL answers during one enumeration. */
  datatype Remote = Remote(
    favorites: Stream<Favorite>, albums: Stream<int>, playlists: Stream<PlaylistRef>, contents: Coll -> Stream<Known>)

  /** Which store calls fail during one enumeration; lookup(id) is about the tracks row. */
  datatype Faults = Faults(
    get: Coll -> Option<Err>, put: Coll -> Option<Err>, prune: Kind -> Option<nat>, lookup: int -> bool)

  /** A favorited collection about to be expanded. */
  datatype CachedCollection = CachedCollection(coll: Coll, version: Str, immutable: bool)
  {
    predicate Valid(cached: Option<CollectionCache>)
    {
      if cached.None? then false
      else if immutable then true
      else version != [] && version == cached.value.version
    }
  }

  function AlbumRef(id: int): CachedCollection { CachedCollection(Coll(Album, Itoa(id)), [], true) }

  function PlaylistEntry(p: PlaylistRef): CachedCollection
  {
    CachedCollection(Coll(Playlist, p.uuid), p.lastUpdated, false)
  }

  function AlbumRefs(remote: Remote): (cs: seq<CachedCollection>)
    ensures |cs| == |remote.albums.items|
    ensures forall i | 0 <= i < |cs| :: cs[i] == AlbumRef(remote.albums.items[i])
  {
    seq(|remote.albums.items|, i requires 0 <= i < |remote.albums.items| => AlbumRef(remote.albums.items[i]))
  }

  function PlaylistRefs(remote: Remote): (cs: seq<CachedCollection>)
    ensures |cs| == |remote.playlists.items|
    ensures forall i | 0 <= i < |cs| :: cs[i] == PlaylistEntry(remote.playlists.items[i])
  {
    seq(|remote.playlists.items|,
      i requires 0 <= i < |remote.playlists.items| => PlaylistEntry(remote.playlists.items[i]))
  }

  // ----- What the remote library really holds -----

  /** The tracks of a collection at a version; albums only ever have version "". */
  type Listing = (Coll, Str) -> set<int>

  function IdsOf(tracks: seq<Known>): (ids: seq<int>)
    ensures |ids| == |tracks| && forall i | 0 <= i < |ids| :: ids[i] == tracks[i].id
  {
    seq(|tracks|, i requires 0 <= i < |tracks| => tracks[i].id)
  }

  /** A collection's tracks: its listing, or, for a playlist without a version, whatever is fetched now. */
  function Content(c: CachedCollection, remote: Remote, listing: Listing): set<int>
  {
    if c.immutable || c.version != [] then listing(c.coll, c.version)
    else Elements(IdsOf(remote.contents(c.coll).items))
  }

  /** A complete fetch of c shows its listing: fixed for an album, fixed by the version for a playlist. */
  predicate Truthful(c: CachedCollection, remote: Remote, listing: Listing)
  {
    remote.contents(c.coll).error.None? ==>
      Elements(IdsOf(remote.contents(c.coll).items)) == Content(c, remote, listing)
  }

  ghost predicate RefsTruthful(cs: seq<CachedCollection>, remote: Remote, listing: Listing)
  {
    forall i | 0 <= i < |cs| :: Truthful(cs[i], remote, listing)
  }

  ghost predicate AllTruthful(remote: Remote, listing: Listing)
  {
    RefsTruthful(AlbumRefs(remote), remote, listing) && RefsTruthful(PlaylistRefs(remote), remote, listing)
  }

  function Contents(cs: seq<CachedCollection>, remote: Remote, listing: Listing): set<int>
  {
    if cs == [] then {}
    else Contents(cs[..|cs| - 1], remote, listing) + Content(cs[|cs| - 1], remote, listing)
  }

  lemma ContentsNone(remote: Remote, listing: Listing)
    ensures Contents([], remote, listing) == {}
  {
  }

  lemma ContentsSnoc(cs: seq<CachedCollection>, k: nat, remote: Remote, listing: Listing)
    requires k < |cs|
    ensures Contents(cs[..k + 1], remote, listing) ==
      Contents(cs[..k], remote, listing) + Content(cs[k], remote, listing)
  {
    hide Content;
    assert cs[..k + 1][..k] == cs[..k];
  }

  function FavoriteIds(favorites: seq<Favorite>): set<int> { set f | f in favorites :: f.track.id }

  function LiveIds(remote: Remote, scope: Scope, listing: Listing): set<int>
  {
    (if scope.all || scope.tracks then FavoriteIds(remote.favorites.items) else {})
    + (if scope.all || scope.albums then Contents(AlbumRefs(remote), remote, listing) else {})
    + (if scope.all || scope.playlists then Contents(PlaylistRefs(remote), remote, listing) else {})
  }

  /** The last add date listed for each favorite. */
  function DatesOf(favorites: seq<Favorite>): map<int, Str>
  {
    if favorites == [] then map[]
    else
      var f := favorites[|favorites| - 1];
      DatesOf(favorites[..|favorites| - 1])[f.track.id := f.addedAt]
  }

  function LiveDates(remote: Remote, scope: Scope): map<int, Str>
  {
    if scope.all || scope.tracks then DatesOf(remote.favorites.items) else map[]
  }

  /** Every listing arrives whole. */
  ghost predicate Complete(cs: seq<CachedCollection>, remote: Remote)
  {
    forall i | 0 <= i < |cs| :: remote.contents(cs[i].coll).error.None?
  }

  /** Fetching and caching c goes through; a listing that repeats a track does not. */
  predicate Fetchable(c: CachedCollection, remote: Remote, faults: Faults)
  {
    var stream := remote.contents(c.coll);
    faults.get(c.coll).None? && stream.error.None? && NoRepeat(IdsOf(stream.items)) && faults.put(c.coll).None?
  }

  ghost predicate AllFetchable(cs: seq<CachedCollection>, remote: Remote, faults: Faults)
  {
    forall i | 0 <= i < |cs| :: Fetchable(cs[i], remote, faults)
  }

  /** The cache answers for c: its entry is valid, and every track in it can be read and is settled. */
  ghost predicate Served(
    c: CachedCollection, faults: Faults, rows: Table, cfg: Config, meta: map<Coll, Meta>, tracks: set<(Coll, int)>)
  {
    && faults.get(c.coll).None? && c.coll in meta
    && (c.immutable || (c.version != [] && c.version == meta[c.coll].version))
    && forall t | t in TracksOf(tracks, c.coll) :: !faults.lookup(t) && Skips(rows, Itoa(t), cfg)
  }

  /** c can be expanded: from the cache, whatever the remote does, or by fetching it. */
  ghost predicate Answered(
    c: CachedCollection, remote: Remote, faults: Faults, rows: Table, cfg: Config, meta: map<Coll, Meta>,
    tracks: set<(Coll, int)>)
  {
    Served(c, faults, rows, cfg, meta, tracks) || Fetchable(c, remote, faults)
  }

  ghost predicate AllAnswered(
    cs: seq<CachedCollection>, remote: Remote, faults: Faults, rows: Table, cfg: Config, meta: map<Coll, Meta>,
    tracks: set<(Coll, int)>)
  {
    forall i | 0 <= i < |cs| :: Answered(cs[i], remote, faults, rows, cfg, meta, tracks)
  }

  /** Every listing in scope arrives whole, and every collection in it is served or can be fetched. */
  ghost predicate Ready(
    remote: Remote, scope: Scope, faults: Faults, rows: Table, cfg: Config, meta: map<Coll, Meta>,
    tracks: set<(Coll, int)>)
  {
    && (scope.all || scope.tracks ==> remote.favorites.error.None?)
    && (scope.all || scope.albums ==>
          remote.albums.error.None? && AllAnswered(AlbumRefs(remote), remote, faults, rows, cfg, meta, tracks))
    && (scope.all || scope.playlists ==>
          remote.playlists.error.None? && AllAnswered(PlaylistRefs(remote), remote, faults, rows, cfg, meta, tracks))
  }

  lemma HealthyIsReady(
    remote: Remote, scope: Scope, faults: Faults, rows: Table, cfg: Config, meta: map<Coll, Meta>,
    tracks: set<(Coll, int)>)
    requires Healthy(remote, faults)
    ensures Ready(remote, scope, faults, rows, cfg, meta, tracks)
    ensures faults.prune(Album).None? && faults.prune(Playlist).None?
  {
    hide Served, Fetchable;
  }

  /** The cache says the same of c. */
  ghost predicate SameEntry(
    meta: map<Coll, Meta>, tracks: set<(Coll, int)>, meta': map<Coll, Meta>, tracks': set<(Coll, int)>, c: Coll)
  {
    && (c in meta' <==> c in meta) && (c in meta ==> meta'[c] == meta[c])
    && forall t :: (c, t) in tracks' <==> (c, t) in tracks
  }

  lemma ServedAlike(
    c: CachedCollection, faults: Faults, rows: Table, cfg: Config,
    meta: map<Coll, Meta>, tracks: set<(Coll, int)>, meta': map<Coll, Meta>, tracks': set<(Coll, int)>)
    requires SameEntry(meta, tracks, meta', tracks', c.coll)
    ensures Served(c, faults, rows, cfg, meta', tracks') <==> Served(c, faults, rows, cfg, meta, tracks)
  {
    hide Skips, Itoa;
  }

  /** The cache tables and the desired tracks. */
  datatype Caching = Caching(meta: map<Coll, Meta>, tracks: set<(Coll, int)>, desired: map<int, Track>)

  /**
   What expanding c does. If the cache answers, it succeeds without asking the remote: what is
   new is a stub of a cached track, and the cache stays as it is. If not, it succeeds exactly
   when fetching does: the tracks are filed as listed, and cached under c's version.
   */
  ghost predicate Expanded(
    c: CachedCollection, remote: Remote, faults: Faults, rows: Table, cfg: Config, a: Caching, b: Caching, ok: bool)
  {
    var items := remote.contents(c.coll).items;
    && (forall d | d != c.coll :: SameEntry(a.meta, a.tracks, b.meta, b.tracks, d))
    && NewFrom(a.desired, b.desired, items)
    && if Served(c, faults, rows, cfg, a.meta, a.tracks) then
         && ok && b.meta == a.meta && b.tracks == a.tracks
         && b.desired.Keys == a.desired.Keys + TracksOf(a.tracks, c.coll)
         && (forall id | id in a.desired :: b.desired[id] == a.desired[id])
         && forall id | id in b.desired && id !in a.desired :: b.desired[id] == Stub(id)
       else
         && (ok <==> Fetchable(c, remote, faults))
         && (!ok ==> SameEntry(a.meta, a.tracks, b.meta, b.tracks, c.coll))
         && (ok ==>
               && b.meta == a.meta[c.coll := Meta(c.version, |items|)]
               && TracksOf(b.tracks, c.coll) == Elements(IdsOf(items))
               && b.desired.Keys == a.desired.Keys + Elements(IdsOf(items))
               && forall i | 0 <= i < |items| :: b.desired[items[i].id] in items)
  }

  /** The first k of these collections have been expanded, and nothing of another kind touched. */
  ghost predicate ExpandedSoFar(
    cs: seq<CachedCollection>, k: nat, remote: Remote, faults: Faults, rows: Table, cfg: Config, a: Caching, b: Caching)
    requires k <= |cs|
  {
    && OnlyFetched(remote, faults, a.meta, a.tracks, b.meta, b.tracks)
    && (forall i | 0 <= i < k :: Answered(cs[i], remote, faults, rows, cfg, a.meta, a.tracks))
    && (AllListed(a.desired, remote) ==> AllListed(b.desired, remote))
  }

  ghost predicate KindSame(kind: Kind, a: Caching, b: Caching)
  {
    forall d: Coll | d.kind == kind :: SameEntry(a.meta, a.tracks, b.meta, b.tracks, d)
  }

  lemma NothingExpanded(
    cs: seq<CachedCollection>, remote: Remote, faults: Faults, rows: Table, cfg: Config, a: Caching)
    ensures ExpandedSoFar(cs, 0, remote, faults, rows, cfg, a, a) && forall kind :: KindSame(kind, a, a)
  {
    hide Fetchable, Answered;
  }

  lemma ExpandedOn(
    cs: seq<CachedCollection>, k: nat, remote: Remote, faults: Faults, rows: Table, cfg: Config,
    a: Caching, b: Caching, d: Caching, ok: bool)
    requires k < |cs| && ExpandedSoFar(cs, k, remote, faults, rows, cfg, a, b)
    requires Expanded(cs[k], remote, faults, rows, cfg, b, d, ok)
    requires forall t | t in remote.contents(cs[k].coll).items :: Lists(remote, t)
    ensures ok ==> ExpandedSoFar(cs, k + 1, remote, faults, rows, cfg, a, d)
    ensures !ok ==> !AllAnswered(cs, remote, faults, rows, cfg, a.meta, a.tracks)
    ensures AllListed(a.desired, remote) ==> AllListed(d.desired, remote)
    ensures forall kind | kind != cs[k].coll.kind && KindSame(kind, a, b) :: KindSame(kind, a, d)
  {
    hide Served, Fetchable, SameEntry, OnlyFetched, AllListed, NewFrom, Lists, Skips, Itoa, TracksOf, Elements;
    hide KindSame;
    var c := cs[k];
    AnsweredAlike(c, remote, faults, rows, cfg, a.meta, a.tracks, b.meta, b.tracks);
    if ok {
      AllSame(b.meta, b.tracks);
      FetchedMore(c, remote, faults, a.meta, a.tracks, b.meta, b.tracks, d.meta, d.tracks);
    } else {
      assert !Answered(cs[k], remote, faults, rows, cfg, a.meta, a.tracks);
    }
    if AllListed(b.desired, remote) {
      ListedMore(b.desired, d.desired, remote.contents(c.coll).items, remote);
    }
    forall kind | kind != c.coll.kind && KindSame(kind, a, b) ensures KindSame(kind, a, d) {
      KindOn(kind, a, b, d, c.coll);
    }
  }

  lemma KindOn(kind: Kind, a: Caching, b: Caching, d: Caching, c: Coll)
    requires c.kind != kind && KindSame(kind, a, b)
    requires forall e | e != c :: SameEntry(b.meta, b.tracks, d.meta, d.tracks, e)
    ensures KindSame(kind, a, d)
  {
    forall e: Coll | e.kind == kind ensures SameEntry(a.meta, a.tracks, d.meta, d.tracks, e) {
      assert SameEntry(a.meta, a.tracks, b.meta, b.tracks, e) && SameEntry(b.meta, b.tracks, d.meta, d.tracks, e);
    }
  }

  /** What differs from the cache at the start has been fetched, and so can be again. */
  ghost predicate OnlyFetched(
    remote: Remote, faults: Faults,
    meta: map<Coll, Meta>, tracks: set<(Coll, int)>, meta': map<Coll, Meta>, tracks': set<(Coll, int)>)
  {
    forall c: CachedCollection :: SameEntry(meta, tracks, meta', tracks', c.coll) || Fetchable(c, remote, faults)
  }

  lemma AnsweredAlike(
    c: CachedCollection, remote: Remote, faults: Faults, rows: Table, cfg: Config,
    meta: map<Coll, Meta>, tracks: set<(Coll, int)>, meta': map<Coll, Meta>, tracks': set<(Coll, int)>)
    requires OnlyFetched(remote, faults, meta, tracks, meta', tracks')
    ensures Answered(c, remote, faults, rows, cfg, meta', tracks') <==>
      Answered(c, remote, faults, rows, cfg, meta, tracks)
  {
    hide Served, Fetchable, SameEntry;
    if SameEntry(meta, tracks, meta', tracks', c.coll) {
      ServedAlike(c, faults, rows, cfg, meta, tracks, meta', tracks');
    }
  }

  lemma FetchedMore(
    c: CachedCollection, remote: Remote, faults: Faults, meta: map<Coll, Meta>, tracks: set<(Coll, int)>,
    meta': map<Coll, Meta>, tracks': set<(Coll, int)>, meta'': map<Coll, Meta>, tracks'': set<(Coll, int)>)
    requires OnlyFetched(remote, faults, meta, tracks, meta', tracks')
    requires forall d | d != c.coll :: SameEntry(meta', tracks', meta'', tracks'', d)
    requires SameEntry(meta', tracks', meta'', tracks'', c.coll) || Fetchable(c, remote, faults)
    ensures OnlyFetched(remote, faults, meta, tracks, meta'', tracks'')
  {
    forall d: CachedCollection
      ensures SameEntry(meta, tracks, meta'', tracks'', d.coll) || Fetchable(d, remote, faults)
    {
      assert SameEntry(meta, tracks, meta', tracks', d.coll) || Fetchable(d, remote, faults);
      if d.coll != c.coll {
        assert SameEntry(meta', tracks', meta'', tracks'', d.coll);
      }
    }
  }

  /** The remote lists t: among the favorites, or in a collection it lists. */
  ghost predicate Lists(remote: Remote, t: Track)
  {
    || IsFavorite(remote.favorites.items, t)
    || (exists i | 0 <= i < |AlbumRefs(remote)| :: t in remote.contents(AlbumRefs(remote)[i].coll).items)
    || (exists i | 0 <= i < |PlaylistRefs(remote)| :: t in remote.contents(PlaylistRefs(remote)[i].coll).items)
  }

  /** Full metadata is the remote's own. */
  ghost predicate AllListed(desired: map<int, Track>, remote: Remote)
  {
    forall id | id in desired :: desired[id].Stub? || Lists(remote, desired[id])
  }

  /** What is new is a stub or one of these tracks, as listed. */
  ghost predicate NewFrom(before: map<int, Track>, after: map<int, Track>, items: seq<Known>)
  {
    forall id | id in after :: (id in before && after[id] == before[id]) || after[id] == Stub(id) || after[id] in items
  }

  lemma ListedMore(before: map<int, Track>, after: map<int, Track>, items: seq<Known>, remote: Remote)
    requires AllListed(before, remote) && NewFrom(before, after, items)
    requires forall t | t in items :: Lists(remote, t)
    ensures AllListed(after, remote)
  {
    hide Lists;
  }

  lemma AlbumLists(remote: Remote, i: nat, t: Track)
    requires i < |AlbumRefs(remote)| && t in remote.contents(AlbumRefs(remote)[i].coll).items
    ensures Lists(remote, t)
  {
  }

  lemma PlaylistLists(remote: Remote, i: nat, t: Track)
    requires i < |PlaylistRefs(remote)| && t in remote.contents(PlaylistRefs(remote)[i].coll).items
    ensures Lists(remote, t)
  {
  }

  /** Nothing fails during the enumeration. */
  ghost predicate Healthy(remote: Remote, faults: Faults)
  {
    && remote.favorites.error.None? && remote.albums.error.None? && remote.playlists.error.None?
    && AllFetchable(AlbumRefs(remote), remote, faults) && AllFetchable(PlaylistRefs(remote), remote, faults)
    && faults.prune(Album).None? && faults.prune(Playlist).None?
  }

  /** What expanding without any cache adds. */
  function Fetched(cs: seq<CachedCollection>, remote: Remote): set<int>
  {
    if cs == [] then {}
    else Fetched(cs[..|cs| - 1], remote) + Elements(IdsOf(remote.contents(cs[|cs| - 1].coll).items))
  }

  /** When every listing arrives whole the true content is what always fetching yields. */
  lemma {:induction false} ContentsAreFetched(cs: seq<CachedCollection>, remote: Remote, listing: Listing)
    requires RefsTruthful(cs, remote, listing) && Complete(cs, remote)
    ensures Contents(cs, remote, listing) == Fetched(cs, remote)
  {
    hide Content;
    if cs != [] {
      ContentsAreFetched(cs[..|cs| - 1], remote, listing);
      assert Truthful(cs[|cs| - 1], remote, listing);
    }
  }

  /** A collection is favorited when its listing names it. */
  predicate Named(cs: seq<CachedCollection>, c: Coll) { exists i | 0 <= i < |cs| :: cs[i].coll == c }

  /** Every cached expansion that can ever be served again is the collection's listing. */
  ghost predicate Coherent(meta: map<Coll, Meta>, tracks: set<(Coll, int)>, listing: Listing)
  {
    forall c | c in meta && (c.kind.Album? || meta[c].version != []) :: CoherentAt(meta, tracks, listing, c)
  }

  ghost predicate CoherentAt(meta: map<Coll, Meta>, tracks: set<(Coll, int)>, listing: Listing, c: Coll)
    requires c in meta
  {
    (c.kind.Album? ==> meta[c].version == []) && TracksOf(tracks, c) == listing(c, meta[c].version)
  }

  /** A complete listing stored under its own version keeps the cache coherent. */
  lemma PutKeepsCoherent(
    meta: map<Coll, Meta>, tracks: set<(Coll, int)>, after: set<(Coll, int)>, c: CachedCollection, ids: seq<int>,
    remote: Remote, listing: Listing)
    requires Coherent(meta, tracks, listing) && Proper(c)
    requires forall t :: (c.coll, t) in after <==> t in ids
    requires forall d, t | d != c.coll :: (d, t) in after <==> (d, t) in tracks
    requires Elements(ids) == Content(c, remote, listing)
    ensures Coherent(meta[c.coll := Meta(c.version, |ids|)], after, listing)
  {
    var put := meta[c.coll := Meta(c.version, |ids|)];
    forall d | d in put && (d.kind.Album? || put[d].version != []) ensures CoherentAt(put, after, listing, d) {
      if d == c.coll {
        forall t ensures t in TracksOf(after, d) <==> t in Elements(ids) {
          assert (c.coll, t) in after <==> t in ids;
        }
      } else {
        assert CoherentAt(meta, tracks, listing, d);
        forall t ensures t in TracksOf(after, d) <==> t in TracksOf(tracks, d) {
          assert (d, t) in after <==> (d, t) in tracks;
        }
      }
    }
  }

  /** Pruning whole collections does too. */
  lemma PruneKeepsCoherent(
    meta: map<Coll, Meta>, tracks: set<(Coll, int)>, less: map<Coll, Meta>, after: set<(Coll, int)>, listing: Listing)
    requires Coherent(meta, tracks, listing)
    requires less.Keys <= meta.Keys && forall c | c in less :: less[c] == meta[c]
    requires forall c, t :: (c, t) in after <==> (c, t) in tracks && c in less
    ensures Coherent(less, after, listing)
  {
    forall d | d in less && (d.kind.Album? || less[d].version != []) ensures CoherentAt(less, after, listing, d) {
      assert CoherentAt(meta, tracks, listing, d);
      forall t ensures t in TracksOf(after, d) <==> t in TracksOf(tracks, d) {
        assert (d, t) in after <==> (d, t) in tracks;
      }
    }
  }

  /** Albums, and only they, are immutable, and have no version. */
  predicate Proper(c: CachedCollection)
  {
    (c.immutable <==> c.coll.kind.Album?) && (c.immutable ==> c.version == [])
  }

  /** Tracks are filed under their own id, and an id-only stub only stands for a settled track. */
  ghost predicate DesiredOk(desired: map<int, Track>, rows: Table, cfg: Config)
  {
    forall id | id in desired ::
      desired[id].id == id && (desired[id].Stub? ==> Skips(rows, Itoa(id), cfg))
  }

  ghost predicate DatedAreFull(desired: map<int, Track>, dates: map<int, Str>)
  {
    forall id | id in dates :: id in desired && desired[id].Full?
  }

  /** Nothing is lost and no full track becomes a stub. */
  ghost predicate Grows(before: map<int, Track>, after: map<int, Track>)
  {
    forall id | id in before :: id in after && (before[id].Full? ==> after[id].Full?)
  }

  lemma GrowsRefl(a: map<int, Track>)
    ensures Grows(a, a)
  {
  }

  lemma GrowsOn(a: map<int, Track>, b: map<int, Track>, c: map<int, Track>)
    requires Grows(a, b) && Grows(b, c)
    ensures Grows(a, c)
  {
  }

  /** The favorites are filed as listed, and the rest is as it was. */
  ghost predicate FromFavorites(before: map<int, Track>, after: map<int, Track>, favorites: seq<Favorite>)
  {
    forall id | id in after ::
      if id in FavoriteIds(favorites) then IsFavorite(favorites, after[id]) else id in before && after[id] == before[id]
  }

  predicate IsFavorite(favorites: seq<Favorite>, t: Track)
  {
    exists i | 0 <= i < |favorites| :: favorites[i].track == t
  }

  lemma NoFavorites(before: map<int, Track>)
    ensures FromFavorites(before, before, [])
  {
  }

  lemma FileFavorite(before: map<int, Track>, desired: map<int, Track>, favorites: seq<Favorite>, fav: Favorite)
    requires FromFavorites(before, desired, favorites)
    ensures FromFavorites(before, desired[fav.track.id := fav.track], favorites + [fav])
  {
    var more := favorites + [fav];
    assert more[|favorites|] == fav;
    forall id | id in desired && IsFavorite(favorites, desired[id])
      ensures IsFavorite(more, desired[id])
    {
      var i :| 0 <= i < |favorites| && favorites[i].track == desired[id];
      assert more[i] == favorites[i];
    }
    assert FavoriteIds(more) == FavoriteIds(favorites) + {fav.track.id};
  }

  lemma AlbumItems(remote: Remote, i: nat)
    requires i < |AlbumRefs(remote)|
    ensures forall t | t in remote.contents(AlbumRefs(remote)[i].coll).items :: Lists(remote, t)
  {
    hide Lists;
    forall t | t in remote.contents(AlbumRefs(remote)[i].coll).items ensures Lists(remote, t) {
      AlbumLists(remote, i, t);
    }
  }

  lemma PlaylistItems(remote: Remote, i: nat)
    requires i < |PlaylistRefs(remote)|
    ensures forall t | t in remote.contents(PlaylistRefs(remote)[i].coll).items :: Lists(remote, t)
  {
    hide Lists;
    forall t | t in remote.contents(PlaylistRefs(remote)[i].coll).items ensures Lists(remote, t) {
      PlaylistLists(remote, i, t);
    }
  }

  lemma AllExpanded(
    cs: seq<CachedCollection>, remote: Remote, faults: Faults, rows: Table, cfg: Config, a: Caching, b: Caching)
    requires ExpandedSoFar(cs, |cs|, remote, faults, rows, cfg, a, b)
    ensures AllAnswered(cs, remote, faults, rows, cfg, a.meta, a.tracks)
    ensures AllListed(a.desired, remote) ==> AllListed(b.desired, remote)
  {
    hide Answered, AllListed;
  }

  lemma KindThrough(kind: Kind, a: Caching, b: Caching, c: Caching)
    requires KindSame(kind, a, b)
    requires KindSame(kind, b.(desired := map[]), c.(desired := map[]))
    ensures KindSame(kind, a, c)
  {
    forall d: Coll | d.kind == kind ensures SameEntry(a.meta, a.tracks, c.meta, c.tracks, d) {
      assert SameEntry(a.meta, a.tracks, b.meta, b.tracks, d) && SameEntry(b.meta, b.tracks, c.meta, c.tracks, d);
    }
  }

  lemma NoneListed(remote: Remote)
    ensures AllListed(map[], remote)
  {
  }

  lemma FavoritesListed(desired: map<int, Track>, remote: Remote)
    requires FromFavorites(map[], desired, remote.favorites.items)
    ensures AllListed(desired, remote)
  {
  }

  /** What happened to collections of other kinds makes no difference to these. */
  lemma AnsweredStill(
    cs: seq<CachedCollection>, remote: Remote, faults: Faults, rows: Table, cfg: Config, a: Caching, b: Caching)
    requires forall i | 0 <= i < |cs| :: cs[i].coll.kind == Playlist
    requires KindSame(Playlist, a, b)
    ensures AllAnswered(cs, remote, faults, rows, cfg, b.meta, b.tracks) <==>
      AllAnswered(cs, remote, faults, rows, cfg, a.meta, a.tracks)
  {
    hide Served, Fetchable, SameEntry;
    forall i | 0 <= i < |cs|
      ensures Answered(cs[i], remote, faults, rows, cfg, b.meta, b.tracks) <==>
        Answered(cs[i], remote, faults, rows, cfg, a.meta, a.tracks)
    {
      assert SameEntry(a.meta, a.tracks, b.meta, b.tracks, cs[i].coll);
      ServedAlike(cs[i], faults, rows, cfg, a.meta, a.tracks, b.meta, b.tracks);
    }
  }

  lemma AllSame(meta: map<Coll, Meta>, tracks: set<(Coll, int)>)
    ensures forall d :: SameEntry(meta, tracks, meta, tracks, d)
  {
  }

  lemma NewNothing(before: map<int, Track>, items: seq<Known>)
    ensures NewFrom(before, before, items)
  {
  }

  lemma NewOne(before: map<int, Track>, after: map<int, Track>, items: seq<Known>, t: Known)
    requires NewFrom(before, after, items) && t in items
    ensures NewFrom(before, after[t.id := t], items)
  {
  }

  lemma NewStubs(before: map<int, Track>, after: map<int, Track>, items: seq<Known>)
    requires forall id | id in before :: id in after && after[id] == before[id]
    requires forall id | id in after && id !in before :: after[id] == Stub(id)
    ensures NewFrom(before, after, items)
  {
  }

  lemma FetchableIs(c: CachedCollection, remote: Remote, faults: Faults)
    ensures var stream := remote.contents(c.coll);
      Fetchable(c, remote, faults) <==>
        faults.get(c.coll).None? && stream.error.None? && NoRepeat(IdsOf(stream.items)) && faults.put(c.coll).None?
  {
  }

  /** Served, in terms of what the store returns. */
  lemma ServedExactly(
    c: CachedCollection, faults: Faults, rows: Table, cfg: Config, meta: map<Coll, Meta>, tracks: set<(Coll, int)>,
    cached: Result<Option<CollectionCache>, Err>)
    requires faults.get(c.coll).Some? ==> cached.Err?
    requires faults.get(c.coll).None? ==> cached.Ok? && (cached.value.Some? <==> c.coll in meta)
    requires faults.get(c.coll).None? && c.coll in meta ==>
      cached.value.value.version == meta[c.coll].version
      && Elements(cached.value.value.trackIds) == TracksOf(tracks, c.coll)
    ensures Served(c, faults, rows, cfg, meta, tracks) <==>
      cached.Ok? && c.Valid(cached.value) &&
      var ids := cached.value.value.trackIds;
      forall i | 0 <= i < |ids| :: !faults.lookup(ids[i]) && Skips(rows, Itoa(ids[i]), cfg)
  {
    hide Skips, Itoa;
    if faults.get(c.coll).None? && c.coll in meta {
      var ids := cached.value.value.trackIds;
      assert forall i | 0 <= i < |ids| :: ids[i] in TracksOf(tracks, c.coll) by {
        assert forall i | 0 <= i < |ids| :: ids[i] in Elements(ids);
      }
      forall t | t in TracksOf(tracks, c.coll) ensures exists i | 0 <= i < |ids| :: ids[i] == t {
        assert t in Elements(ids);
      }
      if forall i | 0 <= i < |ids| :: !faults.lookup(ids[i]) && Skips(rows, Itoa(ids[i]), cfg) {
        forall t | t in TracksOf(tracks, c.coll) ensures !faults.lookup(t) && Skips(rows, Itoa(t), cfg) {
          var i :| 0 <= i < |ids| && ids[i] == t;
        }
      } else {
        var i :| 0 <= i < |ids| && !(!faults.lookup(ids[i]) && Skips(rows, Itoa(ids[i]), cfg));
        assert ids[i] in TracksOf(tracks, c.coll);
      }
      assert c.Valid(cached.value) <==> c.immutable || (c.version != [] && c.version == meta[c.coll].version);
    }
  }

  lemma ServedIsContent(
    c: CachedCollection, meta: map<Coll, Meta>, tracks: set<(Coll, int)>, remote: Remote, listing: Listing)
    requires Proper(c) && c.coll in meta && (c.immutable || (c.version != [] && c.version == meta[c.coll].version))
    ensures Coherent(meta, tracks, listing) ==> TracksOf(tracks, c.coll) == Content(c, remote, listing)
  {
    if Coherent(meta, tracks, listing) {
      assert CoherentAt(meta, tracks, listing, c.coll);
    }
  }

  lemma FetchedIsContent(c: CachedCollection, remote: Remote, listing: Listing)
    requires Truthful(c, remote, listing) && remote.contents(c.coll).error.None?
    ensures Elements(IdsOf(remote.contents(c.coll).items)) == Content(c, remote, listing)
  {
  }

  lemma PutEffect(
    meta: map<Coll, Meta>, tracks: set<(Coll, int)>, meta': map<Coll, Meta>, tracks': set<(Coll, int)>,
    c: CachedCollection, ids: seq<int>)
    requires meta' == meta[c.coll := Meta(c.version, |ids|)]
    requires forall t :: (c.coll, t) in tracks' <==> t in ids
    requires forall d, t | d != c.coll :: (d, t) in tracks' <==> (d, t) in tracks
    ensures forall d | d != c.coll :: SameEntry(meta, tracks, meta', tracks', d)
    ensures TracksOf(tracks', c.coll) == Elements(ids)
  {
    forall t ensures t in TracksOf(tracks', c.coll) <==> t in Elements(ids) {
      assert (c.coll, t) in tracks' <==> t in ids;
    }
  }

  /** Filing a full track under its id. */
  lemma FileFull(
    before: map<int, Track>, desired: map<int, Track>, dates: map<int, Str>, date: Str, rows: Table, cfg: Config,
    t: Known)
    requires DesiredOk(desired, rows, cfg) && DatedAreFull(desired, dates) && Grows(before, desired)
    ensures DesiredOk(desired[t.id := t], rows, cfg) && DatedAreFull(desired[t.id := t], dates)
    ensures Grows(before, desired[t.id := t])
    ensures DatedAreFull(desired[t.id := t], dates[t.id := date])
    ensures desired[t.id := t].Keys == desired.Keys + {t.id}
  {
  }

  /** Filing a stub for a settled track that is not there yet. */
  lemma FileStub(desired: map<int, Track>, dates: map<int, Str>, rows: Table, cfg: Config, id: int)
    requires DesiredOk(desired, rows, cfg) && DatedAreFull(desired, dates)
    requires id !in desired && Skips(rows, Itoa(id), cfg)
    ensures DesiredOk(desired[id := Stub(id)], rows, cfg) && DatedAreFull(desired[id := Stub(id)], dates)
  {
  }

  class Enumerator {
    const rows: Table
    const cfg: Config
    const cache: Cache
    var desired: map<int, Track>
    var dates: map<int, Str>

    constructor (rows: Table, cfg: Config, cache: Cache)
      ensures this.rows == rows && this.cfg == cfg && this.cache == cache
      ensures desired == map[] && dates == map[]
    {
      this.rows, this.cfg, this.cache := rows, cfg, cache;
      desired, dates := map[], map[];
    }

    ghost predicate Valid()
      reads this, cache
    {
      cache.Valid() && DesiredOk(desired, rows, cfg) && DatedAreFull(desired, dates)
    }

    ghost predicate CacheCoherent(listing: Listing)
      reads cache
    {
      Coherent(cache.meta, cache.tracks, listing)
    }

    method CollectFavoriteTracks(stream: Stream<Favorite>) returns (err: Option<Err>)
      requires Valid()
      modifies this
      ensures Valid() && Grows(old(desired), desired)
      ensures err.None? <==> stream.error.None?
      ensures desired.Keys == old(desired).Keys + FavoriteIds(stream.items)
      ensures old(dates) == map[] ==> dates == DatesOf(stream.items)
      ensures FromFavorites(old(desired), desired, stream.items)
    {
      hide DesiredOk, DatedAreFull, Grows, FromFavorites;
      GrowsRefl(desired);
      NoFavorites(desired);
      for k := 0 to |stream.items|
        invariant Valid() && Grows(old(desired), desired)
        invariant desired.Keys == old(desired).Keys + FavoriteIds(stream.items[..k])
        invariant old(dates) == map[] ==> dates == DatesOf(stream.items[..k])
        invariant FromFavorites(old(desired), desired, stream.items[..k])
      {
        var fav := stream.items[k];
        FileFull(old(desired), desired, dates, fav.addedAt, rows, cfg, fav.track);
        FileFavorite(old(desired), desired, stream.items[..k], fav);
        desired := desired[fav.track.id := fav.track];
        dates := dates[fav.track.id := fav.addedAt];
        assert stream.items[..k + 1][..k] == stream.items[..k];
        assert stream.items[..k + 1] == stream.items[..k] + [fav];
      }
      assert stream.items[..|stream.items|] == stream.items;
      if stream.error.Some? {
        return Some(Wrap(stream.error.value));
      }
      return None;
    }

    method AllSettled(ids: seq<int>, lookup: int -> bool) returns (settled: bool)
      ensures settled <==> forall i | 0 <= i < |ids| :: !lookup(ids[i]) && Skips(rows, Itoa(ids[i]), cfg)
    {
      for k := 0 to |ids|
        invariant forall i | 0 <= i < k :: !lookup(ids[i]) && Skips(rows, Itoa(ids[i]), cfg)
      {
        if lookup(ids[k]) || !Skips(rows, Itoa(ids[k]), cfg) {
          return false;
        }
      }
      return true;
    }

    method EmitStubs(ids: seq<int>)
      requires Valid()
      requires forall i | 0 <= i < |ids| :: Skips(rows, Itoa(ids[i]), cfg)
      modifies this`desired
      ensures Valid() && Grows(old(desired), desired)
      ensures desired.Keys == old(desired).Keys + Elements(ids)
      ensures forall id | id in old(desired) :: desired[id] == old(desired)[id]
      ensures forall id | id in desired && id !in old(desired) :: desired[id] == Stub(id)
    {
      hide DesiredOk, DatedAreFull, Skips, Itoa;
      for k := 0 to |ids|
        invariant Valid()
        invariant desired.Keys == old(desired).Keys + Elements(ids[..k])
        invariant forall id | id in old(desired) :: id in desired && desired[id] == old(desired)[id]
        invariant forall id | id in desired && id !in old(desired) :: desired[id] == Stub(id)
      {
        assert ids[..k + 1] == ids[..k] + [ids[k]];
        if ids[k] !in desired {
          FileStub(desired, dates, rows, cfg, ids[k]);
          desired := desired[ids[k] := Stub(ids[k])];
        }
      }
      assert ids[..|ids|] == ids;
    }

    method FetchCollectionTracks(stream: Stream<Known>) returns (r: Result<seq<int>, Err>)
      requires Valid()
      modifies this`desired
      ensures Valid() && Grows(old(desired), desired)
      ensures desired.Keys == old(desired).Keys + Elements(IdsOf(stream.items))
      ensures forall i | 0 <= i < |stream.items| :: desired[stream.items[i].id] in stream.items
      ensures NewFrom(old(desired), desired, stream.items)
      ensures r == if stream.error.Some? then Err(Wrap(stream.error.value)) else Ok(IdsOf(stream.items))
    {
      hide DesiredOk, DatedAreFull, Grows, NewFrom;
      GrowsRefl(desired);
      NewNothing(desired, stream.items);
      var got: seq<int> := [];
      for k := 0 to |stream.items|
        invariant Valid() && Grows(old(desired), desired)
        invariant got == IdsOf(stream.items[..k])
        invariant desired.Keys == old(desired).Keys + Elements(got)
        invariant forall i | 0 <= i < k :: stream.items[i].id in desired && desired[stream.items[i].id] in stream.items
        invariant NewFrom(old(desired), desired, stream.items)
      {
        var track := stream.items[k];
        FileFull(old(desired), desired, dates, [], rows, cfg, track);
        NewOne(old(desired), desired, stream.items, track);
        desired := desired[track.id := track];
        got := got + [track.id];
      }
      assert stream.items[..|stream.items|] == stream.items;
      if stream.error.Some? {
        return Err(Wrap(stream.error.value));
      }
      return Ok(got);
    }

    /**
     Serves c from the cache when the entry is valid and all its tracks are settled, else
     fetches and caches it. Either way, on success, exactly its true content is added.
     */
    method ExpandCollection(c: CachedCollection, remote: Remote, faults: Faults, ghost listing: Listing)
      returns (err: Option<Err>)
      requires Valid()
      requires Proper(c)
      modifies this`desired, cache
      ensures Valid() && Grows(old(desired), desired)
      ensures old(CacheCoherent(listing)) && Truthful(c, remote, listing) ==> CacheCoherent(listing)
      ensures err.None? && old(CacheCoherent(listing)) && Truthful(c, remote, listing) ==>
        desired.Keys == old(desired).Keys + Content(c, remote, listing)
      ensures cache.meta.Keys <= old(cache.meta).Keys + {c.coll} && old(cache.meta).Keys <= cache.meta.Keys
      ensures Expanded(c, remote, faults, rows, cfg, old(Caching(cache.meta, cache.tracks, desired)),
                       Caching(cache.meta, cache.tracks, desired), err.None?)
    {
      hide Served, SameEntry, Coherent, Fetchable, Truthful, Content, DesiredOk, DatedAreFull, Skips, Itoa, Grows;
      hide NewFrom, TracksOf, Elements, NoRepeat;
      ghost var meta, tracks, before := cache.meta, cache.tracks, desired;
      AllSame(meta, tracks);
      FetchableIs(c, remote, faults);
      var cached := cache.GetCollection(c.coll, faults.get(c.coll));
      ServedExactly(c, faults, rows, cfg, meta, tracks, cached);
      NewNothing(before, remote.contents(c.coll).items);
      if cached.Err? {
        GrowsRefl(before);
        return Some(Wrap(cached.error));
      }
      if c.Valid(cached.value) {
        var ids := cached.value.value.trackIds;
        var settled := AllSettled(ids, faults.lookup);
        if settled {
          EmitStubs(ids);
          NewStubs(before, desired, remote.contents(c.coll).items);
          ServedIsContent(c, meta, tracks, remote, listing);
          return None;
        }
      }
      var got := FetchCollectionTracks(remote.contents(c.coll));
      if got.Err? {
        return Some(got.error);
      }
      var put := cache.PutCollection(c.coll, c.version, got.value, faults.put(c.coll));
      if put.Some? {
        return Some(Wrap(put.value));
      }
      PutEffect(meta, tracks, cache.meta, cache.tracks, c, got.value);
      if Coherent(meta, tracks, listing) && Truthful(c, remote, listing) {
        FetchedIsContent(c, remote, listing);
        PutKeepsCoherent(meta, tracks, cache.tracks, c, got.value, remote, listing);
      }
      return None;
    }

    method PruneUnfavored(
      kind: Kind, ghost cs: seq<CachedCollection>, seen: seq<Id>, stopAt: Option<nat>, ghost listing: Listing)
      returns (err: Option<Err>)
      requires cache.Valid()
      requires |seen| == |cs| && forall i | 0 <= i < |cs| :: seen[i] == cs[i].coll.id && cs[i].coll.kind == kind
      modifies cache
      ensures cache.Valid() && cache.meta.Keys <= old(cache.meta).Keys
      ensures old(CacheCoherent(listing)) ==> CacheCoherent(listing)
      ensures forall c | c in old(cache.meta) && c !in cache.meta :: c.kind == kind && !Named(cs, c)
      ensures forall other | other != kind ::
        KindSame(other, old(Caching(cache.meta, cache.tracks, map[])), Caching(cache.meta, cache.tracks, map[]))
      ensures err.None? ==> forall c | c in cache.meta && c.kind == kind :: Named(cs, c)
      ensures stopAt.None? ==> err.None?
    {
      hide Coherent, Named;
      ghost var meta, tracks := cache.meta, cache.tracks;
      var pruned, gone := cache.PruneCollections(kind, seen, stopAt);
      Pruned(meta, tracks, kind, seen, gone);
      if Coherent(meta, tracks, listing) {
        PruneKeepsCoherent(meta, tracks, cache.meta, cache.tracks, listing);
      }
      forall c: Coll | c.kind == kind ensures Named(cs, c) <==> c.id in seen {
        NamedById(cs, seen, c);
      }
      if pruned.Some? {
        return Some(Wrap(pruned.value));
      }
      return None;
    }

    /** Every track of every favorited album; entries of albums no longer favorited are dropped. */
    method ExpandAlbums(remote: Remote, faults: Faults, ghost listing: Listing) returns (err: Option<Err>)
      requires Valid()
      modifies this`desired, cache
      ensures Valid() && Grows(old(desired), desired)
      ensures old(CacheCoherent(listing)) && RefsTruthful(AlbumRefs(remote), remote, listing) ==> CacheCoherent(listing)
      ensures err.None? && old(CacheCoherent(listing)) && RefsTruthful(AlbumRefs(remote), remote, listing) ==>
        desired.Keys == old(desired).Keys + Contents(AlbumRefs(remote), remote, listing)
      ensures forall c | c in old(cache.meta) && c !in cache.meta :: c.kind == Album && !Named(AlbumRefs(remote), c)
      ensures err.None? ==> forall c | c in cache.meta && c.kind == Album :: Named(AlbumRefs(remote), c)
      ensures faults.prune(Album).None? ==>
        (err.None? <==>
          && remote.albums.error.None?
          && old(AllAnswered(AlbumRefs(remote), remote, faults, rows, cfg, cache.meta, cache.tracks)))
      ensures err.None? ==>
        && remote.albums.error.None?
        && old(AllAnswered(AlbumRefs(remote), remote, faults, rows, cfg, cache.meta, cache.tracks))
      ensures KindSame(Playlist, old(Caching(cache.meta, cache.tracks, desired)),
                       Caching(cache.meta, cache.tracks, desired))
      ensures old(AllListed(desired, remote)) ==> AllListed(desired, remote)
    {
      hide DesiredOk, DatedAreFull, Coherent, Content, Contents, Named, Truthful, Grows, Itoa, Fetchable, Served;
      hide Expanded, ExpandedSoFar, AllListed, KindSame, AllAnswered, Skips;
      ghost var start := Caching(cache.meta, cache.tracks, desired);
      NothingExpanded(AlbumRefs(remote), remote, faults, rows, cfg, start);
      GrowsRefl(desired);
      ghost var cs := AlbumRefs(remote);
      ghost var good := CacheCoherent(listing) && RefsTruthful(cs, remote, listing);
      ContentsNone(remote, listing);
      var seen: seq<Id> := [];
      for k := 0 to |remote.albums.items|
        invariant Valid() && Grows(old(desired), desired)
        invariant |seen| == k && forall i | 0 <= i < k :: seen[i] == cs[i].coll.id
        invariant good ==> CacheCoherent(listing)
        invariant good ==> desired.Keys == old(desired).Keys + Contents(cs[..k], remote, listing)
        invariant old(cache.meta).Keys <= cache.meta.Keys
        invariant ExpandedSoFar(cs, k, remote, faults, rows, cfg, start, Caching(cache.meta, cache.tracks, desired))
        invariant KindSame(Playlist, start, Caching(cache.meta, cache.tracks, desired))
      {
        var c := AlbumRef(remote.albums.items[k]);
        seen := seen + [c.coll.id];
        ghost var now, before := Caching(cache.meta, cache.tracks, desired), desired;
        var failed := ExpandCollection(c, remote, faults, listing);
        assert c == cs[k];
        AlbumItems(remote, k);
        ExpandedOn(cs, k, remote, faults, rows, cfg, start, now, Caching(cache.meta, cache.tracks, desired),
                   failed.None?);
        GrowsOn(old(desired), before, desired);
        if failed.Some? {
          return failed;
        }
        ContentsSnoc(cs, k, remote, listing);
        assert good ==> desired.Keys == before.Keys + Content(cs[k], remote, listing);
      }
      AllExpanded(cs, remote, faults, rows, cfg, start, Caching(cache.meta, cache.tracks, desired));
      ghost var now := Caching(cache.meta, cache.tracks, desired);
      assert cs[..|cs|] == cs;
      if remote.albums.error.Some? {
        return Some(Wrap(remote.albums.error.value));
      }
      err := PruneUnfavored(Album, cs, seen, faults.prune(Album), listing);
      KindThrough(Playlist, start, now, Caching(cache.meta, cache.tracks, desired));
    }

    /** The same for playlists, keyed by their last update. */
    method ExpandPlaylists(remote: Remote, faults: Faults, ghost listing: Listing) returns (err: Option<Err>)
      requires Valid()
      modifies this`desired, cache
      ensures Valid() && Grows(old(desired), desired)
      ensures old(CacheCoherent(listing)) && RefsTruthful(PlaylistRefs(remote), remote, listing) ==>
        CacheCoherent(listing)
      ensures err.None? && old(CacheCoherent(listing)) && RefsTruthful(PlaylistRefs(remote), remote, listing) ==>
        desired.Keys == old(desired).Keys + Contents(PlaylistRefs(remote), remote, listing)
      ensures forall c | c in old(cache.meta) && c !in cache.meta ::
        c.kind == Playlist && !Named(PlaylistRefs(remote), c)
      ensures err.None? ==> forall c | c in cache.meta && c.kind == Playlist :: Named(PlaylistRefs(remote), c)
      ensures faults.prune(Playlist).None? ==>
        (err.None? <==>
          && remote.playlists.error.None?
          && old(AllAnswered(PlaylistRefs(remote), remote, faults, rows, cfg, cache.meta, cache.tracks)))
      ensures err.None? ==>
        && remote.playlists.error.None?
        && old(AllAnswered(PlaylistRefs(remote), remote, faults, rows, cfg, cache.meta, cache.tracks))
      ensures KindSame(Album, old(Caching(cache.meta, cache.tracks, desired)),
                       Caching(cache.meta, cache.tracks, desired))
      ensures old(AllListed(desired, remote)) ==> AllListed(desired, remote)
    {
      hide DesiredOk, DatedAreFull, Coherent, Content, Contents, Named, Truthful, Grows, Itoa, Fetchable, Served;
      hide Expanded, ExpandedSoFar, AllListed, KindSame, AllAnswered, Skips;
      ghost var start := Caching(cache.meta, cache.tracks, desired);
      NothingExpanded(PlaylistRefs(remote), remote, faults, rows, cfg, start);
      GrowsRefl(desired);
      ghost var cs := PlaylistRefs(remote);
      ghost var good := CacheCoherent(listing) && RefsTruthful(cs, remote, listing);
      ContentsNone(remote, listing);
      var seen: seq<Id> := [];
      for k := 0 to |remote.playlists.items|
        invariant Valid() && Grows(old(desired), desired)
        invariant |seen| == k && forall i | 0 <= i < k :: seen[i] == cs[i].coll.id
        invariant good ==> CacheCoherent(listing)
        invariant good ==> desired.Keys == old(desired).Keys + Contents(cs[..k], remote, listing)
        invariant old(cache.meta).Keys <= cache.meta.Keys
        invariant ExpandedSoFar(cs, k, remote, faults, rows, cfg, start, Caching(cache.meta, cache.tracks, desired))
        invariant KindSame(Album, start, Caching(cache.meta, cache.tracks, desired))
      {
        var c := PlaylistEntry(remote.playlists.items[k]);
        seen := seen + [c.coll.id];
        ghost var now, before := Caching(cache.meta, cache.tracks, desired), desired;
        var failed := ExpandCollection(c, remote, faults, listing);
        assert c == cs[k];
        PlaylistItems(remote, k);
        ExpandedOn(cs, k, remote, faults, rows, cfg, start, now, Caching(cache.meta, cache.tracks, desired),
                   failed.None?);
        GrowsOn(old(desired), before, desired);
        if failed.Some? {
          return failed;
        }
        ContentsSnoc(cs, k, remote, listing);
        assert good ==> desired.Keys == before.Keys + Content(cs[k], remote, listing);
      }
      AllExpanded(cs, remote, faults, rows, cfg, start, Caching(cache.meta, cache.tracks, desired));
      ghost var now := Caching(cache.meta, cache.tracks, desired);
      assert cs[..|cs|] == cs;
      if remote.playlists.error.Some? {
        return Some(Wrap(remote.playlists.error.value));
      }
      err := PruneUnfavored(Playlist, cs, seen, faults.prune(Playlist), listing);
      KindThrough(Album, start, now, Caching(cache.meta, cache.tracks, desired));
    }

    method EnumerateInto(remote: Remote, scope: Scope, faults: Faults, ghost listing: Listing)
      returns (err: Option<Err>)
      requires Valid() && desired == map[] && dates == map[]
      modifies this, cache
      ensures Valid()
      ensures old(CacheCoherent(listing)) && AllTruthful(remote, listing) ==> CacheCoherent(listing)
      ensures err.None? && old(CacheCoherent(listing)) && AllTruthful(remote, listing) ==>
        desired.Keys == LiveIds(remote, scope, listing)
      ensures err.None? ==> dates == LiveDates(remote, scope)
      ensures err.None? ==> old(Ready(remote, scope, faults, rows, cfg, cache.meta, cache.tracks))
      ensures faults.prune(Album).None? && faults.prune(Playlist).None? ==>
        old(Ready(remote, scope, faults, rows, cfg, cache.meta, cache.tracks)) ==> err.None?
      ensures AllListed(desired, remote)
      ensures forall c | c in old(cache.meta) && c !in cache.meta :: Unfavored(remote, scope, c)
    {
      hide DesiredOk, DatedAreFull, Coherent, Contents, Named, Grows, RefsTruthful, DatesOf, FavoriteIds, AllFetchable;
      hide AllAnswered, AllListed, KindSame, FromFavorites, Lists;
      NoneListed(remote);
      if scope.all || scope.tracks {
        err := CollectFavoriteTracks(remote.favorites);
        FavoritesListed(desired, remote);
        if err.Some? {
          return;
        }
      }
      ghost var start := Caching(cache.meta, cache.tracks, desired);
      if scope.all || scope.albums {
        err := ExpandAlbums(remote, faults, listing);
        if err.Some? {
          return;
        }
      }
      if scope.all || scope.playlists {
        if scope.all || scope.albums {
          ghost var now := Caching(cache.meta, cache.tracks, desired);
          AnsweredStill(PlaylistRefs(remote), remote, faults, rows, cfg, start, now);
        }
        err := ExpandPlaylists(remote, faults, listing);
        if err.Some? {
          return;
        }
      }
      err := None;
    }

    /**
     The desired tracks, ascending by id. From a coherent cache and a remote whose album
     listings are fixed and whose playlist listings are fixed by their version, they are
     exactly the live track ids, dated exactly as listed; every stub among them is of a
     settled track, and no favorite is a stub. The cache stays coherent even when the
     enumeration fails half way, and loses only collections that are no longer favorited.
     */
    method Enumerate(remote: Remote, scope: Scope, faults: Faults, ghost listing: Listing)
      returns (r: Result<seq<Track>, Err>)
      requires cache.Valid()
      modifies this, cache
      ensures Valid()
      ensures old(CacheCoherent(listing)) && AllTruthful(remote, listing) ==> CacheCoherent(listing)
      ensures forall c | c in old(cache.meta) && c !in cache.meta :: Unfavored(remote, scope, c)
      ensures r.Ok? ==> dates == LiveDates(remote, scope)
      ensures r.Ok? ==> old(Ready(remote, scope, faults, rows, cfg, cache.meta, cache.tracks))
      ensures faults.prune(Album).None? && faults.prune(Playlist).None? ==>
        old(Ready(remote, scope, faults, rows, cfg, cache.meta, cache.tracks)) ==> r.Ok?
      ensures Healthy(remote, faults) ==> r.Ok?
      ensures r.Ok? ==> forall i | 0 <= i < |r.value| :: r.value[i].Stub? || Lists(remote, r.value[i])
      ensures r.Ok? && old(CacheCoherent(listing)) && AllTruthful(remote, listing) ==>
        TrackIds(r.value) == LiveIds(remote, scope, listing)
      ensures r.Ok? ==> ListedOk(r.value, dates, rows, cfg)
    {
      hide Ready, Lists;
      desired, dates := map[], map[];
      if Healthy(remote, faults) {
        HealthyIsReady(remote, scope, faults, rows, cfg, cache.meta, cache.tracks);
      }
      var err := EnumerateInto(remote, scope, faults, listing);
      if err.Some? {
        return Err(err.value);
      }
      var tracks := SortedTracks();
      r := Ok(tracks);
    }

    method SortedTracks() returns (tracks: seq<Track>)
      requires Valid()
      ensures ListedOk(tracks, dates, rows, cfg)
      ensures TrackIds(tracks) == desired.Keys
      ensures forall i | 0 <= i < |tracks| :: tracks[i].id in desired && tracks[i] == desired[tracks[i].id]
    {
      hide DesiredOk, DatedAreFull, ListedOk, TrackIds;
      IntsOrdered();
      var ids := Sorted(desired.Keys, Below);
      tracks := Pick(desired, ids);
      ListedSorted(desired, dates, rows, cfg, ids, tracks);
    }
  }

  function TrackIds(tracks: seq<Track>): (ids: set<int>)
    ensures forall i | 0 <= i < |tracks| :: tracks[i].id in ids
    ensures forall id | id in ids :: exists i | 0 <= i < |tracks| :: tracks[i].id == id
  {
    set t | t in tracks :: t.id
  }

  function Pick(desired: map<int, Track>, ids: seq<int>): (tracks: seq<Track>)
    requires forall i | 0 <= i < |ids| :: ids[i] in desired
    ensures |tracks| == |ids| && forall i | 0 <= i < |ids| :: tracks[i] == desired[ids[i]]
  {
    seq(|ids|, i requires 0 <= i < |ids| => desired[ids[i]])
  }

  lemma ListedSorted(
    desired: map<int, Track>, dates: map<int, Str>, rows: Table, cfg: Config, ids: seq<int>, tracks: seq<Track>)
    requires DesiredOk(desired, rows, cfg) && DatedAreFull(desired, dates)
    requires (forall x :: x in ids <==> x in desired.Keys) && forall i, j | 0 <= i < j < |ids| :: ids[i] < ids[j]
    requires |tracks| == |ids| && forall i | 0 <= i < |ids| :: ids[i] in desired && tracks[i] == desired[ids[i]]
    ensures ListedOk(tracks, dates, rows, cfg) && TrackIds(tracks) == desired.Keys
    ensures forall i | 0 <= i < |tracks| :: tracks[i].id in desired && tracks[i] == desired[tracks[i].id]
  {
    hide Skips, Itoa, TrackIds;
    assert forall i | 0 <= i < |ids| :: tracks[i].id == ids[i];
    forall id | id in desired ensures exists i | 0 <= i < |tracks| :: tracks[i].id == id {
      var i :| 0 <= i < |ids| && ids[i] == id;
      assert tracks[i].id == id;
    }
  }

  /** A collection of a kind in scope that no listing names. */
  ghost predicate Unfavored(remote: Remote, scope: Scope, c: Coll)
  {
    if c.kind.Album? then (scope.all || scope.albums) && !Named(AlbumRefs(remote), c)
    else (scope.all || scope.playlists) && !Named(PlaylistRefs(remote), c)
  }

  lemma NamedById(cs: seq<CachedCollection>, seen: seq<Id>, c: Coll)
    requires |seen| == |cs| && forall i | 0 <= i < |cs| :: seen[i] == cs[i].coll.id && cs[i].coll.kind == c.kind
    ensures Named(cs, c) <==> c.id in seen
  {
  }

  /** What enumerate hands to the workers and to snapshotItems. */
  ghost predicate ListedOk(tracks: seq<Track>, dates: map<int, Str>, rows: Table, cfg: Config)
  {
    && (forall i, j | 0 <= i < j < |tracks| :: tracks[i].id < tracks[j].id)
    && (forall i | 0 <= i < |tracks| && tracks[i].Stub? :: Skips(rows, tracks[i].Key(), cfg) && tracks[i].id !in dates)
    && forall id | id in dates :: exists i | 0 <= i < |tracks| :: tracks[i].id == id
  }

  // ----- Many cycles over one cache -----

  /** What one cycle brings: the tracks table and request it finds, and what the world answers. */
  datatype Visit = Visit(rows: Table, cfg: Config, remote: Remote, scope: Scope, faults: Faults)

  /**
   Cycle after cycle from an empty cache, failed ones among them: every enumeration that
   succeeds yields the live ids, as if nothing were ever cached.
   */
  method EnumerateCycles(visits: seq<Visit>, ghost listing: Listing)
    returns (results: seq<Result<seq<Track>, Err>>, datings: seq<map<int, Str>>)
    requires forall i | 0 <= i < |visits| :: AllTruthful(visits[i].remote, listing)
    ensures |results| == |datings| == |visits|
    ensures forall i | 0 <= i < |visits| && results[i].Ok? ::
      && TrackIds(results[i].value) == LiveIds(visits[i].remote, visits[i].scope, listing)
      && datings[i] == LiveDates(visits[i].remote, visits[i].scope)
      && ListedOk(results[i].value, datings[i], visits[i].rows, visits[i].cfg)
    ensures forall i | 0 <= i < |visits| && Healthy(visits[i].remote, visits[i].faults) :: results[i].Ok?
  {
    hide ListedOk, AllTruthful, LiveIds, LiveDates, Healthy, TrackIds, DesiredOk, DatedAreFull;
    var cache := new Cache();
    results, datings := [], [];
    for k := 0 to |visits|
      invariant |results| == |datings| == k
      invariant fresh(cache) && cache.Valid() && Coherent(cache.meta, cache.tracks, listing)
      invariant forall i | 0 <= i < k && results[i].Ok? ::
        && TrackIds(results[i].value) == LiveIds(visits[i].remote, visits[i].scope, listing)
        && datings[i] == LiveDates(visits[i].remote, visits[i].scope)
        && ListedOk(results[i].value, datings[i], visits[i].rows, visits[i].cfg)
      invariant forall i | 0 <= i < k && Healthy(visits[i].remote, visits[i].faults) :: results[i].Ok?
    {
      var v := visits[k];
      var e := new Enumerator(v.rows, v.cfg, cache);
      var r := e.Enumerate(v.remote, v.scope, v.faults, listing);
      results, datings := results + [r], datings + [e.dates];
    }
  }

  // ----- snapshotItems -----

  datatype SnapshotItem = SnapshotItem(tidalId: Id, name: Str, addedAt: Str)

  function ItemOf(t: Track, dates: map<int, Str>): SnapshotItem
  {
    SnapshotItem(t.Key(), t.Title(), if t.id in dates then dates[t.id] else [])
  }

  method SnapshotItems(tracks: seq<Track>, dates: map<int, Str>) returns (items: seq<SnapshotItem>)
    ensures |items| == |tracks| && forall i | 0 <= i < |items| :: items[i] == ItemOf(tracks[i], dates)
  {
    items := [];
    for k := 0 to |tracks|
      invariant |items| == k && forall i | 0 <= i < k :: items[i] == ItemOf(tracks[i], dates)
    {
      var date := if tracks[k].id in dates then dates[tracks[k].id] else [];
      items := items + [SnapshotItem(tracks[k].Key(), tracks[k].Title(), date)];
    }
  }

  /** Snapshot items have distinct keys, and every dated one comes with its track's full metadata. */
  lemma SnapshotItemsOk(tracks: seq<Track>, dates: map<int, Str>, rows: Table, cfg: Config, i: nat, j: nat)
    requires ListedOk(tracks, dates, rows, cfg) && i < j < |tracks|
    ensures ItemOf(tracks[i], dates).tidalId != ItemOf(tracks[j], dates).tidalId
    ensures ItemOf(tracks[i], dates).addedAt != [] ==> tracks[i].Full?
    ensures ItemOf(tracks[j], dates).addedAt != [] ==> tracks[j].Full?
  {
    ItoaInjective(tracks[i].id, tracks[j].id);
  }
}
