# A verified model of tidal-syncer

tidal-syncer mirrors a TIDAL library onto disk and keeps a SQLite cache beside it. This
project models the parts of it that are easy to get wrong and proves, in Dafny, what they
are supposed to keep: the sync cycle with its tables and file tree over any run of
finished and aborted cycles, the concurrent protocols step by step with failures and
crashes anywhere, the path-template compiler and its second parser, the DASH expansion
and assembly, and the daemon's clock arithmetic.

`dafny verify dfyconfig.toml` checks everything.

## How the model is organised

- **The sync cycle.** `Sync` (cmd/sync.go) drives `Enumerate` and `Collections` (favorites
  through the collection cache), `Process` and `Tracks` (one track, its row and its files),
  `Snapshot` (the favorites snapshot) and `Removal` on `Disk` (a directory tree whose calls
  may fail). Tables are map fields of classes, updated by methods; every call that can fail
  in the program takes its failure from a parameter or, on a disk that is not *calm*, fails
  at will.
- **Runs of cycles.** `Cycle` says in one relation, `CycleStep`, what a cycle does to rows,
  snapshot and files, completed or aborted anywhere, and proves what holds over any run of
  such steps. `Sync.Syncer.RunCycles` performs runs and meets the relation; `Refavorite` is
  one of them, played out. `Records` says which templates and metadata record paths that
  removal treats well, and `Naming` that runs with such names keep their records so.
- **Protocols.** `Migrate`, `Staging` (staged writes, the sweep and the lock, with kills and
  power losses), `Workers` (the bounded worker group), `Laying` (the files its pipelines put
  in place) and `AlbumCache` are state machines:
  a step function over the shared state, an inductive invariant, and theorems about every
  reachable state. Their code is sequential in the program; as steps it can be interleaved
  and interrupted between any two accesses to shared state.
- **Names and paths.** `Sanitizer`, `Template`, `TemplateCheck`, `Render` and `Paths`, over
  byte strings (`Text`) and UTF-8 (`Utf8`, section 3 of RFC 3629).
- **Streams.** `Dash` and `Assembly` (ISO/IEC 23009-1, sections 5.3.9.4.4 and 5.3.9.6),
  `Download` (tiers and manifests) and `Failure` (error classification).
- **Clocks.** `Schedule` and `Jitter`, the latter with 64-bit wrap-around written out.

## Where the code and its own text differ

The model follows the code; each of these is proved.

- `writeAtomic` says an error leaves the destination untouched. It does unless the error
  comes from syncing the directory, after the rename (`Staging.ErrorAfterPublishing`; a run
  that ends so is `Staging.ErrorWithFileInPlace`).
- An unknown manifest type is documented as unsupported and hence a permanent failure.
  `Parse` rejects it with another error first, so it is retried every cycle
  (`Download.DownloadTrack`).
- `Sanitize` checks for reserved device names before it truncates, so a padded over-long
  name can come out reserved, and such a result is the one kind that sanitizing again
  changes; exactly which ones do is `Sanitizer.ReservedExactly`.
- A delay range covering all of int64 makes `Random` panic; no other range does, and the
  validator rejects it (`Jitter.RandomInRange`).
- A track favorited again after its removal is skipped although its file is gone, because
  removal keeps the row: `Refavorite.DownloadUnlikeLike` is such a run, and exactly when a
  recorded file is there is `Cycle.RecordedFileExactly`.
- Removal relies on recorded paths being outside the trash folder and .flac files, but an
  album artist called ".trash" is recorded inside it (`Records.TrashArtistIsRecordedInTrash`)
  and a title of more than 250 letters without its extension (`Records.LongTitleIsNoFlac`).
  Exactly which templates and metadata do so is `Records.RecordExactly`.
- One lossy grant on the higher tier turns any later transient error into a permanent
  failure (`Download.LossyGrantHidesTransient`).
- A manifest's repeats are not bounded either way: with a total below -1, or above what the
  runtime can allocate, building the URL list panics (`Dash.SegmentURLs`).

## Model

| member | source | states |
|---|---|---|
| Cycle.ObligationsNeverDropped | cmd/sync.go:156-175 | over any run of cycles, finished or aborted anywhere, an id once in the snapshot that no completed cycle enumerates stays in it until one of them has discharged it |
| Cycle.PendingIsAskedAgain | cmd/sync.go:164-172 | a pending removal is asked for again by the next cycle to complete, however many are aborted in between, and is discharged or pending then |
| Cycle.RecordedFileExactly | internal/sync/removal.go:77-113 | over any run, a row's recorded file is there exactly when no removal pass acted on its path, as file or sidecar, since a download last left it |
| Cycle.PresentExactly | internal/sync/removal.go:118-151 | the same for any path: what a download left last stays, and with removals that go through nothing else does |
| Cycle.DischargedMeansGone | internal/sync/removal.go:118-151 | a discharged id with a file recorded inside the root has neither file nor sidecar left |
| Cycle.RunNeverLossy | internal/config/validate.go:49-60 | under validated configs no run of cycles ever records a lossy file |
| Cycle.SecondCycle | internal/sync/process.go:67-99 | after a completed cycle with only successes and recorded permanent failures, a completed one of the same ids without retry skips every track, changes no row but for genres, leaves no file and is asked for exactly the pending removals |
| Cycle.RaisedRequestRetries | internal/sync/process.go:60-99 | raising the request instead attempts again exactly the tracks recorded below it |
| Cycle.StubsNeverDownload | internal/sync/collection_cache.go:47-90 | no id-only stub ever gets past shouldSkip, whatever the interleaving of the workers |
| Sync.Syncer.RunCycles | cmd/sync.go:140-175 | performs one cycle per round, failed ones among them; each that completes enumerated exactly the ids live in its round, and the cache stays coherent for the next |
| Sync.UnlistedUntilDischarged | cmd/sync.go:156-175 | over a performed run, an id of the first snapshot that the remote lists at no completed cycle stays in the snapshot until a cycle has discharged it |
| Sync.UnchangedRemote | internal/sync/process.go:67-99 | over a performed run, when the same ids stay live the fixpoint of Cycle.SecondCycle is reached |
| Sync.Syncer.ExecuteSync | cmd/sync.go:140-175 | a cycle that succeeds enumerates exactly the live ids, stores them, named and dated as listed, plus the pending ones, and discharges every other id; one that fails leaves the snapshot alone; files change only by downloads and by the removals asked for; genres are backfilled first; it fails only when something outside fails |
| Sync.Syncer.SyncOnce | internal/sync/engine.go:111-136 | touches nothing without a token; with a willing store fills every genre gap and changes no other row before processing; enumerates exactly the live ids from a coherent cache and keeps it coherent; every full track is the remote's own; succeeds whenever each collection is cached or can be fetched; returns one item per track, named and dated as listed |
| Sync.Syncer.BackfillGenres | internal/sync/engine.go:143-165 | only genres change, and with a willing store every done track without a genre whose file has one gets it, and no other row changes |
| Sync.Syncer.DownloadAll | internal/sync/engine.go:169-195 | rows, files and counters are those of processing the tracks in order, each by its own answers, but for those a cancellation kept it from; with room on a calm disk nothing but those answers decides |
| Sync.Syncer.KeepPending | cmd/sync.go:164-169 | appends one undated item per pending id |
| Sync.RebuiltDistinct | cmd/sync.go:164-172 | the rebuilt snapshot never repeats a key |
| Refavorite.DownloadUnlikeLike | internal/sync/process.go:67-83 | a run from an empty store in which a track is downloaded, unfavorited and favorited again, and ends wanted, recorded as done, skipped and without its file |
| Records.RecordExactly | internal/sync/process.go:111-115 | for every template and metadata: the destination is outside the trash folder exactly when its topmost text, the first that is not empty or the disc directory of a lone file, does not come out as ".trash"; and a .flac file exactly when its last text comes out as one, which below the length limit is when the folded text ends so |
| Records.TrashArtistIsRecordedInTrash | internal/sync/process.go:111-115 | under any template that opens with the album artist's directory, an album artist called ".trash" is recorded inside the trash folder |
| Records.LongTitleIsNoFlac | internal/sync/process.go:111-115 | under any template that ends in "/{title}.{ext}", a title of more than 250 letters without dots is recorded as no .flac file |
| Records.DiscIsNotTrash | internal/namer/namer.go:76-84 | a disc directory never is the trash folder |
| Records.SanitizesTo | internal/namer/sanitize.go:44-55 | which components come out as a given name, ".trash" for one |
| Records.TrashIsKept | internal/namer/sanitize.go:44-55 | ".trash" itself does |
| Records.KeepsExtension | internal/namer/sanitize.go:44-77 | a component that is not over-long keeps a .flac ending and gains none |
| Records.LongNameLosesExtension | internal/namer/sanitize.go:81-90 | every over-long name without an earlier dot loses it |
| Naming.RecordsStayOut | internal/sync/process.go:111-115 | over a run whose destinations are rendered, none of them into the trash folder, no record ever lies there |
| Naming.RecordsAreProper | internal/sync/process.go:111-115 | if they are .flac names too, records are as removal wants them exactly when no two tracks share a path |
| Naming.RenderedFileExactly | internal/sync/removal.go:77-113 | Cycle.RecordedFileExactly for such runs, with nothing assumed of later records |
| Laying.FilesConserved | internal/sync/engine.go:169-195 | under every interleaving of workers and of the files they put in place, cut short or not, rows, counters and the paths holding a file are those of processing the tracks reached in order; the whole tree is when no two pipelines write to one path |
| Removal.Remover.Reconcile | internal/sync/removal.go:77-113 | each id that left the favorites is discharged or returned pending, in order and once; it fails exactly on a store error; on a calm disk nothing stays pending unless the tree stands in the way, and no empty directory stays above a file whose removal was handled |
| Removal.Remover.ApplyPolicy | internal/sync/removal.go:118-151 | handles one id: skipped when there is no row, no path or a path outside the root, else removed, with the directories it empties, or to be retried; only a store error is fatal |
| Removal.Remover.MirrorTrack | internal/sync/removal.go:170-192 | only the file and its sidecar disappear, and both have when it succeeds; on a calm disk no directory it empties stays |
| Removal.Remover.TrashTrack | internal/sync/removal.go:196-218 | file and sidecar move to their slots and nothing else moves; it succeeds whenever the tree does not stand in the way; on a calm disk no directory it empties stays |
| Removal.Remover.MoveToTrash | internal/sync/removal.go:225-248 | the source is in its slot, or no file has moved; new directories are in the trash folder only; it succeeds exactly when no call to the disk failed |
| Removal.Remover.PruneEmptyDirs | internal/sync/removal.go:253-264 | terminates; removes only empty directories strictly below the root on one ancestor chain, and on a calm disk all of them |
| Removal.Remover.RemovePath | internal/sync/removal.go:268-278 | the path is gone afterwards, whether or not it was there, or nothing changed |
| Removal.OthersUntouched | internal/sync/removal.go:77-113 | with distinct recorded .flac paths outside the trash folder a pass changes no file or sidecar of a track it was not asked to remove |
| Removal.TrashLosesNothing | internal/sync/removal.go:225-248 | every file is still in place, or in its own slot, or stood in a slot that now holds a file moved there |
| Removal.DischargedStays | internal/sync/removal.go:96-108 | later removals of the pass bring nothing back |
| Removal.SlotIsJoin | internal/sync/removal.go:234-238 | joining root, trash folder and relative path gives the slot |
| Removal.SidecarTrashable | internal/sync/removal.go:205-213 | a sidecar inside the root is outside the trash folder when its audio file is |
| Paths.WithinExactly | internal/sync/removal.go:156-166 | the sandbox admits exactly the paths at or below the root, and the relative path is the rest |
| Paths.SidecarBeside | internal/sync/removal.go:282-284 | the sidecar of a .flac file lies beside it and is no .flac file |
| Paths.SidecarInjective | internal/sync/removal.go:282-284 | different .flac files have different sidecars |
| Paths.JoinNames | internal/sync/process.go:115 | joining proper names to a clean root appends exactly those names |
| Paths.ParentsCancel | internal/sync/process.go:115 | in a join a parent reference takes the name before it away, and does nothing at the root |
| Snapshot.SnapshotTable.ReplaceSnapshot | internal/store/snapshot.go:17-40 | the kind's rows become exactly the items, or on a fault or a repeated id nothing changes |
| Snapshot.SnapshotTable.DiffSnapshot | internal/store/snapshot.go:114-145 | both differences, each exactly and in ascending byte order |
| Sorting.Sorted | internal/store/snapshot.go:141-142 | the set's elements, each once, in ascending order |
| Sorting.SortedUnique | internal/sync/enumerate.go:150-160 | ascending order determines the list, so map iteration order cannot show |
| Sorting.StringsOrdered | internal/store/snapshot.go:141-142 | bytewise string order is a strict total order |
| Enumerate.Enumerator.Enumerate | internal/sync/enumerate.go:18-26 | yields the live ids and dates, ascending; succeeds exactly when every listing in scope arrives whole and every collection is served from the cache or can be fetched; full tracks are the remote's own, stubs stand for settled tracks, dated tracks are full; the cache stays coherent even on failure and loses only unfavorited collections |
| Enumerate.EnumerateCycles | internal/sync/enumerate.go:18-26 | cycle after cycle over one cache, failed ones among them, every successful enumeration yields the live ids |
| Enumerate.Enumerator.EnumerateInto | internal/sync/enumerate.go:30-70 | honours the scope and adds nothing else |
| Enumerate.Enumerator.ExpandAlbums | internal/sync/enumerate.go:75-100 | adds exactly the content of every listed album and keeps only listed albums cached; needs the remote only for albums the cache does not answer for |
| Enumerate.Enumerator.ExpandPlaylists | internal/sync/enumerate.go:105-130 | the same for playlists keyed by their version |
| Enumerate.Enumerator.PruneUnfavored | internal/sync/enumerate.go:95-97 | drops only collections that no listing named, and all of them when it succeeds |
| Enumerate.Enumerator.ExpandCollection | internal/sync/collection_cache.go:47-66 | a valid entry of readable settled tracks is served as stubs without asking the remote, and the cache stays as it is; otherwise it succeeds exactly when fetching does, and files and caches what was listed; either way exactly the true content is added and the cache stays coherent |
| Enumerate.Enumerator.AllSettled | internal/sync/collection_cache.go:71-80 | exactly when every track can be read and is settled |
| Enumerate.Enumerator.EmitStubs | internal/sync/collection_cache.go:84-90 | adds stubs for what is missing and never replaces a track |
| Enumerate.Enumerator.FetchCollectionTracks | internal/sync/collection_cache.go:95-106 | full metadata as listed replaces any stub; ids in listing order |
| Enumerate.Enumerator.CollectFavoriteTracks | internal/sync/enumerate.go:135-147 | every favorite listed before the stream ends is filed as listed with its last date, and nothing else changes |
| Enumerate.Enumerator.SortedTracks | internal/sync/enumerate.go:150-160 | exactly the desired tracks, each as it was filed, ascending by id |
| Enumerate.PutKeepsCoherent | internal/sync/collection_cache.go:57-63 | storing a complete listing under its version keeps the cache coherent |
| Enumerate.PruneKeepsCoherent | internal/store/collection.go:100-122 | dropping whole collections keeps the cache coherent |
| Enumerate.ContentsAreFetched | internal/sync/collection_cache.go:47-66 | the true content is what always fetching would yield |
| Enumerate.SnapshotItems | internal/sync/engine.go:201-212 | one item per track, in order, dated when the track is |
| Enumerate.SnapshotItemsOk | internal/sync/engine.go:201-212 | items have distinct keys and every dated one comes from full metadata |
| Collections.Cache.GetCollection | internal/store/collection.go:19-59 | the row if there is one, with exactly its track ids ascending |
| Collections.Cache.PutCollection | internal/store/collection.go:63-95 | replaces the collection's rows by exactly the given ids, or on a fault or a repeated id changes nothing |
| Collections.Cache.PruneCollections | internal/store/collection.go:100-122 | deletes, with their tracks, exactly the collections of the kind outside the keep list, or stops after as many of them as the store managed |
| Workers.Conservation | internal/sync/engine.go:169-195 | under every interleaving, cut short or not, a run at rest leaves the table and the counters that processing the same tracks in order would; a nil return has processed every track, and track count = downloaded + skipped + failed + uncounted |
| Workers.BoundedInFlight | internal/sync/engine.go:169-173 | never more than Concurrency tracks in flight, or one if that is below one |
| Workers.GoStarts | internal/sync/engine.go:171-186 | below that limit the next track is started, and had not been before |
| Workers.OncePerTrack | internal/sync/engine.go:175-186 | every worker only moves forward, so no track is processed twice |
| Workers.SettledNeverDownloads | internal/sync/process.go:36-50 | a track settled when the run begins is never downloaded |
| Workers.SequentialRow | internal/sync/process.go:36-58 | in sequence, too, each track finds and leaves its own row as if alone |
| Process.Engine.ProcessTrack | internal/sync/process.go:36-58 | exactly one counter moves, or none for a cancellation; only the track's own row and the files of its pipeline change; the row of a download holds the track's isrc and album, its destination, genre and the tier that was granted |
| Process.Engine.ShouldSkip | internal/sync/process.go:67-83 | skips exactly the settled rows; a missing row is no skip |
| Process.Engine.Pipeline | internal/sync/process.go:103-140 | the result and the files left are exactly those that the answers determine: the error from before, of the download, of checking or tagging, or the file recorded with its lyrics beside it; a disk may cut it short, and with room on a calm disk does not |
| Process.Engine.DownloadOne | internal/sync/process.go:103-153 | records the track only when the whole pipeline succeeded and left its file at the recorded path |
| Process.Engine.RecordFailure | internal/sync/process.go:271-294 | a cancellation is neither counted nor recorded; any other failure is counted and, if the store answers, recorded with its class, keeping what a present row says of the file |
| Process.ProcessIsLocal | internal/sync/process.go:36-58 | outcome and row depend on the track's own row alone, and no other row changes |
| Process.SettlesItself | internal/sync/process.go:60-99 | processing settles the track exactly when it was skipped or downloaded, or its permanent failure was recorded and no retry is asked for |
| Process.HistoryAccounts | internal/sync/process.go:246-294 | the table is the one its history of downloads, failures and backfills accounts for |
| Process.EngineNeverLossy | internal/config/validate.go:49-60 | under a validated config no run ever records a lossy file |
| Tracks.RecordHistory | internal/store/tracks.go:36-83 | a row's path, quality and genre are those of its last success and later backfills, empty if none; the rest is that of the last attempt |
| Tracks.NeverLossy | internal/store/tracks.go:36-83 | when every download met the floor no row claims a lossy tier |
| Tracks.Store.MarkTrack | internal/store/tracks.go:36-58 | the row becomes the given one and no other changes, or nothing changes |
| Failure.PermanentExactly | internal/sync/failure.go:19-34 | permanent exactly when some cause is hopeless or the first API error is a 404, however the causes are wrapped |
| Download.FetchManifest | pkg/tidal/download/download.go:206-240 | returns the first tier of the band granted at or above the floor; otherwise which error it reports |
| Download.DownloadTrack | pkg/tidal/download/download.go:152-198 | the outcome is exactly what the settling answer, its manifest and the write determine: succeeds only with a tier at or above the floor, lossless under a validated config; of the undownloadable manifests only an encrypted one is permanent |
| Download.DeliveredTier | pkg/tidal/download/download.go:152-198 | what is delivered is the tier granted by the answer that settled the matter, at or above the floor, after a write that succeeded |
| Download.BestTierFirst | pkg/tidal/download/download.go:206-240 | asking for HI_RES_LOSSLESS with floor LOSSLESS: the best tier when granted losslessly, the next one only when it is not to be had, and no lossy grant ever |
| Download.TiersRanked | pkg/tidal/quality.go:32-48 | the four tiers are strictly ordered, and anything else ranks below them |
| Download.RequestIsCeiling | pkg/tidal/download/download.go:206-240 | a request for LOSSLESS never depends on the tier above it |
| Download.ValidSettings | internal/config/validate.go:49-60 | the validator accepts exactly three pairs of request and floor |
| Download.LossyGrantHidesTransient | pkg/tidal/download/download.go:206-240 | when no tier is accepted, exactly when the failure is permanent |
| Staging.CrashConsistency | pkg/tidal/download/download.go:249-313 | for any writers, failures, kills and power losses, a destination shows its old content or one complete stream, now and after a recovery |
| Staging.ReturnedSurvives | pkg/tidal/download/download.go:282-313 | once a write has returned nil its content, or that of a later write, survives everything |
| Staging.ErrorAfterPublishing | pkg/tidal/download/download.go:282-292 | a call that now returns an error has published its stream exactly when it had got as far as the rename |
| Staging.ErrorWithFileInPlace | pkg/tidal/download/download.go:282-292 | a run from an empty disk that ends with an error returned and the file in place |
| Staging.WriteReturns | pkg/tidal/download/download.go:249-313 | from every reachable state a call that has not failed returns nil by at most six steps of its own |
| Staging.CleanupRemoves | pkg/tidal/download/download.go:262-268 | a cleanup that succeeds removes the call's part file and nothing else |
| Staging.SweepIsComplete | pkg/tidal/download/sweep.go:19-59 | a sweep meets no live writer, removes only part files, and an error-free one leaves none behind |
| Staging.NextKeeps | cmd/sync.go:115-131 | every step keeps the lock, the sweep list, the writers and the destinations in order |
| Migrate.MigrationSafety | internal/store/store.go:138-278 | for any processes and failures the committed DDL is a prefix of the migrations, each once and recorded exactly when committed; nil means all are applied |
| Migrate.MigrateAgain | internal/store/store.go:138-198 | migrating a migrated database changes nothing |
| Migrate.LostCommit | internal/store/store.go:225-278 | a commit may take effect and still be reported as failed |
| Migrate.AloneReturns | internal/store/store.go:138-278 | from every reachable state a process that is not failed and not kept waiting reaches nil |
| AlbumCache.LoadedOnce | internal/sync/cache.go:37-53 | under every interleaving the loader runs at most once per id and every load returns that run's outcome |
| AlbumCache.LoadFinishes | internal/sync/cache.go:37-53 | from every reachable state a load that no other worker holds up returns within seven steps |
| TemplateCheck.ParsersAgree | internal/config/validate.go:157-202 | the compiler's tokens, left to right, are the validator's placeholders filtered to the known names |
| TemplateCheck.ParseTemplate | internal/config/validate.go:170-202 | the loop computes the parse, errors and their positions included |
| TemplateCheck.ValidatePathTemplate | internal/config/validate.go:157-168 | accepts exactly the well-bracketed templates that compile to one with title and ext |
| TemplateCheck.AcceptedExactly | internal/config/validate.go:170-202 | a template parses exactly when it is well bracketed |
| TemplateCheck.TitleAndExtAccepted | internal/config/validate.go:157-202 | "{title}.{ext}" is accepted |
| TemplateCheck.ParseUnparse | internal/config/validate.go:170-202 | printing a bracketed template and parsing it gives its names back |
| TemplateCheck.AcrossSegments | internal/namer/template.go:57-65 | splitting into segments loses no token and invents none |
| Template.CompileSegment | internal/namer/template.go:95-126 | the parts mean the one-pass substitution of the segment, print back to it, and are normal |
| Template.ScanMeans | internal/namer/template.go:95-126 | for every metadata, expanding the parts is the one-pass substitution that never rescans a value |
| Template.ScanPrints | internal/namer/template.go:95-126 | printing the parts gives the raw segment back |
| Template.ScanNormal | internal/namer/template.go:95-126 | no literal is empty and no two are adjacent |
| Template.Expand | internal/namer/template.go:190-205 | the concatenation of the parts' values |
| Template.TokenTextKnown | internal/namer/template.go:162-185 | every known token's text is recognised as that token |
| Template.TokensRender | internal/namer/template.go:220-243 | what each of the nine tokens renders to, track numbers padded to two digits |
| Template.TokenTexts | internal/namer/template.go:162-185 | the texts of the nine tokens |
| Render.RenderedPathIsSandboxed | internal/namer/template.go:72-89 | a rendered path splits into safe names of at most 255 bytes, gains exactly one disc directory when multi-disc, and joined to a clean root lies strictly inside it |
| Render.RenderPath | internal/namer/template.go:72-89 | rendering the compiled template is the substitution meaning of the template text |
| Render.Compile | internal/namer/template.go:57-65 | each segment compiles to normal parts that print back to it |
| Render.InsertDiscDir | internal/namer/namer.go:76-84 | exactly one component more, just before the last |
| Render.EmptyExactly | internal/namer/template.go:84-88 | rendering finds no component exactly when every segment expands to nothing |
| Sanitizer.SanitizeIsSafe | internal/namer/sanitize.go:44-55 | any input becomes one legal, slash-free component of at most 255 bytes that is not a dot name |
| Sanitizer.NeverInComponent | internal/namer/sanitize.go:44-64 | no byte below 32, no DEL and none of / \ : * ? " < > or the vertical bar, and at most 255 bytes |
| Sanitizer.MappedRunes | internal/namer/sanitize.go:59-64 | each control character and each of those becomes "_", and nothing else changes |
| Sanitizer.UnchangedName | internal/namer/sanitize.go:44-55 | a legal, unreserved, untrimmed name of at most 255 bytes comes out as it is |
| Sanitizer.ReservedExactly | internal/namer/sanitize.go:44-77 | the result is a reserved name exactly when the prepared one is an over-long padded device name |
| Sanitizer.ReservedSlipsThrough | internal/namer/sanitize.go:48-50 | a family of inputs that come out as CON |
| Sanitizer.SanitizeIdempotent | internal/namer/sanitize.go:44-55 | sanitizing twice changes nothing exactly when the prepared name is not an over-long padded device name |
| Sanitizer.SuffixFreesName | internal/namer/sanitize.go:68-77 | the suffix frees every reserved name |
| Sanitizer.ReservedInAnyCase | internal/namer/sanitize.go:68-77 | a name is reserved exactly when the text before its first dot is a device name in any case |
| Sanitizer.TruncateOptimal | internal/namer/sanitize.go:81-90 | on valid UTF-8 the longest rune prefix that fits, giving up at most three bytes |
| Sanitizer.TruncateToBytes | internal/namer/sanitize.go:81-90 | the backward scan terminates at that prefix |
| Sanitizer.BuildReservedNames | internal/namer/sanitize.go:94-105 | exactly the Windows device names |
| Dash.Expand | pkg/tidal/manifest/dash.go:43-111 | without negative repeats, init then one URL per timeline entry; media URLs distinct exactly when the template has $Number$ or there is one segment |
| Dash.SegmentURLs | pkg/tidal/manifest/dash.go:43-53 | init then consecutive numbers; panics exactly on a count below -1 or beyond what the runtime can allocate |
| Dash.ToDASH | pkg/tidal/manifest/dash.go:83-111 | fields and errors in terms of the first representation of the document |
| Dash.TotalSegments | pkg/tidal/manifest/dash.go:155-162 | one plus the repeats, summed over the timeline |
| Dash.TotalIsTimeline | pkg/tidal/manifest/dash.go:155-162 | without negative repeats the total is the length of the written-out timeline |
| Dash.TimelineAt | pkg/tidal/manifest/dash.go:155-162 | entry k of the written-out timeline names the element whose segments include the k-th |
| Dash.FirstIsHead | pkg/tidal/manifest/dash.go:115-125 | the nested early return finds the head of the flattened document |
| Dash.MediaDistinct | pkg/tidal/manifest/dash.go:43-53 | two numbers get different URLs exactly when the template has $Number$ |
| Dash.MediaNumber | pkg/tidal/manifest/dash.go:43-53 | with one placeholder the number's decimal text stands in its place |
| Assembly.AssembleSegments | pkg/tidal/download/dash.go:51-59 | success writes exactly the bodies in order; any failure leaves a prefix of them; at most three GETs per segment, in order |
| Assembly.FetchSegment | pkg/tidal/download/dash.go:65-87 | a segment is written once and whole by the attempt that read it; a done context aborts at once and nothing else looks like it |
| Assembly.AssemblyBudget | pkg/tidal/download/dash.go:51-87 | at most three GETs per segment in all |
| Assembly.StreamURL | pkg/tidal/download/download.go:331-383 | a failed copy leaves a prefix and is not retried; a done context aborts at once |
| Assembly.StreamURLs | pkg/tidal/download/download.go:316-324 | success writes the bodies in order |
| Schedule.EarliestInside | cmd/daemon_schedule.go:70-110 | the next start is the earliest inside instant from now on, midnight wrap included, less than a day away |
| Schedule.InsideInstants | cmd/daemon_schedule.go:70-110 | on every day the window runs from its start up to, not including, its end, or from start to midnight and on to end |
| Schedule.ClockText | cmd/daemon_schedule.go:112-123 | "HH:MM" is minute HH * 60 + MM |
| Schedule.OnlyClockTexts | cmd/daemon_schedule.go:112-123 | no other text of that length is a clock |
| Schedule.ShortClockText | cmd/daemon_schedule.go:112-123 | the parser alone takes "H:MM" as well |
| Schedule.OnlyShortClockTexts | cmd/daemon_schedule.go:112-123 | and nothing else of another length |
| Schedule.RunTimeWindowDaemon | cmd/daemon_schedule.go:35-68 | a cycle runs on exactly the inside readings and a wait on each of the others; waits end at the window's start, and a pause in the range follows every cycle |
| Schedule.RunPollingDaemon | cmd/daemon_schedule.go:16-33 | cycles and pauses alternate, pauses in the range and at least a minute |
| Schedule.ValidWindow | internal/config/validate.go:124-147 | a validated window has two different minutes |
| Schedule.ValidClocks | internal/config/validate.go:138-147 | the validator accepts exactly the clock texts "HH:MM" of the day's minutes |
| Jitter.RandomInRange | internal/config/duration_range.go:8-16 | every delay lies in the range even where the span wraps; the draw fails exactly on all of int64 |
| Jitter.RandomReaches | internal/config/duration_range.go:8-16 | every delay of the range can be drawn |
| Jitter.ValidRangeDelays | internal/config/validate.go:104-122 | a validated range always yields a delay in it, at least the floor |
| Jitter.RangeExactly | internal/config/validate.go:104-122 | exactly which ranges are accepted and which complaint comes first; the last one never does |

## Left out

- HTTP, JSON, XML, base64, OAuth and token refresh, rate limiting and retry backoff: their answers are parameters.
- Album lookup, ffmpeg, FLAC checks, tagging, cover art, lyrics and genre lookup: what they answer is a parameter of the pipeline; tags are written in place after the rename, so crash consistency is claimed for the staged audio file only.
- Playlist and favorites exports, which run after the snapshot is stored and can still make the cycle return an error; metrics, logging, commands and containers.
- The updated_at and cached_at stamps, FavoritesByRecency and OrderedFavoriteFiles.
- Unicode normalisation: a parameter assumed to introduce no illegal or control character; letters are upper-cased as ASCII in the reserved-name check.
- Music roots that are not absolute and recorded paths that are not clean: the engine records cleaned joins of an absolute root.
- Symbolic links and permissions in the file tree; directories that appear or vanish while a call runs.
- Daylight-saving changes: instants are local time in a fixed-offset zone.
- Overflow of the segment count and of segment numbers beyond 64 bits; the runtime's limit on allocations is a parameter.
- The scratch file of the DASH demuxer, and part names that coincide with a destination's own name: destinations do not end in ".part".
- Disk.FileSystem.Rename: does not move directories, because no recorded path is one; os.Rename would move the tree.
- Staging.CrashConsistency: does not model the bytes of an unsynced file as a prefix of what was written, because any bytes at all are allowed there.
- Assembly.FetchSegment: does not let the content behind a URL change between attempts, because stream URLs name fixed segments.
- Sync.Syncer.DownloadAll: does not interleave the workers itself, because Laying.FilesConserved shows that interleavings leave the same table, counters and files; of two tracks that write to one path either may come last.
- Cycle.DischargedMeansGone: does not say so of a record inside the trash folder, because another removal may move its file there.
- Removal.OthersUntouched: does not cover two ids recorded under one path, because removing one then removes the other's file.
- Removal.TrashLosesNothing: does not cover records inside the trash folder, because moving them can displace what was trashed before.
- Process.Engine.Pipeline: does not keep a lyrics sidecar that was left half written, nor part files, which Staging has.
- Cycle.RecordedFileExactly: does not cover records inside the trash folder, because moves there can displace each other.
