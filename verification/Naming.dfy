/**
 Runs in which every destination is rendered from the path template, as downloadOne does
 (internal/sync/process.go): templates and metadata that keep out of the trash folder, and
 name files .flac, give records that removal treats well in every later cycle.
 */
module Naming {
  import opened Wrappers
  import opened Text
  import opened Sanitizer
  import opened Template
  import opened Render
  import opened Paths
  import opened Tracks
  import opened Process
  import opened Enumerate
  import opened Removal
  import opened Workers
  import opened Cycle
  import opened Sync
  import opened Records

  /** The template of a round and the metadata its tracks are rendered from. */
  datatype Naming = Naming(tmpl: Str, meta: int -> TrackMeta, nfc: Nfc)
  {
    function Rendered(id: int): Result<Str, RenderError> { RenderMeaning(tmpl, meta(id), nfc) }

    /** Nothing it renders for these tracks leads into the trash folder. */
    ghost predicate AvoidsTrash(ids: set<int>)
    {
      forall id | id in ids && TemplateTexts(tmpl, meta(id)) != [] :: !MakesTrash(TopText(tmpl, meta(id)), nfc)
    }

    /** All it renders for these tracks are .flac files. */
    ghost predicate NamesFlac(ids: set<int>)
    {
      forall id | id in ids && TemplateTexts(tmpl, meta(id)) != [] :: MakesFlac(FileText(tmpl, meta(id)), nfc)
    }
  }

  /** Each destination is the join of the root and the rendered path; without one the pipeline fails at once. */
  ghost predicate NamedBy(r: Round, music: Path, n: Naming)
  {
    && NfcSafe(n.nfc)
    && forall id :: if n.Rendered(id).Ok? then r.told(id).dest == JoinPath(music, n.Rendered(id).value)
                    else r.told(id).before.Some?
  }

  ghost predicate AllNamed(rounds: seq<Round>, music: Path, namings: seq<Naming>)
  {
    |namings| == |rounds| && forall i | 0 <= i < |rounds| :: NamedBy(rounds[i], music, namings[i])
  }

  /** What a round's fates record, its template can name. */
  lemma FatesAreGood(r: Round, music: Path, n: Naming, e: CycleEvent, listing: Listing, good: Path -> bool)
    requires NamedBy(r, music, n) && CycleOf(r, e, listing)
    requires forall id | id in TrackIds(e.job.tracks) && n.Rendered(id).Ok? ::
      good(JoinPath(music, n.Rendered(id).value))
    ensures GoodFates(e.job.fates, good)
  {
    hide RenderMeaning, JoinPath, LiveIds, LiveKeys, TrackIds, KeysOf, LaidPaths, ToldPaths, NfcSafe, Follows;
    forall i | 0 <= i < |e.job.fates| && e.job.fates[i].pipeline.Ok?
      ensures good(e.job.fates[i].pipeline.value.dest)
    {
      var id := e.job.tracks[i].id;
      assert FateOf(r, e.job.tracks[i], e.job.fates[i]);
      if e.job.fates[i] != UNTOUCHED {
        FollowsMeans(r.told(id), r.cfg, e.job.fates[i]);
      }
      assert n.Rendered(id).Ok? || r.told(id).before.Some?;
    }
  }

  lemma RenderedStay(
    policy: Policy, music: Path, rounds: seq<Round>, ws: seq<World>, es: seq<CycleEvent>, listing: Listing,
    namings: seq<Naming>, n: nat, good: Path -> bool)
    requires Performed(policy, music, rounds, ws, es, listing) && AllNamed(rounds, music, namings) && n <= |es|
    requires AllRecorded(ws[0].rows, good)
    requires forall i, id | 0 <= i < |es| && id in TrackIds(es[i].job.tracks) && namings[i].Rendered(id).Ok? ::
      good(JoinPath(music, namings[i].Rendered(id).value))
    ensures AllRecorded(ws[n].rows, good)
  {
    hide Trace, CycleOf, NamedBy, RenderMeaning, JoinPath, GoodFates, AllRecorded;
    forall i | 0 <= i < |es| ensures GoodFates(es[i].job.fates, good) {
      assert CycleOf(rounds[i], es[i], listing) && NamedBy(rounds[i], music, namings[i]);
      FatesAreGood(rounds[i], music, namings[i], es[i], listing, good);
    }
    RunRecorded(policy, music, ws, es, n, good);
  }

  function Outside(music: Path): Path -> bool { p => Trashable(music, p) }

  function Proper(music: Path): Path -> bool { p => Clean(p) && Trashable(music, p) && IsFlac(p) }

  lemma OutsideTrashAll(rows: Table, music: Path, ids: seq<Id>)
    requires AllRecorded(rows, Outside(music))
    ensures OutsideTrash(rows, music, ids)
  {
    hide Trashable, WithinMusic;
    forall i | 0 <= i < |ids| && Recorded(rows, music, ids[i]).Some?
      ensures Trashable(music, Recorded(rows, music, ids[i]).value)
    {
      assert Outside(music)(rows[ids[i]].path.value);
    }
  }

  lemma RendersOutside(r: Round, music: Path, n: Naming, ids: set<int>, id: int)
    requires NamedBy(r, music, n) && n.AvoidsTrash(ids) && id in ids && Clean(music) && n.Rendered(id).Ok?
    ensures Trashable(music, JoinPath(music, n.Rendered(id).value))
  {
    hide RenderMeaning, JoinPath, Trashable, MakesTrash, Texts, Clean, IsFlac, MakesFlac, TopText, FileText;
    hide Prepare, Folded, Ends, NfcSafe;
    RecordExactly(n.tmpl, n.meta(id), n.nfc, music);
  }

  lemma RendersProper(r: Round, music: Path, n: Naming, ids: set<int>, id: int)
    requires NamedBy(r, music, n) && n.AvoidsTrash(ids) && n.NamesFlac(ids) && id in ids
    requires Clean(music) && n.Rendered(id).Ok?
    ensures Proper(music)(JoinPath(music, n.Rendered(id).value))
  {
    hide RenderMeaning, JoinPath, Trashable, MakesTrash, Texts, Clean, IsFlac, MakesFlac, TopText, FileText;
    hide Prepare, Folded, Ends, NfcSafe, Split, SafeComponent, Name, Components, WithinMusic;
    RecordExactly(n.tmpl, n.meta(id), n.nfc, music);
    RenderedPathIsSandboxed(n.tmpl, n.meta(id), n.nfc, music);
  }

  /**
   While no template and metadata lead into the trash folder, no record ever lies there:
   what removal assumes of the recorded paths holds at every moment of the run.
   */
  lemma RecordsStayOut(
    policy: Policy, music: Path, rounds: seq<Round>, ws: seq<World>, es: seq<CycleEvent>, listing: Listing,
    namings: seq<Naming>, n: nat)
    requires Performed(policy, music, rounds, ws, es, listing) && AllNamed(rounds, music, namings) && n <= |es|
    requires Clean(music) && AllRecorded(ws[0].rows, Outside(music))
    requires forall i | 0 <= i < |es| :: namings[i].AvoidsTrash(TrackIds(es[i].job.tracks))
    ensures AllRecorded(ws[n].rows, Outside(music))
    ensures forall ids :: OutsideTrash(ws[n].rows, music, ids)
  {
    hide CycleStep, CycleOf, RenderMeaning, JoinPath, Trashable, Clean, NamedBy, AllRecorded, OutsideTrash;
    forall i, id | 0 <= i < |es| && id in TrackIds(es[i].job.tracks) && namings[i].Rendered(id).Ok?
      ensures Outside(music)(JoinPath(music, namings[i].Rendered(id).value))
    {
      assert NamedBy(rounds[i], music, namings[i]);
      RendersOutside(rounds[i], music, namings[i], TrackIds(es[i].job.tracks), id);
    }
    RenderedStay(policy, music, rounds, ws, es, listing, namings, n, Outside(music));
    forall ids ensures OutsideTrash(ws[n].rows, music, ids) {
      OutsideTrashAll(ws[n].rows, music, ids);
    }
  }

  /** When they name .flac files as well, records are proper, as long as no two tracks render alike. */
  lemma RecordsAreProper(
    policy: Policy, music: Path, rounds: seq<Round>, ws: seq<World>, es: seq<CycleEvent>, listing: Listing,
    namings: seq<Naming>, n: nat)
    requires Performed(policy, music, rounds, ws, es, listing) && AllNamed(rounds, music, namings) && n <= |es|
    requires Clean(music) && AllRecorded(ws[0].rows, Proper(music))
    requires forall i | 0 <= i < |es| ::
      var ids := TrackIds(es[i].job.tracks);
      namings[i].AvoidsTrash(ids) && namings[i].NamesFlac(ids)
    ensures ProperRecords(ws[n].rows, music) <==>
      forall a, b | a in ws[n].rows && b in ws[n].rows && a != b && ws[n].rows[a].path.Some? ::
        ws[n].rows[a].path != ws[n].rows[b].path
  {
    hide CycleStep, CycleOf, RenderMeaning, JoinPath, Trashable, Clean, NamedBy, AllRecorded, IsFlac, ProperRecords;
    forall i, id | 0 <= i < |es| && id in TrackIds(es[i].job.tracks) && namings[i].Rendered(id).Ok?
      ensures Proper(music)(JoinPath(music, namings[i].Rendered(id).value))
    {
      assert NamedBy(rounds[i], music, namings[i]);
      RendersProper(rounds[i], music, namings[i], TrackIds(es[i].job.tracks), id);
    }
    RenderedStay(policy, music, rounds, ws, es, listing, namings, n, Proper(music));
    ProperApart(ws[n].rows, music);
  }

  lemma ProperApart(rows: Table, music: Path)
    requires AllRecorded(rows, Proper(music))
    ensures ProperRecords(rows, music) <==>
      forall a, b | a in rows && b in rows && a != b && rows[a].path.Some? :: rows[a].path != rows[b].path
  {
    hide Clean, Trashable, IsFlac;
    forall id | id in rows && rows[id].path.Some?
      ensures Clean(rows[id].path.value) && IsFlac(rows[id].path.value) && Trashable(music, rows[id].path.value)
    {
      assert Proper(music)(rows[id].path.value);
    }
  }

  /**
   Cycle.RecordedFileExactly for runs with rendered destinations: that records lie outside
   the trash folder need only hold when the run begins.
   */
  lemma RenderedFileExactly(
    policy: Policy, music: Path, rounds: seq<Round>, ws: seq<World>, es: seq<CycleEvent>, listing: Listing,
    namings: seq<Naming>, id: Id)
    requires Performed(policy, music, rounds, ws, es, listing) && AllNamed(rounds, music, namings)
    requires Clean(music) && AllRecorded(ws[0].rows, Outside(music))
    requires forall i | 0 <= i < |es| :: namings[i].AvoidsTrash(TrackIds(es[i].job.tracks))
    requires forall k | k in ws[0].rows && ws[0].rows[k].path.Some? :: ws[0].rows[k].path.value in ws[0].files
    requires id in ws[|es|].rows && ws[|es|].rows[id].path.Some?
    requires var p := ws[|es|].rows[id].path.value;
      forall i | 0 <= i < |es| && ActedOn(policy, music, es[i], ws[i + 1], p) :: Unhindered(music, es[i], ws[i + 1], p)
    ensures forall i | 0 <= i < |es| :: |es[i].job.fates| == |es[i].job.tracks|
    ensures var p := ws[|es|].rows[id].path.value;
      p in ws[|es|].files <==> !exists i :: TakenBy(policy, music, ws, es, p, i)
  {
    hide CycleOf, AllNamed, UnderTrash, Clean, ActedOn, Unhindered, TakenBy, OutsideTrash, CycleStep;
    var p := ws[|es|].rows[id].path.value;
    RecordsStayOut(policy, music, rounds, ws, es, listing, namings, |es|);
    assert Outside(music)(p);
    forall i | 0 <= i < |es| ensures OutOfTrash(policy, music, es[i], ws[i + 1], p) {
      RecordsStayOut(policy, music, rounds, ws, es, listing, namings, i + 1);
    }
    RecordedFileExactly(policy, music, ws, es, id);
  }
}
