/**
 downloadAll (internal/sync/engine.go): an errgroup of at most max(1, Concurrency)
 workers, one goroutine per enumerated track, sharing the tracks table and the atomic
 counters. Workers interleave between any two of their accesses to shared state.
 */
module Workers {
  import opened Wrappers
  import opened Text
  import opened Failure
  import opened Tracks
  import opened Process

  datatype Phase =
    | Queued                    // group.Go has not been called for it
    | Pacing                    // rate limiter, then worker jitter
    | Reading                   // about to look up its row
    | Skipping                  // settled; skipped.Add is next
    | Piping                    // album lookup through tagging
    | Marking                   // MarkTrack is next
    | Marked                    // downloaded.Add is next
    | Failing(cause: Err)       // markFailed entered
    | Recording(cause: Err)     // failed.Add done; MarkFailed is next
    | Finished(outcome: Outcome)
    | Errored                   // returned an error to the group

  /** What the run is about: the enumerated tracks and what the world answers for each. */
  datatype Job = Job(tracks: seq<Track>, fates: seq<Fate>, cfg: Config, concurrency: int)

  datatype State = State(
    next: nat, phases: seq<Phase>, rows: Table,
    downloaded: nat, skipped: nat, failed: nat, groupDone: bool, ctxDone: bool)

  datatype Step = Go | Worker(i: nat, paced: bool) | CancelCtx

  function Limit(job: Job): int { if job.concurrency < 1 then 1 else job.concurrency }

  /** Enumeration is keyed by track id, so ids do not repeat. */
  ghost predicate ValidJob(job: Job)
  {
    && |job.fates| == |job.tracks|
    && forall i, j | 0 <= i < j < |job.tracks| :: job.tracks[i].id != job.tracks[j].id
  }

  predicate InFlight(p: Phase) { !p.Queued? && !p.Finished? && !p.Errored? }

  predicate IsDownloaded(p: Phase) { p == Finished(WasDownloaded) }
  predicate IsSkipped(p: Phase) { p == Finished(WasSkipped) }
  predicate IsFailed(p: Phase) { p.Recording? || p == Finished(HasFailed) }

  function Count(phases: seq<Phase>, f: Phase -> bool): nat
  {
    if phases == [] then 0
    else Count(phases[..|phases| - 1], f) + if f(phases[|phases| - 1]) then 1 else 0
  }

  function Initial(job: Job, rows: Table): State
  {
    State(0, seq(|job.tracks|, i => Queued), rows, 0, 0, 0, false, false)
  }

  function Goto(s: State, i: nat, p: Phase): State
    requires i < |s.phases|
  {
    s.(phases := s.phases[i := p])
  }

  function WorkerStep(job: Job, s: State, i: nat, paced: bool): State
    requires ValidJob(job) && |s.phases| == |job.tracks| && i < |job.tracks|
  {
    var t, fate, id := job.tracks[i], job.fates[i], job.tracks[i].Key();
    match s.phases[i]
    case Pacing =>
      if paced && !s.groupDone && !s.ctxDone then Goto(s, i, Reading)
      else Goto(s, i, Errored).(groupDone := true)
    case Reading =>
      if fate.readFault.Some? then Goto(s, i, Failing(Wrap(Wrap(fate.readFault.value))))
      else Goto(s, i, if Skips(s.rows, id, job.cfg) then Skipping else Piping)
    case Skipping => Goto(s, i, Finished(WasSkipped)).(skipped := s.skipped + 1)
    case Piping => Goto(s, i, if fate.pipeline.Err? then Failing(fate.pipeline.error) else Marking)
    case Marking =>
      if fate.markFault.Some? then Goto(s, i, Failing(Wrap(Wrap(fate.markFault.value))))
      else if fate.pipeline.Err? then s
      else Goto(s, i, Marked).(rows := s.rows[id := DoneRow(t, job.cfg, fate.pipeline.value)])
    case Marked => Goto(s, i, Finished(WasDownloaded)).(downloaded := s.downloaded + 1)
    case Failing(cause) =>
      if Cancellation(cause) then Goto(s, i, Finished(Uncounted))
      else Goto(s, i, Recording(cause)).(failed := s.failed + 1)
    case Recording(cause) =>
      Goto(s, i, Finished(HasFailed)).(
        rows := if fate.recordFault.Some? then s.rows else MarkedFailed(s.rows, id, FailedRow(t, job.cfg, cause)))
    case _ => s
  }

  function Next(job: Job, s: State, step: Step): State
    requires ValidJob(job) && |s.phases| == |job.tracks|
    ensures |Next(job, s, step).phases| == |job.tracks|
  {
    match step
    case CancelCtx => s.(ctxDone := true)
    case Go =>
      if s.next < |s.phases| && Count(s.phases, InFlight) < Limit(job)
      then Goto(s, s.next, Pacing).(next := s.next + 1) else s
    case Worker(i, paced) => if i < |s.phases| then WorkerStep(job, s, i, paced) else s
  }

  function Run(job: Job, s: State, steps: seq<Step>): State
    requires ValidJob(job) && |s.phases| == |job.tracks|
    ensures |Run(job, s, steps).phases| == |job.tracks|
  {
    if steps == [] then s else Next(job, Run(job, s, steps[..|steps| - 1]), steps[|steps| - 1])
  }

  /** downloadAll returned nil. */
  predicate Succeeded(s: State)
  {
    !s.ctxDone && forall i | 0 <= i < |s.phases| :: s.phases[i].Finished?
  }

  /** group.Wait returned: every worker that was started has finished or given up. */
  predicate AtRest(s: State)
  {
    forall i | 0 <= i < |s.phases| :: s.phases[i].Finished? || s.phases[i].Errored? || s.phases[i].Queued?
  }

  /** The fate of a track that was never looked at. */
  const UNTOUCHED := Fate(Some(Leaf(Canceled)), Err(Leaf(Canceled)), [], None, None)

  /** The job with the tracks that were not reached taken for untouched. */
  function Reached(job: Job, s: State): (r: Job)
    requires |job.fates| == |job.tracks| == |s.phases|
    ensures r.tracks == job.tracks && r.cfg == job.cfg && |r.fates| == |job.fates|
    ensures forall i | 0 <= i < |r.fates| :: r.fates[i] == if s.phases[i].Finished? then job.fates[i] else UNTOUCHED
  {
    job.(fates := seq(|job.fates|, i requires 0 <= i < |job.fates| =>
      if s.phases[i].Finished? then job.fates[i] else UNTOUCHED))
  }

  // ----- The sequential reference -----

  /** The table after processing the first n tracks one after the other. */
  function Sequential(job: Job, rows: Table, n: nat): Table
    requires n <= |job.tracks| && |job.fates| == |job.tracks|
  {
    if n == 0 then rows else After(Sequential(job, rows, n - 1), job.tracks[n - 1], job.cfg, job.fates[n - 1])
  }

  /** How many of the first n tracks end in outcome o, each taken on the table the run began with. */
  function Tally(job: Job, rows: Table, n: nat, o: Outcome): nat
    requires n <= |job.tracks| && |job.fates| == |job.tracks|
  {
    if n == 0 then 0
    else Tally(job, rows, n - 1, o)
         + if OutcomeOf(rows, job.tracks[n - 1], job.cfg, job.fates[n - 1]) == o then 1 else 0
  }

  // ----- The invariant -----

  /** Worker i has got as far as its phase says, judged on the table the run began with. */
  ghost predicate WorkerOk(job: Job, rows: Table, s: State, i: nat)
    requires ValidJob(job) && |s.phases| == |job.tracks| && i < |job.tracks|
  {
    var t, fate := job.tracks[i], job.fates[i];
    var settled, cause, outcome :=
      Skips(rows, t.Key(), job.cfg), Cause(rows, t, job.cfg, fate), OutcomeOf(rows, t, job.cfg, fate);
    var written := s.phases[i].Marked? || s.phases[i].Finished?;
    && (s.phases[i].Queued? <==> i >= s.next)
    && SameRow(s.rows, if written then After(rows, t, job.cfg, fate) else rows, t.Key())
    && match s.phases[i]
       case Skipping => fate.readFault.None? && settled
       case Piping => fate.readFault.None? && !settled
       case Marking => fate.readFault.None? && !settled && fate.pipeline.Ok?
       case Marked => outcome == WasDownloaded
       case Failing(e) => cause == Some(e)
       case Recording(e) => cause == Some(e) && !Cancellation(e)
       case Finished(o) => o == outcome
       case _ => true
  }

  /** No enumerated track has this key. */
  ghost predicate Foreign(job: Job, k: Id)
  {
    forall i | 0 <= i < |job.tracks| :: job.tracks[i].Key() != k
  }

  ghost predicate CountsOk(s: State)
  {
    && s.downloaded == Count(s.phases, IsDownloaded)
    && s.skipped == Count(s.phases, IsSkipped)
    && s.failed == Count(s.phases, IsFailed)
  }

  ghost predicate Inv(job: Job, rows: Table, s: State)
    requires ValidJob(job) && |s.phases| == |job.tracks|
  {
    && s.next <= |job.tracks|
    && (forall i | 0 <= i < |job.tracks| :: WorkerOk(job, rows, s, i))
    && (forall k | Foreign(job, k) :: SameRow(s.rows, rows, k))
    && CountsOk(s)
    && Count(s.phases, InFlight) <= Limit(job)
  }

  lemma {:induction false} CountSet(phases: seq<Phase>, i: nat, p: Phase, f: Phase -> bool)
    requires i < |phases|
    ensures Count(phases[i := p], f) == Count(phases, f) - (if f(phases[i]) then 1 else 0) + (if f(p) then 1 else 0)
  {
    var n := |phases| - 1;
    if i < n {
      assert phases[i := p][..n] == phases[..n][i := p];
      CountSet(phases[..n], i, p, f);
    } else {
      assert phases[i := p][..n] == phases[..n];
    }
  }

  lemma {:induction false} CountNone(phases: seq<Phase>, f: Phase -> bool)
    requires forall i | 0 <= i < |phases| :: !f(phases[i])
    ensures Count(phases, f) == 0
  {
    if phases != [] {
      CountNone(phases[..|phases| - 1], f);
    }
  }

  lemma KeysDiffer(job: Job, i: nat, j: nat)
    requires ValidJob(job) && i < |job.tracks| && j < |job.tracks| && i != j
    ensures job.tracks[i].Key() != job.tracks[j].Key()
  {
    ItoaInjective(job.tracks[i].id, job.tracks[j].id);
    assert if i < j then job.tracks[i].id != job.tracks[j].id else job.tracks[j].id != job.tracks[i].id;
  }

  lemma InitialInv(job: Job, rows: Table)
    requires ValidJob(job)
    ensures Inv(job, rows, Initial(job, rows))
  {
    var s := Initial(job, rows);
    CountNone(s.phases, IsDownloaded);
    CountNone(s.phases, IsSkipped);
    CountNone(s.phases, IsFailed);
    CountNone(s.phases, InFlight);
  }

  /** Every counter follows its worker's phase. */
  lemma CountsFollow(s: State, t: State, i: nat, p: Phase)
    requires CountsOk(s) && i < |s.phases| && t.phases == s.phases[i := p]
    requires t.downloaded ==
      s.downloaded - (if IsDownloaded(s.phases[i]) then 1 else 0) + (if IsDownloaded(p) then 1 else 0)
    requires t.skipped == s.skipped - (if IsSkipped(s.phases[i]) then 1 else 0) + (if IsSkipped(p) then 1 else 0)
    requires t.failed == s.failed - (if IsFailed(s.phases[i]) then 1 else 0) + (if IsFailed(p) then 1 else 0)
    ensures CountsOk(t)
  {
    CountSet(s.phases, i, p, IsDownloaded);
    CountSet(s.phases, i, p, IsSkipped);
    CountSet(s.phases, i, p, IsFailed);
  }

  lemma OtherOk(job: Job, rows: Table, s: State, t: State, j: nat)
    requires ValidJob(job) && |s.phases| == |job.tracks| == |t.phases| && j < |job.tracks|
    requires WorkerOk(job, rows, s, j) && t.phases[j] == s.phases[j]
    requires SameRow(t.rows, s.rows, job.tracks[j].Key()) && (j >= s.next <==> j >= t.next)
    ensures WorkerOk(job, rows, t, j)
  {
    hide Cause, After, OutcomeOf, Skips, Lookup, Itoa;
  }

  /** A step that moves worker i and touches no row but its own. */
  lemma MoveKeeps(job: Job, rows: Table, s: State, t: State, i: nat, p: Phase)
    requires ValidJob(job) && |s.phases| == |job.tracks| && i < |job.tracks| && Inv(job, rows, s)
    requires t.phases == s.phases[i := p]
    requires t.next == s.next || (t.next == s.next + 1 && i == s.next)
    requires forall k | k != job.tracks[i].Key() :: SameRow(t.rows, s.rows, k)
    requires WorkerOk(job, rows, t, i) && CountsOk(t)
    requires Count(t.phases, InFlight) <= Limit(job)
    ensures Inv(job, rows, t)
  {
    hide Cause, After, OutcomeOf, Skips, CountsOk, Count, WorkerOk, Lookup, Itoa;
    forall j | 0 <= j < |job.tracks| ensures WorkerOk(job, rows, t, j) {
      if j != i {
        KeysDiffer(job, i, j);
        OtherOk(job, rows, s, t, j);
      }
    }
    forall k | Foreign(job, k) ensures SameRow(t.rows, rows, k) {
      assert SameRow(t.rows, s.rows, k) && SameRow(s.rows, rows, k);
    }
  }

  lemma GoKeeps(job: Job, rows: Table, s: State)
    requires ValidJob(job) && |s.phases| == |job.tracks| && Inv(job, rows, s)
    ensures Inv(job, rows, Next(job, s, Go))
  {
    hide Cause, After, OutcomeOf, Skips, Count;
    var t := Next(job, s, Go);
    if t != s {
      assert WorkerOk(job, rows, s, s.next);
      CountSet(s.phases, s.next, Pacing, InFlight);
      CountsFollow(s, t, s.next, Pacing);
      MoveKeeps(job, rows, s, t, s.next, Pacing);
    }
  }

  /** How far along a worker is. */
  function Progress(p: Phase): nat
  {
    match p
    case Queued => 0
    case Pacing => 1
    case Reading => 2
    case Skipping => 3
    case Piping => 3
    case Marking => 4
    case Marked => 5
    case Failing(_) => 5
    case Recording(_) => 6
    case Finished(_) => 7
    case Errored => 7
  }

  ghost predicate At(job: Job, rows: Table, s: State, i: nat)
  {
    ValidJob(job) && |s.phases| == |job.tracks| && i < |job.tracks| && WorkerOk(job, rows, s, i)
  }

  /** What a worker's own step does to the shared state. */
  ghost predicate StepOk(job: Job, rows: Table, s: State, i: nat, t: State)
    requires At(job, rows, s, i)
  {
    && |t.phases| == |s.phases| && t.phases == s.phases[i := t.phases[i]] && t.next == s.next
    && (t.phases[i] == s.phases[i] || Progress(s.phases[i]) < Progress(t.phases[i]))
    && (InFlight(t.phases[i]) ==> InFlight(s.phases[i]))
    && (forall k | k != job.tracks[i].Key() :: SameRow(t.rows, s.rows, k))
    && WorkerOk(job, rows, t, i)
    && CounterMoves(s, t, s.phases[i], t.phases[i])
  }

  predicate CounterMoves(s: State, t: State, p: Phase, q: Phase)
  {
    && t.downloaded == s.downloaded - (if IsDownloaded(p) then 1 else 0) + (if IsDownloaded(q) then 1 else 0)
    && t.skipped == s.skipped - (if IsSkipped(p) then 1 else 0) + (if IsSkipped(q) then 1 else 0)
    && t.failed == s.failed - (if IsFailed(p) then 1 else 0) + (if IsFailed(q) then 1 else 0)
  }

  lemma SkipsRow(a: Table, b: Table, id: Id, cfg: Config)
    ensures SameRow(a, b, id) ==> Skips(a, id, cfg) == Skips(b, id, cfg)
  {
  }

  lemma MarkedFailedRow(a: Table, b: Table, id: Id, row: Row)
    ensures SameRow(a, b, id) ==> SameRow(MarkedFailed(a, id, row), MarkedFailed(b, id, row), id)
    ensures forall k | k != id :: SameRow(MarkedFailed(a, id, row), a, k)
  {
  }

  lemma PacingStep(job: Job, rows: Table, s: State, i: nat, paced: bool)
    requires At(job, rows, s, i) && s.phases[i].Pacing?
    ensures StepOk(job, rows, s, i, WorkerStep(job, s, i, paced))
  {
    hide Skips, MarkedFailed, DoneRow, FailedRow, Itoa, Lookup, Cancellation, Cause, After, OutcomeOf;
  }

  lemma ReadingStep(job: Job, rows: Table, s: State, i: nat, paced: bool)
    requires At(job, rows, s, i) && s.phases[i].Reading?
    ensures StepOk(job, rows, s, i, WorkerStep(job, s, i, paced))
  {
    hide MarkedFailed, DoneRow, FailedRow, Itoa, Lookup, Cancellation, After, OutcomeOf, Skips;
    SkipsRow(s.rows, rows, job.tracks[i].Key(), job.cfg);
  }

  lemma SkippingStep(job: Job, rows: Table, s: State, i: nat, paced: bool)
    requires At(job, rows, s, i) && s.phases[i].Skipping?
    ensures StepOk(job, rows, s, i, WorkerStep(job, s, i, paced))
  {
    hide Skips, MarkedFailed, DoneRow, FailedRow, Itoa, Lookup, Cancellation;
  }

  lemma PipingStep(job: Job, rows: Table, s: State, i: nat, paced: bool)
    requires At(job, rows, s, i) && s.phases[i].Piping?
    ensures StepOk(job, rows, s, i, WorkerStep(job, s, i, paced))
  {
    hide Skips, MarkedFailed, DoneRow, FailedRow, Itoa, Lookup, Cancellation, After, OutcomeOf;
  }

  lemma MarkingStep(job: Job, rows: Table, s: State, i: nat, paced: bool)
    requires At(job, rows, s, i) && s.phases[i].Marking?
    ensures StepOk(job, rows, s, i, WorkerStep(job, s, i, paced))
  {
    hide Skips, MarkedFailed, DoneRow, FailedRow, Itoa, Cancellation;
  }

  lemma MarkedStep(job: Job, rows: Table, s: State, i: nat, paced: bool)
    requires At(job, rows, s, i) && s.phases[i].Marked?
    ensures StepOk(job, rows, s, i, WorkerStep(job, s, i, paced))
  {
    hide Skips, MarkedFailed, DoneRow, FailedRow, Itoa, Lookup, Cancellation, Cause, After, OutcomeOf;
  }

  lemma FailingStep(job: Job, rows: Table, s: State, i: nat, paced: bool)
    requires At(job, rows, s, i) && s.phases[i].Failing?
    ensures StepOk(job, rows, s, i, WorkerStep(job, s, i, paced))
  {
    hide Skips, MarkedFailed, DoneRow, FailedRow, Itoa, Lookup, Cancellation;
  }

  lemma RecordingStep(job: Job, rows: Table, s: State, i: nat, paced: bool)
    requires At(job, rows, s, i) && s.phases[i].Recording?
    ensures StepOk(job, rows, s, i, WorkerStep(job, s, i, paced))
  {
    hide Skips, MarkedFailed, DoneRow, FailedRow, Itoa, Lookup, Cancellation;
    var id := job.tracks[i].Key();
    MarkedFailedRow(s.rows, rows, id, FailedRow(job.tracks[i], job.cfg, s.phases[i].cause));
  }

  lemma OwnStep(job: Job, rows: Table, s: State, i: nat, paced: bool)
    requires At(job, rows, s, i)
    ensures StepOk(job, rows, s, i, WorkerStep(job, s, i, paced))
  {
    hide StepOk;
    if s.phases[i].Queued? || s.phases[i].Finished? || s.phases[i].Errored? {
      StillStep(job, rows, s, i, paced);
    } else {
      hide WorkerStep;
      match s.phases[i]
      case Pacing => PacingStep(job, rows, s, i, paced);
      case Reading => ReadingStep(job, rows, s, i, paced);
      case Skipping => SkippingStep(job, rows, s, i, paced);
      case Piping => PipingStep(job, rows, s, i, paced);
      case Marking => MarkingStep(job, rows, s, i, paced);
      case Marked => MarkedStep(job, rows, s, i, paced);
      case Failing(_) => FailingStep(job, rows, s, i, paced);
      case Recording(_) => RecordingStep(job, rows, s, i, paced);
    }
  }

  lemma StillStep(job: Job, rows: Table, s: State, i: nat, paced: bool)
    requires At(job, rows, s, i) && (s.phases[i].Queued? || s.phases[i].Finished? || s.phases[i].Errored?)
    ensures StepOk(job, rows, s, i, WorkerStep(job, s, i, paced))
  {
    hide Skips, MarkedFailed, DoneRow, FailedRow, Itoa, Cancellation, Cause, After, OutcomeOf;
    assert s.phases[i := s.phases[i]] == s.phases;
  }

  lemma NextKeeps(job: Job, rows: Table, s: State, step: Step)
    requires ValidJob(job) && |s.phases| == |job.tracks| && Inv(job, rows, s)
    ensures Inv(job, rows, Next(job, s, step))
  {
    hide Cause, After, OutcomeOf, Skips, Count, WorkerStep, CountsOk;
    match step
    case CancelCtx =>
      CancelKeeps(job, rows, s);
    case Go =>
      GoKeeps(job, rows, s);
    case Worker(i, paced) =>
      if i < |s.phases| {
        var t := WorkerStep(job, s, i, paced);
        assert WorkerOk(job, rows, s, i);
        OwnStep(job, rows, s, i, paced);
        CountSet(s.phases, i, t.phases[i], InFlight);
        CountsFollow(s, t, i, t.phases[i]);
        MoveKeeps(job, rows, s, t, i, t.phases[i]);
      }
  }

  lemma CancelKeeps(job: Job, rows: Table, s: State)
    requires ValidJob(job) && |s.phases| == |job.tracks| && Inv(job, rows, s)
    ensures Inv(job, rows, s.(ctxDone := true))
  {
    hide Cause, After, OutcomeOf, Skips, Count;
    forall i | 0 <= i < |job.tracks| ensures WorkerOk(job, rows, s.(ctxDone := true), i) {
      assert WorkerOk(job, rows, s, i);
    }
  }

  lemma {:induction false} RunKeeps(job: Job, rows: Table, s: State, steps: seq<Step>)
    requires ValidJob(job) && |s.phases| == |job.tracks| && Inv(job, rows, s)
    ensures Inv(job, rows, Run(job, s, steps))
  {
    hide Inv, Next;
    if steps != [] {
      RunKeeps(job, rows, s, steps[..|steps| - 1]);
      NextKeeps(job, rows, Run(job, s, steps[..|steps| - 1]), steps[|steps| - 1]);
    }
  }

  // ----- The theorems -----

  /** The row of key k after n tracks in sequence. */
  ghost predicate SequentialOk(job: Job, rows: Table, n: nat, i: nat)
    requires ValidJob(job) && n <= |job.tracks| && i < |job.tracks|
  {
    SameRow(Sequential(job, rows, n),
            if i < n then After(rows, job.tracks[i], job.cfg, job.fates[i]) else rows,
            job.tracks[i].Key())
  }

  /** Sequentially too, each track finds and leaves its own row as if it were alone. */
  lemma {:induction false} SequentialRow(job: Job, rows: Table, n: nat)
    requires ValidJob(job) && n <= |job.tracks|
    ensures forall i | 0 <= i < |job.tracks| :: SequentialOk(job, rows, n, i)
    ensures forall k | Foreign(job, k) :: SameRow(Sequential(job, rows, n), rows, k)
  {
    hide After, Lookup, Itoa;
    if n > 0 {
      var before, t := Sequential(job, rows, n - 1), job.tracks[n - 1];
      SequentialRow(job, rows, n - 1);
      assert SequentialOk(job, rows, n - 1, n - 1);
      ProcessIsLocal(before, rows, t, job.cfg, job.fates[n - 1]);
      forall i | 0 <= i < |job.tracks| ensures SequentialOk(job, rows, n, i) {
        assert SequentialOk(job, rows, n - 1, i);
        if i != n - 1 {
          KeysDiffer(job, i, n - 1);
          assert SameRow(After(before, t, job.cfg, job.fates[n - 1]), before, job.tracks[i].Key());
        }
      }
      forall k | Foreign(job, k) ensures SameRow(Sequential(job, rows, n), rows, k) {
        assert k != t.Key();
        assert SameRow(After(before, t, job.cfg, job.fates[n - 1]), before, k);
        assert SameRow(before, rows, k);
      }
    }
  }

  /** What phase i counts for is the outcome of its track. */
  ghost predicate Counted(job: Job, rows: Table, phases: seq<Phase>, i: nat)
    requires |job.fates| == |job.tracks| && i < |job.tracks| && i < |phases|
  {
    var o := OutcomeOf(rows, job.tracks[i], job.cfg, job.fates[i]);
    && (IsDownloaded(phases[i]) <==> o == WasDownloaded)
    && (IsSkipped(phases[i]) <==> o == WasSkipped)
    && (IsFailed(phases[i]) <==> o == HasFailed)
  }

  lemma {:induction false} TallyIsCount(job: Job, rows: Table, phases: seq<Phase>, n: nat)
    requires |job.fates| == |job.tracks| && n <= |job.tracks| && |phases| == n
    requires forall i | 0 <= i < n :: Counted(job, rows, phases, i)
    ensures Count(phases, IsDownloaded) == Tally(job, rows, n, WasDownloaded)
    ensures Count(phases, IsSkipped) == Tally(job, rows, n, WasSkipped)
    ensures Count(phases, IsFailed) == Tally(job, rows, n, HasFailed)
    ensures Tally(job, rows, n, WasDownloaded) + Tally(job, rows, n, WasSkipped)
      + Tally(job, rows, n, HasFailed) + Tally(job, rows, n, Uncounted) == n
  {
    hide OutcomeOf;
    if n > 0 {
      var head := phases[..n - 1];
      forall i | 0 <= i < |head| ensures Counted(job, rows, head, i) {
        assert Counted(job, rows, phases, i);
      }
      assert Counted(job, rows, phases, n - 1);
      TallyIsCount(job, rows, head, n - 1);
    }
  }

  /** A track that is not looked at leaves its row and no counter moves. */
  lemma UntouchedLeaves(rows: Table, t: Track, cfg: Config)
    ensures After(rows, t, cfg, UNTOUCHED) == rows && OutcomeOf(rows, t, cfg, UNTOUCHED) == Uncounted
  {
    assert Is(Wrap(Wrap(Leaf(Canceled))), Canceled);
  }

  /** A worker at rest, against the job of the tracks that were reached. */
  lemma RestOk(job: Job, rows: Table, s: State, i: nat)
    requires ValidJob(job) && |s.phases| == |job.tracks| && i < |job.tracks| && WorkerOk(job, rows, s, i) && AtRest(s)
    ensures var r := Reached(job, s);
      && Counted(r, rows, s.phases, i)
      && SameRow(s.rows, After(rows, r.tracks[i], r.cfg, r.fates[i]), r.tracks[i].Key())
  {
    hide After, OutcomeOf, Cause, Skips, Itoa;
    UntouchedLeaves(rows, job.tracks[i], job.cfg);
  }

  /**
   Worker conservation. Whatever the interleaving, when downloadAll returns, with or without
   an error, the table is the one sequential processing of the tracks it reached would have
   produced, each counter is the number of tracks with that outcome, and every enumerated
   track is accounted for: downloaded, skipped, failed, or not counted, because it was
   cancelled or never reached. When it returns nil all tracks were reached.
   */
  lemma Conservation(job: Job, rows: Table, steps: seq<Step>)
    requires ValidJob(job)
    requires AtRest(Run(job, Initial(job, rows), steps))
    ensures var s, n := Run(job, Initial(job, rows), steps), |job.tracks|;
      var reached := Reached(job, s);
      && s.rows == Sequential(reached, rows, n)
      && s.downloaded == Tally(reached, rows, n, WasDownloaded)
      && s.skipped == Tally(reached, rows, n, WasSkipped)
      && s.failed == Tally(reached, rows, n, HasFailed)
      && n == s.downloaded + s.skipped + s.failed + Tally(reached, rows, n, Uncounted)
      && (Succeeded(s) ==> reached == job)
  {
    hide After, OutcomeOf, Cause, Skips, Sequential, Run, Counted;
    var s, n := Run(job, Initial(job, rows), steps), |job.tracks|;
    var reached := Reached(job, s);
    InitialInv(job, rows);
    RunKeeps(job, rows, Initial(job, rows), steps);
    forall i | 0 <= i < n
      ensures Counted(reached, rows, s.phases, i)
      ensures SameRow(s.rows, After(rows, reached.tracks[i], reached.cfg, reached.fates[i]), reached.tracks[i].Key())
    {
      assert WorkerOk(job, rows, s, i);
      RestOk(job, rows, s, i);
    }
    TallyIsCount(reached, rows, s.phases, n);
    SequentialRow(reached, rows, n);
    forall k ensures SameRow(s.rows, Sequential(reached, rows, n), k) {
      if !Foreign(reached, k) {
        var i :| 0 <= i < n && reached.tracks[i].Key() == k;
        assert SequentialOk(reached, rows, n, i);
        assert SameRow(s.rows, After(rows, reached.tracks[i], reached.cfg, reached.fates[i]), k);
      } else {
        assert Foreign(job, k);
      }
    }
    SameTables(s.rows, Sequential(reached, rows, n));
    if Succeeded(s) {
      assert reached.fates == job.fates;
    }
  }

  lemma SameTables(a: Table, b: Table)
    requires forall k :: SameRow(a, b, k)
    ensures a == b
  {
    forall k ensures k in a <==> k in b {
      assert SameRow(a, b, k);
    }
    forall k | k in a ensures a[k] == b[k] {
      assert SameRow(a, b, k);
    }
  }

  /** At no moment are more tracks in flight than the limit, nor more than max(1, Concurrency). */
  lemma BoundedInFlight(job: Job, rows: Table, steps: seq<Step>)
    requires ValidJob(job)
    ensures Count(Run(job, Initial(job, rows), steps).phases, InFlight) <=
      if job.concurrency < 1 then 1 else job.concurrency
  {
    InitialInv(job, rows);
    hide Run, Count;
    RunKeeps(job, rows, Initial(job, rows), steps);
  }

  /** Below that limit nothing holds up the next track: Go starts it, and it had not been started before. */
  lemma GoStarts(job: Job, rows: Table, steps: seq<Step>)
    requires ValidJob(job)
    requires var s := Run(job, Initial(job, rows), steps);
      s.next < |job.tracks| && Count(s.phases, InFlight) < if job.concurrency < 1 then 1 else job.concurrency
    ensures var s := Run(job, Initial(job, rows), steps); var t := Next(job, s, Go);
      s.phases[s.next] == Queued && t == s.(phases := s.phases[s.next := Pacing], next := s.next + 1)
  {
    InitialInv(job, rows);
    hide Run, Count, After, OutcomeOf, Cause, Skips;
    RunKeeps(job, rows, Initial(job, rows), steps);
    assert WorkerOk(job, rows, Run(job, Initial(job, rows), steps), Run(job, Initial(job, rows), steps).next);
  }

  /** No worker is ever started or run a second time: each of its steps takes it strictly forward. */
  lemma OncePerTrack(job: Job, rows: Table, steps: seq<Step>, step: Step, i: nat)
    requires ValidJob(job) && i < |job.tracks|
    ensures var s := Run(job, Initial(job, rows), steps); var t := Next(job, s, step);
      t.phases[i] == s.phases[i] || Progress(s.phases[i]) < Progress(t.phases[i])
  {
    hide Run, WorkerStep, Progress, Count;
    var s := Run(job, Initial(job, rows), steps);
    InitialInv(job, rows);
    RunKeeps(job, rows, Initial(job, rows), steps);
    if step.Worker? && step.i < |s.phases| {
      assert WorkerOk(job, rows, s, step.i);
      OwnStep(job, rows, s, step.i, step.paced);
    } else if step.Go? && s.next < |s.phases| {
      assert WorkerOk(job, rows, s, s.next);
      assert Progress(Queued) < Progress(Pacing) by { Start(); }
    }
  }

  lemma Start()
    ensures Progress(Queued) < Progress(Pacing)
  {
  }

  /**
   A track that is settled when the run begins is never taken past shouldSkip, however
   the workers interleave: nobody else writes its row.
   */
  lemma SettledNeverDownloads(job: Job, rows: Table, steps: seq<Step>, i: nat)
    requires ValidJob(job) && i < |job.tracks| && Skips(rows, job.tracks[i].Key(), job.cfg)
    ensures var p := Run(job, Initial(job, rows), steps).phases[i];
      !p.Piping? && !p.Marking? && !p.Marked? && p != Finished(WasDownloaded)
  {
    hide Run, Skips, Settled;
    InitialInv(job, rows);
    RunKeeps(job, rows, Initial(job, rows), steps);
    assert WorkerOk(job, rows, Run(job, Initial(job, rows), steps), i);
  }
}
