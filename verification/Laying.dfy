/**
 The files the workers of downloadAll leave (internal/sync/engine.go, process.go), whatever
 the interleaving: the workers of module Workers, each putting its pipeline's files in
 place one at a time while the others go on.
 */
module Laying {
  import opened Text
  import opened Failure
  import opened Paths
  import opened Disk
  import opened Tracks
  import opened Process
  import opened Workers
  import opened Cycle

  /** placed[i]: how many of its files worker i's pipeline has put in place. */
  datatype Scene = Scene(state: State, files: Files, placed: seq<nat>)

  datatype Move = Engine(step: Workers.Step) | Place(i: nat)

  function Begin(job: Job, rows: Table, files: Files): Scene
  {
    Scene(Workers.Initial(job, rows), files, seq(|job.tracks|, i => 0))
  }

  ghost predicate Shaped(job: Job, s: Scene)
  {
    ValidJob(job) && |s.state.phases| == |s.placed| == |job.tracks|
  }

  /** A pipeline goes on only when all its files are in place. */
  predicate StillPlacing(job: Job, s: Scene, step: Workers.Step)
    requires |s.state.phases| == |s.placed| == |job.fates|
  {
    && step.Worker? && step.i < |s.placed| && s.state.phases[step.i].Piping?
    && s.placed[step.i] < |job.fates[step.i].left|
  }

  function Advance(job: Job, s: Scene, move: Move): (t: Scene)
    requires Shaped(job, s)
    ensures Shaped(job, t)
  {
    match move
    case Engine(step) =>
      if StillPlacing(job, s, step) then s else s.(state := Workers.Next(job, s.state, step))
    case Place(i) =>
      if i < |s.placed| && s.state.phases[i].Piping? && s.placed[i] < |job.fates[i].left| then
        var file := job.fates[i].left[s.placed[i]];
        s.(files := s.files[file.0 := file.1], placed := s.placed[i := s.placed[i] + 1])
      else s
  }

  function AdvanceAll(job: Job, s: Scene, moves: seq<Move>): (t: Scene)
    requires Shaped(job, s)
    ensures Shaped(job, t)
  {
    if moves == [] then s else Advance(job, AdvanceAll(job, s, moves[..|moves| - 1]), moves[|moves| - 1])
  }

  // ----- The rows and counters are those of Workers -----

  /** The steps of the workers in a run, the files left out. */
  function EngineSteps(job: Job, s: Scene, moves: seq<Move>): seq<Workers.Step>
    requires Shaped(job, s)
  {
    if moves == [] then []
    else
      var before, move := moves[..|moves| - 1], moves[|moves| - 1];
      EngineSteps(job, s, before) +
        if move.Engine? && !StillPlacing(job, AdvanceAll(job, s, before), move.step) then [move.step] else []
  }

  lemma {:induction false} SameEngine(job: Job, s: Scene, moves: seq<Move>)
    requires Shaped(job, s)
    ensures AdvanceAll(job, s, moves).state == Workers.Run(job, s.state, EngineSteps(job, s, moves))
  {
    hide Workers.Next, StillPlacing;
    if moves != [] {
      var before, move := moves[..|moves| - 1], moves[|moves| - 1];
      SameEngine(job, s, before);
      var steps := EngineSteps(job, s, before);
      if move.Engine? && !StillPlacing(job, AdvanceAll(job, s, before), move.step) {
        assert (steps + [move.step])[..|steps|] == steps;
      } else {
        assert steps + [] == steps;
      }
    }
  }

  // ----- What has been placed -----

  /** Whether worker i's pipeline runs at all. */
  predicate Pipes(job: Job, rows: Table, i: nat)
    requires |job.fates| == |job.tracks| && i < |job.tracks|
  {
    ReachesDownload(rows, job.tracks[i], job.cfg, job.fates[i])
  }

  /** How far worker i's pipeline has got, by its phase. */
  ghost predicate PlacedOk(job: Job, rows: Table, s: Scene, i: nat)
    requires Shaped(job, s) && i < |job.tracks|
  {
    var n := |job.fates[i].left|;
    match s.state.phases[i]
    case Piping => s.placed[i] <= n
    case Marking => s.placed[i] == n
    case Marked => s.placed[i] == n
    case Failing(_) => s.placed[i] == if Pipes(job, rows, i) then n else 0
    case Recording(_) => s.placed[i] == if Pipes(job, rows, i) then n else 0
    case Finished(_) => s.placed[i] == if Pipes(job, rows, i) then n else 0
    case _ => s.placed[i] == 0
  }

  ghost predicate AllPlacedOk(job: Job, rows: Table, s: Scene)
    requires Shaped(job, s)
  {
    forall i | 0 <= i < |job.tracks| :: PlacedOk(job, rows, s, i)
  }

  lemma EngineMove(job: Job, rows: Table, s: Scene, i: nat, paced: bool)
    requires Shaped(job, s) && i < |job.tracks| && PlacedOk(job, rows, s, i)
    requires WorkerOk(job, rows, s.state, i)
    requires !StillPlacing(job, s, Workers.Worker(i, paced))
    ensures PlacedOk(job, rows, s.(state := WorkerStep(job, s.state, i, paced)), i)
  {
    hide After, MarkedFailed, DoneRow, FailedRow, Itoa, Cancellation;
  }

  /** Nothing that another worker's pipeline depends on changes. */
  lemma OthersPlaced(job: Job, rows: Table, s: Scene, t: Scene, j: nat)
    requires Shaped(job, s) && Shaped(job, t) && j < |job.tracks| && PlacedOk(job, rows, s, j)
    requires t.state.phases[j] == s.state.phases[j] && t.placed[j] == s.placed[j]
    ensures PlacedOk(job, rows, t, j)
  {
    hide Pipes;
  }

  lemma GoMove(job: Job, rows: Table, s: Scene, j: nat)
    requires Shaped(job, s) && j < |job.tracks| && PlacedOk(job, rows, s, j)
    requires s.state.next < |s.state.phases| ==> s.state.phases[s.state.next].Queued?
    ensures PlacedOk(job, rows, s.(state := Workers.Next(job, s.state, Go)), j)
    ensures PlacedOk(job, rows, s.(state := Workers.Next(job, s.state, CancelCtx)), j)
  {
    hide Pipes, Count, Limit;
  }

  lemma AdvancePlaced(job: Job, rows: Table, s: Scene, move: Move)
    requires Shaped(job, s) && AllPlacedOk(job, rows, s) && Inv(job, rows, s.state)
    ensures AllPlacedOk(job, rows, Advance(job, s, move))
  {
    hide PlacedOk, WorkerOk, WorkerStep, Count, CountsOk, Pipes;
    var t := Advance(job, s, move);
    forall j | 0 <= j < |job.tracks| ensures PlacedOk(job, rows, t, j) {
      match move
      case Place(i) =>
        PlaceMove(job, rows, s, i, j);
      case Engine(step) =>
        if !StillPlacing(job, s, step) {
          match step
          case Worker(i, paced) =>
            if i < |job.tracks| {
              WorkerMove(job, rows, s, i, paced, j);
            }
          case _ =>
            if s.state.next < |job.tracks| {
              assert WorkerOk(job, rows, s.state, s.state.next);
              QueuedNext(job, rows, s.state);
            }
            GoMove(job, rows, s, j);
        }
    }
  }

  lemma QueuedNext(job: Job, rows: Table, s: State)
    requires ValidJob(job) && |s.phases| == |job.tracks| && s.next < |job.tracks| && WorkerOk(job, rows, s, s.next)
    ensures s.phases[s.next].Queued?
  {
    hide Cause, After, OutcomeOf, Skips;
  }

  lemma PlaceMove(job: Job, rows: Table, s: Scene, i: nat, j: nat)
    requires Shaped(job, s) && j < |job.tracks| && PlacedOk(job, rows, s, j)
    ensures PlacedOk(job, rows, Advance(job, s, Place(i)), j)
  {
    hide Pipes;
  }

  lemma WorkerMove(job: Job, rows: Table, s: Scene, i: nat, paced: bool, j: nat)
    requires Shaped(job, s) && AllPlacedOk(job, rows, s) && Inv(job, rows, s.state)
    requires i < |job.tracks| && j < |job.tracks| && !StillPlacing(job, s, Workers.Worker(i, paced))
    ensures PlacedOk(job, rows, s.(state := WorkerStep(job, s.state, i, paced)), j)
  {
    hide PlacedOk, WorkerOk, WorkerStep, Count, CountsOk, Pipes, StillPlacing, StepOk;
    assert PlacedOk(job, rows, s, i) && PlacedOk(job, rows, s, j) && WorkerOk(job, rows, s.state, i);
    if i == j {
      EngineMove(job, rows, s, i, paced);
    } else {
      OwnPhase(job, rows, s.state, i, paced);
      OthersPlaced(job, rows, s, s.(state := WorkerStep(job, s.state, i, paced)), j);
    }
  }

  lemma OwnPhase(job: Job, rows: Table, s: State, i: nat, paced: bool)
    requires ValidJob(job) && |s.phases| == |job.tracks| && i < |job.tracks| && WorkerOk(job, rows, s, i)
    ensures var t := WorkerStep(job, s, i, paced);
      |t.phases| == |s.phases| && forall j | 0 <= j < |s.phases| && j != i :: t.phases[j] == s.phases[j]
  {
    hide WorkerStep, WorkerOk;
    OwnStep(job, rows, s, i, paced);
  }

  lemma {:induction false} AllPlaced(job: Job, rows: Table, files: Files, moves: seq<Move>)
    requires ValidJob(job)
    ensures var s := AdvanceAll(job, Begin(job, rows, files), moves);
      AllPlacedOk(job, rows, s) && Inv(job, rows, s.state)
  {
    hide Inv, Advance, AllPlacedOk;
    var begin := Begin(job, rows, files);
    SameEngine(job, begin, moves);
    InitialInv(job, rows);
    RunKeeps(job, rows, begin.state, EngineSteps(job, begin, moves));
    if moves == [] {
      NonePlaced(job, rows, files);
    } else {
      var before := moves[..|moves| - 1];
      AllPlaced(job, rows, files, before);
      AdvancePlaced(job, rows, AdvanceAll(job, begin, before), moves[|moves| - 1]);
    }
  }

  lemma NonePlaced(job: Job, rows: Table, files: Files)
    requires ValidJob(job)
    ensures AllPlacedOk(job, rows, Begin(job, rows, files))
  {
    hide Pipes;
  }

  // ----- The files placed so far -----

  /** The files worker i's pipeline is to place: none if it never runs. */
  function Own(job: Job, rows: Table, i: nat): seq<(Path, Content)>
    requires |job.fates| == |job.tracks| && i < |job.tracks|
  {
    if Pipes(job, rows, i) then job.fates[i].left else []
  }

  /** No two pipelines that run write to one path: destinations and sidecars are distinct. */
  ghost predicate Apart(job: Job, rows: Table)
    requires |job.fates| == |job.tracks|
  {
    forall i, j | 0 <= i < |job.tracks| && 0 <= j < |job.tracks| && i != j ::
      LaidPaths(Own(job, rows, i)) !! LaidPaths(Own(job, rows, j))
  }

  ghost predicate Within(job: Job, rows: Table, placed: seq<nat>)
  {
    |job.fates| == |job.tracks| == |placed| && forall i | 0 <= i < |placed| :: placed[i] <= |Own(job, rows, i)|
  }

  predicate SameFile(a: Files, b: Files, p: Path) { (p in a <==> p in b) && (p in a ==> a[p] == b[p]) }

  /** Exactly the paths of the files placed so far have been added. */
  ghost predicate KeysOk(job: Job, rows: Table, files: Files, now: Files, placed: seq<nat>)
    requires Within(job, rows, placed)
  {
    forall p :: p in now <==>
      p in files || exists i | 0 <= i < |placed| :: PlacedAt(job, rows, placed, i, p)
  }

  /** At each pipeline's paths lies what it alone would have put there by now, and elsewhere what lay there before. */
  ghost predicate ContentsOk(job: Job, rows: Table, files: Files, now: Files, placed: seq<nat>)
    requires Within(job, rows, placed)
  {
    && (forall i, p | 0 <= i < |placed| && p in LaidPaths(Own(job, rows, i)) ::
          SameFile(now, Lay(files, Own(job, rows, i)[..placed[i]]), p))
    && forall p | Elsewhere(job, rows, p) :: SameFile(now, files, p)
  }

  ghost predicate Elsewhere(job: Job, rows: Table, p: Path)
    requires |job.fates| == |job.tracks|
  {
    forall i | 0 <= i < |job.tracks| :: p !in LaidPaths(Own(job, rows, i))
  }

  lemma PlacedWithin(job: Job, rows: Table, s: Scene)
    requires Shaped(job, s) && AllPlacedOk(job, rows, s) && Inv(job, rows, s.state)
    ensures Within(job, rows, s.placed)
    ensures forall i | 0 <= i < |job.tracks| && s.state.phases[i].Piping? :: Own(job, rows, i) == job.fates[i].left
  {
    hide CountsOk, Count, After, OutcomeOf, Skips, MarkedFailed;
    forall i | 0 <= i < |job.tracks|
      ensures s.placed[i] <= |Own(job, rows, i)|
      ensures s.state.phases[i].Piping? ==> Own(job, rows, i) == job.fates[i].left
    {
      assert PlacedOk(job, rows, s, i) && WorkerOk(job, rows, s.state, i);
      OneWithin(job, rows, s, i);
    }
  }

  lemma OneWithin(job: Job, rows: Table, s: Scene, i: nat)
    requires Shaped(job, s) && i < |job.tracks| && PlacedOk(job, rows, s, i) && WorkerOk(job, rows, s.state, i)
    ensures s.placed[i] <= |Own(job, rows, i)|
    ensures s.state.phases[i].Piping? ==> Own(job, rows, i) == job.fates[i].left
  {
    hide After, Skips;
  }

  lemma LaidOneMore(left: seq<(Path, Content)>, k: nat, files: Files)
    requires k < |left|
    ensures LaidPaths(left[..k + 1]) == LaidPaths(left[..k]) + {left[k].0}
    ensures Lay(files, left[..k + 1]) == Lay(files, left[..k])[left[k].0 := left[k].1]
    ensures left[k].0 in LaidPaths(left)
  {
    assert left[..k + 1] == left[..k] + [left[k]];
    LaySnoc(files, left[..k], left[k].0, left[k].1);
  }

  /** Whether worker j has placed a file at p, when placed[j] of its files are in place. */
  ghost predicate PlacedAt(job: Job, rows: Table, placed: seq<nat>, j: nat, p: Path)
    requires Within(job, rows, placed) && j < |placed|
  {
    p in LaidPaths(Own(job, rows, j)[..placed[j]])
  }

  lemma WithinMore(job: Job, rows: Table, placed: seq<nat>, i: nat)
    requires Within(job, rows, placed) && i < |placed| && placed[i] < |Own(job, rows, i)|
    ensures Within(job, rows, placed[i := placed[i] + 1])
    ensures var more := placed[i := placed[i] + 1];
      forall j, p | 0 <= j < |placed| ::
        PlacedAt(job, rows, more, j, p) <==>
          PlacedAt(job, rows, placed, j, p) || (j == i && p == Own(job, rows, i)[placed[i]].0)
  {
    hide Own, LaidPaths, Lay;
    LaidOneMore(Own(job, rows, i), placed[i], map[]);
  }

  /** One more file of worker i in place. */
  lemma PlaceKeys(job: Job, rows: Table, files: Files, now: Files, placed: seq<nat>, i: nat)
    requires Within(job, rows, placed) && i < |placed| && placed[i] < |Own(job, rows, i)|
    requires KeysOk(job, rows, files, now, placed)
    ensures var file, more := Own(job, rows, i)[placed[i]], placed[i := placed[i] + 1];
      Within(job, rows, more) && KeysOk(job, rows, files, now[file.0 := file.1], more)
  {
    hide Own, PlacedAt;
    var file, more := Own(job, rows, i)[placed[i]], placed[i := placed[i] + 1];
    WithinMore(job, rows, placed, i);
    forall p
      ensures p in now[file.0 := file.1] <==>
        p in files || exists j | 0 <= j < |more| :: PlacedAt(job, rows, more, j, p)
    {
      if p == file.0 {
        assert PlacedAt(job, rows, more, i, p);
      }
    }
  }

  lemma PlaceContents(job: Job, rows: Table, files: Files, now: Files, placed: seq<nat>, i: nat)
    requires Within(job, rows, placed) && i < |placed| && placed[i] < |Own(job, rows, i)|
    requires Apart(job, rows) && ContentsOk(job, rows, files, now, placed)
    ensures var file, more := Own(job, rows, i)[placed[i]], placed[i := placed[i] + 1];
      Within(job, rows, more) && ContentsOk(job, rows, files, now[file.0 := file.1], more)
  {
    hide Own, LaidPaths, Lay, PlacedAt;
    var own, k := Own(job, rows, i), placed[i];
    var file, more := own[k], placed[i := k + 1];
    WithinMore(job, rows, placed, i);
    LaidOneMore(own, k, files);
    forall j, p | 0 <= j < |more| && p in LaidPaths(Own(job, rows, j))
      ensures SameFile(now[file.0 := file.1], Lay(files, Own(job, rows, j)[..more[j]]), p)
    {
      assert SameFile(now, Lay(files, Own(job, rows, j)[..placed[j]]), p);
    }
  }

  /** The files at every moment of a run. */
  lemma {:induction false} FilesSoFar(job: Job, rows: Table, files: Files, moves: seq<Move>)
    requires ValidJob(job)
    ensures var s := AdvanceAll(job, Begin(job, rows, files), moves);
      && Within(job, rows, s.placed) && KeysOk(job, rows, files, s.files, s.placed)
      && (Apart(job, rows) ==> ContentsOk(job, rows, files, s.files, s.placed))
  {
    hide Inv, AllPlacedOk, Within, KeysOk, ContentsOk, Own, Apart, Workers.Next;
    var begin := Begin(job, rows, files);
    if moves == [] {
      NoFiles(job, rows, files);
    } else {
      var before, move := moves[..|moves| - 1], moves[|moves| - 1];
      FilesSoFar(job, rows, files, before);
      AllPlaced(job, rows, files, before);
      var s := AdvanceAll(job, begin, before);
      PlacedWithin(job, rows, s);
      if move.Place? && Advance(job, s, move) != s {
        PlaceKeys(job, rows, files, s.files, s.placed, move.i);
        if Apart(job, rows) {
          PlaceContents(job, rows, files, s.files, s.placed, move.i);
        }
      }
    }
  }

  lemma NoFiles(job: Job, rows: Table, files: Files)
    requires ValidJob(job)
    ensures var s := Begin(job, rows, files);
      Within(job, rows, s.placed) && KeysOk(job, rows, files, s.files, s.placed)
      && ContentsOk(job, rows, files, s.files, s.placed)
  {
    hide Pipes, Own;
  }

  // ----- The sequential files, likewise -----

  /** How many files each worker has placed after the first n tracks in sequence. */
  function InTurn(job: Job, rows: Table, n: nat): (placed: seq<nat>)
    requires |job.fates| == |job.tracks|
    ensures Within(job, rows, placed)
    ensures forall i | 0 <= i < |placed| :: placed[i] == if i < n then |Own(job, rows, i)| else 0
  {
    seq(|job.tracks|, i requires 0 <= i < |job.tracks| => if i < n then |Own(job, rows, i)| else 0)
  }

  lemma SequentialStep(job: Job, rows: Table, files: Files, n: nat)
    requires ValidJob(job) && n < |job.tracks|
    ensures FilesSequential(job, rows, files, n + 1) == Lay(FilesSequential(job, rows, files, n), Own(job, rows, n))
  {
    hide Lay, ReachesDownload, Sequential;
    OutcomeAlone(job, rows, n);
    LayNothing(FilesSequential(job, rows, files, n));
  }

  lemma {:induction false} LayAt(files: Files, left: seq<(Path, Content)>, other: Files, p: Path)
    ensures p !in LaidPaths(left) ==> SameFile(Lay(files, left), files, p)
    ensures SameFile(files, other, p) ==> SameFile(Lay(files, left), Lay(other, left), p)
    decreases |left|
  {
    if left != [] {
      var n := |left| - 1;
      LayAt(files, left[..n], other, p);
      assert left == left[..n] + [left[n]];
      assert left[n].0 in LaidPaths(left);
      assert LaidPaths(left[..n]) <= LaidPaths(left);
    }
  }

  lemma SameFileOn(a: Files, b: Files, c: Files, p: Path)
    ensures SameFile(a, b, p) && SameFile(b, c, p) ==> SameFile(a, c, p)
  {
  }

  lemma NothingInTurn(job: Job, rows: Table, files: Files)
    requires ValidJob(job)
    ensures ContentsOk(job, rows, files, FilesSequential(job, rows, files, 0), InTurn(job, rows, 0))
    ensures KeysOk(job, rows, files, FilesSequential(job, rows, files, 0), InTurn(job, rows, 0))
  {
    hide Own;
  }

  /** The n-th track's turn, at a path of the i-th pipeline. */
  lemma TurnAt(job: Job, rows: Table, files: Files, before: Files, n: nat, i: nat, p: Path)
    requires ValidJob(job) && n < |job.tracks| && i < |job.tracks| && Apart(job, rows)
    requires p in LaidPaths(Own(job, rows, i))
    requires SameFile(before, Lay(files, Own(job, rows, i)[..InTurn(job, rows, n)[i]]), p)
    ensures SameFile(Lay(before, Own(job, rows, n)), Lay(files, Own(job, rows, i)[..InTurn(job, rows, n + 1)[i]]), p)
  {
    hide Own, LaidPaths, Lay;
    var own := Own(job, rows, n);
    LayNothing(files);
    LayAt(before, own, files, p);
    assert own[..|own|] == own;
  }

  lemma {:induction false} SequentialContents(job: Job, rows: Table, files: Files, n: nat)
    requires ValidJob(job) && n <= |job.tracks| && Apart(job, rows)
    ensures ContentsOk(job, rows, files, FilesSequential(job, rows, files, n), InTurn(job, rows, n))
  {
    hide Own, LaidPaths, Lay, FilesSequential, SameFile, Apart;
    if n == 0 {
      NothingInTurn(job, rows, files);
    } else {
      var before, after := FilesSequential(job, rows, files, n - 1), FilesSequential(job, rows, files, n);
      SequentialContents(job, rows, files, n - 1);
      SequentialStep(job, rows, files, n - 1);
      var turn := InTurn(job, rows, n);
      forall i, p | 0 <= i < |turn| && p in LaidPaths(Own(job, rows, i))
        ensures SameFile(after, Lay(files, Own(job, rows, i)[..turn[i]]), p)
      {
        TurnAt(job, rows, files, before, n - 1, i, p);
      }
      forall p | Elsewhere(job, rows, p) ensures SameFile(after, files, p) {
        LayAt(before, Own(job, rows, n - 1), files, p);
        SameFileOn(after, before, files, p);
      }
    }
  }

  lemma {:induction false} SequentialKeys(job: Job, rows: Table, files: Files, n: nat)
    requires ValidJob(job) && n <= |job.tracks|
    ensures KeysOk(job, rows, files, FilesSequential(job, rows, files, n), InTurn(job, rows, n))
  {
    hide Own, LaidPaths, Lay, FilesSequential, Within, PlacedAt;
    if n == 0 {
      NothingInTurn(job, rows, files);
    } else {
      var before, after := FilesSequential(job, rows, files, n - 1), FilesSequential(job, rows, files, n);
      SequentialKeys(job, rows, files, n - 1);
      SequentialStep(job, rows, files, n - 1);
      LayKeys(before, Own(job, rows, n - 1));
      var was, turn := InTurn(job, rows, n - 1), InTurn(job, rows, n);
      forall p ensures p in after <==> p in files || exists i | 0 <= i < |turn| :: PlacedAt(job, rows, turn, i, p) {
        forall i | 0 <= i < |turn|
          ensures PlacedAt(job, rows, turn, i, p) <==>
            PlacedAt(job, rows, was, i, p) || (i == n - 1 && p in LaidPaths(Own(job, rows, i)))
        {
          TurnKeys(job, rows, n - 1, i, p);
        }
        if p in LaidPaths(Own(job, rows, n - 1)) {
          assert PlacedAt(job, rows, turn, n - 1, p);
        }
      }
    }
  }

  lemma TurnKeys(job: Job, rows: Table, n: nat, i: nat, p: Path)
    requires ValidJob(job) && n < |job.tracks| && i < |job.tracks|
    ensures PlacedAt(job, rows, InTurn(job, rows, n + 1), i, p) <==>
      PlacedAt(job, rows, InTurn(job, rows, n), i, p) || (i == n && p in LaidPaths(Own(job, rows, i)))
  {
    hide Own;
    var own := Own(job, rows, i);
    assert own[..|own|] == own;
  }

  // ----- The theorem -----

  /** Two trees that agree on what has been placed and where are one. */
  lemma SameTree(job: Job, rows: Table, files: Files, a: Files, b: Files, placed: seq<nat>)
    requires Within(job, rows, placed)
    ensures KeysOk(job, rows, files, a, placed) && KeysOk(job, rows, files, b, placed) ==> a.Keys == b.Keys
    ensures ContentsOk(job, rows, files, a, placed) && ContentsOk(job, rows, files, b, placed) ==> a == b
  {
    hide Own, PlacedAt, Lay, LaidPaths;
    if ContentsOk(job, rows, files, a, placed) && ContentsOk(job, rows, files, b, placed) {
      forall p ensures SameFile(a, b, p) {
        if !Elsewhere(job, rows, p) {
          var i :| 0 <= i < |job.tracks| && p in LaidPaths(Own(job, rows, i));
          var alone := Lay(files, Own(job, rows, i)[..placed[i]]);
          assert SameFile(a, alone, p) && SameFile(b, alone, p);
        }
      }
      SameFiles(a, b);
    }
  }

  lemma SameFiles(a: Files, b: Files)
    requires forall p :: SameFile(a, b, p)
    ensures a == b
  {
    assert forall p :: p in a ==> SameFile(a, b, p);
    assert forall p :: p in b ==> SameFile(a, b, p);
  }

  /** At rest, a pipeline has placed all its files or never ran: as its track in the job of the tracks reached. */
  lemma RestPlaced(job: Job, rows: Table, s: Scene, i: nat)
    requires Shaped(job, s) && AtRest(s.state) && i < |job.tracks| && PlacedOk(job, rows, s, i)
    ensures var r := Reached(job, s.state);
      s.placed[i] <= |Own(job, rows, i)|
      && Own(r, rows, i) == Own(job, rows, i)[..s.placed[i]] && s.placed[i] == |Own(r, rows, i)|
  {
    hide Skips;
  }

  lemma OneInTurn(job: Job, rows: Table, s: Scene, i: nat)
    requires Shaped(job, s) && AtRest(s.state) && i < |job.tracks| && PlacedOk(job, rows, s, i)
    requires Within(job, rows, s.placed)
    ensures var r, n := Reached(job, s.state), |job.tracks|;
      var own, turn := Own(r, rows, i), InTurn(r, rows, n);
      && own == Own(job, rows, i)[..s.placed[i]] && turn[i] == |own| && own[..turn[i]] == own
      && (forall p :: PlacedAt(r, rows, turn, i, p) <==> PlacedAt(job, rows, s.placed, i, p))
      && LaidPaths(own) <= LaidPaths(Own(job, rows, i))
  {
    hide Own, PlacedOk, AtRest;
    RestPlaced(job, rows, s, i);
    var own := Own(Reached(job, s.state), rows, i);
    assert own[..|own|] == own;
  }

  /** What has been placed at rest, as the whole of what the tracks reached had to place. */
  lemma KeysInTurn(job: Job, rows: Table, files: Files, s: Scene)
    requires Shaped(job, s) && AtRest(s.state) && AllPlacedOk(job, rows, s) && Within(job, rows, s.placed)
    requires KeysOk(job, rows, files, s.files, s.placed)
    ensures var r := Reached(job, s.state);
      KeysOk(r, rows, files, s.files, InTurn(r, rows, |job.tracks|))
  {
    hide PlacedOk, AtRest, PlacedAt;
    var r := Reached(job, s.state);
    var turn := InTurn(r, rows, |job.tracks|);
    forall p ensures p in s.files <==> p in files || exists i | 0 <= i < |turn| :: PlacedAt(r, rows, turn, i, p) {
      if i :| 0 <= i < |turn| && PlacedAt(r, rows, turn, i, p) {
        assert PlacedOk(job, rows, s, i);
        OneInTurn(job, rows, s, i);
        assert PlacedAt(job, rows, s.placed, i, p);
      }
      if p in s.files && p !in files {
        var i :| 0 <= i < |s.placed| && PlacedAt(job, rows, s.placed, i, p);
        assert PlacedOk(job, rows, s, i);
        OneInTurn(job, rows, s, i);
      }
    }
  }

  lemma ContentsInTurn(job: Job, rows: Table, files: Files, s: Scene)
    requires Shaped(job, s) && AtRest(s.state) && AllPlacedOk(job, rows, s) && Within(job, rows, s.placed)
    requires ContentsOk(job, rows, files, s.files, s.placed) && Apart(job, rows)
    ensures var r := Reached(job, s.state);
      Apart(r, rows) && ContentsOk(r, rows, files, s.files, InTurn(r, rows, |job.tracks|))
  {
    hide Own, PlacedOk, Lay, AtRest, LaidPaths, PlacedAt;
    var r, n := Reached(job, s.state), |job.tracks|;
    var turn := InTurn(r, rows, n);
    forall i | 0 <= i < n
      ensures Own(r, rows, i) == Own(job, rows, i)[..s.placed[i]] && Own(r, rows, i)[..turn[i]] == Own(r, rows, i)
      ensures LaidPaths(Own(r, rows, i)) <= LaidPaths(Own(job, rows, i))
    {
      assert PlacedOk(job, rows, s, i);
      OneInTurn(job, rows, s, i);
    }
    forall i, p | 0 <= i < n && p in LaidPaths(Own(r, rows, i))
      ensures SameFile(s.files, Lay(files, Own(r, rows, i)[..turn[i]]), p)
    {
      assert SameFile(s.files, Lay(files, Own(job, rows, i)[..s.placed[i]]), p);
    }
    forall p | Elsewhere(r, rows, p) ensures SameFile(s.files, files, p) {
      if !Elsewhere(job, rows, p) {
        var i :| 0 <= i < n && p in LaidPaths(Own(job, rows, i));
        assert SameFile(s.files, Lay(files, Own(job, rows, i)[..s.placed[i]]), p);
        LayAt(files, Own(r, rows, i), files, p);
      }
    }
  }

  /**
   Conservation of files. Whatever the interleaving of workers and of the files they put in
   place, when downloadAll returns, rows and counters are those of the tracks it reached, one
   after the other, and so are the paths at which there is a file. When no two pipelines
   write to one path, the whole tree is.
   */
  lemma FilesConserved(job: Job, rows: Table, files: Files, moves: seq<Move>)
    requires ValidJob(job)
    requires AtRest(AdvanceAll(job, Begin(job, rows, files), moves).state)
    ensures var s, n := AdvanceAll(job, Begin(job, rows, files), moves), |job.tracks|;
      var reached := Reached(job, s.state);
      && s.state.rows == Sequential(reached, rows, n)
      && s.state.downloaded == Tally(reached, rows, n, WasDownloaded)
      && s.state.skipped == Tally(reached, rows, n, WasSkipped)
      && s.state.failed == Tally(reached, rows, n, HasFailed)
      && s.files.Keys == FilesSequential(reached, rows, files, n).Keys
      && (Apart(job, rows) ==> s.files == FilesSequential(reached, rows, files, n))
  {
    hide Sequential, FilesSequential, Tally, AdvanceAll, Workers.Run, EngineSteps, Within, KeysOk, ContentsOk, Apart;
    hide AllPlacedOk, Inv, AtRest;
    var begin, n := Begin(job, rows, files), |job.tracks|;
    var s := AdvanceAll(job, begin, moves);
    var reached := Reached(job, s.state);
    SameEngine(job, begin, moves);
    Conservation(job, rows, EngineSteps(job, begin, moves));
    FilesSoFar(job, rows, files, moves);
    AllPlaced(job, rows, files, moves);
    KeysInTurn(job, rows, files, s);
    SequentialKeys(reached, rows, files, n);
    if Apart(job, rows) {
      ContentsInTurn(job, rows, files, s);
      SequentialContents(reached, rows, files, n);
    }
    SameTree(reached, rows, files, s.files, FilesSequential(reached, rows, files, n), InTurn(reached, rows, n));
  }
}
