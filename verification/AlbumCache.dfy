/**
 albumCache.load (internal/sync/cache.go) called by any number of workers at once:
 a mutex around the map, and one sync.Once per entry.
 */
module AlbumCache {
  import opened Wrappers

  type Id = string

  /** Album, cover and error as one opaque outcome of a loader run. */
  type Outcome = int

  /** The state of an entry's sync.Once; Filled carries what the loader left behind. */
  datatype Once = Fresh | Running(worker: nat) | Filled(outcome: Outcome)

  datatype Entry = Entry(id: Id, once: Once)

  datatype Pc =
    | Start                       // about to take the mutex
    | Lookup                      // holds the mutex
    | Insert                      // holds it, found nothing
    | Unlock(e: nat)              // holds it, has an entry
    | Do(e: nat)                  // at once.Do
    | Loading(e: nat)             // running the loader inside once.Do
    | Read(e: nat)                // past once.Do
    | Done(outcome: Outcome)      // load returned this

  datatype Worker = Worker(id: Id, pc: Pc)

  /** `starts` and `loads` log the loader runs begun and finished. */
  datatype State = State(
    mutex: Option<nat>, index: map<Id, nat>, entries: seq<Entry>, workers: seq<Worker>,
    starts: seq<Id>, loads: seq<(Id, Outcome)>)

  /** Worker w takes its next step; `outcome` is what a finishing loader returns. */
  datatype Step = Step(w: nat, outcome: Outcome)

  predicate Holds(pc: Pc) { pc.Lookup? || pc.Insert? || pc.Unlock? }

  function At(s: State, w: nat, pc: Pc): State
    requires w < |s.workers|
  {
    s.(workers := s.workers[w := s.workers[w].(pc := pc)])
  }

  function SetOnce(s: State, e: nat, once: Once): State
    requires e < |s.entries|
  {
    s.(entries := s.entries[e := s.entries[e].(once := once)])
  }

  function Next(s: State, step: Step): State
  {
    if step.w >= |s.workers| then s
    else
      var w, id := step.w, s.workers[step.w].id;
      match s.workers[w].pc
      case Start => if s.mutex == None then At(s, w, Lookup).(mutex := Some(w)) else s
      case Lookup => if id in s.index then At(s, w, Unlock(s.index[id])) else At(s, w, Insert)
      case Insert =>
        At(s, w, Unlock(|s.entries|)).(
          entries := s.entries + [Entry(id, Fresh)], index := s.index[id := |s.entries|])
      case Unlock(e) => At(s, w, Do(e)).(mutex := None)
      case Do(e) =>
        if e >= |s.entries| then s
        else (match s.entries[e].once
          case Fresh => SetOnce(At(s, w, Loading(e)), e, Running(w)).(starts := s.starts + [id])
          case Running(_) => s
          case Filled(_) => At(s, w, Read(e)))
      case Loading(e) =>
        if e >= |s.entries| then s
        else SetOnce(At(s, w, Read(e)), e, Filled(step.outcome)).(loads := s.loads + [(id, step.outcome)])
      case Read(e) =>
        if e < |s.entries| && s.entries[e].once.Filled? then At(s, w, Done(s.entries[e].once.outcome)) else s
      case Done(_) => s
  }

  function Run(s: State, steps: seq<Step>): State
  {
    if steps == [] then s else Next(Run(s, steps[..|steps| - 1]), steps[|steps| - 1])
  }

  /** A fresh cache and any number of workers about to call load, on ids of their own. */
  predicate Initial(s: State)
  {
    && s.mutex == None && s.index == map[] && s.entries == [] && s.starts == [] && s.loads == []
    && forall w | 0 <= w < |s.workers| :: s.workers[w].pc == Start
  }

  // ----- The invariant -----

  /** The map points at exactly one entry per id, and every entry is pointed at. */
  ghost predicate IndexOk(s: State)
  {
    && (forall id | id in s.index :: s.index[id] < |s.entries| && s.entries[s.index[id]].id == id)
    && forall e | 0 <= e < |s.entries| :: s.entries[e].id in s.index && s.index[s.entries[e].id] == e
  }

  ghost predicate Mine(s: State, id: Id, e: nat) { e < |s.entries| && s.entries[e].id == id }

  ghost predicate WorkerOk(s: State, w: nat)
    requires w < |s.workers|
  {
    var id := s.workers[w].id;
    && (Holds(s.workers[w].pc) <==> s.mutex == Some(w))
    && match s.workers[w].pc
       case Insert => id !in s.index
       case Unlock(e) => Mine(s, id, e)
       case Do(e) => Mine(s, id, e)
       case Loading(e) => Mine(s, id, e) && s.entries[e].once == Running(w)
       case Read(e) => Mine(s, id, e) && s.entries[e].once.Filled?
       case Done(r) => id in s.index && s.index[id] < |s.entries| && s.entries[s.index[id]].once == Filled(r)
       case _ => true
  }

  /** An entry that is running is being run by the worker it names. */
  ghost predicate RunnersOk(s: State)
  {
    forall e | 0 <= e < |s.entries| && s.entries[e].once.Running? ::
      var w := s.entries[e].once.worker;
      w < |s.workers| && s.workers[w].pc == Loading(e)
  }

  /** The logs agree with the entries: begun means no longer fresh, finished means filled. */
  ghost predicate LogsOk(s: State)
  {
    && (forall i, j | 0 <= i < j < |s.starts| :: s.starts[i] != s.starts[j])
    && (forall i | 0 <= i < |s.starts| ::
          s.starts[i] in s.index && s.index[s.starts[i]] < |s.entries|
          && !s.entries[s.index[s.starts[i]]].once.Fresh?)
    && (forall i | 0 <= i < |s.loads| ::
          s.loads[i].0 in s.index && s.index[s.loads[i].0] < |s.entries|
          && s.entries[s.index[s.loads[i].0]].once == Filled(s.loads[i].1))
    && (forall e | 0 <= e < |s.entries| && s.entries[e].once.Filled? ::
          (s.entries[e].id, s.entries[e].once.outcome) in s.loads)
  }

  ghost predicate WorkersOk(s: State)
  {
    forall w | 0 <= w < |s.workers| :: WorkerOk(s, w)
  }

  ghost predicate Inv(s: State)
  {
    && IndexOk(s) && RunnersOk(s) && LogsOk(s)
    && (s.mutex.Some? ==> s.mutex.value < |s.workers|) && WorkersOk(s)
  }

  lemma MoveLogs(s: State, t: State)
    requires LogsOk(s) && t.index == s.index && t.entries == s.entries && t.starts == s.starts && t.loads == s.loads
    ensures LogsOk(t)
  {
  }

  /** Steps that only move one worker along. */
  lemma MoveKeeps(s: State, w: nat, pc: Pc, mutex: Option<nat>)
    requires Inv(s) && w < |s.workers| && !s.workers[w].pc.Loading? && !pc.Loading?
    requires mutex == (if Holds(pc) then Some(w) else if Holds(s.workers[w].pc) then None else s.mutex)
    requires Holds(pc) ==> s.mutex == None || s.mutex == Some(w)
    requires var t := At(s, w, pc).(mutex := mutex); WorkerOk(t, w)
    ensures Inv(At(s, w, pc).(mutex := mutex))
  {
    hide LogsOk;
    var t := At(s, w, pc).(mutex := mutex);
    assert LogsOk(t) by { MoveLogs(s, t); }
    forall v | 0 <= v < |t.workers| ensures WorkerOk(t, v) {
      assert WorkerOk(s, v);
      assert WorkerOk(s, w);
    }
    assert RunnersOk(t) by {
      forall e | 0 <= e < |t.entries| && t.entries[e].once.Running?
        ensures var v := t.entries[e].once.worker; v < |t.workers| && t.workers[v].pc == Loading(e)
      {
        assert s.workers[s.entries[e].once.worker].pc == Loading(e);
      }
    }
  }

  lemma InsertWorkers(s: State, w: nat)
    requires WorkersOk(s) && IndexOk(s) && w < |s.workers| && s.workers[w].pc.Insert?
    ensures WorkersOk(Next(s, Step(w, 0)))
  {
    var t := Next(s, Step(w, 0));
    assert WorkerOk(s, w);
    forall v | 0 <= v < |t.workers| ensures WorkerOk(t, v) {
      assert WorkerOk(s, v);
    }
  }

  lemma InsertLogs(s: State, t: State, id: Id)
    requires LogsOk(s) && IndexOk(s) && id !in s.index
    requires t.index == s.index[id := |s.entries|] && t.entries == s.entries + [Entry(id, Fresh)]
    requires t.starts == s.starts && t.loads == s.loads
    ensures LogsOk(t)
  {
  }

  lemma InsertKeeps(s: State, w: nat)
    requires Inv(s) && w < |s.workers| && s.workers[w].pc.Insert?
    ensures Inv(Next(s, Step(w, 0)))
  {
    var t := Next(s, Step(w, 0));
    var id := s.workers[w].id;
    InsertWorkers(s, w);
    assert WorkerOk(s, w);
    InsertLogs(s, t, id);
    hide WorkerOk, LogsOk;
    assert forall e | 0 <= e < |s.entries| :: t.entries[e] == s.entries[e] && s.entries[e].id != id;
    assert RunnersOk(t) && IndexOk(t);
  }

  lemma BeginWorkers(s: State, w: nat, e: nat)
    requires WorkersOk(s) && w < |s.workers| && s.workers[w].pc == Do(e) && e < |s.entries|
    requires s.entries[e].once.Fresh?
    ensures WorkersOk(Next(s, Step(w, 0)))
  {
    var t := Next(s, Step(w, 0));
    assert WorkerOk(s, w);
    forall v | 0 <= v < |t.workers| ensures WorkerOk(t, v) {
      assert WorkerOk(s, v);
    }
  }

  lemma BeginKeeps(s: State, w: nat, e: nat)
    requires Inv(s) && w < |s.workers| && s.workers[w].pc == Do(e) && e < |s.entries|
    requires s.entries[e].once.Fresh?
    ensures Inv(Next(s, Step(w, 0)))
  {
    var t := Next(s, Step(w, 0));
    var id := s.workers[w].id;
    BeginWorkers(s, w, e);
    assert WorkerOk(s, w) && s.entries[e].id == id && s.index[id] == e;
    hide WorkerOk;
    assert RunnersOk(t);
    assert forall i | 0 <= i < |s.starts| :: s.starts[i] != id;
    assert IndexOk(t);
  }

  lemma FillWorkers(s: State, w: nat, e: nat, outcome: Outcome)
    requires WorkersOk(s) && IndexOk(s) && w < |s.workers| && s.workers[w].pc == Loading(e)
    ensures WorkersOk(Next(s, Step(w, outcome)))
  {
    var t := Next(s, Step(w, outcome));
    assert WorkerOk(s, w);
    forall v | 0 <= v < |t.workers| ensures WorkerOk(t, v) {
      assert WorkerOk(s, v);
    }
  }

  lemma FillLogs(s: State, t: State, e: nat, id: Id, outcome: Outcome)
    requires LogsOk(s) && IndexOk(s) && e < |s.entries| && s.entries[e].id == id && id in s.index && s.index[id] == e
    requires s.entries[e].once.Running?
    requires t.index == s.index && t.starts == s.starts && t.loads == s.loads + [(id, outcome)]
    requires t.entries == s.entries[e := s.entries[e].(once := Filled(outcome))]
    ensures LogsOk(t)
  {
    assert forall i | 0 <= i < |s.loads| :: s.loads[i].0 != id;
    assert t.loads[|s.loads|] == (id, outcome);
    forall k | 0 <= k < |t.entries| && t.entries[k].once.Filled?
      ensures (t.entries[k].id, t.entries[k].once.outcome) in t.loads
    {
      assert k != e ==> (s.entries[k].id, s.entries[k].once.outcome) in s.loads;
    }
  }

  lemma FillKeeps(s: State, w: nat, e: nat, outcome: Outcome)
    requires Inv(s) && w < |s.workers| && s.workers[w].pc == Loading(e)
    ensures Inv(Next(s, Step(w, outcome)))
  {
    var t := Next(s, Step(w, outcome));
    var id := s.workers[w].id;
    FillWorkers(s, w, e, outcome);
    assert WorkerOk(s, w) && s.entries[e].id == id && s.index[id] == e;
    FillLogs(s, t, e, id, outcome);
    hide WorkerOk, LogsOk;
    assert RunnersOk(t);
    assert IndexOk(t);
  }

  lemma NextKeeps(s: State, step: Step)
    requires Inv(s)
    ensures Inv(Next(s, step))
  {
    hide RunnersOk, LogsOk;
    if step.w < |s.workers| {
      var w := step.w;
      var id := s.workers[w].id;
      assert WorkerOk(s, w);
      match s.workers[w].pc
      case Start =>
        if s.mutex == None {
          MoveKeeps(s, w, Lookup, Some(w));
        }
      case Lookup =>
        if id in s.index {
          MoveKeeps(s, w, Unlock(s.index[id]), Some(w));
        } else {
          MoveKeeps(s, w, Insert, Some(w));
        }
      case Insert => InsertKeeps(s, w);
      case Unlock(e) => MoveKeeps(s, w, Do(e), None);
      case Do(e) =>
        if s.entries[e].once.Fresh? {
          BeginKeeps(s, w, e);
        } else if s.entries[e].once.Filled? {
          MoveKeeps(s, w, Read(e), s.mutex);
        }
      case Loading(e) => FillKeeps(s, w, e, step.outcome);
      case Read(e) => MoveKeeps(s, w, Done(s.entries[e].once.outcome), s.mutex);
      case Done(_) =>
    }
  }

  lemma {:induction false} RunKeeps(s: State, steps: seq<Step>)
    requires Initial(s)
    ensures Inv(Run(s, steps))
    decreases |steps|
  {
    if steps != [] {
      RunKeeps(s, steps[..|steps| - 1]);
      hide Inv, Next;
      NextKeeps(Run(s, steps[..|steps| - 1]), steps[|steps| - 1]);
    }
  }

  /**
   Under every interleaving the loader runs at most once per id, and every
   completed load of an id returns the outcome of that id's one run.
   */
  lemma LoadedOnce(s: State, steps: seq<Step>)
    requires Initial(s)
    ensures var t := Run(s, steps);
      && (forall i, j | 0 <= i < j < |t.starts| :: t.starts[i] != t.starts[j])
      && (forall i, j | 0 <= i < |t.loads| && 0 <= j < |t.loads| && t.loads[i].0 == t.loads[j].0 ::
            t.loads[i] == t.loads[j])
      && (forall w | 0 <= w < |t.workers| && t.workers[w].pc.Done? ::
            (t.workers[w].id, t.workers[w].pc.outcome) in t.loads)
      && (forall v, w | 0 <= v < |t.workers| && 0 <= w < |t.workers| ::
            t.workers[v].pc.Done? && t.workers[w].pc.Done? && t.workers[v].id == t.workers[w].id ==>
              t.workers[v].pc == t.workers[w].pc)
  {
    RunKeeps(s, steps);
    var t := Run(s, steps);
    forall w | 0 <= w < |t.workers| && t.workers[w].pc.Done?
      ensures (t.workers[w].id, t.workers[w].pc.outcome) in t.loads
      ensures var id := t.workers[w].id;
        id in t.index && t.index[id] < |t.entries| && t.entries[t.index[id]].once == Filled(t.workers[w].pc.outcome)
    {
      assert WorkerOk(t, w);
    }
  }

  // ----- Loads finish -----

  /** How many steps load still has to take. */
  function Left(pc: Pc): nat
  {
    match pc
    case Start => 7
    case Lookup => 6
    case Insert => 5
    case Unlock(_) => 4
    case Do(_) => 3
    case Loading(_) => 2
    case Read(_) => 1
    case Done(_) => 0
  }

  /** Nobody else holds the mutex or runs a loader. */
  ghost predicate Undisturbed(s: State, w: nat)
  {
    && w < |s.workers| && (s.mutex == None || s.mutex == Some(w))
    && forall e | 0 <= e < |s.entries| && s.entries[e].once.Running? :: s.entries[e].once.worker == w
  }

  function Repeat(s: State, step: Step, n: nat): State
    decreases n
  {
    if n == 0 then s else Repeat(Next(s, step), step, n - 1)
  }

  /** One undisturbed step takes load on, and leaves it undisturbed. */
  lemma StepOn(s: State, w: nat, outcome: Outcome)
    requires Inv(s) && Undisturbed(s, w) && !s.workers[w].pc.Done?
    ensures var t := Next(s, Step(w, outcome));
      Undisturbed(t, w) && Left(t.workers[w].pc) < Left(s.workers[w].pc)
  {
    hide IndexOk, LogsOk, RunnersOk;
    assert WorkerOk(s, w);
    if s.workers[w].pc.Do? {
      NotHeldUp(s, w, s.workers[w].pc.e);
    }
  }

  lemma NotHeldUp(s: State, w: nat, e: nat)
    requires RunnersOk(s) && Undisturbed(s, w) && e < |s.entries| && s.workers[w].pc == Do(e)
    ensures !s.entries[e].once.Running?
  {
  }

  lemma {:induction false} Finish(s: State, w: nat, outcome: Outcome) returns (n: nat)
    requires Inv(s) && Undisturbed(s, w)
    ensures n <= Left(s.workers[w].pc)
    ensures var t := Repeat(s, Step(w, outcome), n); w < |t.workers| && t.workers[w].pc.Done?
    decreases Left(s.workers[w].pc)
  {
    hide Inv, Next;
    if s.workers[w].pc.Done? {
      n := 0;
    } else {
      StepOn(s, w, outcome);
      NextKeeps(s, Step(w, outcome));
      n := Finish(Next(s, Step(w, outcome)), w, outcome);
      n := n + 1;
    }
  }

  /** From every reachable state, a load that is not held up by another worker returns within seven steps. */
  lemma LoadFinishes(s: State, steps: seq<Step>, w: nat, outcome: Outcome) returns (n: nat)
    requires Initial(s) && Undisturbed(Run(s, steps), w)
    ensures n <= 7
    ensures var t := Repeat(Run(s, steps), Step(w, outcome), n); w < |t.workers| && t.workers[w].pc.Done?
  {
    hide Run, Repeat, Inv;
    RunKeeps(s, steps);
    n := Finish(Run(s, steps), w, outcome);
  }
}
