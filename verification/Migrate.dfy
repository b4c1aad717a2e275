/**
 Store.Migrate (internal/store/store.go) run by any number of processes at once.
 A migration is named by its version; the database is what has been committed,
 BEGIN IMMEDIATE is an exclusive lock with a private working copy, and every step
 may fail, be rolled back, or be the process's last.
 */
module Migrate {
  import opened Wrappers

  /** Whether schema_migrations exists, the versions it records, and the DDL run, in order. */
  datatype Db = Db(table: bool, applied: set<int>, schema: seq<int>)

  datatype Pc =
    | EnsureBegin | EnsureTable | EnsureCommit
    | Probe(i: nat)      // the unlocked fast-path read
    | Begin(i: nat)
    | Recheck(i: nat)    // from here to Commit the write lock is held
    | Ddl(i: nat)
    | Record(i: nat)
    | Commit(i: nat)
    | Returned           // Migrate returned nil
    | Failed             // Migrate returned an error
    | Dead               // the process was killed

  datatype State = State(db: Db, work: Db, lock: Option<nat>, procs: seq<Pc>)

  /**
   Advance lets a process take its next statement; Fail makes that statement
   return an error; CommitLost is a COMMIT that takes effect but reports an error.
   */
  datatype Step = Advance(p: nat) | Fail(p: nat) | CommitLost(p: nat) | Die(p: nat)

  predicate InTx(pc: Pc)
  {
    pc.EnsureTable? || pc.EnsureCommit? || pc.Recheck? || pc.Ddl? || pc.Record? || pc.Commit?
  }

  predicate Finished(pc: Pc) { pc.Returned? || pc.Failed? || pc.Dead? }

  /** The process leaves at pc; an open transaction is rolled back. */
  function Abandon(s: State, p: nat, pc: Pc): State
    requires p < |s.procs|
  {
    s.(lock := if InTx(s.procs[p]) then None else s.lock, procs := s.procs[p := pc])
  }

  function Goto(s: State, p: nat, pc: Pc): State
    requires p < |s.procs|
  {
    s.(procs := s.procs[p := pc])
  }

  /** BEGIN IMMEDIATE: waits (here: does nothing) while another process holds the lock. */
  function TakeLock(s: State, p: nat, pc: Pc): State
    requires p < |s.procs|
  {
    if s.lock == None then Goto(s, p, pc).(lock := Some(p), work := s.db) else s
  }

  function CommitTo(s: State, p: nat, pc: Pc): State
    requires p < |s.procs|
  {
    Goto(s, p, pc).(db := s.work, lock := None)
  }

  /** The next statement of process p. */
  function Proceed(ms: seq<int>, s: State, p: nat): State
    requires p < |s.procs|
  {
    match s.procs[p]
    case EnsureBegin => TakeLock(s, p, EnsureTable)
    case EnsureTable => Goto(s, p, EnsureCommit).(work := s.work.(table := true))
    case EnsureCommit => CommitTo(s, p, Probe(0))
    case Probe(i) =>
      if i >= |ms| then Goto(s, p, Returned)
      else if !s.db.table then Goto(s, p, Failed)
      else if ms[i] in s.db.applied then Goto(s, p, Probe(i + 1))
      else Goto(s, p, Begin(i))
    case Begin(i) => TakeLock(s, p, Recheck(i))
    case Recheck(i) =>
      if i < |ms| && ms[i] in s.work.applied then Goto(s, p, Commit(i)) else Goto(s, p, Ddl(i))
    case Ddl(i) =>
      if i < |ms| then Goto(s, p, Record(i)).(work := s.work.(schema := s.work.schema + [ms[i]])) else s
    case Record(i) =>
      if i < |ms| && ms[i] !in s.work.applied
      then Goto(s, p, Commit(i)).(work := s.work.(applied := s.work.applied + {ms[i]}))
      else Abandon(s, p, Failed)
    case Commit(i) => CommitTo(s, p, Probe(i + 1))
    case Returned => s
    case Failed => s
    case Dead => s
  }

  function Next(ms: seq<int>, s: State, step: Step): State
  {
    if step.p >= |s.procs| || Finished(s.procs[step.p]) then s
    else match step
      case Advance(p) => Proceed(ms, s, p)
      case Fail(p) => Abandon(s, p, Failed)
      case CommitLost(p) =>
        if s.procs[p].Commit? || s.procs[p].EnsureCommit? then CommitTo(s, p, Failed) else s
      case Die(p) => Abandon(s, p, Dead)
  }

  /** The state after any interleaving of steps. */
  function Run(ms: seq<int>, s: State, steps: seq<Step>): State
  {
    if steps == [] then s else Next(ms, Run(ms, s, steps[..|steps| - 1]), steps[|steps| - 1])
  }

  ghost predicate Distinct(ms: seq<int>) { forall i, j | 0 <= i < j < |ms| :: ms[i] != ms[j] }

  function Elems(ms: seq<int>): set<int> { set v | v in ms }

  /** Every process about to call Migrate, on a database some earlier run brought to some prefix. */
  ghost predicate Initial(ms: seq<int>, s: State)
  {
    && s.lock == None
    && s.db.schema <= ms && s.db.applied == Elems(s.db.schema)
    && (s.db.schema != [] ==> s.db.table)
    && forall p | 0 <= p < |s.procs| :: s.procs[p] == EnsureBegin
  }

  // ----- The invariant -----

  /** What the committed database always is: a prefix of the migrations, each recorded. */
  ghost predicate DbOk(ms: seq<int>, db: Db)
  {
    && db.schema <= ms && db.applied == Elems(db.schema)
    && (db.schema != [] ==> db.table)
  }

  /** How far process p may have got, given what is committed. */
  ghost predicate PcOk(ms: seq<int>, db: Db, pc: Pc)
  {
    match pc
    case Probe(i) => i <= |db.schema| && db.table
    case Begin(i) => i <= |db.schema| && i < |ms| && db.table
    case Recheck(i) => i <= |db.schema| && i < |ms| && db.table
    case Ddl(i) => i == |db.schema| && i < |ms| && db.table
    case Record(i) => i == |db.schema| && i < |ms| && db.table
    case Commit(i) => i <= |db.schema| && i < |ms| && db.table
    case Returned => |db.schema| == |ms|
    case _ => true
  }

  /** The working copy of the transaction a process at pc has open. */
  ghost predicate WorkOk(ms: seq<int>, db: Db, work: Db, pc: Pc)
  {
    match pc
    case EnsureTable => work == db
    case EnsureCommit => work == db.(table := true)
    case Recheck(i) => work == db
    case Ddl(i) => work == db
    case Record(i) => i < |ms| && work == db.(schema := db.schema + [ms[i]])
    case Commit(i) =>
      (work == db && i < |db.schema|) ||
      (i < |ms| && i == |db.schema| &&
       work == db.(schema := db.schema + [ms[i]], applied := db.applied + {ms[i]}))
    case _ => true
  }

  ghost predicate Inv(ms: seq<int>, s: State)
  {
    && DbOk(ms, s.db)
    && (s.lock.Some? ==> s.lock.value < |s.procs|)
    && forall p | 0 <= p < |s.procs| ::
         && PcOk(ms, s.db, s.procs[p])
         && (InTx(s.procs[p]) <==> s.lock == Some(p))
         && (InTx(s.procs[p]) ==> WorkOk(ms, s.db, s.work, s.procs[p]))
  }

  /** Version number i is recorded exactly when more than i migrations are committed. */
  lemma AppliedByIndex(ms: seq<int>, db: Db, i: nat)
    requires Distinct(ms) && DbOk(ms, db) && i < |ms|
    ensures ms[i] in db.applied <==> i < |db.schema|
  {
    if ms[i] in db.applied {
      var j :| 0 <= j < |db.schema| && db.schema[j] == ms[i];
      assert db.schema[j] == ms[j];
    }
    if i < |db.schema| {
      assert db.schema[i] == ms[i];
    }
  }

  /** Committing the next migration keeps the database a recorded prefix. */
  lemma Extends(ms: seq<int>, db: Db)
    requires DbOk(ms, db) && |db.schema| < |ms| && db.table
    ensures var v := ms[|db.schema|];
      DbOk(ms, db.(schema := db.schema + [v], applied := db.applied + {v}))
  {
    var v := ms[|db.schema|];
    assert ms[..|db.schema| + 1] == db.schema + [v];
    assert Elems(db.schema + [v]) == Elems(db.schema) + {v};
  }

  /** A commit only moves the database forward, so every other process stays in bounds. */
  lemma CommitKeeps(ms: seq<int>, s: State, p: nat, pc: Pc)
    requires Distinct(ms) && Inv(ms, s) && p < |s.procs|
    requires s.procs[p].EnsureCommit? || s.procs[p].Commit?
    requires !InTx(pc) && PcOk(ms, s.work, pc)
    ensures Inv(ms, CommitTo(s, p, pc)) && s.db.schema <= s.work.schema
  {
    if s.procs[p].Commit? && s.work != s.db {
      Extends(ms, s.db);
    }
    var t := CommitTo(s, p, pc);
    assert DbOk(ms, t.db);
    forall q | 0 <= q < |t.procs|
      ensures PcOk(ms, t.db, t.procs[q]) && !InTx(t.procs[q])
    {
      assert q != p ==> PcOk(ms, s.db, s.procs[q]);
    }
  }

  /** A step that leaves the committed database alone only has to account for its own process. */
  lemma QuietKeeps(ms: seq<int>, s: State, p: nat, t: State)
    requires Inv(ms, s) && p < |s.procs| && t.db == s.db
    requires |t.procs| == |s.procs| && t.procs == s.procs[p := t.procs[p]]
    requires PcOk(ms, t.db, t.procs[p])
    requires InTx(t.procs[p]) ==> t.lock == Some(p) && WorkOk(ms, t.db, t.work, t.procs[p])
    requires InTx(t.procs[p]) ==> InTx(s.procs[p]) || s.lock == None
    requires !InTx(t.procs[p]) ==>
      t.work == s.work && t.lock == if InTx(s.procs[p]) then None else s.lock
    ensures Inv(ms, t)
  {
    hide PcOk, WorkOk, DbOk;
    forall q | 0 <= q < |t.procs|
      ensures && PcOk(ms, t.db, t.procs[q])
              && (InTx(t.procs[q]) <==> t.lock == Some(q))
              && (InTx(t.procs[q]) ==> WorkOk(ms, t.db, t.work, t.procs[q]))
    {
      assert q != p ==> t.procs[q] == s.procs[q];
      assert InTx(s.procs[q]) <==> s.lock == Some(q);
    }
  }

  /** Statements other than a commit. */
  lemma ProceedKeeps(ms: seq<int>, s: State, p: nat)
    requires Distinct(ms) && Inv(ms, s) && p < |s.procs| && !Finished(s.procs[p])
    requires !s.procs[p].EnsureCommit? && !s.procs[p].Commit?
    ensures Inv(ms, Proceed(ms, s, p)) && Proceed(ms, s, p).db == s.db
  {
    var pc := s.procs[p];
    var t := Proceed(ms, s, p);
    assert PcOk(ms, s.db, pc);
    assert InTx(pc) ==> s.lock == Some(p) && WorkOk(ms, s.db, s.work, pc);
    if pc.Probe? && pc.i < |ms| {
      AppliedByIndex(ms, s.db, pc.i);
    } else if pc.Recheck? || pc.Record? {
      AppliedByIndex(ms, s.db, pc.i);
    }
    hide Inv, Distinct, DbOk;
    if t != s {
      QuietKeeps(ms, s, p, t);
    }
  }

  /** Every step of every process keeps the invariant and never undoes a migration. */
  lemma NextKeeps(ms: seq<int>, s: State, step: Step)
    requires Distinct(ms) && Inv(ms, s)
    ensures Inv(ms, Next(ms, s, step))
    ensures s.db.schema <= Next(ms, s, step).db.schema
  {
    if step.p < |s.procs| && !Finished(s.procs[step.p]) {
      var p := step.p;
      var pc := s.procs[p];
      var commits := pc.EnsureCommit? || pc.Commit?;
      if commits && (step.Advance? || step.CommitLost?) {
        assert PcOk(ms, s.db, pc) && WorkOk(ms, s.db, s.work, pc);
        CommitKeeps(ms, s, p, if step.CommitLost? then Failed else if pc.Commit? then Probe(pc.i + 1) else Probe(0));
      } else if step.Advance? {
        ProceedKeeps(ms, s, p);
      } else if !step.CommitLost? {
        QuietKeeps(ms, s, p, Next(ms, s, step));
      }
    }
  }

  lemma InitialInv(ms: seq<int>, s: State)
    requires Initial(ms, s)
    ensures Inv(ms, s)
  {
  }

  lemma {:induction false} RunKeeps(ms: seq<int>, s: State, steps: seq<Step>)
    requires Distinct(ms) && Inv(ms, s)
    ensures Inv(ms, Run(ms, s, steps))
    ensures s.db.schema <= Run(ms, s, steps).db.schema
    decreases |steps|
  {
    hide Inv, Next;
    if steps != [] {
      RunKeeps(ms, s, steps[..|steps| - 1]);
      NextKeeps(ms, Run(ms, s, steps[..|steps| - 1]), steps[|steps| - 1]);
    }
  }

  // ----- What holds in every run -----

  /**
   For any number of processes and any interleaving, failures and crashes included:
   the DDL committed is a prefix of the migrations, each once; a version is
   recorded exactly when its DDL is committed; nothing committed is undone; and a
   process that returned nil finds every migration applied.
   */
  lemma MigrationSafety(ms: seq<int>, s: State, steps: seq<Step>)
    requires Distinct(ms) && Initial(ms, s)
    ensures var t := Run(ms, s, steps);
      && t.db.schema <= ms && Distinct(t.db.schema)
      && t.db.applied == Elems(t.db.schema)
      && s.db.schema <= t.db.schema
      && forall p | 0 <= p < |t.procs| :: t.procs[p].Returned? ==> t.db.schema == ms
  {
    InitialInv(ms, s);
    RunKeeps(ms, s, steps);
  }

  /** Migrating a migrated database changes nothing. */
  lemma MigrateAgain(ms: seq<int>, s: State, steps: seq<Step>)
    requires Distinct(ms) && Initial(ms, s) && s.db.schema == ms && s.db.table
    ensures Run(ms, s, steps).db == s.db
  {
    MigrationSafety(ms, s, steps);
    TableStays(ms, s, steps);
  }

  lemma {:induction false} TableStays(ms: seq<int>, s: State, steps: seq<Step>)
    requires Distinct(ms) && Inv(ms, s) && s.db.table
    ensures Run(ms, s, steps).db.table
    decreases |steps|
  {
    hide Inv;
    if steps != [] {
      var before := Run(ms, s, steps[..|steps| - 1]);
      TableStays(ms, s, steps[..|steps| - 1]);
      RunKeeps(ms, s, steps[..|steps| - 1]);
      StepTable(ms, before, steps[|steps| - 1]);
    }
  }

  lemma StepTable(ms: seq<int>, s: State, step: Step)
    requires Inv(ms, s) && s.db.table
    ensures Next(ms, s, step).db.table
  {
    if step.p < |s.procs| {
      assert InTx(s.procs[step.p]) ==> WorkOk(ms, s.db, s.work, s.procs[step.p]);
    }
  }

  // ----- Progress -----

  /** How many statements process p still has to take when nothing goes wrong. */
  function Remaining(ms: seq<int>, pc: Pc): nat
    requires pc.Probe? || pc.Begin? || pc.Recheck? || pc.Ddl? || pc.Record? || pc.Commit? ==> pc.i <= |ms|
  {
    match pc
    case EnsureBegin => 6 * |ms| + 4
    case EnsureTable => 6 * |ms| + 3
    case EnsureCommit => 6 * |ms| + 2
    case Probe(i) => 6 * (|ms| - i) + 1
    case Begin(i) => 6 * (|ms| - i)
    case Recheck(i) => 6 * (|ms| - i) - (if i < |ms| then 1 else 0)
    case Ddl(i) => 6 * (|ms| - i) - (if i < |ms| then 2 else 0)
    case Record(i) => 6 * (|ms| - i) - (if i < |ms| then 3 else 0)
    case Commit(i) => 6 * (|ms| - i) - (if i < |ms| then 4 else 0)
    case _ => 0
  }

  /**
   A process that is neither failed nor killed, and is not kept waiting for the
   lock, reaches nil: from any reachable state it needs at most Remaining steps.
   */
  lemma {:induction false} AloneReturns(ms: seq<int>, s: State, p: nat) returns (steps: seq<Step>)
    requires Distinct(ms) && Inv(ms, s) && p < |s.procs| && !s.procs[p].Failed? && !s.procs[p].Dead?
    requires s.lock == None || s.lock == Some(p)
    ensures p < |Run(ms, s, steps).procs|
    ensures Run(ms, s, steps).procs[p].Returned? && Run(ms, s, steps).db.schema == ms
    ensures forall i | 0 <= i < |steps| :: steps[i] == Advance(p)
    decreases Remaining(ms, s.procs[p])
  {
    if s.procs[p].Returned? {
      steps := [];
      assert PcOk(ms, s.db, s.procs[p]);
    } else {
      var t := Next(ms, s, Advance(p));
      NextKeeps(ms, s, Advance(p));
      AloneStep(ms, s, p);
      var rest := AloneReturns(ms, t, p);
      steps := [Advance(p)] + rest;
      RunCons(ms, s, Advance(p), rest);
    }
  }

  lemma AloneStep(ms: seq<int>, s: State, p: nat)
    requires Distinct(ms) && Inv(ms, s) && p < |s.procs| && !Finished(s.procs[p])
    requires s.lock == None || s.lock == Some(p)
    ensures var t := Next(ms, s, Advance(p));
      && |t.procs| == |s.procs| && !t.procs[p].Failed? && !t.procs[p].Dead?
      && (t.lock == None || t.lock == Some(p))
      && Inv(ms, t)
      && Remaining(ms, t.procs[p]) < Remaining(ms, s.procs[p])
  {
    NextKeeps(ms, s, Advance(p));
    var pc := s.procs[p];
    assert PcOk(ms, s.db, pc);
    if (pc.Probe? && pc.i < |ms|) || pc.Recheck? || pc.Record? {
      AppliedByIndex(ms, s.db, pc.i);
    }
  }

  lemma {:induction false} RunCons(ms: seq<int>, s: State, step: Step, rest: seq<Step>)
    ensures Run(ms, s, [step] + rest) == Run(ms, Next(ms, s, step), rest)
    decreases |rest|
  {
    hide Next;
    var steps := [step] + rest;
    if rest == [] {
      assert steps[..|steps| - 1] == [];
      assert Run(ms, s, []) == s;
    } else {
      assert steps[..|steps| - 1] == [step] + rest[..|rest| - 1];
      RunCons(ms, s, step, rest[..|rest| - 1]);
    }
  }

  /** A commit may take effect and still be reported as failed. */
  lemma LostCommit(ms: seq<int>, s: State, p: nat)
    requires p < |s.procs| && (s.procs[p].Commit? || s.procs[p].EnsureCommit?)
    ensures var lost, done := Next(ms, s, CommitLost(p)), Next(ms, s, Advance(p));
      lost.procs == s.procs[p := Failed] && lost.(procs := done.procs) == done
  {
  }
}
