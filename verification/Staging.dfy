/**
 The staged-write protocol: writeAtomic and syncDir (pkg/tidal/download/download.go),
 SweepStale (sweep.go) and the data-directory lock (cmd/sync.go), for any number of
 processes and writers, with a failure, a kill or a power loss possible at every step.

 A file system is directory entries over inodes, each with a volatile and a durable
 side. After a power loss an entry is whatever last became durable, and an inode
 that was not fsynced holds arbitrary bytes.
 */
module Staging {
  import opened Wrappers

  type Content = seq<int>

  /** A file name in a directory; Part names are those ending in ".part". */
  datatype Name = Plain(dir: nat, n: nat) | Part(dir: nat, n: nat)

  datatype Inode = Inode(data: Content, synced: bool)

  type Directory = map<Name, nat>

  datatype WriterPc =
    | Waiting
    | Writing(part: Name, ino: nat, k: nat)   // k bytes of the stream are in the part file
    | Produced(part: Name, ino: nat)          // produce returned nil
    | Synced(part: Name, ino: nat)            // part.Sync returned nil
    | Renamed(version: nat)                   // committed, directory not yet synced
    | Cleanup(part: Name)                     // the deferred os.Remove(partPath)
    | Returned(version: nat)                  // writeAtomic returned nil
    | Failed                                  // writeAtomic returned an error
    | Gone                                    // killed with its process

  /** One call of writeAtomic by process proc; stream is what produce would write in full. */
  datatype Writer = Writer(proc: nat, dest: Name, stream: Content, pc: WriterPc)

  datatype Process = Idle | Locked | Sweeping(todo: set<Name>, failed: bool) | Working

  /**
   hist[d] lists the writers whose rename onto d took effect, and durable[d] how many
   of those renames are known to be on disk; base is what d held to begin with.
   */
  datatype State = State(
    inodes: seq<Inode>, cur: Directory, dur: Directory,
    writers: seq<Writer>, procs: seq<Process>, lock: Option<nat>,
    base: map<Name, Content>, hist: map<Name, seq<nat>>, durable: map<Name, nat>)

  datatype Step =
    | Acquire(p: nat) | BeginSweep(p: nat) | SweepRemove(p: nat, name: Name) | SweepError(p: nat, name: Name)
    | EndSweep(p: nat) | Spawn(p: nat, dest: Name, stream: Content) | Release(p: nat) | Kill(p: nat)
    | Create(w: nat, n: nat) | Write(w: nat, k: nat) | FinishProduce(w: nat) | Fsync(w: nat)
    | Rename(w: nat) | SyncDir(w: nat) | Fail(w: nat) | CleanRemove(w: nat) | CleanLeave(w: nat)
    | Flush(name: Name)                       // the kernel writes one entry back
    | PowerLoss(garbage: seq<Content>)

  predicate Live(pc: WriterPc) { !pc.Returned? && !pc.Failed? && !pc.Gone? }

  /** The writer still owns a part file that nobody else may see under its final name. */
  predicate Owns(pc: WriterPc) { pc.Writing? || pc.Produced? || pc.Synced? }

  /** The writer's part file exists under a name of its own. */
  predicate HasPart(pc: WriterPc) { Owns(pc) || pc.Cleanup? }

  function Hist(s: State, d: Name): seq<nat> { if d in s.hist then s.hist[d] else [] }

  function Durable(s: State, d: Name): nat { if d in s.durable then s.durable[d] else 0 }

  function SetPc(s: State, w: nat, pc: WriterPc): State
    requires w < |s.writers|
  {
    s.(writers := s.writers[w := s.writers[w].(pc := pc)])
  }

  function SetInode(s: State, ino: nat, i: Inode): State
  {
    if ino < |s.inodes| then s.(inodes := s.inodes[ino := i]) else s
  }

  /** fsync of a directory: its entries, additions and removals alike, become durable. */
  function SyncedDir(s: State, dir: nat): Directory
  {
    map x | x in s.dur.Keys + s.cur.Keys && (if x.dir == dir then x in s.cur else x in s.dur) ::
      if x.dir == dir then s.cur[x] else s.dur[x]
  }

  /** Every rename so far in the directory is on disk. */
  function SyncedHist(s: State, dir: nat): map<Name, nat>
  {
    s.durable + map x | x in s.hist && x.dir == dir :: |s.hist[x]|
  }

  function KillWriters(writers: seq<Writer>, p: nat, all: bool): (out: seq<Writer>)
    ensures |out| == |writers|
    ensures forall w | 0 <= w < |out| ::
      out[w] == if (all || writers[w].proc == p) && Live(writers[w].pc)
                then writers[w].(pc := Gone) else writers[w]
  {
    seq(|writers|, w requires 0 <= w < |writers| =>
      if (all || writers[w].proc == p) && Live(writers[w].pc) then writers[w].(pc := Gone) else writers[w])
  }

  /** What an unsynced inode may read back as after a power loss. */
  function Recovered(inodes: seq<Inode>, garbage: seq<Content>): (out: seq<Inode>)
    ensures |out| == |inodes|
    ensures forall i | 0 <= i < |out| :: inodes[i].synced ==> out[i] == inodes[i]
  {
    seq(|inodes|, i requires 0 <= i < |inodes| =>
      if inodes[i].synced then inodes[i]
      else Inode(if i < |garbage| then garbage[i] else [], true))
  }

  function Min(a: nat, b: nat): nat { if a < b then a else b }

  /** The names a sweep finds. */
  function PartNames(dir: Directory): (names: set<Name>)
    ensures forall x :: x in names <==> x in dir && x.Part?
  {
    set x | x in dir && x.Part?
  }

  predicate IsProc(step: Step)
  {
    step.Acquire? || step.BeginSweep? || step.SweepRemove? || step.SweepError?
    || step.EndSweep? || step.Spawn? || step.Release? || step.Kill?
  }

  predicate IsWriter(step: Step) { !IsProc(step) && !step.Flush? && !step.PowerLoss? }

  function ProcStep(s: State, step: Step): State
    requires IsProc(step)
  {
    var p := step.p;
    if p >= |s.procs| then s
    else match step
      case Acquire(_) =>
        if s.procs[p].Idle? && s.lock == None
        then s.(lock := Some(p), procs := s.procs[p := Locked]) else s
      case BeginSweep(_) =>
        if s.procs[p].Locked?
        then s.(procs := s.procs[p := Sweeping(PartNames(s.cur), false)]) else s
      case SweepRemove(_, x) =>
        if s.procs[p].Sweeping? && x in s.procs[p].todo
        then s.(cur := s.cur - {x}, procs := s.procs[p := s.procs[p].(todo := s.procs[p].todo - {x})]) else s
      case SweepError(_, x) =>
        if s.procs[p].Sweeping? && x in s.procs[p].todo
        then s.(procs := s.procs[p := Sweeping(s.procs[p].todo - {x}, true)]) else s
      case EndSweep(_) =>
        if s.procs[p].Sweeping? && s.procs[p].todo == {}
        then (if s.procs[p].failed then s.(lock := None, procs := s.procs[p := Idle])
              else s.(procs := s.procs[p := Working]))
        else s
      case Spawn(_, dest, stream) =>
        if s.procs[p].Working? && dest.Plain?
        then s.(writers := s.writers + [Writer(p, dest, stream, Waiting)]) else s
      case Release(_) =>
        if s.procs[p].Working? && forall w | 0 <= w < |s.writers| :: s.writers[w].proc == p ==> !Live(s.writers[w].pc)
        then s.(lock := None, procs := s.procs[p := Idle]) else s
      case Kill(_) =>
        s.(writers := KillWriters(s.writers, p, false), procs := s.procs[p := Idle],
           lock := if s.lock == Some(p) then None else s.lock)
  }

  function WriterStep(s: State, step: Step): State
    requires IsWriter(step)
  {
    var w := step.w;
    if w >= |s.writers| then s
    else
      var wr := s.writers[w];
      var pc := wr.pc;
      match step
      case Create(_, n) =>
        var part := Part(wr.dest.dir, n);
        if pc.Waiting? && part !in s.cur
        then SetPc(s, w, Writing(part, |s.inodes|, 0)).(
               inodes := s.inodes + [Inode([], false)], cur := s.cur[part := |s.inodes|])
        else s
      case Write(_, k) =>
        if pc.Writing? && pc.k <= k <= |wr.stream|
        then SetInode(SetPc(s, w, pc.(k := k)), pc.ino, Inode(wr.stream[..k], false)) else s
      case FinishProduce(_) =>
        if pc.Writing? && pc.k == |wr.stream| then SetPc(s, w, Produced(pc.part, pc.ino)) else s
      case Fsync(_) =>
        if pc.Produced? && pc.ino < |s.inodes|
        then SetInode(SetPc(s, w, Synced(pc.part, pc.ino)), pc.ino, s.inodes[pc.ino].(synced := true)) else s
      case Rename(_) =>
        if pc.Synced?
        then SetPc(s, w, Renamed(|Hist(s, wr.dest)| + 1)).(
               cur := (s.cur - {pc.part})[wr.dest := pc.ino],
               hist := s.hist[wr.dest := Hist(s, wr.dest) + [w]])
        else s
      case SyncDir(_) =>
        if pc.Renamed?
        then SetPc(s, w, Returned(pc.version)).(
               dur := SyncedDir(s, wr.dest.dir),
               durable := SyncedHist(s, wr.dest.dir))
        else s
      case Fail(_) =>
        if Owns(pc) then SetPc(s, w, Cleanup(pc.part))
        else if pc.Waiting? || pc.Renamed? then SetPc(s, w, Failed)
        else s
      case CleanRemove(_) => if pc.Cleanup? then SetPc(s, w, Failed).(cur := s.cur - {pc.part}) else s
      case CleanLeave(_) => if pc.Cleanup? then SetPc(s, w, Failed) else s
  }

  function Next(s: State, step: Step): State
  {
    match step
    case Flush(x) =>
      s.(dur := if x in s.cur then s.dur[x := s.cur[x]] else s.dur - {x},
         durable := s.durable[x := |Hist(s, x)|])
    case PowerLoss(garbage) =>
      s.(inodes := Recovered(s.inodes, garbage), cur := s.dur,
         writers := KillWriters(s.writers, 0, true),
         procs := seq(|s.procs|, p => Idle), lock := None,
         hist := map d | d in s.hist :: s.hist[d][..Min(Durable(s, d), |s.hist[d]|)])
    case Acquire(_) => ProcStep(s, step)
    case BeginSweep(_) => ProcStep(s, step)
    case SweepRemove(_, _) => ProcStep(s, step)
    case SweepError(_, _) => ProcStep(s, step)
    case EndSweep(_) => ProcStep(s, step)
    case Spawn(_, _, _) => ProcStep(s, step)
    case Release(_) => ProcStep(s, step)
    case Kill(_) => ProcStep(s, step)
    case _ => WriterStep(s, step)
  }

  function Run(s: State, steps: seq<Step>): State
  {
    if steps == [] then s else Next(Run(s, steps[..|steps| - 1]), steps[|steps| - 1])
  }

  // ----- What the destinations hold -----

  /** Version 0 of d is its base content; version i is the stream of the i-th renamed writer. */
  function Version(s: State, d: Name, i: nat): Option<Content>
  {
    if i == 0 then (if d in s.base then Some(s.base[d]) else None)
    else if i <= |Hist(s, d)| && Hist(s, d)[i - 1] < |s.writers|
    then Some(s.writers[Hist(s, d)[i - 1]].stream)
    else None
  }

  /** Directory dir shows exactly content v under name d, on a synced inode. */
  ghost predicate Shows(s: State, dir: Directory, d: Name, v: Option<Content>)
  {
    match v
    case None => d !in dir
    case Some(c) => d in dir && dir[d] < |s.inodes| && s.inodes[dir[d]] == Inode(c, true)
  }

  ghost predicate DestOk(s: State, d: Name)
  {
    && Durable(s, d) <= |Hist(s, d)|
    && Shows(s, s.cur, d, Version(s, d, |Hist(s, d)|))
    && Shows(s, s.dur, d, Version(s, d, Durable(s, d)))
  }

  ghost predicate HistOk(s: State)
  {
    forall d | d in s.hist :: d.Plain? &&
      forall i | 0 <= i < |s.hist[d]| :: s.hist[d][i] < |s.writers| && s.writers[s.hist[d][i]].dest == d
  }

  ghost predicate WriterOk(s: State, w: nat)
    requires w < |s.writers|
  {
    var wr := s.writers[w];
    && wr.dest.Plain?
    && (Live(wr.pc) && !wr.pc.Renamed? ==> w !in Hist(s, wr.dest))
    && match wr.pc
       case Writing(part, ino, k) => PartHolds(s, part, ino, wr.stream, k, false)
       case Produced(part, ino) => PartHolds(s, part, ino, wr.stream, |wr.stream|, false)
       case Synced(part, ino) => PartHolds(s, part, ino, wr.stream, |wr.stream|, true)
       case Renamed(v) => PublishedAs(s, w, v)
       case Returned(v) => v <= Durable(s, wr.dest) && PublishedAs(s, w, v)
       case Cleanup(part) => part.Part? && part in s.cur
       case _ => true
  }

  /** The part file is there with the first k bytes of the stream. */
  ghost predicate PartHolds(s: State, part: Name, ino: nat, stream: Content, k: nat, synced: bool)
  {
    && part.Part? && part in s.cur && s.cur[part] == ino && ino < |s.inodes|
    && k <= |stream| && s.inodes[ino] == Inode(stream[..k], synced)
  }

  /** The v-th rename onto the destination was writer w's. */
  ghost predicate PublishedAs(s: State, w: nat, v: nat)
    requires w < |s.writers|
  {
    var hist := Hist(s, s.writers[w].dest);
    1 <= v <= |hist| && hist[v - 1] == w
  }

  /** The inode of an unrenamed part file stands under no final name. */
  ghost predicate SealedOk(s: State, w: nat)
    requires w < |s.writers|
  {
    Owns(s.writers[w].pc) ==>
      && (forall d: Name | d.Plain? && d in s.cur :: s.cur[d] != s.writers[w].pc.ino)
      && (forall d: Name | d.Plain? && d in s.dur :: s.dur[d] != s.writers[w].pc.ino)
  }

  /** Two writers share neither part name nor inode. */
  predicate Apart(a: WriterPc, b: WriterPc)
  {
    && (HasPart(a) && HasPart(b) ==> a.part != b.part)
    && (Owns(a) && Owns(b) ==> a.ino != b.ino)
  }

  ghost predicate DestsOk(s: State) { forall d: Name | d.Plain? :: DestOk(s, d) }

  ghost predicate WritersOk(s: State) { forall w | 0 <= w < |s.writers| :: WriterOk(s, w) && SealedOk(s, w) }

  ghost predicate AllApart(s: State)
  {
    forall v, w | 0 <= v < |s.writers| && 0 <= w < |s.writers| && v != w :: Apart(s.writers[v].pc, s.writers[w].pc)
  }

  ghost predicate FsOk(s: State) { HistOk(s) && DestsOk(s) && WritersOk(s) && AllApart(s) }

  /** Only the lock holder is not idle, and its sweep still lists every part file there is. */
  ghost predicate LockOk(s: State)
  {
    && (s.lock.Some? ==> s.lock.value < |s.procs|)
    && (forall p | 0 <= p < |s.procs| :: !s.procs[p].Idle? <==> s.lock == Some(p))
    && forall p | 0 <= p < |s.procs| && s.procs[p].Sweeping? :: SweepOk(s, s.procs[p])
  }

  ghost predicate SweepOk(s: State, proc: Process)
    requires proc.Sweeping?
  {
    && (forall x | x in proc.todo :: x.Part?)
    && (!proc.failed ==> forall x: Name | x.Part? && x in s.cur :: x in proc.todo)
  }

  /** Live writers belong to a process that has finished sweeping. */
  ghost predicate OwnersOk(s: State)
  {
    forall w | 0 <= w < |s.writers| && Live(s.writers[w].pc) ::
      s.writers[w].proc < |s.procs| && s.procs[s.writers[w].proc].Working?
  }

  ghost predicate Inv(s: State) { LockOk(s) && OwnersOk(s) && FsOk(s) }

  predicate Initial(s: State)
  {
    && s.writers == [] && s.lock == None && s.hist == map[] && s.durable == map[] && s.dur == s.cur
    && (forall p | 0 <= p < |s.procs| :: s.procs[p] == Idle)
    && (forall x | x in s.cur && x.Plain? ::
          s.cur[x] < |s.inodes| && x in s.base && s.inodes[s.cur[x]] == Inode(s.base[x], true))
    && forall x | x in s.base && x.Plain? :: x in s.cur
  }

  lemma InitialInv(s: State)
    requires Initial(s)
    ensures Inv(s)
  {
  }

  // ----- Frames -----

  predicate SameEntry(a: Directory, b: Directory, x: Name)
  {
    (x in a <==> x in b) && (x in a ==> a[x] == b[x])
  }

  predicate SameInode(s: State, t: State, ino: nat)
  {
    ino < |s.inodes| ==> ino < |t.inodes| && t.inodes[ino] == s.inodes[ino]
  }

  /** t agrees with s on everything destination d depends on. */
  ghost predicate SameDest(s: State, t: State, d: Name)
  {
    && SameEntry(s.cur, t.cur, d) && SameEntry(s.dur, t.dur, d)
    && Hist(t, d) == Hist(s, d) && Durable(t, d) == Durable(s, d)
    && (d in s.cur ==> SameInode(s, t, s.cur[d]))
    && (d in s.dur ==> SameInode(s, t, s.dur[d]))
  }

  ghost predicate SameStreams(s: State, t: State)
  {
    && t.base == s.base && |s.writers| <= |t.writers|
    && forall w | 0 <= w < |s.writers| ::
         t.writers[w].stream == s.writers[w].stream && t.writers[w].dest == s.writers[w].dest
  }

  lemma VersionFrame(s: State, t: State, d: Name, i: nat)
    requires HistOk(s) && SameStreams(s, t) && i <= |Hist(s, d)| && Hist(s, d) <= Hist(t, d)
    ensures Version(t, d, i) == Version(s, d, i)
  {
    if i > 0 {
      assert Hist(t, d)[i - 1] == Hist(s, d)[i - 1];
    }
  }

  lemma DestFrame(s: State, t: State, d: Name)
    requires HistOk(s) && DestOk(s, d) && SameDest(s, t, d) && SameStreams(s, t)
    ensures DestOk(t, d)
  {
    hide Version, HistOk, SameStreams;
    VersionFrame(s, t, d, |Hist(s, d)|);
    VersionFrame(s, t, d, Durable(s, d));
  }

  lemma HistFrame(s: State, t: State)
    requires HistOk(s) && SameStreams(s, t) && t.hist == s.hist
    ensures HistOk(t)
  {
  }

  /** A step that leaves every final name, its inode and its history alone. */
  lemma DestsFrame(s: State, t: State)
    requires HistOk(s) && DestsOk(s) && SameStreams(s, t)
    requires forall d: Name | d.Plain? :: SameDest(s, t, d)
    ensures DestsOk(t)
  {
    hide HistOk, SameStreams, DestOk, SameDest;
    forall d: Name | d.Plain? ensures DestOk(t, d) {
      DestFrame(s, t, d);
    }
  }

  /**
   A step by writer w that touches at most part file `part` and inode ino, may append
   itself to a history, and puts under final names only what stood there or ino.
   */
  ghost predicate Local(s: State, t: State, w: nat, part: Name, ino: nat)
    requires w < |s.writers|
  {
    && (exists pc :: t.writers == SetPc(s, w, pc).writers)
    && (forall x: Name | x.Part? && x != part :: SameEntry(s.cur, t.cur, x))
    && (forall i: nat | i != ino :: SameInode(s, t, i))
    && (forall d: Name | d.Plain? :: Durable(s, d) <= Durable(t, d)
          && (Hist(t, d) == Hist(s, d) || Hist(t, d) == Hist(s, d) + [w]))
    && (forall d: Name | d.Plain? && d in t.cur :: t.cur[d] == ino || (d in s.cur && t.cur[d] == s.cur[d]))
    && (forall d: Name | d.Plain? && d in t.dur ::
          (d in s.dur && t.dur[d] == s.dur[d]) || (d in s.cur && t.dur[d] == s.cur[d]))
  }

  lemma OtherKeeps(s: State, t: State, w: nat, part: Name, ino: nat, v: nat)
    requires w < |s.writers| && v < |s.writers| && v != w && Local(s, t, w, part, ino)
    requires WriterOk(s, v) && SealedOk(s, v) && Apart(Synced(part, ino), s.writers[v].pc)
    ensures v < |t.writers| && t.writers[v] == s.writers[v] && WriterOk(t, v) && SealedOk(t, v)
  {
    var wr := s.writers[v];
    if HasPart(wr.pc) {
      assert wr.pc.part != part;
      assert SameEntry(s.cur, t.cur, wr.pc.part);
    }
    if Owns(wr.pc) {
      assert SameInode(s, t, wr.pc.ino);
    }
    assert Durable(s, wr.dest) <= Durable(t, wr.dest);
  }

  /** The writers' half of the invariant after a local step. */
  lemma WritersKeep(s: State, t: State, w: nat, part: Name, ino: nat)
    requires w < |s.writers| && WritersOk(s) && Local(s, t, w, part, ino)
    requires forall v | 0 <= v < |s.writers| && v != w :: Apart(Synced(part, ino), s.writers[v].pc)
    requires |t.writers| == |s.writers| && WriterOk(t, w) && SealedOk(t, w)
    ensures WritersOk(t)
  {
    hide WriterOk, SealedOk, Apart, Local;
    forall v | 0 <= v < |t.writers| ensures WriterOk(t, v) && SealedOk(t, v) {
      if v != w {
        OtherKeeps(s, t, w, part, ino, v);
      }
    }
  }

  /** Writer w now holds a pc that is apart from all others. */
  lemma ApartKeep(s: State, t: State, w: nat, pc: WriterPc)
    requires AllApart(s) && w < |s.writers| && t.writers == SetPc(s, w, pc).writers
    requires forall v | 0 <= v < |s.writers| && v != w :: Apart(pc, s.writers[v].pc)
    ensures AllApart(t)
  {
  }

  /** A pc that holds no more than writer w already held is still apart from the others. */
  lemma StillApart(s: State, w: nat, pc: WriterPc)
    requires AllApart(s) && w < |s.writers|
    requires HasPart(pc) ==> HasPart(s.writers[w].pc) && pc.part == s.writers[w].pc.part
    requires Owns(pc) ==> Owns(s.writers[w].pc) && pc.ino == s.writers[w].pc.ino
    ensures forall v | 0 <= v < |s.writers| && v != w :: Apart(pc, s.writers[v].pc)
  {
    forall v | 0 <= v < |s.writers| && v != w ensures Apart(pc, s.writers[v].pc) {
      assert Apart(s.writers[w].pc, s.writers[v].pc);
    }
  }

  /** Nobody else owns a final name, or an inode that does not exist yet. */
  lemma NewApart(s: State, w: nat, part: Name, ino: nat)
    requires WritersOk(s) && w < |s.writers| && ino >= |s.inodes| && (part.Plain? || part !in s.cur)
    ensures forall v | 0 <= v < |s.writers| && v != w :: Apart(Synced(part, ino), s.writers[v].pc)
  {
    forall v | 0 <= v < |s.writers| && v != w ensures Apart(Synced(part, ino), s.writers[v].pc) {
      assert WriterOk(s, v);
    }
  }

  /** A new inode number is in no final name. */
  lemma FreshInode(s: State, ino: nat)
    requires DestsOk(s) && ino >= |s.inodes|
    ensures forall d: Name | d.Plain? && d in s.cur :: s.cur[d] != ino
    ensures forall d: Name | d.Plain? && d in s.dur :: s.dur[d] != ino
  {
    forall d: Name | d.Plain?
      ensures d in s.cur ==> s.cur[d] != ino
      ensures d in s.dur ==> s.dur[d] != ino
    {
      assert DestOk(s, d);
    }
  }

  // ----- Processes: lock and sweep -----

  /** While a sweep runs there is no live writer, so all it removes is orphans. */
  lemma SweepMeetsNoWriter(s: State, p: nat, w: nat)
    requires Inv(s) && p < |s.procs| && s.procs[p].Sweeping? && w < |s.writers|
    ensures !Live(s.writers[w].pc)
  {
    hide FsOk;
  }

  /** Writers that were killed, or new ones still waiting, disturb nothing. */
  ghost predicate OnlyWriters(s: State, t: State)
  {
    && t.inodes == s.inodes && t.cur == s.cur && t.dur == s.dur
    && t.base == s.base && t.hist == s.hist && t.durable == s.durable
    && |t.writers| >= |s.writers|
    && (forall w | 0 <= w < |s.writers| ::
          t.writers[w] == s.writers[w] || (Live(s.writers[w].pc) && t.writers[w] == s.writers[w].(pc := Gone)))
    && forall w | |s.writers| <= w < |t.writers| :: t.writers[w].pc.Waiting? && t.writers[w].dest.Plain?
  }

  lemma OnlyWritersKeep(s: State, t: State)
    requires FsOk(s) && OnlyWriters(s, t)
    ensures FsOk(t)
  {
    hide DestOk, HistOk, Version, Apart;
    HistFrame(s, t);
    DestsFrame(s, t);
    forall w | 0 <= w < |t.writers| ensures WriterOk(t, w) && SealedOk(t, w) {
      OnlyWritersOne(s, t, w);
    }
    assert AllApart(t) by {
      hide WriterOk, SealedOk;
      forall u, v | 0 <= u < |t.writers| && 0 <= v < |t.writers| && u != v
        ensures Apart(t.writers[u].pc, t.writers[v].pc)
      {
        OnlyWritersApart(s, t, u, v);
      }
    }
  }

  lemma OnlyWritersOne(s: State, t: State, w: nat)
    requires HistOk(s) && WritersOk(s) && OnlyWriters(s, t) && w < |t.writers|
    ensures WriterOk(t, w) && SealedOk(t, w)
  {
    if w < |s.writers| {
      assert WriterOk(s, w) && SealedOk(s, w);
    }
  }

  lemma OnlyWritersApart(s: State, t: State, u: nat, v: nat)
    requires AllApart(s) && OnlyWriters(s, t) && u < |t.writers| && v < |t.writers| && u != v
    ensures Apart(t.writers[u].pc, t.writers[v].pc)
  {
    if u < |s.writers| && v < |s.writers| {
      assert Apart(s.writers[u].pc, s.writers[v].pc);
    }
  }

  lemma SweepRemoveKeeps(s: State, p: nat, x: Name)
    requires Inv(s) && p < |s.procs| && s.procs[p].Sweeping? && x in s.procs[p].todo
    ensures FsOk(ProcStep(s, SweepRemove(p, x)))
  {
    hide DestOk, HistOk, Version, Apart;
    var t := ProcStep(s, SweepRemove(p, x));
    assert SweepOk(s, s.procs[p]);
    HistFrame(s, t);
    DestsFrame(s, t);
    forall w | 0 <= w < |t.writers| ensures WriterOk(t, w) && SealedOk(t, w) {
      SweepMeetsNoWriter(s, p, w);
      assert WriterOk(s, w);
    }
    assert AllApart(t);
  }

  /** All that a step of process p can do. */
  ghost predicate ProcEffect(s: State, t: State, p: nat)
    requires p < |s.procs|
  {
    && |t.procs| == |s.procs| && (forall q | 0 <= q < |s.procs| && q != p :: t.procs[q] == s.procs[q])
    && ProcMove(s, t, p)
    && (s.procs[p].Sweeping? && SweepOk(s, s.procs[p]) && t.procs[p].Sweeping? ==> SweepOk(t, t.procs[p]))
    && (!s.procs[p].Sweeping? && t.procs[p].Sweeping? ==> SweepOk(t, t.procs[p]))
    && (forall x: Name | x in t.cur :: x in s.cur)
    && OnlyWriters(s.(cur := t.cur), t)
    && (forall w | |s.writers| <= w < |t.writers| :: t.writers[w].proc == p && t.procs[p].Working?)
    && (s.procs[p].Working? && !t.procs[p].Working? ==>
          forall w | 0 <= w < |t.writers| && t.writers[w].proc == p :: !Live(t.writers[w].pc))
  }

  /** Process p takes the lock, gives it up, or moves between the stages that hold it. */
  ghost predicate ProcMove(s: State, t: State, p: nat)
    requires p < |s.procs| == |t.procs|
  {
    || (t.lock == s.lock && (t.procs[p].Idle? <==> s.procs[p].Idle?))
    || (s.lock == None && t.lock == Some(p) && !t.procs[p].Idle?)
    || (t.procs[p].Idle? && (s.lock == Some(p) ==> t.lock == None)
        && (s.lock != Some(p) && s.procs[p].Idle? ==> t.lock == s.lock))
  }

  lemma AcquireEffect(s: State, p: nat)
    requires p < |s.procs|
    ensures ProcEffect(s, ProcStep(s, Acquire(p)), p) && ProcStep(s, Acquire(p)).cur == s.cur
  {
  }

  lemma BeginSweepEffect(s: State, p: nat)
    requires p < |s.procs|
    ensures ProcEffect(s, ProcStep(s, BeginSweep(p)), p) && ProcStep(s, BeginSweep(p)).cur == s.cur
  {
    hide PartNames;
  }

  lemma SweepRemoveEffect(s: State, p: nat, x: Name)
    requires p < |s.procs|
    ensures ProcEffect(s, ProcStep(s, SweepRemove(p, x)), p)
    ensures !(s.procs[p].Sweeping? && x in s.procs[p].todo) ==> ProcStep(s, SweepRemove(p, x)).cur == s.cur
  {
  }

  lemma SweepErrorEffect(s: State, p: nat, x: Name)
    requires p < |s.procs|
    ensures ProcEffect(s, ProcStep(s, SweepError(p, x)), p) && ProcStep(s, SweepError(p, x)).cur == s.cur
  {
  }

  lemma EndSweepEffect(s: State, p: nat)
    requires p < |s.procs|
    ensures ProcEffect(s, ProcStep(s, EndSweep(p)), p) && ProcStep(s, EndSweep(p)).cur == s.cur
  {
    var t := ProcStep(s, EndSweep(p));
    EndSweepShape(s, p);
    hide SweepOk, ProcStep;
    assert s.(cur := t.cur) == s;
  }

  lemma EndSweepShape(s: State, p: nat)
    requires p < |s.procs|
    ensures var t := ProcStep(s, EndSweep(p));
      t == s || (t == s.(lock := t.lock, procs := s.procs[p := t.procs[p]]) && s.procs[p].Sweeping?
                 && ((t.procs[p].Working? && t.lock == s.lock) || (t.procs[p].Idle? && t.lock == None)))
  {
  }

  lemma SpawnEffect(s: State, p: nat, dest: Name, stream: Content)
    requires p < |s.procs|
    ensures ProcEffect(s, ProcStep(s, Spawn(p, dest, stream)), p) && ProcStep(s, Spawn(p, dest, stream)).cur == s.cur
  {
  }

  lemma ReleaseEffect(s: State, p: nat)
    requires p < |s.procs|
    ensures ProcEffect(s, ProcStep(s, Release(p)), p) && ProcStep(s, Release(p)).cur == s.cur
  {
  }

  lemma KillEffect(s: State, p: nat)
    requires p < |s.procs|
    ensures ProcEffect(s, ProcStep(s, Kill(p)), p) && ProcStep(s, Kill(p)).cur == s.cur
  {
    hide KillWriters;
  }

  lemma ProcStepEffect(s: State, step: Step)
    requires IsProc(step)
    ensures step.p >= |s.procs| ==> ProcStep(s, step) == s
    ensures step.p < |s.procs| ==> ProcEffect(s, ProcStep(s, step), step.p)
    ensures step.p < |s.procs| && ProcStep(s, step).cur != s.cur ==>
      step.SweepRemove? && s.procs[step.p].Sweeping? && step.name in s.procs[step.p].todo
  {
    if step.p >= |s.procs| {
      NoProcess(s, step);
    } else {
      hide ProcStep, ProcEffect;
      match step
      case Acquire(p) => AcquireEffect(s, p);
      case BeginSweep(p) => BeginSweepEffect(s, p);
      case SweepRemove(p, x) => SweepRemoveEffect(s, p, x);
      case SweepError(p, x) => SweepErrorEffect(s, p, x);
      case EndSweep(p) => EndSweepEffect(s, p);
      case Spawn(p, dest, stream) => SpawnEffect(s, p, dest, stream);
      case Release(p) => ReleaseEffect(s, p);
      case Kill(p) => KillEffect(s, p);
    }
  }

  lemma NoProcess(s: State, step: Step)
    requires IsProc(step) && step.p >= |s.procs|
    ensures ProcStep(s, step) == s
  {
  }

  lemma ProcFs(s: State, step: Step)
    requires Inv(s) && IsProc(step)
    ensures FsOk(ProcStep(s, step))
  {
    hide FsOk, LockOk, OwnersOk, OnlyWriters, ProcStep;
    var p, t := step.p, ProcStep(s, step);
    ProcStepEffect(s, step);
    if p < |s.procs| {
      if t.cur == s.cur {
        assert s.(cur := t.cur) == s;
        OnlyWritersKeep(s, t);
      } else {
        SweepRemoveKeeps(s, p, step.name);
      }
    }
  }

  lemma ProcLock(s: State, t: State, p: nat)
    requires LockOk(s) && p < |s.procs| && ProcEffect(s, t, p)
    ensures LockOk(t)
  {
    hide OnlyWriters, SweepOk;
    forall q | 0 <= q < |t.procs| && t.procs[q].Sweeping? ensures SweepOk(t, t.procs[q]) {
      if q != p {
        SweepShrinks(s, t, s.procs[q]);
      }
    }
  }

  lemma SweepShrinks(s: State, t: State, proc: Process)
    requires proc.Sweeping? && SweepOk(s, proc) && forall x: Name | x in t.cur :: x in s.cur
    ensures SweepOk(t, proc)
  {
  }

  lemma ProcOwners(s: State, t: State, p: nat)
    requires LockOk(s) && OwnersOk(s) && p < |s.procs| && ProcEffect(s, t, p)
    ensures OwnersOk(t)
  {
    hide SweepOk, ProcMove;
    forall w | 0 <= w < |t.writers| && Live(t.writers[w].pc)
      ensures t.writers[w].proc < |t.procs| && t.procs[t.writers[w].proc].Working?
    {
      assert w < |s.writers| ==> Live(s.writers[w].pc) && t.writers[w] == s.writers[w];
    }
  }

  lemma ProcStepKeeps(s: State, step: Step)
    requires Inv(s)
    requires IsProc(step)
    ensures Inv(ProcStep(s, step))
  {
    hide FsOk, LockOk, OwnersOk, ProcStep, ProcEffect;
    ProcFs(s, step);
    ProcStepEffect(s, step);
    if step.p < |s.procs| {
      ProcLock(s, ProcStep(s, step), step.p);
      ProcOwners(s, ProcStep(s, step), step.p);
    }
  }

  // ----- Writers -----

  /** The three halves of the file-system invariant, put together. */
  lemma LocalKeeps(s: State, t: State, w: nat, part: Name, ino: nat, pc: WriterPc)
    requires FsOk(s) && w < |s.writers| && Local(s, t, w, part, ino)
    requires HistOk(t) && DestsOk(t)
    requires t.writers == SetPc(s, w, pc).writers
    requires WriterOk(t, w) && SealedOk(t, w)
    requires forall v | 0 <= v < |s.writers| && v != w :: Apart(Synced(part, ino), s.writers[v].pc)
    requires forall v | 0 <= v < |s.writers| && v != w :: Apart(pc, s.writers[v].pc)
    ensures FsOk(t)
  {
    hide HistOk, DestsOk, WritersOk, AllApart, Local, WriterOk, SealedOk, Apart;
    WritersKeep(s, t, w, part, ino);
    ApartKeep(s, t, w, pc);
  }

  lemma CreateKeeps(s: State, w: nat, n: nat)
    requires FsOk(s)
    ensures FsOk(WriterStep(s, Create(w, n)))
  {
    hide DestOk, HistOk, WritersOk, AllApart, Apart, Version;
    var t := WriterStep(s, Create(w, n));
    if w < |s.writers| && t != s {
      var part, ino := Part(s.writers[w].dest.dir, n), |s.inodes|;
      FreshInode(s, ino);
      HistFrame(s, t);
      DestsFrame(s, t);
      assert WriterOk(t, w) && SealedOk(t, w) by {
        assert WritersOk(s) ==> WriterOk(s, w) by { OneWriter(s, w); }
      }
      NewApart(s, w, part, ino);
      CreateApart(s, w, part, ino);
      LocalKeeps(s, t, w, part, ino, Writing(part, ino, 0));
    }
  }

  lemma OneWriter(s: State, w: nat)
    requires w < |s.writers|
    ensures WritersOk(s) ==> WriterOk(s, w) && SealedOk(s, w)
  {
  }

  lemma CreateApart(s: State, w: nat, part: Name, ino: nat)
    requires w < |s.writers|
    requires forall v | 0 <= v < |s.writers| && v != w :: Apart(Synced(part, ino), s.writers[v].pc)
    ensures forall v | 0 <= v < |s.writers| && v != w :: Apart(Writing(part, ino, 0), s.writers[v].pc)
  {
    forall v | 0 <= v < |s.writers| && v != w ensures Apart(Writing(part, ino, 0), s.writers[v].pc) {
      assert Apart(Synced(part, ino), s.writers[v].pc);
    }
  }

  /** Steps that change one inode the writer owns, and its pc, and nothing else. */
  lemma InodeKeeps(s: State, w: nat, pc: WriterPc, inode: Inode)
    requires FsOk(s) && w < |s.writers| && Owns(s.writers[w].pc) && Owns(pc)
    requires pc.part == s.writers[w].pc.part && pc.ino == s.writers[w].pc.ino
    requires WriterOk(SetInode(SetPc(s, w, pc), pc.ino, inode), w)
    ensures FsOk(SetInode(SetPc(s, w, pc), pc.ino, inode))
  {
    hide DestOk, DestsOk, HistOk, WriterOk, WritersOk, AllApart, Apart, Version, Local;
    var t := SetInode(SetPc(s, w, pc), pc.ino, inode);
    OneWriter(s, w);
    InodeFrame(s, w, pc, inode);
    HistFrame(s, t);
    DestsFrame(s, t);
    StillApart(s, w, pc);
    StillApart(s, w, Synced(pc.part, pc.ino));
    LocalKeeps(s, t, w, pc.part, pc.ino, pc);
  }

  lemma InodeFrame(s: State, w: nat, pc: WriterPc, inode: Inode)
    requires w < |s.writers| && Owns(s.writers[w].pc) && Owns(pc) && SealedOk(s, w)
    requires pc.part == s.writers[w].pc.part && pc.ino == s.writers[w].pc.ino
    ensures var t := SetInode(SetPc(s, w, pc), pc.ino, inode);
      && SameStreams(s, t) && Local(s, t, w, pc.part, pc.ino) && SealedOk(t, w)
      && forall d: Name | d.Plain? :: SameDest(s, t, d)
  {
    hide SameInode, SetInode, SetPc;
    var t := SetInode(SetPc(s, w, pc), pc.ino, inode);
    InodeOnly(s, w, pc, inode);
    assert t.writers == SetPc(s, w, pc).writers;
    forall d: Name | d.Plain? ensures SameDest(s, t, d) {
      assert d in s.cur ==> SameInode(s, t, s.cur[d]);
    }
  }

  lemma InodeOnly(s: State, w: nat, pc: WriterPc, inode: Inode)
    requires w < |s.writers| && Owns(pc)
    ensures var t := SetInode(SetPc(s, w, pc), pc.ino, inode);
      && t == s.(writers := s.writers[w := s.writers[w].(pc := pc)], inodes := t.inodes)
      && t.writers == SetPc(s, w, pc).writers
      && |t.inodes| == |s.inodes| && forall i: nat | i != pc.ino :: SameInode(s, t, i)
  {
  }

  /** Steps that change the writer's pc and at most remove its part file. */
  lemma PcKeeps(s: State, t: State, w: nat, pc: WriterPc)
    requires FsOk(s) && w < |s.writers|
    requires t.(cur := s.cur) == SetPc(s, w, pc)
    requires t.cur == s.cur ||
      (s.writers[w].pc.Cleanup? && s.writers[w].pc.part.Part? && t.cur == s.cur - {s.writers[w].pc.part})
    requires HasPart(pc) ==> HasPart(s.writers[w].pc) && pc.part == s.writers[w].pc.part
    requires Owns(pc) ==> Owns(s.writers[w].pc) && pc.ino == s.writers[w].pc.ino
    requires WriterOk(t, w)
    ensures FsOk(t)
  {
    hide DestOk, HistOk, WriterOk, WritersOk, AllApart, Apart, Version;
    OneWriter(s, w);
    PcFrame(s, t, w, pc);
    hide Local, SameStreams, SameDest;
    HistFrame(s, t);
    DestsFrame(s, t);
    StillApart(s, w, pc);
    var part := if s.writers[w].pc.Cleanup? then s.writers[w].pc.part else s.writers[w].dest;
    assert forall v | 0 <= v < |s.writers| && v != w :: Apart(Synced(part, |s.inodes|), s.writers[v].pc) by {
      PartApart(s, w, part);
    }
    LocalKeeps(s, t, w, part, |s.inodes|, pc);
  }

  lemma PcFrame(s: State, t: State, w: nat, pc: WriterPc)
    requires w < |s.writers| && SealedOk(s, w) && s.writers[w].dest.Plain?
    requires t.(cur := s.cur) == SetPc(s, w, pc)
    requires t.cur == s.cur ||
      (s.writers[w].pc.Cleanup? && s.writers[w].pc.part.Part? && t.cur == s.cur - {s.writers[w].pc.part})
    requires Owns(pc) ==> Owns(s.writers[w].pc) && pc.ino == s.writers[w].pc.ino
    ensures SameStreams(s, t) && SealedOk(t, w) && forall d: Name | d.Plain? :: SameDest(s, t, d)
    ensures Local(s, t, w, if s.writers[w].pc.Cleanup? then s.writers[w].pc.part else s.writers[w].dest, |s.inodes|)
  {
    assert t.writers == SetPc(s, w, pc).writers;
  }

  /** Its own part name, or its destination, is no part name of another writer. */
  lemma PartApart(s: State, w: nat, part: Name)
    requires WritersOk(s) && AllApart(s) && w < |s.writers|
    requires part == if s.writers[w].pc.Cleanup? then s.writers[w].pc.part else s.writers[w].dest
    ensures forall v | 0 <= v < |s.writers| && v != w :: Apart(Synced(part, |s.inodes|), s.writers[v].pc)
  {
    forall v | 0 <= v < |s.writers| && v != w ensures Apart(Synced(part, |s.inodes|), s.writers[v].pc) {
      assert WriterOk(s, w) && WriterOk(s, v) && Apart(s.writers[w].pc, s.writers[v].pc);
    }
  }

  /** The rename publishes a complete, synced stream as the next version of its destination. */
  lemma RenameKeeps(s: State, w: nat)
    requires FsOk(s)
    ensures FsOk(WriterStep(s, Rename(w)))
  {
    hide HistOk, DestOk, WritersOk, AllApart, Apart, Version;
    if w >= |s.writers| || !s.writers[w].pc.Synced? {
      return;
    }
    var t := WriterStep(s, Rename(w));
    var pc, dest := s.writers[w].pc, s.writers[w].dest;
    OneWriter(s, w);
    RenameHist(s, w);
    assert DestsOk(t) by {
      hide WriterOk, SealedOk;
      forall d: Name | d.Plain? ensures DestOk(t, d) {
        RenameDest(s, w, d);
      }
    }
    StillApart(s, w, pc);
    StillApart(s, w, t.writers[w].pc);
    LocalKeeps(s, t, w, pc.part, pc.ino, t.writers[w].pc);
  }

  lemma RenameHist(s: State, w: nat)
    requires HistOk(s) && w < |s.writers| && s.writers[w].pc.Synced? && s.writers[w].dest.Plain?
    ensures HistOk(WriterStep(s, Rename(w)))
  {
    var t := WriterStep(s, Rename(w));
    forall d | d in t.hist
      ensures d.Plain? && forall i | 0 <= i < |t.hist[d]| ::
        t.hist[d][i] < |t.writers| && t.writers[t.hist[d][i]].dest == d
    {
      assert d in s.hist || d == s.writers[w].dest;
    }
  }

  lemma RenameDest(s: State, w: nat, d: Name)
    requires HistOk(s) && DestsOk(s) && w < |s.writers| && s.writers[w].pc.Synced? && d.Plain?
    requires WriterOk(s, w) && SealedOk(s, w)
    ensures DestOk(WriterStep(s, Rename(w)), d)
  {
    hide HistOk, Version;
    var t := WriterStep(s, Rename(w));
    assert DestOk(s, d);
    if d != s.writers[w].dest {
      DestFrame(s, t, d);
    } else {
      var n := |Hist(s, d)|;
      assert Hist(t, d) == Hist(s, d) + [w];
      assert Version(t, d, n + 1) == Some(s.writers[w].stream) by { NewVersion(t, d, w); }
      VersionFrame(s, t, d, Durable(s, d));
      assert s.writers[w].stream[..|s.writers[w].stream|] == s.writers[w].stream;
    }
  }

  lemma NewVersion(t: State, d: Name, w: nat)
    requires w < |t.writers| && |Hist(t, d)| > 0 && Hist(t, d)[|Hist(t, d)| - 1] == w
    ensures Version(t, d, |Hist(t, d)|) == Some(t.writers[w].stream)
  {
  }

  /** Syncing the directory makes its newest versions durable. */
  lemma SyncDirKeeps(s: State, w: nat)
    requires FsOk(s)
    ensures FsOk(WriterStep(s, SyncDir(w)))
  {
    hide HistOk, DestOk, WritersOk, AllApart, Apart, Version, SyncedDir, WriterStep;
    if w >= |s.writers| || !s.writers[w].pc.Renamed? {
      NotRenamed(s, w);
      return;
    }
    var t := WriterStep(s, SyncDir(w));
    OneWriter(s, w);
    SyncDirFrame(s, w);
    HistFrame(s, t);
    assert DestsOk(t) by {
      hide WriterOk, SealedOk;
      forall d: Name | d.Plain? ensures DestOk(t, d) {
        SyncDirDest(s, w, d);
      }
    }
    StillApart(s, w, t.writers[w].pc);
    NewApart(s, w, s.writers[w].dest, |s.inodes|);
    LocalKeeps(s, t, w, s.writers[w].dest, |s.inodes|, t.writers[w].pc);
  }

  lemma NotRenamed(s: State, w: nat)
    requires w >= |s.writers| || !s.writers[w].pc.Renamed?
    ensures WriterStep(s, SyncDir(w)) == s
  {
  }

  lemma SyncDirFrame(s: State, w: nat)
    requires FsOk(s) && w < |s.writers| && s.writers[w].pc.Renamed?
    ensures var t := WriterStep(s, SyncDir(w));
      && SameStreams(s, t) && t.hist == s.hist && t.writers == SetPc(s, w, Returned(s.writers[w].pc.version)).writers
      && Local(s, t, w, s.writers[w].dest, |s.inodes|)
      && WriterOk(t, w) && SealedOk(t, w)
  {
    hide HistOk, WritersOk, AllApart, Apart, Version, SyncedDir, SyncedHist, Shows;
    OneWriter(s, w);
    var t := WriterStep(s, SyncDir(w));
    assert t.writers == SetPc(s, w, Returned(s.writers[w].pc.version)).writers;
    forall d: Name | d.Plain?
      ensures Durable(s, d) <= Durable(t, d)
      ensures SameEntry(t.dur, s.dur, d) || SameEntry(t.dur, s.cur, d)
      ensures d.dir == s.writers[w].dest.dir ==> Durable(t, d) == |Hist(s, d)|
    {
      assert DestOk(s, d);
      SyncedAt(s, s.writers[w].dest.dir, d);
    }
  }

  lemma SyncedAt(s: State, dir: nat, d: Name)
    requires Durable(s, d) <= |Hist(s, d)|
    ensures SameEntry(SyncedDir(s, dir), if d.dir == dir then s.cur else s.dur, d)
    ensures var durable := SyncedHist(s, dir);
      (if d in durable then durable[d] else 0) == if d.dir == dir then |Hist(s, d)| else Durable(s, d)
  {
  }

  lemma SyncDirDest(s: State, w: nat, d: Name)
    requires HistOk(s) && DestsOk(s) && w < |s.writers| && s.writers[w].pc.Renamed? && d.Plain?
    ensures DestOk(WriterStep(s, SyncDir(w)), d)
  {
    hide HistOk, Version, SyncedDir, SyncedHist;
    var t := WriterStep(s, SyncDir(w));
    assert DestOk(s, d);
    SyncedAt(s, s.writers[w].dest.dir, d);
    if d.dir == s.writers[w].dest.dir {
      assert SameEntry(t.dur, s.cur, d);
      assert Durable(t, d) == |Hist(s, d)|;
      VersionFrame(s, t, d, |Hist(s, d)|);
    } else {
      DestFrame(s, t, d);
    }
  }

  lemma WriteKeeps(s: State, w: nat, k: nat)
    requires FsOk(s)
    ensures FsOk(WriterStep(s, Write(w, k)))
  {
    hide HistOk, DestsOk, AllApart;
    if w < |s.writers| && s.writers[w].pc.Writing? && s.writers[w].pc.k <= k <= |s.writers[w].stream| {
      OneWriter(s, w);
      InodeKeeps(s, w, s.writers[w].pc.(k := k), Inode(s.writers[w].stream[..k], false));
    }
  }

  lemma FinishKeeps(s: State, w: nat)
    requires FsOk(s)
    ensures FsOk(WriterStep(s, FinishProduce(w)))
  {
    hide HistOk, DestsOk, AllApart;
    if w < |s.writers| && s.writers[w].pc.Writing? && s.writers[w].pc.k == |s.writers[w].stream| {
      OneWriter(s, w);
      PcKeeps(s, WriterStep(s, FinishProduce(w)), w, Produced(s.writers[w].pc.part, s.writers[w].pc.ino));
    }
  }

  lemma FsyncKeeps(s: State, w: nat)
    requires FsOk(s)
    ensures FsOk(WriterStep(s, Fsync(w)))
  {
    hide HistOk, DestsOk, AllApart;
    if w < |s.writers| && s.writers[w].pc.Produced? {
      OneWriter(s, w);
      var pc := s.writers[w].pc;
      InodeKeeps(s, w, Synced(pc.part, pc.ino), s.inodes[pc.ino].(synced := true));
    }
  }

  lemma FailKeeps(s: State, w: nat)
    requires FsOk(s)
    ensures FsOk(WriterStep(s, Fail(w)))
  {
    hide HistOk, DestsOk, AllApart;
    var t := WriterStep(s, Fail(w));
    if w < |s.writers| && t != s {
      OneWriter(s, w);
      PcKeeps(s, t, w, t.writers[w].pc);
    }
  }

  lemma CleanKeeps(s: State, w: nat)
    requires FsOk(s)
    ensures FsOk(WriterStep(s, CleanRemove(w))) && FsOk(WriterStep(s, CleanLeave(w)))
  {
    hide HistOk, DestsOk, AllApart;
    if w < |s.writers| && s.writers[w].pc.Cleanup? {
      OneWriter(s, w);
      PcKeeps(s, WriterStep(s, CleanRemove(w)), w, Failed);
      PcKeeps(s, WriterStep(s, CleanLeave(w)), w, Failed);
    }
  }

  lemma WriterFs(s: State, step: Step)
    requires FsOk(s) && IsWriter(step)
    ensures FsOk(WriterStep(s, step))
  {
    hide FsOk, WriterStep;
    match step
    case Create(w, n) => CreateKeeps(s, w, n);
    case Write(w, k) => WriteKeeps(s, w, k);
    case FinishProduce(w) => FinishKeeps(s, w);
    case Fsync(w) => FsyncKeeps(s, w);
    case Rename(w) => RenameKeeps(s, w);
    case SyncDir(w) => SyncDirKeeps(s, w);
    case Fail(w) => FailKeeps(s, w);
    case CleanRemove(w) => CleanKeeps(s, w);
    case CleanLeave(w) => CleanKeeps(s, w);
  }

  /** What every effective writer step has in common. */
  ghost predicate WriterEffect(s: State, t: State, w: nat)
  {
    t == s || (t.procs == s.procs && t.lock == s.lock && t.base == s.base && w < |s.writers| && Live(s.writers[w].pc)
               && exists pc :: t.writers == SetPc(s, w, pc).writers)
  }

  lemma StageEffect(s: State, w: nat, n: nat)
    ensures WriterEffect(s, WriterStep(s, Create(w, n)), w)
  {
    if w < |s.writers| {
      var t := WriterStep(s, Create(w, n));
      assert t != s ==> t.writers == SetPc(s, w, t.writers[w].pc).writers;
    }
  }

  lemma WriteEffect(s: State, w: nat, k: nat)
    ensures WriterEffect(s, WriterStep(s, Write(w, k)), w)
  {
    if w < |s.writers| {
      var t := WriterStep(s, Write(w, k));
      assert t != s ==> t.writers == SetPc(s, w, t.writers[w].pc).writers;
    }
  }

  lemma FlushEffect(s: State, w: nat)
    ensures WriterEffect(s, WriterStep(s, FinishProduce(w)), w) && WriterEffect(s, WriterStep(s, Fsync(w)), w)
  {
    if w < |s.writers| {
      var t, u := WriterStep(s, FinishProduce(w)), WriterStep(s, Fsync(w));
      assert t != s ==> t.writers == SetPc(s, w, t.writers[w].pc).writers;
      assert u != s ==> u.writers == SetPc(s, w, u.writers[w].pc).writers;
    }
  }

  lemma PublishEffect(s: State, w: nat)
    ensures WriterEffect(s, WriterStep(s, Rename(w)), w) && WriterEffect(s, WriterStep(s, SyncDir(w)), w)
  {
    hide SyncedDir, SyncedHist;
    if w < |s.writers| {
      var t, u := WriterStep(s, Rename(w)), WriterStep(s, SyncDir(w));
      assert t != s ==> t.writers == SetPc(s, w, t.writers[w].pc).writers;
      assert u != s ==> u.writers == SetPc(s, w, u.writers[w].pc).writers;
    }
  }

  lemma FailEffect(s: State, w: nat)
    ensures WriterEffect(s, WriterStep(s, Fail(w)), w)
  {
    if w < |s.writers| {
      var t := WriterStep(s, Fail(w));
      assert t != s ==> t.writers == SetPc(s, w, t.writers[w].pc).writers;
    }
  }

  lemma CleanEffect(s: State, w: nat)
    ensures WriterEffect(s, WriterStep(s, CleanRemove(w)), w) && WriterEffect(s, WriterStep(s, CleanLeave(w)), w)
  {
    if w < |s.writers| {
      var t, u := WriterStep(s, CleanRemove(w)), WriterStep(s, CleanLeave(w));
      assert t != s ==> t.writers == SetPc(s, w, t.writers[w].pc).writers;
      assert u != s ==> u.writers == SetPc(s, w, u.writers[w].pc).writers;
    }
  }

  lemma LiveStep(s: State, step: Step)
    requires IsWriter(step)
    ensures WriterEffect(s, WriterStep(s, step), step.w)
  {
    hide WriterStep, WriterEffect;
    match step
    case Create(w, n) => StageEffect(s, w, n);
    case Write(w, k) => WriteEffect(s, w, k);
    case FinishProduce(w) => FlushEffect(s, w);
    case Fsync(w) => FlushEffect(s, w);
    case Rename(w) => PublishEffect(s, w);
    case SyncDir(w) => PublishEffect(s, w);
    case Fail(w) => FailEffect(s, w);
    case CleanRemove(w) => CleanEffect(s, w);
    case CleanLeave(w) => CleanEffect(s, w);
  }

  /** A writer step needs a live writer, so no process is sweeping and the lock stays put. */
  lemma WriterProcs(s: State, step: Step)
    requires LockOk(s) && OwnersOk(s)
    requires IsWriter(step)
    ensures LockOk(WriterStep(s, step)) && OwnersOk(WriterStep(s, step))
  {
    hide SweepOk, WriterStep;
    var w, t := step.w, WriterStep(s, step);
    if t != s {
      LiveStep(s, step);
      forall p | 0 <= p < |s.procs| ensures !s.procs[p].Sweeping? {
        assert s.procs[s.writers[w].proc].Working?;
      }
    }
  }

  // ----- The kernel and the power supply -----

  /** The kernel may write any entry back at any time. */
  lemma FlushKeeps(s: State, x: Name)
    requires FsOk(s)
    ensures FsOk(Next(s, Flush(x)))
  {
    hide HistOk, DestOk, Apart, Version, WriterOk, SealedOk, Next;
    var t := Next(s, Flush(x));
    FlushFrame(s, x);
    HistFrame(s, t);
    forall d: Name | d.Plain? ensures DestOk(t, d) {
      FlushDest(s, x, d);
    }
    forall v | 0 <= v < |t.writers| ensures WriterOk(t, v) && SealedOk(t, v) {
      FlushWriter(s, x, v);
    }
    assert AllApart(t);
  }

  lemma FlushFrame(s: State, x: Name)
    ensures var t := Next(s, Flush(x)); SameStreams(s, t) && t.hist == s.hist && t.writers == s.writers
  {
  }

  lemma FlushDest(s: State, x: Name, d: Name)
    requires HistOk(s) && DestOk(s, d)
    ensures DestOk(Next(s, Flush(x)), d)
  {
    hide HistOk, Version;
    var t := Next(s, Flush(x));
    if d == x {
      VersionFrame(s, t, d, |Hist(s, d)|);
    } else {
      DestFrame(s, t, d);
    }
  }

  lemma FlushWriter(s: State, x: Name, v: nat)
    requires DestsOk(s) && v < |s.writers| && WriterOk(s, v) && SealedOk(s, v)
    ensures WriterOk(Next(s, Flush(x)), v) && SealedOk(Next(s, Flush(x)), v)
  {
    hide Version;
    assert DestOk(s, s.writers[v].dest);
  }

  /** After a power loss every destination shows its last durable version, whole. */
  lemma PowerLossKeeps(s: State, garbage: seq<Content>)
    requires FsOk(s)
    ensures FsOk(Next(s, PowerLoss(garbage)))
  {
    hide HistOk, DestOk, WritersOk, Version, Apart, Next;
    var t := Next(s, PowerLoss(garbage));
    PowerLossHist(s, garbage);
    forall d: Name | d.Plain? ensures DestOk(t, d) {
      assert DestOk(s, d);
      PowerLossDest(s, garbage, d);
    }
    PowerLossWriters(s, garbage);
  }

  lemma PowerLossHist(s: State, garbage: seq<Content>)
    requires HistOk(s)
    ensures HistOk(Next(s, PowerLoss(garbage)))
  {
    var t := Next(s, PowerLoss(garbage));
    forall d | d in t.hist
      ensures d.Plain? && forall i | 0 <= i < |t.hist[d]| ::
        t.hist[d][i] < |t.writers| && t.writers[t.hist[d][i]].dest == d
    {
      assert forall i | 0 <= i < |t.hist[d]| :: t.hist[d][i] == s.hist[d][i];
    }
  }

  lemma RecoveredHist(s: State, garbage: seq<Content>, d: Name)
    requires Durable(s, d) <= |Hist(s, d)|
    ensures var t := Next(s, PowerLoss(garbage));
      Hist(t, d) == Hist(s, d)[..Durable(s, d)] && Durable(t, d) == Durable(s, d)
  {
  }

  lemma PowerLossDest(s: State, garbage: seq<Content>, d: Name)
    requires HistOk(s) && DestOk(s, d)
    ensures var t := Next(s, PowerLoss(garbage)); DestOk(t, d)
  {
    hide HistOk, Version;
    var t := Next(s, PowerLoss(garbage));
    RecoveredHist(s, garbage, d);
    PowerLossHist(s, garbage);
    VersionFrame(t, s, d, Durable(s, d));
  }

  lemma PowerLossWriters(s: State, garbage: seq<Content>)
    requires DestsOk(s) && WritersOk(s)
    ensures WritersOk(Next(s, PowerLoss(garbage))) && AllApart(Next(s, PowerLoss(garbage)))
  {
    hide DestOk, HistOk, Version, Apart, Next;
    var t := Next(s, PowerLoss(garbage));
    forall w | 0 <= w < |t.writers|
      ensures w < |s.writers| && WriterOk(t, w) && SealedOk(t, w) && !Live(t.writers[w].pc)
    {
      PowerLossWriter(s, garbage, w);
    }
    forall u, v | 0 <= u < |t.writers| && 0 <= v < |t.writers| && u != v
      ensures Apart(t.writers[u].pc, t.writers[v].pc)
    {
      DeadApart(t.writers[u].pc, t.writers[v].pc);
    }
  }

  lemma DeadApart(a: WriterPc, b: WriterPc)
    requires !Live(a) && !Live(b)
    ensures Apart(a, b)
  {
  }

  lemma PowerLossWriter(s: State, garbage: seq<Content>, w: nat)
    requires DestsOk(s) && WritersOk(s) && w < |Next(s, PowerLoss(garbage)).writers|
    ensures var t := Next(s, PowerLoss(garbage));
      w < |s.writers| && WriterOk(t, w) && SealedOk(t, w) && !Live(t.writers[w].pc)
  {
    hide Version, Shows;
    assert w < |s.writers|;
    assert WriterOk(s, w);
    assert DestOk(s, s.writers[w].dest);
    RecoveredHist(s, garbage, s.writers[w].dest);
  }

  lemma KernelProcs(s: State, step: Step)
    requires LockOk(s) && OwnersOk(s) && (step.Flush? || step.PowerLoss?)
    ensures LockOk(Next(s, step)) && OwnersOk(Next(s, step))
  {
  }

  // ----- Every run -----

  lemma NextKeeps(s: State, step: Step)
    requires Inv(s)
    ensures Inv(Next(s, step))
  {
    hide FsOk, LockOk, OwnersOk, ProcStep, WriterStep;
    if step.Flush? {
      FlushKeeps(s, step.name);
      KernelProcs(s, step);
    } else if step.PowerLoss? {
      PowerLossKeeps(s, step.garbage);
      KernelProcs(s, step);
    } else if IsProc(step) {
      ProcStepKeeps(s, step);
    } else {
      WriterFs(s, step);
      WriterProcs(s, step);
    }
  }

  lemma {:induction false} RunKeeps(s: State, steps: seq<Step>)
    requires Inv(s)
    ensures Inv(Run(s, steps)) && Run(s, steps).base == s.base
  {
    hide Inv, Next;
    if steps != [] {
      RunKeeps(s, steps[..|steps| - 1]);
      NextKeeps(Run(s, steps[..|steps| - 1]), steps[|steps| - 1]);
      BaseFixed(Run(s, steps[..|steps| - 1]), steps[|steps| - 1]);
    }
  }

  lemma NextIs(s: State, step: Step)
    ensures IsProc(step) ==> Next(s, step) == ProcStep(s, step)
    ensures IsWriter(step) ==> Next(s, step) == WriterStep(s, step)
    ensures !IsProc(step) && !IsWriter(step) ==>
      Next(s, step).base == s.base && OnlyKilled(s.writers, Next(s, step).writers)
  {
    hide ProcStep, WriterStep, Recovered;
  }

  predicate OnlyKilled(writers: seq<Writer>, after: seq<Writer>)
  {
    |after| == |writers| && forall w | 0 <= w < |after| && !Live(writers[w].pc) :: after[w] == writers[w]
  }

  lemma BaseFixed(s: State, step: Step)
    ensures Next(s, step).base == s.base
  {
    hide Next, ProcStep, WriterStep, SetPc;
    NextIs(s, step);
    if IsWriter(step) {
      LiveStep(s, step);
    } else if IsProc(step) {
      ProcStepEffect(s, step);
    }
  }

  /** Under name d stands the whole stream of writer w, on a synced inode. */
  ghost predicate HoldsStream(s: State, dir: Directory, d: Name, w: nat)
  {
    w < |s.writers| && s.writers[w].dest == d && Shows(s, dir, d, Some(s.writers[w].stream))
  }

  ghost predicate Original(s: State, d: Name, v: Option<Content>)
  {
    if d in s.cur then s.cur[d] < |s.inodes| && v == Some(s.inodes[s.cur[d]].data) else v == None
  }

  /**
   Crash consistency. Whatever writers, failures, kills and power losses a run
   contains, a destination shows what it held at the start or one writer's complete
   stream; so does the name a power loss at this very moment would bring back.
   */
  lemma CrashConsistency(s: State, steps: seq<Step>, d: Name, v: Option<Content>)
    requires Initial(s) && d.Plain? && Original(s, d, v)
    ensures var t := Run(s, steps);
      && (Shows(t, t.cur, d, v) || exists w :: HoldsStream(t, t.cur, d, w))
      && (Shows(t, t.dur, d, v) || exists w :: HoldsStream(t, t.dur, d, w))
  {
    hide WritersOk, AllApart, LockOk, OwnersOk, Run;
    var t := Run(s, steps);
    InitialInv(s);
    RunKeeps(s, steps);
    assert Version(t, d, 0) == v;
    assert DestOk(t, d);
    VersionIs(t, t.cur, d, |Hist(t, d)|);
    VersionIs(t, t.dur, d, Durable(t, d));
  }

  lemma VersionIs(t: State, dir: Directory, d: Name, i: nat)
    requires HistOk(t) && i <= |Hist(t, d)| && Shows(t, dir, d, Version(t, d, i))
    ensures i > 0 ==> HoldsStream(t, dir, d, Hist(t, d)[i - 1])
  {
  }

  lemma DeadStay(s: State, t: State, v: nat, w: nat)
    requires w < |s.writers| && !Live(s.writers[w].pc)
    requires (v < |s.procs| && ProcEffect(s, t, v)) || WriterEffect(s, t, v) || OnlyKilled(s.writers, t.writers)
    ensures w < |t.writers| && t.writers[w] == s.writers[w]
  {
    hide SweepOk, ProcMove;
  }

  lemma ReturnedStays(s: State, step: Step, w: nat)
    requires w < |s.writers| && s.writers[w].pc.Returned?
    ensures w < |Next(s, step).writers| && Next(s, step).writers[w] == s.writers[w]
  {
    hide Next, ProcStep, WriterStep, ProcEffect, WriterEffect, OnlyKilled;
    NextIs(s, step);
    if IsWriter(step) {
      LiveStep(s, step);
      DeadStay(s, WriterStep(s, step), step.w, w);
    } else if IsProc(step) {
      ProcStepEffect(s, step);
      if step.p < |s.procs| {
        DeadStay(s, ProcStep(s, step), step.p, w);
      }
    } else {
      DeadStay(s, Next(s, step), 0, w);
    }
  }

  lemma {:induction false} ReturnedForGood(s: State, steps: seq<Step>, w: nat)
    requires w < |s.writers| && s.writers[w].pc.Returned?
    ensures w < |Run(s, steps).writers| && Run(s, steps).writers[w] == s.writers[w]
  {
    hide Next;
    if steps != [] {
      ReturnedForGood(s, steps[..|steps| - 1], w);
      ReturnedStays(Run(s, steps[..|steps| - 1]), steps[|steps| - 1], w);
    }
  }

  /**
   Durability. Once writeAtomic has returned nil its content is never lost: after any
   further steps, power losses among them, the destination shows its stream or that of
   a writer renamed after it, and so would a recovery from the disk.
   */
  lemma ReturnedSurvives(s: State, before: seq<Step>, after: seq<Step>, w: nat)
    requires Initial(s)
    requires w < |Run(s, before).writers| && Run(s, before).writers[w].pc.Returned?
    ensures var t, writer := Run(Run(s, before), after), Run(s, before).writers[w];
      var d, v := writer.dest, writer.pc.version;
      && 1 <= v <= Durable(t, d) <= |Hist(t, d)| && Hist(t, d)[v - 1] == w
      && HoldsStream(t, t.dur, d, Hist(t, d)[Durable(t, d) - 1])
      && HoldsStream(t, t.cur, d, Hist(t, d)[|Hist(t, d)| - 1])
  {
    hide HistOk, AllApart, LockOk, OwnersOk, Run, Version, Shows, HoldsStream;
    var u := Run(s, before);
    var t := Run(u, after);
    InitialInv(s);
    RunKeeps(s, before);
    RunKeeps(u, after);
    ReturnedForGood(u, after, w);
    var d := u.writers[w].dest;
    assert WriterOk(t, w) && DestOk(t, d);
    VersionIs(t, t.dur, d, Durable(t, d));
    VersionIs(t, t.cur, d, |Hist(t, d)|);
  }

  /**
   writeAtomic's own comment says that on error the destination is left untouched. In
   every run, a call that now returns an error has published its stream exactly when it
   had got as far as the rename: an error from syncDir, and no other, comes after the
   destination has changed.
   */
  lemma ErrorAfterPublishing(s: State, steps: seq<Step>, step: Step)
    requires Initial(s) && (step.Fail? || step.CleanRemove? || step.CleanLeave?)
    requires var t, u := Run(s, steps), Next(Run(s, steps), step);
      step.w < |t.writers| && Live(t.writers[step.w].pc) && step.w < |u.writers| && u.writers[step.w].pc.Failed?
    ensures var t, u := Run(s, steps), Next(Run(s, steps), step);
      step.w in Hist(u, u.writers[step.w].dest) <==> t.writers[step.w].pc.Renamed?
  {
    hide HistOk, DestsOk, AllApart, LockOk, OwnersOk, Run;
    InitialInv(s);
    RunKeeps(s, steps);
    OneWriter(Run(s, steps), step.w);
  }

  lemma RunSnoc(s: State, steps: seq<Step>, step: Step)
    ensures Run(s, steps + [step]) == Next(Run(s, steps), step)
  {
    hide Next;
    assert (steps + [step])[..|steps|] == steps;
  }

  /** One process on an empty disk. */
  const FRESH := State([], map[], map[], [], [Idle], None, map[], map[], map[])

  /** A run in which the directory cannot be synced: the call fails and the file is there. */
  lemma ErrorWithFileInPlace(stream: Content) returns (steps: seq<Step>)
    ensures Initial(FRESH)
    ensures var t, dest := Run(FRESH, steps), Plain(0, 0);
      |t.writers| == 1 && t.writers[0].pc.Failed? && HoldsStream(t, t.cur, dest, 0) && dest !in FRESH.cur
  {
    hide Run, Recovered, KillWriters;
    var dest := Plain(0, 0);
    steps := [Acquire(0)];
    RunSnoc(FRESH, [], Acquire(0));
    assert Run(FRESH, []) == FRESH by { RunNothing(FRESH); }
    assert [] + [Acquire(0)] == steps;
    RunSnoc(FRESH, steps, BeginSweep(0));
    steps := steps + [BeginSweep(0)];
    assert PartNames(map[]) == {};
    RunSnoc(FRESH, steps, EndSweep(0));
    steps := steps + [EndSweep(0)];
    RunSnoc(FRESH, steps, Spawn(0, dest, stream));
    steps := steps + [Spawn(0, dest, stream)];
    var t := Run(FRESH, steps);
    assert t.writers == [Writer(0, dest, stream, Waiting)] && t.inodes == [] && t.cur == map[];
    steps := Publish(t, stream, steps);
  }

  lemma RunNothing(s: State)
    ensures Run(s, []) == s
  {
  }

  /** One writer alone on the disk, its pc and the one inode it may have. */
  ghost predicate Alone(t: State, stream: Content, pc: WriterPc, inodes: seq<Inode>, cur: Directory)
  {
    t.writers == [Writer(0, Plain(0, 0), stream, pc)] && t.inodes == inodes && t.cur == cur && t.hist == map[]
  }

  lemma StageAlone(t: State, stream: Content)
    requires Alone(t, stream, Waiting, [], map[])
    ensures Alone(Next(Next(t, Create(0, 0)), Write(0, |stream|)), stream, Writing(Part(0, 0), 0, |stream|),
                  [Inode(stream, false)], map[Part(0, 0) := 0])
  {
    var u := Next(t, Create(0, 0));
    assert Alone(u, stream, Writing(Part(0, 0), 0, 0), [Inode([], false)], map[Part(0, 0) := 0]);
    assert stream[..|stream|] == stream;
  }

  lemma SyncAlone(t: State, stream: Content)
    requires Alone(t, stream, Writing(Part(0, 0), 0, |stream|), [Inode(stream, false)], map[Part(0, 0) := 0])
    ensures Alone(Next(Next(t, FinishProduce(0)), Fsync(0)), stream, Synced(Part(0, 0), 0),
                  [Inode(stream, true)], map[Part(0, 0) := 0])
  {
    assert Alone(
        Next(t, FinishProduce(0)), stream, Produced(Part(0, 0), 0), [Inode(stream, false)], map[Part(0, 0) := 0]);
  }

  lemma RenameAlone(t: State, stream: Content)
    requires Alone(t, stream, Synced(Part(0, 0), 0), [Inode(stream, true)], map[Part(0, 0) := 0])
    ensures var u := Next(Next(t, Rename(0)), Fail(0));
      |u.writers| == 1 && u.writers[0].pc.Failed? && HoldsStream(u, u.cur, Plain(0, 0), 0)
  {
    var u := Next(t, Rename(0));
    assert u.writers == [Writer(0, Plain(0, 0), stream, Renamed(1))];
    assert u.inodes == t.inodes && u.cur == map[Plain(0, 0) := 0];
  }

  /** From a lone waiting writer to an error after its rename. */
  lemma Publish(t: State, stream: Content, before: seq<Step>) returns (steps: seq<Step>)
    requires t == Run(FRESH, before) && Alone(t, stream, Waiting, [], map[])
    ensures var u, dest := Run(FRESH, steps), Plain(0, 0);
      |u.writers| == 1 && u.writers[0].pc.Failed? && HoldsStream(u, u.cur, dest, 0)
  {
    hide Run, Next, Alone, HoldsStream;
    StageAlone(t, stream);
    RunTwo(FRESH, before, Create(0, 0), Write(0, |stream|));
    steps := before + [Create(0, 0)] + [Write(0, |stream|)];
    SyncAlone(Run(FRESH, steps), stream);
    RunTwo(FRESH, steps, FinishProduce(0), Fsync(0));
    steps := steps + [FinishProduce(0)] + [Fsync(0)];
    RenameAlone(Run(FRESH, steps), stream);
    RunTwo(FRESH, steps, Rename(0), Fail(0));
    steps := steps + [Rename(0)] + [Fail(0)];
  }

  lemma RunTwo(s: State, steps: seq<Step>, a: Step, b: Step)
    ensures Run(s, steps + [a] + [b]) == Next(Next(Run(s, steps), a), b)
  {
    hide Run, Next;
    RunSnoc(s, steps, a);
    RunSnoc(s, steps + [a], b);
  }

  /**
   The sweep. In every reachable state a process that is sweeping faces no live writer,
   will remove only part files, and when it goes on to work with no error reported no
   part file of any earlier process is left.
   */
  lemma SweepIsComplete(s: State, steps: seq<Step>, p: nat)
    requires Initial(s)
    requires var t := Run(s, steps); p < |t.procs| && t.procs[p].Sweeping?
    ensures var t := Run(s, steps);
      && (forall w | 0 <= w < |t.writers| :: !Live(t.writers[w].pc))
      && (forall x | x in t.procs[p].todo :: x.Part?)
      && (Next(t, EndSweep(p)).procs[p].Working? ==> forall x: Name | x.Part? :: x !in Next(t, EndSweep(p)).cur)
  {
    hide FsOk, Run;
    var t := Run(s, steps);
    InitialInv(s);
    RunKeeps(s, steps);
    assert SweepOk(t, t.procs[p]);
    forall w | 0 <= w < |t.writers| ensures !Live(t.writers[w].pc) {
      SweepMeetsNoWriter(t, p, w);
    }
  }

  // ----- Cleanups and returns -----

  /** A cleanup that succeeds removes the part file of a call that failed, and nothing else. */
  lemma CleanupRemoves(s: State, steps: seq<Step>, w: nat)
    requires Initial(s)
    requires var t := Run(s, steps); w < |t.writers| && t.writers[w].pc.Cleanup?
    ensures var t, u := Run(s, steps), Next(Run(s, steps), CleanRemove(w));
      && t.writers[w].pc.part in t.cur && t.writers[w].pc.part.Part?
      && u.cur == t.cur - {t.writers[w].pc.part} && u.dur == t.dur
      && u.writers == t.writers[w := t.writers[w].(pc := Failed)]
  {
    hide Run, HistOk, DestsOk, AllApart, LockOk, OwnersOk;
    InitialInv(s);
    RunKeeps(s, steps);
    OneWriter(Run(s, steps), w);
  }

  /** A step of writer w that is no failure. */
  predicate Onward(step: Step, w: nat)
  {
    (step.Create? || step.Write? || step.FinishProduce? || step.Fsync? || step.Rename? || step.SyncDir?) && step.w == w
  }

  /** How many steps a write that has not failed still has to take. */
  function Ahead(pc: WriterPc, size: nat): nat
  {
    match pc
    case Waiting => 6
    case Writing(_, _, k) => if k == size then 4 else 5
    case Produced(_, _) => 3
    case Synced(_, _) => 2
    case Renamed(_) => 1
    case _ => 0
  }

  predicate OnItsWay(pc: WriterPc) { pc.Waiting? || Owns(pc) || pc.Renamed? }

  /** Some part name of a directory is free. */
  lemma FreePart(cur: Directory, dir: nat) returns (n: nat)
    ensures Part(dir, n) !in cur
  {
    n := Above(cur.Keys);
  }

  lemma {:induction false} Above(names: set<Name>) returns (n: nat)
    ensures forall x | x in names :: x.n < n
    decreases |names|
  {
    if names == {} {
      n := 0;
    } else {
      var x :| x in names;
      n := Above(names - {x});
      n := if x.n < n then n else x.n + 1;
    }
  }

  /** This step takes the write on. */
  ghost predicate Advances(t: State, w: nat, u: State)
    requires w < |t.writers|
  {
    var stream := t.writers[w].stream;
    && |u.writers| == |t.writers| && u.writers[w].stream == stream && u.writers[w].dest == t.writers[w].dest
    && Ahead(u.writers[w].pc, |stream|) < Ahead(t.writers[w].pc, |stream|)
    && (OnItsWay(u.writers[w].pc) || u.writers[w].pc.Returned?)
  }

  lemma CreateOn(t: State, w: nat, n: nat)
    requires w < |t.writers| && t.writers[w].pc.Waiting? && Part(t.writers[w].dest.dir, n) !in t.cur
    ensures Advances(t, w, WriterStep(t, Create(w, n)))
  {
  }

  lemma WriteOn(t: State, w: nat)
    requires w < |t.writers| && t.writers[w].pc.Writing? && t.writers[w].pc.k < |t.writers[w].stream|
    ensures Advances(t, w, WriterStep(t, Write(w, |t.writers[w].stream|)))
  {
  }

  lemma FinishOn(t: State, w: nat)
    requires w < |t.writers| && t.writers[w].pc.Writing? && t.writers[w].pc.k == |t.writers[w].stream|
    ensures Advances(t, w, WriterStep(t, FinishProduce(w)))
  {
  }

  lemma FsyncOn(t: State, w: nat)
    requires w < |t.writers| && t.writers[w].pc.Produced? && t.writers[w].pc.ino < |t.inodes|
    ensures Advances(t, w, WriterStep(t, Fsync(w)))
  {
  }

  lemma RenameOn(t: State, w: nat)
    requires w < |t.writers| && t.writers[w].pc.Synced?
    ensures Advances(t, w, WriterStep(t, Rename(w)))
  {
  }

  lemma SyncDirOn(t: State, w: nat)
    requires w < |t.writers| && t.writers[w].pc.Renamed?
    ensures Advances(t, w, WriterStep(t, SyncDir(w)))
  {
    hide SyncedDir, SyncedHist;
  }

  /** There always is one. */
  lemma NextOnward(t: State, w: nat) returns (step: Step)
    requires w < |t.writers| && WriterOk(t, w) && OnItsWay(t.writers[w].pc)
    ensures Onward(step, w) && Advances(t, w, Next(t, step))
  {
    hide WriterStep, Advances, PublishedAs;
    match t.writers[w].pc
    case Waiting =>
      var n := FreePart(t.cur, t.writers[w].dest.dir);
      CreateOn(t, w, n);
      step := Create(w, n);
    case Writing(_, _, k) =>
      if k == |t.writers[w].stream| {
        FinishOn(t, w);
        step := FinishProduce(w);
      } else {
        WriteOn(t, w);
        step := Write(w, |t.writers[w].stream|);
      }
    case Produced(_, _) =>
      FsyncOn(t, w);
      step := Fsync(w);
    case Synced(_, _) =>
      RenameOn(t, w);
      step := Rename(w);
    case Renamed(_) =>
      SyncDirOn(t, w);
      step := SyncDir(w);
  }

  /**
   Undisturbed, a write returns nil: from every reachable state a call that has not failed
   gets there by at most six steps of its own.
   */
  lemma {:induction false} WriteReturns(s: State, before: seq<Step>, w: nat) returns (more: seq<Step>)
    requires Initial(s)
    requires var t := Run(s, before); w < |t.writers| && OnItsWay(t.writers[w].pc)
    ensures var t := Run(s, before);
      |more| <= Ahead(t.writers[w].pc, |t.writers[w].stream|) <= 6
    ensures forall i | 0 <= i < |more| :: Onward(more[i], w)
    ensures var t := Run(s, before + more);
      && w < |t.writers| && t.writers[w].pc.Returned? && t.writers[w].dest == Run(s, before).writers[w].dest
    decreases var t := Run(s, before); Ahead(t.writers[w].pc, |t.writers[w].stream|)
  {
    hide Next, Run, FsOk, LockOk, OwnersOk, Inv, WriterOk;
    var t := Run(s, before);
    InitialInv(s);
    RunKeeps(s, before);
    InvWriter(t, w);
    var step := NextOnward(t, w);
    RunSnoc(s, before, step);
    var onward := before + [step];
    if Run(s, onward).writers[w].pc.Returned? {
      more := [step];
    } else {
      var rest := WriteReturns(s, onward, w);
      more := [step] + rest;
      assert before + more == onward + rest;
    }
  }

  lemma InvWriter(t: State, w: nat)
    requires Inv(t) && w < |t.writers|
    ensures WriterOk(t, w)
  {
    hide HistOk, DestsOk, AllApart, LockOk, OwnersOk, WriterOk, SealedOk;
  }
}
