/** pkg/kubeconfig/write.go: Import and CleanupStale as processes over one
    kubeconfig, taking withFileLock's lock and writing with writeFileAtomic. A
    process can be killed between any two effects, and the machine can lose
    power. */
module LockedStore {
  import opened Wrappers
  import opened KubeCodec

  // What a process is to do; an import has parsed its kubeconfig.
  datatype Op =
    | Import(raw: File, context: string, cluster: string)
    | Cleanup(context: string, cluster: string)

  // What is at a path: a document, or data that is none, as when half-written.
  // Empty data reads like the empty document.
  datatype Disk = Absent | Holds(doc: Object) | Unparsable

  // Load, what Save leaves at a path, and what an operation saves over a loaded
  // file, if it saves: any three for which ReadsBack holds.
  datatype Codec = Codec(read: Disk -> Option<File>, write: File -> Disk, result: (Op, File) -> Option<File>)

  datatype Temp = Temp(content: Disk, synced: bool)

  // Where a process is, between two effects. `next` is what it will save.
  datatype Pc =
    | Start
    | WaitLock
    | Load
    | CreateTemp(next: File)
    | WriteTemp(next: File)
    | SyncTemp(next: File)
    | Rename(next: File)
    | Unlock                     // renamed, not yet back from withFileLock
    | Succeeded(saved: bool)
    | Failed
    | Dead

  datatype Proc = Proc(op: Op, pc: Pc, temp: Temp)

  datatype Commit = Commit(proc: nat, op: Op)

  // `synced`: what is at the path would survive a power loss. `log` records the
  // renames.
  datatype World = World(disk: Disk, synced: bool, lock: Option<nat>, procs: seq<Proc>, log: seq<Commit>)

  const NO_TEMP := Temp(Absent, false)

  predicate Active(pc: Pc) {
    !pc.Succeeded? && !pc.Failed? && !pc.Dead?
  }

  predicate Locked(pc: Pc) {
    pc.Load? || Saves(pc) || pc.Unlock?
  }

  // Has decided what to save, and not saved it.
  predicate Saves(pc: Pc) {
    pc.CreateTemp? || pc.WriteTemp? || pc.SyncTemp? || pc.Rename?
  }

  predicate Runs(w: World, i: nat) {
    i < |w.procs| && Active(w.procs[i].pc)
  }

  function Set(w: World, i: nat, pc: Pc): World
    requires i < |w.procs|
  {
    w.(procs := w.procs[i := w.procs[i].(pc := pc)])
  }

  function SetTemp(w: World, i: nat, pc: Pc, temp: Temp): World
    requires i < |w.procs|
  {
    w.(procs := w.procs[i := w.procs[i].(pc := pc, temp := temp)])
  }

  // The function given to withFileLock returned: the lock file is closed.
  function Leave(w: World, i: nat, pc: Pc): World
    requires i < |w.procs|
  {
    Set(w, i, pc).(lock := None)
  }

  // The next effect of process i; `ok` is whether it works.
  function Advance(codec: Codec, w: World, i: nat, ok: bool): World
    requires Runs(w, i)
  {
    var p := w.procs[i];
    match p.pc
    case Start =>
      // CleanupStale looks for the file before it takes the lock
      if p.op.Cleanup? && w.disk.Absent? then Set(w, i, Succeeded(false)) else Set(w, i, WaitLock)
    case WaitLock =>
      if !ok then Set(w, i, Failed)
      else if w.lock.Some? then w
      else Set(w, i, Load).(lock := Some(i))
    case Load =>
      if !ok || codec.read(w.disk).None? then Leave(w, i, Failed)
      else (match codec.result(p.op, codec.read(w.disk).value)
        case None => Leave(w, i, Succeeded(false))
        case Some(next) => Set(w, i, CreateTemp(next)))
    case CreateTemp(next) =>
      // also where a read-only file is refused
      if ok then SetTemp(w, i, WriteTemp(next), Temp(Unparsable, false)) else Leave(w, i, Failed)
    case WriteTemp(next) =>
      if ok then SetTemp(w, i, SyncTemp(next), Temp(codec.write(next), false)) else Leave(w, i, Failed)
    case SyncTemp(next) =>
      if ok then SetTemp(w, i, Rename(next), p.temp.(synced := true)) else Leave(w, i, Failed)
    case Rename(next) =>
      if ok then
        Set(w, i, Unlock).(disk := p.temp.content, synced := p.temp.synced, log := w.log + [Commit(i, p.op)])
      else Leave(w, i, Failed)
    case Unlock => Leave(w, i, Succeeded(true))
    case Succeeded(_) => w
    case Failed => w
    case Dead => w
  }

  datatype Event =
    | SpawnImport(doc: Object, context: string, cluster: string)
    | SpawnCleanup(context: string, cluster: string)
    | Effect(proc: nat, ok: bool)
    | Kill(proc: nat)
    | PowerLoss

  predicate Enabled(w: World, e: Event) {
    match e
    case SpawnImport(_, _, _) => true
    case SpawnCleanup(_, _) => true
    case Effect(i, _) => Runs(w, i)
    case Kill(i) => Runs(w, i)
    case PowerLoss => true
  }

  function KillAll(procs: seq<Proc>): seq<Proc> {
    seq(|procs|, i requires 0 <= i < |procs| =>
      if Active(procs[i].pc) then procs[i].(pc := Dead) else procs[i])
  }

  function Spawned(w: World, op: Op): World {
    w.(procs := w.procs + [Proc(op, Start, NO_TEMP)])
  }

  function Step(codec: Codec, w: World, e: Event): World
    requires Enabled(w, e)
  {
    match e
    case SpawnImport(doc, context, cluster) =>
      // Import returns the error of a kubeconfig that does not parse
      (match codec.read(Holds(doc))
       case None => w
       case Some(raw) => Spawned(w, Import(raw, context, cluster)))
    case SpawnCleanup(context, cluster) => Spawned(w, Cleanup(context, cluster))
    case Effect(i, ok) => Advance(codec, w, i, ok)
    case Kill(i) => Set(w, i, Dead).(lock := if w.lock == Some(i) then None else w.lock)
    case PowerLoss =>
      w.(procs := KillAll(w.procs), lock := None,
         disk := if w.synced then w.disk else Unparsable, synced := true)
  }

  // ---------- The committed operations, one after the other ----------

  function ApplyOp(codec: Codec, f: File, op: Op): File {
    match codec.result(op, f)
    case None => f
    case Some(next) => next
  }

  function Replay(codec: Codec, f: File, log: seq<Commit>): File {
    if log == [] then f
    else ApplyOp(codec, Replay(codec, f, log[..|log| - 1]), log[|log| - 1].op)
  }

  // The file reads as the committed operations over what it was at first,
  // although each of them read it, changed what it read and wrote it out.
  ghost predicate DiskInv(codec: Codec, initial: Disk, disk: Disk, log: seq<Commit>) {
    && (log == [] ==> disk == initial)
    && (log != [] ==>
         && codec.read(initial).Some? && codec.read(disk) == Some(Replay(codec, codec.read(initial).value, log))
         && disk == codec.write(Replay(codec, codec.read(initial).value, log)))
  }

  // The file is what the operation makes of what is at the path.
  ghost predicate Meant(codec: Codec, disk: Disk, op: Op, next: File) {
    codec.read(disk).Some? && codec.result(op, codec.read(disk).value) == Some(next)
  }

  // What an operation makes of a file that was read can be read back.
  ghost predicate ReadsBack(codec: Codec) {
    forall disk, op, next :: Parsed(codec, op) && Meant(codec, disk, op, next) ==>
      codec.read(codec.write(next)) == Some(next)
  }

  ghost predicate ProcInv(codec: Codec, w: World, i: nat)
    requires i < |w.procs|
  {
    var p := w.procs[i];
    && (Locked(p.pc) ==> w.lock == Some(i))
    && (Saves(p.pc) ==> Meant(codec, w.disk, p.op, p.pc.next))
    && (p.pc.SyncTemp? || p.pc.Rename? ==> p.temp.content == codec.write(p.pc.next))
    && (p.pc.Rename? ==> p.temp.synced)
  }

  // It has saved, and has reported that or is about to.
  predicate Reports(pc: Pc) {
    pc.Unlock? || pc == Succeeded(true)
  }

  // Where a process that has saved can be: it reports that, or is killed before.
  predicate HasSaved(pc: Pc) {
    Reports(pc) || pc.Dead?
  }

  ghost predicate LogInv(w: World) {
    && (forall k :: 0 <= k < |w.log| ==>
         w.log[k].proc < |w.procs| && HasSaved(w.procs[w.log[k].proc].pc)
         && w.log[k].op == w.procs[w.log[k].proc].op)
    && (forall j, k :: 0 <= j < k < |w.log| ==> w.log[j].proc != w.log[k].proc)
  }

  // What an import brings was parsed.
  ghost predicate Parsed(codec: Codec, op: Op) {
    op.Import? ==> exists doc :: codec.read(Holds(doc)) == Some(op.raw)
  }

  ghost predicate AllParsed(codec: Codec, w: World) {
    forall i :: 0 <= i < |w.procs| ==> Parsed(codec, w.procs[i].op)
  }

  ghost predicate Reported(w: World) {
    forall i :: 0 <= i < |w.procs| && Reports(w.procs[i].pc) ==> Commit(i, w.procs[i].op) in w.log
  }

  ghost predicate Inv(codec: Codec, initial: Disk, w: World) {
    && w.synced && DiskInv(codec, initial, w.disk, w.log)
    && (forall i :: 0 <= i < |w.procs| ==> ProcInv(codec, w, i))
    && LogInv(w) && Reported(w) && AllParsed(codec, w)
  }

  ghost predicate Initial(initial: Disk, w: World) {
    w == World(initial, true, None, [], [])
  }

  // Everything but the file and the log.
  ghost predicate SameFile(w: World, w': World) {
    w'.disk == w.disk && w'.synced == w.synced && w'.log == w.log
  }

  // Nothing is saved between the two, and nothing saved is forgotten.
  predicate SavedAlike(pc: Pc, pc': Pc) {
    (HasSaved(pc) ==> HasSaved(pc')) && (Reports(pc') ==> Reports(pc))
  }

  lemma QuietStepKeepsInv(codec: Codec, initial: Disk, w: World, w': World, i: nat)
    requires Inv(codec, initial, w) && Runs(w, i) && SameFile(w, w')
    requires |w'.procs| == |w.procs| && w'.procs[i].op == w.procs[i].op
    requires forall j :: 0 <= j < |w.procs| && j != i ==> w'.procs[j] == w.procs[j]
    requires SavedAlike(w.procs[i].pc, w'.procs[i].pc) && ProcInv(codec, w', i)
    requires w'.lock == w.lock || (w.lock == None && w'.lock == Some(i)) || (w.lock == Some(i) && w'.lock == None)
    ensures Inv(codec, initial, w')
  {
    QuietProcs(codec, w, w', i);
    QuietLog(w, w', i);
    SameOps(codec, w, w');
  }

  lemma SameOps(codec: Codec, w: World, w': World)
    requires AllParsed(codec, w) && |w'.procs| == |w.procs|
    requires forall j :: 0 <= j < |w.procs| ==> w'.procs[j].op == w.procs[j].op
    ensures AllParsed(codec, w')
  {
    forall j | 0 <= j < |w'.procs| ensures Parsed(codec, w'.procs[j].op) {
      assert Parsed(codec, w.procs[j].op);
    }
  }

  lemma QuietProcs(codec: Codec, w: World, w': World, i: nat)
    requires i < |w.procs| && w'.disk == w.disk && |w'.procs| == |w.procs| && ProcInv(codec, w', i)
    requires forall j :: 0 <= j < |w.procs| ==> ProcInv(codec, w, j)
    requires forall j :: 0 <= j < |w.procs| && j != i ==> w'.procs[j] == w.procs[j]
    requires w'.lock == w.lock || (w.lock == None && w'.lock == Some(i)) || (w.lock == Some(i) && w'.lock == None)
    ensures forall j :: 0 <= j < |w'.procs| ==> ProcInv(codec, w', j)
  {
    forall j | 0 <= j < |w'.procs| ensures ProcInv(codec, w', j) {
      assert ProcInv(codec, w, j);
    }
  }

  lemma QuietLog(w: World, w': World, i: nat)
    requires LogInv(w) && Reported(w) && Runs(w, i) && w'.log == w.log
    requires |w'.procs| == |w.procs| && w'.procs[i].op == w.procs[i].op
    requires SavedAlike(w.procs[i].pc, w'.procs[i].pc)
    requires forall j :: 0 <= j < |w.procs| && j != i ==> w'.procs[j] == w.procs[j]
    ensures LogInv(w') && Reported(w')
  {
  }

  lemma RenameKeepsLog(w: World, w': World, i: nat)
    requires LogInv(w) && Reported(w) && i < |w.procs| && w.procs[i].pc.Rename?
    requires w'.procs == w.procs[i := w.procs[i].(pc := Unlock)]
    requires w'.log == w.log + [Commit(i, w.procs[i].op)]
    ensures LogInv(w') && Reported(w')
  {
    forall k | 0 <= k < |w.log| ensures w.log[k].proc != i {
    }
    assert w'.log[|w.log|] == Commit(i, w.procs[i].op);
    forall j | 0 <= j < |w'.procs| && Reports(w'.procs[j].pc)
      ensures Commit(j, w'.procs[j].op) in w'.log
    {
      if j != i {
        assert Commit(j, w.procs[j].op) in w.log;
      }
    }
  }

  lemma CommitKeepsDisk(codec: Codec, initial: Disk, disk: Disk, log: seq<Commit>, commit: Commit, next: File)
    requires DiskInv(codec, initial, disk, log) && Meant(codec, disk, commit.op, next) && Parsed(codec, commit.op)
    requires ReadsBack(codec)
    ensures DiskInv(codec, initial, codec.write(next), log + [commit])
  {
    ReplayMore(codec, codec.read(initial).value, log, commit);
  }

  lemma RenameKeepsInv(codec: Codec, initial: Disk, w: World, i: nat)
    requires ReadsBack(codec) && Inv(codec, initial, w) && Runs(w, i) && w.procs[i].pc.Rename?
    ensures Inv(codec, initial, Advance(codec, w, i, true))
  {
    var w' := Advance(codec, w, i, true);
    assert ProcInv(codec, w, i);
    assert Parsed(codec, w.procs[i].op);
    SameOps(codec, w, w');
    CommitKeepsDisk(codec, initial, w.disk, w.log, Commit(i, w.procs[i].op), w.procs[i].pc.next);
    RenameKeepsLog(w, w', i);
    RenameKeepsProcs(codec, w, w', i);
  }

  // Nobody else is between taking the lock and releasing it.
  lemma RenameKeepsProcs(codec: Codec, w: World, w': World, i: nat)
    requires i < |w.procs| && w.lock == Some(i) && w'.lock == w.lock
    requires w'.procs == w.procs[i := w.procs[i].(pc := Unlock)]
    requires forall j :: 0 <= j < |w.procs| ==> ProcInv(codec, w, j)
    ensures forall j :: 0 <= j < |w'.procs| ==> ProcInv(codec, w', j)
  {
    forall j | 0 <= j < |w'.procs| ensures ProcInv(codec, w', j) {
      assert ProcInv(codec, w, j);
    }
  }

  lemma ReplayMore(codec: Codec, f: File, log: seq<Commit>, commit: Commit)
    ensures Replay(codec, f, log + [commit]) == ApplyOp(codec, Replay(codec, f, log), commit.op)
  {
    assert (log + [commit])[..|log|] == log;
  }

  // What process i does leaves its own promises.
  lemma AdvanceKeepsProc(codec: Codec, w: World, i: nat, ok: bool)
    requires Runs(w, i) && ProcInv(codec, w, i) && !(w.procs[i].pc.Rename? && ok)
    ensures ProcInv(codec, Advance(codec, w, i, ok), i)
  {
  }

  // Until the rename it touches nothing else but the lock.
  lemma AdvanceIsQuiet(codec: Codec, w: World, w': World, i: nat, ok: bool)
    requires Runs(w, i) && ProcInv(codec, w, i) && !(w.procs[i].pc.Rename? && ok) && w' == Advance(codec, w, i, ok)
    ensures SameFile(w, w') && |w'.procs| == |w.procs| && w'.procs[i].op == w.procs[i].op
    ensures forall j :: 0 <= j < |w.procs| && j != i ==> w'.procs[j] == w.procs[j]
    ensures SavedAlike(w.procs[i].pc, w'.procs[i].pc)
    ensures w'.lock == w.lock || (w.lock == None && w'.lock == Some(i)) || (w.lock == Some(i) && w'.lock == None)
  {
  }

  lemma AdvanceKeepsInv(codec: Codec, initial: Disk, w: World, i: nat, ok: bool)
    requires ReadsBack(codec) && Inv(codec, initial, w) && Runs(w, i)
    ensures Inv(codec, initial, Advance(codec, w, i, ok))
  {
    if w.procs[i].pc.Rename? && ok {
      RenameKeepsInv(codec, initial, w, i);
    } else {
      assert ProcInv(codec, w, i);
      AdvanceKeepsProc(codec, w, i, ok);
      AdvanceIsQuiet(codec, w, Advance(codec, w, i, ok), i, ok);
      QuietStepKeepsInv(codec, initial, w, Advance(codec, w, i, ok), i);
    }
  }

  lemma KillKeepsInv(codec: Codec, initial: Disk, w: World, i: nat)
    requires Inv(codec, initial, w) && Runs(w, i)
    ensures Inv(codec, initial, Step(codec, w, Kill(i)))
  {
    assert ProcInv(codec, w, i);
    QuietStepKeepsInv(codec, initial, w, Step(codec, w, Kill(i)), i);
  }

  lemma SpawnKeepsInv(codec: Codec, initial: Disk, w: World, op: Op)
    requires Inv(codec, initial, w) && Parsed(codec, op)
    ensures Inv(codec, initial, Spawned(w, op))
  {
    SpawnKeepsProcs(codec, w, Spawned(w, op), op);
    SpawnKeepsLog(codec, w, Spawned(w, op), op);
  }

  lemma SpawnKeepsProcs(codec: Codec, w: World, w': World, op: Op)
    requires forall j :: 0 <= j < |w.procs| ==> ProcInv(codec, w, j)
    requires w' == Spawned(w, op)
    ensures forall j :: 0 <= j < |w'.procs| ==> ProcInv(codec, w', j)
  {
    forall j | 0 <= j < |w'.procs| ensures ProcInv(codec, w', j) {
      if j < |w.procs| {
        assert ProcInv(codec, w, j);
      }
    }
  }

  lemma SpawnKeepsLog(codec: Codec, w: World, w': World, op: Op)
    requires LogInv(w) && Reported(w) && AllParsed(codec, w) && Parsed(codec, op) && w' == Spawned(w, op)
    ensures LogInv(w') && Reported(w') && AllParsed(codec, w')
  {
    forall j | 0 <= j < |w'.procs| ensures Parsed(codec, w'.procs[j].op) {
      if j < |w.procs| {
        assert Parsed(codec, w.procs[j].op);
      }
    }
  }

  lemma PowerLossKeepsInv(codec: Codec, initial: Disk, w: World)
    requires Inv(codec, initial, w)
    ensures Inv(codec, initial, Step(codec, w, PowerLoss))
  {
    NobodyHolds(codec, w, Step(codec, w, PowerLoss));
    PowerLossKeepsLog(w, Step(codec, w, PowerLoss));
    SameOps(codec, w, Step(codec, w, PowerLoss));
  }

  lemma NobodyHolds(codec: Codec, w: World, w': World)
    requires w'.procs == KillAll(w.procs)
    ensures forall j :: 0 <= j < |w'.procs| ==> ProcInv(codec, w', j)
  {
    forall j | 0 <= j < |w'.procs| ensures ProcInv(codec, w', j) {
      assert !Locked(w'.procs[j].pc);
    }
  }

  lemma PowerLossKeepsLog(w: World, w': World)
    requires LogInv(w) && Reported(w) && w'.procs == KillAll(w.procs) && w'.log == w.log
    ensures LogInv(w') && Reported(w')
  {
  }

  lemma StepKeepsInv(codec: Codec, initial: Disk, w: World, e: Event)
    requires ReadsBack(codec) && Inv(codec, initial, w) && Enabled(w, e)
    ensures Inv(codec, initial, Step(codec, w, e))
  {
    match e
    case SpawnImport(doc, context, cluster) =>
      if codec.read(Holds(doc)).Some? {
        SpawnKeepsInv(codec, initial, w, Import(codec.read(Holds(doc)).value, context, cluster));
      }
    case SpawnCleanup(context, cluster) => SpawnKeepsInv(codec, initial, w, Cleanup(context, cluster));
    case Effect(i, ok) => AdvanceKeepsInv(codec, initial, w, i, ok);
    case Kill(i) => KillKeepsInv(codec, initial, w, i);
    case PowerLoss => PowerLossKeepsInv(codec, initial, w);
  }

  ghost predicate IsStep(codec: Codec, worlds: seq<World>, events: seq<Event>, i: nat)
    requires i < |events| && |worlds| == |events| + 1
  {
    Enabled(worlds[i], events[i]) && worlds[i + 1] == Step(codec, worlds[i], events[i])
  }

  ghost predicate IsRun(codec: Codec, initial: Disk, worlds: seq<World>, events: seq<Event>) {
    && |worlds| == |events| + 1 && Initial(initial, worlds[0])
    && forall i :: 0 <= i < |events| ==> IsStep(codec, worlds, events, i)
  }

  lemma {:induction false} RunKeepsInv(codec: Codec, initial: Disk, worlds: seq<World>, events: seq<Event>, n: nat)
    requires ReadsBack(codec) && IsRun(codec, initial, worlds, events) && n < |worlds|
    ensures Inv(codec, initial, worlds[n])
    decreases n
  {
    if n > 0 {
      RunKeepsInv(codec, initial, worlds, events, n - 1);
      assert IsStep(codec, worlds, events, n - 1);
      StepKeepsInv(codec, initial, worlds[n - 1], events[n - 1]);
    }
  }

  // At every moment of every run, whatever crashed: the file is as it was found,
  // or one complete save that reads as the committed operations applied in the
  // order they took the lock, each by a different process, among them every
  // process that reported a save.
  lemma AlwaysTheCommittedOperations(codec: Codec, initial: Disk, worlds: seq<World>, events: seq<Event>, n: nat)
    requires ReadsBack(codec) && IsRun(codec, initial, worlds, events) && n < |worlds|
    ensures worlds[n].log == [] ==> worlds[n].disk == initial
    ensures var w, f := worlds[n], codec.read(initial);
            && (w.log != [] ==> f.Some? && w.disk == codec.write(Replay(codec, f.value, w.log)))
            && (f.Some? ==> codec.read(w.disk) == Some(Replay(codec, f.value, w.log)))
    ensures Committed(worlds[n])
  {
    RunKeepsInv(codec, initial, worlds, events, n);
    CommittedAre(worlds[n]);
  }

  // The processes of the log are different ones. Every process that reported a
  // save is among them, and each of them that neither reported nor is about to
  // is dead.
  ghost predicate Committed(w: World) {
    && (forall j, k :: 0 <= j < k < |w.log| ==> w.log[j].proc != w.log[k].proc)
    && (forall i :: 0 <= i < |w.procs| && Reports(w.procs[i].pc) ==> Commit(i, w.procs[i].op) in w.log)
    && (forall i :: 0 <= i < |w.procs| && Commit(i, w.procs[i].op) in w.log ==> HasSaved(w.procs[i].pc))
  }

  lemma CommittedAre(w: World)
    requires LogInv(w) && Reported(w)
    ensures Committed(w)
  {
    forall i | 0 <= i < |w.procs| && Commit(i, w.procs[i].op) in w.log
      ensures HasSaved(w.procs[i].pc)
    {
    }
  }

  // Event m ends process i after its rename and before its report.
  predicate CutsOff(w: World, e: Event, i: nat) {
    i < |w.procs| && w.procs[i].pc.Unlock? && (e == Kill(i) || e.PowerLoss?)
  }

  ghost predicate CutOff(worlds: seq<World>, events: seq<Event>, n: nat, i: nat)
    requires n <= |events| && |worlds| == |events| + 1
  {
    exists m :: 0 <= m < n && CutsOff(worlds[m], events[m], i)
  }

  ghost predicate Logged(w: World, i: nat)
    requires i < |w.procs|
  {
    Commit(i, w.procs[i].op) in w.log
  }

  // Over a run: a process has committed if and only if it reported that, is about
  // to, or was killed between the two.
  lemma {:induction false} CommittedIff(codec: Codec, initial: Disk, worlds: seq<World>, events: seq<Event>,
                                        n: nat, i: nat)
    requires ReadsBack(codec) && IsRun(codec, initial, worlds, events) && n < |worlds|
    ensures i < |worlds[n].procs| ==>
              (Logged(worlds[n], i) <==> Reports(worlds[n].procs[i].pc) || CutOff(worlds, events, n, i))
    ensures CutOff(worlds, events, n, i) ==> i < |worlds[n].procs|
    decreases n
  {
    if n > 0 {
      var w, e := worlds[n - 1], events[n - 1];
      CommittedIff(codec, initial, worlds, events, n - 1, i);
      RunKeepsInv(codec, initial, worlds, events, n - 1);
      assert IsStep(codec, worlds, events, n - 1);
      if i < |w.procs| {
        StepLogs(codec, w, e, worlds[n], i);
      } else {
        NewProcess(codec, w, e, worlds[n], i);
      }
      OneMoreEvent(worlds, events, n - 1, i);
    }
  }

  lemma OneMoreEvent(worlds: seq<World>, events: seq<Event>, n: nat, i: nat)
    requires n < |events| && |worlds| == |events| + 1
    ensures CutOff(worlds, events, n + 1, i) <==> CutOff(worlds, events, n, i) || CutsOff(worlds[n], events[n], i)
  {
  }

  lemma NewProcess(codec: Codec, w: World, e: Event, w': World, i: nat)
    requires LogInv(w) && Enabled(w, e) && w' == Step(codec, w, e) && i >= |w.procs|
    ensures i < |w'.procs| ==> !Logged(w', i) && !Reports(w'.procs[i].pc)
  {
  }

  lemma StepLogs(codec: Codec, w: World, e: Event, w': World, i: nat)
    requires LogInv(w) && Reported(w) && Enabled(w, e) && w' == Step(codec, w, e) && i < |w.procs|
    ensures i < |w'.procs|
    ensures Logged(w', i) <==> Logged(w, i) || Reports(w'.procs[i].pc)
    ensures Reports(w.procs[i].pc) ==> Reports(w'.procs[i].pc) || CutsOff(w, e, i)
  {
    if e.Effect? {
      AdvanceLogs(codec, w, e.proc, e.ok, w', i);
    }
  }

  lemma AdvanceLogs(codec: Codec, w: World, acting: nat, ok: bool, w': World, i: nat)
    requires LogInv(w) && Reported(w) && Runs(w, acting) && w' == Advance(codec, w, acting, ok) && i < |w.procs|
    ensures i < |w'.procs|
    ensures Logged(w', i) <==> Logged(w, i) || Reports(w'.procs[i].pc)
    ensures Reports(w.procs[i].pc) ==> Reports(w'.procs[i].pc)
  {
    if w.procs[acting].pc.Rename? && ok {
      RenameLogs(w, acting, w', i);
    } else {
      assert w'.log == w.log;
    }
  }

  lemma RenameLogs(w: World, acting: nat, w': World, i: nat)
    requires acting < |w.procs| && i < |w.procs| && w'.log == w.log + [Commit(acting, w.procs[acting].op)]
    requires Reported(w) && w'.procs == w.procs[acting := w.procs[acting].(pc := Unlock)]
    ensures Logged(w', i) <==> Logged(w, i) || Reports(w'.procs[i].pc)
  {
    assert w'.log[|w.log|] == Commit(acting, w.procs[acting].op);
  }

  // ---------- An operation that nothing disturbs ----------

  // The next effects of process i, each of them a success.
  function Go(codec: Codec, w: World, i: nat, n: nat): World
    decreases n
  {
    if n == 0 || !Runs(w, i) then w else Go(codec, Advance(codec, w, i, true), i, n - 1)
  }

  // The world with one more process, where that one stands.
  function Joined(w: World, op: Op, pc: Pc, temp: Temp, lock: Option<nat>): World {
    w.(procs := w.procs + [Proc(op, pc, temp)], lock := lock)
  }

  lemma JoinedMoves(w: World, op: Op, pc: Pc, temp: Temp, lock: Option<nat>, pc': Pc, temp': Temp)
    ensures var i, j := |w.procs|, Joined(w, op, pc, temp, lock);
            && j.procs[i] == Proc(op, pc, temp)
            && Set(j, i, pc') == Joined(w, op, pc', temp, lock)
            && SetTemp(j, i, pc', temp') == Joined(w, op, pc', temp', lock)
            && Leave(j, i, pc') == Joined(w, op, pc', temp, None)
  {
    assert (w.procs + [Proc(op, pc, temp)])[|w.procs| := Proc(op, pc', temp)] == w.procs + [Proc(op, pc', temp)];
    assert (w.procs + [Proc(op, pc, temp)])[|w.procs| := Proc(op, pc', temp')] == w.procs + [Proc(op, pc', temp')];
  }

  // The world with the file saved, for a process that is to join it.
  function Committing(codec: Codec, w: World, op: Op, next: File): World {
    w.(disk := codec.write(next), synced := true, log := w.log + [Commit(|w.procs|, op)])
  }

  // Saving, from a decided file on.
  lemma Saving(codec: Codec, w: World, op: Op, next: File)
    ensures var i := |w.procs|;
            Go(codec, Joined(w, op, CreateTemp(next), NO_TEMP, Some(i)), i, 5) ==
            Joined(Committing(codec, w, op, next), op, Succeeded(true), Temp(codec.write(next), true), None)
  {
    var i, out := |w.procs|, codec.write(next);
    var w0 := Joined(w, op, CreateTemp(next), NO_TEMP, Some(i));
    var w1 := Joined(w, op, WriteTemp(next), Temp(Unparsable, false), Some(i));
    var w2 := Joined(w, op, SyncTemp(next), Temp(out, false), Some(i));
    var w3 := Joined(w, op, Rename(next), Temp(out, true), Some(i));
    JoinedMoves(w, op, CreateTemp(next), NO_TEMP, Some(i), WriteTemp(next), Temp(Unparsable, false));
    assert Advance(codec, w0, i, true) == w1;
    JoinedMoves(w, op, WriteTemp(next), Temp(Unparsable, false), Some(i), SyncTemp(next), Temp(out, false));
    assert Advance(codec, w1, i, true) == w2;
    JoinedMoves(w, op, SyncTemp(next), Temp(out, false), Some(i), Rename(next), Temp(out, true));
    assert Advance(codec, w2, i, true) == w3;
    assert Go(codec, w0, i, 5) == Go(codec, w1, i, 4) == Go(codec, w2, i, 3) == Go(codec, w3, i, 2);
    Finishing(codec, w, op, next);
  }

  lemma Finishing(codec: Codec, w: World, op: Op, next: File)
    ensures var i, temp := |w.procs|, Temp(codec.write(next), true);
            Go(codec, Joined(w, op, Rename(next), temp, Some(i)), i, 2) ==
            Joined(Committing(codec, w, op, next), op, Succeeded(true), temp, None)
  {
    var i, temp := |w.procs|, Temp(codec.write(next), true);
    var after := Committing(codec, w, op, next);
    var w3 := Joined(w, op, Rename(next), temp, Some(i));
    var w4 := Joined(after, op, Unlock, temp, Some(i));
    var w5 := Joined(after, op, Succeeded(true), temp, None);
    JoinedMoves(w, op, Rename(next), temp, Some(i), Unlock, temp);
    assert Advance(codec, w3, i, true) == w4;
    JoinedMoves(after, op, Unlock, temp, Some(i), Succeeded(true), temp);
    assert Advance(codec, w4, i, true) == w5;
    assert Go(codec, w5, i, 0) == w5 && Go(codec, w4, i, 1) == w5 && Go(codec, w3, i, 2) == w5;
  }

  // What one operation comes to when nobody has the lock: a cleanup with no file
  // and one with nothing of its names do nothing, a file that cannot be read is
  // refused and left alone, and otherwise the result is saved and reported. The
  // lock is free again, and nobody else is touched.
  lemma OneOperation(codec: Codec, w: World, op: Op)
    requires w.lock.None?
    ensures var i, end := |w.procs|, Go(codec, Spawned(w, op), |w.procs|, 8);
            && |end.procs| == i + 1 && end.procs[..i] == w.procs && end.procs[i].op == op && end.lock.None?
            && if op.Cleanup? && w.disk.Absent? then
                 end.procs[i].pc == Succeeded(false) && SameFile(w, end)
               else match codec.read(w.disk)
                 case None => end.procs[i].pc == Failed && SameFile(w, end)
                 case Some(f) =>
                   match codec.result(op, f)
                   case None => end.procs[i].pc == Succeeded(false) && SameFile(w, end)
                   case Some(next) =>
                     && end.procs[i].pc == Succeeded(true) && end.disk == codec.write(next) && end.synced
                     && end.log == w.log + [Commit(i, op)]
  {
    var i := |w.procs|;
    var w0 := Joined(w, op, Start, NO_TEMP, None);
    assert Spawned(w, op) == w0;
    JoinedMoves(w, op, Start, NO_TEMP, None, Succeeded(false), NO_TEMP);
    JoinedMoves(w, op, Start, NO_TEMP, None, WaitLock, NO_TEMP);
    if op.Cleanup? && w.disk.Absent? {
      var w1 := Joined(w, op, Succeeded(false), NO_TEMP, None);
      assert Go(codec, w0, i, 8) == Go(codec, w1, i, 7) == w1;
    } else {
      var w1 := Joined(w, op, WaitLock, NO_TEMP, None);
      assert Go(codec, w0, i, 8) == Go(codec, w1, i, 7);
      Locking(codec, w, op);
    }
  }

  lemma Locking(codec: Codec, w: World, op: Op)
    requires w.lock.None?
    ensures var i, end := |w.procs|, Go(codec, Joined(w, op, WaitLock, NO_TEMP, None), |w.procs|, 7);
            && |end.procs| == i + 1 && end.procs[..i] == w.procs && end.procs[i].op == op && end.lock.None?
            && match codec.read(w.disk)
               case None => end.procs[i].pc == Failed && SameFile(w, end)
               case Some(f) =>
                 match codec.result(op, f)
                 case None => end.procs[i].pc == Succeeded(false) && SameFile(w, end)
                 case Some(next) =>
                   && end.procs[i].pc == Succeeded(true) && end.disk == codec.write(next) && end.synced
                   && end.log == w.log + [Commit(i, op)]
  {
    var i := |w.procs|;
    var w1 := Joined(w, op, WaitLock, NO_TEMP, None);
    var w2 := Joined(w, op, Load, NO_TEMP, Some(i));
    JoinedMoves(w, op, WaitLock, NO_TEMP, None, Load, NO_TEMP);
    assert Advance(codec, w1, i, true) == w2 && Go(codec, w1, i, 7) == Go(codec, w2, i, 6);
    JoinedMoves(w, op, Load, NO_TEMP, Some(i), Failed, NO_TEMP);
    JoinedMoves(w, op, Load, NO_TEMP, Some(i), Succeeded(false), NO_TEMP);
    if codec.read(w.disk).None? {
      var w3 := Joined(w, op, Failed, NO_TEMP, None);
      assert Go(codec, w2, i, 6) == Go(codec, w3, i, 5) == w3;
    } else if codec.result(op, codec.read(w.disk).value).None? {
      var w3 := Joined(w, op, Succeeded(false), NO_TEMP, None);
      assert Go(codec, w2, i, 6) == Go(codec, w3, i, 5) == w3;
    } else {
      var next := codec.result(op, codec.read(w.disk).value).value;
      JoinedMoves(w, op, Load, NO_TEMP, Some(i), CreateTemp(next), NO_TEMP);
      Saving(codec, w, op, next);
    }
  }

  // ---------- A commit that is not reported ----------

  // One more event.
  lemma Then(codec: Codec, initial: Disk, worlds: seq<World>, events: seq<Event>, e: Event)
    returns (worlds': seq<World>, events': seq<Event>)
    requires IsRun(codec, initial, worlds, events) && Enabled(worlds[|events|], e)
    ensures IsRun(codec, initial, worlds', events') && |events'| == |events| + 1
    ensures worlds'[|events'|] == Step(codec, worlds[|events|], e)
  {
    worlds', events' := worlds + [Step(codec, worlds[|events|], e)], events + [e];
    forall i | 0 <= i < |events'| ensures IsStep(codec, worlds', events', i) {
      if i < |events| {
        assert IsStep(codec, worlds, events, i);
      }
    }
  }

  function Alone(op: Op, disk: Disk, lock: Option<nat>, pc: Pc, temp: Temp, log: seq<Commit>): World {
    World(disk, true, lock, [Proc(op, pc, temp)], log)
  }

  // An import killed right after its rename: the file is saved, and nobody was
  // told.
  lemma UnreportedWitness(codec: Codec, initial: Disk, doc: Object, op: Op, next: File)
    returns (worlds: seq<World>, events: seq<Event>)
    requires op.Import? && codec.read(Holds(doc)) == Some(op.raw) && Meant(codec, initial, op, next)
    ensures IsRun(codec, initial, worlds, events)
    ensures worlds[|events|] == Alone(op, codec.write(next), None, Dead, Temp(codec.write(next), true), [Commit(0, op)])
  {
    worlds, events := [World(initial, true, None, [], [])], [];
    worlds, events := Then(codec, initial, worlds, events, SpawnImport(doc, op.context, op.cluster));
    assert [] + [Proc(op, Start, NO_TEMP)] == [Proc(op, Start, NO_TEMP)];
    worlds, events := Then(codec, initial, worlds, events, Effect(0, true));
    worlds, events := Then(codec, initial, worlds, events, Effect(0, true));
    worlds, events := Then(codec, initial, worlds, events, Effect(0, true));
    assert worlds[|events|] == Alone(op, initial, Some(0), CreateTemp(next), NO_TEMP, []);
    worlds, events := SaveAndDie(codec, initial, worlds, events, op, next);
  }

  lemma SaveAndDie(codec: Codec, initial: Disk, worlds: seq<World>, events: seq<Event>, op: Op, next: File)
    returns (worlds': seq<World>, events': seq<Event>)
    requires IsRun(codec, initial, worlds, events)
    requires worlds[|events|] == Alone(op, initial, Some(0), CreateTemp(next), NO_TEMP, [])
    ensures IsRun(codec, initial, worlds', events')
    ensures worlds'[|events'|]
         == Alone(op, codec.write(next), None, Dead, Temp(codec.write(next), true), [Commit(0, op)])
  {
    worlds', events' := Then(codec, initial, worlds, events, Effect(0, true));
    worlds', events' := Then(codec, initial, worlds', events', Effect(0, true));
    worlds', events' := Then(codec, initial, worlds', events', Effect(0, true));
    var temp := Temp(codec.write(next), true);
    assert worlds'[|events'|] == Alone(op, initial, Some(0), Rename(next), temp, []);
    worlds', events' := Then(codec, initial, worlds', events', Effect(0, true));
    assert [] + [Commit(0, op)] == [Commit(0, op)];
    assert worlds'[|events'|] == Alone(op, codec.write(next), Some(0), Unlock, temp, [Commit(0, op)]);
    worlds', events' := Then(codec, initial, worlds', events', Kill(0));
  }
}
