/** pkg/kubeconfig/kubeconfig.go: the kubeconfig as a locked store. What Load and
    Save do to a document is part of every operation here. */
module KubeStore {
  import opened Wrappers
  import opened KubeCodec
  import opened KubeFile
  import opened LockedStore

  function Empty(): File {
    File(Record(map[ApiVersion := Text("v1"), FileKind := Text("Config"),
                    CurrentContext := Text(""), Preferences := Obj(map[])], map[]), [], [], [])
  }

  // Load
  function Read(disk: Disk): Option<File> {
    match disk
    case Absent => Some(Empty())
    case Holds(doc) => Parse(doc)
    case Unparsable => None
  }

  // What Save leaves at a path.
  function Written(f: File): Disk {
    Holds(Saved(f))
  }

  // What the operation saves over the file, if it saves.
  function Result(op: Op, base: File): Option<File> {
    match op
    case Import(raw, context, cluster) => Some(Imported(base, raw, context, cluster))
    case Cleanup(context, cluster) => CleanedUp(base, context, cluster)
  }

  const KUBE: Codec := Codec(Read, Written, Result)

  // No file and an empty one read as the same: nothing but the version and kind.
  lemma EmptyReads()
    ensures Read(Absent) == Read(Holds(map[])) && Read(Absent).Some?
    ensures var f := Read(Absent).value;
            && f.clusters == [] && f.contexts == [] && f.users == [] && f.head.unknown == map[]
            && f.head.known[ApiVersion] == Text("v1") && f.head.known[FileKind] == Text("Config")
            && f.head.known[CurrentContext] == Text("")
  {
    var none: Object := map[];
    assert none - LISTS == none;
    assert ItemsOf(Clusters, none) == [] && ItemsOf(Contexts, none) == [] && ItemsOf(Users, none) == [];
    assert DecodeEntries(ClusterKey, CLUSTER_SCHEMA, []) == [] && DecodeEntries(ContextKey, CONTEXT_SCHEMA, []) == [];
    assert DecodeEntries(UserKey, USER_SCHEMA, []) == [];
    assert Parsable(none);
    EmptyHead(none);
    assert Parse(none) == Some(Empty());
  }

  lemma EmptyHead(none: Object)
    requires none == map[]
    ensures HeadOf(none) == Empty().head
  {
    var known := KnownOf(HEAD_SCHEMA, none);
    assert known == map[ApiVersion := Text(""), FileKind := Text(""),
                        CurrentContext := Text(""), Preferences := Obj(map[])];
    assert HeadOf(none).known == Empty().head.known;
  }

  // ---------- The codec between two operations ----------

  lemma ReadIsWellFormed(disk: Disk)
    requires Read(disk).Some?
    ensures KubeCodec.WellFormed(Read(disk).value)
  {
    if disk.Holds? {
      ParseIsWellFormed(disk.doc, Read(disk).value);
    }
  }

  lemma ResultIsWellFormed(op: Op, base: File)
    requires KubeCodec.WellFormed(base) && Result(op, base).Some?
    requires op.Import? ==> KubeCodec.WellFormed(op.raw)
    ensures KubeCodec.WellFormed(Result(op, base).value)
  {
    match op
    case Import(raw, context, cluster) =>
      ImportSavesWellFormed(base, raw, context, cluster);
    case Cleanup(context, cluster) =>
      CleanupSavesWellFormed(base, context, cluster);
  }

  // What an operation saves reads back as what it meant to save.
  lemma ResultReadsBack(disk: Disk, op: Op, next: File)
    requires Read(disk).Some? && Result(op, Read(disk).value) == Some(next)
    requires op.Import? ==> exists doc :: Parse(doc) == Some(op.raw)
    ensures Read(Written(next)) == Some(next)
  {
    ReadIsWellFormed(disk);
    if op.Import? {
      var doc :| Parse(doc) == Some(op.raw);
      ParseIsWellFormed(doc, op.raw);
    }
    ResultIsWellFormed(op, Read(disk).value);
    SaveThenParse(next);
  }

  lemma KubeReadsBack()
    ensures ReadsBack(KUBE)
  {
    forall disk, op, next | Parsed(KUBE, op) && Meant(KUBE, disk, op, next)
      ensures KUBE.read(KUBE.write(next)) == Some(next)
    {
      KubeResultReadsBack(disk, op, next);
    }
  }

  lemma KubeResultReadsBack(disk: Disk, op: Op, next: File)
    requires Parsed(KUBE, op) && Meant(KUBE, disk, op, next)
    ensures KUBE.read(KUBE.write(next)) == Some(next)
  {
    if op.Import? {
      var doc :| KUBE.read(Holds(doc)) == Some(op.raw);
      assert Parse(doc) == Some(op.raw);
    }
    ResultReadsBack(disk, op, next);
  }

  // Whatever was committed reads back as itself: the kubeconfig of every moment
  // of every run is the committed operations over the file that was there.
  lemma KubeconfigReads(initial: Disk, worlds: seq<World>, events: seq<Event>, n: nat)
    requires IsRun(KUBE, initial, worlds, events) && n < |worlds| && Read(initial).Some?
    ensures Read(worlds[n].disk) == Some(Replay(KUBE, Read(initial).value, worlds[n].log))
  {
    KubeReadsBack();
    AlwaysTheCommittedOperations(KUBE, initial, worlds, events, n);
  }

  // ---------- What the committed operations keep ----------

  // An import has one default of each.
  predicate SingleOp(op: Op) {
    op.Import? ==> Single(op.raw)
  }

  ghost predicate SingleImports(log: seq<Commit>) {
    forall k :: 0 <= k < |log| ==> SingleOp(log[k].op)
  }

  // An operation looks up everything of another name as before.
  lemma OpKeepsForeign(f: File, op: Op, context: string, cluster: string)
    requires SingleOp(op)
    ensures var g := ApplyOp(KUBE, f, op);
            && (op.context != context ==> Lookup(g.contexts, context) == Lookup(f.contexts, context))
            && (op.cluster != cluster ==> Lookup(g.clusters, cluster) == Lookup(f.clusters, cluster))
            && (op.cluster != cluster ==> Lookup(g.users, cluster) == Lookup(f.users, cluster))
  {
    match op
    case Import(raw, c, d) =>
      ImportKeepsForeign(f, raw, c, d, context, cluster);
    case Cleanup(c, d) =>
      if c != context {
        LookupRemove(f.contexts, c, context);
      }
      if d != cluster {
        LookupRemove(f.clusters, d, cluster);
        LookupRemove(f.users, d, cluster);
      }
  }

  lemma ImportKeepsForeign(f: File, raw: File, c: string, d: string, context: string, cluster: string)
    requires Single(raw)
    ensures var g := Imported(f, raw, c, d);
            && (c != context ==> Lookup(g.contexts, context) == Lookup(f.contexts, context))
            && (d != cluster ==> Lookup(g.clusters, cluster) == Lookup(f.clusters, cluster))
            && (d != cluster ==> Lookup(g.users, cluster) == Lookup(f.users, cluster))
  {
    SingleImport(f, raw, c, d);
    LookupUpsert(f.contexts, Entry(c, Pointing(raw.contexts[0].body, d)), context);
    LookupUpsert(f.clusters, Entry(d, raw.clusters[0].body), cluster);
    LookupUpsert(f.users, Entry(d, raw.users[0].body), cluster);
  }

  // What no operation is about: entries of foreign names, in their order, and
  // the top-level keys the code does not know.
  ghost predicate SameForeign(f: File, g: File, foreign: string -> bool) {
    && Keep(g.contexts, foreign) == Keep(f.contexts, foreign)
    && Keep(g.clusters, foreign) == Keep(f.clusters, foreign)
    && Keep(g.users, foreign) == Keep(f.users, foreign)
    && g.head.unknown == f.head.unknown
  }

  lemma OpKeepsForeignOrder(f: File, op: Op, foreign: string -> bool)
    requires SingleOp(op) && !foreign(op.context) && !foreign(op.cluster)
    ensures SameForeign(f, ApplyOp(KUBE, f, op), foreign)
  {
    match op
    case Import(raw, c, d) =>
      ImportKeepsForeignOrder(f, raw, c, d, foreign);
    case Cleanup(c, d) =>
      if CleanedUp(f, c, d).Some? {
        CleanupKeepsForeignOrder(f, c, d, foreign);
      }
  }

  lemma CleanupKeepsForeignOrder(f: File, c: string, d: string, foreign: string -> bool)
    requires !foreign(c) && !foreign(d) && CleanedUp(f, c, d).Some?
    ensures SameForeign(f, CleanedUp(f, c, d).value, foreign)
  {
    KeepRemove(f.contexts, c, foreign);
    KeepRemove(f.clusters, d, foreign);
    KeepRemove(f.users, d, foreign);
  }

  lemma ImportKeepsForeignOrder(f: File, raw: File, c: string, d: string, foreign: string -> bool)
    requires Single(raw) && !foreign(c) && !foreign(d)
    ensures SameForeign(f, Imported(f, raw, c, d), foreign)
  {
    SingleImport(f, raw, c, d);
    KeepUpsert(f.contexts, Entry(c, Pointing(raw.contexts[0].body, d)), foreign);
    KeepUpsert(f.clusters, Entry(d, raw.clusters[0].body), foreign);
    KeepUpsert(f.users, Entry(d, raw.users[0].body), foreign);
  }

  // The import's context, cluster and user are in the file as imported.
  ghost predicate HasImport(f: File, raw: File, context: string, cluster: string)
    requires Single(raw)
  {
    && Lookup(f.contexts, context).Some?
    && PointsAt(Lookup(f.contexts, context).value, raw.contexts[0].body, cluster)
    && Lookup(f.clusters, cluster) == Some(raw.clusters[0].body)
    && Lookup(f.users, cluster) == Some(raw.users[0].body)
  }

  lemma ImportStays(f: File, op: Op, next: File, raw: File, context: string, cluster: string)
    requires Single(raw) && HasImport(f, raw, context, cluster) && SingleOp(op) && next == ApplyOp(KUBE, f, op)
    requires op.context != context && op.cluster != cluster
    ensures HasImport(next, raw, context, cluster)
  {
    OpKeepsForeign(f, op, context, cluster);
  }

  lemma ImportIsThere(f: File, op: Op, next: File)
    requires op.Import? && Single(op.raw) && next == ApplyOp(KUBE, f, op)
    ensures HasImport(next, op.raw, op.context, op.cluster)
  {
    var raw, context, cluster := op.raw, op.context, op.cluster;
    SingleImport(f, raw, context, cluster);
    LookupUpsert(f.contexts, Entry(context, Pointing(raw.contexts[0].body, cluster)), context);
    LookupUpsert(f.clusters, Entry(cluster, raw.clusters[0].body), cluster);
    LookupUpsert(f.users, Entry(cluster, raw.users[0].body), cluster);
  }

  // Every commit after that one is of other names.
  ghost predicate NamesAreFree(log: seq<Commit>, j: nat, context: string, cluster: string) {
    forall k :: j < k < |log| ==> log[k].op.context != context && log[k].op.cluster != cluster
  }

  // No committed import is lost: it is there unless a later operation uses its
  // names.
  lemma {:induction false} ImportIsKept(f: File, log: seq<Commit>, j: nat, op: Op)
    requires j < |log| && log[j].op == op && op.Import? && Single(op.raw)
    requires SingleImports(log) && NamesAreFree(log, j, op.context, op.cluster)
    ensures HasImport(Replay(KUBE, f, log), op.raw, op.context, op.cluster)
    decreases |log|
  {
    var before := log[..|log| - 1];
    if j < |before| {
      FewerCommits(log, before, j, op.context, op.cluster);
      ImportIsKept(f, before, j, op);
      StaysLogged(f, log, before, op);
    } else {
      assert log[|log| - 1] == log[j];
      ImportIsThere(Replay(KUBE, f, before), op, Replay(KUBE, f, log));
    }
  }

  lemma StaysLogged(f: File, log: seq<Commit>, before: seq<Commit>, op: Op)
    requires log != [] && before == log[..|log| - 1] && op.Import? && Single(op.raw)
    requires HasImport(Replay(KUBE, f, before), op.raw, op.context, op.cluster) && SingleOp(log[|log| - 1].op)
    requires log[|log| - 1].op.context != op.context && log[|log| - 1].op.cluster != op.cluster
    ensures HasImport(Replay(KUBE, f, log), op.raw, op.context, op.cluster)
  {
    ImportStays(Replay(KUBE, f, before), log[|log| - 1].op, Replay(KUBE, f, log), op.raw, op.context, op.cluster);
  }

  lemma FewerCommits(log: seq<Commit>, before: seq<Commit>, j: nat, context: string, cluster: string)
    requires log != [] && before == log[..|log| - 1] && j < |before|
    requires SingleImports(log) && NamesAreFree(log, j, context, cluster)
    ensures before[j] == log[j] && SingleImports(before) && NamesAreFree(before, j, context, cluster)
    ensures SingleOp(log[|log| - 1].op)
    ensures log[|log| - 1].op.context != context && log[|log| - 1].op.cluster != cluster
  {
    forall k | 0 <= k < |before| ensures before[k] == log[k] {
    }
  }

  // What is foreign stays as it was, in order.
  lemma {:induction false} ForeignIsKept(f: File, log: seq<Commit>, foreign: string -> bool)
    requires SingleImports(log)
    requires forall k :: 0 <= k < |log| ==> !foreign(log[k].op.context) && !foreign(log[k].op.cluster)
    ensures SameForeign(f, Replay(KUBE, f, log), foreign)
    decreases |log|
  {
    if log != [] {
      var before := log[..|log| - 1];
      forall k | 0 <= k < |before| ensures before[k] == log[k] {
      }
      ForeignIsKept(f, before, foreign);
      OpKeepsForeignOrder(Replay(KUBE, f, before), log[|log| - 1].op, foreign);
    }
  }

  // The imports of the processes carry one default of each.
  ghost predicate SingleProcs(w: World) {
    forall j :: 0 <= j < |w.procs| ==> SingleOp(w.procs[j].op)
  }

  lemma LogIsSingle(w: World)
    requires LogInv(w) && SingleProcs(w)
    ensures SingleImports(w.log)
  {
    forall k | 0 <= k < |w.log| ensures SingleOp(w.log[k].op) {
      assert SingleOp(w.procs[w.log[k].proc].op);
    }
  }

  // At every moment of every run whose processes use other names, what was in
  // the kubeconfig is still there.
  lemma ForeignSurvives(initial: Disk, worlds: seq<World>, events: seq<Event>, n: nat, foreign: string -> bool)
    requires IsRun(KUBE, initial, worlds, events) && n < |worlds| && Read(initial).Some? && SingleProcs(worlds[n])
    requires forall j :: 0 <= j < |worlds[n].procs| ==>
               !foreign(worlds[n].procs[j].op.context) && !foreign(worlds[n].procs[j].op.cluster)
    ensures Read(worlds[n].disk).Some?
    ensures SameForeign(Read(initial).value, Read(worlds[n].disk).value, foreign)
  {
    KubeReadsBack();
    RunKeepsInv(KUBE, initial, worlds, events, n);
    KubeconfigReads(initial, worlds, events, n);
    LogIsSingle(worlds[n]);
    LogIsForeign(worlds[n], foreign);
    ForeignIsKept(Read(initial).value, worlds[n].log, foreign);
  }

  lemma LogIsForeign(w: World, foreign: string -> bool)
    requires LogInv(w)
    requires forall j :: 0 <= j < |w.procs| ==> !foreign(w.procs[j].op.context) && !foreign(w.procs[j].op.cluster)
    ensures forall k :: 0 <= k < |w.log| ==> !foreign(w.log[k].op.context) && !foreign(w.log[k].op.cluster)
  {
  }

  // No other process uses the names of process i.
  ghost predicate OwnNames(w: World, i: nat)
    requires i < |w.procs|
  {
    forall j :: 0 <= j < |w.procs| && j != i ==>
      w.procs[j].op.context != w.procs[i].op.context && w.procs[j].op.cluster != w.procs[i].op.cluster
  }

  // At every moment of every run, an import that reported success under names
  // no other process uses is in the file.
  lemma NoImportIsLost(initial: Disk, worlds: seq<World>, events: seq<Event>, n: nat, i: nat)
    requires IsRun(KUBE, initial, worlds, events) && n < |worlds| && i < |worlds[n].procs|
    requires worlds[n].procs[i].op.Import? && worlds[n].procs[i].pc == Succeeded(true)
    requires SingleProcs(worlds[n]) && OwnNames(worlds[n], i)
    ensures var op := worlds[n].procs[i].op;
            && Single(op.raw) && Read(worlds[n].disk).Some?
            && HasImport(Read(worlds[n].disk).value, op.raw, op.context, op.cluster)
  {
    KubeReadsBack();
    RunKeepsInv(KUBE, initial, worlds, events, n);
    KubeconfigReads(initial, worlds, events, n);
    var w := worlds[n];
    assert Commit(i, w.procs[i].op) in w.log;
    var j :| 0 <= j < |w.log| && w.log[j] == Commit(i, w.procs[i].op);
    LogIsSingle(w);
    assert SingleOp(w.log[j].op);
    LaterUseOtherNames(w, i, j);
    ImportIsKept(Read(initial).value, w.log, j, w.procs[i].op);
  }

  lemma LaterUseOtherNames(w: World, i: nat, j: nat)
    requires LogInv(w) && i < |w.procs| && OwnNames(w, i)
    requires j < |w.log| && w.log[j] == Commit(i, w.procs[i].op)
    ensures NamesAreFree(w.log, j, w.procs[i].op.context, w.procs[i].op.cluster)
  {
    forall k | j < k < |w.log| ensures w.log[k].proc != i {
    }
  }

  // A first import killed right after its rename has saved the file and reported
  // nothing.
  lemma KilledImportWitness(doc: Object, context: string, cluster: string)
    returns (worlds: seq<World>, events: seq<Event>)
    requires Parse(doc).Some?
    ensures IsRun(KUBE, Absent, worlds, events) && |worlds[|events|].procs| == 1
    ensures var w := worlds[|events|];
            && w.procs[0].pc.Dead? && Logged(w, 0)
            && w.disk == Written(Imported(Empty(), Parse(doc).value, context, cluster))
  {
    var op := Import(Parse(doc).value, context, cluster);
    var next := Imported(Empty(), Parse(doc).value, context, cluster);
    assert KUBE.read(Holds(doc)) == Some(op.raw);
    assert Meant(KUBE, Absent, op, next);
    worlds, events := UnreportedWitness(KUBE, Absent, doc, op, next);
  }
}
