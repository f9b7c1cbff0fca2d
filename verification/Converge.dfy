/** pkg/yconverge/yconverge.go: the plan as a loop, and the run that applies
    and checks it step by step against a cluster that may fail at any call. */
module Converge {
  import opened Wrappers
  import opened Graph
  import opened Deps
  import opened Traverse
  import opened Plan

  // ---------- Building the plan ----------

  lemma {:induction false} WithoutAppend<T>(s: seq<T>, x: T, y: T)
    ensures Without(s + [y], x) == Without(s, x) + (if y == x then [] else [y])
  {
    assert (s + [y])[..|s|] == s;
  }

  // Planning is refused, or dies in its walk.
  datatype Fault = Refusal(message: string) | Overflow

  // Dependency steps of the target's whole kustomize tree; with no CUE module
  // around the target there is only the target.
  method BuildPlan(t: Tree, cue: map<Node, CueFile>, cueModule: CueModule, target: Node)
    returns (r: Result<seq<Node>, Fault>)
    ensures cueModule.NoModule? ==> r == Success([target])
    ensures !cueModule.NoModule? ==> (r.Success? <==> Resolves(t, cue, cueModule.Named?, target))
    ensures !cueModule.NoModule? ==>
              (r == Failure(Overflow) <==>
                target in t.kustomizations && Dirs(t, target).ok && !NamespaceResolves(t, target))
    ensures !cueModule.NoModule? && r.Success? ==> r.value == Steps(t, cue, target)
  {
    if cueModule.NoModule? {
      return Success([target]);
    }
    var walked := WalkRoot(t, target);
    if !walked.Walked? {
      return Failure(if walked.Refused? then Refusal(walked.message) else Overflow);
    }
    var files := FindCueFiles(cue, walked.dirs);
    var resolved, steps := MergeClosures(cue, cueModule.Named?, files, target);
    if !resolved {
      return Failure(Refusal("resolve deps"));
    }
    if target !in steps {
      steps := steps + [target];
    }
    return Success(steps);
  }

  // The loop over the in-tree files: resolve each and merge its closure.
  method MergeClosures(cue: map<Node, CueFile>, named: bool, files: seq<Node>, target: Node)
    returns (resolved: bool, steps: seq<Node>)
    ensures resolved <==> (named || files == []) && AllResolve(cue, files)
    ensures resolved ==> steps == Dedup(Contributions(cue, files, target))
  {
    var visited: set<Node> := {};
    steps := [];
    ghost var done: seq<Node> := [];
    ghost var listed: seq<Node> := [];
    for i := 0 to |files|
      invariant done == files[..i] && AllResolve(cue, done) && (named || i == 0)
      invariant listed == Contributions(cue, done, target)
      invariant steps == Dedup(listed)
      invariant visited == Members(steps)
    {
      var closure := ResolveDeps(cue, named, files[i]);
      NextFile(cue, files, i, target);
      if closure.Failure? {
        return false, [];
      }
      steps, visited := MergeClosure(closure.value, files[i], target, listed, steps, visited);
      listed, done := listed + Contribution(cue, files[i], target), files[..i + 1];
    }
    assert files[..|files|] == files;
    assert done == files;
    resolved := true;
  }

  lemma NextFile(cue: map<Node, CueFile>, files: seq<Node>, i: nat, target: Node)
    requires i < |files|
    ensures AllResolve(cue, files[..i + 1]) <==> AllResolve(cue, files[..i]) && Closure(cue, files[i]).ok
    ensures AllResolve(cue, files) ==> Closure(cue, files[i]).ok
    ensures Contributions(cue, files[..i + 1], target)
         == Contributions(cue, files[..i], target) + Contribution(cue, files[i], target)
  {
    assert files[..i + 1] == files[..i] + [files[i]];
    AllResolveAppend(cue, files[..i], files[i]);
    AllResolveUpTo(cue, files, i + 1);
    ContributionsAppend(cue, files[..i], files[i], target);
  }

  // The tree walk and every in-tree file's resolution succeed; without a file
  // nobody asks for the module's name.
  ghost predicate Resolves(t: Tree, cue: map<Node, CueFile>, named: bool, target: Node) {
    && Walks(t, target)
    && (named || TreeFiles(t, cue, target) == [])
    && AllResolve(cue, TreeFiles(t, cue, target))
  }

  predicate AllResolve(cue: map<Node, CueFile>, files: seq<Node>) {
    files == [] || (AllResolve(cue, files[..|files| - 1]) && Closure(cue, files[|files| - 1]).ok)
  }

  lemma AllResolveAppend(cue: map<Node, CueFile>, files: seq<Node>, file: Node)
    ensures AllResolve(cue, files + [file]) <==> AllResolve(cue, files) && Closure(cue, file).ok
  {
    assert (files + [file])[..|files|] == files;
  }

  lemma AllResolveUpTo(cue: map<Node, CueFile>, files: seq<Node>, i: nat)
    requires i <= |files|
    ensures AllResolve(cue, files) ==> AllResolve(cue, files[..i])
  {
    if AllResolve(cue, files) {
      AllResolvePrefix(cue, files, i);
    }
  }

  lemma {:induction false} AllResolveIff(cue: map<Node, CueFile>, files: seq<Node>)
    ensures AllResolve(cue, files) <==> forall f :: f in files ==> Closure(cue, f).ok
  {
    if files != [] {
      AllResolveIff(cue, files[..|files| - 1]);
      assert files == files[..|files| - 1] + [files[|files| - 1]];
    }
  }

  lemma {:induction false} AllResolvePrefix(cue: map<Node, CueFile>, files: seq<Node>, n: nat)
    requires n <= |files| && AllResolve(cue, files)
    ensures AllResolve(cue, files[..n])
  {
    AllResolveIff(cue, files);
    AllResolveIff(cue, files[..n]);
  }

  // Planning succeeds exactly when everything the plan needs is readable, the
  // module has a name or no file needs it, and the target's chain of single
  // bases does not repeat.
  lemma ResolvesIffReadable(t: Tree, cue: map<Node, CueFile>, named: bool, target: Node)
    ensures Resolves(t, cue, named, target) <==>
              && Readable(t, cue, target) && (named || forall f :: !InTree(t, cue, target, f))
              && !ChainRepeats(t, target)
  {
    NamespaceResolvesIff(t, target);
    FilesReadableIff(t, cue, target);
    if Readable(t, cue, target) {
      TreeFilesAre(t, cue, target);
      var files := TreeFiles(t, cue, target);
      assert files == [] <==> forall f :: f !in files by {
        assert files != [] ==> files[0] in files;
      }
    }
  }

  lemma FilesReadableIff(t: Tree, cue: map<Node, CueFile>, target: Node)
    ensures Readable(t, cue, target) <==>
              target in t.kustomizations && Dirs(t, target).ok && AllResolve(cue, TreeFiles(t, cue, target))
  {
    WalkFromRoot(BaseGraph(t), target);
    AllResolveIff(cue, TreeFiles(t, cue, target));
    if target in t.kustomizations && Dirs(t, target).ok {
      var g := ImportGraph(cue);
      CueFilesKeeps(cue, Dirs(t, target).order);
      assert forall f :: f in TreeFiles(t, cue, target) <==> InTree(t, cue, target, f);
      forall f
        ensures Closure(cue, f).ok <==> AllReadable(g, f)
      {
        WalkFromRoot(g, f);
      }
      assert Readable(t, cue, target) <==> forall f :: InTree(t, cue, target, f) ==> AllReadable(g, f);
    }
  }

  // Everything is readable, and planning dies in its walk.
  lemma PlanOverflowWitness() returns (t: Tree, target: Node)
    ensures Readable(t, map[], target) && target in t.kustomizations && Dirs(t, target).ok
    ensures !Resolves(t, map[], true, target) && ChainRepeats(t, target)
  {
    t, target := NamespaceLoopWitness();
    NamespaceResolvesIff(t, target);
    CueFilesKeeps(map[], Dirs(t, target).order);
    AllResolveIff(map[], TreeFiles(t, map[], target));
    FilesReadableIff(t, map[], target);
  }

  ghost predicate AllReadable(g: Graph, f: Node) {
    forall b :: b in g.unreadable ==> !Reach(g, f, b)
  }

  function Members(s: seq<Node>): set<Node> {
    set x | x in s
  }

  lemma MembersAppend(s: seq<Node>, x: Node)
    ensures Members(s + [x]) == Members(s) + {x}
    ensures x in Members(s) <==> x in s
  {
  }

  lemma DedupAppend<T>(s: seq<T>, x: T)
    ensures Dedup(s + [x]) == if x in Dedup(s) then Dedup(s) else Dedup(s) + [x]
  {
    assert (s + [x])[..|s|] == s;
  }

  lemma KeptAppend(s: seq<Node>, x: Node, file: Node, target: Node)
    ensures Kept(s + [x], file, target) ==
            if x == file && file != target then Kept(s, file, target) else Kept(s, file, target) + [x]
  {
    WithoutAppend(s, file, x);
  }

  lemma ContributionsAppend(cue: map<Node, CueFile>, files: seq<Node>, file: Node, target: Node)
    ensures Contributions(cue, files + [file], target) ==
            Contributions(cue, files, target) + Contribution(cue, file, target)
  {
    assert (files + [file])[..|files|] == files;
  }

  // One more directory of a closure, merged into the steps so far.
  lemma MergeOne(before: seq<Node>, done: seq<Node>, s: Node, file: Node, target: Node)
    ensures Dedup(before + Kept(done + [s], file, target)) ==
            var steps := Dedup(before + Kept(done, file, target));
            if (s == file && file != target) || s in steps then steps else steps + [s]
  {
    KeptAppend(done, s, file, target);
    var kept := Kept(done, file, target);
    assert before + (kept + [s]) == (before + kept) + [s];
    DedupAppend(before + kept, s);
  }

  // The inner loop: a closure's new directories, the in-tree file itself left
  // out unless it is the target's.
  method MergeClosure(closure: seq<Node>, file: Node, target: Node, ghost before: seq<Node>,
                      steps0: seq<Node>, visited0: set<Node>)
    returns (steps: seq<Node>, visited: set<Node>)
    requires steps0 == Dedup(before) && visited0 == Members(steps0)
    ensures steps == Dedup(before + Kept(closure, file, target))
    ensures visited == Members(steps)
  {
    steps, visited := steps0, visited0;
    ghost var done: seq<Node> := [];
    assert before + [] == before;
    for j := 0 to |closure|
      invariant done == closure[..j]
      invariant steps == Dedup(before + Kept(done, file, target))
      invariant visited == Members(steps)
    {
      var s := closure[j];
      assert closure[..j + 1] == closure[..j] + [s];
      MergeOne(before, done, s, file, target);
      done := done + [s];
      if s == file && file != target {
        continue;
      }
      MembersAppend(steps, s);
      if s !in visited {
        visited := visited + {s};
        steps := steps + [s];
      }
    }
    assert closure[..|closure|] == closure;
  }

  function Kept(s: seq<Node>, file: Node, target: Node): seq<Node> {
    if file == target then s else Without(s, file)
  }

  method FindCueFiles(cue: map<Node, CueFile>, dirs: seq<Node>) returns (found: seq<Node>)
    ensures found == CueFiles(cue, dirs)
  {
    found := [];
    for i := 0 to |dirs|
      invariant found == CueFiles(cue, dirs[..i])
    {
      assert dirs[..i + 1][..i] == dirs[..i];
      if dirs[i] in cue {
        found := found + [dirs[i]];
      }
    }
    assert dirs[..|dirs|] == dirs;
  }

  // ---------- A run against a cluster ----------

  datatype Options = Options(checksOnly: bool, skipChecks: bool, selector: string)

  // The calls whose outcome the cluster decides: does the selector match, the
  // apply of a step, and the checks of one yconverge.cue of a step.
  datatype Call =
    | SelectorMatches(dir: Node)
    | Apply(dir: Node)
    | Checks(dir: Node, file: Node)

  datatype Event = Ran(call: Call, ok: bool) | Converged(dir: Node)

  // A cluster answers each call as it likes, given everything that happened.
  type Cluster = (seq<Event>, Call) -> bool

  ghost predicate AnsweredBy(cluster: Cluster, h: seq<Event>) {
    forall i :: 0 <= i < |h| ==> AnswerAt(cluster, h, i)
  }

  ghost predicate AnswerAt(cluster: Cluster, h: seq<Event>, i: nat)
    requires i < |h|
  {
    h[i].Ran? ==> h[i].ok == cluster(h[..i], h[i].call)
  }

  function CheckEvents(dir: Node, files: seq<Node>): (es: seq<Event>)
    ensures |es| == |files|
    ensures forall i :: 0 <= i < |files| ==> es[i] == Ran(Checks(dir, files[i]), true)
  {
    if files == [] then []
    else CheckEvents(dir, files[..|files| - 1]) + [Ran(Checks(dir, files[|files| - 1]), true)]
  }

  // The history one step leaves when everything succeeds; `files` are the
  // directories of its kustomize tree that have a yconverge.cue.
  function Cycle(opts: Options, dir: Node, files: seq<Node>): seq<Event> {
    ApplyEvents(opts, dir) + (if opts.skipChecks then [] else CheckEvents(dir, files)) + [Converged(dir)]
  }

  // A step that stopped: some calls of its cycle succeeded and the next one, if
  // it got to one, failed. With no event, its walk gave no result.
  ghost predicate Stopped(opts: Options, dir: Node, files: seq<Node>, tail: seq<Event>) {
    tail == [] || exists k :: StoppedAt(Cycle(opts, dir, files), tail, k)
  }

  ghost predicate StoppedAt(cycle: seq<Event>, tail: seq<Event>, k: int) {
    0 <= k < |cycle| && cycle[k].Ran? && tail == cycle[..k] + [cycle[k].(ok := false)]
  }

  // ---------- The phases of a step ----------

  // The event is among those before i, with no step converged in between: it is
  // of the same attempt at a step.
  ghost predicate EarlierInStep(h: seq<Event>, e: Event, i: nat)
    requires i <= |h|
  {
    exists j :: 0 <= j < i && h[j] == e && forall k :: j < k < i ==> !h[k].Converged?
  }

  // A selector is tried only to apply, an apply follows its selector's success,
  // a check follows its step's apply, and what the options leave out does not
  // happen.
  ghost predicate PhaseAt(opts: Options, h: seq<Event>, call: Call, i: nat)
    requires i <= |h|
  {
    match call
    case SelectorMatches(d) => !opts.checksOnly && opts.selector != ""
    case Apply(d) =>
      && !opts.checksOnly
      && (opts.selector != "" ==> EarlierInStep(h, Ran(SelectorMatches(d), true), i))
    case Checks(d, _) =>
      && !opts.skipChecks
      && (!opts.checksOnly ==> EarlierInStep(h, Ran(Apply(d), true), i))
  }

  ghost predicate Phased(opts: Options, h: seq<Event>) {
    forall i :: 0 <= i < |h| && h[i].Ran? ==> PhaseAt(opts, h, h[i].call, i)
  }

  // The files whose checks passed, in order.
  function Checked(h: seq<Event>): seq<Node> {
    if h == [] then []
    else
      var e := h[|h| - 1];
      Checked(h[..|h| - 1]) + (if e.Ran? && e.call.Checks? && e.ok then [e.call.file] else [])
  }

  lemma PhaseStays(opts: Options, h: seq<Event>, whole: seq<Event>, from: nat, call: Call, i: nat)
    requires i <= |h| && from + i <= |whole| && forall j :: 0 <= j < i ==> whole[from + j] == h[j]
    requires PhaseAt(opts, h, call, i)
    ensures PhaseAt(opts, whole, call, from + i)
  {
    if call.Apply? && opts.selector != "" {
      EarlierStays(h, whole, from, Ran(SelectorMatches(call.dir), true), i);
    } else if call.Checks? && !opts.checksOnly {
      EarlierStays(h, whole, from, Ran(Apply(call.dir), true), i);
    }
  }

  lemma EarlierStays(h: seq<Event>, whole: seq<Event>, from: nat, e: Event, i: nat)
    requires i <= |h| && from + i <= |whole| && forall j :: 0 <= j < i ==> whole[from + j] == h[j]
    requires EarlierInStep(h, e, i)
    ensures EarlierInStep(whole, e, from + i)
  {
    var j :| 0 <= j < i && h[j] == e && forall k :: j < k < i ==> !h[k].Converged?;
    assert whole[from + j] == e;
    forall k | from + j < k < from + i ensures !whole[k].Converged? {
      assert whole[from + (k - from)] == h[k - from];
    }
  }

  lemma PhasedAppend(opts: Options, h: seq<Event>, events: seq<Event>)
    requires Phased(opts, h) && Phased(opts, events)
    ensures Phased(opts, h + events)
  {
    var whole := h + events;
    forall i | 0 <= i < |whole| && whole[i].Ran? ensures PhaseAt(opts, whole, whole[i].call, i) {
      if i < |h| {
        PhaseIn(opts, h, whole, 0, i);
      } else {
        PhaseIn(opts, events, whole, |h|, i - |h|);
      }
    }
  }

  lemma PhaseIn(opts: Options, h: seq<Event>, whole: seq<Event>, from: nat, i: nat)
    requires Phased(opts, h) && i < |h| && from + |h| <= |whole| && whole[from..from + |h|] == h && h[i].Ran?
    ensures PhaseAt(opts, whole, whole[from + i].call, from + i)
  {
    forall j | 0 <= j < |h| ensures whole[from + j] == h[j] {
      assert whole[from..from + |h|][j] == whole[from + j];
    }
    PhaseStays(opts, h, whole, from, h[i].call, i);
  }

  lemma AppliesPhased(opts: Options, dir: Node, applies: seq<Event>)
    requires applies == ApplyEvents(opts, dir)
    ensures Phased(opts, applies)
    ensures !opts.checksOnly ==> applies != [] && applies[|applies| - 1] == Ran(Apply(dir), true)
    ensures forall i :: 0 <= i < |applies| ==> applies[i].Ran?
  {
    if !opts.checksOnly && opts.selector != "" {
      assert applies[0] == Ran(SelectorMatches(dir), true) && applies[1] == Ran(Apply(dir), true);
      assert EarlierInStep(applies, Ran(SelectorMatches(dir), true), 1);
    }
  }

  lemma CyclePhased(opts: Options, dir: Node, files: seq<Node>, cycle: seq<Event>)
    requires cycle == Cycle(opts, dir, files)
    ensures Phased(opts, cycle)
  {
    var applies := ApplyEvents(opts, dir);
    AppliesPhased(opts, dir, applies);
    forall i | 0 <= i < |cycle| && cycle[i].Ran? ensures PhaseAt(opts, cycle, cycle[i].call, i) {
      if i < |applies| {
        PhaseStays(opts, applies, cycle, 0, applies[i].call, i);
      } else if !opts.checksOnly {
        assert cycle[|applies| - 1] == Ran(Apply(dir), true);
        assert forall k :: |applies| - 1 < k < i ==> !cycle[k].Converged?;
      }
    }
  }

  lemma StoppedPhased(opts: Options, dir: Node, files: seq<Node>, tail: seq<Event>)
    requires Stopped(opts, dir, files, tail)
    ensures Phased(opts, tail)
  {
    if tail != [] {
      var cycle := Cycle(opts, dir, files);
      var k :| StoppedAt(cycle, tail, k);
      CyclePhased(opts, dir, files, cycle);
      forall i | 0 <= i < |tail| && tail[i].Ran? ensures PhaseAt(opts, tail, tail[i].call, i) {
        PhaseStays(opts, cycle, tail, 0, cycle[i].call, i);
      }
    }
  }

  lemma {:induction false} CheckedConcat(a: seq<Event>, b: seq<Event>, whole: seq<Event>)
    requires whole == a + b
    ensures Checked(whole) == Checked(a) + Checked(b)
    decreases |b|
  {
    if b == [] {
      assert whole == a;
    } else {
      assert whole[..|whole| - 1] == a + b[..|b| - 1];
      CheckedConcat(a, b[..|b| - 1], whole[..|whole| - 1]);
    }
  }

  lemma {:induction false} ChecksAreChecked(dir: Node, files: seq<Node>)
    ensures Checked(CheckEvents(dir, files)) == files
  {
    if files != [] {
      var es := CheckEvents(dir, files);
      assert es[..|es| - 1] == CheckEvents(dir, files[..|files| - 1]);
      ChecksAreChecked(dir, files[..|files| - 1]);
    }
  }

  lemma {:induction false} NoneChecked(h: seq<Event>)
    requires forall i :: 0 <= i < |h| ==> !(h[i].Ran? && h[i].call.Checks?)
    ensures Checked(h) == []
  {
    if h != [] {
      NoneChecked(h[..|h| - 1]);
    }
  }

  // A full cycle checks every file once, in order.
  lemma CycleChecks(opts: Options, dir: Node, files: seq<Node>)
    ensures Checked(Cycle(opts, dir, files)) == if opts.skipChecks then [] else files
  {
    var applies := ApplyEvents(opts, dir);
    var checks := if opts.skipChecks then [] else CheckEvents(dir, files);
    NoneChecked(applies);
    NoneChecked([Converged(dir)]);
    ChecksAreChecked(dir, files);
    CheckedConcat(applies, checks, applies + checks);
    CheckedConcat(applies + checks, [Converged(dir)], applies + checks + [Converged(dir)]);
  }

  // ---------- One step ----------

  // The yconverge.cue directories of a step's kustomize tree.
  type FilesOf = Node -> seq<Node>

  function FilesIn(t: Tree, cue: map<Node, CueFile>): FilesOf {
    d => TreeFiles(t, cue, d)
  }

  lemma FilesInAt(t: Tree, cue: map<Node, CueFile>, d: Node)
    ensures FilesIn(t, cue)(d) == TreeFiles(t, cue, d)
  {
  }

  // convergeSingle: walk the step's tree, apply it, then run the checks of
  // every yconverge.cue in it.
  method ConvergeSingle(t: Tree, cue: map<Node, CueFile>, opts: Options, cluster: Cluster,
                        dir: Node, h: seq<Event>)
    returns (ok: bool, tail: seq<Event>)
    requires AnsweredBy(cluster, h)
    ensures AnsweredBy(cluster, h + tail)
    ensures ok ==> tail == Cycle(opts, dir, FilesIn(t, cue)(dir))
    ensures !ok ==> Stopped(opts, dir, FilesIn(t, cue)(dir), tail)
    ensures tail == [] <==> !Walks(t, dir)
    ensures Phased(opts, tail)
    ensures ok ==> Checked(tail) == if opts.skipChecks then [] else FilesIn(t, cue)(dir)
  {
    assert h + [] == h;
    var walked := WalkRoot(t, dir);
    if !walked.Walked? {
      return false, [];
    }
    var files := FindCueFiles(cue, walked.dirs);
    FilesInAt(t, cue, dir);
    ok, tail := ApplyAndCheck(opts, cluster, dir, files, h);
  }

  method ApplyAndCheck(opts: Options, cluster: Cluster, dir: Node, files: seq<Node>, h: seq<Event>)
    returns (ok: bool, tail: seq<Event>)
    requires AnsweredBy(cluster, h)
    ensures AnsweredBy(cluster, h + tail)
    ensures ok ==> tail == Cycle(opts, dir, files)
    ensures tail != [] && (!ok ==> Stopped(opts, dir, files, tail))
    ensures Phased(opts, tail)
    ensures ok ==> Checked(tail) == if opts.skipChecks then [] else files
  {
    ok, tail := ApplyThenCheck(opts, cluster, dir, files, h);
    if ok {
      CyclePhased(opts, dir, files, tail);
      CycleChecks(opts, dir, files);
    } else {
      StoppedPhased(opts, dir, files, tail);
    }
  }

  method ApplyThenCheck(opts: Options, cluster: Cluster, dir: Node, files: seq<Node>, h: seq<Event>)
    returns (ok: bool, tail: seq<Event>)
    requires AnsweredBy(cluster, h)
    ensures AnsweredBy(cluster, h + tail)
    ensures ok ==> tail == Cycle(opts, dir, files)
    ensures tail != [] && (!ok ==> Stopped(opts, dir, files, tail))
  {
    ghost var cycle := Cycle(opts, dir, files);
    ok, tail := ApplyStep(opts, cluster, dir, h, cycle);
    if !ok {
      return;
    }
    ghost var applied := tail;
    if !opts.skipChecks {
      ok, tail := RunChecks(cluster, dir, files, h, tail, cycle);
      if !ok {
        return;
      }
    }
    AnsweredAppend(cluster, h + tail, Converged(dir));
    assert h + (tail + [Converged(dir)]) == (h + tail) + [Converged(dir)];
    tail := tail + [Converged(dir)];
    assert tail == cycle;
  }

  // The checks of each yconverge.cue, stopping at the first that fails.
  method RunChecks(cluster: Cluster, dir: Node, files: seq<Node>, h: seq<Event>, applied: seq<Event>,
                   ghost cycle: seq<Event>)
    returns (ok: bool, tail: seq<Event>)
    requires AnsweredBy(cluster, h + applied)
    requires cycle == applied + (CheckEvents(dir, files) + [Converged(dir)])
    ensures AnsweredBy(cluster, h + tail)
    ensures ok ==> tail == applied + CheckEvents(dir, files)
    ensures !ok ==> tail != [] && exists k :: StoppedAt(cycle, tail, k)
  {
    ghost var checks := CheckEvents(dir, files);
    ok, tail := true, applied;
    assert applied + checks[..0] == applied;
    for i := 0 to |files|
      invariant tail == applied + checks[..i]
      invariant AnsweredBy(cluster, h + tail)
    {
      CheckAt(cycle, applied, checks, Converged(dir), i);
      ok, tail := Attempt(cluster, h, tail, Checks(dir, files[i]), cycle);
      if !ok {
        return;
      }
    }
    assert checks[..|files|] == checks;
    ok := true;
  }

  function ApplyEvents(opts: Options, dir: Node): seq<Event> {
    if opts.checksOnly then []
    else (if opts.selector == "" then [] else [Ran(SelectorMatches(dir), true)]) + [Ran(Apply(dir), true)]
  }

  // The apply phase, with its selector preflight.
  method ApplyStep(opts: Options, cluster: Cluster, dir: Node, h: seq<Event>, ghost cycle: seq<Event>)
    returns (ok: bool, tail: seq<Event>)
    requires AnsweredBy(cluster, h) && ApplyEvents(opts, dir) <= cycle
    ensures AnsweredBy(cluster, h + tail)
    ensures ok ==> tail == ApplyEvents(opts, dir)
    ensures !ok ==> tail != [] && exists k :: StoppedAt(cycle, tail, k)
  {
    ok, tail := true, [];
    assert h + tail == h;
    if opts.checksOnly {
      assert AnsweredBy(cluster, h + tail);
      return;
    }
    if opts.selector != "" {
      ok, tail := Attempt(cluster, h, tail, SelectorMatches(dir), cycle);
      if !ok {
        assert AnsweredBy(cluster, h + tail);
        return;
      }
    }
    ok, tail := Attempt(cluster, h, tail, Apply(dir), cycle);
  }

  lemma AnsweredAppend(cluster: Cluster, h: seq<Event>, e: Event)
    requires AnsweredBy(cluster, h)
    requires e.Ran? ==> e.ok == cluster(h, e.call)
    ensures AnsweredBy(cluster, h + [e])
  {
    forall i | 0 <= i < |h| + 1
      ensures AnswerAt(cluster, h + [e], i)
    {
      if i < |h| {
        assert AnswerAt(cluster, h, i);
        assert (h + [e])[..i] == h[..i];
      } else {
        assert (h + [e])[..i] == h;
      }
    }
  }

  lemma CheckAt(cycle: seq<Event>, applied: seq<Event>, checks: seq<Event>, last: Event, i: nat)
    requires cycle == applied + (checks + [last]) && i < |checks|
    ensures |applied| + i < |cycle| && cycle[|applied| + i] == checks[i]
    ensures cycle[..|applied| + i] == applied + checks[..i]
    ensures applied + checks[..i + 1] == (applied + checks[..i]) + [checks[i]]
  {
  }

  // One call: its answer is the next event.
  method Attempt(cluster: Cluster, h: seq<Event>, tail: seq<Event>, call: Call, ghost cycle: seq<Event>)
    returns (ok: bool, longer: seq<Event>)
    requires AnsweredBy(cluster, h + tail)
    requires |tail| < |cycle| && tail == cycle[..|tail|] && cycle[|tail|] == Ran(call, true)
    ensures longer == tail + [Ran(call, ok)]
    ensures AnsweredBy(cluster, h + longer)
    ensures ok ==> longer == cycle[..|longer|]
    ensures !ok ==> StoppedAt(cycle, longer, |tail|)
  {
    ok := cluster(h + tail, call);
    longer := tail + [Ran(call, ok)];
    AnsweredAppend(cluster, h + tail, Ran(call, ok));
    assert h + longer == (h + tail) + [Ran(call, ok)];
  }
}
