/** pkg/yconverge/yconverge.go: Run, and what every run guarantees whatever
    the cluster answers. */
module Run {
  import opened Wrappers
  import opened Graph
  import opened Sequences
  import opened Deps
  import opened Traverse
  import opened Plan
  import opened Converge

  // The directories Run converges, in order: every plan step before the last,
  // then the target.
  function Order(plan: seq<Node>, target: Node): seq<Node>
    requires |plan| > 0
  {
    plan[..|plan| - 1] + [target]
  }

  function Cycles(files: FilesOf, opts: Options, steps: seq<Node>): seq<Event> {
    if steps == [] then []
    else Cycles(files, opts, steps[..|steps| - 1]) + Cycle(opts, steps[|steps| - 1], files(steps[|steps| - 1]))
  }

  // h is what a run over `steps` leaves: full cycles for the first k steps,
  // and for a failed run the stopped cycle of step k.
  ghost predicate Progress(files: FilesOf, opts: Options, steps: seq<Node>,
                           ok: bool, h: seq<Event>, k: nat, tail: seq<Event>)
  {
    if ok then k == |steps| && tail == [] && h == Cycles(files, opts, steps)
    else k < |steps| && Stopped(opts, steps[k], files(steps[k]), tail) && h == Cycles(files, opts, steps[..k]) + tail
  }

  // The steps that converged were walked; a step that stopped without an event
  // is one whose walk gives no result.
  ghost predicate WalkedUpTo(t: Tree, order: seq<Node>, ok: bool, k: nat, tail: seq<Event>) {
    && k <= |order| && (forall d :: d in order[..k] ==> Walks(t, d))
    && (!ok ==> k < |order| && (tail == [] <==> !Walks(t, order[k])))
  }

  method Run(t: Tree, cue: map<Node, CueFile>, cueModule: CueModule, opts: Options, printDeps: bool,
             cluster: Cluster, target: Node)
    returns (planned: Result<seq<Node>, Fault>, ok: bool, h: seq<Event>, ghost k: nat, ghost tail: seq<Event>)
    ensures cueModule.NoModule? ==> planned == Success([target])
    ensures !cueModule.NoModule? ==> (planned.Success? <==> Resolves(t, cue, cueModule.Named?, target))
    ensures !cueModule.NoModule? ==>
              (planned == Failure(Overflow) <==>
                target in t.kustomizations && Dirs(t, target).ok && ChainRepeats(t, target))
    ensures !cueModule.NoModule? && planned.Success? ==> planned.value == Steps(t, cue, target)
    ensures planned.Failure? || printDeps ==> h == []
    ensures planned.Failure? ==> !ok
    ensures planned.Success? && !printDeps ==>
              && |planned.value| > 0
              && Progress(FilesIn(t, cue), opts, Order(planned.value, target), ok, h, k, tail)
              && WalkedUpTo(t, Order(planned.value, target), ok, k, tail)
    ensures AnsweredBy(cluster, h)
  {
    NamespaceResolvesIff(t, target);
    h, k, tail := [], 0, [];
    planned := BuildPlan(t, cue, cueModule, target);
    if planned.Failure? {
      return planned, false, h, k, tail;
    }
    if printDeps {
      return planned, true, h, k, tail;
    }
    if !cueModule.NoModule? {
      StepsNonempty(t, cue, target);
    }
    ok, h, k, tail := Execute(t, cue, opts, cluster, planned.value, target);
  }

  // The step loop: dependencies first, then the target.
  method Execute(t: Tree, cue: map<Node, CueFile>, opts: Options, cluster: Cluster, steps: seq<Node>, target: Node)
    returns (ok: bool, h: seq<Event>, ghost k: nat, ghost tail: seq<Event>)
    requires |steps| > 0
    ensures Progress(FilesIn(t, cue), opts, Order(steps, target), ok, h, k, tail)
    ensures WalkedUpTo(t, Order(steps, target), ok, k, tail)
    ensures AnsweredBy(cluster, h)
  {
    h, k, tail := [], 0, [];
    ghost var order := Order(steps, target);
    OrderEnds(order, steps, target);
    ghost var files := FilesIn(t, cue);
    ghost var done: seq<Node> := [];
    for i := 0 to |steps| - 1
      invariant done == order[..i]
      invariant h == Cycles(files, opts, done)
      invariant AnsweredBy(cluster, h)
      invariant forall d :: d in done ==> Walks(t, d)
    {
      OrderAt(order, steps, target, i);
      var events;
      ok, events := ConvergeSingle(t, cue, opts, cluster, steps[i], h);
      if !ok {
        return false, h + events, i, events;
      }
      CyclesAppend(files, opts, done, steps[i]);
      h, done := h + events, done + [steps[i]];
    }
    var events;
    ok, events := ConvergeSingle(t, cue, opts, cluster, target, h);
    CyclesAppend(files, opts, done, target);
    k, tail := if ok then |steps| else |steps| - 1, if ok then [] else events;
    h := h + events;
  }

  lemma OrderAt(order: seq<Node>, steps: seq<Node>, target: Node, i: nat)
    requires i < |steps| - 1 && order == Order(steps, target)
    ensures |order| == |steps| && order[i] == steps[i] && order[..i + 1] == order[..i] + [steps[i]]
  {
  }

  lemma OrderEnds(order: seq<Node>, steps: seq<Node>, target: Node)
    requires |steps| > 0 && order == Order(steps, target)
    ensures |order| == |steps| && order[|steps| - 1] == target && order == order[..|steps| - 1] + [target]
  {
  }

  lemma CyclesAppend(files: FilesOf, opts: Options, done: seq<Node>, d: Node)
    ensures Cycles(files, opts, done + [d]) == Cycles(files, opts, done) + Cycle(opts, d, files(d))
  {
    assert (done + [d])[..|done|] == done;
  }

  lemma StepsNonempty(t: Tree, cue: map<Node, CueFile>, target: Node)
    ensures |Steps(t, cue, target)| > 0
  {
    var merged := Dedup(Contributions(cue, TreeFiles(t, cue, target), target));
    if merged == [] {
      assert target !in merged;
    }
  }

  // With no import leading back from the tree to the target, Run converges
  // exactly the plan, in plan order. In general: exactly when the plan ends
  // with the target.
  lemma OrderIsPlanIff(plan: seq<Node>, target: Node)
    requires |plan| > 0
    ensures Order(plan, target) == plan <==> EndsWith(plan, target)
  {
    if EndsWith(plan, target) {
      assert plan == plan[..|plan| - 1] + [plan[|plan| - 1]];
    } else {
      assert Order(plan, target)[|plan| - 1] != plan[|plan| - 1];
    }
  }

  // ---------- What a history guarantees ----------

  // Nothing is applied before everything it imports converged.
  ghost predicate ImportsFirst(g: Graph, h: seq<Event>) {
    forall i, y :: 0 <= i < |h| && h[i].Ran? && h[i].call.Apply? && y in g.Succ(h[i].call.dir) ==>
      Converged(y) in h[..i]
  }

  // A converged step was applied and every check of its tree passed, as far as
  // the options ask for it.
  ghost predicate ConvergedMeansDone(files: FilesOf, opts: Options, h: seq<Event>) {
    forall i :: 0 <= i < |h| && h[i].Converged? ==> Done(files, opts, h[i].dir, h[..i])
  }

  ghost predicate Done(files: FilesOf, opts: Options, d: Node, past: seq<Event>) {
    && (!opts.checksOnly ==> Ran(Apply(d), true) in past)
    && (!opts.checksOnly && opts.selector != "" ==> Ran(SelectorMatches(d), true) in past)
    && (!opts.skipChecks ==> forall f :: f in files(d) ==> Ran(Checks(d, f), true) in past)
  }

  // Only the last event can be a failure.
  ghost predicate FailureIsLast(h: seq<Event>) {
    forall i :: 0 <= i < |h| && h[i].Ran? && !h[i].ok ==> i == |h| - 1
  }

  // The converged steps, in order.
  function Finished(h: seq<Event>): seq<Node> {
    if h == [] then []
    else Finished(h[..|h| - 1]) + (if h[|h| - 1].Converged? then [h[|h| - 1].dir] else [])
  }

  // The attempted applies, in order.
  function Applied(h: seq<Event>): seq<Node> {
    if h == [] then []
    else Applied(h[..|h| - 1]) +
         (if h[|h| - 1].Ran? && h[|h| - 1].call.Apply? then [h[|h| - 1].call.dir] else [])
  }

  lemma {:induction false} FinishedSplit(h: seq<Event>, a: seq<Event>, b: seq<Event>)
    requires h == a + b
    ensures Finished(h) == Finished(a) + Finished(b)
    decreases |b|
  {
    if b == [] {
      assert a + b == a;
    } else {
      assert h[..|h| - 1] == a + b[..|b| - 1];
      FinishedSplit(h[..|h| - 1], a, b[..|b| - 1]);
    }
  }

  lemma {:induction false} AppliedSplit(h: seq<Event>, a: seq<Event>, b: seq<Event>)
    requires h == a + b
    ensures Applied(h) == Applied(a) + Applied(b)
    decreases |b|
  {
    if b == [] {
      assert a + b == a;
    } else {
      assert h[..|h| - 1] == a + b[..|b| - 1];
      AppliedSplit(h[..|h| - 1], a, b[..|b| - 1]);
    }
  }

  // ---------- Phases over a run ----------

  lemma {:induction false} CyclesPhased(files: FilesOf, opts: Options, steps: seq<Node>)
    ensures Phased(opts, Cycles(files, opts, steps))
  {
    if steps != [] {
      var front, last := steps[..|steps| - 1], steps[|steps| - 1];
      CyclesPhased(files, opts, front);
      CyclePhased(opts, last, files(last), Cycle(opts, last, files(last)));
      PhasedAppend(opts, Cycles(files, opts, front), Cycle(opts, last, files(last)));
    }
  }

  // In every run, of any plan, against any cluster: each check comes after its
  // own step's apply, each apply after its selector matched, and nothing happens
  // that the options leave out.
  lemma EveryRunIsPhased(files: FilesOf, opts: Options, plan: seq<Node>, target: Node,
                         ok: bool, h: seq<Event>, k: nat, tail: seq<Event>)
    requires |plan| > 0 && Progress(files, opts, Order(plan, target), ok, h, k, tail)
    ensures Phased(opts, h)
  {
    var order := Order(plan, target);
    if ok {
      CyclesPhased(files, opts, order);
    } else {
      CyclesPhased(files, opts, order[..k]);
      StoppedPhased(opts, order[k], files(order[k]), tail);
      PhasedAppend(opts, Cycles(files, opts, order[..k]), tail);
    }
  }

  // ---------- Proofs over runs ----------

  // Events one step may add: its own calls, only the last of them failed, and
  // its Converged mark once everything asked for was done.
  ghost predicate StepEvents(files: FilesOf, opts: Options, d: Node, events: seq<Event>) {
    forall i :: 0 <= i < |events| ==>
      if events[i].Ran? then events[i].call.dir == d && (events[i].ok || i == |events| - 1)
      else events[i].dir == d && Done(files, opts, d, events[..i])
  }

  // Everything in a cycle but its last event is a success of its own calls.
  lemma CycleShape(opts: Options, d: Node, own: seq<Node>, c: seq<Event>)
    requires c == Cycle(opts, d, own)
    ensures |c| > 0 && c[|c| - 1] == Converged(d)
    ensures forall i :: 0 <= i < |c| - 1 ==> c[i].Ran? && c[i].ok && c[i].call.dir == d
  {
    var body := ApplyEvents(opts, d) + (if opts.skipChecks then [] else CheckEvents(d, own));
    assert c == body + [Converged(d)];
    assert forall i :: 0 <= i < |body| ==> body[i].Ran? && body[i].ok && body[i].call.dir == d;
  }

  lemma CycleEvents(files: FilesOf, opts: Options, d: Node, c: seq<Event>)
    requires c == Cycle(opts, d, files(d))
    ensures StepEvents(files, opts, d, c) && AllOk(c)
  {
    CycleShape(opts, d, files(d), c);
    var applies := ApplyEvents(opts, d);
    var checks := if opts.skipChecks then [] else CheckEvents(d, files(d));
    assert c[..|c| - 1] == applies + checks;
    CycleDone(files, opts, d, applies, checks);
  }

  lemma CycleDone(files: FilesOf, opts: Options, d: Node,
                  applies: seq<Event>, checks: seq<Event>)
    requires applies == ApplyEvents(opts, d)
    requires !opts.skipChecks ==> checks == CheckEvents(d, files(d))
    ensures Done(files, opts, d, applies + checks)
  {
    var own := files(d);
    if !opts.skipChecks {
      forall f | f in own
        ensures Ran(Checks(d, f), true) in checks
      {
        var i :| 0 <= i < |own| && own[i] == f;
        assert checks[i] == Ran(Checks(d, f), true);
      }
    }
    if !opts.checksOnly {
      assert applies[|applies| - 1] == Ran(Apply(d), true);
      if opts.selector != "" {
        assert applies[0] == Ran(SelectorMatches(d), true);
      }
    }
  }

  lemma {:induction false} CyclesConverged(files: FilesOf, opts: Options, steps: seq<Node>)
    ensures forall d :: d in steps ==> Converged(d) in Cycles(files, opts, steps)
  {
    if steps != [] {
      var front, last := steps[..|steps| - 1], steps[|steps| - 1];
      CyclesConverged(files, opts, front);
      var c := Cycle(opts, last, files(last));
      CycleShape(opts, last, files(last), c);
      assert c[|c| - 1] in c;
      assert steps == front + [last];
    }
  }

  ghost predicate Safe(g: Graph, files: FilesOf, opts: Options, h: seq<Event>) {
    && ImportsFirst(g, h)
    && ConvergedMeansDone(files, opts, h)
    && FailureIsLast(h)
  }

  // One more step's events, none failed except possibly the last.
  lemma SafeAppend(g: Graph, files: FilesOf, opts: Options, h: seq<Event>, d: Node, events: seq<Event>)
    requires Safe(g, files, opts, h)
    requires AllOk(h)
    requires forall y :: y in g.Succ(d) ==> Converged(y) in h
    requires StepEvents(files, opts, d, events)
    ensures Safe(g, files, opts, h + events)
  {
    var all := h + events;
    forall i, y | 0 <= i < |all| && all[i].Ran? && all[i].call.Apply? && y in g.Succ(all[i].call.dir)
      ensures Converged(y) in all[..i]
    {
      if i < |h| {
        assert all[..i] == h[..i];
      } else {
        assert all[..i] == h + events[..i - |h|];
        assert all[i] == events[i - |h|];
      }
    }
    forall i | 0 <= i < |all| && all[i].Converged?
      ensures Done(files, opts, all[i].dir, all[..i])
    {
      if i < |h| {
        assert all[..i] == h[..i];
      } else {
        assert all[..i] == h + events[..i - |h|];
        assert all[i] == events[i - |h|];
      }
    }
  }

  ghost predicate AllOk(h: seq<Event>) {
    forall i :: 0 <= i < |h| && h[i].Ran? ==> h[i].ok
  }

  lemma {:induction false} CyclesSafe(g: Graph, files: FilesOf, opts: Options, steps: seq<Node>)
    requires Topological(g, steps)
    ensures Safe(g, files, opts, Cycles(files, opts, steps)) && AllOk(Cycles(files, opts, steps))
  {
    if steps != [] {
      var front, last := steps[..|steps| - 1], steps[|steps| - 1];
      TopologicalPrefix(g, steps, |front|);
      CyclesSafe(g, files, opts, front);
      CyclesConverged(files, opts, front);
      var c := Cycle(opts, last, files(last));
      CycleEvents(files, opts, last, c);
      assert steps[|steps| - 1] == last && steps[..|steps| - 1] == front;
      SafeAppend(g, files, opts, Cycles(files, opts, front), last, c);
      AllOkAppend(Cycles(files, opts, front), c);
    }
  }

  lemma AllOkAppend(h: seq<Event>, events: seq<Event>)
    requires AllOk(h) && AllOk(events)
    ensures AllOk(h + events)
  {
  }

  lemma {:induction false} CyclesFinish(files: FilesOf, opts: Options, steps: seq<Node>)
    ensures Finished(Cycles(files, opts, steps)) == steps
    ensures Applied(Cycles(files, opts, steps)) == if opts.checksOnly then [] else steps
  {
    if steps != [] {
      var front, last := steps[..|steps| - 1], steps[|steps| - 1];
      assert steps == front + [last];
      var h, h', c := Cycles(files, opts, steps), Cycles(files, opts, front), Cycle(opts, last, files(last));
      CyclesFinish(files, opts, front);
      CycleFinishes(opts, last, files(last), c);
      FinishOneMore(h, h', c, front, last, opts.checksOnly);
    }
  }

  lemma FinishOneMore(h: seq<Event>, h': seq<Event>, c: seq<Event>, front: seq<Node>, last: Node, checksOnly: bool)
    requires h == h' + c
    requires Finished(h') == front && Finished(c) == [last]
    requires Applied(h') == (if checksOnly then [] else front)
    requires Applied(c) == if checksOnly then [] else [last]
    ensures Finished(h) == front + [last]
    ensures Applied(h) == if checksOnly then [] else front + [last]
  {
    FinishedSplit(h, h', c);
    AppliedSplit(h, h', c);
  }

  lemma FinishedOne(e: Event)
    ensures Finished([e]) == if e.Converged? then [e.dir] else []
    ensures Applied([e]) == if e.Ran? && e.call.Apply? then [e.call.dir] else []
  {
    assert [e][..0] == [];
  }

  lemma {:induction false} ChecksFinishNothing(d: Node, files: seq<Node>)
    ensures Finished(CheckEvents(d, files)) == [] && Applied(CheckEvents(d, files)) == []
  {
    if files != [] {
      var es := CheckEvents(d, files);
      assert es[..|es| - 1] == CheckEvents(d, files[..|files| - 1]);
      ChecksFinishNothing(d, files[..|files| - 1]);
    }
  }

  lemma CycleFinishes(opts: Options, d: Node, own: seq<Node>, c: seq<Event>)
    requires c == Cycle(opts, d, own)
    ensures Finished(c) == [d]
    ensures Applied(c) == if opts.checksOnly then [] else [d]
  {
    ChecksFinishNothing(d, own);
    ApplyFinishes(opts, d);
    PartsFinish(c, ApplyEvents(opts, d), if opts.skipChecks then [] else CheckEvents(d, own), d);
  }

  lemma PartsFinish(c: seq<Event>, applies: seq<Event>, checks: seq<Event>, d: Node)
    requires c == applies + checks + [Converged(d)]
    requires Finished(applies) == [] && Finished(checks) == [] && Applied(checks) == []
    ensures Finished(c) == [d] && Applied(c) == Applied(applies)
  {
    ThreeParts(c, applies, checks, Converged(d));
  }

  lemma ThreeParts(c: seq<Event>, a: seq<Event>, b: seq<Event>, e: Event)
    requires c == a + b + [e]
    ensures Finished(c) == Finished(a) + Finished(b) + (if e.Converged? then [e.dir] else [])
    ensures Applied(c) == Applied(a) + Applied(b) + (if e.Ran? && e.call.Apply? then [e.call.dir] else [])
  {
    FinishedOne(e);
    FinishedSplit(a + b, a, b);
    AppliedSplit(a + b, a, b);
    FinishedSplit(c, a + b, [e]);
    AppliedSplit(c, a + b, [e]);
  }

  lemma ApplyFinishes(opts: Options, d: Node)
    ensures Finished(ApplyEvents(opts, d)) == []
    ensures Applied(ApplyEvents(opts, d)) == if opts.checksOnly then [] else [d]
  {
    FinishedOne(Ran(Apply(d), true));
    FinishedOne(Ran(SelectorMatches(d), true));
    if !opts.checksOnly && opts.selector != "" {
      FinishedSplit(ApplyEvents(opts, d), [Ran(SelectorMatches(d), true)], [Ran(Apply(d), true)]);
      AppliedSplit(ApplyEvents(opts, d), [Ran(SelectorMatches(d), true)], [Ran(Apply(d), true)]);
    }
  }

  // ---------- The theorems ----------

  // For every plan, whatever the graph, the cluster's answers and where the run
  // stops: a converged step was applied and checked, only the last event can
  // fail, the converged steps are a prefix of the order, all of it exactly on
  // success, and applies go the same way.
  lemma EveryRun(files: FilesOf, opts: Options, plan: seq<Node>, target: Node,
                 ok: bool, h: seq<Event>, k: nat, tail: seq<Event>)
    requires |plan| > 0 && Progress(files, opts, Order(plan, target), ok, h, k, tail)
    ensures ConvergedMeansDone(files, opts, h) && FailureIsLast(h)
    ensures k <= |plan| && Finished(h) == Order(plan, target)[..k]
    ensures ok <==> k == |plan|
    ensures ok ==> Applied(h) == if opts.checksOnly then [] else Order(plan, target)
    ensures !ok ==>
              || Applied(h) == [] || Applied(h) == Order(plan, target)[..k]
              || Applied(h) == Order(plan, target)[..k + 1]
  {
    var order := Order(plan, target);
    // nothing is asked of the order where nothing imports anything
    if ok {
      FinishedRun(Graph(map[], {}), files, opts, order, h);
      assert order[..|order|] == order;
    } else {
      FailedRun(Graph(map[], {}), files, opts, order, h, k, tail);
    }
  }

  lemma FinishedRun(g: Graph, files: FilesOf, opts: Options, order: seq<Node>, h: seq<Event>)
    requires Topological(g, order) && h == Cycles(files, opts, order)
    ensures Safe(g, files, opts, h)
    ensures Finished(h) == order && Applied(h) == if opts.checksOnly then [] else order
  {
    CyclesSafe(g, files, opts, order);
    CyclesFinish(files, opts, order);
  }

  // On acyclic imports the order of convergence is topological even where it is
  // not the plan: the target's imports come before the target's first place.
  lemma OrderIsTopological(g: Graph, plan: seq<Node>, target: Node)
    requires |plan| > 0 && Topological(g, plan) && target in plan
    ensures Topological(g, Order(plan, target))
  {
    var order := Order(plan, target);
    var n := |plan| - 1;
    var p :| 0 <= p < |plan| && plan[p] == target;
    forall i, y | 0 <= i < |order| && y in g.Succ(order[i])
      ensures y in order[..i]
    {
      if i < n {
        assert order[..i] == plan[..i];
      } else {
        assert order[..n] == plan[..n];
        assert y in plan[..p];
        assert plan[..p] == plan[..n][..p];
      }
    }
  }

  // Nothing is applied before everything it imports converged, on acyclic
  // imports, wherever the plan ends.
  lemma ImportsConvergeFirst(t: Tree, cue: map<Node, CueFile>, opts: Options, target: Node,
                             ok: bool, h: seq<Event>, k: nat, tail: seq<Event>)
    requires Readable(t, cue, target) && Acyclic(ImportGraph(cue))
    requires |Steps(t, cue, target)| > 0
    requires Progress(FilesIn(t, cue), opts, Order(Steps(t, cue, target), target), ok, h, k, tail)
    ensures ImportsFirst(ImportGraph(cue), h)
  {
    var g, plan := ImportGraph(cue), Steps(t, cue, target);
    StepsAre(t, cue, target);
    StepsAreOrdered(t, cue, target);
    OrderIsTopological(g, plan, target);
    if ok {
      FinishedRun(g, FilesIn(t, cue), opts, Order(plan, target), h);
    } else {
      FailedRun(g, FilesIn(t, cue), opts, Order(plan, target), h, k, tail);
    }
  }

  ghost predicate OnceEach(plan: seq<Node>, done: seq<Node>) {
    Distinct(done) && forall d :: d in done <==> d in plan
  }

  // A successful run converges each step of the plan exactly once if and only
  // if the plan ends with the target. Otherwise it converges the target twice
  // and the plan's last step never.
  lemma ConvergesOnceIff(t: Tree, cue: map<Node, CueFile>, opts: Options, target: Node,
                         h: seq<Event>, k: nat, tail: seq<Event>)
    requires Readable(t, cue, target) && |Steps(t, cue, target)| > 0
    requires Progress(FilesIn(t, cue), opts, Order(Steps(t, cue, target), target), true, h, k, tail)
    ensures OnceEach(Steps(t, cue, target), Finished(h)) <==> EndsWith(Steps(t, cue, target), target)
    ensures !EndsWith(Steps(t, cue, target), target) ==>
              && multiset(Finished(h))[target] == 2
              && Steps(t, cue, target)[|Steps(t, cue, target)| - 1] !in Finished(h)
  {
    var plan := Steps(t, cue, target);
    StepsAre(t, cue, target);
    EveryRun(FilesIn(t, cue), opts, plan, target, true, h, k, tail);
    assert Order(plan, target)[..k] == Order(plan, target);
    OrderOnceIff(plan, target);
  }

  lemma OrderOnceIff(plan: seq<Node>, target: Node)
    requires |plan| > 0 && Distinct(plan) && target in plan
    ensures OnceEach(plan, Order(plan, target)) <==> EndsWith(plan, target)
    ensures !EndsWith(plan, target) ==>
              multiset(Order(plan, target))[target] == 2 && plan[|plan| - 1] !in Order(plan, target)
  {
    OrderIsPlanIff(plan, target);
    if !EndsWith(plan, target) {
      var n := |plan| - 1;
      var front := plan[..n];
      assert plan == front + [plan[n]];
      assert target in front;
      DistinctCount(front, target);
      assert plan[n] in plan && plan[n] !in front;
    }
  }

  lemma {:induction false} DistinctCount(s: seq<Node>, x: Node)
    requires Distinct(s) && x in s
    ensures multiset(s)[x] == 1
  {
    var front, last := s[..|s| - 1], s[|s| - 1];
    assert s == front + [last];
    if last == x {
      assert x !in front;
    } else {
      DistinctCount(front, x);
    }
  }

  // When the plan ends with the target, the converged steps are a prefix of the
  // plan, all of it on success, and no directory is applied twice.
  lemma RunFollowsPlan(t: Tree, cue: map<Node, CueFile>, opts: Options, target: Node,
                       ok: bool, h: seq<Event>, k: nat, tail: seq<Event>)
    requires Readable(t, cue, target) && EndsWith(Steps(t, cue, target), target)
    requires Progress(FilesIn(t, cue), opts, Order(Steps(t, cue, target), target), ok, h, k, tail)
    ensures k <= |Steps(t, cue, target)| && Finished(h) == Steps(t, cue, target)[..k]
    ensures ok <==> Finished(h) == Steps(t, cue, target)
    ensures Distinct(Applied(h))
    ensures ok && !opts.checksOnly ==> Applied(h) == Steps(t, cue, target)
  {
    var plan := Steps(t, cue, target);
    StepsAre(t, cue, target);
    OrderIsPlanIff(plan, target);
    EveryRun(FilesIn(t, cue), opts, plan, target, ok, h, k, tail);
    if ok {
      assert plan[..|plan|] == plan;
    } else {
      AppliedDistinct(plan, k, Applied(h));
    }
  }

  // Everything the target's tree imports converged before the target is applied.
  ghost predicate TreeFirst(t: Tree, cue: map<Node, CueFile>, target: Node, h: seq<Event>) {
    forall i, d :: 0 <= i < |h| && Applies(h[i], target) && d != target && TreeImports(t, cue, target, d) ==>
      Converged(d) in h[..i]
  }

  predicate Applies(e: Event, d: Node) {
    e.Ran? && e.call == Apply(d)
  }

  // That is so in every run of a plan that ends with the target, however the run
  // ends.
  lemma TreeConvergesFirst(t: Tree, cue: map<Node, CueFile>, opts: Options, target: Node,
                           ok: bool, h: seq<Event>, k: nat, tail: seq<Event>)
    requires Readable(t, cue, target) && EndsWith(Steps(t, cue, target), target)
    requires Progress(FilesIn(t, cue), opts, Order(Steps(t, cue, target), target), ok, h, k, tail)
    ensures TreeFirst(t, cue, target, h)
  {
    var plan := Steps(t, cue, target);
    // the target as if it imported every other step
    var g := Graph(map[target := plan[..|plan| - 1]], {});
    StepsAre(t, cue, target);
    OrderIsPlanIff(plan, target);
    LastOnTop(g, plan, target);
    if ok {
      FinishedRun(g, FilesIn(t, cue), opts, plan, h);
    } else {
      FailedRun(g, FilesIn(t, cue), opts, plan, h, k, tail);
    }
    SuccFirst(g, plan, target, h);
    forall d | d != target && TreeImports(t, cue, target, d) ensures d in plan {
    }
  }

  lemma LastOnTop(g: Graph, plan: seq<Node>, target: Node)
    requires Distinct(plan) && EndsWith(plan, target) && g == Graph(map[target := plan[..|plan| - 1]], {})
    ensures Topological(g, plan)
  {
  }

  lemma SuccFirst(g: Graph, plan: seq<Node>, target: Node, h: seq<Event>)
    requires ImportsFirst(g, h) && EndsWith(plan, target) && g == Graph(map[target := plan[..|plan| - 1]], {})
    ensures forall i, d :: 0 <= i < |h| && Applies(h[i], target) && d != target && d in plan ==>
              Converged(d) in h[..i]
  {
    assert g.Succ(target) == plan[..|plan| - 1];
    forall d | d in plan && d != target ensures d in g.Succ(target) {
      var j :| 0 <= j < |plan| && plan[j] == d;
      assert plan[..|plan| - 1][j] == d;
    }
  }

  // In a successful run that applies, it is so only for such a plan: otherwise
  // the last step, which the tree imports, never converges.
  lemma TreeConvergesFirstIff(t: Tree, cue: map<Node, CueFile>, opts: Options, target: Node,
                              h: seq<Event>, k: nat, tail: seq<Event>)
    requires Readable(t, cue, target) && |Steps(t, cue, target)| > 0 && !opts.checksOnly
    requires Progress(FilesIn(t, cue), opts, Order(Steps(t, cue, target), target), true, h, k, tail)
    ensures TreeFirst(t, cue, target, h) <==> EndsWith(Steps(t, cue, target), target)
    ensures !EndsWith(Steps(t, cue, target), target) ==>
              exists d :: d != target && TreeImports(t, cue, target, d) && Converged(d) !in h
  {
    var plan := Steps(t, cue, target);
    if EndsWith(plan, target) {
      TreeConvergesFirst(t, cue, opts, target, true, h, k, tail);
    } else {
      var last := plan[|plan| - 1];
      LastNeverConverges(t, cue, opts, target, h, k, tail, last);
      EveryRun(FilesIn(t, cue), opts, plan, target, true, h, k, tail);
      assert target in Applied(h);
      AppliedAre(h, target);
      NotTreeFirst(t, cue, target, h, last);
    }
  }

  lemma LastNeverConverges(t: Tree, cue: map<Node, CueFile>, opts: Options, target: Node,
                           h: seq<Event>, k: nat, tail: seq<Event>, last: Node)
    requires Readable(t, cue, target) && |Steps(t, cue, target)| > 0
    requires Progress(FilesIn(t, cue), opts, Order(Steps(t, cue, target), target), true, h, k, tail)
    requires last == Steps(t, cue, target)[|Steps(t, cue, target)| - 1] && last != target
    ensures TreeImports(t, cue, target, last) && Converged(last) !in h
  {
    StepsAre(t, cue, target);
    ConvergesOnceIff(t, cue, opts, target, h, k, tail);
    FinishedAre(h, last);
    assert last in Steps(t, cue, target);
  }

  lemma NotTreeFirst(t: Tree, cue: map<Node, CueFile>, target: Node, h: seq<Event>, d: Node)
    requires d != target && TreeImports(t, cue, target, d) && Converged(d) !in h
    requires exists i :: 0 <= i < |h| && Applies(h[i], target)
    ensures !TreeFirst(t, cue, target, h)
  {
    var i :| 0 <= i < |h| && Applies(h[i], target);
    assert Converged(d) !in h[..i];
  }

  lemma {:induction false} FinishedAre(h: seq<Event>, d: Node)
    ensures d in Finished(h) <==> Converged(d) in h
  {
    if h != [] {
      FinishedAre(h[..|h| - 1], d);
      assert h == h[..|h| - 1] + [h[|h| - 1]];
    }
  }

  lemma {:induction false} AppliedAre(h: seq<Event>, d: Node)
    requires d in Applied(h)
    ensures exists i :: 0 <= i < |h| && Applies(h[i], d)
  {
    var front, last := h[..|h| - 1], h[|h| - 1];
    if Applies(last, d) {
      assert h[|h| - 1] == last;
    } else {
      AppliedAre(front, d);
      var i :| 0 <= i < |front| && Applies(front[i], d);
      assert h[i] == front[i];
    }
  }

  lemma FailedRun(g: Graph, files: FilesOf, opts: Options, plan: seq<Node>,
                  h: seq<Event>, k: nat, tail: seq<Event>)
    requires Topological(g, plan)
    requires k < |plan| && Stopped(opts, plan[k], files(plan[k]), tail)
    requires h == Cycles(files, opts, plan[..k]) + tail
    ensures Safe(g, files, opts, h)
    ensures Finished(h) == plan[..k]
    ensures Applied(h) == [] || Applied(h) == plan[..k] || Applied(h) == plan[..k + 1]
  {
    assert plan[..k + 1] == plan[..k] + [plan[k]];
    StoppedStep(files, opts, plan[k], tail);
    FailedRunSafe(g, files, opts, plan, k, tail);
    CyclesFinish(files, opts, plan[..k]);
    FailedAfter(h, Cycles(files, opts, plan[..k]), tail, plan[..k], plan[k], opts.checksOnly);
  }

  lemma FailedAfter(h: seq<Event>, done: seq<Event>, tail: seq<Event>, front: seq<Node>, d: Node, checksOnly: bool)
    requires h == done + tail && Finished(done) == front && Finished(tail) == []
    requires Applied(done) == if checksOnly then [] else front
    requires Applied(tail) == [] || (!checksOnly && Applied(tail) == [d])
    ensures Finished(h) == front
    ensures Applied(h) == [] || Applied(h) == front || Applied(h) == front + [d]
  {
    FinishedSplit(h, done, tail);
    AppliedSplit(h, done, tail);
  }

  lemma FailedRunSafe(g: Graph, files: FilesOf, opts: Options, plan: seq<Node>, k: nat, tail: seq<Event>)
    requires Topological(g, plan)
    requires k < |plan| && StepEvents(files, opts, plan[k], tail)
    ensures Safe(g, files, opts, Cycles(files, opts, plan[..k]) + tail)
  {
    var done := plan[..k];
    TopologicalPrefix(g, plan, k);
    CyclesSafe(g, files, opts, done);
    CyclesConverged(files, opts, done);
    SafeAppend(g, files, opts, Cycles(files, opts, done), plan[k], tail);
  }

  lemma AppliedDistinct(plan: seq<Node>, k: nat, applied: seq<Node>)
    requires Distinct(plan) && k < |plan|
    requires applied == [] || applied == plan[..k] || applied == plan[..k + 1]
    ensures Distinct(applied)
  {
  }

  // A stopped cycle converges nothing and applies at most its own directory.
  lemma StoppedStep(files: FilesOf, opts: Options, d: Node, tail: seq<Event>)
    requires Stopped(opts, d, files(d), tail)
    ensures StepEvents(files, opts, d, tail)
    ensures Finished(tail) == []
    ensures Applied(tail) == [] || (!opts.checksOnly && Applied(tail) == [d])
  {
    if tail != [] {
      var k :| StoppedAt(Cycle(opts, d, files(d)), tail, k);
      StoppedEvents(files, opts, d, tail, k);
      var c := Cycle(opts, d, files(d));
      CycleShape(opts, d, files(d), c);
      CycleFinishes(opts, d, files(d), c);
      StoppedFinishes(c, tail, k, d);
    }
  }

  lemma StoppedEvents(files: FilesOf, opts: Options, d: Node, tail: seq<Event>, k: nat)
    requires StoppedAt(Cycle(opts, d, files(d)), tail, k)
    ensures StepEvents(files, opts, d, tail)
  {
    var c := Cycle(opts, d, files(d));
    CycleShape(opts, d, files(d), c);
    assert forall i :: 0 <= i < k ==> tail[i] == c[i];
  }

  lemma StoppedFinishes(c: seq<Event>, tail: seq<Event>, k: nat, d: Node)
    requires StoppedAt(c, tail, k)
    requires c[|c| - 1] == Converged(d) && Finished(c) == [d] && |Applied(c)| <= 1
    ensures Finished(tail) == []
    ensures Applied(tail) == [] || Applied(tail) == Applied(c)
  {
    var before, rest := c[..k], c[k + 1..];
    assert c == before + ([c[k]] + rest);
    assert rest[|rest| - 1] == c[|c| - 1];
    FailedPrefix(c, before, c[k], rest, c[k].(ok := false), tail, d);
  }

  // Replacing a success by its failure and dropping the rest.
  lemma FailedPrefix(c: seq<Event>, before: seq<Event>, e: Event, rest: seq<Event>,
                     failed: Event, tail: seq<Event>, d: Node)
    requires c == before + ([e] + rest) && tail == before + [failed]
    requires e.Ran? && failed == e.(ok := false)
    requires rest != [] && rest[|rest| - 1] == Converged(d)
    requires |Finished(c)| == 1 && |Applied(c)| <= 1
    ensures Finished(tail) == []
    ensures Applied(tail) <= Applied(c)
  {
    FinishedOne(e);
    FinishedOne(failed);
    FinishedSplit(c, before, [e] + rest);
    FinishedSplit([e] + rest, [e], rest);
    FinishedSplit(tail, before, [failed]);
    AppliedSplit(c, before, [e] + rest);
    AppliedSplit([e] + rest, [e], rest);
    AppliedSplit(tail, before, [failed]);
    LastFinished(rest, d);
  }

  lemma LastFinished(events: seq<Event>, d: Node)
    requires events != [] && events[|events| - 1] == Converged(d)
    ensures |Finished(events)| >= 1
  {
  }

  // ---------- Where the plan does not end with the target ----------

  // Acyclic imports are not enough. A base in the target's tree that imports
  // the target and then one more directory puts that directory last: the
  // target is converged twice and the directory never.
  lemma BackImportWitness() returns (t: Tree, cue: map<Node, CueFile>, target: Node, extra: Node)
    ensures Resolves(t, cue, true, target) && Acyclic(ImportGraph(cue)) && extra != target
    ensures Steps(t, cue, target) == [target, extra]
    ensures Order(Steps(t, cue, target), target) == [target, target]
  {
    var base := Dir("/b");
    target, extra := Dir("/t"), Dir("/x");
    t := Tree(map[target := Kustomization("", ["b"], []), base := Kustomization("", [], [])],
              {target, base}, (d: Node, e: string) => Dir("/" + e));
    cue := map[base := CueFile([target, extra])];

    WitnessTree(t, target, base);
    WitnessImports(cue, base, target, extra);
    assert [base, target][..1] == [base];
    CueFilesTwo(cue, base, target);
    assert TreeFiles(t, cue, target) == [base];
    WitnessNamespace(t, target, base);
    OneFile(cue, base, target, extra);
  }

  lemma WitnessTree(t: Tree, target: Node, base: Node)
    requires target == Dir("/t") && base == Dir("/b")
    requires t == Tree(map[target := Kustomization("", ["b"], []), base := Kustomization("", [], [])],
                       {target, base}, (d: Node, e: string) => Dir("/" + e))
    ensures Dirs(t, target) == Walk({target, base}, [base, target], true)
  {
    var g := BaseGraph(t);
    WitnessBases(t, target, base);
    assert g.edges[target] == [base] && g.edges[base] == [];
    WalkTwo(g, target, base);
  }

  lemma WitnessBases(t: Tree, target: Node, base: Node)
    requires target == Dir("/t") && base == Dir("/b")
    requires t == Tree(map[target := Kustomization("", ["b"], []), base := Kustomization("", [], [])],
                       {target, base}, (d: Node, e: string) => Dir("/" + e))
    ensures LocalBases(t, target, t.kustomizations[target]) == [base]
    ensures LocalBases(t, base, t.kustomizations[base]) == []
  {
    assert !IsRemote("b") by {
      NotRemote();
    }
    assert t.join(target, "b") == base;
    assert ["b"] + [] == ["b"] && ["b"][1..] == [];
    assert BasesOf(t, target, []) == [];
  }

  lemma WitnessNamespace(t: Tree, target: Node, base: Node)
    requires target == Dir("/t") && base == Dir("/b")
    requires t == Tree(map[target := Kustomization("", ["b"], []), base := Kustomization("", [], [])],
                       {target, base}, (d: Node, e: string) => Dir("/" + e))
    ensures NamespaceResolves(t, target)
  {
    WitnessBases(t, target, base);
    assert SingleBase(t, base).None? && SingleBase(t, target) == Some(base);
    assert ResolveNamespace(t, base, 0).Some?;
    assert ResolveNamespace(t, target, 1).Some?;
  }

  lemma NotRemote()
    ensures !IsRemote("b")
  {
    assert "b"[1..] == "";
  }

  lemma WalkTwo(g: Graph, target: Node, base: Node)
    requires target != base && target in g.edges && base in g.edges && g.unreadable == {}
    requires g.edges[target] == [base] && g.edges[base] == []
    ensures Visit(g, target, {}) == Walk({target, base}, [base, target], true)
  {
    var none: set<Node> := {};
    assert none + {target} == {target} && {target} + {base} == {target, base};
    assert VisitAll(g, [], {target, base}) == Walk({target, base}, [], true);
    assert Visit(g, base, {target}) == Walk({target, base}, [base], true);
    assert [base][1..] == [];
    assert VisitAll(g, [base], {target}) == Walk({target, base}, [base], true);
    assert Visit(g, target, none) == Walk({target, base}, [base] + [target], true);
  }

  lemma WitnessImports(cue: map<Node, CueFile>, base: Node, target: Node, extra: Node)
    requires base != target && base != extra && target != extra
    requires cue == map[base := CueFile([target, extra])]
    ensures Closure(cue, base) == Walk({base, target, extra}, [target, extra, base], true)
    ensures Acyclic(ImportGraph(cue))
  {
    var g := ImportGraph(cue);
    var none: set<Node> := {};
    assert none + {base} == {base} && {base} + {target} == {base, target};
    assert {base, target} + {extra} == {base, target, extra};
    assert g.edges[base] == [target, extra];
    assert VisitAll(g, [], {base, target, extra}) == Walk({base, target, extra}, [], true);
    assert [target, extra][1..] == [extra] && [extra][1..] == [];
    assert VisitAll(g, [extra], {base, target}) == Walk({base, target, extra}, [extra], true);
    assert Visit(g, target, {base}) == Walk({base, target}, [target], true);
    assert VisitAll(g, [target, extra], {base}) == Walk({base, target, extra}, [target, extra], true);
    assert Visit(g, base, none) == Walk({base, target, extra}, [target, extra] + [base], true);
    forall a, b | b in g.Succ(a)
      ensures !Reach(g, b, a)
    {
      if Reach(g, b, a) {
        var p :| PathFromTo(g, p, b, a);
        ClosedContainsPath(g, {b}, p);
      }
    }
  }

  lemma CueFilesTwo(cue: map<Node, CueFile>, base: Node, target: Node)
    requires base in cue && target !in cue
    ensures CueFiles(cue, [base, target]) == [base]
  {
    assert [base, target][..1] == [base] && [base][..0] == [];
    assert CueFiles(cue, []) == [] && CueFiles(cue, [base]) == [base];
    assert CueFiles(cue, [base, target]) == CueFiles(cue, [base, target][..1]);
  }

  lemma OneFile(cue: map<Node, CueFile>, base: Node, target: Node, extra: Node)
    requires base != target && base != extra && target != extra
    requires Closure(cue, base).order == [target, extra, base]
    ensures Dedup(Contributions(cue, [base], target)) == [target, extra]
  {
    var closure := [target, extra, base];
    assert closure[..2] == [target, extra];
    WithoutAbsent(closure[..2], base);
    assert Without(closure, base) == [target, extra];
    assert [base][..0] == [];
    assert Contributions(cue, [base], target) == [target, extra];
    assert [target, extra][..1] == [target] && [target][..0] == [];
    assert Dedup([target]) == [target];
  }
}
