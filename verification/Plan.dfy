/** pkg/yconverge/yconverge.go, first half: merging the import closures of
    every yconverge.cue in the target's kustomize tree into one plan. */
module Plan {
  import opened Graph
  import opened Sequences
  import opened Deps
  import opened Traverse

  // ---------- The merge as a function ----------

  function Without<T(==)>(s: seq<T>, x: T): seq<T> {
    if s == [] then []
    else Without(s[..|s| - 1], x) + (if s[|s| - 1] == x then [] else [s[|s| - 1]])
  }

  // First occurrences, in order.
  function Dedup<T(==)>(s: seq<T>): seq<T> {
    if s == [] then []
    else
      var d := Dedup(s[..|s| - 1]);
      if s[|s| - 1] in d then d else d + [s[|s| - 1]]
  }

  // FindCueFiles
  function CueFiles(cue: map<Node, CueFile>, dirs: seq<Node>): seq<Node> {
    if dirs == [] then []
    else CueFiles(cue, dirs[..|dirs| - 1]) + (if dirs[|dirs| - 1] in cue then [dirs[|dirs| - 1]] else [])
  }

  // What one in-tree file contributes: its closure, without the file itself
  // unless it is the target's.
  function Contribution(cue: map<Node, CueFile>, file: Node, target: Node): seq<Node> {
    var closure := Closure(cue, file).order;
    if file == target then closure else Without(closure, file)
  }

  function Contributions(cue: map<Node, CueFile>, files: seq<Node>, target: Node): seq<Node> {
    if files == [] then []
    else Contributions(cue, files[..|files| - 1], target) + Contribution(cue, files[|files| - 1], target)
  }

  function TreeFiles(t: Tree, cue: map<Node, CueFile>, target: Node): seq<Node> {
    CueFiles(cue, Dirs(t, target).order)
  }

  function Steps(t: Tree, cue: map<Node, CueFile>, target: Node): seq<Node> {
    var merged := Dedup(Contributions(cue, TreeFiles(t, cue, target), target));
    if target in merged then merged else merged + [target]
  }

  // ---------- Sequence lemmas ----------

  lemma {:induction false} DedupKeeps<T(!new)>(s: seq<T>)
    ensures Distinct(Dedup(s))
    ensures forall x :: x in Dedup(s) <==> x in s
    ensures |Dedup(s)| <= |s|
  {
    if s != [] {
      DedupKeeps(s[..|s| - 1]);
      assert s == s[..|s| - 1] + [s[|s| - 1]];
    }
  }

  // First occurrences keep their order.
  lemma {:induction false} DedupOrder<T(!new)>(s: seq<T>) returns (at: seq<nat>)
    ensures |at| == |Dedup(s)| && forall i, j :: 0 <= i < j < |at| ==> at[i] < at[j]
    ensures forall i :: 0 <= i < |at| ==> at[i] < |s| && s[at[i]] == Dedup(s)[i] && s[at[i]] !in s[..at[i]]
  {
    if s == [] {
      at := [];
    } else {
      var front, last := s[..|s| - 1], s[|s| - 1];
      at := DedupOrder(front);
      DedupKeeps(front);
      forall i | 0 <= i < |at| ensures s[at[i]] == front[at[i]] && s[..at[i]] == front[..at[i]] {
      }
      if last !in Dedup(front) {
        at := at + [|front|];
      }
    }
  }

  lemma {:induction false} DedupTopological(g: Graph, s: seq<Node>)
    requires Topological(g, s)
    ensures Topological(g, Dedup(s))
  {
    if s != [] {
      var front, last := s[..|s| - 1], s[|s| - 1];
      assert Topological(g, front) by {
        TopologicalPrefix(g, s, |s| - 1);
      }
      DedupTopological(g, front);
      DedupKeeps(front);
      var d := Dedup(front);
      if last !in d {
        forall i, y | 0 <= i < |d| + 1 && y in g.Succ((d + [last])[i])
          ensures y in (d + [last])[..i]
        {
          if i < |d| {
            assert (d + [last])[..i] == d[..i];
          } else {
            assert (d + [last])[..i] == d && s[..|s| - 1] == front;
          }
        }
      }
    }
  }

  lemma TopologicalPrefix(g: Graph, s: seq<Node>, n: nat)
    requires n <= |s| && Topological(g, s)
    ensures Topological(g, s[..n])
  {
    forall i, y | 0 <= i < n && y in g.Succ(s[..n][i])
      ensures y in s[..n][..i]
    {
      assert s[..n][..i] == s[..i];
    }
  }

  lemma TopologicalAppend(g: Graph, s: seq<Node>, t: seq<Node>)
    requires Topological(g, s) && Topological(g, t)
    ensures Topological(g, s + t)
  {
    forall i, y | 0 <= i < |s + t| && y in g.Succ((s + t)[i])
      ensures y in (s + t)[..i]
    {
      if i < |s| {
        assert (s + t)[..i] == s[..i];
      } else {
        assert (s + t)[..i] == s + t[..i - |s|];
        assert y in t[..i - |s|];
      }
    }
  }

  lemma {:induction false} WithoutAbsent<T>(s: seq<T>, x: T)
    requires x !in s
    ensures Without(s, x) == s
  {
    if s != [] {
      WithoutAbsent(s[..|s| - 1], x);
      assert s[|s| - 1] in s;
    }
  }

  // A closure ends with its root, so leaving the root out leaves a prefix.
  lemma WithoutLast<T(!new)>(s: seq<T>, x: T)
    requires Distinct(s) && EndsWith(s, x)
    ensures Without(s, x) == s[..|s| - 1]
  {
    WithoutAbsent(s[..|s| - 1], x);
  }

  lemma {:induction false} CueFilesKeeps(cue: map<Node, CueFile>, dirs: seq<Node>)
    ensures forall d :: d in CueFiles(cue, dirs) <==> d in dirs && d in cue
  {
    if dirs != [] {
      CueFilesKeeps(cue, dirs[..|dirs| - 1]);
      assert dirs == dirs[..|dirs| - 1] + [dirs[|dirs| - 1]];
    }
  }

  // The directories with a yconverge.cue, in the order of the walk.
  lemma {:induction false} CueFilesAreSelected(cue: map<Node, CueFile>, dirs: seq<Node>) returns (at: seq<nat>)
    ensures Selects(CueFiles(cue, dirs), dirs, d => d in cue, at)
  {
    if dirs == [] {
      at := [];
    } else {
      var front, last := dirs[..|dirs| - 1], dirs[|dirs| - 1];
      at := CueFilesAreSelected(cue, front);
      assert dirs == front + [last];
      SelectsMore(CueFiles(cue, front), front, d => d in cue, at, last, dirs);
      if last in cue {
        at := at + [|front|];
      }
    }
  }

  // The walk puts the target last, so its own file, if any, is the last one.
  lemma {:induction false} CueFilesLast(cue: map<Node, CueFile>, dirs: seq<Node>, target: Node)
    requires Distinct(dirs) && EndsWith(dirs, target) && target in cue
    ensures var files := CueFiles(cue, dirs);
            EndsWith(files, target) && target !in files[..|files| - 1]
  {
    CueFilesKeeps(cue, dirs[..|dirs| - 1]);
    var files := CueFiles(cue, dirs);
    assert files[..|files| - 1] == CueFiles(cue, dirs[..|dirs| - 1]);
  }

  // ---------- Properties of the plan ----------

  // Every import closure the plan needs is readable.
  ghost predicate Readable(t: Tree, cue: map<Node, CueFile>, target: Node) {
    && target in t.kustomizations
    && (forall b :: b in BaseGraph(t).unreadable ==> !Reach(BaseGraph(t), target, b))
    && (forall f, b :: InTree(t, cue, target, f) && b in ImportGraph(cue).unreadable ==>
          !Reach(ImportGraph(cue), f, b))
  }

  // f is a directory of the target's kustomize tree with a yconverge.cue.
  ghost predicate InTree(t: Tree, cue: map<Node, CueFile>, target: Node, f: Node) {
    Reach(BaseGraph(t), target, f) && f in cue
  }

  lemma TreeFilesAre(t: Tree, cue: map<Node, CueFile>, target: Node)
    requires Readable(t, cue, target)
    ensures forall f :: f in TreeFiles(t, cue, target) <==> InTree(t, cue, target, f)
    ensures forall f :: f in TreeFiles(t, cue, target) ==> Closure(cue, f).ok
    ensures target in cue ==>
              var files := TreeFiles(t, cue, target);
              EndsWith(files, target) && target !in files[..|files| - 1]
  {
    WalkFromRoot(BaseGraph(t), target);
    var dirs := Dirs(t, target).order;
    CueFilesKeeps(cue, dirs);
    forall f | f in TreeFiles(t, cue, target)
      ensures Closure(cue, f).ok
    {
      WalkFromRoot(ImportGraph(cue), f);
      assert InTree(t, cue, target, f);
    }
    if target in cue {
      CueFilesLast(cue, dirs, target);
    }
  }

  lemma ContributionIs(cue: map<Node, CueFile>, file: Node, target: Node)
    requires Closure(cue, file).ok
    ensures forall d :: d in Contribution(cue, file, target) <==>
              Reach(ImportGraph(cue), file, d) && (d != file || file == target)
    ensures Acyclic(ImportGraph(cue)) ==> Topological(ImportGraph(cue), Contribution(cue, file, target))
    ensures file == target ==> EndsWith(Contribution(cue, file, target), target)
  {
    var g := ImportGraph(cue);
    ClosureOrder(cue, file);
    var closure := Closure(cue, file).order;
    if file != target {
      DropRoot(g, closure, file);
    }
  }

  lemma DropRoot(g: Graph, closure: seq<Node>, file: Node)
    requires Distinct(closure) && EndsWith(closure, file)
    ensures forall d :: d in Without(closure, file) <==> d in closure && d != file
    ensures Topological(g, closure) ==> Topological(g, Without(closure, file))
  {
    WithoutLast(closure, file);
    assert closure == closure[..|closure| - 1] + [file];
    if Topological(g, closure) {
      TopologicalPrefix(g, closure, |closure| - 1);
    }
  }

  lemma {:induction false} ContributionsAre(cue: map<Node, CueFile>, files: seq<Node>, target: Node)
    requires forall f :: f in files ==> Closure(cue, f).ok
    ensures forall d :: d in Contributions(cue, files, target) <==>
              exists f :: f in files && Reach(ImportGraph(cue), f, d) && (d != f || f == target)
    ensures Acyclic(ImportGraph(cue)) ==> Topological(ImportGraph(cue), Contributions(cue, files, target))
  {
    if files != [] {
      var front, last := files[..|files| - 1], files[|files| - 1];
      assert files == front + [last];
      ContributionsAre(cue, front, target);
      ContributionIs(cue, last, target);
      if Acyclic(ImportGraph(cue)) {
        TopologicalAppend(ImportGraph(cue), Contributions(cue, front, target), Contribution(cue, last, target));
      }
    }
  }

  // The plan holds no directory twice. It holds the target and exactly the
  // directories some in-tree file imports, directly or not, other than that
  // file itself.
  lemma StepsAre(t: Tree, cue: map<Node, CueFile>, target: Node)
    requires Readable(t, cue, target)
    ensures Distinct(Steps(t, cue, target))
    ensures forall d :: d in Steps(t, cue, target) <==>
              || d == target
              || exists f :: InTree(t, cue, target, f) && f != d && Reach(ImportGraph(cue), f, d)
  {
    StepsDistinct(t, cue, target);
    forall d ensures d in Steps(t, cue, target) <==>
               d == target || exists f :: InTree(t, cue, target, f) && f != d && Reach(ImportGraph(cue), f, d)
    {
      IsStepIff(t, cue, target, d);
    }
  }

  lemma StepsDistinct(t: Tree, cue: map<Node, CueFile>, target: Node)
    ensures Distinct(Steps(t, cue, target))
  {
    DedupKeeps(Contributions(cue, TreeFiles(t, cue, target), target));
  }

  lemma IsStepIff(t: Tree, cue: map<Node, CueFile>, target: Node, d: Node)
    requires Readable(t, cue, target)
    ensures d in Steps(t, cue, target) <==>
              d == target || exists f :: InTree(t, cue, target, f) && f != d && Reach(ImportGraph(cue), f, d)
  {
    var files := TreeFiles(t, cue, target);
    TreeFilesAre(t, cue, target);
    ContributedIff(cue, files, target, d);
    DedupKeeps(Contributions(cue, files, target));
    SomeFileIff(t, cue, target, files, d);
  }

  lemma ContributedIff(cue: map<Node, CueFile>, files: seq<Node>, target: Node, d: Node)
    requires forall f :: f in files ==> Closure(cue, f).ok
    ensures d != target ==>
              (d in Contributions(cue, files, target) <==>
                 exists f :: f in files && f != d && Reach(ImportGraph(cue), f, d))
  {
    ContributionsAre(cue, files, target);
  }

  lemma SomeFileIff(t: Tree, cue: map<Node, CueFile>, target: Node, files: seq<Node>, d: Node)
    requires forall f :: f in files <==> InTree(t, cue, target, f)
    ensures (exists f :: f in files && f != d && Reach(ImportGraph(cue), f, d)) <==>
              exists f :: InTree(t, cue, target, f) && f != d && Reach(ImportGraph(cue), f, d)
  {
  }

  // On acyclic imports, every import of every step comes before the step.
  lemma StepsAreOrdered(t: Tree, cue: map<Node, CueFile>, target: Node)
    requires Readable(t, cue, target) && Acyclic(ImportGraph(cue))
    ensures Topological(ImportGraph(cue), Steps(t, cue, target))
  {
    var g, files := ImportGraph(cue), TreeFiles(t, cue, target);
    TreeFilesAre(t, cue, target);
    ContributionsAre(cue, files, target);
    var all := Contributions(cue, files, target);
    DedupTopological(g, all);
    DedupKeeps(all);
    if target !in Dedup(all) {
      TargetWithoutFile(t, cue, target);
      TopologicalAppend(g, Dedup(all), [target]);
    }
  }

  // A target that no contribution lists has no file, hence no imports.
  lemma TargetWithoutFile(t: Tree, cue: map<Node, CueFile>, target: Node)
    requires Readable(t, cue, target)
    requires target !in Contributions(cue, TreeFiles(t, cue, target), target)
    ensures target !in cue
  {
    TreeFilesAre(t, cue, target);
    ContributionsAre(cue, TreeFiles(t, cue, target), target);
    ReachRefl(BaseGraph(t), target);
    ReachRefl(ImportGraph(cue), target);
    assert target in cue ==> InTree(t, cue, target, target);
  }

  // ---------- When the plan ends with the target ----------

  function FirstIndex<T(==)>(s: seq<T>, x: T): (i: nat)
    requires x in s
    ensures i < |s| && s[i] == x && x !in s[..i]
  {
    if s[0] == x then 0
    else
      assert x in s[1..];
      var k := FirstIndex(s[1..], x);
      assert s[..k + 1] == [s[0]] + s[1..][..k];
      k + 1
  }

  // By the first time the target is listed, everything is listed.
  predicate NothingNewAfter<T(==)>(s: seq<T>, x: T) {
    x !in s || forall y :: y in s ==> y in s[..FirstIndex(s, x) + 1]
  }

  lemma {:induction false} DedupPrefix<T>(s: seq<T>, n: nat)
    requires n <= |s|
    ensures Dedup(s[..n]) <= Dedup(s)
    decreases |s|
  {
    if n < |s| {
      DedupPrefix(s[..|s| - 1], n);
      assert s[..|s| - 1][..n] == s[..n];
    } else {
      assert s[..n] == s;
    }
  }

  lemma DedupEndsWith<T(!new)>(s: seq<T>, x: T)
    requires x in s
    ensures EndsWith(Dedup(s), x) <==> NothingNewAfter(s, x)
  {
    var n := FirstIndex(s, x) + 1;
    var head := s[..n];
    assert head[..|head| - 1] == s[..n - 1];
    DedupKeeps(s[..n - 1]);
    assert Dedup(head) == Dedup(s[..n - 1]) + [x];
    DedupPrefix(s, n);
    DedupKeeps(s);
    DedupKeeps(head);
    var all, upTo := Dedup(s), Dedup(head);
    assert all[|upTo| - 1] == upTo[|upTo| - 1] == x;
    if EndsWith(all, x) {
      assert |upTo| - 1 == |all| - 1;
      assert all == upTo;
    } else {
      LongerHasMore(upTo, all);
    }
  }

  lemma LongerHasMore<T(!new)>(a: seq<T>, b: seq<T>)
    requires a <= b && |a| < |b| && Distinct(b)
    ensures exists y :: y in b && y !in a
  {
    assert b[|a|] in b && b[|a|] !in a;
  }

  // The plan ends with the target exactly when no in-tree file lists anything
  // new after the target's first listing.
  lemma EndsWithTargetIff(t: Tree, cue: map<Node, CueFile>, target: Node)
    ensures EndsWith(Steps(t, cue, target), target) <==>
              NothingNewAfter(Contributions(cue, TreeFiles(t, cue, target), target), target)
  {
    var all := Contributions(cue, TreeFiles(t, cue, target), target);
    DedupKeeps(all);
    if target in all {
      DedupEndsWith(all, target);
    }
  }

  // In particular when no in-tree file other than the target's leads back to
  // the target through imports.
  ghost predicate NoBackImport(t: Tree, cue: map<Node, CueFile>, target: Node) {
    forall f :: InTree(t, cue, target, f) && f != target ==> !Reach(ImportGraph(cue), f, target)
  }

  lemma NoBackImportEndsWithTarget(t: Tree, cue: map<Node, CueFile>, target: Node)
    requires Readable(t, cue, target) && NoBackImport(t, cue, target)
    ensures EndsWith(Steps(t, cue, target), target)
  {
    EndsWithTargetIff(t, cue, target);
    NobodyLeadsBack(t, cue, target);
    OwnListedLast(cue, TreeFiles(t, cue, target), target);
  }

  lemma NobodyLeadsBack(t: Tree, cue: map<Node, CueFile>, target: Node)
    requires Readable(t, cue, target) && NoBackImport(t, cue, target)
    ensures var files := TreeFiles(t, cue, target);
            && (forall f :: f in files ==> Closure(cue, f).ok)
            && (forall f :: f in files && f != target ==> !Reach(ImportGraph(cue), f, target))
            && (target in files ==> EndsWith(files, target) && target !in files[..|files| - 1])
  {
    TreeFilesAre(t, cue, target);
  }

  lemma OwnListedLast(cue: map<Node, CueFile>, files: seq<Node>, target: Node)
    requires forall f :: f in files ==> Closure(cue, f).ok
    requires forall f :: f in files && f != target ==> !Reach(ImportGraph(cue), f, target)
    requires target in files ==> EndsWith(files, target) && target !in files[..|files| - 1]
    ensures NothingNewAfter(Contributions(cue, files, target), target)
  {
    if target in files {
      var front := files[..|files| - 1];
      assert forall f :: f in front ==> f in files;
      assert files == front + [target];
      OwnFileLast(cue, front, target);
    } else {
      NotListed(cue, files, target);
    }
  }

  lemma NotListed(cue: map<Node, CueFile>, files: seq<Node>, target: Node)
    requires forall f :: f in files ==> Closure(cue, f).ok && !Reach(ImportGraph(cue), f, target)
    ensures target !in Contributions(cue, files, target)
  {
    ContributionsAre(cue, files, target);
  }

  lemma OwnFileLast(cue: map<Node, CueFile>, front: seq<Node>, target: Node)
    requires Closure(cue, target).ok
    requires forall f :: f in front ==> Closure(cue, f).ok && !Reach(ImportGraph(cue), f, target)
    ensures NothingNewAfter(Contributions(cue, front + [target], target), target)
  {
    ContributionsAre(cue, front, target);
    ContributionIs(cue, target, target);
    ClosureOrder(cue, target);
    assert (front + [target])[..|front|] == front;
    LastIsFirst(Contributions(cue, front, target), Contribution(cue, target, target), target);
  }

  lemma LastIsFirst<T(!new)>(before: seq<T>, own: seq<T>, x: T)
    requires x !in before && Distinct(own) && EndsWith(own, x)
    ensures NothingNewAfter(before + own, x)
  {
    var all := before + own;
    assert all[|all| - 1] == x;
    var i := FirstIndex(all, x);
    assert forall k :: 0 <= k < |all| - 1 ==> all[k] != x by {
      forall k | 0 <= k < |all| - 1
        ensures all[k] != x
      {
        if k < |before| {
          assert all[k] in before;
        } else {
          assert all[k] == own[k - |before|];
        }
      }
    }
    assert all[..i + 1] == all;
  }

  // ---------- The same, read off the import graph ----------

  lemma ContributionsSnoc(cue: map<Node, CueFile>, front: seq<Node>, last: Node, whole: seq<Node>, target: Node)
    requires whole == front + [last]
    ensures Contributions(cue, whole, target) == Contributions(cue, front, target) + Contribution(cue, last, target)
  {
    assert whole[..|whole| - 1] == front;
  }

  lemma {:induction false} ContributionsConcat(cue: map<Node, CueFile>, a: seq<Node>, b: seq<Node>, whole: seq<Node>,
                                               target: Node)
    requires whole == a + b
    ensures Contributions(cue, whole, target) == Contributions(cue, a, target) + Contributions(cue, b, target)
    decreases |b|
  {
    if b == [] {
      assert whole == a;
    } else {
      var front, last := b[..|b| - 1], b[|b| - 1];
      ContributionsConcat(cue, a, front, a + front, target);
      assert b == front + [last];
      OneMoreFile(cue, a, front, last, b, whole, target);
    }
  }

  lemma OneMoreFile(cue: map<Node, CueFile>, a: seq<Node>, front: seq<Node>, last: Node, b: seq<Node>,
                    whole: seq<Node>, target: Node)
    requires b == front + [last] && whole == a + b
    requires Contributions(cue, a + front, target) == Contributions(cue, a, target) + Contributions(cue, front, target)
    ensures Contributions(cue, whole, target) == Contributions(cue, a, target) + Contributions(cue, b, target)
  {
    assert whole == (a + front) + [last];
    ContributionsSnoc(cue, a + front, last, whole, target);
    ContributionsSnoc(cue, front, last, b, target);
    Associative(Contributions(cue, a, target), Contributions(cue, front, target), Contribution(cue, last, target));
  }

  lemma FirstIndexIs<T(!new)>(s: seq<T>, x: T, i: nat)
    requires i < |s| && s[i] == x && x !in s[..i]
    ensures FirstIndex(s, x) == i
  {
    var j := FirstIndex(s, x);
    forall k | 0 <= k < i ensures s[k] != x {
      assert s[k] == s[..i][k];
    }
    forall k | 0 <= k < j ensures s[k] != x {
      assert s[k] == s[..j][k];
    }
  }

  // The listing up to x when x first shows in the middle part.
  lemma FirstInMiddle<T(!new)>(s: seq<T>, a: seq<T>, b: seq<T>, c: seq<T>, x: T)
    requires s == a + (b + c) && x !in a && x in b
    ensures x in s && s[..FirstIndex(s, x) + 1] == a + b[..FirstIndex(b, x) + 1]
  {
    var k := FirstIndex(b, x);
    assert s[..|a| + k] == a + b[..k];
    assert s[|a| + k] == b[k];
    FirstIndexIs(s, x, |a| + k);
  }

  // d is imported, directly or not, by one of these files.
  ghost predicate ImportedBy(cue: map<Node, CueFile>, files: seq<Node>, d: Node) {
    exists g :: g in files && d != g && Reach(ImportGraph(cue), g, d)
  }

  // d is imported, directly or not, by some file of the target's tree.
  ghost predicate TreeImports(t: Tree, cue: map<Node, CueFile>, target: Node, d: Node) {
    exists f :: InTree(t, cue, target, f) && f != d && Reach(ImportGraph(cue), f, d)
  }

  // What a file lists up to the target.
  function UpToTarget(cue: map<Node, CueFile>, file: Node, target: Node): seq<Node>
    requires target in Contribution(cue, file, target)
  {
    var own := Contribution(cue, file, target);
    own[..FirstIndex(own, target) + 1]
  }

  // The first in-tree file, in walk order, that leads to the target decides: the
  // plan ends with the target exactly when everything any in-tree file imports is
  // imported by an earlier file or comes no later than the target in the deciding
  // file's own dependency order.
  lemma EndsWithTargetIffLed(t: Tree, cue: map<Node, CueFile>, target: Node,
                             front: seq<Node>, file: Node, rest: seq<Node>)
    requires Readable(t, cue, target) && TreeFiles(t, cue, target) == front + ([file] + rest)
    requires Reach(ImportGraph(cue), file, target)
    requires forall g :: g in front ==> !Reach(ImportGraph(cue), g, target)
    ensures target in Contribution(cue, file, target)
    ensures EndsWith(Steps(t, cue, target), target) <==>
              forall d :: TreeImports(t, cue, target, d) ==>
                ImportedBy(cue, front, d) || d in UpToTarget(cue, file, target)
  {
    var files := TreeFiles(t, cue, target);
    TreeFilesAre(t, cue, target);
    EndsWithTargetIff(t, cue, target);
    FrontAndFile(cue, files, front, file, rest, target);
    ListedIff(t, cue, target, files, Contributions(cue, files, target));
    LedIff(t, cue, target, front, file, Contributions(cue, files, target), Contributions(cue, front, target),
           Contribution(cue, file, target), Contributions(cue, rest, target));
  }

  lemma LedIff(t: Tree, cue: map<Node, CueFile>, target: Node, front: seq<Node>, file: Node,
               s: seq<Node>, a: seq<Node>, own: seq<Node>, c: seq<Node>)
    requires s == a + (own + c) && target !in a && target in own && own == Contribution(cue, file, target)
    requires target in UpToTarget(cue, file, target)
    requires forall d :: d in a <==> ImportedBy(cue, front, d)
    requires forall d :: d != target ==> (d in s <==> TreeImports(t, cue, target, d))
    ensures NothingNewAfter(s, target) <==>
              forall d :: TreeImports(t, cue, target, d) ==>
                ImportedBy(cue, front, d) || d in UpToTarget(cue, file, target)
  {
    var upTo := UpToTarget(cue, file, target);
    FirstInMiddle(s, a, own, c, target);
    NothingNewIff(s, target, a, upTo);
    Relabel(s, target, a, upTo, d => TreeImports(t, cue, target, d), d => ImportedBy(cue, front, d));
  }

  // The same said of what the lists hold.
  lemma Relabel<T(!new)>(s: seq<T>, x: T, a: seq<T>, upTo: seq<T>, listed: T -> bool, before: T -> bool)
    requires x in upTo
    requires forall d :: d != x ==> (d in s <==> listed(d))
    requires forall d :: d in a <==> before(d)
    ensures (forall y :: y in s && y != x ==> y in a || y in upTo) <==>
              forall d :: listed(d) ==> before(d) || d in upTo
  {
  }

  lemma NothingNewIff<T(!new)>(s: seq<T>, x: T, a: seq<T>, upTo: seq<T>)
    requires x in s && s[..FirstIndex(s, x) + 1] == a + upTo && x in upTo
    ensures NothingNewAfter(s, x) <==> forall y :: y in s && y != x ==> y in a || y in upTo
  {
  }

  lemma FrontAndFile(cue: map<Node, CueFile>, files: seq<Node>, front: seq<Node>, file: Node, rest: seq<Node>,
                     target: Node)
    requires files == front + ([file] + rest)
    requires forall f :: f in files ==> Closure(cue, f).ok
    requires Reach(ImportGraph(cue), file, target)
    requires forall g :: g in front ==> !Reach(ImportGraph(cue), g, target)
    ensures Contributions(cue, files, target)
         == Contributions(cue, front, target) + (Contribution(cue, file, target) + Contributions(cue, rest, target))
    ensures target !in Contributions(cue, front, target) && target in Contribution(cue, file, target)
    ensures target in UpToTarget(cue, file, target)
    ensures forall d :: d in Contributions(cue, front, target) <==> ImportedBy(cue, front, d)
  {
    forall g | g in front ensures Closure(cue, g).ok {
      assert g in files;
    }
    assert files[|front|] == file && file in files;
    FrontImports(cue, front, target);
    NotListed(cue, front, target);
    ContributionIs(cue, file, target);
    var own := Contribution(cue, file, target);
    assert UpToTarget(cue, file, target)[FirstIndex(own, target)] == target;
    SplitContributions(cue, files, front, file, rest, target);
  }

  lemma SplitContributions(cue: map<Node, CueFile>, files: seq<Node>, front: seq<Node>, file: Node, rest: seq<Node>,
                           target: Node)
    requires files == front + ([file] + rest)
    ensures Contributions(cue, files, target)
         == Contributions(cue, front, target) + (Contribution(cue, file, target) + Contributions(cue, rest, target))
  {
    var tail := [file] + rest;
    ContributionsConcat(cue, front, tail, files, target);
    ContributionsConcat(cue, [file], rest, tail, target);
    ContributionsOne(cue, file, target);
  }

  lemma ContributionsOne(cue: map<Node, CueFile>, file: Node, target: Node)
    ensures Contributions(cue, [file], target) == Contribution(cue, file, target)
  {
    assert [file][..0] == [];
    assert [] + Contribution(cue, file, target) == Contribution(cue, file, target);
  }

  lemma FrontImports(cue: map<Node, CueFile>, front: seq<Node>, target: Node)
    requires forall g :: g in front ==> Closure(cue, g).ok && !Reach(ImportGraph(cue), g, target)
    ensures forall d :: d in Contributions(cue, front, target) <==> ImportedBy(cue, front, d)
  {
    ContributionsAre(cue, front, target);
    ReachRefl(ImportGraph(cue), target);
  }

  // Beside the target, the listing is what the tree's files import.
  lemma ListedIff(t: Tree, cue: map<Node, CueFile>, target: Node, files: seq<Node>, s: seq<Node>)
    requires s == Contributions(cue, files, target)
    requires forall f :: f in files ==> Closure(cue, f).ok
    requires forall f :: f in files <==> InTree(t, cue, target, f)
    ensures forall d :: d != target ==> (d in s <==> TreeImports(t, cue, target, d))
  {
    forall d | d != target ensures d in s <==> TreeImports(t, cue, target, d) {
      ContributedIff(cue, files, target, d);
      SomeFileIff(t, cue, target, files, d);
    }
  }

  // When no in-tree file leads to the target, the target is added at the end.
  lemma UnledTargetIsLast(t: Tree, cue: map<Node, CueFile>, target: Node)
    requires Readable(t, cue, target)
    requires forall f :: InTree(t, cue, target, f) ==> !Reach(ImportGraph(cue), f, target)
    ensures EndsWith(Steps(t, cue, target), target)
  {
    NoBackImportEndsWithTarget(t, cue, target);
  }
}
