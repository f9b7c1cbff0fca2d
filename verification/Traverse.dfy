/** pkg/kustomize/traverse: the walk over a kustomization tree. */
module Traverse {
  import opened Wrappers
  import opened Graph
  import opened Sequences
  import Strings

  // A kustomization file as the walk reads it: broken (unreadable or not
  // YAML), or its namespace and its two lists of references.
  datatype Kustomization =
    | Broken
    | Kustomization(namespace: string, resources: seq<string>, components: seq<string>)

  // The files the walk sees: which paths are directories, the kustomization
  // of each directory that has one, and the cleaned join of a directory and
  // an entry.
  datatype Tree = Tree(
    kustomizations: map<Node, Kustomization>,
    directories: set<Node>,
    join: (Node, string) -> Node)

  // Refs that are not local paths: a scheme, a git@ prefix, or a first
  // segment that looks like a domain.
  predicate IsRemote(entry: string) {
    || Strings.Contains(entry, "://")
    || "git@" <= entry
    || var i := Strings.IndexOf(entry, '/');
       i < |entry| && '.' in entry[..i] && !("." <= entry[..i])
  }

  // A scheme anywhere, or the git@ prefix.
  ghost predicate Schemed(entry: string) {
    (exists i :: 0 <= i <= |entry| && "://" <= entry[i..]) || "git@" <= entry
  }

  lemma SchemedIsRemote(entry: string)
    requires Schemed(entry)
    ensures IsRemote(entry)
  {
    Strings.ContainsIff(entry, "://");
  }

  // Otherwise an entry is remote exactly when it goes on after a first segment
  // with a dot in it, and not at its start: a domain.
  lemma DomainIff(segment: string, rest: string)
    requires '/' !in segment && !Schemed(segment + "/" + rest)
    ensures IsRemote(segment + "/" + rest) <==> '.' in segment && segment[0] != '.'
  {
    var entry := segment + "/" + rest;
    Strings.ContainsIff(entry, "://");
    assert entry[|segment|] == '/' && forall k :: 0 <= k < |segment| ==> entry[k] == segment[k];
    assert Strings.IndexOf(entry, '/') == |segment|;
    assert entry[..|segment|] == segment;
  }

  lemma NoSlashIsLocal(entry: string)
    requires '/' !in entry && !Schemed(entry)
    ensures !IsRemote(entry)
  {
    Strings.ContainsIff(entry, "://");
  }

  // A path to a sibling or a parent is local.
  lemma RelativeIsLocal(entry: string)
    requires "./" <= entry || "../" <= entry
    requires forall i :: 0 <= i <= |entry| ==> !("://" <= entry[i..])
    ensures !IsRemote(entry)
  {
    var n := if "./" <= entry then 1 else 2;
    var segment, rest := entry[..n], entry[n + 1..];
    assert entry == segment + "/" + rest;
    assert entry[0] == '.';
    DomainIff(segment, rest);
  }

  predicate IsLocalBase(t: Tree, dir: Node, entry: string) {
    && !IsRemote(entry)
    && t.join(dir, entry) in t.directories
    && t.join(dir, entry) in t.kustomizations
  }

  function BasesOf(t: Tree, dir: Node, entries: seq<string>): seq<Node> {
    if entries == [] then []
    else
      (if IsLocalBase(t, dir, entries[0]) then [t.join(dir, entries[0])] else [])
      + BasesOf(t, dir, entries[1..])
  }

  function LocalBases(t: Tree, dir: Node, k: Kustomization): seq<Node>
    requires k.Kustomization?
  {
    BasesOf(t, dir, k.resources + k.components)
  }

  lemma {:induction false} BasesOfAppend(t: Tree, dir: Node, es: seq<string>, e: string)
    ensures BasesOf(t, dir, es + [e]) ==
            BasesOf(t, dir, es) + (if IsLocalBase(t, dir, e) then [t.join(dir, e)] else [])
  {
    if es == [] {
      assert es + [e] == [e];
    } else {
      assert (es + [e])[1..] == es[1..] + [e];
      BasesOfAppend(t, dir, es[1..], e);
    }
  }

  // The entries that are local, directories and have a kustomization, in order,
  // each joined to the directory.
  lemma {:induction false} BasesAreSelected(t: Tree, dir: Node, entries: seq<string>)
    returns (local: seq<string>, at: seq<nat>)
    ensures Selects(local, entries,
                    e => !IsRemote(e) && t.join(dir, e) in t.directories && t.join(dir, e) in t.kustomizations, at)
    ensures BasesOf(t, dir, entries) == seq(|local|, i requires 0 <= i < |local| => t.join(dir, local[i]))
  {
    if entries == [] {
      local, at := [], [];
    } else {
      var front, last := entries[..|entries| - 1], entries[|entries| - 1];
      local, at := BasesAreSelected(t, dir, front);
      assert entries == front + [last];
      BasesOfAppend(t, dir, front, last);
      SelectsMore(local, front,
                  e => !IsRemote(e) && t.join(dir, e) in t.directories && t.join(dir, e) in t.kustomizations,
                  at, last, entries);
      if IsLocalBase(t, dir, last) {
        local, at := local + [last], at + [|front|];
      }
    }
  }

  // What the source calls local bases: resources before components, each entry
  // that is local, a directory and has a kustomization.
  lemma LocalBasesAre(t: Tree, dir: Node, k: Kustomization) returns (local: seq<string>, at: seq<nat>)
    requires k.Kustomization?
    ensures Selects(local, k.resources + k.components,
                    e => !IsRemote(e) && t.join(dir, e) in t.directories && t.join(dir, e) in t.kustomizations, at)
    ensures |LocalBases(t, dir, k)| == |local|
    ensures forall i :: 0 <= i < |local| ==> LocalBases(t, dir, k)[i] == t.join(dir, local[i])
  {
    local, at := BasesAreSelected(t, dir, k.resources + k.components);
  }

  // Every base is a directory with a kustomization of its own.
  lemma {:induction false} BasesAreKustomizations(t: Tree, dir: Node, entries: seq<string>)
    ensures forall b :: b in BasesOf(t, dir, entries) ==> b in t.kustomizations && b in t.directories
  {
    if entries != [] {
      BasesAreKustomizations(t, dir, entries[1..]);
    }
  }

  method ListBases(t: Tree, dir: Node, k: Kustomization) returns (bases: seq<Node>)
    requires k.Kustomization?
    ensures bases == LocalBases(t, dir, k)
  {
    bases := [];
    var entries := k.resources + k.components;
    for i := 0 to |entries|
      invariant bases == BasesOf(t, dir, entries[..i])
    {
      var e := entries[i];
      assert entries[..i + 1] == entries[..i] + [e];
      BasesOfAppend(t, dir, entries[..i], e);
      if IsRemote(e) {
        continue;
      }
      var path := t.join(dir, e);
      if path !in t.directories || path !in t.kustomizations {
        continue;
      }
      bases := bases + [path];
    }
    assert entries[..|entries|] == entries;
  }

  // The base relation as a graph; a broken kustomization is unreadable.
  function BaseGraph(t: Tree): Graph {
    Graph(map d | d in t.kustomizations && t.kustomizations[d].Kustomization?
            :: LocalBases(t, d, t.kustomizations[d]),
          set d | d in t.kustomizations && t.kustomizations[d].Broken?)
  }

  lemma BaseGraphAt(t: Tree, g: Graph, dir: Node)
    requires g == BaseGraph(t) && dir in t.kustomizations
    ensures dir in g.unreadable <==> t.kustomizations[dir].Broken?
    ensures t.kustomizations[dir].Kustomization? ==>
              dir in g.edges && g.edges[dir] == LocalBases(t, dir, t.kustomizations[dir])
  {
  }

  // walkTree's shared state.
  class Walker {
    const tree: Tree
    ghost const graph: Graph
    var visited: set<Node>
    var results: seq<Node>

    constructor (t: Tree)
      ensures tree == t && graph == BaseGraph(t) && visited == {} && results == []
    {
      tree, graph := t, BaseGraph(t);
      visited, results := {}, [];
    }

    method WalkTree(dir: Node) returns (ok: bool)
      requires graph == BaseGraph(tree)
      modifies this
      ensures dir in tree.kustomizations ==>
                var w := Visit(graph, dir, old(visited));
                ok == w.ok && visited == w.seen && results == old(results) + w.order
      ensures dir !in tree.kustomizations ==>
                ok && visited == old(visited) + {dir} && results == old(results)
      decreases graph.edges.Keys - visited
    {
      if dir in visited {
        return true;
      }
      visited := visited + {dir};
      if dir !in tree.kustomizations {
        return true;
      }
      BaseGraphAt(tree, graph, dir);
      var k := tree.kustomizations[dir];
      if k.Broken? {
        return false;
      }
      var bases := ListBases(tree, dir, k);
      BasesAreKustomizations(tree, dir, k.resources + k.components);
      ghost var seen, whole := visited, VisitAll(graph, bases, visited);
      for i := 0 to |bases|
        invariant seen <= visited
        invariant Continues(graph, whole, bases[i..], visited, old(results), results)
      {
        ghost var left := bases[i..];
        assert left[0] == bases[i] && left[1..] == bases[i + 1..];
        assert dir in graph.edges.Keys - old(visited) && dir !in graph.edges.Keys - visited;
        ghost var before, reached := results, visited;
        ok := WalkTree(bases[i]);
        ContinuesAfter(graph, whole, left, reached, old(results), before);
        if !ok {
          return false;
        }
      }
      assert bases[|bases|..] == [] && results + [] == results;
      assert old(results) + (whole.order + [dir]) == (old(results) + whole.order) + [dir];
      results := results + [dir];
      return true;
    }
  }

  // Walk's directory list, and whether it gives one: the root needs a
  // kustomization, bases need a readable one.
  function Dirs(t: Tree, root: Node): Walk {
    Visit(BaseGraph(t), root, {})
  }

  // The root's kustomization and collectDirs.
  method CollectDirs(t: Tree, root: Node) returns (r: Result<seq<Node>, string>)
    ensures r.Success? <==> root in t.kustomizations && Dirs(t, root).ok
    ensures r.Success? ==> r.value == Dirs(t, root).order
  {
    if root !in t.kustomizations {
      return Failure("no kustomization file");
    }
    var w := new Walker(t);
    var ok := w.WalkTree(root);
    if !ok {
      return Failure("unreadable kustomization");
    }
    return Success(w.results);
  }

  // Every directory of the tree once, the root last, a base before what it is
  // a base of unless they are bases of each other. It fails exactly on a
  // broken kustomization in the tree.
  lemma DirsOrder(t: Tree, root: Node)
    ensures Dirs(t, root).ok <==>
              forall b :: b in t.kustomizations && t.kustomizations[b].Broken? ==> !Reach(BaseGraph(t), root, b)
    ensures Dirs(t, root).ok ==>
              var o := Dirs(t, root).order;
              && Distinct(o)
              && (forall d :: d in o <==> Reach(BaseGraph(t), root, d))
              && EndsWith(o, root)
              && Ordered(BaseGraph(t), {}, o)
              && (Acyclic(BaseGraph(t)) ==> Topological(BaseGraph(t), o))
  {
    var g := BaseGraph(t);
    WalkFromRoot(g, root);
    assert forall b :: b in g.unreadable <==> b in t.kustomizations && t.kustomizations[b].Broken?;
    if Dirs(t, root).ok && Acyclic(g) {
      WalkIsTopological(g, root);
    }
  }

  // ---------- resolveNamespace ----------

  // The one base resolveNamespace descends into, when it descends.
  function SingleBase(t: Tree, d: Node): Option<Node> {
    if d in t.kustomizations && t.kustomizations[d].Kustomization? && t.kustomizations[d].namespace == "" then
      var bases := LocalBases(t, d, t.kustomizations[d]);
      if |bases| == 1 then Some(bases[0]) else None
    else None
  }

  function OwnNamespace(t: Tree, d: Node): string {
    if d in t.kustomizations && t.kustomizations[d].Kustomization? then t.kustomizations[d].namespace else ""
  }

  // resolveNamespace with its call depth bounded: None when the bound is hit.
  // The source has no bound and no visited set.
  function ResolveNamespace(t: Tree, d: Node, depth: nat): Option<string>
    decreases depth
  {
    match SingleBase(t, d)
    case None => Some(OwnNamespace(t, d))
    case Some(b) => if depth == 0 then None else ResolveNamespace(t, b, depth - 1)
  }

  // The k-th directory resolveNamespace visits, if it gets that far.
  function Chain(t: Tree, d: Node, k: nat): Option<Node>
    decreases k
  {
    if k == 0 then Some(d)
    else match SingleBase(t, d)
      case None => None
      case Some(b) => Chain(t, b, k - 1)
  }

  lemma {:induction false} ChainSplit(t: Tree, d: Node, i: nat, k: nat)
    ensures Chain(t, d, i + k) ==
            (if Chain(t, d, i).Some? then Chain(t, Chain(t, d, i).value, k) else None)
    decreases i
  {
    if i > 0 && SingleBase(t, d).Some? {
      ChainSplit(t, SingleBase(t, d).value, i - 1, k);
    }
  }

  lemma {:induction false} ResolvesWhereChainEnds(t: Tree, d: Node, depth: nat)
    ensures ResolveNamespace(t, d, depth).Some? <==> Chain(t, d, depth + 1).None?
    decreases depth
  {
    if SingleBase(t, d).Some? && depth > 0 {
      ResolvesWhereChainEnds(t, SingleBase(t, d).value, depth - 1);
    }
  }

  // The namespace the recursion comes to.
  ghost predicate NamespaceIs(t: Tree, d: Node, namespace: string) {
    exists depth: nat :: ResolveNamespace(t, d, depth) == Some(namespace)
  }

  // A kustomization's own namespace wins; without one, a single base decides;
  // otherwise there is none.
  lemma NamespaceRules(t: Tree, d: Node, namespace: string)
    ensures var found := d in t.kustomizations && t.kustomizations[d].Kustomization?;
            && (!found ==> (NamespaceIs(t, d, namespace) <==> namespace == ""))
            && (found && t.kustomizations[d].namespace != "" ==>
                 (NamespaceIs(t, d, namespace) <==> namespace == t.kustomizations[d].namespace))
            && (found && t.kustomizations[d].namespace == "" ==>
                 var bases := LocalBases(t, d, t.kustomizations[d]);
                 if |bases| == 1 then NamespaceIs(t, d, namespace) <==> NamespaceIs(t, bases[0], namespace)
                 else NamespaceIs(t, d, namespace) <==> namespace == "")
  {
    match SingleBase(t, d)
    case None =>
      assert ResolveNamespace(t, d, 0) == Some(OwnNamespace(t, d));
    case Some(b) =>
      if depth: nat :| ResolveNamespace(t, d, depth) == Some(namespace) {
        assert ResolveNamespace(t, b, depth - 1) == Some(namespace);
      }
      if depth: nat :| ResolveNamespace(t, b, depth) == Some(namespace) {
        assert ResolveNamespace(t, d, depth + 1) == Some(namespace);
      }
  }

  // The bound never changes an answer.
  lemma {:induction false} DepthIrrelevant(t: Tree, d: Node, m: nat, n: nat)
    requires ResolveNamespace(t, d, m).Some? && ResolveNamespace(t, d, n).Some?
    ensures ResolveNamespace(t, d, m) == ResolveNamespace(t, d, n)
    decreases m
  {
    if SingleBase(t, d).Some? {
      DepthIrrelevant(t, SingleBase(t, d).value, m - 1, n - 1);
    }
  }

  // Two indices of one value in a sequence over a smaller set.
  lemma {:induction false} Pigeonhole<T>(s: seq<T>, within: set<T>)
    requires forall x :: x in s ==> x in within
    requires |s| > |within|
    ensures exists i, j :: 0 <= i < j < |s| && s[i] == s[j]
    decreases |s|
  {
    var last := s[|s| - 1];
    var front := s[..|s| - 1];
    if last in front {
      var i :| 0 <= i < |front| && front[i] == last;
      assert s[i] == s[|s| - 1];
    } else {
      assert last in s;
      forall x | x in front
        ensures x in within - {last}
      {
        assert x in s;
      }
      Pigeonhole(front, within - {last});
      var i, j :| 0 <= i < j < |front| && front[i] == front[j];
      assert s[i] == s[j];
    }
  }

  ghost predicate ChainRepeats(t: Tree, d: Node) {
    exists i: nat, j: nat :: i < j && Chain(t, d, i).Some? && Chain(t, d, i) == Chain(t, d, j)
  }

  ghost predicate NamespaceResolves(t: Tree, d: Node) {
    exists depth: nat :: ResolveNamespace(t, d, depth).Some?
  }

  // The recursion ends exactly when the chain of single bases visits no
  // directory twice.
  lemma NamespaceResolvesIff(t: Tree, d: Node)
    ensures NamespaceResolves(t, d) <==> !ChainRepeats(t, d)
  {
    if NamespaceResolves(t, d) && ChainRepeats(t, d) {
      var depth: nat :| ResolveNamespace(t, d, depth).Some?;
      RepeatNeverEnds(t, d, depth);
      ResolvesWhereChainEnds(t, d, depth);
      assert false;
    }
    if !NamespaceResolves(t, d) {
      LongChainRepeats(t, d);
    }
  }

  // A depth of as many calls as there are kustomizations tells.
  lemma DepthTells(t: Tree, d: Node)
    ensures ResolveNamespace(t, d, |t.kustomizations|).Some? <==> NamespaceResolves(t, d)
  {
    if ResolveNamespace(t, d, |t.kustomizations|).None? {
      LongChainRepeats(t, d);
      NamespaceResolvesIff(t, d);
    }
  }

  // A chain that returns to a directory is there after every number of steps.
  lemma RepeatNeverEnds(t: Tree, d: Node, depth: nat)
    requires ChainRepeats(t, d)
    ensures Chain(t, d, depth + 1).Some?
  {
    var i: nat, j: nat :| i < j && Chain(t, d, i).Some? && Chain(t, d, i) == Chain(t, d, j);
    var a := Chain(t, d, i).value;
    ChainSplit(t, d, i, j - i);
    assert Chain(t, a, j - i) == Some(a);
    LoopForever(t, a, j - i, depth + 1);
    ChainSplit(t, d, i, depth + 1);
    ChainSplit(t, d, depth + 1, i);
  }

  lemma {:induction false} LoopForever(t: Tree, a: Node, period: nat, k: nat)
    requires period > 0 && Chain(t, a, period) == Some(a)
    ensures Chain(t, a, k).Some?
    decreases k
  {
    if k >= period {
      ChainSplit(t, a, period, k - period);
      LoopForever(t, a, period, k - period);
    } else {
      ChainSplit(t, a, k, period - k);
    }
  }

  lemma LongChainRepeats(t: Tree, d: Node)
    requires ResolveNamespace(t, d, |t.kustomizations|).None?
    ensures ChainRepeats(t, d)
  {
    var names := t.kustomizations.Keys;
    ResolvesWhereChainEnds(t, d, |names|);
    forall k: nat | k <= |names|
      ensures Chain(t, d, k).Some? && Chain(t, d, k).value in names
    {
      ChainSplit(t, d, k, |names| + 1 - k);
    }
    var s := seq(|names| + 1, (k: nat) => Chain(t, d, k).GetOr(d));
    Pigeonhole(s, names);
    var i, j :| 0 <= i < j < |s| && s[i] == s[j];
    assert Chain(t, d, i) == Chain(t, d, j);
  }

  // ---------- Walk ----------

  // A recursion that never ends overflows the stack, which kills the process.
  datatype Outcome = Walked(dirs: seq<Node>, namespace: string) | Refused(message: string) | StackOverflow

  // The walk comes back with a result.
  ghost predicate Walks(t: Tree, root: Node) {
    root in t.kustomizations && Dirs(t, root).ok && NamespaceResolves(t, root)
  }

  // Walk
  method WalkRoot(t: Tree, root: Node) returns (r: Outcome)
    ensures r.Refused? <==> !(root in t.kustomizations && Dirs(t, root).ok)
    ensures r.Walked? <==> Walks(t, root)
    ensures r.Walked? ==> r.dirs == Dirs(t, root).order
    ensures r.Walked? ==> exists depth :: ResolveNamespace(t, root, depth) == Some(r.namespace)
  {
    var collected := CollectDirs(t, root);
    if collected.Failure? {
      return Refused(collected.error);
    }
    DepthTells(t, root);
    var namespace := ResolveNamespace(t, root, |t.kustomizations|);
    return if namespace.None? then StackOverflow else Walked(collected.value, namespace.value);
  }

  // It does exactly when everything in the tree can be read and the chain of
  // single bases visits no directory twice.
  lemma WalksIff(t: Tree, root: Node)
    ensures Walks(t, root) <==>
              && root in t.kustomizations
              && (forall b :: b in t.kustomizations && t.kustomizations[b].Broken? ==> !Reach(BaseGraph(t), root, b))
              && !ChainRepeats(t, root)
  {
    DirsOrder(t, root);
    NamespaceResolvesIff(t, root);
  }

  // A kustomization that is its own base and sets no namespace: the directory
  // walk succeeds and the namespace recursion never ends.
  lemma NamespaceLoopWitness() returns (t: Tree, root: Node)
    ensures root in t.kustomizations && Dirs(t, root).ok
    ensures !NamespaceResolves(t, root)
  {
    root := Dir("a");
    t := Tree(map[root := Kustomization("", ["a"], [])], {root}, (d: Node, e: string) => Dir(e));
    assert !IsRemote("a") by {
      assert "a"[1..] == "";
    }
    assert LocalBases(t, root, t.kustomizations[root]) == [root] by {
      assert ["a"] + [] == ["a"] && ["a"][1..] == [];
      assert BasesOf(t, root, []) == [];
    }
    assert BaseGraph(t).unreadable == {};
    DirsOrder(t, root);
    assert SingleBase(t, root) == Some(root);
    assert Chain(t, root, 0) == Chain(t, root, 1);
    NamespaceResolvesIff(t, root);
  }
}
