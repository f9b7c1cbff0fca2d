/** pkg/yconverge/deps.go: dependency order from CUE imports. */
module Deps {
  import opened Wrappers
  import opened Graph
  import opened Sequences

  // A yconverge.cue file: unreadable, or the directories of its imports in
  // file order (module prefix and package label stripped, the verify schema
  // left out). A directory without the file has no imports.
  datatype CueFile = Unreadable | CueFile(imports: seq<Node>)

  // The CUE module around the target: none, one whose module.cue is unreadable
  // or declares no name, or a named one.
  datatype CueModule = NoModule | Unnamed | Named

  function ImportGraph(cue: map<Node, CueFile>): Graph {
    Graph(map d | d in cue && cue[d].CueFile? :: cue[d].imports,
          set d | d in cue && cue[d].Unreadable?)
  }

  lemma ImportGraphAt(cue: map<Node, CueFile>, g: Graph, dir: Node)
    requires g == ImportGraph(cue)
    ensures dir in g.unreadable <==> dir in cue && cue[dir].Unreadable?
    ensures dir in g.edges <==> dir in cue && cue[dir].CueFile?
    ensures dir in g.edges ==> g.edges[dir] == cue[dir].imports
  {
  }

  // resolveDepsWalk's shared state: the visited map and the order it appends to.
  class Resolver {
    const cue: map<Node, CueFile>
    ghost const graph: Graph
    var visited: set<Node>
    var order: seq<Node>

    constructor (cueFiles: map<Node, CueFile>)
      ensures cue == cueFiles && graph == ImportGraph(cueFiles) && visited == {} && order == []
    {
      cue, graph := cueFiles, ImportGraph(cueFiles);
      visited, order := {}, [];
    }

    method ResolveDepsWalk(dir: Node) returns (ok: bool)
      requires graph == ImportGraph(cue)
      modifies this
      ensures var w := Visit(graph, dir, old(visited));
              ok == w.ok && visited == w.seen && order == old(order) + w.order
      decreases graph.edges.Keys - visited
    {
      if dir in visited {
        return true;
      }
      visited := visited + {dir};
      ImportGraphAt(cue, graph, dir);
      if dir in cue && cue[dir].Unreadable? {
        return false;
      }
      var imports := if dir in cue then cue[dir].imports else [];
      ghost var seen, whole := visited, VisitAll(graph, imports, visited);
      for i := 0 to |imports|
        invariant seen <= visited
        invariant Continues(graph, whole, imports[i..], visited, old(order), order)
      {
        ghost var left, before, reached := imports[i..], order, visited;
        assert left[0] == imports[i] && left[1..] == imports[i + 1..];
        assert dir in graph.edges.Keys - old(visited) && dir !in graph.edges.Keys - visited;
        ok := ResolveDepsWalk(imports[i]);
        ContinuesAfter(graph, whole, left, reached, old(order), before);
        if !ok {
          return false;
        }
      }
      assert imports[|imports|..] == [] && order + [] == order;
      assert old(order) + (whole.order + [dir]) == (old(order) + whole.order) + [dir];
      order := order + [dir];
      return true;
    }
  }

  // ResolveDeps computes this walk of the import graph.
  function Closure(cue: map<Node, CueFile>, target: Node): Walk {
    Visit(ImportGraph(cue), target, {})
  }

  method ResolveDeps(cue: map<Node, CueFile>, named: bool, target: Node) returns (r: Result<seq<Node>, string>)
    ensures r.Success? <==> named && Closure(cue, target).ok
    ensures r.Success? ==> r.value == Closure(cue, target).order
  {
    if !named {
      return Failure("no CUE module name");
    }
    var w := new Resolver(cue);
    var ok := w.ResolveDepsWalk(target);
    if !ok {
      return Failure("unreadable yconverge.cue");
    }
    return Success(w.order);
  }

  // The import closure in converge order. Resolving fails exactly when an
  // imported file is unreadable; otherwise it gives every directory reachable
  // through imports once, the target last, an import before its importer
  // unless they import each other.
  lemma ClosureOrder(cue: map<Node, CueFile>, target: Node)
    ensures Closure(cue, target).ok <==>
              forall b :: b in cue && cue[b].Unreadable? ==> !Reach(ImportGraph(cue), target, b)
    ensures Closure(cue, target).ok ==>
              var o := Closure(cue, target).order;
              && Distinct(o)
              && (forall d :: d in o <==> Reach(ImportGraph(cue), target, d))
              && EndsWith(o, target)
              && Ordered(ImportGraph(cue), {}, o)
              && (Acyclic(ImportGraph(cue)) ==> Topological(ImportGraph(cue), o))
  {
    var g := ImportGraph(cue);
    WalkFromRoot(g, target);
    assert forall b :: b in g.unreadable <==> b in cue && cue[b].Unreadable?;
    if Closure(cue, target).ok && Acyclic(g) {
      WalkIsTopological(g, target);
    }
  }
}
