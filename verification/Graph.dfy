/** Directed graphs of directories and the post-order depth-first walk that
    both the CUE import resolver and the kustomization walker perform. The
    graph may contain cycles, and a node may be unreadable. */
module Graph {
  import opened Sequences

  // A directory, by its absolute path.
  datatype Node = Dir(path: string)

  // `edges` maps a readable node to its successors in listing order; a node
  // outside `edges` has none. Visiting a node of `unreadable` fails.
  datatype Graph = Graph(edges: map<Node, seq<Node>>, unreadable: set<Node>) {
    function Succ(n: Node): seq<Node> {
      if n in edges then edges[n] else []
    }
  }

  // ---------- Reachability ----------

  ghost predicate IsPath(g: Graph, p: seq<Node>) {
    |p| > 0 && forall i, j :: 0 <= i && j == i + 1 < |p| ==> p[j] in g.Succ(p[i])
  }

  ghost predicate PathFromTo(g: Graph, p: seq<Node>, a: Node, b: Node) {
    IsPath(g, p) && p[0] == a && p[|p| - 1] == b
  }

  ghost predicate Reach(g: Graph, a: Node, b: Node) {
    exists p :: PathFromTo(g, p, a, b)
  }

  // No node is a successor of something it reaches.
  ghost predicate Acyclic(g: Graph) {
    forall a, b :: b in g.Succ(a) ==> !Reach(g, b, a)
  }

  lemma ReachRefl(g: Graph, a: Node)
    ensures Reach(g, a, a)
  {
    assert PathFromTo(g, [a], a, a);
  }

  lemma ReachFirst(g: Graph, a: Node, b: Node, c: Node)
    requires b in g.Succ(a) && Reach(g, b, c)
    ensures Reach(g, a, c)
  {
    var p :| PathFromTo(g, p, b, c);
    assert PathFromTo(g, [a] + p, a, c);
  }

  // A set closed under successors contains everything its members reach.
  lemma {:induction false} ClosedContainsPath(g: Graph, s: set<Node>, p: seq<Node>)
    requires IsPath(g, p) && p[0] in s
    requires forall x, y :: x in s && y in g.Succ(x) ==> y in s
    ensures p[|p| - 1] in s
    decreases |p|
  {
    if |p| > 1 {
      assert p[1] in g.Succ(p[0]);
      assert IsPath(g, p[1..]);
      ClosedContainsPath(g, s, p[1..]);
    }
  }

  // ---------- The walk ----------

  // `seen` is every node entered so far, `order` the nodes this walk finished,
  // `ok` whether it met no unreadable node.
  datatype Walk = Walk(seen: set<Node>, order: seq<Node>, ok: bool)

  function Visit(g: Graph, n: Node, seen: set<Node>): (w: Walk)
    ensures seen <= w.seen
    decreases g.edges.Keys - seen, 0
  {
    if n in seen then Walk(seen, [], true)
    else if n in g.unreadable then Walk(seen + {n}, [], false)
    else if n !in g.edges then Walk(seen + {n}, [n], true)
    else
      var w := VisitAll(g, g.edges[n], seen + {n});
      if w.ok then w.(order := w.order + [n]) else w
  }

  function VisitAll(g: Graph, ns: seq<Node>, seen: set<Node>): (w: Walk)
    ensures seen <= w.seen
    decreases g.edges.Keys - seen, 1 + |ns|
  {
    if ns == [] then Walk(seen, [], true)
    else
      var first := Visit(g, ns[0], seen);
      if !first.ok then first
      else
        var rest := VisitAll(g, ns[1..], first.seen);
        Walk(rest.seen, first.order + rest.order, rest.ok)
  }

  // Siblings are walked in listing order: all of the first ones' order comes
  // before that of the later ones, which skip what those entered.
  lemma {:induction false} SiblingsInOrder(g: Graph, first: seq<Node>, later: seq<Node>, seen: set<Node>)
    requires VisitAll(g, first + later, seen).ok
    ensures VisitAll(g, first, seen).ok
    ensures VisitAll(g, first + later, seen).order
         == VisitAll(g, first, seen).order + VisitAll(g, later, VisitAll(g, first, seen).seen).order
    ensures VisitAll(g, first + later, seen).seen == VisitAll(g, later, VisitAll(g, first, seen).seen).seen
    decreases |first|
  {
    if first == [] {
      assert first + later == later;
      assert VisitAll(g, first, seen).order + VisitAll(g, later, seen).order == VisitAll(g, later, seen).order;
    } else {
      assert (first + later)[1..] == first[1..] + later;
      var head := Visit(g, first[0], seen);
      SiblingsInOrder(g, first[1..], later, head.seen);
      var rest := VisitAll(g, first[1..], head.seen);
      Associative(head.order, rest.order, VisitAll(g, later, rest.seen).order);
    }
  }

  // What a walk from `from`, started with `seen` already entered, guarantees.
  ghost predicate Sound(g: Graph, from: seq<Node>, seen: set<Node>, w: Walk) {
    && Distinct(w.order)
    && (forall x :: x in w.order ==> x !in seen && x in w.seen)
    && (forall x :: x in w.order ==> exists a :: a in from && Reach(g, a, x))
    && (w.ok ==> Complete(g, from, seen, w))
    && (!w.ok ==> exists a, b :: a in from && b in g.unreadable && Reach(g, a, b))
  }

  ghost predicate Complete(g: Graph, from: seq<Node>, seen: set<Node>, w: Walk) {
    && (forall x :: x in w.seen ==> x in seen || x in w.order)
    && (forall x :: x in from ==> x in w.seen)
    && (forall x :: x in w.order ==> x !in g.unreadable)
    && (forall x, y :: x in w.order && y in g.Succ(x) ==> y in w.seen)
    && Ordered(g, seen, w.order)
  }

  // A successor was entered before the walk, or finishes before its
  // predecessor, or reaches it back.
  ghost predicate Ordered(g: Graph, seen: set<Node>, order: seq<Node>) {
    forall i, y :: 0 <= i < |order| && y in g.Succ(order[i]) ==> Placed(g, seen, order, i, y)
  }

  ghost predicate Placed(g: Graph, seen: set<Node>, order: seq<Node>, i: nat, y: Node)
    requires i < |order|
  {
    y in seen || y in order[..i] || Reach(g, y, order[i])
  }

  lemma {:induction false} VisitSound(g: Graph, n: Node, seen: set<Node>)
    ensures Sound(g, [n], seen, Visit(g, n, seen))
    ensures Visit(g, n, seen).ok && n !in seen ==> EndsWith(Visit(g, n, seen).order, n)
    decreases g.edges.Keys - seen, 0
  {
    if n in seen {
    } else if n in g.unreadable {
      VisitUnreadable(g, n, seen);
    } else if n !in g.edges {
      VisitLeaf(g, n, seen);
    } else {
      var inner := VisitAll(g, g.edges[n], seen + {n});
      VisitAllSound(g, g.edges[n], seen + {n});
      if inner.ok {
        VisitFinish(g, n, seen, inner);
      } else {
        VisitFails(g, n, seen, inner);
      }
    }
  }

  ghost predicate EndsWith<T>(s: seq<T>, x: T) {
    |s| > 0 && s[|s| - 1] == x
  }

  lemma VisitUnreadable(g: Graph, n: Node, seen: set<Node>)
    requires n in g.unreadable
    ensures Sound(g, [n], seen, Walk(seen + {n}, [], false))
  {
    ReachRefl(g, n);
    assert n in [n] && n in g.unreadable && Reach(g, n, n);
  }

  lemma VisitLeaf(g: Graph, n: Node, seen: set<Node>)
    requires n !in seen && n !in g.unreadable && n !in g.edges
    ensures Sound(g, [n], seen, Walk(seen + {n}, [n], true))
  {
    ReachRefl(g, n);
    assert n in [n] && Reach(g, n, n);
    assert g.Succ(n) == [];
  }

  // Whatever a successor reaches, its predecessor reaches.
  lemma ReachThrough(g: Graph, n: Node)
    ensures Reach(g, n, n)
    ensures forall a, x :: a in g.Succ(n) && Reach(g, a, x) ==> Reach(g, n, x)
  {
    ReachRefl(g, n);
    forall a, x | a in g.Succ(n) && Reach(g, a, x)
      ensures Reach(g, n, x)
    {
      ReachFirst(g, n, a, x);
    }
  }

  lemma VisitFails(g: Graph, n: Node, seen: set<Node>, inner: Walk)
    requires n in g.edges && !inner.ok
    requires Sound(g, g.edges[n], seen + {n}, inner)
    ensures Sound(g, [n], seen, inner)
  {
    ReachThrough(g, n);
    assert n in [n];
    var a, b :| a in g.edges[n] && b in g.unreadable && Reach(g, a, b);
    assert Reach(g, n, b);
  }

  // Finishing n after all its successors: the step that puts n last.
  lemma {:induction false} VisitFinish(g: Graph, n: Node, seen: set<Node>, inner: Walk)
    requires n !in seen && n !in g.unreadable && n in g.edges && inner.ok
    requires seen + {n} <= inner.seen
    requires Sound(g, g.edges[n], seen + {n}, inner)
    ensures Sound(g, [n], seen, inner.(order := inner.order + [n]))
  {
    ReachThrough(g, n);
    var w := inner.(order := inner.order + [n]);
    forall x | x in w.order
      ensures x !in seen && x in w.seen && exists a :: a in [n] && Reach(g, a, x)
    {
      assert x == n || x in inner.order;
      assert n in [n] && Reach(g, n, x);
    }
    forall i, y | 0 <= i < |w.order| && y in g.Succ(w.order[i])
      ensures Placed(g, seen, w.order, i, y)
    {
      if i < |inner.order| {
        assert w.order[..i] == inner.order[..i];
        assert w.order[i] == inner.order[i];
        assert inner.order[i] in inner.order;
      } else {
        assert w.order[..i] == inner.order;
        assert y in inner.seen;
      }
    }
  }

  lemma {:induction false} VisitAllSound(g: Graph, ns: seq<Node>, seen: set<Node>)
    ensures Sound(g, ns, seen, VisitAll(g, ns, seen))
    decreases g.edges.Keys - seen, 1 + |ns|
  {
    if ns != [] {
      var first := Visit(g, ns[0], seen);
      var rest := VisitAll(g, ns[1..], first.seen);
      VisitAllSound(g, ns[1..], first.seen);
      VisitSound(g, ns[0], seen);
      if first.ok {
        Append(g, ns, seen, first, rest);
        assert VisitAll(g, ns, seen) == Walk(rest.seen, first.order + rest.order, rest.ok);
      } else {
        StopAtFailure(g, ns, seen, first);
      }
    }
  }

  // A walk that met an unreadable node ends there.
  lemma StopAtFailure(g: Graph, ns: seq<Node>, seen: set<Node>, w: Walk)
    requires ns != [] && !w.ok && Sound(g, [ns[0]], seen, w)
    ensures Sound(g, ns, seen, w)
  {
    assert ns[0] in ns;
    assert forall a :: a in [ns[0]] ==> a in ns;
  }

  // One finished walk followed by another that shares its `seen` set.
  lemma {:induction false} Append(g: Graph, ns: seq<Node>, seen: set<Node>, first: Walk, rest: Walk)
    requires ns != [] && first.ok
    requires seen <= first.seen <= rest.seen
    requires Sound(g, [ns[0]], seen, first) && Sound(g, ns[1..], first.seen, rest)
    ensures Sound(g, ns, seen, Walk(rest.seen, first.order + rest.order, rest.ok))
  {
    var w := Walk(rest.seen, first.order + rest.order, rest.ok);
    assert ns == [ns[0]] + ns[1..];
    assert forall x :: x in ns <==> x in [ns[0]] || x in ns[1..];
    assert forall x :: x in w.order <==> x in first.order || x in rest.order;
    assert Distinct(w.order) by {
      forall i, j | 0 <= i < j < |w.order|
        ensures w.order[i] != w.order[j]
      {
        if i < |first.order| <= j {
          assert w.order[i] in first.order && w.order[j] in rest.order;
        }
      }
    }
    forall i, y | rest.ok && 0 <= i < |w.order| && y in g.Succ(w.order[i])
      ensures Placed(g, seen, w.order, i, y)
    {
      if i < |first.order| {
        assert w.order[..i] == first.order[..i];
      } else {
        var k := i - |first.order|;
        assert w.order[..i] == first.order + rest.order[..k];
        assert w.order[i] == rest.order[k];
      }
    }
  }

  // ---------- The walk as a loop ----------

  // A loop over successors that has `left` to go, relative to the whole walk.
  ghost predicate Continues(g: Graph, whole: Walk, left: seq<Node>, seen: set<Node>,
                            before: seq<Node>, now: seq<Node>)
  {
    var rest := VisitAll(g, left, seen);
    whole.ok == rest.ok && whole.seen == rest.seen && before + whole.order == now + rest.order
  }

  lemma ContinuesAfter(g: Graph, whole: Walk, left: seq<Node>, seen: set<Node>,
                       before: seq<Node>, now: seq<Node>)
    requires left != [] && Continues(g, whole, left, seen, before, now)
    ensures var first := Visit(g, left[0], seen);
            if first.ok then Continues(g, whole, left[1..], first.seen, before, now + first.order)
            else !whole.ok && whole.seen == first.seen && before + whole.order == now + first.order
  {
    var first, rest := Visit(g, left[0], seen), VisitAll(g, left, seen);
    if first.ok {
      var next := VisitAll(g, left[1..], first.seen);
      assert now + (first.order + next.order) == (now + first.order) + next.order;
    }
  }

  // ---------- The walk from a root ----------

  // On any finite graph, cycles included: the walk succeeds exactly when it
  // meets no unreadable node, and then finishes every reachable node once, the
  // root last, each successor before its predecessor unless the two are on a
  // cycle.
  lemma {:induction false} WalkFromRoot(g: Graph, root: Node)
    ensures Visit(g, root, {}).ok <==> forall b :: b in g.unreadable ==> !Reach(g, root, b)
    ensures Visit(g, root, {}).ok ==>
              var o := Visit(g, root, {}).order;
              && Distinct(o)
              && (forall x :: x in o <==> Reach(g, root, x))
              && EndsWith(o, root)
              && Ordered(g, {}, o)
  {
    VisitSound(g, root, {});
    var w := Visit(g, root, {});
    if w.ok {
      assert root in [root];
      FinishesReachable(g, root, w.seen);
    }
  }

  lemma FinishesReachable(g: Graph, root: Node, finished: set<Node>)
    requires root in finished
    requires forall x, y :: x in finished && y in g.Succ(x) ==> y in finished
    ensures forall x :: Reach(g, root, x) ==> x in finished
  {
    forall x | Reach(g, root, x)
      ensures x in finished
    {
      var p :| PathFromTo(g, p, root, x);
      ClosedContainsPath(g, finished, p);
    }
  }

  // On an acyclic graph every successor comes strictly before.
  ghost predicate Topological(g: Graph, order: seq<Node>) {
    forall i, y :: 0 <= i < |order| && y in g.Succ(order[i]) ==> y in order[..i]
  }

  lemma WalkIsTopological(g: Graph, root: Node)
    requires Acyclic(g) && Visit(g, root, {}).ok
    ensures Topological(g, Visit(g, root, {}).order)
  {
    WalkFromRoot(g, root);
    OrderedAcyclic(g, Visit(g, root, {}).order);
  }

  lemma OrderedAcyclic(g: Graph, order: seq<Node>)
    requires Acyclic(g) && Ordered(g, {}, order)
    ensures Topological(g, order)
  {
    forall i, y | 0 <= i < |order| && y in g.Succ(order[i])
      ensures y in order[..i]
    {
      assert Placed(g, {}, order, i, y);
    }
  }
}
