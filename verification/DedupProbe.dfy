/** pkg/images/s3.go, blobsMissingOnS3: HEADs by a fixed pool of workers fed
    through an unbuffered channel, on a bucket that others may be adding to. */
module DedupProbe {
  import opened Wrappers
  import opened ObjectKeys

  const WORKERS := 8

  datatype Answer = Pending | Exists | NotThere | Error

  // `next` is the index the feeder sends next, `busy[w]` the index worker w is
  // probing, `results` the shared results array, `keys` the bucket's keys now,
  // `handled` the indexes whose HEAD was answered, in answer order.
  datatype Probe = Probe(
    next: nat,
    busy: seq<Option<nat>>,
    results: seq<Answer>,
    keys: set<Key>,
    handled: seq<nat>)

  datatype Action =
    | Send(worker: nat)                 // the feeder hands `next` to an idle worker
    | Head(worker: nat, failed: bool)   // the worker's HEAD is answered
    | Grow(added: set<Key>)             // other writers add objects

  predicate Enabled(rels: seq<Rel>, p: Probe, a: Action)
    requires |p.busy| == WORKERS
  {
    match a
    case Send(w) => w < WORKERS && p.busy[w].None? && p.next < |rels|
    case Head(w, _) => w < WORKERS && p.busy[w].Some? && p.busy[w].value < |rels| && |p.results| == |rels|
    case Grow(_) => true
  }

  function Step(rels: seq<Rel>, p: Probe, a: Action): Probe
    requires |p.busy| == WORKERS && Enabled(rels, p, a)
  {
    match a
    case Send(w) => p.(next := p.next + 1, busy := p.busy[w := Some(p.next)])
    case Head(w, failed) =>
      var i := p.busy[w].value;
      var answer := if failed then Error else if BlobKey(rels[i]) in p.keys then Exists else NotThere;
      p.(busy := p.busy[w := None], results := p.results[i := answer], handled := p.handled + [i])
    case Grow(added) => p.(keys := p.keys + added)
  }

  function Initial(rels: seq<Rel>, keys: set<Key>): Probe {
    Probe(0, seq(WORKERS, _ => None), seq(|rels|, _ => Pending), keys, [])
  }

  // The channel is closed and every worker is back: done has been received 8
  // times.
  predicate Done(rels: seq<Rel>, p: Probe)
    requires |p.busy| == WORKERS
  {
    p.next == |rels| && forall w :: 0 <= w < WORKERS ==> p.busy[w].None?
  }

  // ---------- The invariant ----------

  // An index without an answer has not been handled, and an answer is true of
  // some moment since the start.
  ghost predicate Truthful(rels: seq<Rel>, start: set<Key>, p: Probe, i: nat)
    requires i < |rels| && i < |p.results|
  {
    && (p.results[i].Pending? <==> i !in p.handled)
    && (p.results[i].Exists? ==> BlobKey(rels[i]) in p.keys)
    && (p.results[i].NotThere? ==> BlobKey(rels[i]) !in start)
  }

  ghost predicate Inv(rels: seq<Rel>, start: set<Key>, p: Probe) {
    && |p.busy| == WORKERS && |p.results| == |rels| && p.next <= |rels|
    && start <= p.keys
    && (forall i :: 0 <= i < |rels| ==> Truthful(rels, start, p, i))
    && (forall j, k :: 0 <= j < k < |p.handled| ==> p.handled[j] != p.handled[k])
    && (forall i :: i in p.handled ==> i < p.next)
    // in flight: sent, not answered, with one worker only
    && (forall w :: 0 <= w < WORKERS && p.busy[w].Some? ==> p.busy[w].value < p.next && p.busy[w].value !in p.handled)
    && (forall v, w :: 0 <= v < w < WORKERS && p.busy[v].Some? ==> p.busy[v] != p.busy[w])
    // nothing sent is lost
    && (forall i :: 0 <= i < p.next && i !in p.handled ==> InFlight(p, i))
  }

  ghost predicate InFlight(p: Probe, i: nat) {
    exists w :: 0 <= w < |p.busy| && p.busy[w] == Some(i)
  }

  lemma InitialInv(rels: seq<Rel>, keys: set<Key>)
    ensures Inv(rels, keys, Initial(rels, keys))
  {
  }

  lemma StepKeepsInv(rels: seq<Rel>, start: set<Key>, p: Probe, a: Action)
    requires Inv(rels, start, p) && Enabled(rels, p, a)
    ensures Inv(rels, start, Step(rels, p, a))
  {
    var q := Step(rels, p, a);
    match a
    case Send(w) =>
      SendKeepsInv(rels, start, p, w, q);
    case Head(w, failed) =>
      HeadKeepsInv(rels, start, p, w, failed, q);
    case Grow(_) =>
      forall i | 0 <= i < |rels|
        ensures Truthful(rels, start, q, i)
      {
        assert Truthful(rels, start, p, i);
      }
      forall i | 0 <= i < q.next && i !in q.handled
        ensures InFlight(q, i)
      {
        assert InFlight(p, i);
      }
  }

  lemma SendKeepsInv(rels: seq<Rel>, start: set<Key>, p: Probe, w: nat, q: Probe)
    requires Inv(rels, start, p) && Enabled(rels, p, Send(w)) && q == Step(rels, p, Send(w))
    ensures Inv(rels, start, q)
  {
    forall i | 0 <= i < |rels|
      ensures Truthful(rels, start, q, i)
    {
      assert Truthful(rels, start, p, i);
    }
    forall i | 0 <= i < q.next && i !in q.handled
      ensures InFlight(q, i)
    {
      if i == p.next {
        assert q.busy[w] == Some(i);
      } else {
        assert InFlight(p, i);
        var v :| 0 <= v < |p.busy| && p.busy[v] == Some(i);
        assert q.busy[v] == Some(i);
      }
    }
  }

  lemma HeadKeepsInv(rels: seq<Rel>, start: set<Key>, p: Probe, w: nat, failed: bool, q: Probe)
    requires Inv(rels, start, p) && Enabled(rels, p, Head(w, failed)) && q == Step(rels, p, Head(w, failed))
    ensures Inv(rels, start, q)
  {
    var n := p.busy[w].value;
    assert forall i :: i in q.handled <==> i in p.handled || i == n;
    forall i | 0 <= i < |rels|
      ensures Truthful(rels, start, q, i)
    {
      assert Truthful(rels, start, p, i);
    }
    forall i | 0 <= i < q.next && i !in q.handled
      ensures InFlight(q, i)
    {
      assert InFlight(p, i);
      var v :| 0 <= v < |p.busy| && p.busy[v] == Some(i);
      assert q.busy[v] == Some(i);
    }
  }

  // ---------- Runs ----------

  ghost predicate Reachable(rels: seq<Rel>, start: set<Key>, p: Probe, actions: seq<Action>)
    decreases |actions|
  {
    if actions == [] then p == Initial(rels, start)
    else exists q :: LastStep(rels, start, p, q, actions)
  }

  ghost predicate LastStep(rels: seq<Rel>, start: set<Key>, p: Probe, q: Probe, actions: seq<Action>)
    requires actions != []
    decreases |actions|, 0
  {
    var a := actions[|actions| - 1];
    && Reachable(rels, start, q, actions[..|actions| - 1])
    && |q.busy| == WORKERS && Enabled(rels, q, a) && p == Step(rels, q, a)
  }

  lemma {:induction false} ReachableInv(rels: seq<Rel>, start: set<Key>, p: Probe, actions: seq<Action>)
    requires Reachable(rels, start, p, actions)
    ensures Inv(rels, start, p)
    decreases |actions|
  {
    if actions == [] {
      InitialInv(rels, start);
    } else {
      var q :| LastStep(rels, start, p, q, actions);
      ReachableInv(rels, start, q, actions[..|actions| - 1]);
      StepKeepsInv(rels, start, q, actions[|actions| - 1]);
    }
  }

  // ---------- The result ----------

  function Missing(rels: seq<Rel>, results: seq<Answer>): seq<Rel>
    requires |results| == |rels|
  {
    if rels == [] then []
    else Missing(rels[..|rels| - 1], results[..|rels| - 1]) +
         if results[|rels| - 1].Exists? then [] else [rels[|rels| - 1]]
  }

  // The loop after the pool: the first error fails the probe, otherwise the
  // paths not found, in input order.
  method Collect(rels: seq<Rel>, results: seq<Answer>) returns (r: Result<seq<Rel>, Rel>)
    requires |results| == |rels|
    ensures r.Failure? <==> exists i :: 0 <= i < |rels| && results[i].Error?
    ensures r.Success? ==> r.value == Missing(rels, results)
  {
    var missing: seq<Rel> := [];
    for i := 0 to |rels|
      invariant missing == Missing(rels[..i], results[..i])
      invariant forall j :: 0 <= j < i ==> !results[j].Error?
    {
      assert rels[..i + 1][..i] == rels[..i] && results[..i + 1][..i] == results[..i];
      if results[i].Error? {
        return Failure(rels[i]);
      }
      if !results[i].Exists? {
        missing := missing + [rels[i]];
      }
    }
    assert rels[..|rels|] == rels && results[..|rels|] == results;
    return Success(missing);
  }

  lemma {:induction false} MissingIs(rels: seq<Rel>, results: seq<Answer>)
    requires |results| == |rels|
    ensures forall r :: r in Missing(rels, results) <==>
              exists i :: 0 <= i < |rels| && rels[i] == r && !results[i].Exists?
  {
    if rels != [] {
      MissingIs(rels[..|rels| - 1], results[..|rels| - 1]);
    }
  }

  // An in-order selection of a sequence.
  ghost predicate Subsequence(s: seq<Rel>, of: seq<Rel>) {
    s == [] || (of != [] && (Subsequence(s, of[..|of| - 1]) ||
                             (s[|s| - 1] == of[|of| - 1] && Subsequence(s[..|s| - 1], of[..|of| - 1]))))
  }

  lemma {:induction false} MissingInOrder(rels: seq<Rel>, results: seq<Answer>)
    requires |results| == |rels|
    ensures Subsequence(Missing(rels, results), rels)
  {
    if rels != [] {
      var m := Missing(rels[..|rels| - 1], results[..|rels| - 1]);
      MissingInOrder(rels[..|rels| - 1], results[..|rels| - 1]);
      if results[|rels| - 1].Exists? {
        assert Missing(rels, results) == m;
      } else {
        assert Missing(rels, results)[..|m|] == m;
      }
    }
  }

  // However the workers were scheduled and whatever was added meanwhile: every
  // index was probed exactly once, and without errors the result keeps the
  // input order, has every path still absent at the end and only paths absent
  // at the start.
  lemma ProbeIsSound(rels: seq<Rel>, start: set<Key>, p: Probe, actions: seq<Action>)
    requires Reachable(rels, start, p, actions) && |p.busy| == WORKERS && Done(rels, p)
    ensures |p.results| == |rels|
    ensures forall i :: 0 <= i < |rels| ==> i in p.handled && !p.results[i].Pending?
    ensures forall i :: i in p.handled ==> i < |rels|
    ensures forall j, k :: 0 <= j < k < |p.handled| ==> p.handled[j] != p.handled[k]
    ensures Subsequence(Missing(rels, p.results), rels)
    ensures (forall i :: 0 <= i < |rels| ==> !p.results[i].Error?) ==>
              && (forall r :: r in rels && BlobKey(r) !in p.keys ==> r in Missing(rels, p.results))
              && (forall r :: r in Missing(rels, p.results) ==> r in rels && BlobKey(r) !in start)
  {
    ReachableInv(rels, start, p, actions);
    forall i | 0 <= i < |rels|
      ensures i in p.handled && !p.results[i].Pending?
    {
      assert !InFlight(p, i);
      assert Truthful(rels, start, p, i);
    }
    MissingIs(rels, p.results);
    MissingInOrder(rels, p.results);
    if forall i :: 0 <= i < |rels| ==> !p.results[i].Error? {
      forall r | r in rels && BlobKey(r) !in p.keys
        ensures r in Missing(rels, p.results)
      {
        var i :| 0 <= i < |rels| && rels[i] == r;
        assert Truthful(rels, start, p, i);
      }
      forall r | r in Missing(rels, p.results)
        ensures r in rels && BlobKey(r) !in start
      {
        var i :| 0 <= i < |rels| && rels[i] == r && !p.results[i].Exists?;
        assert Truthful(rels, start, p, i);
      }
    }
  }
}
