/** cmd/y-cluster/images_push.go: what the unlocked read-modify-write of the
    index keeps over a run, and what it loses. */
module LostUpdates {
  import opened Wrappers
  import opened ObjectKeys
  import opened Index
  import opened L = Layout
  import opened Push

  // The entry is in the stored index.
  ghost predicate Stored(w: World, s: State, e: Entry) {
    w.index in s.bucket && s.bucket[w.index].IndexBody? && e in s.bucket[w.index].entries
  }

  // Some pusher holds a copy of the index without the entry, and will write it.
  ghost predicate StaleCopy(s: State, e: Entry) {
    exists i :: 0 <= i < |s.pushers| && s.pushers[i].phase.WritingIndex? && e !in s.pushers[i].phase.entries
  }

  lemma OtherKeysStay(w: World, s: State, a: Action)
    requires GoodWorld(w) && Inv(w, s) && Enabled(w, s, a) && !a.WriteIndex?
    ensures var b' := Step(w, s, a).bucket;
            (w.index in b' <==> w.index in s.bucket) && (w.index in b' ==> b'[w.index] == s.bucket[w.index])
  {
    if a.PutBlob? || a.PutManifest? {
      var p := s.pushers[a.i];
      assert GoodPusher(w, s.bucket, p);
      KeysNotIndex(w, p.ref, p.digest);
      if a.PutBlob? {
        assert p.phase.missing[p.phase.next] in p.phase.missing;
      }
    }
  }

  // One step drops a stored entry if and only if it writes the index from a copy
  // without the entry, or with another entry in its place.
  lemma StepKeepsEntryIff(w: World, s: State, a: Action, e: Entry)
    requires GoodWorld(w) && Inv(w, s) && Enabled(w, s, a) && Stored(w, s, e)
    ensures Stored(w, Step(w, s, a), e) <==>
              (a.WriteIndex? ==>
                 || e == NewEntry(w, s.pushers[a.i])
                 || (e in s.pushers[a.i].phase.entries && e.ref != s.pushers[a.i].ref))
  {
    if a.WriteIndex? {
      UpsertReads(s.pushers[a.i].phase.entries, NewEntry(w, s.pushers[a.i]), a.after);
    } else {
      OtherKeysStay(w, s, a);
    }
  }

  // Whoever reads the index while it has the entry has the entry.
  lemma StepMakesNoStaleCopy(w: World, s: State, a: Action, e: Entry)
    requires Enabled(w, s, a) && Stored(w, s, e) && !StaleCopy(s, e)
    ensures !StaleCopy(Step(w, s, a), e)
  {
    var s' := Step(w, s, a);
    forall i | 0 <= i < |s'.pushers| && s'.pushers[i].phase.WritingIndex?
      ensures e in s'.pushers[i].phase.entries
    {
      if i < |s.pushers| && s'.pushers[i] == s.pushers[i] {
        assert s.pushers[i].phase.WritingIndex?;
      } else if !a.Start? {
        assert i == a.i;
      }
    }
  }

  // No index write between the two states is for this reference.
  ghost predicate NotPushedAgain(states: seq<State>, actions: seq<Action>, n: nat, m: nat, ref: string)
    requires n <= m <= |actions| && |states| == |actions| + 1
  {
    forall k :: n <= k < m && actions[k].WriteIndex? && actions[k].i < |states[k].pushers| ==>
      states[k].pushers[actions[k].i].ref != ref
  }

  lemma StepKeepsStored(w: World, s: State, a: Action, e: Entry)
    requires GoodWorld(w) && Inv(w, s) && Enabled(w, s, a) && Stored(w, s, e) && !StaleCopy(s, e)
    requires a.WriteIndex? ==> s.pushers[a.i].ref != e.ref
    ensures Stored(w, Step(w, s, a), e) && !StaleCopy(Step(w, s, a), e)
  {
    if a.WriteIndex? {
      WriterHasEntry(s, a.i, e);
    }
    StepKeepsEntryIff(w, s, a, e);
    StepMakesNoStaleCopy(w, s, a, e);
  }

  lemma KeptOneMore(w: World, states: seq<State>, actions: seq<Action>, k: nat, e: Entry)
    requires GoodWorld(w) && IsRun(w, states, actions) && k < |actions|
    requires GoodBucket(w, states[0].bucket) && states[0].pushers == []
    requires Stored(w, states[k], e) && !StaleCopy(states[k], e)
    requires NotPushedAgain(states, actions, k, k + 1, e.ref)
    ensures Stored(w, states[k + 1], e) && !StaleCopy(states[k + 1], e)
  {
    RunKeepsInv(w, states, actions, k);
    assert IsStep(w, states, actions, k);
    StepKeepsStored(w, states[k], actions[k], e);
  }

  lemma WriterHasEntry(s: State, i: nat, e: Entry)
    requires !StaleCopy(s, e) && i < |s.pushers| && s.pushers[i].phase.WritingIndex?
    ensures e in s.pushers[i].phase.entries
  {
  }

  lemma StoredIsComplete(w: World, s: State, e: Entry)
    requires Inv(w, s) && Stored(w, s, e)
    ensures Complete(w, s.bucket, e)
  {
    assert GoodIndex(w, s.bucket);
  }

  lemma {:induction false} KeptSoFar(w: World, states: seq<State>, actions: seq<Action>, n: nat, m: nat, e: Entry)
    requires GoodWorld(w) && IsRun(w, states, actions) && n <= m < |states|
    requires GoodBucket(w, states[0].bucket) && states[0].pushers == []
    requires Stored(w, states[n], e) && !StaleCopy(states[n], e) && NotPushedAgain(states, actions, n, m, e.ref)
    ensures Stored(w, states[m], e) && !StaleCopy(states[m], e)
    decreases m
  {
    if n < m {
      KeptSoFar(w, states, actions, n, m - 1, e);
      KeptOneMore(w, states, actions, m - 1, e);
    }
  }

  // Over a run: an entry that is stored while no copy without it is outstanding
  // stays stored, complete, until its reference is pushed again.
  lemma EntryStays(w: World, states: seq<State>, actions: seq<Action>, n: nat, m: nat, e: Entry)
    requires GoodWorld(w) && IsRun(w, states, actions) && n <= m < |states|
    requires GoodBucket(w, states[0].bucket) && states[0].pushers == []
    requires Stored(w, states[n], e) && !StaleCopy(states[n], e) && NotPushedAgain(states, actions, n, m, e.ref)
    ensures Stored(w, states[m], e) && Complete(w, states[m].bucket, e)
  {
    KeptSoFar(w, states, actions, n, m, e);
    RunKeepsInv(w, states, actions, m);
    StoredIsComplete(w, states[m], e);
  }

  // Whoever is to write the index read it before, and its copy is what it read.
  lemma {:induction false} CopyWasRead(w: World, states: seq<State>, actions: seq<Action>, k: nat, i: nat)
    returns (j: nat)
    requires IsRun(w, states, actions) && states[0].pushers == [] && k < |states|
    requires i < |states[k].pushers| && states[k].pushers[i].phase.WritingIndex?
    ensures j < k && actions[j] == ReadIndex(i)
    ensures IndexEntries(w, states[j].bucket) == Some(states[k].pushers[i].phase.entries)
    decreases k
  {
    assert k > 0;
    j := k - 1;
    assert IsStep(w, states, actions, j);
    if actions[j] != ReadIndex(i) {
      PhaseBefore(w, states[j], actions[j], i);
      j := CopyWasRead(w, states, actions, j, i);
    }
  }

  lemma PhaseBefore(w: World, s: State, a: Action, i: nat)
    requires Enabled(w, s, a) && a != ReadIndex(i)
    requires i < |Step(w, s, a).pushers| && Step(w, s, a).pushers[i].phase.WritingIndex?
    ensures i < |s.pushers| && s.pushers[i].phase == Step(w, s, a).pushers[i].phase
  {
  }

  // Over a run: the push of another reference loses a stored entry if and only
  // if the entry was not stored at the moment that push read the index.
  lemma PushLosesEntryIff(w: World, states: seq<State>, actions: seq<Action>, k: nat, e: Entry) returns (j: nat)
    requires IsRun(w, states, actions) && states[0].pushers == []
    requires k < |actions| && actions[k].WriteIndex? && Stored(w, states[k], e)
    requires actions[k].i < |states[k].pushers| && states[k].pushers[actions[k].i].ref != e.ref
    ensures j < k && actions[j] == ReadIndex(actions[k].i)
    ensures Stored(w, states[k + 1], e) <==> Stored(w, states[j], e)
  {
    assert IsStep(w, states, actions, k);
    j := CopyWasRead(w, states, actions, k, actions[k].i);
    WriteKeepsIff(w, states[k], actions[k], states[k + 1], states[j], e);
  }

  lemma WriteKeepsIff(w: World, s: State, a: Action, s': State, read: State, e: Entry)
    requires a.WriteIndex? && Enabled(w, s, a) && s' == Step(w, s, a) && s.pushers[a.i].ref != e.ref
    requires IndexEntries(w, read.bucket) == Some(s.pushers[a.i].phase.entries)
    ensures Stored(w, s', e) <==> Stored(w, read, e)
  {
    SurvivesWriteIff(w, s, a.i, a.after, e);
  }

  // ---------- An index of a newer version ----------

  ghost predicate Untouched(w: World, s: State, newer: Object) {
    && w.index in s.bucket && s.bucket[w.index] == newer
    && forall i :: 0 <= i < |s.pushers| ==> !s.pushers[i].phase.WritingIndex?
  }

  lemma StepLeavesNewer(w: World, s: State, a: Action, newer: Object)
    requires GoodWorld(w) && Inv(w, s) && Enabled(w, s, a) && Untouched(w, s, newer)
    requires newer.IndexBody? && newer.version > 2
    ensures Untouched(w, Step(w, s, a), newer)
  {
    if !a.WriteIndex? {
      OtherKeysStay(w, s, a);
    }
  }

  // No run overwrites an index of a schema version it does not know.
  lemma {:induction false} NewerIndexStays(w: World, states: seq<State>, actions: seq<Action>, n: nat)
    requires GoodWorld(w) && IsRun(w, states, actions) && n < |states|
    requires GoodBucket(w, states[0].bucket) && states[0].pushers == []
    requires w.index in states[0].bucket
    requires states[0].bucket[w.index].IndexBody? && states[0].bucket[w.index].version > 2
    ensures Untouched(w, states[n], states[0].bucket[w.index])
    decreases n
  {
    if n > 0 {
      NewerIndexStays(w, states, actions, n - 1);
      RunKeepsInv(w, states, actions, n - 1);
      assert IsStep(w, states, actions, n - 1);
      StepLeavesNewer(w, states[n - 1], actions[n - 1], states[0].bucket[w.index]);
    }
  }

  // ---------- A lost entry ----------

  // One more action.
  lemma Then(w: World, states: seq<State>, actions: seq<Action>, a: Action)
    returns (states': seq<State>, actions': seq<Action>)
    requires IsRun(w, states, actions) && Enabled(w, states[|actions|], a)
    ensures IsRun(w, states', actions') && states'[0] == states[0]
    ensures states' == states + [Step(w, states[|actions|], a)] && actions' == actions + [a]
  {
    states', actions' := states + [Step(w, states[|actions|], a)], actions + [a];
    forall i | 0 <= i < |actions'| ensures IsStep(w, states', actions', i) {
      if i < |actions| {
        assert IsStep(w, states, actions, i);
      }
    }
  }

  const INDEX := Key("index.json")

  // Every image is one index.json.
  function Tiny(): World {
    World((d: string) => L.Layout([INDEX_JSON], map[INDEX_JSON := Content("{}")]), INDEX)
  }

  lemma TinyIsGood()
    ensures GoodWorld(Tiny()) && Blobs([INDEX_JSON]) == [] && Manifests([INDEX_JSON]) == [INDEX_JSON]
  {
    assert INDEX.name[0] == 'i' && INDEX_JSON.path[0] == 'i';
    assert [INDEX_JSON][..0] == [];
    assert !IsBlob(INDEX_JSON);
  }

  lemma TinyOrder()
    ensures UploadOrder([INDEX_JSON]) == [INDEX_JSON]
  {
    assert INDEX_JSON.path[0] == 'i' && OCI_LAYOUT.path[0] == 'o';
    var none: seq<Rel> := [];
    assert [INDEX_JSON][..0] == none && Named(none, INDEX_JSON) == none;
    assert Rest([INDEX_JSON]) == Rest(none) && Named([INDEX_JSON], OCI_LAYOUT) == Named(none, OCI_LAYOUT);
  }

  // A started push without shared blobs goes on to its per-image files.
  lemma ToManifests(states: seq<State>, actions: seq<Action>, i: nat)
    returns (states': seq<State>, actions': seq<Action>)
    requires IsRun(Tiny(), states, actions) && i < |states[|actions|].pushers|
    requires states[|actions|].pushers[i].phase == Probing(map[])
    ensures IsRun(Tiny(), states', actions') && states'[0] == states[0]
    ensures states'[|actions'|] == SetPhase(states[|actions|], i, PuttingManifests(0))
  {
    TinyIsGood();
    states', actions' := Then(Tiny(), states, actions, Probed(i));
    states', actions' := Then(Tiny(), states', actions', BlobsDone(i));
    states', actions' := Then(Tiny(), states', actions', ManifestNotThere(i));
  }

  // It puts its one file and is to read the index.
  lemma ToReading(states: seq<State>, actions: seq<Action>, i: nat)
    returns (states': seq<State>, actions': seq<Action>)
    requires IsRun(Tiny(), states, actions) && i < |states[|actions|].pushers|
    requires states[|actions|].pushers[i].phase == PuttingManifests(0) && INDEX !in states[|actions|].bucket
    requires PlainRef(states[|actions|].pushers[i].ref) && Sha256(states[|actions|].pushers[i].digest)
    ensures IsRun(Tiny(), states', actions') && states'[0] == states[0]
    ensures states'[|actions'|].pushers == SetPhase(states[|actions|], i, ReadingIndex).pushers
    ensures INDEX !in states'[|actions'|].bucket
  {
    TinyIsGood();
    TinyOrder();
    KeysNotIndex(Tiny(), states[|actions|].pushers[i].ref, states[|actions|].pushers[i].digest);
    states', actions' := Then(Tiny(), states, actions, PutManifest(i));
    states', actions' := Then(Tiny(), states', actions', ManifestsDone(i));
  }

  lemma PlainOne(c: char)
    requires c != '/' && c != ':' && c != '.'
    ensures PlainRef([c])
  {
    assert [c][1..] == "" && SafeRef("") == "" && SafeRef([c]) == [c];
  }

  lemma UpsertEmpty(e: Entry)
    ensures IsUpsert([], e, [e])
  {
    assert Others([], e.ref) == [];
  }

  // Two pushes stand at reading an index that is not there.
  lemma BothReading(digest: string) returns (states: seq<State>, actions: seq<Action>)
    requires Sha256(digest)
    ensures IsRun(Tiny(), states, actions) && states[0] == State(map[], [])
    ensures INDEX !in states[|actions|].bucket
    ensures states[|actions|].pushers == [Pusher("a", digest, ReadingIndex), Pusher("b", digest, ReadingIndex)]
  {
    PlainOne('a');
    PlainOne('b');
    states, actions := [State(map[], [])], [];
    states, actions := Then(Tiny(), states, actions, Start("a", digest));
    states, actions := Then(Tiny(), states, actions, Start("b", digest));
    states, actions := ToManifests(states, actions, 0);
    states, actions := ToReading(states, actions, 0);
    states, actions := ToManifests(states, actions, 1);
    states, actions := ToReading(states, actions, 1);
  }

  // Both read before either writes: the second write drops the entry the first
  // one stored, and both pushes have finished.
  lemma LostEntryWitness(digest: string) returns (states: seq<State>, actions: seq<Action>, n: nat, e: Entry)
    requires Sha256(digest)
    ensures IsRun(Tiny(), states, actions) && states[0] == State(map[], []) && n < |actions|
    ensures e.ref == "a" && NotPushedAgain(states, actions, n, |actions|, e.ref)
    ensures Stored(Tiny(), states[n], e) && !Stored(Tiny(), states[|actions|], e)
    ensures states[|actions|].pushers == [Pusher("a", digest, Finished), Pusher("b", digest, Finished)]
  {
    states, actions := BothReading(digest);
    var p, q := Pusher("a", digest, WritingIndex([])), Pusher("b", digest, WritingIndex([]));
    e := NewEntry(Tiny(), p);
    var f := NewEntry(Tiny(), q);
    UpsertEmpty(e);
    UpsertEmpty(f);
    states, actions := Then(Tiny(), states, actions, ReadIndex(0));
    states, actions := Then(Tiny(), states, actions, ReadIndex(1));
    states, actions := Then(Tiny(), states, actions, WriteIndex(0, [e]));
    n := |actions|;
    states, actions := Then(Tiny(), states, actions, WriteIndex(1, [f]));
  }
}
