/** cmd/y-cluster/images_push.go and pkg/images/s3.go: a push that nothing disturbs
    finishes. */
module Pushes {
  import opened Wrappers
  import opened ObjectKeys
  import opened Index
  import opened Layout
  import opened Push
  import LostUpdates

  // A run from a good bucket, and the pusher at its end.
  ghost predicate Running(w: World, states: seq<State>, actions: seq<Action>, i: nat) {
    && GoodWorld(w) && IsRun(w, states, actions)
    && GoodBucket(w, states[0].bucket) && states[0].pushers == []
    && i < |states[|actions|].pushers|
  }

  // Only pusher i has moved on, and the index is as it was.
  ghost predicate Moved(w: World, s: State, s': State, i: nat) {
    && |s'.pushers| == |s.pushers| && i < |s.pushers|
    && (forall j :: 0 <= j < |s.pushers| && j != i ==> s'.pushers[j] == s.pushers[j])
    && s'.pushers[i].ref == s.pushers[i].ref && s'.pushers[i].digest == s.pushers[i].digest
    && IndexEntries(w, s'.bucket) == IndexEntries(w, s.bucket)
  }

  // One action of pusher i before it writes the index.
  lemma Do(w: World, states: seq<State>, actions: seq<Action>, i: nat, a: Action)
    returns (states': seq<State>, actions': seq<Action>)
    requires Running(w, states, actions, i) && Enabled(w, states[|actions|], a)
    requires !a.Start? && !a.WriteIndex? && a.i == i
    ensures Running(w, states', actions', i) && states <= states' && actions <= actions'
    ensures states'[|actions'|] == Step(w, states[|actions|], a)
    ensures Moved(w, states[|actions|], states'[|actions'|], i)
    ensures Inv(w, states'[|actions'|])
  {
    RunKeepsInv(w, states, actions, |actions|);
    LostUpdates.OtherKeysStay(w, states[|actions|], a);
    StepKeepsInv(w, states[|actions|], a);
    states', actions' := LostUpdates.Then(w, states, actions, a);
  }

  function Now(states: seq<State>, i: nat): Pusher
    requires states != [] && i < |states[|states| - 1].pushers|
  {
    states[|states| - 1].pushers[i]
  }

  // Every blob gets its HEAD.
  lemma {:induction false} Heads(w: World, states: seq<State>, actions: seq<Action>, i: nat, todo: seq<Rel>)
    returns (states': seq<State>, actions': seq<Action>)
    requires Running(w, states, actions, i) && Now(states, i).phase.Probing?
    requires forall r :: r in todo ==> r in Blobs(w.layout(Now(states, i).digest).files)
    requires forall r :: r in Blobs(w.layout(Now(states, i).digest).files) ==>
               r in todo || r in Now(states, i).phase.found
    ensures Running(w, states', actions', i) && states <= states' && actions <= actions'
    ensures Moved(w, states[|actions|], states'[|actions'|], i) && Now(states', i).phase.Probing?
    ensures forall r :: r in Blobs(w.layout(Now(states', i).digest).files) ==> r in Now(states', i).phase.found
    decreases |todo|
  {
    if todo == [] {
      states', actions' := states, actions;
    } else if todo[0] in Now(states, i).phase.found {
      states', actions' := Heads(w, states, actions, i, todo[1..]);
    } else {
      assert todo[0] in todo;
      states', actions' := Do(w, states, actions, i, HeadBlob(i, todo[0]));
      states', actions' := Heads(w, states', actions', i, todo[1..]);
    }
  }

  // Every missing blob gets its PUT.
  lemma {:induction false} PutBlobs(w: World, states: seq<State>, actions: seq<Action>, i: nat)
    returns (states': seq<State>, actions': seq<Action>)
    requires Running(w, states, actions, i) && Now(states, i).phase.Uploading?
    requires Now(states, i).phase.next <= |Now(states, i).phase.missing|
    ensures Running(w, states', actions', i) && states <= states' && actions <= actions'
    ensures Moved(w, states[|actions|], states'[|actions'|], i) && Now(states', i).phase.Uploading?
    ensures Now(states', i).phase.next == |Now(states', i).phase.missing|
    decreases |Now(states, i).phase.missing| - Now(states, i).phase.next
  {
    var p := Now(states, i);
    if p.phase.next == |p.phase.missing| {
      states', actions' := states, actions;
    } else {
      RunKeepsInv(w, states, actions, |actions|);
      assert GoodPusher(w, states[|actions|].bucket, p);
      assert p.phase.missing[p.phase.next] in p.phase.missing;
      states', actions' := Do(w, states, actions, i, PutBlob(i));
      states', actions' := PutBlobs(w, states', actions', i);
    }
  }

  // Every per-image file gets its PUT.
  lemma {:induction false} PutManifests(w: World, states: seq<State>, actions: seq<Action>, i: nat)
    returns (states': seq<State>, actions': seq<Action>)
    requires Running(w, states, actions, i) && Now(states, i).phase.PuttingManifests?
    requires Now(states, i).phase.next <= |Order(w, Now(states, i))|
    ensures Running(w, states', actions', i) && states <= states' && actions <= actions'
    ensures Moved(w, states[|actions|], states'[|actions'|], i) && Now(states', i).phase.PuttingManifests?
    ensures Now(states', i).phase.next == |Order(w, Now(states', i))|
    decreases |Order(w, Now(states, i))| - Now(states, i).phase.next
  {
    var p := Now(states, i);
    if p.phase.next == |Order(w, p)| {
      states', actions' := states, actions;
    } else {
      RunKeepsInv(w, states, actions, |actions|);
      NextManifest(w, states[|actions|].bucket, p);
      states', actions' := Do(w, states, actions, i, PutManifest(i));
      states', actions' := PutManifests(w, states', actions', i);
    }
  }

  lemma ToUploaded(w: World, states: seq<State>, actions: seq<Action>, i: nat)
    returns (states': seq<State>, actions': seq<Action>)
    requires Running(w, states, actions, i) && Now(states, i).phase == Probing(map[])
    ensures Running(w, states', actions', i) && states <= states' && actions <= actions'
    ensures Moved(w, states[|actions|], states'[|actions'|], i) && Now(states', i).phase.ProbingManifest?
  {
    states', actions' := Heads(w, states, actions, i, Blobs(w.layout(Now(states, i).digest).files));
    states', actions' := Do(w, states', actions', i, Probed(i));
    states', actions' := PutBlobs(w, states', actions', i);
    states', actions' := Do(w, states', actions', i, BlobsDone(i));
  }

  lemma MovedTwice(w: World, s: State, t: State, u: State, i: nat)
    requires Moved(w, s, t, i) && Moved(w, t, u, i)
    ensures Moved(w, s, u, i)
  {
  }

  lemma ToPutting(w: World, states: seq<State>, actions: seq<Action>, i: nat)
    returns (states': seq<State>, actions': seq<Action>)
    requires Running(w, states, actions, i) && Now(states, i).phase.ProbingManifest?
    ensures Running(w, states', actions', i) && states <= states' && actions <= actions'
    ensures Moved(w, states[|actions|], states'[|actions'|], i) && Now(states', i).phase.PuttingManifests?
    ensures Now(states', i).phase.next == |Order(w, Now(states', i))|
  {
    var states1, actions1 := Do(w, states, actions, i, ManifestNotThere(i));
    states', actions' := PutManifests(w, states1, actions1, i);
    MovedTwice(w, states[|actions|], states1[|actions1|], states'[|actions'|], i);
  }

  lemma ToWriting(w: World, states: seq<State>, actions: seq<Action>, i: nat, entries: seq<Entry>)
    returns (states': seq<State>, actions': seq<Action>)
    requires Running(w, states, actions, i) && Now(states, i).phase.PuttingManifests?
    requires Now(states, i).phase.next == |Order(w, Now(states, i))|
    requires IndexEntries(w, states[|actions|].bucket) == Some(entries)
    ensures Running(w, states', actions', i) && states <= states' && actions <= actions'
    ensures Moved(w, states[|actions|], states'[|actions'|], i) && Now(states', i).phase == WritingIndex(entries)
  {
    var states1, actions1 := Do(w, states, actions, i, ManifestsDone(i));
    states', actions' := Do(w, states1, actions1, i, ReadIndex(i));
    MovedTwice(w, states[|actions|], states1[|actions1|], states'[|actions'|], i);
  }

  lemma AnUpsert(entries: seq<Entry>, e: Entry) returns (after: seq<Entry>)
    ensures IsUpsert(entries, e, after)
  {
    after := SortByRef(Others(entries, e.ref) + [e]);
  }

  lemma ToIndex(w: World, states: seq<State>, actions: seq<Action>, i: nat, entries: seq<Entry>)
    returns (states': seq<State>, actions': seq<Action>)
    requires Running(w, states, actions, i) && Now(states, i).phase == Probing(map[])
    requires IndexEntries(w, states[|actions|].bucket) == Some(entries)
    ensures Running(w, states', actions', i) && states <= states' && actions <= actions'
    ensures Moved(w, states[|actions|], states'[|actions'|], i) && Now(states', i).phase == WritingIndex(entries)
  {
    var states1, actions1 := ToUploaded(w, states, actions, i);
    var states2, actions2 := ToPutting(w, states1, actions1, i);
    MovedTwice(w, states[|actions|], states1[|actions1|], states2[|actions2|], i);
    states', actions' := ToWriting(w, states2, actions2, i, entries);
    MovedTwice(w, states[|actions|], states2[|actions2|], states'[|actions'|], i);
  }

  // The pusher is done, and its entry is found and complete.
  ghost predicate Done(w: World, s: State, i: nat) {
    && i < |s.pushers| && s.pushers[i].phase.Finished?
    && IndexEntries(w, s.bucket).Some?
    && Find(IndexEntries(w, s.bucket).value, s.pushers[i].ref) == Some(NewEntry(w, s.pushers[i]))
    && Complete(w, s.bucket, NewEntry(w, s.pushers[i]))
  }

  lemma ToFinished(w: World, states: seq<State>, actions: seq<Action>, i: nat, entries: seq<Entry>)
    returns (states': seq<State>, actions': seq<Action>)
    requires Running(w, states, actions, i) && Now(states, i).phase == WritingIndex(entries)
    ensures IsRun(w, states', actions') && states <= states' && actions <= actions'
    ensures states'[|actions'|].pushers == SetPhase(states[|actions|], i, Finished).pushers
    ensures Done(w, states'[|actions'|], i)
  {
    var after := AnUpsert(entries, NewEntry(w, Now(states, i)));
    RunKeepsInv(w, states, actions, |actions|);
    FinishedPushIsFound(w, states[|actions|], i, after);
    states', actions' := LostUpdates.Then(w, states, actions, WriteIndex(i, after));
  }

  // Whatever other pushers did before, a push that starts on a readable index can
  // go through to its end, after which its entry is found and complete.
  lemma PushFinishes(w: World, states: seq<State>, actions: seq<Action>, ref: string, digest: string)
    returns (states': seq<State>, actions': seq<Action>)
    requires GoodWorld(w) && IsRun(w, states, actions)
    requires GoodBucket(w, states[0].bucket) && states[0].pushers == []
    requires Enabled(w, states[|actions|], Start(ref, digest)) && IndexEntries(w, states[|actions|].bucket).Some?
    ensures IsRun(w, states', actions') && states <= states' && actions <= actions'
    ensures var s, i := states'[|actions'|], |states[|actions|].pushers|;
            s.pushers == states[|actions|].pushers + [Pusher(ref, digest, Finished)] && Done(w, s, i)
  {
    var i, entries := |states[|actions|].pushers|, IndexEntries(w, states[|actions|].bucket).value;
    var states1, actions1 := LostUpdates.Then(w, states, actions, Start(ref, digest));
    var states2, actions2 := ToIndex(w, states1, actions1, i, entries);
    states', actions' := ToFinished(w, states2, actions2, i, entries);
    Appended(states[|actions|].pushers, states'[|actions'|].pushers, Pusher(ref, digest, Finished));
  }

  lemma Appended(before: seq<Pusher>, after: seq<Pusher>, p: Pusher)
    requires |after| == |before| + 1 && after[|before|] == p
    requires forall j :: 0 <= j < |before| ==> after[j] == before[j]
    ensures after == before + [p]
  {
  }
}
