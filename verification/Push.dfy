/** cmd/y-cluster/images_push.go and pkg/images/s3.go: any number of pushers
    on one bucket without locks, each stopping anywhere, as a state machine.
    A request to the bucket is one atomic step. Nothing is ever deleted. */
module Push {
  import opened Wrappers
  import opened ObjectKeys
  import opened Index
  import opened Layout

  datatype Object = Body(content: Content) | IndexBody(version: int, entries: seq<Entry>)

  type Bucket = map<Key, Object>

  // The image layouts, a function of the digest, and the index key.
  datatype World = World(layout: string -> Layout, index: Key)

  ghost predicate GoodWorld(w: World) {
    && OutsideTrees(w.index)
    && (forall d :: WellFormed(w.layout(d)))
    // A blob's path is the digest of its content.
    && (forall d1, d2, rel :: IsBlob(rel) && rel in w.layout(d1).content && rel in w.layout(d2).content ==>
          w.layout(d1).content[rel] == w.layout(d2).content[rel])
  }

  // Where a push stands: HEADs of the shared blobs in any order, PUTs of the
  // missing ones, HEAD and PUTs of the per-image files, read and write of the
  // index.
  datatype Phase =
    | Probing(found: map<Rel, bool>)
    | Uploading(missing: seq<Rel>, next: nat)
    | ProbingManifest
    | PuttingManifests(next: nat)
    | ReadingIndex
    | WritingIndex(entries: seq<Entry>)
    | Finished
    | Stopped

  datatype Pusher = Pusher(ref: string, digest: string, phase: Phase)

  datatype State = State(bucket: Bucket, pushers: seq<Pusher>)

  datatype Action =
    | Start(ref: string, digest: string)
    | HeadBlob(i: nat, rel: Rel)
    | Probed(i: nat)
    | PutBlob(i: nat)
    | BlobsDone(i: nat)
    | ManifestThere(i: nat)
    | ManifestNotThere(i: nat)
    | PutManifest(i: nat)
    | ManifestsDone(i: nat)
    | ReadIndex(i: nat)
    | WriteIndex(i: nat, after: seq<Entry>)
    | Stop(i: nat)

  function NewEntry(w: World, p: Pusher): Entry {
    Entry(p.ref, p.digest, Prefix(p.ref, p.digest),
          Manifests(w.layout(p.digest).files), Blobs(w.layout(p.digest).files))
  }

  function NotFound(blobs: seq<Rel>, found: map<Rel, bool>): seq<Rel> {
    if blobs == [] then []
    else
      var r := blobs[|blobs| - 1];
      NotFound(blobs[..|blobs| - 1], found) + if r in found && found[r] then [] else [r]
  }

  function Order(w: World, p: Pusher): seq<Rel> {
    UploadOrder(Manifests(w.layout(p.digest).files))
  }

  // ReadIndex: no object is an empty index, a newer version or another body is
  // an error.
  function IndexEntries(w: World, b: Bucket): Option<seq<Entry>> {
    if w.index !in b then Some([])
    else match b[w.index]
      case IndexBody(version, entries) => if version > INDEX_VERSION then None else Some(entries)
      case Body(_) => None
  }

  ghost predicate Enabled(w: World, s: State, a: Action) {
    if a.Start? then PlainRef(a.ref) && Sha256(a.digest) && w.layout(a.digest).files != []
    else
      && a.i < |s.pushers|
      && var p := s.pushers[a.i];
         match a
         case HeadBlob(_, rel) =>
           p.phase.Probing? && rel in Blobs(w.layout(p.digest).files) && rel !in p.phase.found
         case Probed(_) =>
           p.phase.Probing? && forall rel :: rel in Blobs(w.layout(p.digest).files) ==> rel in p.phase.found
         case PutBlob(_) =>
           && p.phase.Uploading? && p.phase.next < |p.phase.missing|
           && p.phase.missing[p.phase.next] in w.layout(p.digest).content
         case BlobsDone(_) => p.phase.Uploading? && p.phase.next == |p.phase.missing|
         case ManifestThere(_) => p.phase.ProbingManifest? && ImageKey(p.ref, p.digest, INDEX_JSON) in s.bucket
         // any error of the HEAD counts as not there
         case ManifestNotThere(_) => p.phase.ProbingManifest?
         case PutManifest(_) =>
           && p.phase.PuttingManifests? && p.phase.next < |Order(w, p)|
           && Order(w, p)[p.phase.next] in w.layout(p.digest).content
         case ManifestsDone(_) => p.phase.PuttingManifests? && p.phase.next == |Order(w, p)|
         case ReadIndex(_) => p.phase.ReadingIndex? && IndexEntries(w, s.bucket).Some?
         case WriteIndex(_, after) => p.phase.WritingIndex? && IsUpsert(p.phase.entries, NewEntry(w, p), after)
         case Stop(_) => true
  }

  function SetPhase(s: State, i: nat, phase: Phase): State
    requires i < |s.pushers|
  {
    s.(pushers := s.pushers[i := s.pushers[i].(phase := phase)])
  }

  function Put(s: State, k: Key, o: Object): State {
    s.(bucket := s.bucket[k := o])
  }

  ghost function Step(w: World, s: State, a: Action): State
    requires Enabled(w, s, a)
  {
    match a
    case Start(ref, digest) => s.(pushers := s.pushers + [Pusher(ref, digest, Probing(map[]))])
    case HeadBlob(i, rel) =>
      SetPhase(s, i, Probing(s.pushers[i].phase.found[rel := BlobKey(rel) in s.bucket]))
    case Probed(i) =>
      var p := s.pushers[i];
      SetPhase(s, i, Uploading(NotFound(Blobs(w.layout(p.digest).files), p.phase.found), 0))
    case PutBlob(i) =>
      var p := s.pushers[i];
      var rel := p.phase.missing[p.phase.next];
      Put(SetPhase(s, i, p.phase.(next := p.phase.next + 1)),
          BlobKey(rel), Body(w.layout(p.digest).content[rel]))
    case BlobsDone(i) => SetPhase(s, i, ProbingManifest)
    case ManifestThere(i) => SetPhase(s, i, ReadingIndex)
    case ManifestNotThere(i) => SetPhase(s, i, PuttingManifests(0))
    case PutManifest(i) =>
      var p := s.pushers[i];
      var rel := Order(w, p)[p.phase.next];
      Put(SetPhase(s, i, PuttingManifests(p.phase.next + 1)),
          ImageKey(p.ref, p.digest, rel), Body(w.layout(p.digest).content[rel]))
    case ManifestsDone(i) => SetPhase(s, i, ReadingIndex)
    case ReadIndex(i) => SetPhase(s, i, WritingIndex(IndexEntries(w, s.bucket).value))
    case WriteIndex(i, after) =>
      Put(SetPhase(s, i, Finished), w.index, IndexBody(INDEX_VERSION, after))
    case Stop(i) => SetPhase(s, i, Stopped)
  }

  // A run: the states it goes through.
  ghost predicate IsRun(w: World, states: seq<State>, actions: seq<Action>) {
    && |states| == |actions| + 1
    && forall i :: 0 <= i < |actions| ==> IsStep(w, states, actions, i)
  }

  ghost predicate IsStep(w: World, states: seq<State>, actions: seq<Action>, i: nat)
    requires i < |actions| && |states| == |actions| + 1
  {
    Enabled(w, states[i], actions[i]) && states[i + 1] == Step(w, states[i], actions[i])
  }

  // ---------- The invariant ----------

  ghost predicate BlobRight(w: World, b: Bucket, d: string, rel: Rel) {
    Sha256(d) && IsBlob(rel) && rel in w.layout(d).content && BlobKey(rel) in b ==>
      b[BlobKey(rel)] == Body(w.layout(d).content[rel])
  }

  ghost predicate ManifestRight(w: World, b: Bucket, ref: string, d: string, rel: Rel) {
    PlainRef(ref) && Sha256(d) && !IsBlob(rel) && rel in w.layout(d).content && ImageKey(ref, d, rel) in b ==>
      b[ImageKey(ref, d, rel)] == Body(w.layout(d).content[rel])
  }

  // index.json under an image's prefix says its other per-image files are there.
  ghost predicate SentinelRight(w: World, b: Bucket, ref: string, d: string) {
    PlainRef(ref) && Sha256(d) && ImageKey(ref, d, INDEX_JSON) in b ==> ManifestsThere(w, b, ref, d)
  }

  ghost predicate ManifestsThere(w: World, b: Bucket, ref: string, d: string) {
    forall rel :: rel in w.layout(d).content && !IsBlob(rel) ==> ImageKey(ref, d, rel) in b
  }

  ghost predicate BlobsThere(w: World, b: Bucket, d: string) {
    forall rel :: rel in w.layout(d).content && IsBlob(rel) ==> BlobKey(rel) in b
  }

  ghost predicate HasBody(b: Bucket, k: Key, c: Content) {
    k in b && b[k] == Body(c)
  }

  // Everything the entry lists is in the bucket, and together it is exactly
  // the layout of the entry's digest. Entries of both schema versions qualify:
  // blobs shared (v2), or listed with the per-image files (v1).
  ghost predicate Complete(w: World, b: Bucket, e: Entry) {
    var content := w.layout(e.digest).content;
    && PlainRef(e.ref) && Sha256(e.digest) && e.prefix == Prefix(e.ref, e.digest)
    && (forall rel :: rel in content <==> rel in e.files || rel in e.blobs)
    && (forall rel :: rel in e.files ==> rel in content && HasBody(b, ImageKey(e.ref, e.digest, rel), content[rel]))
    && (forall rel :: rel in e.blobs ==> IsBlob(rel) && rel in content && HasBody(b, BlobKey(rel), content[rel]))
  }

  ghost predicate AllComplete(w: World, b: Bucket, entries: seq<Entry>) {
    forall e :: e in entries ==> Complete(w, b, e)
  }

  ghost predicate GoodBucket(w: World, b: Bucket) {
    && (forall d, rel :: BlobRight(w, b, d, rel))
    && (forall ref, d, rel :: ManifestRight(w, b, ref, d, rel))
    && (forall ref, d :: SentinelRight(w, b, ref, d))
    && GoodIndex(w, b)
  }

  ghost predicate GoodIndex(w: World, b: Bucket) {
    w.index in b && b[w.index].IndexBody? ==> AllComplete(w, b, b[w.index].entries)
  }

  ghost predicate GoodPusher(w: World, b: Bucket, p: Pusher) {
    var content := w.layout(p.digest).content;
    && PlainRef(p.ref) && Sha256(p.digest)
    && match p.phase
       case Probing(found) =>
         forall rel :: rel in found ==> IsBlob(rel) && (found[rel] ==> BlobKey(rel) in b)
       case Uploading(missing, next) =>
         && next <= |missing|
         && (forall rel :: rel in missing ==> rel in content && IsBlob(rel))
         && (forall rel :: rel in content && IsBlob(rel) ==> rel in missing[next..] || BlobKey(rel) in b)
       case ProbingManifest => BlobsThere(w, b, p.digest)
       case PuttingManifests(next) =>
         && BlobsThere(w, b, p.digest)
         && next <= |Order(w, p)|
         && forall rel :: rel in Order(w, p)[..next] ==> ImageKey(p.ref, p.digest, rel) in b
       case ReadingIndex => BlobsThere(w, b, p.digest) && ManifestsThere(w, b, p.ref, p.digest)
       case WritingIndex(entries) =>
         && BlobsThere(w, b, p.digest) && ManifestsThere(w, b, p.ref, p.digest)
         && AllComplete(w, b, entries)
       case Finished => true
       case Stopped => true
  }

  ghost predicate Inv(w: World, s: State) {
    && GoodBucket(w, s.bucket)
    && forall i :: 0 <= i < |s.pushers| ==> GoodPusher(w, s.bucket, s.pushers[i])
  }

  // ---------- What stays true while the bucket grows ----------

  // Objects other than the index stay as they are.
  ghost predicate Grows(w: World, b: Bucket, b': Bucket) {
    forall k :: k in b && k != w.index ==> k in b' && b'[k] == b[k]
  }

  lemma CompleteGrows(w: World, b: Bucket, b': Bucket, e: Entry)
    requires GoodWorld(w) && Grows(w, b, b') && Complete(w, b, e)
    ensures Complete(w, b', e)
  {
    forall rel | rel in e.files
      ensures ImageKey(e.ref, e.digest, rel) != w.index
    {
      KeysApart(e.ref, e.digest, rel, Rel("blobs/"), w.index);
    }
    forall rel | rel in e.blobs
      ensures BlobKey(rel) != w.index
    {
      KeysApart(e.ref, e.digest, rel, rel, w.index);
    }
  }

  lemma AllCompleteGrows(w: World, b: Bucket, b': Bucket, entries: seq<Entry>)
    requires GoodWorld(w) && Grows(w, b, b') && AllComplete(w, b, entries)
    ensures AllComplete(w, b', entries)
  {
    forall e | e in entries
      ensures Complete(w, b', e)
    {
      CompleteGrows(w, b, b', e);
    }
  }

  lemma KeysNotIndex(w: World, ref: string, d: string)
    requires GoodWorld(w) && PlainRef(ref) && Sha256(d)
    ensures forall rel :: ImageKey(ref, d, rel) != w.index
    ensures forall rel :: IsBlob(rel) ==> BlobKey(rel) != w.index
  {
    forall rel
      ensures ImageKey(ref, d, rel) != w.index
    {
      KeysApart(ref, d, rel, Rel("blobs/"), w.index);
    }
    forall rel | IsBlob(rel)
      ensures BlobKey(rel) != w.index
    {
      KeysApart(ref, d, rel, rel, w.index);
    }
  }

  lemma PusherGrows(w: World, b: Bucket, b': Bucket, p: Pusher)
    requires GoodWorld(w) && Grows(w, b, b') && GoodPusher(w, b, p)
    ensures GoodPusher(w, b', p)
  {
    KeysNotIndex(w, p.ref, p.digest);
    if p.phase.WritingIndex? {
      AllCompleteGrows(w, b, b', p.phase.entries);
    }
  }

  // ---------- The three writes ----------

  lemma PutBlobKeepsBucket(w: World, b: Bucket, d: string, rel: Rel)
    requires GoodWorld(w) && GoodBucket(w, b)
    requires Sha256(d) && IsBlob(rel) && rel in w.layout(d).content
    ensures var b' := b[BlobKey(rel) := Body(w.layout(d).content[rel])];
            GoodBucket(w, b') && Grows(w, b, b')
  {
    var k := BlobKey(rel);
    var b' := b[k := Body(w.layout(d).content[rel])];
    assert BlobRight(w, b, d, rel);
    KeysNotIndex(w, "x", d) by {
      PlainX();
    }
    assert Grows(w, b, b');
    forall d2, rel2
      ensures BlobRight(w, b', d2, rel2)
    {
      assert BlobRight(w, b, d2, rel2);
      if IsBlob(rel2) && BlobKey(rel2) == k {
        BlobKeyIs(rel);
        BlobKeyIs(rel2);
      }
    }
    forall ref, d2, rel2
      ensures ManifestRight(w, b', ref, d2, rel2)
    {
      assert ManifestRight(w, b, ref, d2, rel2);
      if PlainRef(ref) && Sha256(d2) {
        KeysApart(ref, d2, rel2, rel, w.index);
      }
    }
    forall ref, d2
      ensures SentinelRight(w, b', ref, d2)
    {
      assert SentinelRight(w, b, ref, d2);
      if PlainRef(ref) && Sha256(d2) {
        KeysApart(ref, d2, INDEX_JSON, rel, w.index);
      }
    }
    GoodIndexGrows(w, b, b');
  }

  lemma PlainX()
    ensures PlainRef("x")
  {
    assert "x"[1..] == "" && SafeRef("") == "" && SafeRef("x") == "x";
  }

  lemma GoodIndexGrows(w: World, b: Bucket, b': Bucket)
    requires GoodWorld(w) && GoodIndex(w, b) && Grows(w, b, b')
    requires w.index in b' ==> w.index in b && b'[w.index] == b[w.index]
    ensures GoodIndex(w, b')
  {
    if w.index in b' && b'[w.index].IndexBody? {
      AllCompleteGrows(w, b, b', b[w.index].entries);
    }
  }

  // A per-image file goes up; when it is index.json the others are there.
  lemma PutManifestKeepsBucket(w: World, b: Bucket, ref: string, d: string, rel: Rel)
    requires GoodWorld(w) && GoodBucket(w, b)
    requires PlainRef(ref) && Sha256(d) && !IsBlob(rel) && rel in w.layout(d).content
    requires rel == INDEX_JSON ==>
               forall r :: r in w.layout(d).content && !IsBlob(r) && r != INDEX_JSON ==> ImageKey(ref, d, r) in b
    ensures var b' := b[ImageKey(ref, d, rel) := Body(w.layout(d).content[rel])];
            GoodBucket(w, b') && Grows(w, b, b')
  {
    var k := ImageKey(ref, d, rel);
    var b' := b[k := Body(w.layout(d).content[rel])];
    assert ManifestRight(w, b, ref, d, rel);
    KeysNotIndex(w, ref, d);
    assert Grows(w, b, b');
    forall d2, rel2
      ensures BlobRight(w, b', d2, rel2)
    {
      assert BlobRight(w, b, d2, rel2);
      if IsBlob(rel2) {
        KeysApart(ref, d, rel, rel2, w.index);
      }
    }
    forall ref2, d2, rel2
      ensures ManifestRight(w, b', ref2, d2, rel2)
    {
      assert ManifestRight(w, b, ref2, d2, rel2);
      if PlainRef(ref2) && Sha256(d2) && ImageKey(ref2, d2, rel2) == k {
        ImageKeyDetermines(ref2, d2, rel2, ref, d, rel);
      }
    }
    forall ref2, d2
      ensures SentinelRight(w, b', ref2, d2)
    {
      PutKeepsSentinel(w, b, ref, d, rel, ref2, d2);
    }
    GoodIndexGrows(w, b, b');
  }

  lemma PutKeepsSentinel(w: World, b: Bucket, ref: string, d: string, rel: Rel, ref2: string, d2: string)
    requires PlainRef(ref) && Sha256(d) && rel in w.layout(d).content
    requires SentinelRight(w, b, ref2, d2)
    requires rel == INDEX_JSON ==>
               forall r :: r in w.layout(d).content && !IsBlob(r) && r != INDEX_JSON ==> ImageKey(ref, d, r) in b
    ensures SentinelRight(w, b[ImageKey(ref, d, rel) := Body(w.layout(d).content[rel])], ref2, d2)
  {
    if PlainRef(ref2) && Sha256(d2) && ImageKey(ref2, d2, INDEX_JSON) == ImageKey(ref, d, rel) {
      ImageKeyDetermines(ref2, d2, INDEX_JSON, ref, d, rel);
      assert forall r :: ImageKey(ref2, d2, r) == ImageKey(ref, d, r);
    }
  }

  lemma WriteIndexKeepsBucket(w: World, b: Bucket, after: seq<Entry>)
    requires GoodWorld(w) && GoodBucket(w, b) && AllComplete(w, b, after)
    ensures var b' := b[w.index := IndexBody(INDEX_VERSION, after)];
            GoodBucket(w, b') && Grows(w, b, b')
  {
    var b' := b[w.index := IndexBody(INDEX_VERSION, after)];
    assert Grows(w, b, b');
    forall d, rel
      ensures BlobRight(w, b', d, rel)
    {
      assert BlobRight(w, b, d, rel);
      if IsBlob(rel) {
        PlainX();
        if Sha256(d) {
          KeysApart("x", d, rel, rel, w.index);
        }
      }
    }
    forall ref, d, rel
      ensures ManifestRight(w, b', ref, d, rel)
    {
      assert ManifestRight(w, b, ref, d, rel);
      if PlainRef(ref) && Sha256(d) {
        KeysNotIndex(w, ref, d);
      }
    }
    forall ref, d
      ensures SentinelRight(w, b', ref, d)
    {
      assert SentinelRight(w, b, ref, d);
      if PlainRef(ref) && Sha256(d) {
        KeysNotIndex(w, ref, d);
      }
    }
    AllCompleteGrows(w, b, b', after);
  }

  // ---------- Each pusher's own progress ----------

  lemma {:induction false} NotFoundIs(blobs: seq<Rel>, found: map<Rel, bool>)
    ensures forall r :: r in NotFound(blobs, found) <==> r in blobs && !(r in found && found[r])
  {
    if blobs != [] {
      NotFoundIs(blobs[..|blobs| - 1], found);
      assert blobs == blobs[..|blobs| - 1] + [blobs[|blobs| - 1]];
    }
  }

  lemma ProbedIsGood(w: World, b: Bucket, p: Pusher)
    requires GoodWorld(w) && GoodPusher(w, b, p) && p.phase.Probing?
    ensures GoodPusher(w, b, p.(phase := Uploading(NotFound(Blobs(w.layout(p.digest).files), p.phase.found), 0)))
  {
    var files := w.layout(p.digest).files;
    assert WellFormed(w.layout(p.digest));
    PartitionIs(files);
    var missing := NotFound(Blobs(files), p.phase.found);
    NotFoundIs(Blobs(files), p.phase.found);
    assert missing[0..] == missing;
  }

  lemma UploadedIsGood(w: World, b: Bucket, p: Pusher)
    requires GoodPusher(w, b, p) && p.phase.Uploading? && p.phase.next < |p.phase.missing|
    requires BlobKey(p.phase.missing[p.phase.next]) in b
    ensures GoodPusher(w, b, p.(phase := p.phase.(next := p.phase.next + 1)))
  {
    var missing, next := p.phase.missing, p.phase.next;
    assert missing[next..] == [missing[next]] + missing[next + 1..];
  }

  // What the upload order says about the file that is next.
  lemma NextManifest(w: World, b: Bucket, p: Pusher)
    requires GoodWorld(w) && GoodPusher(w, b, p)
    requires p.phase.PuttingManifests? && p.phase.next < |Order(w, p)|
    ensures var content, rel := w.layout(p.digest).content, Order(w, p)[p.phase.next];
            && rel in content && !IsBlob(rel)
            && (rel == INDEX_JSON ==>
                 forall r :: r in content && !IsBlob(r) && r != INDEX_JSON ==> ImageKey(p.ref, p.digest, r) in b)
  {
    var files := w.layout(p.digest).files;
    assert WellFormed(w.layout(p.digest));
    PartitionIs(files);
    IndexJsonLast(Manifests(files));
    assert Order(w, p)[p.phase.next] in Order(w, p);
  }

  lemma ManifestPutIsGood(w: World, b: Bucket, p: Pusher)
    requires GoodPusher(w, b, p) && p.phase.PuttingManifests? && p.phase.next < |Order(w, p)|
    requires ImageKey(p.ref, p.digest, Order(w, p)[p.phase.next]) in b
    ensures GoodPusher(w, b, p.(phase := PuttingManifests(p.phase.next + 1)))
  {
    var order, next := Order(w, p), p.phase.next;
    var p' := p.(phase := PuttingManifests(next + 1));
    assert Order(w, p') == order;
    assert order[..next + 1] == order[..next] + [order[next]];
  }

  lemma ManifestsDoneIsGood(w: World, b: Bucket, p: Pusher)
    requires GoodWorld(w) && GoodPusher(w, b, p)
    requires p.phase.PuttingManifests? && p.phase.next == |Order(w, p)|
    ensures GoodPusher(w, b, p.(phase := ReadingIndex))
  {
    var files := w.layout(p.digest).files;
    assert WellFormed(w.layout(p.digest));
    PartitionIs(files);
    IndexJsonLast(Manifests(files));
    assert Order(w, p)[..|Order(w, p)|] == Order(w, p);
  }

  // The entry of a push whose files are all up is complete.
  lemma NewEntryComplete(w: World, b: Bucket, p: Pusher)
    requires GoodWorld(w) && GoodBucket(w, b) && GoodPusher(w, b, p) && p.phase.WritingIndex?
    ensures Complete(w, b, NewEntry(w, p))
  {
    var l := w.layout(p.digest);
    assert WellFormed(l);
    PartitionIs(l.files);
    forall rel | rel in Manifests(l.files)
      ensures HasBody(b, ImageKey(p.ref, p.digest, rel), l.content[rel])
    {
      assert ManifestRight(w, b, p.ref, p.digest, rel);
    }
    forall rel | rel in Blobs(l.files)
      ensures HasBody(b, BlobKey(rel), l.content[rel])
    {
      assert BlobRight(w, b, p.digest, rel);
    }
  }

  lemma UpsertStaysComplete(w: World, b: Bucket, p: Pusher, after: seq<Entry>)
    requires GoodWorld(w) && GoodBucket(w, b) && GoodPusher(w, b, p) && p.phase.WritingIndex?
    requires IsUpsert(p.phase.entries, NewEntry(w, p), after)
    ensures AllComplete(w, b, after)
  {
    NewEntryComplete(w, b, p);
    UpsertReads(p.phase.entries, NewEntry(w, p), after);
  }

  // ---------- Every step keeps the invariant ----------

  // The bucket stays good and grows, and the acting pusher's next phase is good
  // in the new bucket.
  lemma StepLocal(w: World, s: State, a: Action)
    requires GoodWorld(w) && Inv(w, s) && Enabled(w, s, a) && !a.Start?
    ensures GoodBucket(w, Step(w, s, a).bucket) && Grows(w, s.bucket, Step(w, s, a).bucket)
    ensures GoodPusher(w, Step(w, s, a).bucket, Step(w, s, a).pushers[a.i])
  {
    var p := s.pushers[a.i];
    if a.PutBlob? {
      PutBlobStep(w, s.bucket, p);
    } else if a.PutManifest? {
      PutManifestStep(w, s.bucket, p);
    } else if a.WriteIndex? {
      UpsertStaysComplete(w, s.bucket, p, a.after);
      WriteIndexKeepsBucket(w, s.bucket, a.after);
    } else {
      ReadStep(w, s, a);
    }
  }

  // A step that only reads the bucket.
  lemma ReadStep(w: World, s: State, a: Action)
    requires GoodWorld(w) && GoodBucket(w, s.bucket) && Enabled(w, s, a)
    requires !a.Start? && !a.PutBlob? && !a.PutManifest? && !a.WriteIndex?
    requires GoodPusher(w, s.bucket, s.pushers[a.i])
    ensures Step(w, s, a).bucket == s.bucket
    ensures GoodPusher(w, s.bucket, Step(w, s, a).pushers[a.i])
  {
    var p := s.pushers[a.i];
    match a
    case HeadBlob(_, rel) =>
      assert WellFormed(w.layout(p.digest));
      PartitionIs(w.layout(p.digest).files);
    case Probed(_) =>
      ProbedIsGood(w, s.bucket, p);
    case BlobsDone(_) =>
      assert p.phase.missing[|p.phase.missing|..] == [];
    case ManifestThere(_) =>
      assert SentinelRight(w, s.bucket, p.ref, p.digest);
    case ManifestNotThere(_) =>
    case ManifestsDone(_) =>
      ManifestsDoneIsGood(w, s.bucket, p);
    case ReadIndex(_) =>
    case Stop(_) =>
  }

  lemma PutBlobStep(w: World, b: Bucket, p: Pusher)
    requires GoodWorld(w) && GoodBucket(w, b) && GoodPusher(w, b, p)
    requires p.phase.Uploading? && p.phase.next < |p.phase.missing|
    requires p.phase.missing[p.phase.next] in w.layout(p.digest).content
    ensures var rel := p.phase.missing[p.phase.next];
            var b' := b[BlobKey(rel) := Body(w.layout(p.digest).content[rel])];
            && GoodBucket(w, b') && Grows(w, b, b')
            && GoodPusher(w, b', p.(phase := p.phase.(next := p.phase.next + 1)))
  {
    var rel := p.phase.missing[p.phase.next];
    var b' := b[BlobKey(rel) := Body(w.layout(p.digest).content[rel])];
    assert rel in p.phase.missing;
    PutBlobKeepsBucket(w, b, p.digest, rel);
    PusherGrows(w, b, b', p);
    UploadedIsGood(w, b', p);
  }

  lemma PutManifestStep(w: World, b: Bucket, p: Pusher)
    requires GoodWorld(w) && GoodBucket(w, b) && GoodPusher(w, b, p)
    requires p.phase.PuttingManifests? && p.phase.next < |Order(w, p)|
    requires Order(w, p)[p.phase.next] in w.layout(p.digest).content
    ensures var rel := Order(w, p)[p.phase.next];
            var b' := b[ImageKey(p.ref, p.digest, rel) := Body(w.layout(p.digest).content[rel])];
            && GoodBucket(w, b') && Grows(w, b, b')
            && GoodPusher(w, b', p.(phase := PuttingManifests(p.phase.next + 1)))
  {
    var rel := Order(w, p)[p.phase.next];
    var b' := b[ImageKey(p.ref, p.digest, rel) := Body(w.layout(p.digest).content[rel])];
    NextManifest(w, b, p);
    PutManifestKeepsBucket(w, b, p.ref, p.digest, rel);
    PusherGrows(w, b, b', p);
    ManifestPutIsGood(w, b', p);
  }

  lemma StepKeepsInv(w: World, s: State, a: Action)
    requires GoodWorld(w) && Inv(w, s) && Enabled(w, s, a)
    ensures Inv(w, Step(w, s, a)) && Grows(w, s.bucket, Step(w, s, a).bucket)
  {
    var s' := Step(w, s, a);
    if a.Start? {
      assert GoodPusher(w, s.bucket, Pusher(a.ref, a.digest, Probing(map[])));
    } else {
      StepLocal(w, s, a);
      forall j | 0 <= j < |s'.pushers|
        ensures GoodPusher(w, s'.bucket, s'.pushers[j])
      {
        if j != a.i {
          assert s'.pushers[j] == s.pushers[j];
          PusherGrows(w, s.bucket, s'.bucket, s.pushers[j]);
        }
      }
    }
  }

  // ---------- The theorem ----------

  // Every state of every run, from a bucket that is good (an empty one is):
  // the bucket is good, so every entry of the index stored at that moment is
  // complete, and an index read by a pusher stays complete until it writes.
  lemma {:induction false} RunKeepsInv(w: World, states: seq<State>, actions: seq<Action>, n: nat)
    requires GoodWorld(w) && IsRun(w, states, actions) && n < |states|
    requires GoodBucket(w, states[0].bucket) && states[0].pushers == []
    ensures Inv(w, states[n])
    decreases n
  {
    if n > 0 {
      RunKeepsInv(w, states, actions, n - 1);
      assert IsStep(w, states, actions, n - 1);
      StepKeepsInv(w, states[n - 1], actions[n - 1]);
    }
  }

  lemma RunGrows(w: World, states: seq<State>, actions: seq<Action>, n: nat)
    requires GoodWorld(w) && IsRun(w, states, actions) && n < |actions|
    requires GoodBucket(w, states[0].bucket) && states[0].pushers == []
    ensures Grows(w, states[n].bucket, states[n + 1].bucket)
  {
    RunKeepsInv(w, states, actions, n);
    assert IsStep(w, states, actions, n);
    StepKeepsInv(w, states[n], actions[n]);
  }

  // Complete entries stay complete for the rest of the run.
  lemma {:induction false} CompleteForTheRest(w: World, states: seq<State>, actions: seq<Action>,
                                              n: nat, m: nat, entries: seq<Entry>)
    requires GoodWorld(w) && IsRun(w, states, actions) && n <= m < |states|
    requires GoodBucket(w, states[0].bucket) && states[0].pushers == []
    requires AllComplete(w, states[n].bucket, entries)
    ensures AllComplete(w, states[m].bucket, entries)
    decreases m - n
  {
    if n < m {
      CompleteForTheRest(w, states, actions, n, m - 1, entries);
      RunGrows(w, states, actions, m - 1);
      AllCompleteGrows(w, states[m - 1].bucket, states[m].bucket, entries);
    }
  }

  // An index stored at any moment of a run serves every later moment too.
  lemma StoredIndexStaysComplete(w: World, states: seq<State>, actions: seq<Action>, n: nat, m: nat)
    requires GoodWorld(w) && IsRun(w, states, actions) && n <= m < |states|
    requires GoodBucket(w, states[0].bucket) && states[0].pushers == []
    requires w.index in states[n].bucket && states[n].bucket[w.index].IndexBody?
    ensures AllComplete(w, states[m].bucket, states[n].bucket[w.index].entries)
  {
    RunKeepsInv(w, states, actions, n);
    assert GoodIndex(w, states[n].bucket);
    CompleteForTheRest(w, states, actions, n, m, states[n].bucket[w.index].entries);
  }

  lemma EmptyBucketIsGood(w: World)
    ensures GoodBucket(w, map[])
  {
  }

  // ---------- Finished pushes and lost updates ----------

  // Right after a push wrote the index, readers find its entry, and everything
  // the entry lists is in the bucket.
  lemma FinishedPushIsFound(w: World, s: State, i: nat, after: seq<Entry>)
    requires GoodWorld(w) && Inv(w, s) && Enabled(w, s, WriteIndex(i, after))
    ensures var s' := Step(w, s, WriteIndex(i, after));
            && IndexEntries(w, s'.bucket) == Some(after)
            && Find(after, s.pushers[i].ref) == Some(NewEntry(w, s.pushers[i]))
            && Complete(w, s'.bucket, NewEntry(w, s.pushers[i]))
  {
    StepKeepsInv(w, s, WriteIndex(i, after));
    NewEntryComplete(w, s.bucket, s.pushers[i]);
    CompleteGrows(w, s.bucket, Step(w, s, WriteIndex(i, after)).bucket, NewEntry(w, s.pushers[i]));
    UpsertReads(s.pushers[i].phase.entries, NewEntry(w, s.pushers[i]), after);
  }

  // The index write is not atomic with the read: an entry of another reference
  // survives it exactly when the writer had read it.
  lemma SurvivesWriteIff(w: World, s: State, i: nat, after: seq<Entry>, e: Entry)
    requires Enabled(w, s, WriteIndex(i, after)) && e.ref != s.pushers[i].ref
    ensures e in after <==> e in s.pushers[i].phase.entries
  {
    UpsertReads(s.pushers[i].phase.entries, NewEntry(w, s.pushers[i]), after);
  }
}
