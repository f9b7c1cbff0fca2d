/** pkg/images/preload.go: the script that rebuilds an image layout on a node
    from the bucket. */
module Preload {
  import opened Wrappers
  import opened ObjectKeys
  import opened Index
  import opened Layout
  import opened Ordering
  import opened Push

  // ---------- presignEntry ----------

  // The object each layout path is fetched from. A path listed both ways gets
  // the shared blob.
  function Urls(e: Entry): map<Rel, Key> {
    ImageUrls(e.prefix, e.files) + BlobUrls(e.blobs)
  }

  function ImageUrls(prefix: string, files: seq<Rel>): map<Rel, Key> {
    map rel | rel in files :: Key(prefix + rel.path)
  }

  function BlobUrls(blobs: seq<Rel>): map<Rel, Key> {
    map rel | rel in blobs :: BlobKey(rel)
  }

  method PresignEntry(e: Entry) returns (out: map<Rel, Key>)
    ensures out == Urls(e)
    ensures forall rel :: rel in out <==> rel in e.files || rel in e.blobs
    ensures forall rel :: rel in e.files && rel !in e.blobs ==> out[rel] == Key(e.prefix + rel.path)
    ensures forall rel :: rel in e.blobs && "blobs/" <= rel.path ==> out[rel] == Key(rel.path)
  {
    BlobsAtTheirPath(e.blobs);
    out := map[];
    for i := 0 to |e.files|
      invariant out == ImageUrls(e.prefix, e.files[..i])
    {
      assert e.files[..i + 1] == e.files[..i] + [e.files[i]];
      ImageUrlsAppend(e.prefix, e.files[..i], e.files[i]);
      out := out[e.files[i] := Key(e.prefix + e.files[i].path)];
    }
    assert e.files[..|e.files|] == e.files;
    for i := 0 to |e.blobs|
      invariant out == ImageUrls(e.prefix, e.files) + BlobUrls(e.blobs[..i])
    {
      assert e.blobs[..i + 1] == e.blobs[..i] + [e.blobs[i]];
      BlobUrlsAppend(ImageUrls(e.prefix, e.files), e.blobs[..i], e.blobs[i]);
      out := out[e.blobs[i] := BlobKey(e.blobs[i])];
    }
    assert e.blobs[..|e.blobs|] == e.blobs;
  }

  // A blob's object has the blob's own path as its key.
  lemma BlobsAtTheirPath(blobs: seq<Rel>)
    ensures forall rel :: rel in blobs && "blobs/" <= rel.path ==> BlobUrls(blobs)[rel] == Key(rel.path)
  {
    forall rel | rel in blobs && "blobs/" <= rel.path ensures BlobKey(rel) == Key(rel.path) {
      BlobKeyIs(rel);
    }
  }

  lemma ImageUrlsAppend(prefix: string, files: seq<Rel>, f: Rel)
    ensures ImageUrls(prefix, files + [f]) == ImageUrls(prefix, files)[f := Key(prefix + f.path)]
  {
  }

  lemma BlobUrlsAppend(m: map<Rel, Key>, blobs: seq<Rel>, r: Rel)
    ensures m + BlobUrls(blobs + [r]) == (m + BlobUrls(blobs))[r := BlobKey(r)]
  {
  }

  // ---------- BuildPreloadScript ----------

  datatype Command = Mkdir(dir: string) | Curl(path: Rel, url: Key)

  // The parent directory of a layout path, "" at the root.
  function DirOf(path: string): string {
    var i := LastSlash(path);
    if i < 0 then "" else path[..i]
  }

  lemma DirOfIs(dir: string, file: string)
    requires '/' !in file
    ensures DirOf(file) == "" && DirOf(dir + "/" + file) == dir
  {
    var path := dir + "/" + file;
    assert path[|dir|] == '/' && forall k :: |dir| < k < |path| ==> path[k] == file[k - |dir| - 1];
    assert LastSlash(path) == |dir|;
    assert path[..|dir|] == dir;
  }

  function LastSlash(path: string): (i: int)
    ensures -1 <= i < |path|
    ensures i >= 0 ==> path[i] == '/'
    ensures forall k :: i < k < |path| ==> path[k] != '/'
  {
    if path == "" then -1
    else if path[|path| - 1] == '/' then |path| - 1
    else LastSlash(path[..|path| - 1])
  }

  function InsertRel(s: seq<Rel>, r: Rel): seq<Rel> {
    if s == [] || Less(r.path, s[0].path) then [r] + s
    else [s[0]] + InsertRel(s[1..], r)
  }

  // sort.Strings
  function SortRels(s: seq<Rel>): seq<Rel> {
    if s == [] then [] else InsertRel(SortRels(s[..|s| - 1]), s[|s| - 1])
  }

  function Commands(paths: seq<Rel>, urls: map<Rel, Key>): seq<Command> {
    if paths == [] then []
    else
      var r := paths[|paths| - 1];
      Commands(paths[..|paths| - 1], urls) + if r in urls then [Mkdir(DirOf(r.path)), Curl(r, urls[r])] else []
  }

  method BuildPreloadScript(e: Entry, urls: map<Rel, Key>) returns (script: seq<Command>)
    ensures script == Commands(SortRels(e.files + e.blobs), urls)
  {
    script := [];
    var all := SortRels(e.files + e.blobs);
    for i := 0 to |all|
      invariant script == Commands(all[..i], urls)
    {
      assert all[..i + 1][..i] == all[..i];
      if all[i] !in urls {
        continue;
      }
      script := script + [Mkdir(DirOf(all[i].path)), Curl(all[i], urls[all[i]])];
    }
    assert all[..|all|] == all;
  }

  // ---------- Running it on the node ----------

  // The layout directory: which directories exist and what the files hold.
  datatype Disk = Disk(dirs: set<string>, files: map<Rel, Content>)

  // The file's directory is there: the layout directory itself, or one that was
  // made.
  predicate HasPlace(dirs: set<string>, path: string) {
    '/' !in path || exists dir :: dir in dirs && dir + "/" <= path && '/' !in path[|dir| + 1..]
  }

  // curl needs a place for the file, and the object to be there.
  function Exec(b: Bucket, d: Disk, c: Command): Option<Disk> {
    match c
    case Mkdir(dir) => Some(d.(dirs := d.dirs + {dir}))
    case Curl(path, url) =>
      if HasPlace(d.dirs, path.path) && url in b && b[url].Body? then
        Some(d.(files := d.files[path := b[url].content]))
      else None
  }

  // With set -e the first failing command ends the script.
  function RunScript(b: Bucket, script: seq<Command>): Option<Disk> {
    if script == [] then Some(Disk({}, map[]))
    else match RunScript(b, script[..|script| - 1])
      case None => None
      case Some(d) => Exec(b, d, script[|script| - 1])
  }

  lemma MkdirMakesPlace(dirs: set<string>, path: string)
    requires DirOf(path) in dirs
    ensures HasPlace(dirs, path)
  {
    var i := LastSlash(path);
    if i >= 0 {
      var dir := path[..i];
      assert dir + "/" == path[..i + 1];
      assert path[|dir| + 1..] == path[i + 1..];
    }
  }

  lemma {:induction false} SortRelsKeeps(s: seq<Rel>)
    ensures forall r :: r in SortRels(s) <==> r in s
  {
    if s != [] {
      SortRelsKeeps(s[..|s| - 1]);
      InsertRelKeeps(SortRels(s[..|s| - 1]), s[|s| - 1]);
      assert s == s[..|s| - 1] + [s[|s| - 1]];
    }
  }

  ghost predicate InOrder(s: seq<Rel>) {
    forall i, j :: 0 <= i < j < |s| ==> Leq(s[i].path, s[j].path)
  }

  lemma {:induction false} InsertRelSorts(s: seq<Rel>, r: Rel)
    requires InOrder(s)
    ensures InOrder(InsertRel(s, r)) && multiset(InsertRel(s, r)) == multiset(s) + multiset{r}
  {
    if s == [] {
    } else if Less(r.path, s[0].path) {
      LessTotal(r.path, s[0].path);
      forall j | 0 <= j < |s| ensures Leq(r.path, s[j].path) {
        LessTotal(s[0].path, s[j].path);
        LeqTransitive(r.path, s[0].path, s[j].path);
      }
    } else {
      InsertRelSorts(s[1..], r);
      InsertRelKeeps(s[1..], r);
      assert s == [s[0]] + s[1..];
      var tail := InsertRel(s[1..], r);
      forall x | x in tail ensures Leq(s[0].path, x.path) {
        assert x == r || x in s[1..];
      }
    }
  }

  // The script fetches every listed path, in order.
  lemma {:induction false} SortRelsSorts(s: seq<Rel>)
    ensures InOrder(SortRels(s)) && multiset(SortRels(s)) == multiset(s)
  {
    if s != [] {
      SortRelsSorts(s[..|s| - 1]);
      InsertRelSorts(SortRels(s[..|s| - 1]), s[|s| - 1]);
      assert s == s[..|s| - 1] + [s[|s| - 1]];
    }
  }

  lemma {:induction false} InsertRelKeeps(s: seq<Rel>, r: Rel)
    ensures forall x :: x in InsertRel(s, r) <==> x == r || x in s
  {
    if s != [] && !Less(r.path, s[0].path) {
      InsertRelKeeps(s[1..], r);
      assert s == [s[0]] + s[1..];
    }
  }

  lemma RunTwoMore(b: Bucket, script: seq<Command>, dir: string, path: Rel, url: Key)
    requires RunScript(b, script).Some? && dir == DirOf(path.path)
    requires url in b && b[url].Body?
    ensures var after := RunScript(b, script + [Mkdir(dir), Curl(path, url)]);
            after.Some? && after.value.files == RunScript(b, script).value.files[path := b[url].content]
  {
    var one, two := script + [Mkdir(dir)], script + [Mkdir(dir), Curl(path, url)];
    assert one[..|one| - 1] == script && two[..|two| - 1] == one;
    MkdirMakesPlace(RunScript(b, one).value.dirs, path.path);
  }

  // Fetching paths whose objects hold the wanted content gives that content.
  lemma {:induction false} CommandsFetch(b: Bucket, paths: seq<Rel>, urls: map<Rel, Key>, want: map<Rel, Content>)
    requires forall r :: r in paths ==> r in urls && r in want && HasBody(b, urls[r], want[r])
    ensures var disk := RunScript(b, Commands(paths, urls));
            && disk.Some?
            && (forall r :: r in disk.value.files <==> r in paths)
            && (forall r :: r in disk.value.files ==> r in want && disk.value.files[r] == want[r])
  {
    if paths != [] {
      var front, r := paths[..|paths| - 1], paths[|paths| - 1];
      assert paths == front + [r];
      CommandsFetch(b, front, urls, want);
      RunTwoMore(b, Commands(front, urls), DirOf(r.path), r, urls[r]);
    }
  }

  // ---------- Round trip ----------

  // The files a preload of this entry puts in the node's layout directory.
  function Preloaded(b: Bucket, e: Entry): Option<Disk> {
    RunScript(b, Commands(SortRels(e.files + e.blobs), Urls(e)))
  }

  // Preloading a complete entry, of either schema version, rebuilds exactly
  // the layout that was pushed.
  lemma PreloadRebuilds(w: World, b: Bucket, e: Entry)
    requires Complete(w, b, e)
    ensures Preloaded(b, e).Some? && Preloaded(b, e).value.files == w.layout(e.digest).content
  {
    var want, urls := w.layout(e.digest).content, Urls(e);
    var paths := SortRels(e.files + e.blobs);
    SortRelsKeeps(e.files + e.blobs);
    forall r | r in paths
      ensures r in urls && r in want && HasBody(b, urls[r], want[r])
    {
      assert r in e.files || r in e.blobs;
      if r !in e.blobs {
        assert urls[r] == ImageKey(e.ref, e.digest, r);
      }
    }
    CommandsFetch(b, paths, urls, want);
  }

  // At every moment of every run of any pushers, preloading any entry of any
  // index stored so far rebuilds exactly the layout of the entry's digest.
  lemma PreloadAfterPush(w: World, states: seq<State>, actions: seq<Action>, n: nat, m: nat, e: Entry)
    requires GoodWorld(w) && IsRun(w, states, actions) && n <= m < |states|
    requires GoodBucket(w, states[0].bucket) && states[0].pushers == []
    requires w.index in states[n].bucket && states[n].bucket[w.index].IndexBody?
    requires e in states[n].bucket[w.index].entries
    ensures Preloaded(states[m].bucket, e).Some?
    ensures Preloaded(states[m].bucket, e).value.files == w.layout(e.digest).content
  {
    StoredIndexStaysComplete(w, states, actions, n, m);
    PreloadRebuilds(w, states[m].bucket, e);
  }
}
