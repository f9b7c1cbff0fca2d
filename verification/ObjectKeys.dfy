/** pkg/images/s3.go: the bucket keys of cached images. */
module ObjectKeys {
  import Strings

  // An object's key in the bucket, and a path inside an OCI layout directory.
  datatype Key = Key(name: string)
  datatype Rel = Rel(path: string)

  // ---------- Prefixes ----------

  // strings.NewReplacer("/", "_", ":", "--")
  function SafeRef(ref: string): string {
    if ref == "" then ""
    else (if ref[0] == '/' then "_" else if ref[0] == ':' then "--" else [ref[0]]) + SafeRef(ref[1..])
  }

  // strings.ReplaceAll(digest, ":", "-")
  function SafeDigest(digest: string): (s: string)
    ensures |s| == |digest|
    ensures forall i :: 0 <= i < |s| ==> s[i] == if digest[i] == ':' then '-' else digest[i]
  {
    if digest == "" then ""
    else [if digest[0] == ':' then '-' else digest[0]] + SafeDigest(digest[1..])
  }

  // path.Clean on a list of segments without slashes.
  function Clean(segments: seq<Rel>, done: seq<Rel>): seq<Rel> {
    if segments == [] then done
    else
      var s := segments[0].path;
      Clean(segments[1..],
            if !Special(s) then done + [Rel(s)]
            else if s != ".." then done
            else if done == [] || done[|done| - 1].path == ".." then done + [Rel("..")]
            else done[..|done| - 1])
  }

  // The segments path.Clean drops or resolves.
  predicate Special(s: string) {
    s == "" || s == "." || s == ".."
  }

  function JoinSlash(segments: seq<Rel>): string {
    if segments == [] then ""
    else if |segments| == 1 then segments[0].path
    else segments[0].path + "/" + JoinSlash(segments[1..])
  }

  function Prefix(ref: string, digest: string): string {
    JoinSlash(Clean([Rel("oci"), Rel(SafeRef(ref)), Rel(SafeDigest(digest))], [])) + "/"
  }

  // References and digests as registries give them: a reference is not one of
  // the path segments Clean treats specially, a digest is sha256 in hex.
  predicate PlainRef(ref: string) {
    !Special(SafeRef(ref))
  }

  predicate Sha256(digest: string) {
    "sha256:" <= digest && forall i :: 7 <= i < |digest| ==> Hex(digest[i])
  }

  predicate Hex(c: char) {
    '0' <= c <= '9' || 'a' <= c <= 'f'
  }

  // By ASCII code: digits and the letters a to f after the algorithm's name.
  lemma Sha256Iff(digest: string)
    ensures Sha256(digest) <==>
              |digest| >= 7 && digest[..7] == "sha256:"
              && forall i :: 7 <= i < |digest| ==> 48 <= digest[i] as int <= 57 || 97 <= digest[i] as int <= 102
  {
    assert "sha256:" <= digest <==> |digest| >= 7 && digest[..7] == "sha256:";
  }

  lemma {:induction false} SafeRefHasNoSlash(ref: string)
    ensures '/' !in SafeRef(ref)
  {
    if ref != "" {
      SafeRefHasNoSlash(ref[1..]);
    }
  }

  lemma PrefixIs(ref: string, digest: string)
    requires PlainRef(ref) && Sha256(digest)
    ensures Prefix(ref, digest) == "oci/" + (SafeRef(ref) + "/" + (SafeDigest(digest) + "/"))
  {
    var segments := [Rel("oci"), Rel(SafeRef(ref)), Rel(SafeDigest(digest))];
    assert SafeDigest(digest)[0] == 's';
    assert segments[0].path[0] == 'o';
    ThreePlain(segments);
    JoinThree(segments[0], segments[1], segments[2]);
  }

  lemma ThreePlain(segments: seq<Rel>)
    requires |segments| == 3
    requires !Special(segments[0].path) && !Special(segments[1].path) && !Special(segments[2].path)
    ensures Clean(segments, []) == segments
  {
    var none: seq<Rel> := [];
    CleanPlain(segments, none, 0);
    CleanPlain(segments, segments[..1], 1);
    CleanPlain(segments, segments[..2], 2);
    assert none + [segments[0]] == segments[..1];
    assert segments[..1] + [segments[1]] == segments[..2];
    assert segments[..2] + [segments[2]] == segments;
    assert segments[0..] == segments && segments[3..] == none;
  }

  lemma CleanPlain(segments: seq<Rel>, done: seq<Rel>, i: nat)
    requires i < |segments| && !Special(segments[i].path)
    ensures Clean(segments[i..], done) == Clean(segments[i + 1..], done + [segments[i]])
  {
    assert segments[i..][1..] == segments[i + 1..];
  }

  lemma JoinThree(a: Rel, b: Rel, c: Rel)
    ensures JoinSlash([a, b, c]) == a.path + "/" + (b.path + "/" + c.path)
  {
    assert [a, b, c][1..] == [b, c] && [b, c][1..] == [c];
    assert JoinSlash([c]) == c.path;
  }

  // A name and `..` after it cancel out, `.` and nothing change nothing, and `..`
  // stays where there is no name to go back over.
  lemma CleanLaws(name: Rel, rest: seq<Rel>, done: seq<Rel>)
    requires !Special(name.path)
    ensures Clean([name] + ([Rel("..")] + rest), done) == Clean(rest, done)
    ensures Clean([Rel(".")] + rest, done) == Clean(rest, done) == Clean([Rel("")] + rest, done)
    ensures Clean([Rel("..")] + rest, []) == Clean(rest, [Rel("..")])
    ensures Clean([Rel("..")] + rest, [Rel("..")]) == Clean(rest, [Rel(".."), Rel("..")])
  {
    var up := Rel("..");
    assert ([name] + ([up] + rest))[1..] == [up] + rest && ([up] + rest)[1..] == rest;
    assert ([Rel(".")] + rest)[1..] == rest && ([Rel("")] + rest)[1..] == rest;
    var more := done + [name];
    assert name.path != "..";
    assert more[..|more| - 1] == done && more[|more| - 1] == name;
    assert [] + [up] == [up] && [up] + [up] == [up, up] && [up][|[up]| - 1].path == "..";
  }

  // The prefix of a reference that sanitizes to one of the special segments: it
  // loses its own segment, and the one before it when that is `..`.
  lemma SpecialPrefix(ref: string, digest: string)
    requires !PlainRef(ref) && Sha256(digest)
    ensures Prefix(ref, digest) == if SafeRef(ref) == ".." then SafeDigest(digest) + "/"
                                   else "oci/" + (SafeDigest(digest) + "/")
  {
    var root, own, last := Rel("oci"), Rel(SafeRef(ref)), Rel(SafeDigest(digest));
    var none: seq<Rel> := [];
    assert SafeDigest(digest)[0] == 's' && root.path[0] == 'o';
    var all := [root, own, last];
    if SafeRef(ref) == ".." {
      assert all == [root] + ([Rel("..")] + [last]);
      CleanLaws(root, [last], none);
      CleanOne(last, none);
      assert none + [last] == [last];
      assert JoinSlash([last]) == last.path;
    } else {
      assert all == [root] + ([own] + [last]);
      assert all[1..] == [own] + [last];
      CleanLaws(root, [last], [root]);
      CleanOne(last, [root]);
      assert none + [root] == [root] && [root] + [last] == [root, last];
      assert [root, last][1..] == [last] && JoinSlash([last]) == last.path;
      assert "oci" + "/" == "oci/";
    }
  }

  lemma CleanOne(name: Rel, done: seq<Rel>)
    requires !Special(name.path)
    ensures Clean([name], done) == done + [name]
  {
    assert [name][1..] == [];
  }

  // The key of a per-image file determines the prefix, the digest and the
  // file: images share a prefix only when they share the digest.
  lemma ImageKeyDetermines(ref1: string, digest1: string, rel1: Rel, ref2: string, digest2: string, rel2: Rel)
    requires PlainRef(ref1) && PlainRef(ref2) && Sha256(digest1) && Sha256(digest2)
    requires Prefix(ref1, digest1) + rel1.path == Prefix(ref2, digest2) + rel2.path
    ensures SafeRef(ref1) == SafeRef(ref2) && digest1 == digest2 && rel1 == rel2
  {
    PrefixIs(ref1, digest1);
    PrefixIs(ref2, digest2);
    SafeRefHasNoSlash(ref1);
    SafeRefHasNoSlash(ref2);
    DigestHasNoSlash(digest1);
    DigestHasNoSlash(digest2);
    TwoSegments(SafeRef(ref1), SafeDigest(digest1), rel1.path, SafeRef(ref2), SafeDigest(digest2), rel2.path);
    SafeDigestInjective(digest1, digest2);
  }

  lemma TwoSegments(a1: string, b1: string, t1: string, a2: string, b2: string, t2: string)
    requires '/' !in a1 && '/' !in b1 && '/' !in a2 && '/' !in b2
    requires ("oci/" + (a1 + "/" + (b1 + "/"))) + t1 == ("oci/" + (a2 + "/" + (b2 + "/"))) + t2
    ensures a1 == a2 && b1 == b2 && t1 == t2
  {
    var k1 := ("oci/" + (a1 + "/" + (b1 + "/"))) + t1;
    var k2 := ("oci/" + (a2 + "/" + (b2 + "/"))) + t2;
    assert k1[4..] == a1 + "/" + (b1 + "/" + t1);
    assert k2[4..] == a2 + "/" + (b2 + "/" + t2);
    Strings.FirstSegment('/', a1, a2, b1 + "/" + t1, b2 + "/" + t2);
    Strings.FirstSegment('/', b1, b2, t1, t2);
  }

  lemma DigestHasNoSlash(digest: string)
    requires Sha256(digest)
    ensures '/' !in SafeDigest(digest)
  {
    forall i | 0 <= i < |digest|
      ensures SafeDigest(digest)[i] != '/'
    {
      if i < 7 {
        assert digest[i] == "sha256:"[i];
      }
    }
  }

  lemma SafeDigestInjective(a: string, b: string)
    requires Sha256(a) && Sha256(b) && SafeDigest(a) == SafeDigest(b)
    ensures a == b
  {
    assert |a| == |b|;
    forall i | 0 <= i < |a|
      ensures a[i] == b[i]
    {
      assert SafeDigest(a)[i] == SafeDigest(b)[i];
      if i < 7 {
        assert a[i] == "sha256:"[i] == b[i];
      } else {
        assert Hex(a[i]) && Hex(b[i]);
      }
    }
  }

  // Two images share a prefix exactly when their digests are the same and their
  // references are once sanitized.
  lemma SamePrefixIff(ref1: string, digest1: string, ref2: string, digest2: string)
    requires PlainRef(ref1) && PlainRef(ref2) && Sha256(digest1) && Sha256(digest2)
    ensures Prefix(ref1, digest1) == Prefix(ref2, digest2) <==> SafeRef(ref1) == SafeRef(ref2) && digest1 == digest2
  {
    PrefixIs(ref1, digest1);
    PrefixIs(ref2, digest2);
    if Prefix(ref1, digest1) == Prefix(ref2, digest2) {
      ImageKeyDetermines(ref1, digest1, Rel(""), ref2, digest2, Rel(""));
    }
  }

  // A reference without an underscore, and without a dash at its end, before
  // another dash or before a colon.
  predicate Distinctive(ref: string) {
    && '_' !in ref
    && forall i :: 0 <= i < |ref| && ref[i] == '-' ==> i + 1 < |ref| && ref[i + 1] != '-' && ref[i + 1] != ':'
  }

  lemma DistinctiveRest(ref: string)
    requires Distinctive(ref) && ref != ""
    ensures Distinctive(ref[1..])
  {
    forall i | 0 <= i < |ref[1..]| && ref[1..][i] == '-'
      ensures i + 1 < |ref[1..]| && ref[1..][i + 1] != '-' && ref[1..][i + 1] != ':'
    {
      assert ref[i + 1] == '-' && ref[i + 2] == ref[1..][i + 1];
    }
  }

  // What a distinctive reference starts with can be told from its sanitized
  // form.
  lemma FirstOfSafe(ref: string)
    requires Distinctive(ref) && ref != ""
    ensures var s := SafeRef(ref);
            && s != ""
            && (s[0] == '_' <==> ref[0] == '/')
            && (|s| > 1 && s[0] == '-' && s[1] == '-' <==> ref[0] == ':')
            && (ref[0] != '/' && ref[0] != ':' ==> s[0] == ref[0] && s[1..] == SafeRef(ref[1..]))
            && (ref[0] == '/' ==> s[1..] == SafeRef(ref[1..]))
            && (ref[0] == ':' ==> s[2..] == SafeRef(ref[1..]))
  {
    if ref[0] == '-' {
      assert SafeRef(ref[1..])[0] != '-';
    }
  }

  // Different distinctive references are different once sanitized.
  lemma {:induction false} SafeRefInjective(a: string, b: string)
    requires Distinctive(a) && Distinctive(b) && SafeRef(a) == SafeRef(b)
    ensures a == b
  {
    if a != "" {
      FirstOfSafe(a);
    }
    if b != "" {
      FirstOfSafe(b);
    }
    if a != "" && b != "" {
      assert a[0] == b[0];
      DistinctiveRest(a);
      DistinctiveRest(b);
      SafeRefInjective(a[1..], b[1..]);
      assert a == [a[0]] + a[1..] && b == [b[0]] + b[1..];
    }
  }

  predicate DoubleDash(s: string) {
    exists i :: 0 <= i < |s| && "--" <= s[i..]
  }

  // The reference has nothing that sanitizing writes or rewrites.
  predicate Unaltered(ref: string) {
    '/' !in ref && ':' !in ref && '_' !in ref && !DoubleDash(ref)
  }

  lemma {:induction false} SafeRefConcat(a: string, b: string)
    ensures SafeRef(a + b) == SafeRef(a) + SafeRef(b)
  {
    if a == "" {
      assert a + b == b;
    } else {
      assert (a + b)[1..] == a[1..] + b;
      SafeRefConcat(a[1..], b);
    }
  }

  lemma DoubleDashCons(first: string, rest: string)
    requires DoubleDash(rest)
    ensures DoubleDash(first + rest)
  {
    var i :| 0 <= i < |rest| && "--" <= rest[i..];
    assert (first + rest)[|first| + i..] == rest[i..];
  }

  lemma {:induction false} SafeRefShows(ref: string)
    ensures '/' in ref ==> '_' in SafeRef(ref)
    ensures ':' in ref ==> DoubleDash(SafeRef(ref))
    ensures '/' !in ref && ':' !in ref ==> SafeRef(ref) == ref
  {
    if ref != "" {
      SafeRefShows(ref[1..]);
      assert ref == [ref[0]] + ref[1..];
      var rest := SafeRef(ref[1..]);
      if ref[0] == ':' {
        assert "--" <= ("--" + rest)[0..];
      } else if ':' in ref {
        DoubleDashCons(if ref[0] == '/' then "_" else [ref[0]], rest);
      }
    }
  }

  // Writing one part of a reference another way does not show once sanitized.
  lemma Rewritten(before: string, part: string, other: string, after: string)
    requires SafeRef(part) == SafeRef(other)
    ensures SafeRef(before + part + after) == SafeRef(before + other + after)
  {
    SafeRefConcat(before + part, after);
    SafeRefConcat(before, part);
    SafeRefConcat(before + other, after);
    SafeRefConcat(before, other);
  }

  lemma OneChar(c: char)
    ensures SafeRef([c]) == if c == '/' then "_" else if c == ':' then "--" else [c]
  {
    assert [c][1..] == "";
  }

  lemma TwoDashes()
    ensures SafeRef("--") == "--"
  {
    assert "--"[1..] == "-";
    OneChar('-');
  }

  // Another reference with the same sanitized form, when there is one.
  lemma Sharer(ref: string) returns (other: string)
    requires !Unaltered(ref)
    ensures SafeRef(other) == SafeRef(ref) && other != ref
  {
    OneChar('/');
    OneChar('_');
    OneChar(':');
    TwoDashes();
    if i :| 0 <= i < |ref| && ref[i] in "/_:" {
      var part := if ref[i] == '/' then "_" else if ref[i] == '_' then "/" else "--";
      other := ref[..i] + part + ref[i + 1..];
      assert ref == ref[..i] + [ref[i]] + ref[i + 1..];
      Rewritten(ref[..i], [ref[i]], part, ref[i + 1..]);
      assert |part| == 1 ==> other[i] != ref[i];
    } else {
      var i :| 0 <= i < |ref| && "--" <= ref[i..];
      other := ref[..i] + ":" + ref[i + 2..];
      assert ref == ref[..i] + "--" + ref[i + 2..];
      Rewritten(ref[..i], "--", ":", ref[i + 2..]);
    }
  }

  // No other reference has the same prefix exactly when the reference has
  // nothing that sanitizing writes or rewrites.
  lemma AloneIff(ref: string)
    ensures (forall other :: SafeRef(other) == SafeRef(ref) ==> other == ref) <==> Unaltered(ref)
  {
    if Unaltered(ref) {
      SafeRefShows(ref);
      forall other | SafeRef(other) == SafeRef(ref) ensures other == ref {
        SafeRefShows(other);
      }
    } else {
      var other := Sharer(ref);
    }
  }

  // Two references can share a prefix, so a prefix does not determine the
  // reference.
  lemma RefsCanShareAPrefix(digest: string)
    ensures Prefix("a/b", digest) == Prefix("a_b", digest)
  {
    assert "a/b"[1..] == "/b" && "/b"[1..] == "b" && "b"[1..] == "";
    assert "a_b"[1..] == "_b" && "_b"[1..] == "b";
    assert SafeRef("b") == "b";
    assert SafeRef("/b") == "_b" && SafeRef("_b") == "_b";
  }

  // ---------- Keys ----------

  predicate IsBlob(rel: Rel) {
    "blobs/" <= rel.path
  }

  // SharedBlobsPrefix + strings.TrimPrefix(rel, "blobs/")
  function BlobKey(rel: Rel): Key {
    Key("blobs/" + if IsBlob(rel) then rel.path[6..] else rel.path)
  }

  function ImageKey(ref: string, digest: string, rel: Rel): Key {
    Key(Prefix(ref, digest) + rel.path)
  }

  lemma BlobKeyIs(rel: Rel)
    requires IsBlob(rel)
    ensures BlobKey(rel) == Key(rel.path)
  {
    assert rel.path == "blobs/" + rel.path[6..];
  }

  // Shared blobs, per-image files and an index key outside both trees never
  // collide.
  predicate OutsideTrees(key: Key) {
    !("oci/" <= key.name) && !("blobs/" <= key.name)
  }

  lemma KeysApart(ref: string, digest: string, rel: Rel, blob: Rel, index: Key)
    requires PlainRef(ref) && Sha256(digest) && IsBlob(blob) && OutsideTrees(index)
    ensures ImageKey(ref, digest, rel) != BlobKey(blob)
    ensures ImageKey(ref, digest, rel) != index && BlobKey(blob) != index
  {
    PrefixIs(ref, digest);
    BlobKeyIs(blob);
    assert ImageKey(ref, digest, rel).name[0] == 'o' && BlobKey(blob).name[0] == 'b';
    assert "oci/" <= ImageKey(ref, digest, rel).name;
  }
}
