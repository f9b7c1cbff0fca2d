/** pkg/images/s3.go: which files of an OCI layout are uploaded, and in what
    order. */
module Layout {
  import opened ObjectKeys
  import opened Sequences

  datatype Content = Content(bytes: string)

  // An image layout directory: its files in walk order and what they hold.
  datatype Layout = Layout(files: seq<Rel>, content: map<Rel, Content>)

  const INDEX_JSON := Rel("index.json")
  const OCI_LAYOUT := Rel("oci-layout")

  ghost predicate WellFormed(l: Layout) {
    && (forall r :: r in l.files <==> r in l.content)
    && (forall i, j :: 0 <= i < j < |l.files| ==> l.files[i] != l.files[j])
  }

  function Blobs(files: seq<Rel>): seq<Rel> {
    if files == [] then []
    else Blobs(files[..|files| - 1]) + if IsBlob(files[|files| - 1]) then [files[|files| - 1]] else []
  }

  function Manifests(files: seq<Rel>): seq<Rel> {
    if files == [] then []
    else Manifests(files[..|files| - 1]) + if IsBlob(files[|files| - 1]) then [] else [files[|files| - 1]]
  }

  lemma {:induction false} PartitionIs(files: seq<Rel>)
    ensures forall r :: r in Blobs(files) <==> r in files && "blobs/" <= r.path
    ensures forall r :: r in Manifests(files) <==> r in files && !("blobs/" <= r.path)
  {
    if files != [] {
      PartitionIs(files[..|files| - 1]);
      assert files == files[..|files| - 1] + [files[|files| - 1]];
    }
  }

  lemma {:induction false} PartsAddUp(files: seq<Rel>)
    ensures multiset(Blobs(files)) + multiset(Manifests(files)) == multiset(files)
  {
    if files != [] {
      PartsAddUp(files[..|files| - 1]);
      assert files == files[..|files| - 1] + [files[|files| - 1]];
    }
  }

  // Both parts keep the order of the layout.
  lemma {:induction false} BlobsAreSelected(files: seq<Rel>) returns (at: seq<nat>)
    ensures Selects(Blobs(files), files, (r: Rel) => "blobs/" <= r.path, at)
  {
    if files == [] {
      at := [];
    } else {
      var front, last := files[..|files| - 1], files[|files| - 1];
      at := BlobsAreSelected(front);
      SelectsMore(Blobs(front), front, (r: Rel) => "blobs/" <= r.path, at, last, files);
      at := if IsBlob(last) then at + [|front|] else at;
    }
  }

  lemma {:induction false} ManifestsAreSelected(files: seq<Rel>) returns (at: seq<nat>)
    ensures Selects(Manifests(files), files, (r: Rel) => !("blobs/" <= r.path), at)
  {
    if files == [] {
      at := [];
    } else {
      var front, last := files[..|files| - 1], files[|files| - 1];
      at := ManifestsAreSelected(front);
      SelectsMore(Manifests(front), front, (r: Rel) => !("blobs/" <= r.path), at, last, files);
      at := if IsBlob(last) then at else at + [|front|];
    }
  }

  // partitionLayoutFiles
  method PartitionLayoutFiles(files: seq<Rel>) returns (manifests: seq<Rel>, blobs: seq<Rel>)
    ensures manifests == Manifests(files) && blobs == Blobs(files)
  {
    manifests, blobs := [], [];
    for i := 0 to |files|
      invariant manifests == Manifests(files[..i]) && blobs == Blobs(files[..i])
    {
      assert files[..i + 1][..i] == files[..i];
      if IsBlob(files[i]) {
        blobs := blobs + [files[i]];
      } else {
        manifests := manifests + [files[i]];
      }
    }
    assert files[..|files|] == files;
  }

  function Named(files: seq<Rel>, name: Rel): seq<Rel> {
    if files == [] then []
    else Named(files[..|files| - 1], name) + if files[|files| - 1] == name then [name] else []
  }

  function Rest(files: seq<Rel>): seq<Rel> {
    if files == [] then []
    else
      var f := files[|files| - 1];
      Rest(files[..|files| - 1]) + if f == INDEX_JSON || f == OCI_LAYOUT then [] else [f]
  }

  function UploadOrder(files: seq<Rel>): seq<Rel> {
    Rest(files) + Named(files, OCI_LAYOUT) + Named(files, INDEX_JSON)
  }

  // orderForUpload
  method OrderForUpload(files: seq<Rel>) returns (out: seq<Rel>)
    ensures out == UploadOrder(files)
  {
    var rest: seq<Rel>, ociLayout: seq<Rel>, index: seq<Rel> := [], [], [];
    for i := 0 to |files|
      invariant rest == Rest(files[..i])
      invariant ociLayout == Named(files[..i], OCI_LAYOUT) && index == Named(files[..i], INDEX_JSON)
    {
      assert files[..i + 1][..i] == files[..i];
      if files[i] == OCI_LAYOUT {
        ociLayout := ociLayout + [files[i]];
      } else if files[i] == INDEX_JSON {
        index := index + [files[i]];
      } else {
        rest := rest + [files[i]];
      }
    }
    assert files[..|files|] == files;
    out := rest + ociLayout + index;
  }

  lemma {:induction false} RestIs(files: seq<Rel>)
    ensures forall r :: r in Rest(files) <==> r in files && r != INDEX_JSON && r != OCI_LAYOUT
  {
    if files != [] {
      RestIs(files[..|files| - 1]);
      assert files == files[..|files| - 1] + [files[|files| - 1]];
    }
  }

  lemma {:induction false} NamedIs(files: seq<Rel>, name: Rel)
    ensures forall r :: r in Named(files, name) <==> r == name && r in files
  {
    if files != [] {
      NamedIs(files[..|files| - 1], name);
      assert files == files[..|files| - 1] + [files[|files| - 1]];
    }
  }

  // The plain files go up in their order.
  lemma {:induction false} RestIsSelected(files: seq<Rel>, keep: Rel -> bool) returns (at: seq<nat>)
    requires forall r :: keep(r) <==> r != INDEX_JSON && r != OCI_LAYOUT
    ensures Selects(Rest(files), files, keep, at)
  {
    if files == [] {
      at := [];
    } else {
      var front, last := files[..|files| - 1], files[|files| - 1];
      assert files == front + [last];
      assert keep(last) <==> last != INDEX_JSON && last != OCI_LAYOUT;
      assert Rest(files) == if keep(last) then Rest(front) + [last] else Rest(front);
      at := RestIsSelected(front, keep);
      SelectsMore(Rest(front), front, keep, at, last, files);
      at := if keep(last) then at + [|front|] else at;
    }
  }

  lemma {:induction false} RestCount(files: seq<Rel>, r: Rel)
    ensures multiset(Rest(files))[r] == if r == INDEX_JSON || r == OCI_LAYOUT then 0 else multiset(files)[r]
  {
    if files != [] {
      RestCount(files[..|files| - 1], r);
      assert files == files[..|files| - 1] + [files[|files| - 1]];
    }
  }

  lemma {:induction false} NamedCount(files: seq<Rel>, name: Rel, r: Rel)
    ensures multiset(Named(files, name))[r] == if r == name then multiset(files)[r] else 0
  {
    if files != [] {
      NamedCount(files[..|files| - 1], name, r);
      assert files == files[..|files| - 1] + [files[|files| - 1]];
    }
  }

  lemma UploadAddsUp(files: seq<Rel>)
    ensures multiset(UploadOrder(files)) == multiset(files)
  {
    assert INDEX_JSON.path[0] == 'i' && OCI_LAYOUT.path[0] == 'o';
    forall r ensures multiset(UploadOrder(files))[r] == multiset(files)[r] {
      RestCount(files, r);
      NamedCount(files, OCI_LAYOUT, r);
      NamedCount(files, INDEX_JSON, r);
    }
  }

  // Every file goes up as often as it is listed: the plain ones in their order,
  // then every oci-layout, then every index.json.
  lemma UploadParts(files: seq<Rel>) returns (plain: seq<Rel>, layouts: seq<Rel>, indexes: seq<Rel>, at: seq<nat>)
    ensures UploadOrder(files) == plain + layouts + indexes && multiset(UploadOrder(files)) == multiset(files)
    ensures Selects(plain, files, r => r != Rel("index.json") && r != Rel("oci-layout"), at)
    ensures forall r :: r in layouts ==> r == Rel("oci-layout")
    ensures forall r :: r in indexes ==> r == Rel("index.json")
  {
    plain, layouts, indexes := Rest(files), Named(files, OCI_LAYOUT), Named(files, INDEX_JSON);
    at := RestIsSelected(files, r => r != Rel("index.json") && r != Rel("oci-layout"));
    UploadAddsUp(files);
    NamedIs(files, OCI_LAYOUT);
    NamedIs(files, INDEX_JSON);
  }

  // Every file is uploaded, and once an index.json goes up every other file
  // already has: only copies of index.json follow one.
  lemma IndexJsonLast(files: seq<Rel>)
    ensures forall r :: r in UploadOrder(files) <==> r in files
    ensures forall i :: 0 <= i < |UploadOrder(files)| && UploadOrder(files)[i] == INDEX_JSON ==>
              forall r :: r in files && r != INDEX_JSON ==> r in UploadOrder(files)[..i]
  {
    RestIs(files);
    NamedIs(files, OCI_LAYOUT);
    NamedIs(files, INDEX_JSON);
    var order, before := UploadOrder(files), Rest(files) + Named(files, OCI_LAYOUT);
    assert order == before + Named(files, INDEX_JSON);
    assert INDEX_JSON.path[0] == 'i' && OCI_LAYOUT.path[0] == 'o';
    forall j | 0 <= j < |before| ensures before[j] != INDEX_JSON {
      assert before[j] in before;
      assert before[j] in Rest(files) || before[j] in Named(files, OCI_LAYOUT);
    }
    forall i, r | 0 <= i < |order| && order[i] == INDEX_JSON && r in files && r != INDEX_JSON
      ensures r in order[..i]
    {
      assert forall j :: 0 <= j < |before| ==> order[j] == before[j];
      assert order[..i][..|before|] == before;
      assert r in before;
    }
  }
}
