/** pkg/provision/envoygateway/render.go: RenderInstall on the text of a stream,
    for any way of reading and writing one YAML document. */
module Manifest {
  import opened Wrappers
  import opened Render
  import opened Install

  datatype Yaml = Yaml(read: Doc -> Resource, write: Resource -> Doc)

  function Resources(y: Yaml, docs: seq<Doc>): seq<Resource> {
    if docs == [] then [] else [y.read(docs[0])] + Resources(y, docs[1..])
  }

  // setControllerRequests decodes and encodes; every other document stays as
  // text.
  predicate Rewritten(r: Resource, cpu: string, mem: string) {
    (cpu != "" || mem != "") && IsController(r)
  }

  // A Deployment that is written reads back, as one document that ends its last
  // line.
  ghost predicate WritesBack(y: Yaml, r: Resource) {
    y.read(y.write(r)) == r && Clean(y.write(r)) && Ended(y.write(r).text)
  }

  ghost predicate Lawful(y: Yaml, docs: seq<Doc>, cpu: string, mem: string) {
    forall d :: d in docs && Rewritten(y.read(d), cpu, mem) ==>
      WritesBack(y, WithControllerRequests(y.read(d), cpu, mem))
  }

  // A final newline changes nothing of what these read as. A literal block that
  // ends the document makes it matter.
  ghost predicate NewlineMeansNothing(y: Yaml, docs: seq<Doc>) {
    forall d :: d in docs ==> y.read(WithNewline(d)) == y.read(d)
  }

  function ShapeDoc(y: Yaml, d: Doc, cpu: string, mem: string, drop: bool): Result<seq<Doc>, Error> {
    match Shape(y.read(d), cpu, mem, drop)
    case Failure(e) => Failure(e)
    case Success(out) =>
      Success(if out == [] then [] else if Rewritten(y.read(d), cpu, mem) then [y.write(out[0])] else [d])
  }

  function ShapeDocs(y: Yaml, docs: seq<Doc>, cpu: string, mem: string, drop: bool): Result<seq<Doc>, Error> {
    if docs == [] then Success([])
    else
      match ShapeDoc(y, docs[0], cpu, mem, drop)
      case Failure(e) => Failure(e)
      case Success(head) =>
        match ShapeDocs(y, docs[1..], cpu, mem, drop)
        case Failure(e) => Failure(e)
        case Success(tail) => Success(head + tail)
  }

  function RenderDocs(y: Yaml, docs: seq<Doc>, cpu: string, mem: string, live: string): Result<seq<Doc>, Error> {
    var resources := Resources(y, docs);
    if ControllerImage(resources).Failure? then Failure(ControllerImage(resources).error)
    else ShapeDocs(y, docs, cpu, mem, DropsHooks(resources, live))
  }

  // RenderInstall
  function RenderStream(y: Yaml, stream: string, cpu: string, mem: string, live: string): Result<string, Error> {
    match RenderDocs(y, Split(stream), cpu, mem, live)
    case Failure(e) => Failure(e)
    case Success(docs) => Success(Join(docs))
  }

  // ---------- The documents are the records ----------

  lemma ResourcesConcat(y: Yaml, head: seq<Doc>, tail: seq<Doc>)
    requires |head| <= 1
    ensures Resources(y, head + tail) == Resources(y, head) + Resources(y, tail)
  {
    if head == [] {
      assert head + tail == tail && Resources(y, head) + Resources(y, tail) == Resources(y, tail);
    } else {
      assert (head + tail)[1..] == tail && head[1..] == [];
    }
  }

  lemma ShapeDocReads(y: Yaml, d: Doc, cpu: string, mem: string, drop: bool)
    requires Lawful(y, [d], cpu, mem)
    ensures var docs, out := ShapeDoc(y, d, cpu, mem, drop), Shape(y.read(d), cpu, mem, drop);
            && (docs.Failure? <==> out.Failure?)
            && (out.Failure? ==> docs.error == out.error)
            && (out.Success? ==> |docs.value| <= 1 && Resources(y, docs.value) == out.value)
  {
    assert d in [d];
  }

  lemma {:induction false} ShapeDocsRead(y: Yaml, docs: seq<Doc>, cpu: string, mem: string, drop: bool)
    requires Lawful(y, docs, cpu, mem)
    ensures var shaped, out := ShapeDocs(y, docs, cpu, mem, drop), ShapeAll(Resources(y, docs), cpu, mem, drop);
            && (shaped.Failure? <==> out.Failure?)
            && (out.Failure? ==> shaped.error == out.error)
            && (out.Success? ==> Resources(y, shaped.value) == out.value)
  {
    if docs != [] {
      ShapeDocReads(y, docs[0], cpu, mem, drop);
      ShapeDocsRead(y, docs[1..], cpu, mem, drop);
      assert Resources(y, docs)[1..] == Resources(y, docs[1..]);
      var head, tail := ShapeDoc(y, docs[0], cpu, mem, drop), ShapeDocs(y, docs[1..], cpu, mem, drop);
      if head.Success? && tail.Success? {
        ResourcesConcat(y, head.value, tail.value);
      }
    }
  }

  lemma {:induction false} ShapedAreClean(y: Yaml, docs: seq<Doc>, cpu: string, mem: string, drop: bool)
    requires Lawful(y, docs, cpu, mem) && ShapeDocs(y, docs, cpu, mem, drop).Success?
    requires forall d :: d in docs ==> Clean(d)
    ensures forall d :: d in ShapeDocs(y, docs, cpu, mem, drop).value ==> Clean(d)
  {
    if docs != [] {
      assert docs[0] in docs;
      ShapedAreClean(y, docs[1..], cpu, mem, drop);
    }
  }

  // Documents that end their last lines stay so.
  lemma {:induction false} ShapedAreEnded(y: Yaml, docs: seq<Doc>, cpu: string, mem: string, drop: bool)
    requires Lawful(y, docs, cpu, mem) && ShapeDocs(y, docs, cpu, mem, drop).Success?
    requires forall d :: d in docs ==> Ended(d.text)
    ensures forall d :: d in ShapeDocs(y, docs, cpu, mem, drop).value ==> Ended(d.text)
  {
    if docs != [] {
      assert docs[0] in docs;
      ShapedAreEnded(y, docs[1..], cpu, mem, drop);
    }
  }

  lemma {:induction false} SplitEnded(s: string, cur: string)
    requires Ended(s) && Ended(cur)
    ensures forall d :: d in SplitFrom(s, cur) ==> Ended(d.text)
    decreases |s|
  {
    if s != "" {
      var n := LineLen(s);
      SplitEnded(s[n..], if IsSeparator(s[..n]) then "" else cur + s[..n]);
    }
  }

  lemma {:induction false} NewlinesReadIff(y: Yaml, docs: seq<Doc>)
    ensures Resources(y, Newlines(docs)) == Resources(y, docs) <==> NewlineMeansNothing(y, docs)
  {
    if docs != [] {
      var front, rest := docs[0], docs[1..];
      NewlinesReadIff(y, rest);
      assert Newlines(docs)[1..] == Newlines(rest);
      assert docs == [front] + rest;
      SameHeads(y.read(WithNewline(front)), Resources(y, Newlines(rest)), y.read(front), Resources(y, rest));
    }
  }

  lemma SameHeads(a: Resource, s: seq<Resource>, b: Resource, t: seq<Resource>)
    ensures [a] + s == [b] + t <==> a == b && s == t
  {
    assert ([a] + s)[1..] == s && ([b] + t)[1..] == t;
    assert ([a] + s)[0] == a && ([b] + t)[0] == b;
  }

  // ---------- Rendering again ----------

  // A document that was kept or written stays as it is.
  lemma ShapedAgain(y: Yaml, d: Doc, cpu: string, mem: string, drop: bool)
    requires Lawful(y, [d], cpu, mem) && ShapeDoc(y, d, cpu, mem, drop).Success?
    requires NewlineMeansNothing(y, ShapeDoc(y, d, cpu, mem, drop).value)
    ensures var out := ShapeDoc(y, d, cpu, mem, drop).value;
            out != [] ==>
              |out| == 1 && ShapeDoc(y, WithNewline(out[0]), cpu, mem, drop) == Success([WithNewline(out[0])])
  {
    var r := y.read(d);
    assert d in [d];
    if !(drop && IsHookJob(r)) {
      ShapeKeeps(r, cpu, mem, drop);
    }
  }

  lemma NewlinesConcat(head: seq<Doc>, tail: seq<Doc>)
    requires |head| == 1
    ensures Newlines(head + tail) == [WithNewline(head[0])] + Newlines(tail)
  {
    assert (head + tail)[1..] == tail;
  }

  lemma {:induction false} AllShapedAgain(y: Yaml, docs: seq<Doc>, cpu: string, mem: string, drop: bool)
    requires Lawful(y, docs, cpu, mem) && ShapeDocs(y, docs, cpu, mem, drop).Success?
    requires NewlineMeansNothing(y, ShapeDocs(y, docs, cpu, mem, drop).value)
    ensures var out := Newlines(ShapeDocs(y, docs, cpu, mem, drop).value);
            ShapeDocs(y, out, cpu, mem, drop) == Success(out)
  {
    if docs != [] {
      var head := ShapeDoc(y, docs[0], cpu, mem, drop).value;
      var tail := ShapeDocs(y, docs[1..], cpu, mem, drop).value;
      assert forall d :: d in head || d in tail ==> d in head + tail;
      AllShapedAgain(y, docs[1..], cpu, mem, drop);
      ShapedAgain(y, docs[0], cpu, mem, drop);
      if head == [] {
        assert head + tail == tail;
      } else {
        NewlinesConcat(head, tail);
        var out := [WithNewline(head[0])] + Newlines(tail);
        assert out[1..] == Newlines(tail);
      }
    }
  }

  // Rendering a stream fails as rendering its records does. Otherwise the
  // documents of the rendered stream read as the rendered records if and only if
  // a final newline means nothing in them; and then rendering the rendered stream
  // again gives the same text.
  lemma RenderStreamIs(y: Yaml, stream: string, cpu: string, mem: string, live: string)
    requires Lawful(y, Split(stream), cpu, mem)
    ensures var text := RenderStream(y, stream, cpu, mem, live);
            match RenderInstall(Resources(y, Split(stream)), cpu, mem, live)
            case Failure(e) => text == Failure(e)
            case Success(out) =>
              text.Success? &&
              var kept := RenderDocs(y, Split(stream), cpu, mem, live).value;
              && (Resources(y, Split(text.value)) == out <==> NewlineMeansNothing(y, kept))
              && (NewlineMeansNothing(y, kept) ==> RenderStream(y, text.value, cpu, mem, live) == text)
  {
    var docs := Split(stream);
    var drop := DropsHooks(Resources(y, docs), live);
    ShapeDocsRead(y, docs, cpu, mem, drop);
    if RenderDocs(y, docs, cpu, mem, live).Success? {
      var shaped := ShapeDocs(y, docs, cpu, mem, drop).value;
      SplitIsClean(stream, "");
      ShapedAreClean(y, docs, cpu, mem, drop);
      SplitJoined(shaped);
      NewlinesReadIff(y, shaped);
      if NewlineMeansNothing(y, shaped) {
        JoinNewlines(shaped);
        AllShapedAgain(y, docs, cpu, mem, drop);
        RenderKeeps(Resources(y, docs), cpu, mem, live);
      }
    }
  }

  // In a stream that ends its last line a final newline has nothing to mean.
  lemma EndedStreamIsSafe(y: Yaml, stream: string, cpu: string, mem: string, live: string)
    requires Lawful(y, Split(stream), cpu, mem) && Ended(stream)
    requires RenderDocs(y, Split(stream), cpu, mem, live).Success?
    ensures NewlineMeansNothing(y, RenderDocs(y, Split(stream), cpu, mem, live).value)
  {
    SplitEnded(stream, "");
    ShapedAreEnded(y, Split(stream), cpu, mem, DropsHooks(Resources(y, Split(stream)), live));
  }

  // ---------- A newline that matters ----------

  function Controller(id: int): Resource {
    Resource("Deployment", Some(Header(CONTROLLER, NAMESPACE, "", [Container(CONTROLLER, "i", "", "", 0)])), id)
  }

  lemma OneDoc()
    ensures Split("a") == [Doc("a")]
  {
    assert LineLen("a") == 1 && "a"[..1] == "a" && "a"[1..] == "";
    assert TrimRight("a") == "a" && "" + "a" == "a";
    assert ContentLine("a");
  }

  // A document without a final newline that reads as something else with one: the
  // rendered stream does not read as the rendering.
  lemma NewlineWitness() returns (y: Yaml, stream: string)
    ensures Lawful(y, Split(stream), "", "")
    ensures var out := RenderInstall(Resources(y, Split(stream)), "", "", "");
            var text := RenderStream(y, stream, "", "", "");
            out.Success? && text.Success? && Resources(y, Split(text.value)) != out.value
  {
    y := Yaml(d => if d == Doc("a") then Controller(0) else Controller(1), r => Doc(""));
    stream := "a";
    OneDoc();
    var docs := [Doc("a")];
    assert docs[1..] == [] && Resources(y, docs) == [Controller(0)];
    assert ControllerImage([Controller(0)]) == Success("i");
    assert RenderDocs(y, docs, "", "", "") == Success([Doc("a")] + []);
    assert Doc("a") in docs && WithNewline(Doc("a")) == Doc("a" + "\n") != Doc("a");
    assert Doc("a") in RenderDocs(y, docs, "", "", "").value;
    RenderStreamIs(y, stream, "", "", "");
  }

  lemma WrittenDoc()
    ensures Clean(Doc("b\n")) && Ended("b\n")
  {
    var text := "b\n";
    assert text[1..] == "\n" && LineLen("\n") == 1 && LineLen(text) == 2;
    assert text[..2] == text && text[2..] == "";
    assert ContentLine(text);
    assert text[..1] == "b" && TrimRight("b") == "b" && TrimRight(text) == "b";
  }

  // A codec that writes the requests back, on a stream with a controller.
  lemma RequestsWitness() returns (y: Yaml, stream: string)
    ensures Lawful(y, Split(stream), "1", "") && RenderStream(y, stream, "1", "", "").Success?
    ensures exists d :: d in Split(stream) && Rewritten(y.read(d), "1", "")
  {
    var shaped := WithControllerRequests(Controller(0), "1", "");
    y := Yaml(d => if d == Doc("b\n") then shaped else Controller(0), r => Doc("b\n"));
    stream := "a";
    OneDoc();
    WrittenDoc();
    var docs := [Doc("a")];
    assert docs[0] in docs && docs[1..] == [] && Resources(y, docs) == [Controller(0)];
    assert ControllerImage([Controller(0)]) == Success("i");
    assert ShapeDocs(y, [], "1", "", false) == Success([]);
    assert RenderDocs(y, docs, "1", "", "").Success?;
  }
}
