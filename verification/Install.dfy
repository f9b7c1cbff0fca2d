/** pkg/provision/envoygateway/render.go: RenderInstall over documents read as
    records. Reading and writing YAML is not part of this model. */
module Install {
  import opened Wrappers

  const CONTROLLER := "envoy-gateway"          // DeploymentName
  const NAMESPACE := "envoy-gateway-system"    // Namespace

  // `other` is the rest of resources and of the container.
  datatype Container = Container(name: string, image: string, cpu: string, memory: string, other: int)

  // What a document parses to, as far as it is looked at.
  datatype Header = Header(name: string, namespace: string, hook: string, containers: seq<Container>)

  // `kind` is read from the text; the rest only if the document parses.
  datatype Resource = Resource(kind: string, header: Option<Header>, id: int)

  datatype Error = Unparsable | NoController | NoContainer

  predicate IsHookJob(d: Resource) {
    d.kind == "Job" && d.header.Some? && d.header.value.hook != ""
  }

  predicate IsController(d: Resource) {
    && d.kind == "Deployment" && d.header.Some?
    && d.header.value.name == CONTROLLER && d.header.value.namespace == NAMESPACE
  }

  function FirstImage(containers: seq<Container>): Option<string> {
    if containers == [] then None
    else if containers[0].name == CONTROLLER then Some(containers[0].image)
    else FirstImage(containers[1..])
  }

  // controllerImage
  function ControllerImage(docs: seq<Resource>): Result<string, Error> {
    if docs == [] then Failure(NoController)
    else if docs[0].kind != "Deployment" then ControllerImage(docs[1..])
    else if docs[0].header.None? then Failure(Unparsable)
    else if IsController(docs[0]) && FirstImage(docs[0].header.value.containers).Some? then
      Success(FirstImage(docs[0].header.value.containers).value)
    else ControllerImage(docs[1..])
  }

  function WithRequests(c: Container, cpu: string, mem: string): Container {
    if c.name != CONTROLLER then c
    else c.(cpu := if cpu != "" then cpu else c.cpu, memory := if mem != "" then mem else c.memory)
  }

  function AllWithRequests(containers: seq<Container>, cpu: string, mem: string): seq<Container> {
    seq(|containers|, i requires 0 <= i < |containers| => WithRequests(containers[i], cpu, mem))
  }

  // A container before and after: the requests that were asked for are set in a
  // controller container, and nothing else changes.
  predicate Requested(before: Container, after: Container, cpu: string, mem: string) {
    && after.name == before.name && after.image == before.image && after.other == before.other
    && after.cpu == (if before.name == "envoy-gateway" && cpu != "" then cpu else before.cpu)
    && after.memory == (if before.name == "envoy-gateway" && mem != "" then mem else before.memory)
  }

  // The loop of setControllerRequests over the decoded containers.
  method SetControllerRequests(containers: array<Container>, cpu: string, mem: string) returns (found: bool)
    modifies containers
    ensures containers[..] == AllWithRequests(old(containers[..]), cpu, mem)
    ensures forall j :: 0 <= j < containers.Length ==> Requested(old(containers[j]), containers[j], cpu, mem)
    ensures found <==> exists j :: 0 <= j < containers.Length && old(containers[j]).name == "envoy-gateway"
    ensures found <==> FirstImage(old(containers[..])).Some?
  {
    found := false;
    for i := 0 to containers.Length
      invariant forall j :: 0 <= j < i ==> containers[j] == WithRequests(old(containers[j]), cpu, mem)
      invariant forall j :: i <= j < containers.Length ==> containers[j] == old(containers[j])
      invariant found <==> exists j :: 0 <= j < i && old(containers[j]).name == CONTROLLER
    {
      if containers[i].name == CONTROLLER {
        found := true;
        if cpu != "" {
          containers[i] := containers[i].(cpu := cpu);
        }
        if mem != "" {
          containers[i] := containers[i].(memory := mem);
        }
      }
    }
    FirstImageIff(old(containers[..]));
  }

  lemma {:induction false} FirstImageIff(containers: seq<Container>)
    ensures FirstImage(containers).Some? <==> exists j :: 0 <= j < |containers| && containers[j].name == CONTROLLER
  {
    if containers != [] && containers[0].name != CONTROLLER {
      FirstImageIff(containers[1..]);
      forall j | 0 <= j < |containers| && containers[j].name == CONTROLLER
        ensures FirstImage(containers).Some?
      {
        assert containers[1..][j - 1] == containers[j];
      }
    }
  }

  // setControllerRequests
  function WithControllerRequests(d: Resource, cpu: string, mem: string): Resource
    requires d.header.Some?
  {
    d.(header := Some(d.header.value.(containers := AllWithRequests(d.header.value.containers, cpu, mem))))
  }

  // One document of the loop in RenderInstall: dropped, kept, or shaped.
  function Shape(d: Resource, cpu: string, mem: string, dropHooks: bool): Result<seq<Resource>, Error> {
    if dropHooks && IsHookJob(d) then Success([])
    else if (cpu != "" || mem != "") && d.kind == "Deployment" then
      if d.header.None? then Failure(Unparsable)
      else if !IsController(d) then Success([d])
      else if FirstImage(d.header.value.containers).None? then Failure(NoContainer)
      else Success([WithControllerRequests(d, cpu, mem)])
    else Success([d])
  }

  function ShapeAll(docs: seq<Resource>, cpu: string, mem: string, dropHooks: bool): Result<seq<Resource>, Error> {
    if docs == [] then Success([])
    else
      match Shape(docs[0], cpu, mem, dropHooks)
      case Failure(e) => Failure(e)
      case Success(head) =>
        match ShapeAll(docs[1..], cpu, mem, dropHooks)
        case Failure(e) => Failure(e)
        case Success(tail) => Success(head + tail)
  }

  predicate DropsHooks(docs: seq<Resource>, live: string) {
    live != "" && ControllerImage(docs) == Success(live)
  }

  function RenderInstall(docs: seq<Resource>, cpu: string, mem: string, live: string): Result<seq<Resource>, Error> {
    if ControllerImage(docs).Failure? then Failure(ControllerImage(docs).error)
    else ShapeAll(docs, cpu, mem, DropsHooks(docs, live))
  }

  // ---------- What rendering keeps ----------

  // Everything but the requests of the controller container.
  function Essence(c: Container): Container {
    if c.name == CONTROLLER then c.(cpu := "", memory := "") else c
  }

  function AllEssence(containers: seq<Container>): seq<Container> {
    seq(|containers|, i requires 0 <= i < |containers| => Essence(containers[i]))
  }

  function EssenceOf(d: Resource): Resource {
    if IsController(d) then
      d.(header := Some(d.header.value.(containers := AllEssence(d.header.value.containers))))
    else d
  }

  function Essences(docs: seq<Resource>): seq<Resource> {
    if docs == [] then [] else [EssenceOf(docs[0])] + Essences(docs[1..])
  }

  function WithoutHooks(docs: seq<Resource>, drop: bool): seq<Resource> {
    if docs == [] then []
    else (if drop && IsHookJob(docs[0]) then [] else [docs[0]]) + WithoutHooks(docs[1..], drop)
  }

  lemma ShapeKeeps(d: Resource, cpu: string, mem: string, drop: bool)
    requires Shape(d, cpu, mem, drop).Success? && !(drop && IsHookJob(d))
    ensures var out := Shape(d, cpu, mem, drop).value;
            && |out| == 1 && EssenceOf(out[0]) == EssenceOf(d)
            && Shape(out[0], cpu, mem, drop) == Success(out)
            && out[0].kind == d.kind && out[0].header.Some? == d.header.Some?
            && IsController(out[0]) == IsController(d) && !(drop && IsHookJob(out[0]))
            && (IsController(d) ==> FirstImage(out[0].header.value.containers) == FirstImage(d.header.value.containers))
  {
    if IsController(d) {
      var containers := d.header.value.containers;
      ImageStays(containers, cpu, mem);
      var once := AllWithRequests(containers, cpu, mem);
      assert AllWithRequests(once, cpu, mem) == once;
      assert AllEssence(once) == AllEssence(containers);
    }
  }

  lemma {:induction false} ImageStays(containers: seq<Container>, cpu: string, mem: string)
    ensures FirstImage(AllWithRequests(containers, cpu, mem)) == FirstImage(containers)
  {
    if containers != [] {
      ImageStays(containers[1..], cpu, mem);
      assert AllWithRequests(containers, cpu, mem)[1..] == AllWithRequests(containers[1..], cpu, mem);
    }
  }

  lemma {:induction false} ShapeAllKeeps(docs: seq<Resource>, cpu: string, mem: string, drop: bool)
    requires ShapeAll(docs, cpu, mem, drop).Success?
    ensures var out := ShapeAll(docs, cpu, mem, drop).value;
            && Essences(out) == Essences(WithoutHooks(docs, drop))
            && ShapeAll(out, cpu, mem, drop) == Success(out)
            && ControllerImage(out) == ControllerImage(docs)
  {
    if docs != [] {
      ShapeAllKeeps(docs[1..], cpu, mem, drop);
      var tail := ShapeAll(docs[1..], cpu, mem, drop).value;
      if drop && IsHookJob(docs[0]) {
        assert [] + tail == tail;
        assert WithoutHooks(docs, drop) == WithoutHooks(docs[1..], drop);
      } else {
        ShapeKeeps(docs[0], cpu, mem, drop);
        var out := Shape(docs[0], cpu, mem, drop).value;
        assert (out + tail)[1..] == tail && (out + tail)[0] == out[0] && out == [out[0]];
        assert ([docs[0]] + WithoutHooks(docs[1..], drop))[1..] == WithoutHooks(docs[1..], drop);
      }
    }
  }

  // A rendering keeps the order of the documents and the controller image,
  // changes nothing but the controller's requests, and leaves out the hook Jobs
  // exactly when the manifest's controller image is the live one. Rendering it
  // again changes nothing.
  lemma RenderKeeps(docs: seq<Resource>, cpu: string, mem: string, live: string)
    requires RenderInstall(docs, cpu, mem, live).Success?
    ensures var out := RenderInstall(docs, cpu, mem, live).value;
            && Essences(out) == Essences(WithoutHooks(docs, live != "" && ControllerImage(docs) == Success(live)))
            && ControllerImage(out) == ControllerImage(docs)
            && RenderInstall(out, cpu, mem, live) == Success(out)
  {
    ShapeAllKeeps(docs, cpu, mem, DropsHooks(docs, live));
  }

  // ---------- Which documents, and which image ----------

  // The document is an envoy-gateway Deployment of this controller image.
  ghost predicate Deploys(d: Resource, image: string) {
    && d.kind == "Deployment" && d.header.Some?
    && d.header.value.name == "envoy-gateway" && d.header.value.namespace == "envoy-gateway-system"
    && HasImage(d.header.value.containers, image)
  }

  // The first container called envoy-gateway has this image.
  ghost predicate HasImage(containers: seq<Container>, image: string) {
    exists j :: 0 <= j < |containers| && containers[j].name == "envoy-gateway" && containers[j].image == image
                && forall i :: 0 <= i < j ==> containers[i].name != "envoy-gateway"
  }

  lemma {:induction false} FirstImageIs(containers: seq<Container>, image: string)
    ensures FirstImage(containers) == Some(image) <==> HasImage(containers, image)
  {
    if containers != [] {
      var rest := containers[1..];
      FirstImageIs(rest, image);
      if containers[0].name == CONTROLLER {
        assert containers[0].image == image ==> HasImage(containers, image);
      } else {
        if HasImage(rest, image) {
          var j :| 0 <= j < |rest| && rest[j].name == "envoy-gateway" && rest[j].image == image
                   && forall i :: 0 <= i < j ==> rest[i].name != "envoy-gateway";
          assert containers[j + 1] == rest[j];
          assert forall i :: 0 < i < j + 1 ==> containers[i] == rest[i - 1];
          assert HasImage(containers, image);
        }
        if HasImage(containers, image) {
          var j :| 0 <= j < |containers| && containers[j].name == "envoy-gateway" && containers[j].image == image
                   && forall i :: 0 <= i < j ==> containers[i].name != "envoy-gateway";
          assert rest[j - 1] == containers[j];
          assert forall i :: 0 <= i < j - 1 ==> rest[i] == containers[i + 1];
        }
      }
    }
  }

  // A controller image comes from an envoy-gateway Deployment of the manifest.
  lemma {:induction false} ControllerImageIs(docs: seq<Resource>)
    requires ControllerImage(docs).Success?
    ensures exists i :: 0 <= i < |docs| && Deploys(docs[i], ControllerImage(docs).value)
              && forall j :: 0 <= j < i && docs[j].kind == "Deployment" ==>
                   docs[j].header.Some? && forall image :: !Deploys(docs[j], image)
  {
    var image := ControllerImage(docs).value;
    if IsController(docs[0]) && FirstImage(docs[0].header.value.containers).Some? {
      FirstImageIs(docs[0].header.value.containers, image);
      assert Deploys(docs[0], image);
    } else {
      var rest := docs[1..];
      ControllerImageIs(rest);
      var i :| 0 <= i < |rest| && Deploys(rest[i], image)
               && forall j :: 0 <= j < i && rest[j].kind == "Deployment" ==>
                    rest[j].header.Some? && forall image :: !Deploys(rest[j], image);
      assert docs[i + 1] == rest[i];
      forall other ensures !Deploys(docs[0], other) {
        if docs[0].header.Some? {
          FirstImageIs(docs[0].header.value.containers, other);
        }
      }
      forall j | 0 <= j < i + 1 && docs[j].kind == "Deployment"
        ensures docs[j].header.Some? && forall image :: !Deploys(docs[j], image)
      {
        if j > 0 {
          assert docs[j] == rest[j - 1];
        }
      }
    }
  }

  // There is a controller image exactly when some Deployment of the manifest is the
  // controller's and every Deployment before it can be parsed.
  lemma {:induction false} ControllerImageIff(docs: seq<Resource>)
    ensures ControllerImage(docs).Success? <==>
              exists i :: 0 <= i < |docs| && ParsesUpTo(docs, i) && IsController(docs[i])
                          && FirstImage(docs[i].header.value.containers).Some?
  {
    if docs != [] {
      var rest := docs[1..];
      ControllerImageIff(rest);
      if IsController(docs[0]) && FirstImage(docs[0].header.value.containers).Some? {
        assert ParsesUpTo(docs, 0);
      } else if docs[0].kind != "Deployment" || docs[0].header.Some? {
        if i :| 0 <= i < |rest| && ParsesUpTo(rest, i) && IsController(rest[i])
                && FirstImage(rest[i].header.value.containers).Some? {
          assert docs[i + 1] == rest[i];
          assert forall j :: 0 < j <= i + 1 ==> docs[j] == rest[j - 1];
          assert ParsesUpTo(docs, i + 1);
        }
        if i :| 0 <= i < |docs| && ParsesUpTo(docs, i) && IsController(docs[i])
                && FirstImage(docs[i].header.value.containers).Some? {
          assert rest[i - 1] == docs[i];
          assert forall j :: 0 <= j <= i - 1 ==> rest[j] == docs[j + 1];
          assert ParsesUpTo(rest, i - 1);
        }
      }
    }
  }

  // The Deployments up to i can be parsed.
  ghost predicate ParsesUpTo(docs: seq<Resource>, i: nat) {
    forall j :: 0 <= j <= i && j < |docs| && docs[j].kind == "Deployment" ==> docs[j].header.Some?
  }

  // Rendering fails without a controller image, and, when requests are asked for,
  // on a Deployment that cannot be parsed or is the controller's without its
  // container; on nothing else.
  lemma RenderSucceedsIff(docs: seq<Resource>, cpu: string, mem: string, live: string)
    ensures RenderInstall(docs, cpu, mem, live).Success? <==>
              && ControllerImage(docs).Success?
              && ((cpu == "" && mem == "") || forall d :: d in docs && d.kind == "Deployment" ==> Shapeable(d))
  {
    ShapeSucceedsIff(docs, cpu, mem, DropsHooks(docs, live));
  }

  predicate Shapeable(d: Resource) {
    && d.header.Some?
    && (d.header.value.name == "envoy-gateway" && d.header.value.namespace == "envoy-gateway-system" ==>
         exists j :: 0 <= j < |d.header.value.containers| && d.header.value.containers[j].name == "envoy-gateway")
  }

  lemma {:induction false} ShapeSucceedsIff(docs: seq<Resource>, cpu: string, mem: string, drop: bool)
    ensures ShapeAll(docs, cpu, mem, drop).Success? <==>
              (cpu == "" && mem == "") || forall d :: d in docs && d.kind == "Deployment" ==> Shapeable(d)
  {
    if docs != [] {
      ShapeSucceedsIff(docs[1..], cpu, mem, drop);
      assert docs == [docs[0]] + docs[1..];
      ShapeableIff(docs[0], cpu, mem, drop);
    }
  }

  lemma ShapeableIff(d: Resource, cpu: string, mem: string, drop: bool)
    ensures Shape(d, cpu, mem, drop).Success? <==>
              (cpu == "" && mem == "") || d.kind != "Deployment" || Shapeable(d)
  {
    if d.header.Some? {
      FirstImageIff(d.header.value.containers);
    }
  }

  // The hook Jobs are left out exactly when the manifest's controller image is
  // already live; every other document has its place.
  lemma RenderDrops(docs: seq<Resource>, cpu: string, mem: string, live: string, d: Resource)
    requires RenderInstall(docs, cpu, mem, live).Success? && d.kind != "Deployment"
    ensures var out := RenderInstall(docs, cpu, mem, live).value;
            var hook := d.kind == "Job" && d.header.Some? && d.header.value.hook != "";
            multiset(out)[d] == if hook && live != "" && ControllerImage(docs) == Success(live) then 0
                                else multiset(docs)[d]
  {
    ShapeDrops(docs, cpu, mem, DropsHooks(docs, live), d);
  }

  lemma {:induction false} ShapeDrops(docs: seq<Resource>, cpu: string, mem: string, drop: bool, d: Resource)
    requires ShapeAll(docs, cpu, mem, drop).Success? && d.kind != "Deployment"
    ensures multiset(ShapeAll(docs, cpu, mem, drop).value)[d] == if drop && IsHookJob(d) then 0 else multiset(docs)[d]
  {
    if docs != [] {
      ShapeDrops(docs[1..], cpu, mem, drop, d);
      assert docs == [docs[0]] + docs[1..];
    }
  }

  // The requests that were asked for are in every controller container.
  lemma {:induction false} RenderSets(docs: seq<Resource>, cpu: string, mem: string, drop: bool, i: nat, j: nat)
    requires ShapeAll(docs, cpu, mem, drop).Success?
    requires i < |ShapeAll(docs, cpu, mem, drop).value|
    requires IsController(ShapeAll(docs, cpu, mem, drop).value[i])
    requires j < |ShapeAll(docs, cpu, mem, drop).value[i].header.value.containers|
    requires ShapeAll(docs, cpu, mem, drop).value[i].header.value.containers[j].name == CONTROLLER
    ensures var c := ShapeAll(docs, cpu, mem, drop).value[i].header.value.containers[j];
            (cpu != "" ==> c.cpu == cpu) && (mem != "" ==> c.memory == mem)
    decreases |docs|
  {
    var head := Shape(docs[0], cpu, mem, drop).value;
    if i >= |head| {
      RenderSets(docs[1..], cpu, mem, drop, i - |head|, j);
    }
  }
}
