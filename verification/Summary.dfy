/** pkg/gateway: the per-listener projection of the routes (summary.go) and the
    hostnames taken from it (hostnames.go). */
module Summary {
  import opened Ordering
  import opened Sequences

  datatype Host = Host(text: string)

  const ANY := Host("*")

  // A parsed parentRef; an empty namespace already means the route's.
  datatype Ref = Ref(kind: string, namespace: string, name: string, section: string, port: int)

  datatype Kind = HTTP | GRPC

  // `rules` is the number of parsed rules: 0 without rules or when they do not
  // parse. `refs` is empty when they do not parse.
  datatype Route = Route(kind: Kind, namespace: string, name: string, refs: seq<Ref>, hostnames: seq<Host>, rules: nat)

  datatype Listener = Listener(name: string, port: int)

  datatype Gateway = Gateway(namespace: string, name: string, listeners: seq<Listener>)

  datatype Cluster = Cluster(gateways: seq<Gateway>, http: seq<Route>, grpc: seq<Route>)

  // One rule of one route.
  datatype Line = Line(kind: Kind, namespace: string, name: string, index: nat)

  datatype SummaryHost = SummaryHost(hostname: Host, routes: seq<Line>)

  datatype SummaryListener = SummaryListener(gateway: Gateway, listener: Listener, hosts: seq<SummaryHost>)

  // ---------- Attachment and rules ----------

  predicate RefMatches(r: Ref, gw: Gateway, l: Listener) {
    && (r.kind == "" || r.kind == "Gateway")
    && r.namespace == gw.namespace && r.name == gw.name
    && (r.section == "" || r.section == l.name)
    && (r.port == 0 || r.port == l.port)
  }

  predicate AttachesTo(r: Route, gw: Gateway, l: Listener) {
    exists i :: 0 <= i < |r.refs| && RefMatches(r.refs[i], gw, l)
  }

  // The loop of routeAttachesTo
  method RouteAttachesTo(r: Route, gw: Gateway, l: Listener) returns (yes: bool)
    ensures yes <==> AttachesTo(r, gw, l)
  {
    for i := 0 to |r.refs|
      invariant forall j :: 0 <= j < i ==> !RefMatches(r.refs[j], gw, l)
    {
      var ref := r.refs[i];
      if ref.kind != "" && ref.kind != "Gateway" {
        continue;
      }
      if ref.namespace != gw.namespace || ref.name != gw.name {
        continue;
      }
      if ref.section != "" && ref.section != l.name {
        continue;
      }
      if ref.port != 0 && ref.port != l.port {
        continue;
      }
      return true;
    }
    return false;
  }

  // A route with one plain reference to a gateway attaches to every listener of
  // that gateway, and to no other gateway's.
  lemma PlainRefAttaches(r: Route, namespace: string, name: string, gw: Gateway, l: Listener)
    requires r.refs == [Ref("", namespace, name, "", 0)]
    ensures AttachesTo(r, gw, l) <==> gw.namespace == namespace && gw.name == name
  {
    assert r.refs[0] == Ref("", namespace, name, "", 0);
  }

  // A section or a port only narrows what a reference attaches to, to the
  // listeners of that name or port; and only gateways are attached to.
  lemma NarrowingIs(r: Ref, gw: Gateway, l: Listener)
    ensures RefMatches(r, gw, l) ==> r.kind == "" || r.kind == "Gateway"
    ensures RefMatches(r.(kind := "Gateway"), gw, l) <==> RefMatches(r.(kind := ""), gw, l)
    ensures r.section != "" ==>
              (RefMatches(r, gw, l) <==> RefMatches(r.(section := ""), gw, l) && l.name == r.section)
    ensures r.port != 0 ==> (RefMatches(r, gw, l) <==> RefMatches(r.(port := 0), gw, l) && l.port == r.port)
  {
  }

  // Any one of a route's references will do.
  lemma AnyRefAttaches(r: Route, more: Ref, gw: Gateway, l: Listener)
    ensures AttachesTo(r.(refs := r.refs + [more]), gw, l) <==>
              AttachesTo(r, gw, l) || AttachesTo(r.(refs := [more]), gw, l)
  {
    var all := r.(refs := r.refs + [more]);
    assert all.refs[|r.refs|] == more && [more][0] == more;
    forall i | 0 <= i < |r.refs| ensures all.refs[i] == r.refs[i] {
    }
  }

  function Lines(r: Route): (lines: seq<Line>)
    ensures |lines| == r.rules
  {
    seq(r.rules, i requires 0 <= i < r.rules => Line(r.kind, r.namespace, r.name, i))
  }

  // ---------- What belongs in a bucket ----------

  function Times(n: nat, lines: seq<Line>): seq<Line> {
    if n == 0 then [] else Times(n - 1, lines) + lines
  }

  function Count(hosts: seq<Host>, h: Host): nat {
    if hosts == [] then 0
    else Count(hosts[..|hosts| - 1], h) + if hosts[|hosts| - 1] == h then 1 else 0
  }

  // How often a route is listed under a host: as often as it declares it, and
  // once under "*" when it declares none.
  function Share(r: Route, h: Host): nat {
    if r.hostnames == [] then (if h == ANY then 1 else 0) else Count(r.hostnames, h)
  }

  function Bucket(routes: seq<Route>, gw: Gateway, l: Listener, h: Host): seq<Line> {
    if routes == [] then []
    else
      var last := routes[|routes| - 1];
      Bucket(routes[..|routes| - 1], gw, l, h)
        + if AttachesTo(last, gw, l) then Times(Share(last, h), Lines(last)) else []
  }

  // The buckets of some routes and then of more are one after the other.
  lemma {:induction false} BucketConcat(a: seq<Route>, b: seq<Route>, gw: Gateway, l: Listener, h: Host)
    ensures Bucket(a + b, gw, l, h) == Bucket(a, gw, l, h) + Bucket(b, gw, l, h)
    decreases |b|
  {
    if b == [] {
      assert a + b == a;
    } else {
      var front, last := b[..|b| - 1], b[|b| - 1];
      assert (a + b)[..|a + b| - 1] == a + front;
      BucketConcat(a, front, gw, l, h);
      Associative(Bucket(a, gw, l, h), Bucket(front, gw, l, h),
                  if AttachesTo(last, gw, l) then Times(Share(last, h), Lines(last)) else []);
    }
  }

  // One route without repeated hostnames is in a bucket exactly when it attaches
  // and declares that host, or declares none and the bucket is the catch-all, and
  // then with each of its rules once, in order.
  lemma BucketOfOne(r: Route, gw: Gateway, l: Listener, h: Host)
    requires Distinct(r.hostnames)
    ensures var lines := Bucket([r], gw, l, h);
            if AttachesTo(r, gw, l) && (h in r.hostnames || (r.hostnames == [] && h == ANY)) then
              |lines| == r.rules && forall i :: 0 <= i < r.rules ==> lines[i] == Line(r.kind, r.namespace, r.name, i)
            else lines == []
  {
    var none: seq<Route> := [];
    assert [r][..0] == none && Bucket(none, gw, l, h) == [];
    CountDistinct(r.hostnames, h);
    assert Times(0, Lines(r)) == [] && Times(1, Lines(r)) == [] + Lines(r) == Lines(r);
  }

  lemma {:induction false} CountDistinct(hosts: seq<Host>, h: Host)
    requires Distinct(hosts)
    ensures Count(hosts, h) == if h in hosts then 1 else 0
  {
    if hosts != [] {
      var front, last := hosts[..|hosts| - 1], hosts[|hosts| - 1];
      CountDistinct(front, h);
      assert hosts == front + [last];
    }
  }

  // A host some attached route with a rule is listed under.
  predicate Listed(routes: seq<Route>, gw: Gateway, l: Listener, h: Host) {
    exists i :: 0 <= i < |routes| && ListedBy(routes[i], gw, l, h)
  }

  predicate ListedBy(r: Route, gw: Gateway, l: Listener, h: Host) {
    AttachesTo(r, gw, l) && r.rules > 0 && Share(r, h) > 0
  }

  // ---------- Filling the buckets ----------

  type Buckets = map<Host, seq<Line>>

  function At(b: Buckets, h: Host): seq<Line> {
    if h in b then b[h] else []
  }

  // A route without hostnames goes to "*" once.
  lemma Unnamed(buckets: Buckets, r: Route, lines: seq<Line>, h: Host)
    requires r.hostnames == []
    ensures At(buckets[ANY := At(buckets, ANY) + lines], h) == At(buckets, h) + Times(Share(r, h), lines)
  {
    assert Times(0, lines) == [] && Times(1, lines) == [] + lines == lines;
    assert At(buckets, h) + [] == At(buckets, h);
  }

  // collectHosts' addRoute
  method AddRoute(buckets: Buckets, r: Route) returns (b: Buckets)
    ensures r.rules == 0 ==> b == buckets
    ensures r.rules > 0 ==> forall h :: h in b <==> h in buckets || Share(r, h) > 0
    ensures forall h :: At(b, h) == At(buckets, h) + Times(Share(r, h), Lines(r))
  {
    b := buckets;
    var lines := Lines(r);
    if |lines| == 0 {
      forall h ensures At(buckets, h) + Times(Share(r, h), lines) == At(buckets, h) {
        TimesNothing(Share(r, h), lines);
      }
      return;
    }
    if r.hostnames == [] {
      b := buckets[ANY := At(buckets, ANY) + lines];
      forall h ensures At(b, h) == At(buckets, h) + Times(Share(r, h), lines) {
        Unnamed(buckets, r, lines, h);
      }
      return;
    }
    ghost var done: seq<Host> := [];
    assert forall h :: At(buckets, h) + [] == At(buckets, h);
    for i := 0 to |r.hostnames|
      invariant done == r.hostnames[..i]
      invariant forall h :: h in b <==> h in buckets || Count(done, h) > 0
      invariant forall h :: At(b, h) == At(buckets, h) + Times(Count(done, h), lines)
    {
      var name := r.hostnames[i];
      ghost var before := b;
      b := b[name := At(b, name) + lines];
      OneMore(buckets, before, b, done, name, lines);
      assert r.hostnames[..i + 1] == done + [name];
      done := done + [name];
    }
    assert done == r.hostnames;
  }

  lemma {:induction false} TimesNothing(n: nat, lines: seq<Line>)
    requires lines == []
    ensures Times(n, lines) == []
  {
    if n > 0 {
      TimesNothing(n - 1, lines);
    }
  }

  lemma CountAppend(hosts: seq<Host>, name: Host, h: Host)
    ensures Count(hosts + [name], h) == Count(hosts, h) + if name == h then 1 else 0
  {
    assert (hosts + [name])[..|hosts|] == hosts;
  }

  lemma OneMore(buckets: Buckets, before: Buckets, b: Buckets, done: seq<Host>, name: Host, lines: seq<Line>)
    requires b == before[name := At(before, name) + lines]
    requires forall h :: h in before <==> h in buckets || Count(done, h) > 0
    requires forall h :: At(before, h) == At(buckets, h) + Times(Count(done, h), lines)
    ensures forall h :: h in b <==> h in buckets || Count(done + [name], h) > 0
    ensures forall h :: At(b, h) == At(buckets, h) + Times(Count(done + [name], h), lines)
  {
    forall h
      ensures h in b <==> h in buckets || Count(done + [name], h) > 0
      ensures At(b, h) == At(buckets, h) + Times(Count(done + [name], h), lines)
    {
      CountAppend(done, name, h);
      TimesMore(At(buckets, h), Count(done, h), lines);
    }
  }

  lemma TimesMore(front: seq<Line>, n: nat, lines: seq<Line>)
    ensures (front + Times(n, lines)) + lines == front + Times(n + 1, lines)
  {
    assert (front + Times(n, lines)) + lines == front + (Times(n, lines) + lines);
  }

  ghost predicate Filled(b: Buckets, routes: seq<Route>, gw: Gateway, l: Listener) {
    && (forall h :: h in b <==> Listed(routes, gw, l, h))
    && (forall h :: At(b, h) == Bucket(routes, gw, l, h))
  }

  method AddAttached(buckets: Buckets, before: seq<Route>, routes: seq<Route>, gw: Gateway, l: Listener)
    returns (b: Buckets)
    requires Filled(buckets, before, gw, l)
    ensures Filled(b, before + routes, gw, l)
  {
    b := buckets;
    ghost var done := before;
    assert before + routes[..0] == before;
    for i := 0 to |routes|
      invariant done == before + routes[..i]
      invariant Filled(b, done, gw, l)
    {
      var attached := RouteAttachesTo(routes[i], gw, l);
      ghost var was := b;
      if attached {
        b := AddRoute(b, routes[i]);
      }
      FilledMore(was, b, done, routes[i], gw, l);
      assert before + routes[..i + 1] == done + [routes[i]];
      done := done + [routes[i]];
    }
    assert routes[..|routes|] == routes;
  }

  lemma FilledMore(was: Buckets, b: Buckets, done: seq<Route>, r: Route, gw: Gateway, l: Listener)
    requires Filled(was, done, gw, l)
    requires !AttachesTo(r, gw, l) || r.rules == 0 ==> b == was
    requires AttachesTo(r, gw, l) ==>
               && (r.rules > 0 ==> forall h :: h in b <==> h in was || Share(r, h) > 0)
               && forall h :: At(b, h) == At(was, h) + Times(Share(r, h), Lines(r))
    ensures Filled(b, done + [r], gw, l)
  {
    var all := done + [r];
    assert all[..|all| - 1] == done;
    forall h ensures Listed(all, gw, l, h) <==> Listed(done, gw, l, h) || ListedBy(r, gw, l, h) {
      assert all[|done|] == r;
      forall i | 0 <= i < |done| ensures all[i] == done[i] {
      }
    }
    forall h ensures At(b, h) == Bucket(all, gw, l, h) {
      assert At(was, h) + [] == At(was, h);
    }
  }

  // ---------- Sorting ----------

  // collectHosts' order: "*" last, everything else by name.
  predicate Before(a: Host, b: Host) {
    if a == ANY then false
    else if b == ANY then true
    else Less(a.text, b.text)
  }

  lemma BeforeTotal(a: Host, b: Host)
    ensures Before(a, b) || a == b || Before(b, a)
    ensures !(Before(a, b) && Before(b, a))
  {
    LessTotal(a.text, b.text);
  }

  lemma BeforeTransitive(a: Host, b: Host, c: Host)
    requires Before(a, b) && Before(b, c)
    ensures Before(a, c)
  {
    if c != ANY {
      LessTransitive(a.text, b.text, c.text);
    }
  }

  ghost predicate Sorted(hosts: seq<Host>) {
    forall i, j :: 0 <= i < j < |hosts| ==> Before(hosts[i], hosts[j])
  }

  function Insert(h: Host, hosts: seq<Host>): seq<Host> {
    if hosts == [] || Before(h, hosts[0]) then [h] + hosts else [hosts[0]] + Insert(h, hosts[1..])
  }

  // sort.Slice and sort.Strings on distinct names
  function Sort(hosts: seq<Host>): seq<Host> {
    if hosts == [] then [] else Insert(hosts[0], Sort(hosts[1..]))
  }

  lemma {:induction false} InsertSorts(h: Host, hosts: seq<Host>)
    requires Sorted(hosts) && h !in hosts
    ensures Sorted(Insert(h, hosts))
    ensures forall x :: x in Insert(h, hosts) <==> x == h || x in hosts
  {
    if hosts == [] {
    } else if Before(h, hosts[0]) {
      forall i | 0 < i < |hosts| ensures Before(h, hosts[i]) {
        BeforeTransitive(h, hosts[0], hosts[i]);
      }
    } else {
      var tail := Insert(h, hosts[1..]);
      InsertSorts(h, hosts[1..]);
      BeforeTotal(h, hosts[0]);
      forall j | 0 <= j < |tail| ensures Before(hosts[0], tail[j]) {
        assert tail[j] in tail;
        if tail[j] != h {
          var k :| 0 <= k < |hosts[1..]| && hosts[1..][k] == tail[j];
          assert hosts[k + 1] == tail[j];
        }
      }
      assert hosts == [hosts[0]] + hosts[1..];
    }
  }

  lemma {:induction false} SortSorts(hosts: seq<Host>)
    requires Distinct(hosts)
    ensures Sorted(Sort(hosts))
    ensures forall x :: x in Sort(hosts) <==> x in hosts
  {
    if hosts != [] {
      SortSorts(hosts[1..]);
      assert hosts[0] !in hosts[1..];
      InsertSorts(hosts[0], Sort(hosts[1..]));
      assert hosts == [hosts[0]] + hosts[1..];
    }
  }

  // ---------- collectHosts and BuildSummary ----------

  // The buckets of one listener: the listed hosts in order, "*" last, each with
  // its lines.
  ghost predicate IsSummary(hosts: seq<SummaryHost>, routes: seq<Route>, gw: Gateway, l: Listener) {
    && (forall i, j :: 0 <= i < j < |hosts| ==> Before(hosts[i].hostname, hosts[j].hostname))
    && (forall h :: Listed(routes, gw, l, h) <==> exists i :: 0 <= i < |hosts| && hosts[i].hostname == h)
    && (forall i :: 0 <= i < |hosts| ==> hosts[i].routes == Bucket(routes, gw, l, hosts[i].hostname))
  }

  // The keys of the map in the order of iteration, whatever it is.
  method KeysOf(buckets: Buckets) returns (keys: seq<Host>)
    ensures Distinct(keys) && forall h :: h in keys <==> h in buckets
  {
    keys := [];
    var left := buckets.Keys;
    while left != {}
      invariant left <= buckets.Keys
      invariant forall h :: h in keys <==> h in buckets.Keys - left
      invariant Distinct(keys)
    {
      var k :| k in left;
      assert k !in keys;
      keys := keys + [k];
      left := left - {k};
    }
  }

  method FillBuckets(c: Cluster, gw: Gateway, l: Listener) returns (buckets: Buckets)
    ensures Filled(buckets, c.http + c.grpc, gw, l)
  {
    buckets := map[];
    assert Filled(buckets, [], gw, l);
    buckets := AddAttached(buckets, [], c.http, gw, l);
    assert [] + c.http == c.http;
    buckets := AddAttached(buckets, c.http, c.grpc, gw, l);
  }

  method CollectHosts(c: Cluster, gw: Gateway, l: Listener) returns (hosts: seq<SummaryHost>)
    ensures IsSummary(hosts, c.http + c.grpc, gw, l)
  {
    var buckets := FillBuckets(c, gw, l);
    var keys := KeysOf(buckets);
    SortSorts(keys);
    hosts := InOrder(buckets, Sort(keys));
    SummaryDone(hosts, Sort(keys), buckets, c.http + c.grpc, gw, l);
  }

  // The loop over the sorted keys.
  method InOrder(buckets: Buckets, sorted: seq<Host>) returns (hosts: seq<SummaryHost>)
    requires forall h :: h in sorted ==> h in buckets
    ensures |hosts| == |sorted|
    ensures forall j :: 0 <= j < |hosts| ==> hosts[j] == SummaryHost(sorted[j], At(buckets, sorted[j]))
  {
    hosts := [];
    for i := 0 to |sorted|
      invariant |hosts| == i
      invariant forall j :: 0 <= j < i ==> hosts[j] == SummaryHost(sorted[j], At(buckets, sorted[j]))
    {
      assert sorted[i] in sorted;
      hosts := hosts + [SummaryHost(sorted[i], buckets[sorted[i]])];
    }
  }

  lemma SummaryDone(hosts: seq<SummaryHost>, sorted: seq<Host>, buckets: Buckets,
                    routes: seq<Route>, gw: Gateway, l: Listener)
    requires Filled(buckets, routes, gw, l) && Sorted(sorted) && forall h :: h in sorted <==> h in buckets
    requires |hosts| == |sorted|
    requires forall j :: 0 <= j < |hosts| ==> hosts[j] == SummaryHost(sorted[j], At(buckets, sorted[j]))
    ensures IsSummary(hosts, routes, gw, l)
  {
    forall h ensures Listed(routes, gw, l, h) <==> exists i :: 0 <= i < |hosts| && hosts[i].hostname == h {
      if h in sorted {
        var i :| 0 <= i < |sorted| && sorted[i] == h;
        assert hosts[i].hostname == h;
      }
    }
  }

  method BuildSummary(c: Cluster) returns (listeners: seq<SummaryListener>)
    ensures Projects(listeners, c)
  {
    listeners := [];
    for g := 0 to |c.gateways|
      invariant Sections(listeners) == Pairs(c.gateways[..g])
      invariant AllSummaries(listeners, c)
    {
      var gw := c.gateways[g];
      assert c.gateways[..g + 1][..g] == c.gateways[..g];
      ghost var front := Pairs(c.gateways[..g]);
      assert front + Pair(gw, []) == front;
      for k := 0 to |gw.listeners|
        invariant Sections(listeners) == front + Pair(gw, gw.listeners[..k])
        invariant AllSummaries(listeners, c)
      {
        var l := gw.listeners[k];
        var hosts := CollectHosts(c, gw, l);
        SectionsAppend(listeners, SummaryListener(gw, l, hosts), front, gw, gw.listeners[..k]);
        assert gw.listeners[..k + 1] == gw.listeners[..k] + [l];
        listeners := listeners + [SummaryListener(gw, l, hosts)];
      }
      assert gw.listeners[..|gw.listeners|] == gw.listeners;
    }
    assert c.gateways[..|c.gateways|] == c.gateways;
  }

  datatype Section = Section(gateway: Gateway, listener: Listener)

  function Pair(gw: Gateway, listeners: seq<Listener>): seq<Section> {
    seq(|listeners|, i requires 0 <= i < |listeners| => Section(gw, listeners[i]))
  }

  function Pairs(gateways: seq<Gateway>): seq<Section> {
    if gateways == [] then []
    else Pairs(gateways[..|gateways| - 1]) + Pair(gateways[|gateways| - 1], gateways[|gateways| - 1].listeners)
  }

  function Sections(listeners: seq<SummaryListener>): seq<Section> {
    seq(|listeners|, i requires 0 <= i < |listeners| => Section(listeners[i].gateway, listeners[i].listener))
  }

  ghost predicate AllSummaries(listeners: seq<SummaryListener>, c: Cluster) {
    forall i :: 0 <= i < |listeners| ==>
      IsSummary(listeners[i].hosts, c.http + c.grpc, listeners[i].gateway, listeners[i].listener)
  }

  // One section for every listener of every gateway, in order, each a summary.
  ghost predicate Projects(listeners: seq<SummaryListener>, c: Cluster) {
    Sections(listeners) == Pairs(c.gateways) && AllSummaries(listeners, c)
  }

  lemma SectionsAppend(listeners: seq<SummaryListener>, s: SummaryListener,
                       front: seq<Section>, gw: Gateway, done: seq<Listener>)
    requires Sections(listeners) == front + Pair(gw, done) && s.gateway == gw
    ensures Sections(listeners + [s]) == front + Pair(gw, done + [s.listener])
  {
    assert Sections(listeners + [s]) == Sections(listeners) + [Section(gw, s.listener)];
    assert Pair(gw, done + [s.listener]) == Pair(gw, done) + [Section(gw, s.listener)];
  }

  // ---------- Hostnames ----------

  // A name some listener lists.
  ghost predicate Shown(listeners: seq<SummaryListener>, h: Host) {
    exists i, j :: 0 <= i < |listeners| && 0 <= j < |listeners[i].hosts| && listeners[i].hosts[j].hostname == h
  }

  predicate Kept(h: Host) {
    h.text != "" && h != ANY
  }

  method Hostnames(listeners: seq<SummaryListener>) returns (out: seq<Host>)
    ensures forall i, j :: 0 <= i < j < |out| ==> Less(out[i].text, out[j].text)
    ensures forall h :: h in out <==> h.text != "" && h.text != "*" && Shown(listeners, h)
  {
    var names: seq<Host> := [];
    var seen: set<Host> := {};
    for i := 0 to |listeners|
      invariant Distinct(names) && forall h :: h in seen <==> h in names
      invariant forall h :: h in names <==> Kept(h) && Shown(listeners[..i], h)
    {
      var hosts := listeners[i].hosts;
      ghost var before := names;
      for j := 0 to |hosts|
        invariant Distinct(names) && forall h :: h in seen <==> h in names
        invariant forall h :: h in names <==> h in before || (Kept(h) && Among(hosts[..j], h))
      {
        var h := hosts[j].hostname;
        assert hosts[..j + 1] == hosts[..j] + [hosts[j]];
        if h.text == "" || h == ANY || h in seen {
          continue;
        }
        seen := seen + {h};
        names := names + [h];
      }
      assert hosts[..|hosts|] == hosts;
      ShownMore(listeners, i);
    }
    assert listeners[..|listeners|] == listeners;
    SortSorts(names);
    out := Sort(names);
    forall i, j | 0 <= i < j < |out| ensures Less(out[i].text, out[j].text) {
      assert out[i] in out && out[j] in out && Before(out[i], out[j]);
    }
  }

  ghost predicate Among(hosts: seq<SummaryHost>, h: Host) {
    exists j :: 0 <= j < |hosts| && hosts[j].hostname == h
  }

  lemma ShownMore(listeners: seq<SummaryListener>, n: nat)
    requires n < |listeners|
    ensures forall h :: Shown(listeners[..n + 1], h) <==> Shown(listeners[..n], h) || Among(listeners[n].hosts, h)
  {
    var all := listeners[..n + 1];
    assert all[n] == listeners[n] && all[..n] == listeners[..n];
    assert forall i :: 0 <= i < n ==> all[i] == listeners[..n][i];
  }

  // ---------- What the two together say ----------

  // A route with a parsed rule that some listener takes declares this name.
  ghost predicate Declared(c: Cluster, h: Host) {
    exists s, i :: s in Pairs(c.gateways) && 0 <= i < |c.http + c.grpc|
                   && DeclaredBy((c.http + c.grpc)[i], s, h)
  }

  predicate DeclaredBy(r: Route, s: Section, h: Host) {
    AttachesTo(r, s.gateway, s.listener) && r.rules > 0 && h in r.hostnames
  }

  lemma {:induction false} CountIff(hosts: seq<Host>, h: Host)
    ensures Count(hosts, h) > 0 <==> h in hosts
  {
    if hosts != [] {
      CountIff(hosts[..|hosts| - 1], h);
      assert hosts == hosts[..|hosts| - 1] + [hosts[|hosts| - 1]];
    }
  }

  // Among the buckets of one listener, for a name other than "*".
  lemma AmongIffDeclared(hosts: seq<SummaryHost>, routes: seq<Route>, s: Section, h: Host)
    requires IsSummary(hosts, routes, s.gateway, s.listener) && Kept(h)
    ensures Among(hosts, h) <==> exists k :: 0 <= k < |routes| && DeclaredBy(routes[k], s, h)
  {
    forall k | 0 <= k < |routes|
      ensures ListedBy(routes[k], s.gateway, s.listener, h) <==> DeclaredBy(routes[k], s, h)
    {
      CountIff(routes[k].hostnames, h);
    }
    assert Among(hosts, h) <==> Listed(routes, s.gateway, s.listener, h);
  }

  // Of a summary, the names other than "" and "*" are exactly those a route
  // declares that is attached to a listener and has a parsed rule.
  lemma ShownIffDeclared(listeners: seq<SummaryListener>, c: Cluster, h: Host)
    requires Projects(listeners, c) && Kept(h)
    ensures Shown(listeners, h) <==> Declared(c, h)
  {
    var routes, pairs := c.http + c.grpc, Pairs(c.gateways);
    forall i | 0 <= i < |pairs|
      ensures Among(listeners[i].hosts, h) <==> exists k :: 0 <= k < |routes| && DeclaredBy(routes[k], pairs[i], h)
    {
      assert Sections(listeners)[i] == pairs[i];
      AmongIffDeclared(listeners[i].hosts, routes, pairs[i], h);
    }
    assert |listeners| == |Sections(listeners)| == |pairs|;
    ShownIffSome(listeners, pairs, routes, h);
  }

  lemma ShownIffSome(listeners: seq<SummaryListener>, pairs: seq<Section>, routes: seq<Route>, h: Host)
    requires |listeners| == |pairs|
    requires forall i :: 0 <= i < |pairs| ==>
               (Among(listeners[i].hosts, h) <==> exists k :: 0 <= k < |routes| && DeclaredBy(routes[k], pairs[i], h))
    ensures Shown(listeners, h) <==> exists s, k :: s in pairs && 0 <= k < |routes| && DeclaredBy(routes[k], s, h)
  {
    if Shown(listeners, h) {
      var i, j :| 0 <= i < |listeners| && 0 <= j < |listeners[i].hosts| && listeners[i].hosts[j].hostname == h;
      assert Among(listeners[i].hosts, h) && pairs[i] in pairs;
    }
    if exists s, k :: s in pairs && 0 <= k < |routes| && DeclaredBy(routes[k], s, h) {
      var s, k :| s in pairs && 0 <= k < |routes| && DeclaredBy(routes[k], s, h);
      var i :| 0 <= i < |pairs| && pairs[i] == s;
      assert Among(listeners[i].hosts, h);
    }
  }

  // Hostnames of BuildSummary: strictly sorted, and exactly the declared names.
  method SummaryHostnames(c: Cluster) returns (out: seq<Host>)
    ensures forall i, j :: 0 <= i < j < |out| ==> Less(out[i].text, out[j].text)
    ensures forall h :: h in out <==> h.text != "" && h.text != "*" && Declared(c, h)
  {
    var listeners := BuildSummary(c);
    out := Hostnames(listeners);
    forall h | Kept(h) ensures Shown(listeners, h) <==> Declared(c, h) {
      ShownIffDeclared(listeners, c, h);
    }
  }

  // ---------- No rule is lost or listed twice ----------

  // What an attached route adds to the listing.
  function Weight(r: Route, gw: Gateway, l: Listener): nat {
    if AttachesTo(r, gw, l) then (if r.hostnames == [] then 1 else |r.hostnames|) * r.rules else 0
  }

  function Weights(routes: seq<Route>, gw: Gateway, l: Listener): nat {
    if routes == [] then 0
    else Weights(routes[..|routes| - 1], gw, l) + Weight(routes[|routes| - 1], gw, l)
  }

  function NamesOf(hosts: seq<SummaryHost>): seq<Host> {
    seq(|hosts|, i requires 0 <= i < |hosts| => hosts[i].hostname)
  }

  // The lines of these hosts' buckets, together.
  function BucketLengths(names: seq<Host>, routes: seq<Route>, gw: Gateway, l: Listener): nat {
    if names == [] then 0
    else BucketLengths(names[1..], routes, gw, l) + |Bucket(routes, gw, l, names[0])|
  }

  function Shares(names: seq<Host>, r: Route): nat {
    if names == [] then 0 else Shares(names[1..], r) + Share(r, names[0])
  }

  function Counts(names: seq<Host>, hosts: seq<Host>): nat {
    if names == [] then 0 else Counts(names[1..], hosts) + Count(hosts, names[0])
  }

  // In a list of distinct names that has them all, each occurrence counts once.
  lemma {:induction false} CountsAll(names: seq<Host>, hosts: seq<Host>)
    requires Distinct(names) && forall i :: 0 <= i < |hosts| ==> hosts[i] in names
    ensures Counts(names, hosts) == |hosts|
    decreases |hosts|
  {
    if hosts == [] {
      CountsNone(names);
    } else {
      var front, last := hosts[..|hosts| - 1], hosts[|hosts| - 1];
      CountsAll(names, front);
      CountsOneMore(names, front, last, hosts);
    }
  }

  lemma {:induction false} CountsNone(names: seq<Host>)
    ensures Counts(names, []) == 0
  {
    if names != [] {
      CountsNone(names[1..]);
    }
  }

  lemma {:induction false} CountsOneMore(names: seq<Host>, front: seq<Host>, last: Host, hosts: seq<Host>)
    requires Distinct(names) && hosts == front + [last]
    ensures Counts(names, hosts) == Counts(names, front) + if last in names then 1 else 0
    decreases |names|
  {
    if names != [] {
      CountsOneMore(names[1..], front, last, hosts);
      CountAppend(front, last, names[0]);
      assert names == [names[0]] + names[1..];
    }
  }

  lemma {:induction false} SharesAll(names: seq<Host>, r: Route)
    requires Distinct(names)
    requires forall h :: Share(r, h) > 0 ==> h in names
    ensures Shares(names, r) == if r.hostnames == [] then 1 else |r.hostnames|
  {
    if r.hostnames == [] {
      assert Share(r, ANY) == 1;
      SharesOfAny(names, r);
    } else {
      forall i | 0 <= i < |r.hostnames| ensures r.hostnames[i] in names {
        CountIff(r.hostnames, r.hostnames[i]);
      }
      SharesAreCounts(names, r);
      CountsAll(names, r.hostnames);
    }
  }

  lemma {:induction false} SharesOfAny(names: seq<Host>, r: Route)
    requires Distinct(names) && r.hostnames == []
    ensures Shares(names, r) == if ANY in names then 1 else 0
  {
    if names != [] {
      SharesOfAny(names[1..], r);
      assert names == [names[0]] + names[1..];
    }
  }

  lemma {:induction false} SharesAreCounts(names: seq<Host>, r: Route)
    requires r.hostnames != []
    ensures Shares(names, r) == Counts(names, r.hostnames)
  {
    if names != [] {
      SharesAreCounts(names[1..], r);
    }
  }

  lemma Distribute(a: nat, b: nat, c: nat)
    ensures (a + b) * c == a * c + b * c
  {
  }

  lemma {:induction false} TimesLength(n: nat, lines: seq<Line>)
    ensures |Times(n, lines)| == n * |lines|
  {
    if n > 0 {
      TimesLength(n - 1, lines);
      Distribute(n - 1, 1, |lines|);
    }
  }

  lemma BucketOneMore(front: seq<Route>, r: Route, gw: Gateway, l: Listener, h: Host)
    ensures |Bucket(front + [r], gw, l, h)|
         == |Bucket(front, gw, l, h)| + Added(Share(r, h), r, gw, l)
  {
    assert (front + [r])[..|front|] == front;
    TimesLength(Share(r, h), Lines(r));
  }

  // What a route adds to buckets that list it n times.
  function Added(n: nat, r: Route, gw: Gateway, l: Listener): nat {
    if AttachesTo(r, gw, l) then n * r.rules else 0
  }

  lemma AddedAdds(a: nat, b: nat, r: Route, gw: Gateway, l: Listener)
    ensures Added(a + b, r, gw, l) == Added(a, r, gw, l) + Added(b, r, gw, l)
  {
    Distribute(a, b, r.rules);
  }

  lemma {:induction false} BucketsOneMore(names: seq<Host>, front: seq<Route>, r: Route, all: seq<Route>,
                                          gw: Gateway, l: Listener)
    requires all == front + [r]
    ensures BucketLengths(names, all, gw, l) == BucketLengths(names, front, gw, l) + Added(Shares(names, r), r, gw, l)
    decreases |names|
  {
    if names != [] {
      BucketsOneMore(names[1..], front, r, all, gw, l);
      OneBucketMore(names, front, r, all, gw, l);
    }
  }

  lemma OneBucketMore(names: seq<Host>, front: seq<Route>, r: Route, all: seq<Route>, gw: Gateway, l: Listener)
    requires names != [] && all == front + [r]
    requires BucketLengths(names[1..], all, gw, l)
          == BucketLengths(names[1..], front, gw, l) + Added(Shares(names[1..], r), r, gw, l)
    ensures BucketLengths(names, all, gw, l) == BucketLengths(names, front, gw, l) + Added(Shares(names, r), r, gw, l)
  {
    var others, here := Shares(names[1..], r), Share(r, names[0]);
    BucketOneMore(front, r, gw, l, names[0]);
    AddedAdds(others, here, r, gw, l);
    assert Shares(names, r) == others + here;
  }

  lemma {:induction false} BucketsNone(names: seq<Host>, gw: Gateway, l: Listener)
    ensures BucketLengths(names, [], gw, l) == 0
  {
    if names != [] {
      BucketsNone(names[1..], gw, l);
    }
  }

  lemma {:induction false} BucketsWeigh(names: seq<Host>, routes: seq<Route>, gw: Gateway, l: Listener)
    requires Distinct(names) && forall h :: Listed(routes, gw, l, h) ==> h in names
    ensures BucketLengths(names, routes, gw, l) == Weights(routes, gw, l)
    decreases |routes|
  {
    if routes == [] {
      BucketsNone(names, gw, l);
    } else {
      var front, last := routes[..|routes| - 1], routes[|routes| - 1];
      forall h | Listed(front, gw, l, h) ensures h in names {
        var i :| 0 <= i < |front| && ListedBy(front[i], gw, l, h);
        assert routes[i] == front[i];
      }
      BucketsWeigh(names, front, gw, l);
      assert routes == front + [last];
      BucketsOneMore(names, front, last, routes, gw, l);
      forall h | ListedBy(last, gw, l, h) ensures h in names {
        assert Listed(routes, gw, l, h);
      }
      SharesWeigh(names, last, gw, l);
    }
  }

  lemma SharesWeigh(names: seq<Host>, r: Route, gw: Gateway, l: Listener)
    requires Distinct(names) && forall h :: ListedBy(r, gw, l, h) ==> h in names
    ensures Added(Shares(names, r), r, gw, l) == Weight(r, gw, l)
  {
    if AttachesTo(r, gw, l) && r.rules > 0 {
      forall h | Share(r, h) > 0 ensures h in names {
        assert ListedBy(r, gw, l, h);
      }
      SharesAll(names, r);
    }
  }

  lemma {:induction false} LengthsAreBuckets(hosts: seq<SummaryHost>, routes: seq<Route>, gw: Gateway, l: Listener)
    requires forall i :: 0 <= i < |hosts| ==> hosts[i].routes == Bucket(routes, gw, l, hosts[i].hostname)
    ensures Total(hosts) == BucketLengths(NamesOf(hosts), routes, gw, l)
  {
    if hosts != [] {
      LengthsAreBuckets(hosts[1..], routes, gw, l);
      assert NamesOf(hosts)[1..] == NamesOf(hosts[1..]);
    }
  }

  function Total(hosts: seq<SummaryHost>): nat {
    if hosts == [] then 0 else Total(hosts[1..]) + |hosts[0].routes|
  }

  // Per listener, the buckets hold for each attached route its number of rules
  // times the hostnames it declares, or once when it declares none.
  lemma EveryRuleIsListed(hosts: seq<SummaryHost>, routes: seq<Route>, gw: Gateway, l: Listener)
    requires IsSummary(hosts, routes, gw, l)
    ensures Total(hosts) == Weights(routes, gw, l)
  {
    var names := NamesOf(hosts);
    forall i, j | 0 <= i < j < |names| ensures names[i] != names[j] {
      BeforeTotal(hosts[i].hostname, hosts[j].hostname);
    }
    forall h | Listed(routes, gw, l, h) ensures h in names {
      var i :| 0 <= i < |hosts| && hosts[i].hostname == h;
      assert names[i] == h;
    }
    BucketsWeigh(names, routes, gw, l);
    LengthsAreBuckets(hosts, routes, gw, l);
  }
}
