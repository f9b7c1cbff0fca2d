/** pkg/kubeconfig: the operations on a loaded file (schema.go), and Import and
    CleanupStale (kubeconfig.go) as what they do to it. */
module KubeFile {
  import opened Wrappers
  import opened Sequences
  import opened KubeCodec

  // ---------- Named lists ----------

  // The first entry of that name; |list| when there is none.
  function IndexOf(list: seq<Entry>, name: string): (i: nat)
    ensures i <= |list|
    ensures i < |list| ==> list[i].name == name
    ensures forall k :: 0 <= k < i ==> list[k].name != name
  {
    if list == [] || list[0].name == name then 0 else 1 + IndexOf(list[1..], name)
  }

  function Lookup(list: seq<Entry>, name: string): Option<Record> {
    if list == [] then None
    else if list[0].name == name then Some(list[0].body)
    else Lookup(list[1..], name)
  }

  function Upsert(list: seq<Entry>, e: Entry): seq<Entry> {
    if list == [] then [e]
    else if list[0].name == e.name then [e] + list[1..]
    else [list[0]] + Upsert(list[1..], e)
  }

  function Remove(list: seq<Entry>, name: string): seq<Entry> {
    if list == [] then []
    else if list[0].name == name then list[1..]
    else [list[0]] + Remove(list[1..], name)
  }

  function Merge(list: seq<Entry>, incoming: seq<Entry>): seq<Entry>
    decreases |incoming|
  {
    if incoming == [] then list else Merge(Upsert(list, incoming[0]), incoming[1..])
  }

  // ---------- A loaded file ----------

  function Current(f: File): Json {
    if CurrentContext in f.head.known then f.head.known[CurrentContext] else Text("")
  }

  function WithCurrent(f: File, v: Json): File {
    f.(head := f.head.(known := f.head.known[CurrentContext := v]))
  }

  function WithoutContext(f: File, name: string): File {
    var g := f.(contexts := Remove(f.contexts, name));
    if Current(f) == Text(name) then WithCurrent(g, Text("")) else g
  }

  function Merged(f: File, incoming: File): File {
    var g := f.(contexts := Merge(f.contexts, incoming.contexts),
                clusters := Merge(f.clusters, incoming.clusters),
                users := Merge(f.users, incoming.users));
    if Current(incoming) == Text("") then g else WithCurrent(g, Current(incoming))
  }

  // The context refers to the cluster and user of that name.
  function Pointing(body: Record, clusterName: string): Record {
    body.(known := body.known[ClusterKey := Text(clusterName)][UserKey := Text(clusterName)])
  }

  function Renamed(list: seq<Entry>, name: string): seq<Entry> {
    var i := IndexOf(list, "default");
    if i < |list| then list[i := list[i].(name := name)] else list
  }

  function RenamedContext(list: seq<Entry>, contextName: string, clusterName: string): seq<Entry> {
    var i := IndexOf(list, "default");
    if i < |list| then list[i := Entry(contextName, Pointing(list[i].body, clusterName))] else list
  }

  function DefaultsRenamed(f: File, contextName: string, clusterName: string): File {
    var g := f.(contexts := RenamedContext(f.contexts, contextName, clusterName),
                clusters := Renamed(f.clusters, clusterName),
                users := Renamed(f.users, clusterName));
    if Current(f) == Text("default") then WithCurrent(g, Text(contextName)) else g
  }

  // The File the source mutates.
  class LoadedFile {
    var head: Record
    var clusters: seq<Entry>
    var contexts: seq<Entry>
    var users: seq<Entry>

    ghost function Value(): File
      reads this
    {
      File(head, clusters, contexts, users)
    }

    constructor (f: File)
      ensures Value() == f
    {
      head, clusters, contexts, users := f.head, f.clusters, f.contexts, f.users;
    }

    // findContext, findCluster and findUser; -1 when absent.
    static method Find(list: seq<Entry>, name: string) returns (i: int)
      ensures i == if IndexOf(list, name) < |list| then IndexOf(list, name) else -1
    {
      i := 0;
      while i < |list|
        invariant 0 <= i <= |list|
        invariant forall k :: 0 <= k < i ==> list[k].name != name
      {
        if list[i].name == name {
          return;
        }
        i := i + 1;
      }
      i := -1;
    }

    // The three upserts, on one list.
    static method UpsertInto(list: seq<Entry>, e: Entry) returns (r: seq<Entry>)
      ensures r == Upsert(list, e)
    {
      var i := Find(list, e.name);
      UpsertAt(list, e);
      r := if i >= 0 then list[i := e] else list + [e];
    }

    static method RemoveFrom(list: seq<Entry>, name: string) returns (r: seq<Entry>)
      ensures r == Remove(list, name)
    {
      var i := Find(list, name);
      RemoveAt(list, name);
      r := if i >= 0 then list[..i] + list[i + 1..] else list;
    }

    method RemoveContext(name: string)
      requires CurrentContext in head.known
      modifies this
      ensures CurrentContext in head.known
      ensures Value() == WithoutContext(old(Value()), name)
    {
      contexts := RemoveFrom(contexts, name);
      if head.known[CurrentContext] == Text(name) {
        head := head.(known := head.known[CurrentContext := Text("")]);
      }
    }

    method MergeFrom(incoming: File)
      requires CurrentContext in head.known
      modifies this
      ensures CurrentContext in head.known
      ensures Value() == Merged(old(Value()), incoming)
    {
      for i := 0 to |incoming.contexts|
        modifies this`contexts
        invariant Merge(contexts, incoming.contexts[i..]) == old(Merge(contexts, incoming.contexts))
      {
        contexts := UpsertInto(contexts, incoming.contexts[i]);
        assert incoming.contexts[i..][1..] == incoming.contexts[i + 1..];
      }
      for i := 0 to |incoming.clusters|
        modifies this`clusters
        invariant Merge(clusters, incoming.clusters[i..]) == old(Merge(clusters, incoming.clusters))
      {
        clusters := UpsertInto(clusters, incoming.clusters[i]);
        assert incoming.clusters[i..][1..] == incoming.clusters[i + 1..];
      }
      for i := 0 to |incoming.users|
        modifies this`users
        invariant Merge(users, incoming.users[i..]) == old(Merge(users, incoming.users))
      {
        users := UpsertInto(users, incoming.users[i]);
        assert incoming.users[i..][1..] == incoming.users[i + 1..];
      }
      if Current(incoming) != Text("") {
        head := head.(known := head.known[CurrentContext := Current(incoming)]);
      }
    }

    method RenameDefaults(contextName: string, clusterName: string)
      requires CurrentContext in head.known
      modifies this
      ensures CurrentContext in head.known
      ensures Value() == DefaultsRenamed(old(Value()), contextName, clusterName)
    {
      var i := Find(contexts, "default");
      if i >= 0 {
        contexts := contexts[i := Entry(contextName, Pointing(contexts[i].body, clusterName))];
      }
      i := Find(clusters, "default");
      if i >= 0 {
        clusters := clusters[i := clusters[i].(name := clusterName)];
      }
      i := Find(users, "default");
      if i >= 0 {
        users := users[i := users[i].(name := clusterName)];
      }
      if head.known[CurrentContext] == Text("default") {
        head := head.(known := head.known[CurrentContext := Text(contextName)]);
      }
    }
  }

  lemma {:induction false} UpsertAt(list: seq<Entry>, e: Entry)
    ensures var i := IndexOf(list, e.name);
            Upsert(list, e) == if i < |list| then list[i := e] else list + [e]
  {
    if list != [] && list[0].name != e.name {
      UpsertAt(list[1..], e);
    }
  }

  lemma {:induction false} RemoveAt(list: seq<Entry>, name: string)
    ensures var i := IndexOf(list, name);
            Remove(list, name) == if i < |list| then list[..i] + list[i + 1..] else list
  {
    if list != [] && list[0].name != name {
      RemoveAt(list[1..], name);
      var i := IndexOf(list[1..], name);
      if i < |list[1..]| {
        assert [list[0]] + (list[1..][..i] + list[1..][i + 1..]) == list[..i + 1] + list[i + 2..];
      } else {
        assert [list[0]] + list[1..] == list;
      }
    }
  }

  // ---------- Import and CleanupStale ----------

  // What Import saves over f.
  function Imported(f: File, raw: File, context: string, cluster: string): File {
    Merged(f, DefaultsRenamed(raw, context, cluster))
  }

  function Count(f: File): nat {
    |f.contexts| + |f.clusters| + |f.users|
  }

  // What CleanupStale saves over f; nothing when it removed no entry.
  function CleanedUp(f: File, context: string, cluster: string): Option<File> {
    var g := WithoutContext(f, context)
      .(clusters := Remove(f.clusters, cluster), users := Remove(f.users, cluster));
    if Count(g) == Count(f) then None else Some(g)
  }

  // ---------- Lookups and order ----------

  lemma {:induction false} LookupUpsert(list: seq<Entry>, e: Entry, name: string)
    ensures Lookup(Upsert(list, e), name) == if name == e.name then Some(e.body) else Lookup(list, name)
  {
    if list != [] && list[0].name != e.name {
      LookupUpsert(list[1..], e, name);
    }
  }

  lemma {:induction false} LookupRemove(list: seq<Entry>, removed: string, name: string)
    requires name != removed
    ensures Lookup(Remove(list, removed), name) == Lookup(list, name)
  {
    if list != [] && list[0].name != removed {
      LookupRemove(list[1..], removed, name);
    }
  }

  // The entries whose name passes, in order.
  function Keep(list: seq<Entry>, foreign: string -> bool): seq<Entry> {
    if list == [] then []
    else (if foreign(list[0].name) then [list[0]] else []) + Keep(list[1..], foreign)
  }

  // Part by part, down to single entries.
  lemma {:induction false} KeepConcat(a: seq<Entry>, b: seq<Entry>, foreign: string -> bool)
    ensures Keep(a + b, foreign) == Keep(a, foreign) + Keep(b, foreign)
  {
    if a == [] {
      assert a + b == b;
    } else {
      assert (a + b)[1..] == a[1..] + b;
      KeepConcat(a[1..], b, foreign);
      Associative(if foreign(a[0].name) then [a[0]] else [], Keep(a[1..], foreign), Keep(b, foreign));
    }
  }

  lemma KeepOne(e: Entry, foreign: string -> bool)
    ensures Keep([e], foreign) == if foreign(e.name) then [e] else []
  {
    assert [e][1..] == [];
  }

  lemma {:induction false} KeepUpsert(list: seq<Entry>, e: Entry, foreign: string -> bool)
    requires !foreign(e.name)
    ensures Keep(Upsert(list, e), foreign) == Keep(list, foreign)
  {
    if list == [] {
      assert [e][1..] == [];
    } else if list[0].name == e.name {
      assert ([e] + list[1..])[1..] == list[1..];
    } else {
      KeepUpsert(list[1..], e, foreign);
      assert ([list[0]] + Upsert(list[1..], e))[1..] == Upsert(list[1..], e);
    }
  }

  lemma {:induction false} KeepRemove(list: seq<Entry>, name: string, foreign: string -> bool)
    requires !foreign(name)
    ensures Keep(Remove(list, name), foreign) == Keep(list, foreign)
  {
    if list != [] && list[0].name != name {
      KeepRemove(list[1..], name, foreign);
      assert ([list[0]] + Remove(list[1..], name))[1..] == Remove(list[1..], name);
    }
  }

  lemma {:induction false} RemoveAbsent(list: seq<Entry>, name: string)
    ensures |Remove(list, name)| == |list| <==> Lookup(list, name).None?
    ensures Lookup(list, name).None? ==> Remove(list, name) == list
  {
    if list != [] && list[0].name != name {
      RemoveAbsent(list[1..], name);
      assert [list[0]] + list[1..] == list;
    }
  }

  lemma {:induction false} UpsertThenRemove(list: seq<Entry>, e: Entry)
    requires Lookup(list, e.name).None?
    ensures Remove(Upsert(list, e), e.name) == list && |Upsert(list, e)| == |list| + 1
  {
    if list == [] {
      assert [e][1..] == [];
    } else {
      UpsertThenRemove(list[1..], e);
      var rest := Upsert(list[1..], e);
      assert ([list[0]] + rest)[1..] == rest && [list[0]] + list[1..] == list;
    }
  }

  // ---------- What renaming and merging come to ----------

  // The body of a context that names this cluster and this user, and is `body` in
  // everything else.
  ghost predicate PointsAt(found: Record, body: Record, name: string) {
    && ClusterKey in found.known && found.known[ClusterKey] == Text(name)
    && UserKey in found.known && found.known[UserKey] == Text(name)
    && (forall k :: k != ClusterKey && k != UserKey ==>
         (k in found.known <==> k in body.known) && (k in body.known ==> found.known[k] == body.known[k]))
    && found.unknown == body.unknown
  }

  // At the first entry called "default", if there is one.
  ghost predicate FirstDefault(list: seq<Entry>, i: nat) {
    i < |list| && list[i].name == "default" && forall j :: 0 <= j < i ==> list[j].name != "default"
  }

  // Only the first default of each list changes: its name, and where a context
  // points; and the current context, if it was that one.
  lemma DefaultsRenamedAre(f: File, context: string, cluster: string)
    ensures var g := DefaultsRenamed(f, context, cluster);
            && |g.contexts| == |f.contexts| && |g.clusters| == |f.clusters| && |g.users| == |f.users|
            && (forall i :: 0 <= i < |f.contexts| ==>
                 if FirstDefault(f.contexts, i) then
                   g.contexts[i].name == context && PointsAt(g.contexts[i].body, f.contexts[i].body, cluster)
                 else g.contexts[i] == f.contexts[i])
            && (forall i :: 0 <= i < |f.clusters| ==>
                 g.clusters[i] == if FirstDefault(f.clusters, i) then Entry(cluster, f.clusters[i].body)
                                  else f.clusters[i])
            && (forall i :: 0 <= i < |f.users| ==>
                 g.users[i] == if FirstDefault(f.users, i) then Entry(cluster, f.users[i].body) else f.users[i])
            && Current(g) == (if Current(f) == Text("default") then Text(context) else Current(f))
            && g.head.unknown == f.head.unknown
  {
    RenamedContextIs(f.contexts, context, cluster);
    RenamedIs(f.clusters, cluster);
    RenamedIs(f.users, cluster);
  }

  lemma FirstDefaultIs(list: seq<Entry>)
    ensures forall i :: 0 <= i < |list| ==> (FirstDefault(list, i) <==> i == IndexOf(list, "default"))
  {
  }

  lemma RenamedIs(list: seq<Entry>, name: string)
    ensures |Renamed(list, name)| == |list|
    ensures forall i :: 0 <= i < |list| ==>
              Renamed(list, name)[i] == if FirstDefault(list, i) then Entry(name, list[i].body) else list[i]
  {
    FirstDefaultIs(list);
  }

  lemma RenamedContextIs(list: seq<Entry>, context: string, cluster: string)
    ensures var renamed := RenamedContext(list, context, cluster);
            && |renamed| == |list|
            && forall i :: 0 <= i < |list| ==>
                 if FirstDefault(list, i) then
                   renamed[i].name == context && PointsAt(renamed[i].body, list[i].body, cluster)
                 else renamed[i] == list[i]
  {
    FirstDefaultIs(list);
  }

  // After a merge a name that does not come in reads as before.
  lemma {:induction false} LookupMergeOther(list: seq<Entry>, incoming: seq<Entry>, name: string)
    requires forall i :: 0 <= i < |incoming| ==> incoming[i].name != name
    ensures Lookup(Merge(list, incoming), name) == Lookup(list, name)
    decreases |incoming|
  {
    if incoming != [] {
      LookupUpsert(list, incoming[0], name);
      LookupMergeOther(Upsert(list, incoming[0]), incoming[1..], name);
    }
  }

  // And one that does reads as the last entry of it that comes in.
  lemma {:induction false} LookupMerge(list: seq<Entry>, incoming: seq<Entry>, name: string, i: nat)
    requires i < |incoming| && incoming[i].name == name
    requires forall j :: i < j < |incoming| ==> incoming[j].name != name
    ensures Lookup(Merge(list, incoming), name) == Some(incoming[i].body)
    decreases |incoming|
  {
    if i == 0 {
      LookupUpsert(list, incoming[0], name);
      LookupMergeOther(Upsert(list, incoming[0]), incoming[1..], name);
    } else {
      LookupMerge(Upsert(list, incoming[0]), incoming[1..], name, i - 1);
    }
  }

  // CleanupStale leaves the file alone exactly when it has none of the names.
  lemma CleanupIdleIff(f: File, context: string, cluster: string)
    ensures CleanedUp(f, context, cluster).None? <==>
              && Lookup(f.contexts, context).None?
              && Lookup(f.clusters, cluster).None? && Lookup(f.users, cluster).None?
  {
    RemoveAbsent(f.contexts, context);
    RemoveAbsent(f.clusters, cluster);
    RemoveAbsent(f.users, cluster);
    RemoveShortens(f.contexts, context);
    RemoveShortens(f.clusters, cluster);
    RemoveShortens(f.users, cluster);
  }

  lemma RemoveShortens(list: seq<Entry>, name: string)
    ensures |Remove(list, name)| <= |list|
  {
    RemoveAt(list, name);
  }

  // ---------- A k3s kubeconfig: one default of each ----------

  predicate Single(raw: File) {
    && |raw.contexts| == 1 && raw.contexts[0].name == "default"
    && |raw.clusters| == 1 && raw.clusters[0].name == "default"
    && |raw.users| == 1 && raw.users[0].name == "default"
  }

  // The current context such an import asks for.
  function Chosen(raw: File, context: string): Json {
    if Current(raw) == Text("default") then Text(context) else Current(raw)
  }

  // It adds or replaces one entry in each list.
  lemma SingleImport(f: File, raw: File, context: string, cluster: string)
    requires Single(raw)
    ensures var g := Imported(f, raw, context, cluster);
            && g.contexts == Upsert(f.contexts, Entry(context, Pointing(raw.contexts[0].body, cluster)))
            && PointsAt(Pointing(raw.contexts[0].body, cluster), raw.contexts[0].body, cluster)
            && g.clusters == Upsert(f.clusters, Entry(cluster, raw.clusters[0].body))
            && g.users == Upsert(f.users, Entry(cluster, raw.users[0].body))
            && g.head == (if Chosen(raw, context) == Text("") then f else WithCurrent(f, Chosen(raw, context))).head
  {
    var r := DefaultsRenamed(raw, context, cluster);
    MergeOne(f.contexts, r.contexts);
    MergeOne(f.clusters, r.clusters);
    MergeOne(f.users, r.users);
    assert Current(r) == Chosen(raw, context);
  }

  lemma MergeOne(list: seq<Entry>, incoming: seq<Entry>)
    requires |incoming| == 1
    ensures Merge(list, incoming) == Upsert(list, incoming[0])
  {
    assert incoming[1..] == [];
  }

  // The current context after an import and its cleanup.
  function Left(before: Json, chosen: Json, context: string): Json {
    var after := if chosen == Text("") then before else chosen;
    if after == Text(context) then Text("") else after
  }

  // Cleaning up an import into a file without entries of these names restores
  // the three lists, in order; at most the current context differs.
  lemma ImportThenCleanup(f: File, raw: File, context: string, cluster: string)
    requires Single(raw) && CurrentContext in f.head.known
    requires Lookup(f.contexts, context).None?
    requires Lookup(f.clusters, cluster).None? && Lookup(f.users, cluster).None?
    ensures CleanedUp(Imported(f, raw, context, cluster), context, cluster)
         == Some(WithCurrent(f, Left(Current(f), Chosen(raw, context), context)))
  {
    var g := Imported(f, raw, context, cluster);
    SingleImport(f, raw, context, cluster);
    UpsertThenRemove(f.contexts, Entry(context, Pointing(raw.contexts[0].body, cluster)));
    UpsertThenRemove(f.clusters, Entry(cluster, raw.clusters[0].body));
    UpsertThenRemove(f.users, Entry(cluster, raw.users[0].body));
    var known := f.head.known;
    assert known[CurrentContext := known[CurrentContext]] == known;
    UpdateTwice(known, CurrentContext, Chosen(raw, context), Text(""));
    assert CleanedUp(g, context, cluster).Some?;
  }

  lemma UpdateTwice(m: Object, k: Key, v: Json, w: Json)
    ensures m[k := v][k := w] == m[k := w]
  {
  }

  // ---------- What is saved can be read back ----------

  lemma TypedUpsert(schema: Schema, list: seq<Entry>, e: Entry)
    requires AllTyped(schema, list) && Typed(schema, e.body)
    ensures AllTyped(schema, Upsert(list, e))
  {
    UpsertAt(list, e);
  }

  lemma TypedRemove(schema: Schema, list: seq<Entry>, name: string)
    requires AllTyped(schema, list)
    ensures AllTyped(schema, Remove(list, name))
  {
    RemoveAt(list, name);
  }

  lemma {:induction false} TypedMerge(schema: Schema, list: seq<Entry>, incoming: seq<Entry>)
    requires AllTyped(schema, list) && AllTyped(schema, incoming)
    ensures AllTyped(schema, Merge(list, incoming))
    decreases |incoming|
  {
    if incoming != [] {
      assert Typed(schema, incoming[0].body);
      TypedUpsert(schema, list, incoming[0]);
      TypedMerge(schema, Upsert(list, incoming[0]), incoming[1..]);
    }
  }

  lemma TypedPointing(body: Record, cluster: string)
    requires Typed(CONTEXT_SCHEMA, body)
    ensures Typed(CONTEXT_SCHEMA, Pointing(body, cluster))
  {
  }

  lemma TypedCurrent(head: Record, v: Json)
    requires Typed(HEAD_SCHEMA, head) && v.Text?
    ensures var h := head.(known := head.known[CurrentContext := v]);
            Typed(HEAD_SCHEMA, h) && h.known[ApiVersion] == head.known[ApiVersion]
            && h.known[FileKind] == head.known[FileKind]
  {
  }

  lemma TypedRenamed(schema: Schema, list: seq<Entry>, name: string)
    requires AllTyped(schema, list)
    ensures AllTyped(schema, Renamed(list, name))
  {
  }

  lemma TypedRenamedContext(list: seq<Entry>, context: string, cluster: string)
    requires AllTyped(CONTEXT_SCHEMA, list)
    ensures AllTyped(CONTEXT_SCHEMA, RenamedContext(list, context, cluster))
  {
    var i := IndexOf(list, "default");
    if i < |list| {
      TypedPointing(list[i].body, cluster);
    }
  }

  lemma RenamedWellFormed(raw: File, context: string, cluster: string)
    requires WellFormed(raw)
    ensures WellFormed(DefaultsRenamed(raw, context, cluster))
  {
    TypedRenamedContext(raw.contexts, context, cluster);
    TypedRenamed(CLUSTER_SCHEMA, raw.clusters, cluster);
    TypedRenamed(USER_SCHEMA, raw.users, cluster);
    TypedCurrent(raw.head, Text(context));
    PartsWellFormed(DefaultsRenamed(raw, context, cluster));
  }

  lemma MergedWellFormed(f: File, incoming: File)
    requires WellFormed(f) && WellFormed(incoming)
    ensures WellFormed(Merged(f, incoming))
  {
    TypedMerge(CONTEXT_SCHEMA, f.contexts, incoming.contexts);
    TypedMerge(CLUSTER_SCHEMA, f.clusters, incoming.clusters);
    TypedMerge(USER_SCHEMA, f.users, incoming.users);
    assert Fits(HEAD_SCHEMA[CurrentContext], incoming.head.known[CurrentContext]);
    TypedCurrent(f.head, Current(incoming));
    PartsWellFormed(Merged(f, incoming));
  }

  lemma ImportSavesWellFormed(f: File, raw: File, context: string, cluster: string)
    requires WellFormed(f) && WellFormed(raw)
    ensures WellFormed(Imported(f, raw, context, cluster))
  {
    RenamedWellFormed(raw, context, cluster);
    MergedWellFormed(f, DefaultsRenamed(raw, context, cluster));
  }

  lemma CleanupSavesWellFormed(f: File, context: string, cluster: string)
    requires WellFormed(f) && CleanedUp(f, context, cluster).Some?
    ensures WellFormed(CleanedUp(f, context, cluster).value)
  {
    TypedRemove(CONTEXT_SCHEMA, f.contexts, context);
    TypedRemove(CLUSTER_SCHEMA, f.clusters, cluster);
    TypedRemove(USER_SCHEMA, f.users, cluster);
    TypedCurrent(f.head, Text(""));
    PartsWellFormed(CleanedUp(f, context, cluster).value);
  }
}
