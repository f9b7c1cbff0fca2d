/** pkg/kubeconfig: decoding into typed fields plus a map of the keys the types
    do not know, and encoding both back (unknown.go, and Parse and Save of
    schema.go). Keys match in their exact spelling. */
module KubeCodec {
  import opened Wrappers

  // The keys the Go types have fields for, and any other.
  datatype Key =
    | Name | ApiVersion | FileKind | CurrentContext | Preferences
    | Clusters | Contexts | Users | ClusterKey | ContextKey | UserKey
    | Server | CertificateAuthority | CertificateAuthorityData | InsecureSkipTlsVerify
    | Namespace
    | Token | TokenFile | ClientCertificate | ClientCertificateData | ClientKey | ClientKeyData
    | Username | Password | As | AuthProvider | Exec
    | OtherKey(text: string)

  datatype Json =
    | Null
    | Text(text: string)
    | Bool(value: bool)
    | Number(digits: string)
    | Arr(items: seq<Json>)
    | Obj(members: map<Key, Json>)

  type Object = map<Key, Json>

  // A field of a Go struct that is omitted when empty.
  datatype Kind = StringField | BoolField | MapField

  type Schema = map<Key, Kind>

  // The scalar part of File
  const HEAD_SCHEMA: Schema := map[
    ApiVersion := StringField, FileKind := StringField,
    CurrentContext := StringField, Preferences := MapField]

  const CLUSTER_SCHEMA: Schema := map[
    Server := StringField, CertificateAuthority := StringField,
    CertificateAuthorityData := StringField, InsecureSkipTlsVerify := BoolField]

  const CONTEXT_SCHEMA: Schema := map[
    ClusterKey := StringField, UserKey := StringField, Namespace := StringField]

  const USER_SCHEMA: Schema := map[
    Token := StringField, TokenFile := StringField,
    ClientCertificate := StringField, ClientCertificateData := StringField,
    ClientKey := StringField, ClientKeyData := StringField,
    Username := StringField, Password := StringField, As := StringField,
    AuthProvider := MapField, Exec := MapField]

  function Empty(kind: Kind): Json {
    match kind
    case StringField => Text("")
    case BoolField => Bool(false)
    case MapField => Obj(map[])
  }

  predicate Fits(kind: Kind, v: Json) {
    match kind
    case StringField => v.Text?
    case BoolField => v.Bool?
    case MapField => v.Obj?
  }

  // A struct of that schema: a value for every field, and what else was there.
  datatype Record = Record(known: Object, unknown: Object)

  ghost predicate Typed(schema: Schema, r: Record) {
    && r.known.Keys == schema.Keys && r.unknown.Keys !! schema.Keys
    && forall k :: k in schema ==> Fits(schema[k], r.known[k])
  }

  // ---------- decodeKeepingUnknown and encodeWithUnknown ----------

  // A missing key or null leaves the field empty; another type is an error.
  predicate Decodable(schema: Schema, o: Object) {
    forall k :: k in schema && k in o ==> o[k].Null? || Fits(schema[k], o[k])
  }

  function FieldValue(kind: Kind, o: Object, k: Key): Json {
    if k in o && !o[k].Null? then o[k] else Empty(kind)
  }

  function KnownOf(schema: Schema, o: Object): Object {
    map k | k in schema :: FieldValue(schema[k], o, k)
  }

  function UnknownOf(schema: Schema, o: Object): Object {
    map k | k in o && k !in schema :: o[k]
  }

  function Decode(schema: Schema, o: Object): Option<Record> {
    if Decodable(schema, o) then Some(Record(KnownOf(schema, o), UnknownOf(schema, o))) else None
  }

  // What json.Marshal writes for the struct.
  function Marshalled(schema: Schema, r: Record): Object {
    map k | k in schema && k in r.known && r.known[k] != Empty(schema[k]) :: r.known[k]
  }

  function Encode(schema: Schema, r: Record): Object {
    var fields := Marshalled(schema, r);
    map k | k in fields.Keys + r.unknown.Keys :: if k in fields then fields[k] else r.unknown[k]
  }

  // The loop that takes the known names out of all keys.
  method DecodeKeepingUnknown(schema: Schema, names: seq<Key>, o: Object) returns (r: Option<Record>)
    requires forall k :: k in schema <==> k in names
    ensures r == Decode(schema, o)
  {
    if !Decodable(schema, o) {
      return None;
    }
    var all := o;
    for i := 0 to |names|
      invariant all == map k | k in o && k !in names[..i] :: o[k]
    {
      all := all - {names[i]};
    }
    assert names[..|names|] == names;
    assert all == UnknownOf(schema, o);
    r := Some(Record(KnownOf(schema, o), all));
  }

  // The loop that puts the unknown keys back, in any order.
  method EncodeWithUnknown(schema: Schema, r: Record) returns (merged: Object)
    ensures merged == Encode(schema, r)
  {
    var fields := Marshalled(schema, r);
    merged := fields;
    var left := r.unknown.Keys;
    while left != {}
      invariant left <= r.unknown.Keys
      invariant merged.Keys == fields.Keys + (r.unknown.Keys - left)
      invariant forall k :: k in merged ==> merged[k] == if k in fields then fields[k] else r.unknown[k]
    {
      var k :| k in left;
      if k !in merged {
        merged := merged[k := r.unknown[k]];
      }
      left := left - {k};
    }
  }

  // ---------- One struct: both round trips ----------

  predicate Dropped(schema: Schema, k: Key, v: Json) {
    k in schema && (v.Null? || v == Empty(schema[k]))
  }

  function NonEmpty(schema: Schema, o: Object): Object {
    map k | k in o && !Dropped(schema, k, o[k]) :: o[k]
  }

  // Decoding and encoding keeps every unknown key and every non-empty known
  // one with its value, adds nothing, and drops exactly the empty known ones.
  lemma DecodeEncode(schema: Schema, o: Object)
    requires Decodable(schema, o)
    ensures var r := Decode(schema, o).value;
            Typed(schema, r) && Encode(schema, r) == NonEmpty(schema, o)
    ensures NonEmpty(schema, o) == o <==> forall k :: k in o ==> !Dropped(schema, k, o[k])
  {
    var r := Decode(schema, o).value;
    var kept := NonEmpty(schema, o);
    assert Encode(schema, r) == kept by {
      forall k ensures k in Encode(schema, r) <==> k in kept {
      }
    }
    if kept == o {
      forall k | k in o ensures !Dropped(schema, k, o[k]) {
        assert k in kept;
      }
    }
  }

  lemma EncodeDecode(schema: Schema, r: Record)
    requires Typed(schema, r)
    ensures Decode(schema, Encode(schema, r)) == Some(r)
  {
    var o := Encode(schema, r);
    assert Decodable(schema, o);
    forall k | k in schema ensures FieldValue(schema[k], o, k) == r.known[k] {
    }
    assert KnownOf(schema, o) == r.known;
    assert UnknownOf(schema, o) == r.unknown;
  }

  // ---------- The whole file ----------

  // One element of clusters, contexts or users.
  datatype Entry = Entry(name: string, body: Record)

  datatype File = File(head: Record, clusters: seq<Entry>, contexts: seq<Entry>, users: seq<Entry>)

  // The types of the wrapper NamedCluster, NamedContext, NamedUser are plain
  // structs: a key next to `name` and the body is not kept.
  predicate EntryDecodable(inner: Key, schema: Schema, j: Json) {
    || j.Null?
    || (j.Obj?
        && (Name in j.members ==> j.members[Name].Null? || j.members[Name].Text?)
        && (inner in j.members ==>
              j.members[inner].Null? || (j.members[inner].Obj? && Decodable(schema, j.members[inner].members))))
  }

  function BodyOf(inner: Key, j: Json): Object {
    if j.Obj? && inner in j.members && j.members[inner].Obj? then j.members[inner].members else map[]
  }

  function NameOf(j: Json): string {
    if j.Obj? && Name in j.members && j.members[Name].Text? then j.members[Name].text else ""
  }

  function DecodeEntry(inner: Key, schema: Schema, j: Json): Entry {
    Entry(NameOf(j), Record(KnownOf(schema, BodyOf(inner, j)), UnknownOf(schema, BodyOf(inner, j))))
  }

  function Wrapper(inner: Key, name: string, body: Object): Json {
    Obj(map[Name := Text(name), inner := Obj(body)])
  }

  function EncodeEntry(inner: Key, schema: Schema, e: Entry): Json {
    Wrapper(inner, e.name, Encode(schema, e.body))
  }

  function ItemsOf(list: Key, o: Object): seq<Json> {
    if list in o && o[list].Arr? then o[list].items else []
  }

  predicate EntriesDecodable(inner: Key, schema: Schema, items: seq<Json>) {
    forall i :: 0 <= i < |items| ==> EntryDecodable(inner, schema, items[i])
  }

  predicate ListDecodable(list: Key, inner: Key, schema: Schema, o: Object) {
    (list in o ==> o[list].Null? || o[list].Arr?) && EntriesDecodable(inner, schema, ItemsOf(list, o))
  }

  // An absent list and null are the empty list.
  function DecodeEntries(inner: Key, schema: Schema, items: seq<Json>): seq<Entry> {
    seq(|items|, i requires 0 <= i < |items| => DecodeEntry(inner, schema, items[i]))
  }

  function EncodeList(inner: Key, schema: Schema, entries: seq<Entry>): Json {
    Arr(seq(|entries|, i requires 0 <= i < |entries| => EncodeEntry(inner, schema, entries[i])))
  }

  predicate Parsable(o: Object) {
    && Decodable(HEAD_SCHEMA, o - LISTS)
    && ListDecodable(Clusters, ClusterKey, CLUSTER_SCHEMA, o)
    && ListDecodable(Contexts, ContextKey, CONTEXT_SCHEMA, o)
    && ListDecodable(Users, UserKey, USER_SCHEMA, o)
  }

  const LISTS: set<Key> := {Clusters, Contexts, Users}

  function OrDefault(v: Json, default: string): Json {
    if v == Text("") then Text(default) else v
  }

  function Defaulted(head: Record): Record
    requires ApiVersion in head.known && FileKind in head.known
  {
    head.(known := head.known[ApiVersion := OrDefault(head.known[ApiVersion], "v1")]
                             [FileKind := OrDefault(head.known[FileKind], "Config")])
  }

  // The scalar fields, from what is beside the lists.
  function HeadOf(rest: Object): Record {
    Defaulted(Record(KnownOf(HEAD_SCHEMA, rest), UnknownOf(HEAD_SCHEMA, rest)))
  }

  // Parse, on a document that is an object.
  function Parse(o: Object): Option<File> {
    if Parsable(o) then
      Some(File(HeadOf(o - LISTS),
                DecodeEntries(ClusterKey, CLUSTER_SCHEMA, ItemsOf(Clusters, o)),
                DecodeEntries(ContextKey, CONTEXT_SCHEMA, ItemsOf(Contexts, o)),
                DecodeEntries(UserKey, USER_SCHEMA, ItemsOf(Users, o))))
    else None
  }

  function WithLists(o: Object, clusters: Json, contexts: Json, users: Json): Object {
    o[Clusters := clusters][Contexts := contexts][Users := users]
  }

  // The document Save writes.
  function Saved(f: File): Object {
    WithLists(Encode(HEAD_SCHEMA, f.head),
              EncodeList(ClusterKey, CLUSTER_SCHEMA, f.clusters),
              EncodeList(ContextKey, CONTEXT_SCHEMA, f.contexts),
              EncodeList(UserKey, USER_SCHEMA, f.users))
  }

  ghost predicate AllTyped(schema: Schema, entries: seq<Entry>) {
    forall i :: 0 <= i < |entries| ==> Typed(schema, entries[i].body)
  }

  // What Parse returns, and every operation on a File keeps.
  ghost predicate WellFormed(f: File) {
    && Typed(HEAD_SCHEMA, f.head) && f.head.unknown.Keys !! LISTS
    && f.head.known[ApiVersion] != Text("") && f.head.known[FileKind] != Text("")
    && AllTyped(CLUSTER_SCHEMA, f.clusters)
    && AllTyped(CONTEXT_SCHEMA, f.contexts)
    && AllTyped(USER_SCHEMA, f.users)
  }

  lemma EntryRoundTrip(inner: Key, schema: Schema, e: Entry)
    requires inner != Name && Typed(schema, e.body)
    ensures EntryDecodable(inner, schema, EncodeEntry(inner, schema, e))
    ensures DecodeEntry(inner, schema, EncodeEntry(inner, schema, e)) == e
  {
    EncodeDecode(schema, e.body);
  }

  lemma ListRoundTrip(list: Key, inner: Key, schema: Schema, entries: seq<Entry>, o: Object)
    requires inner != Name && AllTyped(schema, entries)
    requires list in o && o[list] == EncodeList(inner, schema, entries)
    ensures ListDecodable(list, inner, schema, o) && DecodeEntries(inner, schema, ItemsOf(list, o)) == entries
  {
    forall i | 0 <= i < |entries|
      ensures EntryDecodable(inner, schema, o[list].items[i])
      ensures DecodeEntry(inner, schema, o[list].items[i]) == entries[i]
    {
      EntryRoundTrip(inner, schema, entries[i]);
    }
  }

  lemma HeadRoundTrip(head: Record)
    requires Typed(HEAD_SCHEMA, head)
    requires head.known[ApiVersion] != Text("") && head.known[FileKind] != Text("")
    ensures Decodable(HEAD_SCHEMA, Encode(HEAD_SCHEMA, head)) && HeadOf(Encode(HEAD_SCHEMA, head)) == head
  {
    EncodeDecode(HEAD_SCHEMA, head);
    assert head.known[ApiVersion := head.known[ApiVersion]][FileKind := head.known[FileKind]] == head.known;
  }

  lemma ListsAside(o: Object, clusters: Json, contexts: Json, users: Json)
    requires o.Keys !! LISTS
    ensures var out := WithLists(o, clusters, contexts, users);
            && out - LISTS == o
            && Clusters in out && out[Clusters] == clusters
            && Contexts in out && out[Contexts] == contexts
            && Users in out && out[Users] == users
  {
    assert Clusters != Contexts && Clusters != Users && Contexts != Users;
  }

  lemma HeadApart()
    ensures HEAD_SCHEMA.Keys !! LISTS
  {
  }

  // Reading back what was saved gives the same file.
  lemma SaveThenParse(f: File)
    requires WellFormed(f)
    ensures Parse(Saved(f)) == Some(f)
  {
    HeadApart();
    var o := Encode(HEAD_SCHEMA, f.head);
    var clusters := EncodeList(ClusterKey, CLUSTER_SCHEMA, f.clusters);
    var contexts := EncodeList(ContextKey, CONTEXT_SCHEMA, f.contexts);
    var users := EncodeList(UserKey, USER_SCHEMA, f.users);
    ParseLists(f, o, clusters, contexts, users);
  }

  lemma ParseLists(f: File, o: Object, clusters: Json, contexts: Json, users: Json)
    requires WellFormed(f) && HEAD_SCHEMA.Keys !! LISTS
    requires o == Encode(HEAD_SCHEMA, f.head)
    requires clusters == EncodeList(ClusterKey, CLUSTER_SCHEMA, f.clusters)
    requires contexts == EncodeList(ContextKey, CONTEXT_SCHEMA, f.contexts)
    requires users == EncodeList(UserKey, USER_SCHEMA, f.users)
    ensures Parse(WithLists(o, clusters, contexts, users)) == Some(f)
  {
    var out := WithLists(o, clusters, contexts, users);
    ListsAside(o, clusters, contexts, users);
    ListRoundTrip(Clusters, ClusterKey, CLUSTER_SCHEMA, f.clusters, out);
    ListRoundTrip(Contexts, ContextKey, CONTEXT_SCHEMA, f.contexts, out);
    ListRoundTrip(Users, UserKey, USER_SCHEMA, f.users, out);
    HeadRoundTrip(f.head);
  }

  // ---------- What a load and save changes ----------

  // No known field is there with an empty value.
  predicate TidyBody(schema: Schema, body: Object) {
    forall k :: k in body ==> !Dropped(schema, k, body[k])
  }

  // An element that is written back as it was read: nothing but a name and a
  // tidy body.
  predicate TidyEntry(inner: Key, schema: Schema, j: Json) {
    j == Wrapper(inner, NameOf(j), BodyOf(inner, j)) && TidyBody(schema, BodyOf(inner, j))
  }

  predicate TidyEntries(inner: Key, schema: Schema, items: seq<Json>) {
    items == [] || (TidyEntry(inner, schema, items[0]) && TidyEntries(inner, schema, items[1..]))
  }

  predicate TidyList(list: Key, inner: Key, schema: Schema, o: Object) {
    list in o && o[list].Arr? && TidyEntries(inner, schema, ItemsOf(list, o))
  }

  predicate TidyHead(o: Object) {
    && ApiVersion in o && FileKind in o
    && forall k :: k in o ==> !Dropped(HEAD_SCHEMA, k, o[k])
  }

  predicate Tidy(o: Object) {
    && TidyHead(o - LISTS)
    && TidyList(Clusters, ClusterKey, CLUSTER_SCHEMA, o)
    && TidyList(Contexts, ContextKey, CONTEXT_SCHEMA, o)
    && TidyList(Users, UserKey, USER_SCHEMA, o)
  }

  // The body keeps its unknown keys and its non-empty known ones; a key beside
  // name and body is lost.
  lemma EntryKept(inner: Key, schema: Schema, j: Json)
    requires inner != Name && EntryDecodable(inner, schema, j)
    ensures var e := DecodeEntry(inner, schema, j);
            && Typed(schema, e.body)
            && EncodeEntry(inner, schema, e) == Wrapper(inner, NameOf(j), NonEmpty(schema, BodyOf(inner, j)))
            && (EncodeEntry(inner, schema, e) == j <==> TidyEntry(inner, schema, j))
  {
    var body := BodyOf(inner, j);
    DecodeEncode(schema, body);
    WrapperIff(inner, NameOf(j), NonEmpty(schema, body), j);
  }

  lemma WrapperIff(inner: Key, name: string, body: Object, j: Json)
    requires inner != Name && name == NameOf(j)
    ensures Wrapper(inner, name, body) == j <==> j == Wrapper(inner, name, BodyOf(inner, j)) && body == BodyOf(inner, j)
  {
    var m := map[Name := Text(name), inner := Obj(body)];
    assert m[inner] == Obj(body);
  }

  lemma EntriesTyped(inner: Key, schema: Schema, items: seq<Json>)
    requires inner != Name && EntriesDecodable(inner, schema, items)
    ensures AllTyped(schema, DecodeEntries(inner, schema, items))
  {
    forall i | 0 <= i < |items| ensures Typed(schema, DecodeEntry(inner, schema, items[i]).body) {
      EntryKept(inner, schema, items[i]);
    }
  }

  lemma {:induction false} EntriesKept(inner: Key, schema: Schema, items: seq<Json>)
    requires inner != Name && EntriesDecodable(inner, schema, items)
    ensures TidyEntries(inner, schema, items) <==>
              EncodeList(inner, schema, DecodeEntries(inner, schema, items)) == Arr(items)
  {
    if items == [] {
      assert EncodeList(inner, schema, DecodeEntries(inner, schema, items)).items == [];
    } else {
      EntryKept(inner, schema, items[0]);
      EntriesKept(inner, schema, items[1..]);
      var e := DecodeEntry(inner, schema, items[0]);
      var entries := DecodeEntries(inner, schema, items[1..]);
      ListCons(inner, schema, items, e, entries);
      SplitEqual(EncodeEntry(inner, schema, e), EncodeList(inner, schema, entries).items, items);
    }
  }

  lemma ListCons(inner: Key, schema: Schema, items: seq<Json>, e: Entry, entries: seq<Entry>)
    requires items != [] && e == DecodeEntry(inner, schema, items[0])
    requires entries == DecodeEntries(inner, schema, items[1..])
    ensures EncodeList(inner, schema, DecodeEntries(inner, schema, items))
         == Arr([EncodeEntry(inner, schema, e)] + EncodeList(inner, schema, entries).items)
  {
    assert DecodeEntries(inner, schema, items) == [e] + entries;
    EncodeCons(inner, schema, e, entries);
  }

  lemma EncodeCons(inner: Key, schema: Schema, e: Entry, entries: seq<Entry>)
    ensures EncodeList(inner, schema, [e] + entries)
         == Arr([EncodeEntry(inner, schema, e)] + EncodeList(inner, schema, entries).items)
  {
    var out := EncodeList(inner, schema, entries).items;
    assert EncodeList(inner, schema, [e] + entries).items == [EncodeEntry(inner, schema, e)] + out;
  }

  lemma SplitEqual(x: Json, rest: seq<Json>, items: seq<Json>)
    requires items != []
    ensures [x] + rest == items <==> x == items[0] && rest == items[1..]
  {
    assert ([x] + rest)[1..] == rest;
    assert items == [items[0]] + items[1..];
  }

  lemma EncodeUpdate(schema: Schema, r: Record, k: Key, v: Json)
    requires Typed(schema, r) && k in schema && Fits(schema[k], v) && v != Empty(schema[k])
    ensures var r' := r.(known := r.known[k := v]);
            Typed(schema, r') && Encode(schema, r') == Encode(schema, r)[k := v]
  {
    var r' := r.(known := r.known[k := v]);
    assert Marshalled(schema, r') == Marshalled(schema, r)[k := v];
  }

  // The head is written back with its empty known keys dropped and the version
  // and kind filled in.
  lemma HeadKept(rest: Object)
    requires Decodable(HEAD_SCHEMA, rest)
    ensures var head := HeadOf(rest);
            && Typed(HEAD_SCHEMA, head)
            && head.known[ApiVersion] != Text("") && head.known[FileKind] != Text("")
            && Encode(HEAD_SCHEMA, head)
            == NonEmpty(HEAD_SCHEMA, rest)[ApiVersion := head.known[ApiVersion]][FileKind := head.known[FileKind]]
            && (ApiVersion in rest && !Dropped(HEAD_SCHEMA, ApiVersion, rest[ApiVersion]) ==>
                 head.known[ApiVersion] == rest[ApiVersion])
            && (FileKind in rest && !Dropped(HEAD_SCHEMA, FileKind, rest[FileKind]) ==>
                 head.known[FileKind] == rest[FileKind])
  {
    var r := Decode(HEAD_SCHEMA, rest).value;
    DecodeEncode(HEAD_SCHEMA, rest);
    Filled(HEAD_SCHEMA, r, ApiVersion, "v1", FileKind, "Config");
  }

  lemma Filled(schema: Schema, r: Record, a: Key, x: string, b: Key, y: string)
    requires Typed(schema, r) && a != b && x != "" && y != ""
    requires a in schema && b in schema && schema[a].StringField? && schema[b].StringField?
    ensures var v := OrDefault(r.known[a], x);
            var w := OrDefault(r.known[b], y);
            var r' := r.(known := r.known[a := v][b := w]);
            && Typed(schema, r') && v != Text("") && w != Text("")
            && Encode(schema, r') == Encode(schema, r)[a := v][b := w]
  {
    var v := OrDefault(r.known[a], x);
    EncodeUpdate(schema, r, a, v);
    EncodeUpdate(schema, r.(known := r.known[a := v]), b, OrDefault(r.known[b], y));
  }

  lemma FilledIsSame(schema: Schema, rest: Object, a: Key, v: Json, b: Key, w: Json)
    requires a in schema && b in schema && a != b && !Dropped(schema, a, v) && !Dropped(schema, b, w)
    requires a in rest && !Dropped(schema, a, rest[a]) ==> v == rest[a]
    requires b in rest && !Dropped(schema, b, rest[b]) ==> w == rest[b]
    ensures NonEmpty(schema, rest)[a := v][b := w] == rest <==>
              a in rest && b in rest && forall k :: k in rest ==> !Dropped(schema, k, rest[k])
  {
    var out := NonEmpty(schema, rest)[a := v][b := w];
    if out == rest {
      forall k | k in rest ensures !Dropped(schema, k, rest[k]) {
        assert k in out && out[k] == rest[k];
      }
    }
  }

  lemma HeadKeptIff(rest: Object)
    requires Decodable(HEAD_SCHEMA, rest)
    ensures Encode(HEAD_SCHEMA, HeadOf(rest)) == rest <==> TidyHead(rest)
  {
    var head := HeadOf(rest);
    HeadKept(rest);
    FilledIsSame(HEAD_SCHEMA, rest, ApiVersion, head.known[ApiVersion], FileKind, head.known[FileKind]);
  }

  // Parse gives a value for every field, and the defaults.
  lemma ParseIsWellFormed(o: Object, f: File)
    requires Parse(o) == Some(f)
    ensures WellFormed(f)
  {
    HeadKept(o - LISTS);
    EntriesTyped(ClusterKey, CLUSTER_SCHEMA, ItemsOf(Clusters, o));
    EntriesTyped(ContextKey, CONTEXT_SCHEMA, ItemsOf(Contexts, o));
    EntriesTyped(UserKey, USER_SCHEMA, ItemsOf(Users, o));
    PartsWellFormed(f);
  }

  lemma PartsWellFormed(f: File)
    requires Typed(HEAD_SCHEMA, f.head) && f.head.unknown.Keys !! LISTS
    requires f.head.known[ApiVersion] != Text("") && f.head.known[FileKind] != Text("")
    requires AllTyped(CLUSTER_SCHEMA, f.clusters) && AllTyped(CONTEXT_SCHEMA, f.contexts)
    requires AllTyped(USER_SCHEMA, f.users)
    ensures WellFormed(f)
  {
  }

  lemma ListWrittenIff(list: Key, inner: Key, schema: Schema, o: Object, encoded: Json, tidy: bool)
    requires encoded.Arr? && (tidy <==> encoded == Arr(ItemsOf(list, o)))
    requires tidy == TidyEntries(inner, schema, ItemsOf(list, o))
    ensures TidyList(list, inner, schema, o) <==> list in o && encoded == o[list]
  {
  }

  lemma EntriesWrittenIff(inner: Key, schema: Schema, items: seq<Json>, encoded: Json)
    requires inner != Name && EntriesDecodable(inner, schema, items)
    requires encoded == EncodeList(inner, schema, DecodeEntries(inner, schema, items))
    ensures encoded.Arr? && (TidyEntries(inner, schema, items) <==> encoded == Arr(items))
  {
    EntriesKept(inner, schema, items);
  }

  // A file is written back exactly as it was read if and only if it is tidy;
  // in every file, the keys File does not know keep their values.
  lemma ParseThenSave(o: Object, f: File)
    requires Parse(o) == Some(f)
    ensures Saved(f) == o <==> Tidy(o)
    ensures forall k :: k !in HEAD_SCHEMA && k !in LISTS ==>
              (k in Saved(f) <==> k in o) && (k in o ==> Saved(f)[k] == o[k])
  {
    HeadApart();
    var clusters := EncodeList(ClusterKey, CLUSTER_SCHEMA, f.clusters);
    EntriesWrittenIff(ClusterKey, CLUSTER_SCHEMA, ItemsOf(Clusters, o), clusters);
    ListWrittenIff(Clusters, ClusterKey, CLUSTER_SCHEMA, o, clusters,
                   TidyEntries(ClusterKey, CLUSTER_SCHEMA, ItemsOf(Clusters, o)));
    var contexts := EncodeList(ContextKey, CONTEXT_SCHEMA, f.contexts);
    EntriesWrittenIff(ContextKey, CONTEXT_SCHEMA, ItemsOf(Contexts, o), contexts);
    ListWrittenIff(Contexts, ContextKey, CONTEXT_SCHEMA, o, contexts,
                   TidyEntries(ContextKey, CONTEXT_SCHEMA, ItemsOf(Contexts, o)));
    var users := EncodeList(UserKey, USER_SCHEMA, f.users);
    EntriesWrittenIff(UserKey, USER_SCHEMA, ItemsOf(Users, o), users);
    ListWrittenIff(Users, UserKey, USER_SCHEMA, o, users,
                   TidyEntries(UserKey, USER_SCHEMA, ItemsOf(Users, o)));
    HeadKept(o - LISTS);
    HeadKeptIff(o - LISTS);
    SavedIs(o, f);
  }

  lemma SavedIs(o: Object, f: File)
    requires f.head.unknown.Keys !! LISTS && HEAD_SCHEMA.Keys !! LISTS
    ensures var out := Saved(f);
            && (out == o <==>
                 && Encode(HEAD_SCHEMA, f.head) == o - LISTS
                 && Clusters in o && o[Clusters] == EncodeList(ClusterKey, CLUSTER_SCHEMA, f.clusters)
                 && Contexts in o && o[Contexts] == EncodeList(ContextKey, CONTEXT_SCHEMA, f.contexts)
                 && Users in o && o[Users] == EncodeList(UserKey, USER_SCHEMA, f.users))
            && (forall k :: k !in LISTS ==> (k in out <==> k in Encode(HEAD_SCHEMA, f.head)))
            && (forall k :: k !in LISTS && k in out ==> out[k] == Encode(HEAD_SCHEMA, f.head)[k])
  {
    PutBack(o, Encode(HEAD_SCHEMA, f.head), EncodeList(ClusterKey, CLUSTER_SCHEMA, f.clusters),
            EncodeList(ContextKey, CONTEXT_SCHEMA, f.contexts), EncodeList(UserKey, USER_SCHEMA, f.users));
  }

  lemma PutBack(o: Object, head: Object, clusters: Json, contexts: Json, users: Json)
    requires head.Keys !! LISTS
    ensures var out := WithLists(head, clusters, contexts, users);
            && (out == o <==>
                 && head == o - LISTS
                 && Clusters in o && o[Clusters] == clusters
                 && Contexts in o && o[Contexts] == contexts
                 && Users in o && o[Users] == users)
            && (forall k :: k !in LISTS ==> (k in out <==> k in head))
            && (forall k :: k !in LISTS && k in out ==> out[k] == head[k])
  {
    var out := WithLists(head, clusters, contexts, users);
    ListsAside(head, clusters, contexts, users);
    if && head == o - LISTS && Clusters in o && o[Clusters] == clusters
       && Contexts in o && o[Contexts] == contexts && Users in o && o[Users] == users {
      assert forall k :: k !in LISTS ==> (k in o <==> k in head) && (k in head ==> o[k] == head[k]);
      assert o == out;
    }
  }

  // ---------- Two files that do not survive ----------

  // A kubeconfig with these clusters and nothing else.
  function OnlyClusters(clusters: seq<Json>): Object {
    map[ApiVersion := Text("v1"), FileKind := Text("Config"),
        Clusters := Arr(clusters), Contexts := Arr([]), Users := Arr([])]
  }

  lemma OnlyClustersParses(items: seq<Json>)
    requires EntriesDecodable(ClusterKey, CLUSTER_SCHEMA, items)
    ensures Parse(OnlyClusters(items)).Some?
    ensures Saved(Parse(OnlyClusters(items)).value)[Clusters]
         == EncodeList(ClusterKey, CLUSTER_SCHEMA, DecodeEntries(ClusterKey, CLUSTER_SCHEMA, items))
  {
    var o := OnlyClusters(items);
    assert ItemsOf(Clusters, o) == items && ItemsOf(Contexts, o) == [] && ItemsOf(Users, o) == [];
  }

  function WithSibling(key: string, value: Json): Json {
    Obj(map[Name := Text("c"), ClusterKey := Obj(map[]), OtherKey(key) := value])
  }

  lemma SiblingDropped(key: string, value: Json)
    ensures var item := WithSibling(key, value);
            && EntryDecodable(ClusterKey, CLUSTER_SCHEMA, item)
            && EncodeEntry(ClusterKey, CLUSTER_SCHEMA, DecodeEntry(ClusterKey, CLUSTER_SCHEMA, item))
            == Wrapper(ClusterKey, "c", map[])
            && Wrapper(ClusterKey, "c", map[]) != item
  {
    var item := WithSibling(key, value);
    assert BodyOf(ClusterKey, item) == map[] && NameOf(item) == "c";
    EntryKept(ClusterKey, CLUSTER_SCHEMA, item);
    assert NonEmpty(CLUSTER_SCHEMA, map[]) == map[];
    assert OtherKey(key) in item.members && OtherKey(key) !in Wrapper(ClusterKey, "c", map[]).members;
  }

  // A key beside the name and body of a named entry is gone after a save.
  lemma LostSiblingWitness(key: string, value: Json)
    ensures var o := OnlyClusters([WithSibling(key, value)]);
            && Parse(o).Some? && Saved(Parse(o).value) != o
            && Saved(Parse(o).value)[Clusters] == Arr([Wrapper(ClusterKey, "c", map[])])
  {
    var item := WithSibling(key, value);
    SiblingDropped(key, value);
    OnlyClustersParses([item]);
    OneEntry(item, Wrapper(ClusterKey, "c", map[]));
    assert OnlyClusters([item])[Clusters] == Arr([item]);
    assert [item][0] != [Wrapper(ClusterKey, "c", map[])][0];
  }

  lemma OneEntry(item: Json, written: Json)
    requires EncodeEntry(ClusterKey, CLUSTER_SCHEMA, DecodeEntry(ClusterKey, CLUSTER_SCHEMA, item)) == written
    ensures EncodeList(ClusterKey, CLUSTER_SCHEMA, DecodeEntries(ClusterKey, CLUSTER_SCHEMA, [item])) == Arr([written])
  {
    var out := EncodeList(ClusterKey, CLUSTER_SCHEMA, DecodeEntries(ClusterKey, CLUSTER_SCHEMA, [item]));
    assert |out.items| == 1 && out.items[0] == written;
  }

  // A known top-level key other than the two with defaults is written exactly
  // when it was there and not empty.
  lemma HeadKeyWrittenIff(o: Object, f: File, k: Key)
    requires Parse(o) == Some(f) && k in HEAD_SCHEMA && k != ApiVersion && k != FileKind
    ensures k in Saved(f) <==> k in o && !Dropped(HEAD_SCHEMA, k, o[k])
  {
    var head := Encode(HEAD_SCHEMA, f.head);
    HeadFieldWrittenIff(o - LISTS, k, head);
    HeadApart();
    ListsAside(head, EncodeList(ClusterKey, CLUSTER_SCHEMA, f.clusters),
               EncodeList(ContextKey, CONTEXT_SCHEMA, f.contexts), EncodeList(UserKey, USER_SCHEMA, f.users));
    assert k in head <==> k in Saved(f) - LISTS;
  }

  lemma HeadFieldWrittenIff(rest: Object, k: Key, head: Object)
    requires Decodable(HEAD_SCHEMA, rest) && head == Encode(HEAD_SCHEMA, HeadOf(rest))
    requires k in HEAD_SCHEMA && k != ApiVersion && k != FileKind
    ensures k in head <==> k in rest && !Dropped(HEAD_SCHEMA, k, rest[k])
  {
    HeadKept(rest);
    assert k in NonEmpty(HEAD_SCHEMA, rest) <==> k in rest && !Dropped(HEAD_SCHEMA, k, rest[k]);
  }

  // So are empty preferences, which kubectl writes.
  lemma LostPreferencesWitness()
    ensures var o := OnlyClusters([])[Preferences := Obj(map[])];
            Parse(o).Some? && Preferences in o && Preferences !in Saved(Parse(o).value)
  {
    var o := OnlyClusters([])[Preferences := Obj(map[])];
    assert o[Clusters] == Arr([]) && o[Contexts] == Arr([]) && o[Users] == Arr([]);
    assert o[ApiVersion] == Text("v1") && o[FileKind] == Text("Config") && o[Preferences] == Obj(map[]);
    HeadKeyWrittenIff(o, Parse(o).value, Preferences);
  }
}
