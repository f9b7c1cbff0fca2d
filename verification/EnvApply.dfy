/** pkg/envsubst: Apply over a configuration value. Which strings may hold a
    reference is the schema's decision; nothing else gets one through. */
module EnvApply {
  import opened Wrappers
  import Strings
  import opened Envsubst

  // A Go value as reflection sees it. A struct lists its exported fields.
  datatype Tree =
    | Str(text: string)
    | Struct(fields: seq<Field>)
    | Slice(items: seq<Tree>)
    | Array(elements: seq<Tree>)
    | Dict(entries: seq<Entry>)    // in the order the range visits them
    | Pointer(target: Tree)
    | Interface(dynamic: Tree)
    | Other                        // numbers, bools, nil

  datatype Field = Field(tagged: bool, value: Tree)

  datatype Entry = Entry(key: Tree, value: Tree)

  datatype Problem = ReferenceInKey | NotSupportedHere | Undefined(name: string)

  // containsRef
  predicate ContainsRef(s: string) {
    Strings.Contains(s, "${")
  }

  // applyString; `settable` is whether the caller's set callback stores the string.
  function ApplyString(s: string, tagged: bool, settable: bool, lookup: Lookup): Result<string, Problem> {
    if !ContainsRef(s) then Success(s)
    else if !tagged then Failure(NotSupportedHere)
    else
      match Expand(s, lookup)
      case Failure(name) => Failure(Undefined(name))
      case Success(t) => Success(if settable then t else s)
  }

  // A part of a value, with the key in front of it in a map.
  datatype Part = Part(key: Option<string>, value: Tree, tagged: bool, settable: bool)

  // The parts walk descends into. The tag of a field covers the elements of a
  // slice, array or map in it, and what a pointer leads to, but no nested
  // struct; what an interface holds directly cannot be set.
  function Parts(v: Tree, tagged: bool, settable: bool): (parts: seq<Part>)
    ensures forall i :: 0 <= i < |parts| ==> parts[i].value < v
    ensures |parts| == Size(v)
  {
    match v
    case Str(_) => []
    case Other => []
    case Struct(fields) =>
      seq(|fields|, i requires 0 <= i < |fields| => Part(None, fields[i].value, fields[i].tagged, settable))
    case Slice(items) => seq(|items|, i requires 0 <= i < |items| => Part(None, items[i], tagged, true))
    case Array(elements) => seq(|elements|, i requires 0 <= i < |elements| => Part(None, elements[i], tagged, settable))
    case Dict(entries) =>
      seq(|entries|, i requires 0 <= i < |entries| => Part(KeyText(entries[i].key), entries[i].value, tagged, true))
    case Pointer(target) => [Part(None, target, tagged, true)]
    case Interface(dynamic) => [Part(None, dynamic, tagged, false)]
  }

  function KeyText(key: Tree): Option<string> {
    if key.Str? then Some(key.text) else None
  }

  function Size(v: Tree): nat {
    match v
    case Str(_) => 0
    case Other => 0
    case Struct(fields) => |fields|
    case Slice(items) => |items|
    case Array(elements) => |elements|
    case Dict(entries) => |entries|
    case Pointer(_) => 1
    case Interface(_) => 1
  }

  // The same value with new parts in place.
  function WithParts(v: Tree, values: seq<Tree>): Tree
    requires |values| == Size(v)
  {
    match v
    case Str(_) => v
    case Other => v
    case Struct(fields) => Struct(seq(|fields|, i requires 0 <= i < |fields| => fields[i].(value := values[i])))
    case Slice(_) => Slice(values)
    case Array(_) => Array(values)
    case Dict(entries) => Dict(seq(|entries|, i requires 0 <= i < |entries| => entries[i].(value := values[i])))
    case Pointer(_) => Pointer(values[0])
    case Interface(_) => Interface(values[0])
  }

  // walk
  function Walk(v: Tree, tagged: bool, settable: bool, lookup: Lookup): Result<Tree, Problem>
    decreases v
  {
    if v.Str? then
      match ApplyString(v.text, tagged, settable, lookup)
      case Failure(p) => Failure(p)
      case Success(t) => Success(Str(t))
    else
      match WalkParts(v, Parts(v, tagged, settable), lookup)
      case Failure(p) => Failure(p)
      case Success(values) => Success(WithParts(v, values))
  }

  function WalkParts(ghost whole: Tree, parts: seq<Part>, lookup: Lookup): (r: Result<seq<Tree>, Problem>)
    requires forall i :: 0 <= i < |parts| ==> parts[i].value < whole
    ensures r.Success? ==> |r.value| == |parts|
    decreases whole, |parts|
  {
    if parts == [] then Success([])
    else if parts[0].key.Some? && ContainsRef(parts[0].key.value) then Failure(ReferenceInKey)
    else
      match Walk(parts[0].value, parts[0].tagged, parts[0].settable, lookup)
      case Failure(p) => Failure(p)
      case Success(value) =>
        match WalkParts(whole, parts[1..], lookup)
        case Failure(p) => Failure(p)
        case Success(values) => Success([value] + values)
  }

  // Apply, on what the pointer leads to.
  function Apply(v: Tree, lookup: Lookup): Result<Tree, Problem> {
    Walk(v, false, true, lookup)
  }

  // ---------- What Apply promises, string by string ----------

  datatype Role = Key | Untagged | Tagged

  datatype Leaf = Leaf(text: string, role: Role, settable: bool)

  // Every string of the value in the order walk meets them.
  function Leaves(v: Tree, tagged: bool, settable: bool): seq<Leaf>
    decreases v
  {
    if v.Str? then [Leaf(v.text, if tagged then Tagged else Untagged, settable)]
    else PartLeaves(v, Parts(v, tagged, settable))
  }

  function PartLeaves(ghost whole: Tree, parts: seq<Part>): seq<Leaf>
    requires forall i :: 0 <= i < |parts| ==> parts[i].value < whole
    decreases whole, |parts|
  {
    if parts == [] then []
    else KeyLeaf(parts[0].key) + Leaves(parts[0].value, parts[0].tagged, parts[0].settable)
         + PartLeaves(whole, parts[1..])
  }

  function KeyLeaf(key: Option<string>): seq<Leaf> {
    match key
    case None => []
    case Some(text) => [Leaf(text, Key, false)]
  }

  // The policy for one string.
  function Judge(leaf: Leaf, lookup: Lookup): Option<Problem> {
    if !ContainsRef(leaf.text) then None
    else
      match leaf.role
      case Key => Some(ReferenceInKey)
      case Untagged => Some(NotSupportedHere)
      case Tagged =>
        match Meaning(Tokens(leaf.text), lookup)
        case Failure(name) => Some(Undefined(name))
        case Success(_) => None
  }

  // The text an accepted string ends with.
  function Final(leaf: Leaf, lookup: Lookup): Leaf
    requires Judge(leaf, lookup).None?
  {
    if leaf.role.Tagged? && leaf.settable && ContainsRef(leaf.text)
    then leaf.(text := Restore(Meaning(Tokens(leaf.text), lookup).value))
    else leaf
  }

  function FirstProblem(leaves: seq<Leaf>, lookup: Lookup): (p: Option<Problem>)
    ensures p.None? <==> forall i :: 0 <= i < |leaves| ==> Judge(leaves[i], lookup).None?
  {
    if leaves == [] then None
    else if Judge(leaves[0], lookup).Some? then Judge(leaves[0], lookup)
    else FirstProblem(leaves[1..], lookup)
  }

  // What a walk over these strings has to give.
  ghost predicate Explains(before: seq<Leaf>, problem: Option<Problem>, after: seq<Leaf>, lookup: Lookup) {
    && problem == FirstProblem(before, lookup)
    && (problem.None? ==>
         && |after| == |before|
         && forall i :: 0 <= i < |before| ==> after[i] == Final(before[i], lookup))
  }

  lemma {:induction false} FirstProblemConcat(a: seq<Leaf>, b: seq<Leaf>, lookup: Lookup)
    ensures FirstProblem(a + b, lookup)
         == if FirstProblem(a, lookup).Some? then FirstProblem(a, lookup) else FirstProblem(b, lookup)
  {
    if a == [] {
      assert a + b == b;
    } else {
      assert (a + b)[1..] == a[1..] + b;
      FirstProblemConcat(a[1..], b, lookup);
    }
  }

  lemma ExplainsConcat(a: seq<Leaf>, p: Option<Problem>, a': seq<Leaf>,
                       b: seq<Leaf>, q: Option<Problem>, b': seq<Leaf>, lookup: Lookup)
    requires Explains(a, p, a', lookup) && Explains(b, q, b', lookup)
    ensures Explains(a + b, if p.Some? then p else q, a' + b', lookup)
  {
    FirstProblemConcat(a, b, lookup);
    if p.None? && q.None? {
      FinalsConcat(a, a', b, b', a + b, a' + b', lookup);
    }
  }

  lemma FinalsConcat(a: seq<Leaf>, a': seq<Leaf>, b: seq<Leaf>, b': seq<Leaf>,
                     whole: seq<Leaf>, whole': seq<Leaf>, lookup: Lookup)
    requires whole == a + b && whole' == a' + b' && |a'| == |a| && |b'| == |b|
    requires forall i :: 0 <= i < |a| ==> Judge(a[i], lookup).None? && a'[i] == Final(a[i], lookup)
    requires forall i :: 0 <= i < |b| ==> Judge(b[i], lookup).None? && b'[i] == Final(b[i], lookup)
    ensures forall i :: 0 <= i < |whole| ==> Judge(whole[i], lookup).None? && whole'[i] == Final(whole[i], lookup)
  {
    forall i | 0 <= i < |whole|
      ensures Judge(whole[i], lookup).None? && whole'[i] == Final(whole[i], lookup)
    {
      if i < |a| {
        assert whole[i] == a[i] && whole'[i] == a'[i];
      } else {
        assert whole[i] == b[i - |a|] && whole'[i] == b'[i - |a|];
      }
    }
  }

  function ErrorOf<T>(r: Result<T, Problem>): Option<Problem> {
    match r
    case Failure(p) => Some(p)
    case Success(_) => None
  }

  function LeavesAfter(r: Result<Tree, Problem>, tagged: bool, settable: bool): seq<Leaf> {
    match r
    case Failure(_) => []
    case Success(v) => Leaves(v, tagged, settable)
  }

  lemma {:induction false} WalkExplained(v: Tree, tagged: bool, settable: bool, lookup: Lookup)
    ensures var r := Walk(v, tagged, settable, lookup);
            Explains(Leaves(v, tagged, settable), ErrorOf(r), LeavesAfter(r, tagged, settable), lookup)
    decreases v
  {
    if v.Str? {
      StringExplained(v.text, tagged, settable, lookup);
    } else {
      PartsExplained(v, Parts(v, tagged, settable), lookup);
      var r := WalkParts(v, Parts(v, tagged, settable), lookup);
      if r.Success? {
        NewParts(v, r.value, tagged, settable);
        var after := WithParts(v, r.value);
        PartLeavesFlat(after, NewValues(Parts(v, tagged, settable), r.value));
      }
    }
  }

  lemma StringExplained(s: string, tagged: bool, settable: bool, lookup: Lookup)
    ensures var r := Walk(Str(s), tagged, settable, lookup);
            Explains(Leaves(Str(s), tagged, settable), ErrorOf(r), LeavesAfter(r, tagged, settable), lookup)
  {
    ExpandIsOneReading(s, lookup);
    if ContainsRef(s) {
      HasDollar(s);
    }
    assert Leaves(Str(s), tagged, settable)[1..] == [];
  }

  lemma {:induction false} HasDollar(s: string)
    requires ContainsRef(s)
    ensures '$' in s
  {
    if "${" <= s {
      assert s[0] == '$';
    } else {
      HasDollar(s[1..]);
    }
  }

  function NewValues(parts: seq<Part>, values: seq<Tree>): seq<Part>
    requires |values| == |parts|
  {
    seq(|parts|, i requires 0 <= i < |parts| => parts[i].(value := values[i]))
  }

  // The rebuilt value has the new parts, under the same tags and keys.
  lemma NewParts(v: Tree, values: seq<Tree>, tagged: bool, settable: bool)
    requires !v.Str? && |values| == Size(v)
    ensures Parts(WithParts(v, values), tagged, settable) == NewValues(Parts(v, tagged, settable), values)
  {
  }

  lemma {:induction false} PartsExplained(whole: Tree, parts: seq<Part>, lookup: Lookup)
    requires forall i :: 0 <= i < |parts| ==> parts[i].value < whole
    ensures var r := WalkParts(whole, parts, lookup);
            Explains(PartLeaves(whole, parts), ErrorOf(r), AllLeaves(r, parts), lookup)
    decreases whole, |parts|
  {
    if parts != [] {
      var part := parts[0];
      var r := Walk(part.value, part.tagged, part.settable, lookup);
      var rest := WalkParts(whole, parts[1..], lookup);
      WalkExplained(part.value, part.tagged, part.settable, lookup);
      PartsExplained(whole, parts[1..], lookup);
      var leaves := Leaves(part.value, part.tagged, part.settable);
      var after := LeavesAfter(r, part.tagged, part.settable);
      KeyExplained(part.key, lookup);
      var keyProblem := FirstProblem(KeyLeaf(part.key), lookup);
      ExplainsConcat(KeyLeaf(part.key), keyProblem, KeyLeaf(part.key), leaves, ErrorOf(r), after, lookup);
      var problem := if keyProblem.Some? then keyProblem else ErrorOf(r);
      ExplainsConcat(KeyLeaf(part.key) + leaves, problem, KeyLeaf(part.key) + after,
                     PartLeaves(whole, parts[1..]), ErrorOf(rest), AllLeaves(rest, parts[1..]), lookup);
      if problem.None? && rest.Success? {
        NewPartsSplit(parts, r.value, rest.value);
      }
    }
  }

  lemma KeyExplained(key: Option<string>, lookup: Lookup)
    ensures Explains(KeyLeaf(key), FirstProblem(KeyLeaf(key), lookup), KeyLeaf(key), lookup)
    ensures FirstProblem(KeyLeaf(key), lookup)
         == if key.Some? && ContainsRef(key.value) then Some(ReferenceInKey) else None
  {
    assert key.Some? ==> KeyLeaf(key)[1..] == [];
  }

  lemma NewPartsSplit(parts: seq<Part>, value: Tree, values: seq<Tree>)
    requires |parts| == |values| + 1
    ensures FlatLeaves(NewValues(parts, [value] + values))
         == KeyLeaf(parts[0].key) + Leaves(value, parts[0].tagged, parts[0].settable)
            + FlatLeaves(NewValues(parts[1..], values))
  {
    var all := NewValues(parts, [value] + values);
    assert all[0] == parts[0].(value := value);
    assert all[1..] == NewValues(parts[1..], values);
  }

  function AllLeaves(r: Result<seq<Tree>, Problem>, parts: seq<Part>): seq<Leaf>
    requires r.Success? ==> |r.value| == |parts|
  {
    match r
    case Failure(_) => []
    case Success(values) => FlatLeaves(NewValues(parts, values))
  }

  function FlatLeaves(parts: seq<Part>): seq<Leaf> {
    if parts == [] then []
    else KeyLeaf(parts[0].key) + Leaves(parts[0].value, parts[0].tagged, parts[0].settable) + FlatLeaves(parts[1..])
  }

  lemma {:induction false} PartLeavesFlat(whole: Tree, parts: seq<Part>)
    requires forall i :: 0 <= i < |parts| ==> parts[i].value < whole
    ensures PartLeaves(whole, parts) == FlatLeaves(parts)
  {
    if parts != [] {
      PartLeavesFlat(whole, parts[1..]);
    }
  }

  // Apply succeeds exactly when no key and no untagged string has a reference
  // and every tagged one can be expanded; it then changes tagged strings with a
  // reference to their meaning and leaves every other string alone. Otherwise
  // it reports the first string, in walking order, that breaks the policy.
  lemma ApplyFollowsPolicy(v: Tree, lookup: Lookup)
    ensures var r := Apply(v, lookup);
            var before := Leaves(v, false, true);
            && (r.Success? <==> forall i :: 0 <= i < |before| ==> Judge(before[i], lookup).None?)
            && (r.Failure? ==> FirstProblem(before, lookup) == Some(r.error))
            && (r.Success? ==>
                 var after := Leaves(r.value, false, true);
                 && |after| == |before|
                 && forall i :: 0 <= i < |before| ==> after[i] == Final(before[i], lookup))
  {
    WalkExplained(v, false, true, lookup);
    assert FirstProblem(Leaves(v, false, true), lookup) == ErrorOf(Apply(v, lookup));
  }

  // A tagged string without a reference is kept as written, although Expand
  // would read `$$` in it: the two agree exactly without `$$` (and NUL).
  lemma TaggedTextIsKeptAsWritten(s: string, settable: bool, lookup: Lookup)
    requires !ContainsRef(s)
    ensures ApplyString(s, true, settable, lookup) == Success(s)
    ensures Expand(s, lookup) == Success(s) <==> '$' !in s || (!Strings.Contains(s, "$$") && NUL !in s)
  {
    ExpandIsOneReading(s, lookup);
    PlainMeaning(s, lookup);
    UnescapeShrinks(s);
    RestoreLength(Unescape(s));
    RestoreId(s);
  }

  // Such a string: applied it keeps both dollars, expanded it has one.
  lemma TaggedTextWitness(settable: bool, lookup: Lookup)
    ensures ApplyString("a$$b", true, settable, lookup) == Success("a$$b")
    ensures Expand("a$$b", lookup) == Success("a$b")
  {
    var s := "a$$b";
    assert s[1..] == "$$b" && s[1..][1..] == "$b" && s[1..][1..][1..] == "b" && s[1..][1..][1..][1..] == "";
    assert !ContainsRef("b") && !ContainsRef("$b") && !ContainsRef("$$b");
    assert Unescape("b") == "b" && "$$b"[2..] == "b";
    assert Unescape("$$b") == "$b";
    assert Unescape(s) == "a$b";
    PlainMeaning(s, lookup);
    ExpandIsOneReading(s, lookup);
    RestoreId("a$b");
  }

  lemma {:induction false} PlainMeaning(s: string, lookup: Lookup)
    requires !ContainsRef(s)
    ensures Meaning(Tokens(s), lookup) == Success(Unescape(s))
    decreases |s|
  {
    if |s| >= 2 && s[0] == '$' && s[1] == '$' {
      NoRefInside(s);
      PlainMeaning(s[2..], lookup);
      ConsText('$', Tokens(s[2..]), Unescape(s[2..]), lookup);
    } else if s != "" {
      PlainMeaning(s[1..], lookup);
      NotARef(s);
      ConsText(s[0], Tokens(s[1..]), Unescape(s[1..]), lookup);
    }
  }

  lemma NotARef(s: string)
    ensures MatchRef(s).Some? ==> ContainsRef(s)
  {
    if |s| >= 2 && s[0] == '$' && s[1] == '{' {
      assert "${" <= s;
    }
  }

  lemma NoRefInside(s: string)
    requires |s| >= 2 && !ContainsRef(s)
    ensures !ContainsRef(s[2..])
  {
    assert !Strings.Contains(s[1..], "${");
    assert s[1..][1..] == s[2..];
  }

  lemma {:induction false} UnescapeShrinks(s: string)
    ensures |Unescape(s)| <= |s|
    ensures Strings.Contains(s, "$$") ==> |Unescape(s)| < |s|
    ensures !Strings.Contains(s, "$$") ==> Unescape(s) == s
  {
    StartsWithPair(s);
    if |s| >= 2 && s[0] == '$' && s[1] == '$' {
      UnescapeShrinks(s[2..]);
    } else if s != "" {
      UnescapeShrinks(s[1..]);
      assert s == [s[0]] + s[1..];
    }
  }

  lemma StartsWithPair(s: string)
    ensures "$$" <= s <==> |s| >= 2 && s[0] == '$' && s[1] == '$'
  {
    assert "$$"[0] == '$' && "$$"[1] == '$';
  }

  lemma {:induction false} RestoreLength(s: string)
    ensures |Restore(s)| == |s|
  {
    if s != "" {
      RestoreLength(s[1..]);
    }
  }
}
