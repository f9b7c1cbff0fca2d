/** pkg/envsubst: what Apply does to the string at a path of a configuration value.
    The tag of the nearest field around a string decides, and nothing above it. */
module EnvPaths {
  import opened Wrappers
  import Strings
  import opened Envsubst
  import opened EnvApply

  // One step down into a value.
  datatype Step =
    | InField(i: nat)
    | InSlice(i: nat)
    | InArray(i: nat)
    | InMap(i: nat)
    | ThroughPointer
    | InInterface

  function Child(v: Tree, step: Step): Option<Tree> {
    match step
    case InField(i) => if v.Struct? && i < |v.fields| then Some(v.fields[i].value) else None
    case InSlice(i) => if v.Slice? && i < |v.items| then Some(v.items[i]) else None
    case InArray(i) => if v.Array? && i < |v.elements| then Some(v.elements[i]) else None
    case InMap(i) => if v.Dict? && i < |v.entries| then Some(v.entries[i].value) else None
    case ThroughPointer => if v.Pointer? then Some(v.target) else None
    case InInterface => if v.Interface? then Some(v.dynamic) else None
  }

  function At(v: Tree, path: seq<Step>): Option<Tree>
    decreases |path|
  {
    if path == [] then Some(v)
    else match Child(v, path[0])
      case None => None
      case Some(child) => At(child, path[1..])
  }

  // The tag of the last field on the way, or that of what is around.
  function TagAt(v: Tree, path: seq<Step>, outer: bool): bool
    decreases |path|
  {
    if path == [] then outer
    else match Child(v, path[0])
      case None => outer
      case Some(child) =>
        TagAt(child, path[1..], if path[0].InField? then v.fields[path[0].i].tagged else outer)
  }

  // Whether a string there can be stored back: slices, maps and pointers make it
  // so, what an interface holds cannot be, and the rest is as its surroundings.
  function StorableAt(path: seq<Step>, outer: bool): bool
    decreases |path|
  {
    if path == [] then outer
    else
      var here := match path[0]
                  case InSlice(_) => true
                  case InMap(_) => true
                  case ThroughPointer => true
                  case InInterface => false
                  case InField(_) => outer
                  case InArray(_) => outer;
      StorableAt(path[1..], here)
  }

  // A reference may start wherever a dollar is followed by a brace.
  lemma ContainsRefIff(s: string)
    ensures ContainsRef(s) <==> exists i :: 0 <= i <= |s| && "${" <= s[i..]
  {
    Strings.ContainsIff(s, "${");
  }

  // A part of the value in the order walk descends into them.
  function Index(step: Step): nat {
    match step
    case InField(i) => i
    case InSlice(i) => i
    case InArray(i) => i
    case InMap(i) => i
    case ThroughPointer => 0
    case InInterface => 0
  }

  lemma ChildIsPart(v: Tree, step: Step, tagged: bool, settable: bool)
    requires Child(v, step).Some?
    ensures Index(step) < |Parts(v, tagged, settable)| && !v.Str?
    ensures var part := Parts(v, tagged, settable)[Index(step)];
            && part.value == Child(v, step).value
            && part.tagged == TagAt(v, [step], tagged) && part.settable == StorableAt([step], settable)
  {
    assert [step][1..] == [];
  }

  lemma PartIsChild(v: Tree, i: nat, tagged: bool, settable: bool) returns (step: Step)
    requires i < |Parts(v, tagged, settable)|
    ensures Child(v, step).Some? && Index(step) == i
  {
    step := match v
      case Struct(_) => InField(i)
      case Slice(_) => InSlice(i)
      case Array(_) => InArray(i)
      case Dict(_) => InMap(i)
      case Pointer(_) => ThroughPointer
      case _ => InInterface;
  }

  lemma {:induction false} PartsWalked(whole: Tree, parts: seq<Part>, lookup: Lookup, i: nat)
    requires forall j :: 0 <= j < |parts| ==> parts[j].value < whole
    requires WalkParts(whole, parts, lookup).Success? && i < |parts|
    ensures var r := Walk(parts[i].value, parts[i].tagged, parts[i].settable, lookup);
            r == Success(WalkParts(whole, parts, lookup).value[i])
    ensures parts[i].key.Some? ==> !ContainsRef(parts[i].key.value)
    decreases |parts|
  {
    if i > 0 {
      PartsWalked(whole, parts[1..], lookup, i - 1);
    }
  }

  lemma NewChild(v: Tree, values: seq<Tree>, step: Step)
    requires |values| == Size(v) && Child(v, step).Some?
    ensures Index(step) < |values| && Child(WithParts(v, values), step) == Some(values[Index(step)])
  {
  }

  // One step of a walk that succeeds.
  lemma WalkChild(v: Tree, step: Step, tagged: bool, settable: bool, lookup: Lookup)
    requires Walk(v, tagged, settable, lookup).Success? && Child(v, step).Some?
    ensures var r := Walk(Child(v, step).value, TagAt(v, [step], tagged), StorableAt([step], settable), lookup);
            r.Success? && Child(Walk(v, tagged, settable, lookup).value, step) == Some(r.value)
  {
    ChildIsPart(v, step, tagged, settable);
    var parts := Parts(v, tagged, settable);
    PartsWalked(v, parts, lookup, Index(step));
    NewChild(v, WalkParts(v, parts, lookup).value, step);
  }

  lemma OneStep(v: Tree, path: seq<Step>, tagged: bool, settable: bool)
    requires path != [] && Child(v, path[0]).Some?
    ensures var child := Child(v, path[0]).value;
            && At(v, path) == At(child, path[1..])
            && TagAt(v, path, tagged) == TagAt(child, path[1..], TagAt(v, [path[0]], tagged))
            && StorableAt(path, settable) == StorableAt(path[1..], StorableAt([path[0]], settable))
  {
    assert [path[0]][1..] == [];
  }

  // What becomes of the string at a path, and that the policy let it through.
  lemma {:induction false} WalkAt(v: Tree, path: seq<Step>, s: string, tagged: bool, settable: bool, lookup: Lookup)
    requires Walk(v, tagged, settable, lookup).Success? && At(v, path) == Some(Str(s))
    ensures ContainsRef(s) ==> TagAt(v, path, tagged) && Expand(s, lookup).Success?
    ensures At(Walk(v, tagged, settable, lookup).value, path)
         == Some(Str(if ContainsRef(s) && StorableAt(path, settable) then Expand(s, lookup).value else s))
    decreases |path|
  {
    if path != [] {
      var step := path[0];
      var tag, store := TagAt(v, [step], tagged), StorableAt([step], settable);
      OneStep(v, path, tagged, settable);
      WalkChild(v, step, tagged, settable, lookup);
      WalkAt(Child(v, step).value, path[1..], s, tag, store, lookup);
      OneStep(Walk(v, tagged, settable, lookup).value, path, tagged, settable);
    }
  }

  // What Apply refuses: a reference in a map key, or one in a string that no field
  // right around it allows, or that does not expand.
  datatype Refusal = BadKey(path: seq<Step>, i: nat) | BadString(path: seq<Step>)

  ghost predicate Refused(v: Tree, tagged: bool, lookup: Lookup, why: Refusal) {
    match why
    case BadKey(path, i) =>
      && At(v, path).Some? && At(v, path).value.Dict? && i < |At(v, path).value.entries|
      && At(v, path).value.entries[i].key.Str? && ContainsRef(At(v, path).value.entries[i].key.text)
    case BadString(path) =>
      && At(v, path).Some? && At(v, path).value.Str? && ContainsRef(At(v, path).value.text)
      && (!TagAt(v, path, tagged) || Expand(At(v, path).value.text, lookup).Failure?)
  }

  function Below(step: Step, why: Refusal): Refusal {
    match why
    case BadKey(path, i) => BadKey([step] + path, i)
    case BadString(path) => BadString([step] + path)
  }

  lemma RefusedBelow(v: Tree, step: Step, tagged: bool, lookup: Lookup, why: Refusal)
    requires Child(v, step).Some? && Refused(Child(v, step).value, TagAt(v, [step], tagged), lookup, why)
    ensures Refused(v, tagged, lookup, Below(step, why))
  {
    var path := [step] + why.path;
    assert path[1..] == why.path;
    OneStep(v, path, tagged, true);
  }

  // A part that does not walk, or a key with a reference.
  lemma {:induction false} PartsFail(whole: Tree, parts: seq<Part>, lookup: Lookup) returns (i: nat)
    requires forall j :: 0 <= j < |parts| ==> parts[j].value < whole
    requires WalkParts(whole, parts, lookup).Failure?
    ensures i < |parts|
    ensures || (parts[i].key.Some? && ContainsRef(parts[i].key.value))
            || Walk(parts[i].value, parts[i].tagged, parts[i].settable, lookup).Failure?
    decreases |parts|
  {
    if parts[0].key.Some? && ContainsRef(parts[0].key.value) {
      i := 0;
    } else if Walk(parts[0].value, parts[0].tagged, parts[0].settable, lookup).Failure? {
      i := 0;
    } else {
      i := PartsFail(whole, parts[1..], lookup);
      i := i + 1;
    }
  }

  lemma {:induction false} FailureIsRefusal(v: Tree, tagged: bool, settable: bool, lookup: Lookup)
    returns (why: Refusal)
    requires Walk(v, tagged, settable, lookup).Failure?
    ensures Refused(v, tagged, lookup, why)
    decreases v
  {
    if v.Str? {
      why := BadString([]);
    } else {
      var parts := Parts(v, tagged, settable);
      var i := PartsFail(v, parts, lookup);
      var step := PartIsChild(v, i, tagged, settable);
      ChildIsPart(v, step, tagged, settable);
      if parts[i].key.Some? && ContainsRef(parts[i].key.value) {
        why := BadKey([], i);
      } else {
        why := FailureIsRefusal(parts[i].value, parts[i].tagged, parts[i].settable, lookup);
        RefusedBelow(v, step, tagged, lookup, why);
        why := Below(step, why);
      }
    }
  }

  lemma {:induction false} RefusalFails(v: Tree, tagged: bool, settable: bool, lookup: Lookup, why: Refusal)
    requires Refused(v, tagged, lookup, why)
    ensures Walk(v, tagged, settable, lookup).Failure?
    decreases |why.path|
  {
    if Walk(v, tagged, settable, lookup).Success? {
      if why.BadString? {
        WalkAt(v, why.path, At(v, why.path).value.text, tagged, settable, lookup);
      } else if why.path == [] {
        PartsWalked(v, Parts(v, tagged, settable), lookup, why.i);
      } else {
        var step := why.path[0];
        OneStep(v, why.path, tagged, settable);
        WalkChild(v, step, tagged, settable, lookup);
        RefusalFails(Child(v, step).value, TagAt(v, [step], tagged), StorableAt([step], settable), lookup,
                     BadKey(why.path[1..], why.i));
      }
    }
  }

  // Apply refuses a value if and only if some key of a map in it has a reference,
  // or some string has one that the field right around it does not allow or that
  // does not expand.
  lemma ApplyRefusesIff(v: Tree, lookup: Lookup)
    ensures Apply(v, lookup).Failure? <==> exists why :: Refused(v, false, lookup, why)
  {
    if Apply(v, lookup).Failure? {
      var why := FailureIsRefusal(v, false, true, lookup);
    }
    if why :| Refused(v, false, lookup, why) {
      RefusalFails(v, false, true, lookup, why);
    }
  }

  // Otherwise the string at every path is expanded if it has a reference and can
  // be stored, and stays as it is if not.
  lemma ApplyAt(v: Tree, path: seq<Step>, s: string, lookup: Lookup)
    requires Apply(v, lookup).Success? && At(v, path) == Some(Str(s))
    ensures ContainsRef(s) ==> TagAt(v, path, false) && Expand(s, lookup).Success?
    ensures At(Apply(v, lookup).value, path)
         == Some(Str(if ContainsRef(s) && StorableAt(path, true) then Expand(s, lookup).value else s))
  {
    WalkAt(v, path, s, false, true, lookup);
  }
}
