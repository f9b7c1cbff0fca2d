/** pkg/envsubst: Expand hides `$$`, replaces the references, and puts `$` back.
    For every string that is one left-to-right reading of it, up to NUL bytes. */
module Envsubst {
  import opened Wrappers
  import opened Sequences
  import Strings

  const NUL: char := '\0'  // the sentinel

  type Lookup = string -> Option<string>

  // ---------- The code's phases ----------

  // strings.ReplaceAll(s, "$$", "\x00")
  function Hide(s: string): string {
    if |s| >= 2 && s[0] == '$' && s[1] == '$' then [NUL] + Hide(s[2..])
    else if s == "" then ""
    else [s[0]] + Hide(s[1..])
  }

  // strings.ReplaceAll(out, "\x00", "$")
  function Restore(s: string): string {
    if s == "" then "" else [if s[0] == NUL then '$' else s[0]] + Restore(s[1..])
  }

  predicate NameStart(c: char) {
    'A' <= c <= 'Z' || 'a' <= c <= 'z' || c == '_'
  }

  predicate NameChar(c: char) {
    NameStart(c) || '0' <= c <= '9'
  }

  predicate IsName(n: string) {
    n != "" && NameStart(n[0]) && forall i :: 0 <= i < |n| ==> NameChar(n[i])
  }

  // By ASCII code: a letter or underscore, and then letters, underscores and
  // digits.
  lemma NameIff(n: string)
    ensures IsName(n) <==>
              && n != "" && !(48 <= n[0] as int <= 57)
              && forall i :: 0 <= i < |n| ==>
                   var c := n[i] as int;
                   48 <= c <= 57 || 65 <= c <= 90 || c == 95 || 97 <= c <= 122
  {
  }

  function NameLen(s: string): (n: nat)
    ensures n <= |s| && (forall i :: 0 <= i < n ==> NameChar(s[i])) && (n < |s| ==> !NameChar(s[n]))
  {
    if s == "" || !NameChar(s[0]) then 0 else 1 + NameLen(s[1..])
  }

  datatype Match = Match(name: string, fallback: Option<string>, rest: string)

  // envRefRE at the front of s: `${NAME}` or `${NAME:-body}`, the body ending at
  // the first `}`. There is no other way to match, a name having no `}` or `:`.
  function MatchRef(s: string): (m: Option<Match>)
    ensures m.Some? ==> |m.value.rest| < |s|
  {
    if |s| < 3 || s[0] != '$' || s[1] != '{' || !NameStart(s[2]) then None
    else
      var inner := s[2..];
      var n := NameLen(inner);
      MatchTail(inner[..n], inner[n..])
  }

  // What follows the name: `}`, or `:-body}`.
  function MatchTail(name: string, s: string): (m: Option<Match>)
    ensures m.Some? ==> |m.value.rest| < |s|
  {
    if |s| >= 1 && s[0] == '}' then Some(Match(name, None, s[1..]))
    else if |s| >= 2 && s[0] == ':' && s[1] == '-' then MatchBody(name, s[2..])
    else None
  }

  function MatchBody(name: string, s: string): (m: Option<Match>)
    ensures m.Some? ==> |m.value.rest| < |s|
  {
    var k := Strings.IndexOf(s, '}');
    if k == |s| then None else Some(Match(name, Some(s[..k]), s[k + 1..]))
  }

  datatype Replaced = Replaced(out: string, firstUndefined: Option<string>)

  // envRefRE.ReplaceAllStringFunc: every match from the left is looked up, the
  // first undefined name is remembered, and no replacement is scanned again.
  function ReplaceRefs(s: string, lookup: Lookup): Replaced {
    if s == "" then Replaced("", None)
    else
      match MatchRef(s)
      case None =>
        var tail := ReplaceRefs(s[1..], lookup);
        Replaced([s[0]] + tail.out, tail.firstUndefined)
      case Some(m) =>
        var tail := ReplaceRefs(m.rest, lookup);
        match lookup(m.name)
        case Some(v) => Replaced(v + tail.out, tail.firstUndefined)
        case None =>
          if m.fallback.Some? then Replaced(m.fallback.value + tail.out, tail.firstUndefined)
          else Replaced(s[..|s| - |m.rest|] + tail.out, Some(m.name))
  }

  function Expand(s: string, lookup: Lookup): Result<string, string> {
    if '$' !in s then Success(s)
    else
      var r := ReplaceRefs(Hide(s), lookup);
      if r.firstUndefined.Some? then Failure(r.firstUndefined.value) else Success(Restore(r.out))
  }

  // ---------- One reading of the text ----------

  datatype Token = Text(c: char) | Reference(name: string, fallback: Option<string>)

  // `$$` is a dollar, in a default too.
  function Unescape(s: string): string {
    if |s| >= 2 && s[0] == '$' && s[1] == '$' then ['$'] + Unescape(s[2..])
    else if s == "" then ""
    else [s[0]] + Unescape(s[1..])
  }

  function Tokens(s: string): seq<Token> {
    if s == "" then []
    else if |s| >= 2 && s[0] == '$' && s[1] == '$' then [Text('$')] + Tokens(s[2..])
    else
      match MatchRef(s)
      case None => [Text(s[0])] + Tokens(s[1..])
      case Some(m) =>
        [Reference(m.name, if m.fallback.Some? then Some(Unescape(m.fallback.value)) else None)] + Tokens(m.rest)
  }

  function Value(t: Token, lookup: Lookup): Option<string> {
    match t
    case Text(c) => Some([c])
    case Reference(name, fallback) => if lookup(name).Some? then lookup(name) else fallback
  }

  // Each token's value in order, or the first variable that has none.
  function Meaning(tokens: seq<Token>, lookup: Lookup): Result<string, string> {
    if tokens == [] then Success("")
    else if Value(tokens[0], lookup).None? then Failure(if tokens[0].Reference? then tokens[0].name else "")
    else
      match Meaning(tokens[1..], lookup)
      case Failure(name) => Failure(name)
      case Success(rest) => Success(Value(tokens[0], lookup).value + rest)
  }

  // ---------- Matching is printing, backwards ----------

  function RefBody(body: string, rest: string): string {
    body + ("}" + rest)
  }

  function RefTail(fallback: Option<string>, rest: string): string {
    match fallback
    case None => "}" + rest
    case Some(body) => ":-" + RefBody(body, rest)
  }

  // A reference with the text after it.
  function PrintRef(name: string, fallback: Option<string>, rest: string): string {
    "${" + (name + RefTail(fallback, rest))
  }

  predicate Plausible(name: string, fallback: Option<string>) {
    IsName(name) && (fallback.Some? ==> '}' !in fallback.value)
  }

  lemma BodySound(name: string, s: string)
    requires MatchBody(name, s).Some?
    ensures var m := MatchBody(name, s).value;
            m.name == name && m.fallback.Some? && '}' !in m.fallback.value && s == RefBody(m.fallback.value, m.rest)
  {
  }

  lemma TailSound(name: string, s: string)
    requires MatchTail(name, s).Some?
    ensures var m := MatchTail(name, s).value;
            m.name == name && (m.fallback.Some? ==> '}' !in m.fallback.value) && s == RefTail(m.fallback, m.rest)
  {
    if s[0] == '}' {
      assert s == "}" + s[1..];
    } else {
      assert s == ":-" + s[2..];
      BodySound(name, s[2..]);
    }
  }

  lemma MatchSound(s: string)
    requires MatchRef(s).Some?
    ensures var m := MatchRef(s).value;
            Plausible(m.name, m.fallback) && s == PrintRef(m.name, m.fallback, m.rest)
  {
    var inner := s[2..];
    var n := NameLen(inner);
    assert s == "${" + inner;
    TailSound(inner[..n], inner[n..]);
    Reassembled(s, inner, n, MatchRef(s).value);
  }

  lemma Reassembled(s: string, inner: string, n: nat, m: Match)
    requires n <= |inner| && s == "${" + inner && m.name == inner[..n] && inner[n..] == RefTail(m.fallback, m.rest)
    ensures s == PrintRef(m.name, m.fallback, m.rest)
  {
    assert inner == inner[..n] + inner[n..];
  }

  lemma BodyComplete(name: string, body: string, rest: string)
    requires '}' !in body
    ensures MatchBody(name, RefBody(body, rest)) == Some(Match(name, Some(body), rest))
  {
    var s := RefBody(body, rest);
    assert s[|body|] == '}' && forall i :: 0 <= i < |body| ==> s[i] == body[i];
    assert s[..|body|] == body && s[|body| + 1..] == rest;
  }

  lemma TailComplete(name: string, fallback: Option<string>, rest: string)
    requires fallback.Some? ==> '}' !in fallback.value
    ensures MatchTail(name, RefTail(fallback, rest)) == Some(Match(name, fallback, rest))
  {
    var s := RefTail(fallback, rest);
    match fallback
    case None => assert s[1..] == rest;
    case Some(body) =>
      assert s[2..] == RefBody(body, rest);
      BodyComplete(name, body, rest);
  }

  lemma MatchComplete(name: string, fallback: Option<string>, rest: string)
    requires Plausible(name, fallback)
    ensures MatchRef(PrintRef(name, fallback, rest)) == Some(Match(name, fallback, rest))
  {
    var tail := RefTail(fallback, rest);
    TailComplete(name, fallback, rest);
    MatchPrinted(name, tail);
  }

  lemma MatchPrinted(name: string, tail: string)
    requires IsName(name) && tail != "" && !NameChar(tail[0])
    ensures MatchRef("${" + (name + tail)) == MatchTail(name, tail)
  {
    var inner := name + tail;
    var s := "${" + inner;
    assert s[2..] == inner && s[2] == name[0];
    NameEnds(name, tail);
    assert inner[..|name|] == name && inner[|name|..] == tail;
  }

  lemma NameEnds(name: string, tail: string)
    requires forall i :: 0 <= i < |name| ==> NameChar(name[i])
    requires tail != "" && !NameChar(tail[0])
    ensures NameLen(name + tail) == |name|
  {
    var s := name + tail;
    assert s[|name|] == tail[0];
    assert forall i :: 0 <= i < |name| ==> s[i] == name[i];
  }

  // ---------- Hiding commutes with matching ----------

  lemma {:induction false} HidePlain(p: string, s: string)
    requires '$' !in p
    ensures Hide(p + s) == p + Hide(s)
  {
    if p == "" {
      assert p + s == s;
    } else {
      assert p + s == [p[0]] + (p[1..] + s);
      assert (p + s)[1..] == p[1..] + s;
      HidePlain(p[1..], s);
    }
  }

  lemma HidePair(s: string)
    ensures Hide(['$', '$'] + s) == [NUL] + Hide(s)
  {
    assert (['$', '$'] + s)[2..] == s;
  }

  lemma HideOne(c: char, s: string)
    requires c != '$' || (s != "" && s[0] != '$')
    ensures Hide([c] + s) == [c] + Hide(s)
  {
    assert ([c] + s)[1..] == s;
  }

  // A `$$` never reaches over the end of a default.
  lemma {:induction false} HideApart(a: string, b: string)
    requires b != "" && b[0] != '$'
    ensures Hide(a + b) == Hide(a) + Hide(b)
    decreases |a|
  {
    if a == "" {
      assert a + b == b;
    } else if |a| >= 2 && a[0] == '$' && a[1] == '$' {
      assert a == ['$', '$'] + a[2..];
      Associative(['$', '$'], a[2..], b);
      HidePair(a[2..] + b);
      HideApart(a[2..], b);
      Associative([NUL], Hide(a[2..]), Hide(b));
    } else {
      assert a == [a[0]] + a[1..];
      Associative([a[0]], a[1..], b);
      HideOneApart(a[0], a[1..], b);
      HideApart(a[1..], b);
      Associative([a[0]], Hide(a[1..]), Hide(b));
    }
  }

  lemma HideOneApart(c: char, s: string, b: string)
    requires b != "" && b[0] != '$'
    requires c != '$' || s == "" || s[0] != '$'
    ensures Hide([c] + (s + b)) == [c] + Hide(s + b)
  {
    assert (s + b)[0] == if s == "" then b[0] else s[0];
    HideOne(c, s + b);
  }

  lemma {:induction false} HideKeepsBrace(s: string)
    ensures '}' in Hide(s) <==> '}' in s
  {
    if |s| >= 2 && s[0] == '$' && s[1] == '$' {
      HideKeepsBrace(s[2..]);
      assert s == ['$', '$'] + s[2..];
    } else if s != "" {
      HideKeepsBrace(s[1..]);
      assert s == [s[0]] + s[1..];
    }
  }

  // What hiding leaves readable was readable.
  lemma {:induction false} Unhide(p: string, s: string, q: string)
    requires NUL !in p && Hide(s) == p + q
    ensures p <= s && Hide(s[|p|..]) == q
  {
    if p == "" {
      assert p + q == q && s[0..] == s;
    } else {
      UnhideOne(p[0], s, p[1..] + q) by {
        assert p + q == [p[0]] + (p[1..] + q);
      }
      Unhide(p[1..], s[1..], q);
      assert s[|p|..] == s[1..][|p| - 1..];
    }
  }

  lemma UnhideOne(c: char, s: string, q: string)
    requires c != NUL && Hide(s) == [c] + q
    ensures s != "" && s[0] == c && Hide(s[1..]) == q
  {
    if s != "" {
      assert Hide(s)[0] == c && Hide(s)[1..] == q;
    }
  }

  function HiddenFallback(fallback: Option<string>): Option<string> {
    match fallback
    case None => None
    case Some(body) => Some(Hide(body))
  }

  function HiddenMatch(m: Option<Match>): Option<Match> {
    match m
    case None => None
    case Some(x) => Some(Match(x.name, HiddenFallback(x.fallback), Hide(x.rest)))
  }

  lemma HideTail(fallback: Option<string>, rest: string)
    ensures Hide(RefTail(fallback, rest)) == RefTail(HiddenFallback(fallback), Hide(rest))
  {
    HidePlain("}", rest);
    if fallback.Some? {
      HidePlain(":-", RefBody(fallback.value, rest));
      HideApart(fallback.value, "}" + rest);
    }
  }

  lemma HidePrinted(name: string, fallback: Option<string>, rest: string)
    requires IsName(name)
    ensures Hide(PrintRef(name, fallback, rest)) == PrintRef(name, HiddenFallback(fallback), Hide(rest))
  {
    HideTail(fallback, rest);
    HideNamed(name, RefTail(fallback, rest));
  }

  lemma HideNamed(name: string, tail: string)
    requires IsName(name)
    ensures Hide("${" + (name + tail)) == "${" + (name + Hide(tail))
  {
    HidePlain(name, tail);
    HideOpen(name + tail);
  }

  lemma HideOpen(inner: string)
    ensures Hide("${" + inner) == "${" + Hide(inner)
  {
    HidePlain("{", inner);
    HideOne('$', "{" + inner);
    assert "${" + inner == ['$'] + ("{" + inner);
    assert "${" + Hide(inner) == ['$'] + ("{" + Hide(inner));
  }

  lemma HideMatch(s: string)
    requires s != "" && !(|s| >= 2 && s[0] == '$' && s[1] == '$')
    ensures MatchRef(Hide(s)) == HiddenMatch(MatchRef(s))
  {
    if MatchRef(s).Some? {
      var m := MatchRef(s).value;
      MatchSound(s);
      HidePrinted(m.name, m.fallback, m.rest);
      if m.fallback.Some? {
        HideKeepsBrace(m.fallback.value);
      }
      MatchComplete(m.name, HiddenFallback(m.fallback), Hide(m.rest));
    } else if MatchRef(Hide(s)).Some? {
      var m := MatchRef(Hide(s)).value;
      MatchSound(Hide(s));
      NoNewMatch(s, m.name, m.fallback, m.rest);
    }
  }

  // Hiding makes no reference of what was none.
  lemma NoNewMatch(s: string, name: string, fallback: Option<string>, rest: string)
    requires Plausible(name, fallback) && Hide(s) == PrintRef(name, fallback, rest)
    ensures MatchRef(s).Some?
  {
    var hidden := RefTail(fallback, rest);
    Unhide("${", s, name + hidden);
    Unhide(name, s[2..], hidden);
    var tail := s[2..][|name|..];
    assert s == "${" + (name + tail);
    assert Hide(tail) == hidden;
    NoNewTail(tail, name, fallback, rest);
    MatchPrinted(name, tail);
  }

  lemma NoNewTail(s: string, name: string, fallback: Option<string>, rest: string)
    requires Hide(s) == RefTail(fallback, rest)
    ensures s != "" && !NameChar(s[0]) && MatchTail(name, s).Some?
  {
    if fallback.Some? {
      var body := RefBody(fallback.value, rest);
      Unhide(":-", s, body);
      HideKeepsBrace(s[2..]);
      assert body[|fallback.value|] == '}';
      assert s == ":-" + s[2..];
    } else {
      Unhide("}", s, rest);
    }
  }

  // ---------- The phases are the one reading ----------

  lemma {:induction false} RestoreConcat(a: string, b: string)
    ensures Restore(a + b) == Restore(a) + Restore(b)
  {
    if a == "" {
      assert a + b == b;
    } else {
      assert (a + b)[1..] == a[1..] + b;
      RestoreConcat(a[1..], b);
    }
  }

  lemma {:induction false} RestoreHidden(s: string)
    ensures Restore(Hide(s)) == Restore(Unescape(s))
  {
    if |s| >= 2 && s[0] == '$' && s[1] == '$' {
      RestoreHidden(s[2..]);
    } else if s != "" {
      RestoreHidden(s[1..]);
    }
  }

  lemma {:induction false} RestoreId(s: string)
    ensures Restore(s) == s <==> NUL !in s
  {
    if s != "" {
      RestoreId(s[1..]);
      assert s == [s[0]] + s[1..];
      assert Restore(s)[1..] == Restore(s[1..]);
    }
  }

  ghost predicate Agrees(r: Replaced, meaning: Result<string, string>) {
    match meaning
    case Failure(name) => r.firstUndefined == Some(name)
    case Success(t) => r.firstUndefined == None && Restore(r.out) == Restore(t)
  }

  lemma {:induction false} PhasesAgree(s: string, lookup: Lookup)
    ensures Agrees(ReplaceRefs(Hide(s), lookup), Meaning(Tokens(s), lookup))
    decreases |s|
  {
    if s == "" {
    } else if |s| >= 2 && s[0] == '$' && s[1] == '$' {
      PhasesAgree(s[2..], lookup);
      assert Hide(s)[1..] == Hide(s[2..]);
      TextAgrees(NUL, '$', ReplaceRefs(Hide(s[2..]), lookup), Tokens(s[2..]), lookup);
    } else {
      HideMatch(s);
      if MatchRef(s).None? {
        PhasesAgree(s[1..], lookup);
        assert Hide(s)[1..] == Hide(s[1..]);
        TextAgrees(s[0], s[0], ReplaceRefs(Hide(s[1..]), lookup), Tokens(s[1..]), lookup);
      } else {
        PhasesAgree(MatchRef(s).value.rest, lookup);
        ReferenceAgrees(s, lookup);
      }
    }
  }

  lemma TextAgrees(hidden: char, c: char, tail: Replaced, tokens: seq<Token>, lookup: Lookup)
    requires Agrees(tail, Meaning(tokens, lookup))
    requires hidden == c || (hidden == NUL && c == '$')
    ensures Agrees(Replaced([hidden] + tail.out, tail.firstUndefined), Meaning([Text(c)] + tokens, lookup))
  {
    assert ([Text(c)] + tokens)[1..] == tokens;
    RestoreConcat([hidden], tail.out);
    if Meaning(tokens, lookup).Success? {
      RestoreConcat([c], Meaning(tokens, lookup).value);
    }
  }

  lemma ReferenceAgrees(s: string, lookup: Lookup)
    requires MatchRef(s).Some? && MatchRef(Hide(s)) == HiddenMatch(MatchRef(s))
    requires !(|s| >= 2 && s[0] == '$' && s[1] == '$')
    requires Agrees(ReplaceRefs(Hide(MatchRef(s).value.rest), lookup), Meaning(Tokens(MatchRef(s).value.rest), lookup))
    ensures Agrees(ReplaceRefs(Hide(s), lookup), Meaning(Tokens(s), lookup))
  {
    var m := MatchRef(s).value;
    var tail := ReplaceRefs(Hide(m.rest), lookup);
    var meaning := Meaning(Tokens(m.rest), lookup);
    assert Tokens(s)[1..] == Tokens(m.rest);
    var value := Value(Tokens(s)[0], lookup);
    if value.Some? {
      var piece := if lookup(m.name).Some? then lookup(m.name).value else Hide(m.fallback.value);
      RestoreConcat(piece, tail.out);
      if meaning.Success? {
        RestoreConcat(value.value, meaning.value);
      }
      if m.fallback.Some? {
        RestoreHidden(m.fallback.value);
      }
    }
  }

  // For every string and environment.
  lemma ExpandIsOneReading(s: string, lookup: Lookup)
    ensures '$' in s ==>
              Expand(s, lookup) == match Meaning(Tokens(s), lookup)
                                   case Failure(name) => Failure(name)
                                   case Success(t) => Success(Restore(t))
    ensures '$' !in s ==> Expand(s, lookup) == Success(s) == Meaning(Tokens(s), lookup)
  {
    if '$' in s {
      PhasesAgree(s, lookup);
    } else {
      NoDollar(s, lookup);
    }
  }

  lemma {:induction false} NoDollar(s: string, lookup: Lookup)
    requires '$' !in s
    ensures Meaning(Tokens(s), lookup) == Success(s)
  {
    if s != "" {
      NoDollar(s[1..], lookup);
      assert MatchRef(s).None?;
      ConsText(s[0], Tokens(s[1..]), s[1..], lookup);
      assert s == [s[0]] + s[1..];
    }
  }

  function ValueText(t: Token, lookup: Lookup): string {
    Value(t, lookup).GetOr("")
  }

  lemma {:induction false} MeaningIs(tokens: seq<Token>, lookup: Lookup)
    ensures Meaning(tokens, lookup).Failure? <==>
              exists i :: 0 <= i < |tokens| && Value(tokens[i], lookup).None?
    ensures Meaning(tokens, lookup).Success? ==>
              (NUL in Meaning(tokens, lookup).value <==>
                 exists i :: 0 <= i < |tokens| && NUL in ValueText(tokens[i], lookup))
  {
    if tokens != [] {
      MeaningIs(tokens[1..], lookup);
      assert forall i :: 0 <= i < |tokens| - 1 ==> tokens[1..][i] == tokens[i + 1];
      assert forall i :: 1 <= i < |tokens| ==> tokens[i] == tokens[1..][i - 1];
    }
  }

  // Exactly where the sentinel shows: in a text with a `$`, all of whose
  // references have a value, some character, value or default with a NUL.
  lemma ExpandIsMeaningIff(s: string, lookup: Lookup)
    ensures var tokens := Tokens(s);
            Expand(s, lookup) == Meaning(tokens, lookup) <==>
              || '$' !in s
              || (exists i :: 0 <= i < |tokens| && Value(tokens[i], lookup).None?)
              || (forall i :: 0 <= i < |tokens| ==> NUL !in ValueText(tokens[i], lookup))
  {
    ExpandIsOneReading(s, lookup);
    MeaningIs(Tokens(s), lookup);
    var meaning := Meaning(Tokens(s), lookup);
    if meaning.Success? {
      RestoreId(meaning.value);
    }
  }

  predicate NulFreeToken(t: Token) {
    match t
    case Text(c) => c != NUL
    case Reference(name, fallback) => fallback.Some? ==> NUL !in fallback.value
  }

  lemma {:induction false} UnescapeNulFree(s: string)
    requires NUL !in s
    ensures NUL !in Unescape(s)
  {
    if |s| >= 2 && s[0] == '$' && s[1] == '$' {
      UnescapeNulFree(s[2..]);
    } else if s != "" {
      UnescapeNulFree(s[1..]);
    }
  }

  lemma MatchNulFree(s: string)
    requires NUL !in s && MatchRef(s).Some?
    ensures NUL !in MatchRef(s).value.rest
    ensures MatchRef(s).value.fallback.Some? ==> NUL !in Unescape(MatchRef(s).value.fallback.value)
  {
    MatchSound(s);
    var m := MatchRef(s).value;
    var tail := RefTail(m.fallback, m.rest);
    assert s[2 + |m.name|..] == tail;
    if m.fallback.Some? {
      assert tail[2..] == RefBody(m.fallback.value, m.rest);
      UnescapeNulFree(m.fallback.value);
    }
  }

  lemma {:induction false} TokensNulFree(s: string)
    requires NUL !in s
    ensures forall i :: 0 <= i < |Tokens(s)| ==> NulFreeToken(Tokens(s)[i])
    decreases |s|
  {
    if s == "" {
    } else if |s| >= 2 && s[0] == '$' && s[1] == '$' {
      TokensNulFree(s[2..]);
    } else if MatchRef(s).None? {
      TokensNulFree(s[1..]);
    } else {
      MatchNulFree(s);
      TokensNulFree(MatchRef(s).value.rest);
    }
  }

  // In particular, for every NUL-free text and environment Expand is the one
  // reading.
  lemma NulFreeExpandIsMeaning(s: string, lookup: Lookup)
    requires NUL !in s
    requires forall name :: lookup(name).Some? ==> NUL !in lookup(name).value
    ensures Expand(s, lookup) == Meaning(Tokens(s), lookup)
  {
    TokensNulFree(s);
    ValuesNulFree(Tokens(s), lookup);
    ExpandIsMeaningIff(s, lookup);
  }

  lemma ValueNulFree(t: Token, lookup: Lookup)
    requires NulFreeToken(t) && (t.Reference? && lookup(t.name).Some? ==> NUL !in lookup(t.name).value)
    ensures NUL !in ValueText(t, lookup)
  {
  }

  lemma ValuesNulFree(tokens: seq<Token>, lookup: Lookup)
    requires forall i :: 0 <= i < |tokens| ==> NulFreeToken(tokens[i])
    requires forall name :: lookup(name).Some? ==> NUL !in lookup(name).value
    ensures forall i :: 0 <= i < |tokens| ==> NUL !in ValueText(tokens[i], lookup)
  {
    forall i | 0 <= i < |tokens| ensures NUL !in ValueText(tokens[i], lookup) {
      ValueNulFree(tokens[i], lookup);
    }
  }

  lemma ConsText(c: char, tokens: seq<Token>, t: string, lookup: Lookup)
    requires Meaning(tokens, lookup) == Success(t)
    ensures Meaning([Text(c)] + tokens, lookup) == Success([c] + t)
  {
    assert ([Text(c)] + tokens)[1..] == tokens;
  }

  lemma NulWitness(lookup: Lookup)
    ensures Expand([NUL, '$'], lookup) == Success("$$")
    ensures Meaning(Tokens([NUL, '$']), lookup) == Success([NUL, '$'])
  {
    var s := [NUL, '$'];
    assert s[1..] == ['$'] && ['$'][1..] == "";
    assert Tokens(['$']) == [Text('$')] + [];
    ConsText('$', [], "", lookup);
    ConsText(NUL, Tokens(['$']), ['$'] + "", lookup);
    assert ['$'] + "" == ['$'] && [NUL] + ['$'] == s;
    ExpandIsOneReading(s, lookup);
    assert Restore(['$']) == "$";
    assert Restore(s) == "$$";
  }

  // ---------- Every text and every reference can be written ----------

  function Escape(s: string): string {
    if s == "" then "" else (if s[0] == '$' then "$$" else [s[0]]) + Escape(s[1..])
  }

  function Print(tokens: seq<Token>): string {
    if tokens == [] then "" else PrintToken(tokens[0]) + Print(tokens[1..])
  }

  function PrintToken(t: Token): string {
    match t
    case Text(c) => Escape([c])
    case Reference(name, None) => PrintRef(name, None, "")
    case Reference(name, Some(body)) => PrintRef(name, Some(Escape(body)), "")
  }

  predicate Writable(t: Token) {
    t.Reference? ==> Plausible(t.name, t.fallback)
  }

  lemma {:induction false} EscapeRoundTrip(s: string)
    ensures Unescape(Escape(s)) == s
    ensures '}' in Escape(s) <==> '}' in s
  {
    if s != "" {
      EscapeRoundTrip(s[1..]);
      assert s == [s[0]] + s[1..];
      var e := Escape(s);
      if s[0] == '$' {
        assert e[2..] == Escape(s[1..]);
        assert e == ['$', '$'] + Escape(s[1..]);
      } else {
        assert e[1..] == Escape(s[1..]);
      }
    }
  }

  lemma {:induction false} PrintRoundTrip(tokens: seq<Token>)
    requires forall i :: 0 <= i < |tokens| ==> Writable(tokens[i])
    ensures Tokens(Print(tokens)) == tokens
  {
    if tokens != [] {
      PrintRoundTrip(tokens[1..]);
      OneToken(tokens[0], Print(tokens[1..]));
      assert tokens == [tokens[0]] + tokens[1..];
    }
  }

  lemma OneToken(t: Token, rest: string)
    requires Writable(t)
    ensures Tokens(PrintToken(t) + rest) == [t] + Tokens(rest)
  {
    var s := PrintToken(t) + rest;
    match t
    case Text(c) =>
      assert [c][1..] == "";
      assert Escape([c]) == if c == '$' then "$$" else [c];
      assert s == (if c == '$' then "$$" else [c]) + rest;
      assert s[if c == '$' then 2 else 1..] == rest;
    case Reference(name, fallback) =>
      if fallback.Some? {
        EscapeRoundTrip(fallback.value);
        PrintBefore(name, Some(Escape(fallback.value)), rest);
        MatchComplete(name, Some(Escape(fallback.value)), rest);
      } else {
        PrintBefore(name, None, rest);
        MatchComplete(name, None, rest);
      }
      assert s[1] == '{';
  }

  lemma PrintBefore(name: string, fallback: Option<string>, rest: string)
    ensures PrintRef(name, fallback, "") + rest == PrintRef(name, fallback, rest)
  {
    var end := "}" + "" + rest;
    assert end == "}" + rest;
    if fallback.Some? {
      assert (":-" + (fallback.value + ("}" + ""))) + rest == ":-" + (fallback.value + ("}" + rest));
    }
    assert RefTail(fallback, "") + rest == RefTail(fallback, rest);
    assert ("${" + (name + RefTail(fallback, ""))) + rest == "${" + (name + (RefTail(fallback, "") + rest));
  }

  // A reference expands to the variable's value, an empty one included; to its
  // default, escapes undone, when the variable is not set; and to an error that
  // names it when there is no default either.
  lemma ReferenceIs(name: string, fallback: Option<string>, lookup: Lookup)
    requires Plausible(name, fallback) && (fallback.Some? ==> NUL !in fallback.value)
    requires lookup(name).Some? ==> NUL !in lookup(name).value
    ensures Expand(PrintRef(name, fallback, ""), lookup)
         == if lookup(name).Some? then Success(lookup(name).value)
            else if fallback.Some? then Success(Unescape(fallback.value))
            else Failure(name)
  {
    var s := PrintRef(name, fallback, "");
    MatchComplete(name, fallback, "");
    assert s[0] == '$' && s[1] == '{';
    var t := Reference(name, if fallback.Some? then Some(Unescape(fallback.value)) else None);
    assert Tokens(s) == [t] + [];
    assert [t][1..] == [];
    if fallback.Some? {
      UnescapeNulFree(fallback.value);
    }
    ExpandIsOneReading(s, lookup);
    if Value(t, lookup).Some? {
      var v := Value(t, lookup).value;
      assert Meaning([t], lookup) == Success(v + "") && v + "" == v;
      RestoreId(v);
    }
  }

  // Doubling every `$` of a NUL-free text protects it from expansion.
  lemma DoubledComesBack(s: string, lookup: Lookup)
    requires NUL !in s
    ensures Expand(Escape(s), lookup) == Success(s)
  {
    EscapedMeaning(s, lookup);
    ExpandIsOneReading(Escape(s), lookup);
    RestoreId(s);
  }

  lemma {:induction false} EscapedMeaning(s: string, lookup: Lookup)
    ensures Meaning(Tokens(Escape(s)), lookup) == Success(s)
  {
    if s != "" {
      EscapedMeaning(s[1..], lookup);
      assert [s[0]][1..] == "";
      assert Escape([s[0]]) == if s[0] == '$' then "$$" else [s[0]];
      OneToken(Text(s[0]), Escape(s[1..]));
      var tokens := [Text(s[0])] + Tokens(Escape(s[1..]));
      assert tokens[1..] == Tokens(Escape(s[1..]));
      assert s == [s[0]] + s[1..];
    }
  }
}
