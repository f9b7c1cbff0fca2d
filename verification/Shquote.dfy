/** pkg/shquote, and the command lines pkg/cluster and pkg/lifetime build with
    it, read back by the shell. */
module Shquote {
  import opened Wrappers
  import opened Shell

  // strings.ReplaceAll(s, "'", `'\''`)
  function EscapeQuotes(s: string): string {
    if s == "" then "" else (if s[0] == '\'' then "'\\''" else [s[0]]) + EscapeQuotes(s[1..])
  }

  function Quote(s: string): string {
    "'" + (EscapeQuotes(s) + "'")
  }

  // Quote every argument, strings.Join with a space.
  function Join(args: seq<Word>): string {
    if args == [] then ""
    else if |args| == 1 then Quote(args[0].text)
    else Quote(args[0].text) + (" " + Join(args[1..]))
  }

  predicate NulFree(args: seq<Word>) {
    forall i :: 0 <= i < |args| ==> '\0' !in args[i].text
  }

  // ---------- One quoted argument ----------

  lemma {:induction false} RunBody(st: State, s: string)
    requires st.mode.Quoted? && '\0' !in s
    ensures Run(st, EscapeQuotes(s)) == st.(mode := Quoted(st.mode.acc + s))
    decreases |s|
  {
    if s == "" {
      assert st.mode.acc + s == st.mode.acc;
    } else {
      var piece := if s[0] == '\'' then "'\\''" else [s[0]];
      RunConcat(st, piece, EscapeQuotes(s[1..]));
      var next := st.(mode := Quoted(st.mode.acc + [s[0]]));
      RunPiece(st, s[0]);
      RunBody(next, s[1..]);
      assert st.mode.acc + [s[0]] + s[1..] == st.mode.acc + s;
    }
  }

  lemma RunPiece(st: State, c: char)
    requires st.mode.Quoted? && c != '\0'
    ensures Run(st, if c == '\'' then "'\\''" else [c]) == st.(mode := Quoted(st.mode.acc + [c]))
  {
    if c == '\'' {
      var p := "'\\''";
      assert p[1..][0] == '\\' && p[1..][1..][0] == '\'' && p[1..][1..][1..][0] == '\'' && p[1..][1..][1..][1..] == "";
    } else {
      assert [c][1..] == "";
    }
  }

  // A quoted argument is one word, or the rest of the word it is stuck to.
  lemma RunQuote(st: State, s: string)
    requires (st.mode.Between? || st.mode.InWord?) && '\0' !in s
    ensures Run(st, Quote(s)) == st.(mode := InWord((if st.mode.InWord? then st.mode.acc else "") + s))
  {
    var open := Step(st, '\'');
    assert Quote(s)[0] == '\'' && Quote(s)[1..] == EscapeQuotes(s) + "'";
    RunConcat(open, EscapeQuotes(s), "'");
    RunBody(open, s);
    assert "'"[1..] == "";
  }

  lemma {:induction false} NulIsRejected(st: State, s: string)
    requires '\0' in s
    ensures Run(st, s).mode.Rejected?
    decreases |s|
  {
    if s[0] == '\0' {
      RunRejected(Step(st, s[0]), s[1..]);
    } else {
      assert s == [s[0]] + s[1..];
      NulIsRejected(Step(st, s[0]), s[1..]);
    }
  }

  lemma {:induction false} QuoteKeepsNul(s: string)
    ensures '\0' in EscapeQuotes(s) <==> '\0' in s
    decreases |s|
  {
    if s != "" {
      QuoteKeepsNul(s[1..]);
      assert s == [s[0]] + s[1..];
    }
  }

  // ---------- A joined line ----------

  lemma {:induction false} RunJoin(st: State, args: seq<Word>)
    requires st.mode.Between? && NulFree(args)
    ensures EndWord(Run(st, Join(args))) == st.(words := st.words + args)
    decreases |args|
  {
    if args == [] {
      assert st.words + args == st.words;
    } else {
      RunQuote(st, args[0].text);
      assert args[0] == Word(args[0].text);
      if |args| == 1 {
        assert "" + args[0].text == args[0].text;
        assert st.words + [args[0]] == st.words + args;
      } else {
        var tail := " " + Join(args[1..]);
        RunConcat(st, Quote(args[0].text), tail);
        assert tail[0] == ' ' && tail[1..] == Join(args[1..]);
        var next := st.(words := st.words + [args[0]]);
        assert "" + args[0].text == args[0].text;
        RunJoin(next, args[1..]);
        assert st.words + [args[0]] + args[1..] == st.words + args;
      }
    }
  }

  lemma {:induction false} JoinKeepsNul(args: seq<Word>)
    ensures '\0' in Join(args) <==> !NulFree(args)
    decreases |args|
  {
    if args != [] {
      QuoteKeepsNul(args[0].text);
      JoinKeepsNul(args[1..]);
      assert args == [args[0]] + args[1..];
      if |args| == 1 {
        assert Join(args[1..]) == "";
      }
      assert '\0' in args[0].text ==> '\0' in Quote(args[0].text);
    }
  }

  // The words of the line are the arguments, empty ones included: exactly for
  // arguments without NUL, the only ones a process can be given.
  lemma JoinRoundTrip(args: seq<Word>)
    ensures Commands(Join(args)) == if NulFree(args) then Some(OneCommand(args)) else None
  {
    JoinKeepsNul(args);
    if NulFree(args) {
      RunJoin(START, args);
      assert START.words + args == args;
      OneLine(Join(args), args);
    } else {
      NulIsRejected(START, Join(args));
    }
  }

  lemma JoinInjective(a: seq<Word>, b: seq<Word>)
    requires NulFree(a) && NulFree(b) && Join(a) == Join(b)
    ensures a == b
  {
    JoinRoundTrip(a);
    JoinRoundTrip(b);
  }

  // ---------- pkg/cluster: lines for the node's shell ----------

  // RunShell's line for the VM backends.
  function RunShellLine(cmd: string): string {
    "sudo sh -c " + Quote(cmd)
  }

  function BuildVMNodeRemote(binary: string, args: seq<Word>): string {
    "sudo k3s " + (binary + if args == [] then "" else " " + Join(args))
  }

  predicate PlainBinary(binary: string) {
    binary != "" && forall i :: 0 <= i < |binary| ==> Plain(binary[i])
  }

  lemma TwoPlainWords(a: string, b: string, rest: string)
    requires PlainBinary(a) && PlainBinary(b)
    ensures Run(START, (a + " ") + ((b + " ") + rest)) == Run(State([], [Word(a), Word(b)], Between), rest)
  {
    RunConcat(START, a + " ", (b + " ") + rest);
    PlainWord(START, a);
    var st := State([], [Word(a)], Between);
    assert START.words + [Word(a)] == st.words;
    RunConcat(st, b + " ", rest);
    PlainWord(st, b);
    assert st.words + [Word(b)] == [Word(a), Word(b)];
  }

  // The node's shell hands sh exactly cmd, whatever it is.
  lemma RunShellDelivers(cmd: string)
    requires '\0' !in cmd
    ensures Commands(RunShellLine(cmd)) == Some([Command([Word("sudo"), Word("sh"), Word("-c"), Word(cmd)])])
  {
    var rest := ("-c" + " ") + Quote(cmd);
    assert RunShellLine(cmd) == ("sudo" + " ") + (("sh" + " ") + rest);
    TwoPlainWords("sudo", "sh", rest);
    var two := State([], [Word("sudo"), Word("sh")], Between);
    RunConcat(two, "-c" + " ", Quote(cmd));
    PlainWord(two, "-c");
    var three := State([], [Word("sudo"), Word("sh"), Word("-c")], Between);
    assert two.words + [Word("-c")] == three.words;
    LastQuoted(three, cmd);
    assert three.words + [Word(cmd)] == [Word("sudo"), Word("sh"), Word("-c"), Word(cmd)];
    OneLine(RunShellLine(cmd), three.words + [Word(cmd)]);
  }

  lemma LastQuoted(st: State, s: string)
    requires st.mode.Between? && '\0' !in s
    ensures EndWord(Run(st, Quote(s))) == st.(words := st.words + [Word(s)])
  {
    RunQuote(st, s);
    assert "" + s == s;
  }

  // Two levels: a joined line sent through RunShell is the same words again.
  lemma TwoLevels(args: seq<Word>)
    requires NulFree(args)
    ensures var outer := Commands(RunShellLine(Join(args)));
            && outer.Some? && |outer.value| == 1 && |outer.value[0].words| == 4
            && Commands(outer.value[0].words[3].text) == Some(OneCommand(args))
  {
    JoinKeepsNul(args);
    RunShellDelivers(Join(args));
    JoinRoundTrip(args);
  }

  lemma NodeCommandDelivers(binary: string, args: seq<Word>)
    requires PlainBinary(binary) && NulFree(args)
    ensures Commands(BuildVMNodeRemote(binary, args))
         == Some([Command([Word("sudo"), Word("k3s"), Word(binary)] + args)])
  {
    var tail := binary + if args == [] then "" else " " + Join(args);
    assert BuildVMNodeRemote(binary, args) == ("sudo" + " ") + (("k3s" + " ") + tail);
    TwoPlainWords("sudo", "k3s", tail);
    BinaryAndArgs(State([], [Word("sudo"), Word("k3s")], Between), binary, args);
    var words := [Word("sudo"), Word("k3s")] + [Word(binary)] + args;
    assert words == [Word("sudo"), Word("k3s"), Word(binary)] + args;
    OneLine(BuildVMNodeRemote(binary, args), words);
  }

  lemma BinaryAndArgs(st: State, binary: string, args: seq<Word>)
    requires st.mode.Between? && PlainBinary(binary) && NulFree(args)
    ensures EndWord(Run(st, binary + if args == [] then "" else " " + Join(args)))
         == st.(words := st.words + [Word(binary)] + args)
  {
    if args == [] {
      assert binary + "" == binary;
      RunPlain(Step(st, binary[0]), binary[1..]);
      assert [binary[0]] + binary[1..] == binary;
      assert st.words + [Word(binary)] + args == st.words + [Word(binary)];
    } else {
      assert binary + (" " + Join(args)) == (binary + " ") + Join(args);
      RunConcat(st, binary + " ", Join(args));
      PlainWord(st, binary);
      RunJoin(st.(words := st.words + [Word(binary)]), args);
    }
  }

  // ---------- pkg/lifetime: the at(1) job ----------

  predicate UnitChar(c: char) {
    'a' <= c <= 'z' || 'A' <= c <= 'Z' || '0' <= c <= '9' || c == '-'
  }

  // unitName's loop
  function Sanitize(context: string): (s: string)
    ensures |s| == |context| && forall i :: 0 <= i < |s| ==> UnitChar(s[i])
  {
    if context == "" then "" else [if UnitChar(context[0]) then context[0] else '-'] + Sanitize(context[1..])
  }

  function UnitName(context: string): string {
    "y-cluster-lifetime-" + Sanitize(context)
  }

  function ReapInvocation(bin: string, context: string): seq<Word> {
    [Word(bin), Word("lifetime"), Word("reap"), Word("--context=" + context)]
  }

  // The script and the newline it is piped with.
  function AtScript(bin: string, context: string): string {
    Join(ReapInvocation(bin, context)) + ((" # " + UnitName(context)) + "\n")
  }

  // The job is one command, the reap invocation: the marker is a comment, for
  // every binary path and context name.
  lemma AtScriptRunsReap(bin: string, context: string)
    requires '\0' !in bin && '\0' !in context
    ensures Commands(AtScript(bin, context))
         == Some([Command([Word(bin), Word("lifetime"), Word("reap"), Word("--context=" + context)])])
  {
    MarkedLine(ReapInvocation(bin, context), UnitName(context));
  }

  lemma MarkedLine(args: seq<Word>, marker: string)
    requires args != [] && NulFree(args)
    requires forall i :: 0 <= i < |marker| ==> marker[i] != '\n' && marker[i] != '\0'
    ensures Commands(Join(args) + ((" # " + marker) + "\n")) == Some([Command(args)])
  {
    var line := Join(args);
    RunJoin(START, args);
    assert START.words + args == args;
    RunConcat(START, line, (" # " + marker) + "\n");
    RunConcat(Run(START, line), " # " + marker, "\n");
    RunMarker(Run(START, line), args, marker);
    assert "\n"[1..] == "";
    assert [] + [Command(args)] == [Command(args)];
  }

  lemma RunMarker(st: State, args: seq<Word>, marker: string)
    requires EndWord(st) == State([], args, Between)
    requires forall i :: 0 <= i < |marker| ==> marker[i] != '\n' && marker[i] != '\0'
    ensures Run(st, " # " + marker) == State([], args, Comment)
  {
    var rest := " " + marker;
    assert " # " + marker == [' '] + (['#'] + rest);
    BlankEndsWord(st, ['#'] + rest);
    HashComments(args, rest);
    RunComment(State([], args, Comment), rest);
  }

  lemma BlankEndsWord(st: State, s: string)
    requires EndWord(st).mode.Between?
    ensures Run(st, [' '] + s) == Run(EndWord(st), s)
  {
    RunOne(st, ' ', s);
  }

  lemma HashComments(args: seq<Word>, s: string)
    ensures Run(State([], args, Between), ['#'] + s) == Run(State([], args, Comment), s)
  {
    RunOne(State([], args, Between), '#', s);
  }

  lemma {:induction false} SanitizeIs(context: string)
    ensures forall i :: 0 <= i < |context| ==>
              var c := context[i] as int;
              Sanitize(context)[i] == if 48 <= c <= 57 || c == 45 || 65 <= c <= 90 || 97 <= c <= 122 then context[i]
                                      else '-'
  {
    if context != "" {
      SanitizeIs(context[1..]);
      assert forall i :: 0 < i < |context| ==> Sanitize(context)[i] == Sanitize(context[1..])[i - 1];
      assert forall i :: 0 < i < |context| ==> context[i] == context[1..][i - 1];
    }
  }

  // The unit's name: a fixed prefix, and the context with every character but
  // ASCII letters, digits and dashes made a dash.
  lemma UnitNameIs(context: string)
    ensures UnitName(context)[..19] == "y-cluster-lifetime-" && |UnitName(context)[19..]| == |context|
    ensures forall i :: 0 <= i < |context| ==>
              var c := context[i] as int;
              UnitName(context)[19..][i] ==
              if 48 <= c <= 57 || 65 <= c <= 90 || 97 <= c <= 122 then context[i] else '-'
  {
    SanitizeIs(context);
    assert UnitName(context)[19..] == Sanitize(context);
  }

  // Markers do not tell contexts apart: two contexts share a unit name exactly
  // when they agree up to the characters that are mapped to '-'.
  lemma {:induction false} UnitNameIff(a: string, b: string)
    ensures Sanitize(a) == Sanitize(b) <==>
              |a| == |b| && forall i :: 0 <= i < |a| ==>
                a[i] == b[i] || ((!UnitChar(a[i]) || a[i] == '-') && (!UnitChar(b[i]) || b[i] == '-'))
  {
    if |a| == |b| && a != "" {
      UnitNameIff(a[1..], b[1..]);
      assert Sanitize(a)[0] == if UnitChar(a[0]) then a[0] else '-';
      assert Sanitize(a)[1..] == Sanitize(a[1..]) && Sanitize(b)[1..] == Sanitize(b[1..]);
      assert a == [a[0]] + a[1..] && b == [b[0]] + b[1..];
    }
  }
}
