/** Words of a POSIX shell command line: IEEE Std 1003.1, Shell Command Language,
    sections 2.2.1 (backslash), 2.2.2 (single quotes) and 2.3 (token
    recognition). A line is read only as far as its words do not depend on an
    expansion, an operator, a pattern or a double quote: otherwise Rejected. */
module Shell {
  import opened Wrappers

  datatype Word = Word(text: string)

  datatype Mode =
    | Between
    | InWord(acc: string)
    | Quoted(acc: string)
    | Escaped(before: Mode)   // after a backslash
    | Comment
    | Rejected

  datatype Command = Command(words: seq<Word>)

  datatype State = State(done: seq<Command>, words: seq<Word>, mode: Mode)

  // Characters that stand for themselves outside quotes.
  predicate Plain(c: char) {
    'a' <= c <= 'z' || 'A' <= c <= 'Z' || '0' <= c <= '9'
    || c == '-' || c == '_' || c == '.' || c == '/' || c == ':' || c == ',' || c == '@' || c == '%' || c == '+'
  }

  predicate Blank(c: char) {
    c == ' ' || c == '\t'
  }

  function EndWord(st: State): State {
    if st.mode.InWord? then st.(words := st.words + [Word(st.mode.acc)], mode := Between) else st
  }

  // A newline ends a command; empty lines are none.
  function EndLine(st: State): State {
    var e := EndWord(st);
    if e.words == [] then e.(mode := Between)
    else State(e.done + [Command(e.words)], [], Between)
  }

  function Append(mode: Mode, c: char): Mode {
    if mode.InWord? then InWord(mode.acc + [c]) else InWord([c])
  }

  function Step(st: State, c: char): State {
    if c == '\0' then st.(mode := Rejected)
    else
      match st.mode
      case Between =>
        if Blank(c) then st
        else if c == '\n' then EndLine(st)
        else if c == '#' then st.(mode := Comment)
        else if c == '\'' then st.(mode := Quoted(""))
        else if c == '\\' then st.(mode := Escaped(Between))
        else if Plain(c) then st.(mode := InWord([c]))
        else st.(mode := Rejected)
      case InWord(acc) =>
        if Blank(c) then EndWord(st)
        else if c == '\n' then EndLine(st)
        else if c == '\'' then st.(mode := Quoted(acc))
        else if c == '\\' then st.(mode := Escaped(InWord(acc)))
        else if Plain(c) || c == '#' then st.(mode := InWord(acc + [c]))
        else st.(mode := Rejected)
      case Quoted(acc) =>
        if c == '\'' then st.(mode := InWord(acc)) else st.(mode := Quoted(acc + [c]))
      case Escaped(before) =>
        // backslash and newline vanish; any other character is quoted
        if c == '\n' then st.(mode := before) else st.(mode := Append(before, c))
      case Comment =>
        if c == '\n' then EndLine(st) else st
      case Rejected => st
  }

  function Run(st: State, s: string): State
    decreases |s|
  {
    if s == "" then st else Run(Step(st, s[0]), s[1..])
  }

  const START := State([], [], Between)

  // The commands of a script, when every quote is closed.
  function Commands(s: string): Option<seq<Command>> {
    var st := Run(START, s);
    if st.mode.Quoted? || st.mode.Escaped? || st.mode.Rejected? then None
    else Some(EndLine(st).done)
  }

  function OneCommand(words: seq<Word>): seq<Command> {
    if words == [] then [] else [Command(words)]
  }

  // A line read to the end of a word is one command.
  lemma OneLine(s: string, words: seq<Word>)
    requires EndWord(Run(START, s)) == State([], words, Between)
    ensures Commands(s) == Some(OneCommand(words))
  {
    assert [] + [Command(words)] == [Command(words)];
  }

  lemma {:induction false} RunConcat(st: State, a: string, b: string)
    ensures Run(st, a + b) == Run(Run(st, a), b)
    decreases |a|
  {
    if a == "" {
      assert a + b == b;
    } else {
      assert (a + b)[1..] == a[1..] + b && (a + b)[0] == a[0];
      RunConcat(Step(st, a[0]), a[1..], b);
    }
  }

  lemma RunOne(st: State, c: char, s: string)
    ensures Run(st, [c] + s) == Run(Step(st, c), s)
  {
    assert ([c] + s)[1..] == s;
  }

  lemma {:induction false} RunPlain(st: State, s: string)
    requires st.mode.InWord? && forall i :: 0 <= i < |s| ==> Plain(s[i])
    ensures Run(st, s) == st.(mode := InWord(st.mode.acc + s))
    decreases |s|
  {
    if s == "" {
      assert st.mode.acc + s == st.mode.acc;
    } else {
      var next := Step(st, s[0]);
      RunPlain(next, s[1..]);
      assert st.mode.acc + [s[0]] + s[1..] == st.mode.acc + s;
    }
  }

  // A plain word and the blank after it.
  lemma PlainWord(st: State, s: string)
    requires st.mode.Between? && s != "" && forall i :: 0 <= i < |s| ==> Plain(s[i])
    ensures Run(st, s + " ") == st.(words := st.words + [Word(s)])
  {
    RunConcat(st, s, " ");
    var first := Step(st, s[0]);
    RunPlain(first, s[1..]);
    assert [s[0]] + s[1..] == s;
    assert " "[1..] == "";
  }

  lemma {:induction false} RunComment(st: State, s: string)
    requires st.mode.Comment? && forall i :: 0 <= i < |s| ==> s[i] != '\n' && s[i] != '\0'
    ensures Run(st, s) == st
    decreases |s|
  {
    if s != "" {
      RunComment(st, s[1..]);
    }
  }

  lemma {:induction false} RunRejected(st: State, s: string)
    requires st.mode.Rejected?
    ensures Run(st, s).mode.Rejected?
    decreases |s|
  {
    if s != "" {
      RunRejected(Step(st, s[0]), s[1..]);
    }
  }
}
