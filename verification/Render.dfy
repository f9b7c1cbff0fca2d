/** pkg/provision/envoygateway/render.go: splitting and joining a YAML stream,
    and shaping the install manifest. */
module Render {
  import opened Sequences

  // ---------- Lines ----------

  // Length of the first line with its newline, as strings.SplitAfter cuts it.
  function LineLen(s: string): (n: nat)
    ensures n <= |s| && (s != "" ==> n > 0)
    ensures '\n' !in s ==> n == |s|
    ensures '\n' in s ==> n > 0 && s[n - 1] == '\n'
    ensures forall i :: 0 <= i < n - 1 ==> s[i] != '\n'
  {
    if s == "" then 0 else if s[0] == '\n' then 1 else 1 + LineLen(s[1..])
  }

  predicate Blank(c: char) {
    c == ' ' || c == '\t' || c == '\r' || c == '\n'
  }

  // strings.TrimRight(line, " \t\r\n")
  function TrimRight(line: string): string {
    if line != "" && Blank(line[|line| - 1]) then TrimRight(line[..|line| - 1]) else line
  }

  predicate IsSeparator(line: string) {
    TrimRight(line) == "---"
  }

  // unicode.IsSpace
  predicate Space(c: char) {
    || Blank(c) || c == '\U{000B}' || c == '\U{000C}' || c == '\U{0085}' || c == '\U{00A0}'
    || c == '\U{1680}' || '\U{2000}' <= c <= '\U{200A}' || c == '\U{2028}' || c == '\U{2029}'
    || c == '\U{202F}' || c == '\U{205F}' || c == '\U{3000}'
  }

  // Its code points, in decimal.
  lemma SpaceIff(c: char)
    ensures Space(c) <==>
              var n := c as int;
              || 9 <= n <= 13 || n == 32 || n == 133 || n == 160 || n == 5760 || 8192 <= n <= 8202
              || n == 8232 || n == 8233 || n == 8239 || n == 8287 || n == 12288
  {
  }

  // A line that is neither empty nor a comment, once trimmed.
  predicate ContentLine(line: string) {
    line != "" && if Space(line[0]) then ContentLine(line[1..]) else line[0] != '#'
  }

  // A separator is three dashes and nothing but blanks after them.
  lemma {:induction false} SeparatorIff(line: string)
    ensures IsSeparator(line) <==>
              "---" <= line && forall i :: 3 <= i < |line| ==> line[i] in " \t\r\n"
  {
    TrimIs(line);
    var kept := TrimRight(line);
    if "---" <= line && forall i :: 3 <= i < |line| ==> line[i] in " \t\r\n" {
      assert line[2] == '-';
      assert kept == line[..3];
    }
  }

  // What is left is a prefix that ends in no blank, with only blanks after it.
  lemma {:induction false} TrimIs(line: string)
    ensures TrimRight(line) <= line
    ensures TrimRight(line) != "" ==> TrimRight(line)[|TrimRight(line)| - 1] !in " \t\r\n"
    ensures forall i :: |TrimRight(line)| <= i < |line| ==> line[i] in " \t\r\n"
  {
    if line != "" && Blank(line[|line| - 1]) {
      TrimIs(line[..|line| - 1]);
    }
  }

  // A line has content when its first character that is no white space is there
  // and no comment sign.
  lemma {:induction false} ContentIff(line: string)
    ensures ContentLine(line) <==>
              exists i :: 0 <= i < |line| && !Space(line[i]) && line[i] != '#'
                          && forall j :: 0 <= j < i ==> Space(line[j])
  {
    if line != "" && Space(line[0]) {
      var rest := line[1..];
      ContentIff(rest);
      if i :| 0 <= i < |rest| && !Space(rest[i]) && rest[i] != '#' && forall j :: 0 <= j < i ==> Space(rest[j]) {
        assert line[i + 1] == rest[i];
        assert forall j :: 0 < j < i + 1 ==> line[j] == rest[j - 1];
      }
      if i :| 0 <= i < |line| && !Space(line[i]) && line[i] != '#' && forall j :: 0 <= j < i ==> Space(line[j]) {
        assert rest[i - 1] == line[i];
        assert forall j :: 0 <= j < i - 1 ==> rest[j] == line[j + 1];
      }
    }
  }

  // ---------- splitDocuments and joinDocuments ----------

  datatype Doc = Doc(text: string)

  predicate HasContent(s: string)
    decreases |s|
  {
    s != "" && (ContentLine(s[..LineLen(s)]) || HasContent(s[LineLen(s)..]))
  }

  function Flush(cur: string): seq<Doc> {
    if HasContent(cur) then [Doc(cur)] else []
  }

  // The documents of the rest of a stream, cur being buffered.
  function SplitFrom(s: string, cur: string): seq<Doc>
    decreases |s|
  {
    if s == "" then Flush(cur)
    else
      var line, rest := s[..LineLen(s)], s[LineLen(s)..];
      if IsSeparator(line) then Flush(cur) + SplitFrom(rest, "") else SplitFrom(rest, cur + line)
  }

  function Split(stream: string): seq<Doc> {
    SplitFrom(stream, "")
  }

  function WithNewline(d: Doc): Doc {
    if d.text != "" && d.text[|d.text| - 1] != '\n' then Doc(d.text + "\n") else d
  }

  function Join(docs: seq<Doc>): string {
    if docs == [] then "" else "---\n" + (WithNewline(docs[0]).text + Join(docs[1..]))
  }

  method SplitDocuments(stream: string) returns (docs: seq<Doc>)
    ensures docs == Split(stream)
  {
    docs := [];
    var cur, rest := "", stream;
    while rest != ""
      invariant docs + SplitFrom(rest, cur) == Split(stream)
      decreases |rest|
    {
      var line, tail := rest[..LineLen(rest)], rest[LineLen(rest)..];
      if IsSeparator(line) {
        Associative(docs, Flush(cur), SplitFrom(tail, ""));
        docs, cur := docs + Flush(cur), "";
      } else {
        cur := cur + line;
      }
      rest := tail;
    }
    docs := docs + Flush(cur);
  }

  lemma JoinStep(stream: string, d: string, rest: string)
    ensures (stream + "---\n" + d) + rest == stream + ("---\n" + (d + rest))
    ensures (stream + "---\n" + d + "\n") + rest == stream + ("---\n" + ((d + "\n") + rest))
  {
  }

  method JoinDocuments(docs: seq<Doc>) returns (stream: string)
    ensures stream == Join(docs)
  {
    stream := "";
    for i := 0 to |docs|
      invariant stream + Join(docs[i..]) == Join(docs)
    {
      var d := docs[i].text;
      assert docs[i..][1..] == docs[i + 1..];
      JoinStep(stream, d, Join(docs[i + 1..]));
      stream := stream + "---\n" + d;
      if d != "" && d[|d| - 1] != '\n' {
        stream := stream + "\n";
      }
    }
  }

  // ---------- Split after join ----------

  ghost predicate NoSeparator(s: string)
    decreases |s|
  {
    s == "" || (!IsSeparator(s[..LineLen(s)]) && NoSeparator(s[LineLen(s)..]))
  }

  // What a document of a split looks like.
  ghost predicate Clean(d: Doc) {
    HasContent(d.text) && NoSeparator(d.text)
  }

  predicate Ended(s: string) {
    s == "" || s[|s| - 1] == '\n'
  }

  lemma LineOfAppend(a: string, b: string)
    requires a != "" && Ended(a)
    ensures LineLen(a + b) == LineLen(a)
    ensures (a + b)[..LineLen(a)] == a[..LineLen(a)] && (a + b)[LineLen(a)..] == a[LineLen(a)..] + b
  {
    var n, m := LineLen(a), LineLen(a + b);
    assert '\n' in a && (a + b)[n - 1] == a[n - 1] == '\n';
    assert '\n' in a + b && (a + b)[m - 1] == '\n';
    assert m <= n;
    assert a[m - 1] == '\n';
  }

  lemma OneLine(s: string)
    requires s != ""
    ensures var line := s[..LineLen(s)];
            LineLen(line) == |line| && (s[LineLen(s)..] != "" ==> Ended(line))
  {
    var n := LineLen(s);
    var line := s[..n];
    if '\n' in line {
      assert '\n' in s;
      var m := LineLen(line);
      assert line[m - 1] == s[m - 1];
    }
  }

  lemma FirstLine(d: string)
    requires d != "" && Ended(d)
    ensures var line := d[..LineLen(d)];
            line != "" && Ended(line) && LineLen(line) == |line| && Ended(d[LineLen(d)..])
            && line + d[LineLen(d)..] == d
  {
    OneLine(d);
    assert '\n' in d;
  }

  lemma NoSeparatorLine(line: string, rest: string, whole: string)
    requires line != "" && Ended(line) && LineLen(line) == |line| && whole == line + rest
    ensures NoSeparator(whole) <==> !IsSeparator(line) && NoSeparator(rest)
  {
    LineOfAppend(line, rest);
    assert line[..|line|] == line && line[|line|..] + rest == rest;
  }

  lemma {:induction false} NoSeparatorAppend(a: string, line: string, whole: string)
    requires NoSeparator(a) && Ended(a) && whole == a + line
    requires LineLen(line) == |line| && !IsSeparator(line)
    ensures NoSeparator(whole)
    decreases |a|
  {
    if a == "" {
      assert whole == line && line[..|line|] == line && line[|line|..] == "";
    } else {
      var first, tail := a[..LineLen(a)], a[LineLen(a)..];
      FirstLine(a);
      NoSeparatorLine(first, tail, a);
      var more := tail + line;
      NoSeparatorAppend(tail, line, more);
      Reassociate(a, first, tail, line, whole, more);
      NoSeparatorLine(first, more, whole);
    }
  }

  lemma Reassociate(a: string, first: string, tail: string, line: string, whole: string, more: string)
    requires a == first + tail && whole == a + line && more == tail + line
    ensures whole == first + more
  {
  }

  lemma BothClean(a: seq<Doc>, b: seq<Doc>, whole: seq<Doc>)
    requires whole == a + b
    requires (forall i :: 0 <= i < |a| ==> Clean(a[i])) && forall i :: 0 <= i < |b| ==> Clean(b[i])
    ensures forall i :: 0 <= i < |whole| ==> Clean(whole[i])
  {
  }

  lemma {:induction false} SplitIsClean(s: string, cur: string)
    requires NoSeparator(cur) && Ended(cur)
    ensures forall i :: 0 <= i < |SplitFrom(s, cur)| ==> Clean(SplitFrom(s, cur)[i])
    decreases |s|
  {
    if s != "" {
      var n := LineLen(s);
      var line, rest := s[..n], s[n..];
      OneLine(s);
      if IsSeparator(line) {
        SplitIsClean(rest, "");
        BothClean(Flush(cur), SplitFrom(rest, ""), SplitFrom(s, cur));
      } else {
        NoSeparatorAppend(cur, line, cur + line);
        if rest == "" {
          assert SplitFrom(s, cur) == Flush(cur + line);
        } else {
          SplitIsClean(rest, cur + line);
        }
      }
    }
  }

  lemma SplitLine(line: string, rest: string, cur: string)
    requires line != "" && Ended(line) && LineLen(line) == |line| && !IsSeparator(line)
    ensures SplitFrom(line + rest, cur) == SplitFrom(rest, cur + line)
  {
    LineOfAppend(line, rest);
    assert line[..|line|] == line && line[|line|..] + rest == rest;
  }

  lemma AppendLine(cur: string, line: string, d: string, rest: string)
    ensures (cur + line) + d == cur + (line + d) && (line + d) + rest == line + (d + rest)
  {
  }

  lemma {:induction false} SplitPast(d: string, rest: string, cur: string)
    requires NoSeparator(d) && Ended(d)
    ensures SplitFrom(d + rest, cur) == SplitFrom(rest, cur + d)
    decreases |d|
  {
    if d == "" {
      assert d + rest == rest && cur + d == cur;
    } else {
      var line, tail := d[..LineLen(d)], d[LineLen(d)..];
      FirstLine(d);
      AppendLine(cur, line, tail, rest);
      SplitLine(line, tail + rest, cur);
      SplitPast(tail, rest, cur + line);
    }
  }

  // A missing final newline changes neither what is a separator nor content.
  lemma TrimNewline(line: string)
    ensures TrimRight(line + "\n") == TrimRight(line)
  {
    assert (line + "\n")[..|line|] == line;
  }

  lemma {:induction false} ContentNewline(line: string)
    ensures ContentLine(line + "\n") == ContentLine(line)
  {
    if line != "" {
      assert (line + "\n")[1..] == line[1..] + "\n";
      ContentNewline(line[1..]);
    } else {
      assert (line + "\n")[1..] == "";
    }
  }

  lemma {:induction false} EndedIsSame(s: string, whole: string)
    requires !Ended(s) && whole == s + "\n"
    ensures NoSeparator(whole) == NoSeparator(s) && HasContent(whole) == HasContent(s)
    decreases |s|
  {
    var line, tail := s[..LineLen(s)], s[LineLen(s)..];
    OneLine(s);
    if tail == "" {
      LastLineIsSame(s, whole);
    } else {
      assert tail[|tail| - 1] == s[|s| - 1];
      assert line + tail == s;
      FirstLineStays(line, tail);
      EndedIsSame(tail, tail + "\n");
    }
  }

  lemma LastLineIsSame(s: string, whole: string)
    requires s != "" && LineLen(s) == |s| && !Ended(s) && whole == s + "\n"
    ensures NoSeparator(whole) == NoSeparator(s) && HasContent(whole) == HasContent(s)
  {
    LastLine(s);
    TrimNewline(s);
    ContentNewline(s);
  }

  lemma LastLine(s: string)
    requires s != "" && LineLen(s) == |s| && !Ended(s)
    ensures LineLen(s + "\n") == |s| + 1
    ensures s[..|s|] == s && s[|s|..] == ""
    ensures (s + "\n")[..|s| + 1] == s + "\n" && (s + "\n")[|s| + 1..] == ""
  {
    var t := s + "\n";
    assert t[|s|] == '\n';
    var m := LineLen(t);
    assert t[m - 1] == '\n';
    assert forall i :: 0 <= i < |s| ==> t[i] == s[i];
  }

  lemma FirstLineStays(line: string, tail: string)
    requires line != "" && Ended(line) && LineLen(line) == |line|
    ensures var s := (line + tail) + "\n";
            LineLen(s) == |line| && s[..|line|] == line && s[|line|..] == tail + "\n"
  {
    LineOfAppend(line, tail + "\n");
    assert (line + tail) + "\n" == line + (tail + "\n");
    assert line[..|line|] == line && line[|line|..] + (tail + "\n") == tail + "\n";
  }

  lemma CleanNewline(d: Doc)
    requires Clean(d)
    ensures Clean(WithNewline(d)) && Ended(WithNewline(d).text)
  {
    if !Ended(d.text) {
      EndedIsSame(d.text, d.text + "\n");
    }
  }

  function Newlines(docs: seq<Doc>): seq<Doc> {
    if docs == [] then [] else [WithNewline(docs[0])] + Newlines(docs[1..])
  }

  // Splitting a joined stream gives the documents, with final newlines.
  lemma {:induction false} SplitOfJoin(docs: seq<Doc>, cur: string)
    requires forall i :: 0 <= i < |docs| ==> Clean(docs[i])
    ensures SplitFrom(Join(docs), cur) == Flush(cur) + Newlines(docs)
    decreases |docs|
  {
    if docs == [] {
      assert Flush(cur) + Newlines(docs) == Flush(cur);
    } else {
      var d := WithNewline(docs[0]).text;
      SplitOfJoin(docs[1..], d);
      CleanNewline(docs[0]);
      OneJoined(d, Join(docs[1..]), cur);
      Associative(Flush(cur), [WithNewline(docs[0])], Newlines(docs[1..]));
      Associative(Flush(cur), Flush(d), Newlines(docs[1..]));
    }
  }

  lemma OneJoined(d: string, tail: string, cur: string)
    requires Clean(Doc(d)) && Ended(d)
    ensures SplitFrom("---\n" + (d + tail), cur) == Flush(cur) + SplitFrom(tail, d)
  {
    SeparatorFirst(d + tail, cur);
    SplitPast(d, tail, "");
    assert "" + d == d;
  }

  lemma SeparatorFirst(rest: string, cur: string)
    ensures SplitFrom("---\n" + rest, cur) == Flush(cur) + SplitFrom(rest, "")
  {
    var s := "---\n" + rest;
    assert s[3] == '\n' && s[0] == '-' && s[1] == '-' && s[2] == '-';
    assert LineLen("---\n") == 4;
    LineOfAppend("---\n", rest);
    assert s[..4] == "---\n" && s[4..] == rest;
    TrimNewline("---");
    assert "---" + "\n" == "---\n";
  }

  // A stream is its documents in order,
  lemma {:induction false} JoinConcat(a: seq<Doc>, b: seq<Doc>)
    ensures Join(a + b) == Join(a) + Join(b)
  {
    if a == [] {
      assert a + b == b;
    } else {
      assert (a + b)[1..] == a[1..] + b;
      JoinConcat(a[1..], b);
      Grouped("---\n", WithNewline(a[0]).text, Join(a[1..]), Join(b));
    }
  }

  lemma Grouped(a: string, b: string, c: string, d: string)
    ensures a + (b + (c + d)) == (a + (b + c)) + d
  {
  }

  // each after a separator line and with its last line ended.
  lemma JoinOne(d: Doc)
    ensures Join([]) == ""
    ensures d.text == "" || d.text[|d.text| - 1] == '\n' ==> Join([d]) == "---\n" + d.text
    ensures d.text != "" && d.text[|d.text| - 1] != '\n' ==> Join([d]) == "---\n" + (d.text + "\n")
  {
    assert [d][1..] == [];
    var text := WithNewline(d).text;
    assert text + "" == text;
  }

  // Join after split changes a stream once and then no more.
  lemma JoinAfterSplit(stream: string)
    ensures var docs := Split(stream);
            && Split(Join(docs)) == Newlines(docs)
            && Join(Split(Join(docs))) == Join(docs)
  {
    SplitIsClean(stream, "");
    SplitJoined(Split(stream));
    JoinNewlines(Split(stream));
  }

  lemma SplitJoined(docs: seq<Doc>)
    requires forall i :: 0 <= i < |docs| ==> Clean(docs[i])
    ensures Split(Join(docs)) == Newlines(docs)
  {
    SplitOfJoin(docs, "");
    assert Flush("") + Newlines(docs) == Newlines(docs);
  }

  lemma {:induction false} JoinNewlines(docs: seq<Doc>)
    ensures Join(Newlines(docs)) == Join(docs)
  {
    if docs != [] {
      JoinNewlines(docs[1..]);
      assert Newlines(docs)[1..] == Newlines(docs[1..]);
      assert WithNewline(WithNewline(docs[0])) == WithNewline(docs[0]);
    }
  }

  // ---------- Nothing is lost ----------

  // The lines with content, separators aside.
  function ContentLines(s: string): seq<Doc>
    decreases |s|
  {
    if s == "" then []
    else OfLine(s[..LineLen(s)]) + ContentLines(s[LineLen(s)..])
  }

  function OfLine(line: string): seq<Doc> {
    if ContentLine(line) && !IsSeparator(line) then [Doc(line)] else []
  }

  function AllContentLines(docs: seq<Doc>): seq<Doc> {
    if docs == [] then [] else ContentLines(docs[0].text) + AllContentLines(docs[1..])
  }

  lemma {:induction false} AllConcat(a: seq<Doc>, b: seq<Doc>)
    ensures AllContentLines(a + b) == AllContentLines(a) + AllContentLines(b)
    decreases |a|
  {
    if a == [] {
      assert a + b == b;
    } else {
      assert (a + b)[1..] == a[1..] + b;
      AllConcat(a[1..], b);
      Associative(ContentLines(a[0].text), AllContentLines(a[1..]), AllContentLines(b));
    }
  }

  lemma ContentOfLine(line: string, rest: string, whole: string)
    requires line != "" && Ended(line) && LineLen(line) == |line| && whole == line + rest
    ensures ContentLines(whole) == OfLine(line) + ContentLines(rest)
  {
    LineOfAppend(line, rest);
    assert line[..|line|] == line && line[|line|..] + rest == rest;
  }

  lemma LastContent(line: string)
    requires line != "" && LineLen(line) == |line|
    ensures ContentLines(line) == OfLine(line)
  {
    assert line[..|line|] == line && line[|line|..] == "";
    assert OfLine(line) + [] == OfLine(line);
  }

  lemma {:induction false} ContentAppend(a: string, line: string, whole: string)
    requires Ended(a) && line != "" && LineLen(line) == |line| && whole == a + line
    ensures ContentLines(whole) == ContentLines(a) + OfLine(line)
    decreases |a|
  {
    if a == "" {
      assert whole == line;
      LastContent(line);
      assert [] + OfLine(line) == OfLine(line);
    } else {
      var first, tail := a[..LineLen(a)], a[LineLen(a)..];
      FirstLine(a);
      var more := tail + line;
      ContentAppend(tail, line, more);
      Reassociate(a, first, tail, line, whole, more);
      ContentOfLine(first, more, whole);
      Associative(OfLine(first), ContentLines(tail), OfLine(line));
    }
  }

  lemma {:induction false} NoContentLines(s: string)
    requires NoSeparator(s) && !HasContent(s)
    ensures ContentLines(s) == []
    decreases |s|
  {
    if s != "" {
      NoContentLines(s[LineLen(s)..]);
    }
  }

  lemma FlushedLines(cur: string)
    requires NoSeparator(cur)
    ensures AllContentLines(Flush(cur)) == ContentLines(cur)
  {
    if HasContent(cur) {
      assert [Doc(cur)][1..] == [];
      assert ContentLines(cur) + [] == ContentLines(cur);
    } else {
      NoContentLines(cur);
    }
  }

  lemma {:induction false} SplitKeepsContent(s: string, cur: string)
    requires NoSeparator(cur) && Ended(cur)
    ensures AllContentLines(SplitFrom(s, cur)) == ContentLines(cur) + ContentLines(s)
    decreases |s|
  {
    if s == "" {
      FlushedLines(cur);
      assert ContentLines(cur) + [] == ContentLines(cur);
    } else {
      var line, rest := s[..LineLen(s)], s[LineLen(s)..];
      OneLine(s);
      if IsSeparator(line) {
        SplitKeepsContent(rest, "");
        AtSeparator(cur, SplitFrom(rest, ""), ContentLines(rest));
        assert OfLine(line) + ContentLines(rest) == ContentLines(rest);
      } else {
        var next := cur + line;
        NoSeparatorAppend(cur, line, next);
        ContentAppend(cur, line, next);
        if rest == "" {
          FlushedLines(next);
          assert ContentLines(rest) == [];
          Ends(ContentLines(cur), OfLine(line));
        } else {
          SplitKeepsContent(rest, next);
          Associative(ContentLines(cur), OfLine(line), ContentLines(rest));
        }
      }
    }
  }

  lemma Ends(a: seq<Doc>, b: seq<Doc>)
    ensures a + (b + []) == a + b
  {
  }

  lemma AtSeparator(cur: string, docs: seq<Doc>, lines: seq<Doc>)
    requires NoSeparator(cur) && AllContentLines(docs) == ContentLines("") + lines
    ensures AllContentLines(Flush(cur) + docs) == ContentLines(cur) + lines
  {
    FlushedLines(cur);
    AllConcat(Flush(cur), docs);
    assert [] + lines == lines;
  }

  // The documents hold every line of the stream that says something, in order.
  lemma SplitLosesNothing(stream: string)
    ensures AllContentLines(Split(stream)) == ContentLines(stream)
  {
    SplitKeepsContent(stream, "");
    assert [] + ContentLines(stream) == ContentLines(stream);
  }
}
