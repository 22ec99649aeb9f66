/**
  Changes of layout that the reader of relay configurations does not notice: comments,
  blank lines, lines between clusters, and line breaks inside them.
 */
module ConfigLayout {
  import opened Text
  import opened CarbonCRelay

  predicate OneLine(l: string) {
    '\n' !in l
  }

  /** A file with these lines. */
  function FileText(lines: seq<string>): string {
    if lines == [] then "" else Join(lines, '\n')
  }

  lemma EmptyLine(s: Reading, required: set<string>)
    ensures Lines(s, [""], required) == s
  {
    SplitWhole("", '#');
    SplitWhole("", ' ');
    assert Fields("") == [];
    assert s.fields + Upto([]) == s.fields;
    assert Lines(s, [""], required) == Line(s, "", required);
  }

  /** Reading a file is reading its lines. */
  lemma ParsedLines(lines: seq<string>, required: set<string>)
    requires forall i :: 0 <= i < |lines| ==> OneLine(lines[i])
    ensures Parsed(FileText(lines), required) == Finish(Lines(START, lines, required), required)
  {
    if lines == [] {
      EmptyLine(START, required);
      SplitWhole("", '\n');
    } else {
      SplitJoin(lines, '\n');
    }
  }

  // ---------------------------------------------------------------- changes of layout

  /** The words of these lines, comments left out. */
  function Words(lines: seq<string>): seq<string> {
    if lines == [] then [] else Fields(Cut(lines[0])) + Words(lines[1..])
  }

  /** Whether a cluster is open after these lines: the reader's own notion. */
  predicate OpenAfter(lines: seq<string>) {
    Lines(START, lines, {}).open
  }

  lemma {:induction false} RequiredIsIrrelevant(s: Reading, t: Reading, lines: seq<string>, required: set<string>)
    requires s.open == t.open
    ensures Lines(s, lines, required).open == Lines(t, lines, {}).open
    decreases |lines|
  {
    if lines != [] {
      RequiredIsIrrelevant(Line(s, lines[0], required), Line(t, lines[0], {}), lines[1..], required);
    }
  }

  predicate AllOneLine(lines: seq<string>) {
    forall i :: 0 <= i < |lines| ==> OneLine(lines[i])
  }

  /** Lines that the reader cannot tell apart where they stand can be exchanged. */
  lemma Exchange(pre: seq<string>, x: seq<string>, y: seq<string>, post: seq<string>, required: set<string>)
    requires AllOneLine(pre) && AllOneLine(x) && AllOneLine(y) && AllOneLine(post)
    requires var s := Lines(START, pre, required); Lines(s, x, required) == Lines(s, y, required)
    ensures Parsed(FileText(pre + x + post), required) == Parsed(FileText(pre + y + post), required)
  {
    hide Lines, Finish, Parsed;
    ParsedLines(pre + x + post, required);
    ParsedLines(pre + y + post, required);
    LinesConcat(START, pre + x, post, required);
    LinesConcat(START, pre + y, post, required);
    LinesConcat(START, pre, x, required);
    LinesConcat(START, pre, y, required);
  }

  /** A comment at the end of any line. */
  lemma CommentsDoNotMatter(pre: seq<string>, line: string, comment: string, post: seq<string>, required: set<string>)
    requires AllOneLine(pre) && OneLine(line) && OneLine(comment) && AllOneLine(post)
    ensures Parsed(FileText(pre + [line + "#" + comment] + post), required) ==
            Parsed(FileText(pre + [line] + post), required)
  {
    CutComment(line, comment);
    var longer := line + "#" + comment;
    var s := Lines(START, pre, required);
    assert [longer][1..] == [] && [line][1..] == [];
    assert Line(s, longer, required) == Line(s, line, required);
    assert Lines(s, [longer], required) == Lines(s, [line], required);
    Exchange(pre, [longer], [line], post, required);
  }

  lemma {:induction false} BlankLinesKeep(s: Reading, lines: seq<string>, required: set<string>)
    requires Words(lines) == []
    ensures Lines(s, lines, required) == s
    decreases |lines|
  {
    if lines != [] {
      var l := Cut(lines[0]);
      assert Fields(l) == [] && Words(lines[1..]) == [];
      if IsHeader(l) {
        HeaderHasWords(l);
        assert false;
      }
      assert s.fields + Upto([]) == s.fields;
      BlankLinesKeep(s, lines[1..], required);
    }
  }

  lemma HeaderHasWords(l: string)
    requires IsHeader(l)
    ensures Fields(l) == ["cluster"] + Fields(l[8..])
  {
    assert l == "cluster" + " " + l[8..];
    FieldsConcat("cluster", l[8..]);
    SplitWhole("cluster", ' ');
    assert Fields("cluster") == ["cluster"];
  }

  lemma NoLines(s: Reading, required: set<string>)
    ensures Lines(s, [], required) == s
  {
  }

  /** Lines without words, anywhere. */
  lemma BlankLinesDoNotMatter(pre: seq<string>, blank: seq<string>, post: seq<string>, required: set<string>)
    requires AllOneLine(pre) && AllOneLine(blank) && AllOneLine(post)
    requires Words(blank) == []
    ensures Parsed(FileText(pre + blank + post), required) == Parsed(FileText(pre + post), required)
  {
    hide FileText, Parsed, Lines, Words;
    BlankLinesKeep(Lines(START, pre, required), blank, required);
    NoLines(Lines(START, pre, required), required);
    assert pre + [] + post == pre + post;
    Exchange(pre, blank, [], post, required);
  }

  lemma Regroup(a: seq<string>, b: seq<string>, c: seq<string>)
    ensures a + (b + c) == (a + b) + c
  {
  }

  lemma NoWords()
    ensures Words([]) == []
  {
  }

  lemma FirstWords(lines: seq<string>)
    requires lines != []
    ensures Words(lines) == Fields(Cut(lines[0])) + Words(lines[1..])
  {
  }

  lemma {:induction false} WordsConcat(a: seq<string>, b: seq<string>)
    ensures Words(a + b) == Words(a) + Words(b)
  {
    hide Words, Fields, Cut;
    if a == [] {
      NoWords();
      assert a + b == b;
      assert [] + Words(b) == Words(b);
    } else {
      WordsConcat(a[1..], b);
      var t := a + b;
      assert t[0] == a[0] && t[1..] == a[1..] + b;
      FirstWords(t);
      FirstWords(a);
      Regroup(Fields(Cut(a[0])), Words(a[1..]), Words(b));
    }
  }

  predicate NoHeader(lines: seq<string>) {
    forall i :: 0 <= i < |lines| ==> !IsHeader(Cut(lines[i]))
  }

  lemma {:induction false} OutsideLinesKeep(s: Reading, lines: seq<string>, required: set<string>)
    requires !s.open && NoHeader(lines)
    ensures Lines(s, lines, required) == s
  {
    if lines != [] {
      OutsideLinesKeep(s, lines[1..], required);
    }
  }

  /** Lines outside any cluster that do not start one. */
  lemma OutsideLinesDoNotMatter(pre: seq<string>, extra: seq<string>, post: seq<string>, required: set<string>)
    requires AllOneLine(pre) && AllOneLine(extra) && AllOneLine(post)
    requires !OpenAfter(pre) && NoHeader(extra)
    ensures Parsed(FileText(pre + extra + post), required) == Parsed(FileText(pre + post), required)
  {
    RequiredIsIrrelevant(START, START, pre, required);
    OutsideLinesKeep(Lines(START, pre, required), extra, required);
    NoLines(Lines(START, pre, required), required);
    assert pre + [] + post == pre + post;
    Exchange(pre, extra, [], post, required);
  }

  /** No semicolon but perhaps as the last word. */
  predicate EndsAtSemicolon(ws: seq<string>) {
    forall i :: 0 <= i < |ws| - 1 ==> ws[i] != ";"
  }

  lemma {:induction false} UptoAll(a: seq<string>, b: seq<string>)
    requires ";" !in a
    ensures Upto(a + b) == a + Upto(b)
  {
    if a == [] {
      assert a + b == b;
    } else {
      UptoAll(a[1..], b);
      var t := a + b;
      assert t[0] == a[0] && t[1..] == a[1..] + b;
      assert [a[0]] + (a[1..] + Upto(b)) == a + Upto(b);
    }
  }

  /** What a semicolon that can only be the last word does to the words before it. */
  lemma AtSemicolon(ts: seq<string>, more: seq<string>)
    requires EndsAtSemicolon(ts + more)
    ensures ";" in ts ==> more == []
    ensures EndsAtSemicolon(more)
    ensures Upto(ts + more) == Upto(ts) + Upto(more)
  {
    hide Upto;
    if i :| 0 <= i < |ts| && ts[i] == ";" {
      assert (ts + more)[i] == ts[i];
      assert ts + more == ts && Upto(ts) + [] == Upto(ts);
    } else {
      forall i | 0 <= i < |more| - 1 ensures more[i] != ";" {
        assert (ts + more)[|ts| + i] == more[i];
      }
      UptoAll(ts, []);
      UptoAll(ts, more);
      assert ts + [] == ts;
    }
    UptoNothing();
  }

  lemma UptoNothing()
    ensures Upto([]) == []
  {
  }

  lemma OpenLine(s: Reading, line: string, required: set<string>)
    requires s.open
    ensures var ts := Fields(Cut(line));
            Line(s, line, required) == Reading(";" !in ts, s.fields + Upto(ts), s.clusters)
  {
  }

  /** Inside a cluster only the words count, not the lines they stand on. */
  lemma {:induction false} OpenLines(s: Reading, lines: seq<string>, required: set<string>)
    requires s.open && EndsAtSemicolon(Words(lines))
    ensures Lines(s, lines, required) == Reading(";" !in Words(lines), s.fields + Upto(Words(lines)), s.clusters)
    decreases |lines|
  {
    hide Fields, Cut, Upto, Words, Line, EndsAtSemicolon;
    if lines == [] {
      NoWords();
      UptoNothing();
      assert s.fields + [] == s.fields;
    } else {
      var ts, more := Fields(Cut(lines[0])), Words(lines[1..]);
      var t := Line(s, lines[0], required);
      FirstWords(lines);
      OpenLine(s, lines[0], required);
      AtSemicolon(ts, more);
      Regroup(s.fields, Upto(ts), Upto(more));
      if ";" in ts {
        UptoNothing();
        assert s.fields + Upto(ts) + [] == s.fields + Upto(ts);
        BlankLinesKeep(t, lines[1..], required);
      } else {
        OpenLines(t, lines[1..], required);
      }
    }
  }

  lemma {:induction false} UptoStops(a: seq<string>, b: seq<string>)
    requires ";" in a
    ensures Upto(a + b) == Upto(a)
  {
    var t := a + b;
    assert t[0] == a[0] && t[1..] == a[1..] + b;
    if a[0] != ";" {
      UptoStops(a[1..], b);
    }
  }

  /** Lines that start no cluster give an open one their words, up to a semicolon. */
  lemma {:induction false} LinesAreTaken(s: Reading, lines: seq<string>, required: set<string>)
    requires s.open && NoHeader(lines)
    ensures Lines(s, lines, required) == Reading(";" !in Words(lines), s.fields + Upto(Words(lines)), s.clusters)
    decreases |lines|
  {
    hide Fields, Cut, Upto, Words, Line, NoHeader;
    if lines == [] {
      NoWords();
      UptoNothing();
      assert s.fields + [] == s.fields;
    } else {
      var ts, more := Fields(Cut(lines[0])), Words(lines[1..]);
      var t := Line(s, lines[0], required);
      NoHeaderAfter(lines);
      FirstWords(lines);
      OpenLine(s, lines[0], required);
      if ";" in ts {
        UptoStops(ts, more);
        OutsideLinesKeep(t, lines[1..], required);
      } else {
        UptoAll(ts, []);
        UptoNothing();
        assert ts + [] == ts;
        UptoAll(ts, more);
        Regroup(s.fields, ts, Upto(more));
        LinesAreTaken(t, lines[1..], required);
      }
    }
  }

  lemma NoHeaderAfter(lines: seq<string>)
    requires NoHeader(lines) && lines != []
    ensures NoHeader(lines[1..])
  {
  }

  /** The words of an open cluster, up to and including its semicolon, on other lines. */
  lemma LineBreaksDoNotMatter(pre: seq<string>, x: seq<string>, y: seq<string>, post: seq<string>,
                              required: set<string>)
    requires AllOneLine(pre) && AllOneLine(x) && AllOneLine(y) && AllOneLine(post)
    requires OpenAfter(pre) && Words(x) == Words(y) && EndsAtSemicolon(Words(x))
    ensures Parsed(FileText(pre + x + post), required) == Parsed(FileText(pre + y + post), required)
  {
    RequiredIsIrrelevant(START, START, pre, required);
    var s := Lines(START, pre, required);
    OpenLines(s, x, required);
    OpenLines(s, y, required);
    Exchange(pre, x, y, post, required);
  }
}
