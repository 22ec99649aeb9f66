/**
  Splitting text: Go's strings.Split for a one-character separator, its inverse, and
  the two ways in which the parser of relay configurations takes a line apart.
 */
module Text {

  /** One more character in front of split text. */
  function Push(x: char, c: char, parts: seq<string>): (more: seq<string>)
    requires parts != []
    ensures more != []
  {
    if x == c then [""] + parts else [[x] + parts[0]] + parts[1..]
  }

  /** strings.Split: the pieces between the separators; never empty. */
  function Split(s: string, c: char): (parts: seq<string>)
    ensures parts != [] && forall i :: 0 <= i < |parts| ==> c !in parts[i]
  {
    if s == "" then [""] else Push(s[0], c, Split(s[1..], c))
  }

  function Join(parts: seq<string>, c: char): string
    requires parts != []
  {
    if |parts| == 1 then parts[0] else parts[0] + [c] + Join(parts[1..], c)
  }

  lemma {:induction false} SplitWhole(s: string, c: char)
    requires c !in s
    ensures Split(s, c) == [s]
  {
    if s != "" {
      SplitWhole(s[1..], c);
      assert [s[0]] + s[1..] == s;
    }
  }

  lemma PushSeparator(c: char, parts: seq<string>)
    requires parts != []
    ensures Push(c, c, parts) == [""] + parts
  {
  }

  lemma PushConcat(x: char, c: char, a: seq<string>, b: seq<string>)
    requires a != []
    ensures Push(x, c, a + b) == Push(x, c, a) + b
  {
    assert (a + b)[1..] == a[1..] + b;
  }

  lemma {:induction false} SplitAt(a: string, b: string, c: char)
    ensures Split(a + [c] + b, c) == Split(a, c) + Split(b, c)
  {
    hide Push;
    var t := a + [c] + b;
    if a == "" {
      assert t[1..] == b;
      PushSeparator(c, Split(b, c));
    } else {
      SplitAt(a[1..], b, c);
      assert t[1..] == a[1..] + [c] + b;
      PushConcat(a[0], c, Split(a[1..], c), Split(b, c));
    }
  }

  /** The first piece starts with all that comes before the first separator. */
  lemma {:induction false} SplitFirst(a: string, b: string, c: char)
    requires c !in a
    ensures Split(a + b, c)[0] == a + Split(b, c)[0]
  {
    if a == "" {
      assert a + b == b;
    } else {
      SplitFirst(a[1..], b, c);
      assert (a + b)[1..] == a[1..] + b;
    }
  }

  /** Splitting undoes joining, and joining undoes splitting. */
  lemma {:induction false} SplitJoin(parts: seq<string>, c: char)
    requires parts != [] && forall i :: 0 <= i < |parts| ==> c !in parts[i]
    ensures Split(Join(parts, c), c) == parts
  {
    SplitWhole(parts[0], c);
    if |parts| == 1 {
      assert parts == [parts[0]];
    } else {
      SplitJoin(parts[1..], c);
      SplitAt(parts[0], Join(parts[1..], c), c);
      assert parts == [parts[0]] + parts[1..];
    }
  }

  lemma {:induction false} JoinSplit(s: string, c: char)
    ensures Join(Split(s, c), c) == s
  {
    if s != "" {
      JoinSplit(s[1..], c);
      var rest, parts := Split(s[1..], c), Split(s, c);
      if s[0] == c {
        assert parts[1..] == rest;
      } else if |rest| > 1 {
        assert parts[1..] == rest[1..];
      }
    }
  }

  /** What does not occur in a text does not occur in its pieces. */
  lemma {:induction false} SplitWithin(s: string, c: char, d: char)
    requires d !in s
    ensures forall i :: 0 <= i < |Split(s, c)| ==> d !in Split(s, c)[i]
  {
    if s != "" {
      assert d !in s[1..];
      SplitWithin(s[1..], c, d);
    }
  }

  /** The line without its comment. */
  function Cut(line: string): (l: string)
    ensures '#' !in l
  {
    Split(line, '#')[0]
  }

  lemma CutComment(line: string, comment: string)
    ensures Cut(line + "#" + comment) == Cut(line)
  {
    SplitAt(line, comment, '#');
  }

  function NonEmpty(parts: seq<string>): seq<string> {
    if parts == [] then []
    else (if parts[0] == "" then [] else [parts[0]]) + NonEmpty(parts[1..])
  }

  lemma NonEmptyStep(part: string, more: seq<string>)
    ensures NonEmpty([]) == []
    ensures NonEmpty([part] + more) == (if part == "" then [] else [part]) + NonEmpty(more)
  {
    assert ([part] + more)[1..] == more;
  }

  lemma {:induction false} NonEmptyConcat(a: seq<string>, b: seq<string>)
    ensures NonEmpty(a + b) == NonEmpty(a) + NonEmpty(b)
  {
    hide NonEmpty;
    if a == [] {
      NonEmptyStep("", b);
      assert a + b == b;
    } else {
      NonEmptyConcat(a[1..], b);
      NonEmptyStep(a[0], a[1..]);
      NonEmptyStep(a[0], a[1..] + b);
      assert a == [a[0]] + a[1..] && a + b == [a[0]] + (a[1..] + b);
    }
  }

  /** The words of a line: what stands between spaces. */
  function Fields(l: string): seq<string> {
    NonEmpty(Split(l, ' '))
  }

  predicate Word(w: string) {
    w != "" && ' ' !in w
  }

  lemma {:induction false} NonEmptyKeepsWords(ws: seq<string>)
    requires forall i :: 0 <= i < |ws| ==> ws[i] != ""
    ensures NonEmpty(ws) == ws
  {
    if ws != [] {
      NonEmptyKeepsWords(ws[1..]);
    }
  }

  /** Words joined by single spaces are the line's fields. */
  lemma FieldsOfWords(ws: seq<string>)
    requires ws != [] && forall i :: 0 <= i < |ws| ==> Word(ws[i])
    ensures Fields(Join(ws, ' ')) == ws
  {
    SplitJoin(ws, ' ');
    NonEmptyKeepsWords(ws);
  }

  /** A space separates words, and nothing is no word: more space changes nothing. */
  lemma FieldsConcat(a: string, b: string)
    ensures Fields(a + " " + b) == Fields(a) + Fields(b)
    ensures Fields("") == []
  {
    SplitAt(a, b, ' ');
    NonEmptyConcat(Split(a, ' '), Split(b, ' '));
  }

  /** strings.TrimRight for a one-character cutset. */
  function TrimRight(s: string, c: char): string {
    if s != "" && s[|s| - 1] == c then TrimRight(s[..|s| - 1], c) else s
  }

  function Count(s: string, c: char): nat {
    if s == "" then 0 else (if s[0] == c then 1 else 0) + Count(s[1..], c)
  }

  lemma {:induction false} CountConcat(a: string, b: string, c: char)
    ensures Count(a + b, c) == Count(a, c) + Count(b, c)
  {
    if a == "" {
      assert a + b == b;
    } else {
      CountConcat(a[1..], b, c);
      assert (a + b)[1..] == a[1..] + b;
    }
  }

  lemma {:induction false} CountAbsent(s: string, c: char)
    ensures Count(s, c) == 0 <==> c !in s
  {
    if s != "" {
      CountAbsent(s[1..], c);
    }
  }

  lemma {:induction false} SplitCounts(s: string, c: char)
    ensures |Split(s, c)| == Count(s, c) + 1
  {
    if s != "" {
      SplitCounts(s[1..], c);
    }
  }
}
