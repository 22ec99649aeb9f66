/**
  What every checker shares: the reported states, the metric record, the
  comparison of two probe errors, and the name filter for metric paths.
 */
module Checker {

  datatype Option<+T> = None | Some(value: T)

  /** A probe error: `None` is Go's nil, `Some(text)` an error with that message. */
  type ErrorText = Option<string>

  datatype State = Collecting | Success | Warn | Error | NotFound | Unknown

  /** The decimal form of the state's number, as it is written into metrics. */
  function Itoa(s: State): string {
    match s
    case Collecting => "0"
    case Success => "1"
    case Warn => "2"
    case Error => "3"
    case NotFound => "4"
    case Unknown => "5"
  }

  /** The numbers of the states, in the order of their declaration. */
  lemma StateNumbers()
    ensures Itoa(Collecting) == "0" && Itoa(Success) == "1" && Itoa(Warn) == "2"
    ensures Itoa(Error) == "3" && Itoa(NotFound) == "4" && Itoa(Unknown) == "5"
  {
  }

  datatype Metric = Metric(name: string, value: string)

  /** Whether an endpoint's error is news: true exactly when the texts differ or
      one of the two is nil. */
  predicate ErrorChanged(previous: ErrorText, current: ErrorText)
    ensures ErrorChanged(previous, current) <==> previous != current
  {
    if previous == current then
      false
    else if previous.Some? && current.Some? then
      previous.value != current.value
    else
      true
  }

  predicate NameChar(c: char) {
    'a' <= c <= 'z' || 'A' <= c <= 'Z' || '0' <= c <= '9' || c == '_' || c == '-'
  }

  /** Every maximal run of other characters becomes one underscore. */
  function Strip(s: string): string {
    StripFrom(s, false)
  }

  function StripFrom(s: string, inRun: bool): string {
    if s == [] then []
    else if NameChar(s[0]) then [s[0]] + StripFrom(s[1..], false)
    else (if inRun then [] else "_") + StripFrom(s[1..], true)
  }

  /** The stripped text has only letters, digits, underscores and hyphens, and it is the text
      itself exactly when that has no others. */
  lemma StripKeepsNames(s: string)
    ensures AllNames(Strip(s))
    ensures Strip(s) == s <==> AllNames(s)
  {
    StripShape(s, false);
  }

  predicate AllNames(s: string) {
    forall i :: 0 <= i < |s| ==>
      'a' <= s[i] <= 'z' || 'A' <= s[i] <= 'Z' || '0' <= s[i] <= '9' || s[i] == '_' || s[i] == '-'
  }

  lemma {:induction false} StripShape(s: string, inRun: bool)
    ensures AllNames(StripFrom(s, inRun)) && |StripFrom(s, inRun)| <= |s|
    ensures !inRun || s == [] || NameChar(s[0]) ==> (StripFrom(s, inRun) == s <==> AllNames(s))
  {
    hide StripFrom, NameChar;
    if s == [] {
      StripNothing(inRun);
    } else {
      var c, rest := s[0], s[1..];
      StripShape(rest, !NameChar(c));
      StripStep(c, rest, inRun);
      OneName(c);
      assert s == [c] + rest;
      assert AllNames(s) <==> AllNames([c]) && AllNames(rest);
    }
  }

  predicate NoNames(s: string) {
    forall i :: 0 <= i < |s| ==> !AllNames([s[i]])
  }

  /** Every run of other characters becomes one underscore, and what stands around it is
      stripped on its own. */
  lemma StripRun(a: string, run: string, b: string)
    requires run != [] && NoNames(run)
    requires a == [] || AllNames([a[|a| - 1]])
    requires b == [] || AllNames([b[0]])
    ensures Strip(a + run + b) == Strip(a) + "_" + Strip(b)
  {
    StripRunFrom(a, run, b, false);
  }

  lemma OneName(c: char)
    ensures AllNames([c]) <==> NameChar(c)
  {
    assert [c][0] == c;
  }

  /** What one character leaves. */
  function Stripped(c: char, inRun: bool): string {
    if NameChar(c) then [c] else if inRun then [] else "_"
  }

  lemma StripStep(c: char, s: string, inRun: bool)
    ensures StripFrom([c] + s, inRun) == Stripped(c, inRun) + StripFrom(s, !NameChar(c))
  {
    assert ([c] + s)[1..] == s;
  }

  lemma {:induction false} StripRunFrom(a: string, run: string, b: string, inRun: bool)
    requires run != [] && NoNames(run) && (a == [] ==> !inRun)
    requires a == [] || AllNames([a[|a| - 1]])
    requires b == [] || AllNames([b[0]])
    ensures StripFrom(a + run + b, inRun) == StripFrom(a, inRun) + "_" + StripFrom(b, false)
  {
    hide StripFrom, Stripped, NameChar, AllNames;
    if a == [] {
      assert a + run + b == run + b;
      StripNothing(inRun);
      StripFirst(run, b);
    } else {
      var c, rest := a[0], a[1..];
      if rest == [] {
        OneName(c);
      } else {
        assert rest[|rest| - 1] == a[|a| - 1];
      }
      StripRunFrom(rest, run, b, !NameChar(c));
      StripStep(c, rest, inRun);
      StripStep(c, rest + run + b, inRun);
      assert a == [c] + rest && a + run + b == [c] + (rest + run + b);
      Regroup(Stripped(c, inRun), StripFrom(rest, !NameChar(c)), "_", StripFrom(b, false));
    }
  }

  lemma Regroup(a: string, b: string, c: string, d: string)
    ensures a + (b + c + d) == (a + b) + c + d
  {
  }

  lemma StripFirst(run: string, b: string)
    requires run != [] && NoNames(run) && (b == [] || AllNames([b[0]]))
    ensures StripFrom(run + b, false) == "_" + StripFrom(b, false)
  {
    hide StripFrom, NameChar, AllNames;
    OneName(run[0]);
    StripStep(run[0], run[1..] + b, false);
    assert NoNames(run[1..]);
    StripRest(run[1..], b);
    assert run + b == [run[0]] + (run[1..] + b);
  }

  lemma StripNothing(inRun: bool)
    ensures StripFrom([], inRun) == []
  {
  }

  lemma {:induction false} StripRest(run: string, b: string)
    requires NoNames(run) && (b == [] || AllNames([b[0]]))
    ensures StripFrom(run + b, true) == StripFrom(b, false)
  {
    hide StripFrom, NameChar, AllNames;
    if run == [] {
      assert run + b == b;
      if b == [] {
        StripNothing(true);
        StripNothing(false);
      } else {
        OneName(b[0]);
        assert b == [b[0]] + b[1..];
        StripStep(b[0], b[1..], true);
        StripStep(b[0], b[1..], false);
      }
    } else {
      OneName(run[0]);
      assert NoNames(run[1..]);
      StripRest(run[1..], b);
      StripStep(run[0], run[1..] + b, true);
      assert run + b == [run[0]] + (run[1..] + b);
    }
  }
}
