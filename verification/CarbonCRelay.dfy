/**
  Reading the clusters out of a carbon-c-relay configuration: a line-by-line state
  machine gathers the words of each cluster, and a token skipper picks the endpoints
  among them.
 */
module CarbonCRelay {
  import opened Checker
  import opened Lists
  import opened Text
  import CarbonNetwork

  // ---------------------------------------------------------------- the words of one cluster

  /** Words that stand alone, that take an argument, and that end the endpoints. */
  const WORDS: set<string> :=
    {"forward", "any_of", "failover", "useall", "carbon_ch", "fnv1a_ch", "jump_fnv1a_ch", "lb", "dynamic"}
  const SETTINGS: set<string> := {"replication", "connections", "ttl", "ttl_jitter"}
  const CLAUSES: set<string> := {"proto", "type", "transport"}

  const DEFAULT_PORT := ":2003"

  /** The address in an endpoint token: what precedes the instance, with a port. */
  function Address(token: string): string {
    var parts := Split(Split(token, '=')[0], ':');
    if |parts| == 1 then parts[0] + DEFAULT_PORT else parts[0] + ":" + parts[1]
  }

  function Rest(ts: seq<string>, n: nat): (rest: seq<string>)
    ensures |rest| <= |ts| && (ts != [] && n > 0 ==> |rest| < |ts|)
  {
    if n <= |ts| then ts[n..] else []
  }

  function Prepend(eps: seq<string>, more: Option<seq<string>>): Option<seq<string>> {
    if more.Some? then Some(eps + more.value) else None
  }

  /** The endpoints among the words that follow a cluster's name; none at all for a
      cluster that writes to a file. */
  function Scan(ts: seq<string>): Option<seq<string>>
    decreases |ts|
  {
    if ts == [] then Some([])
    else if ts[0] == "file" then None
    else if ts[0] in WORDS then Scan(Rest(ts, 1))
    else if ts[0] in SETTINGS then Scan(Rest(ts, 2))
    else if ts[0] in CLAUSES then Some([])
    else Prepend([Address(ts[0])], Scan(Rest(ts, 1)))
  }

  function NewCluster(name: string, required: bool, endpoints: seq<string>): CarbonNetwork.ClusterView {
    CarbonNetwork.ClusterView(name, required, endpoints, seq(|endpoints|, _ => None))
  }

  /** The cluster that these words describe, if it has endpoints to check. */
  function ClusterOf(fields: seq<string>, required: set<string>): Option<CarbonNetwork.ClusterView> {
    if |fields| < 4 then None
    else
      var eps := Scan(fields[2..]);
      if eps.None? || eps.value == [] then None else Some(NewCluster(fields[1], fields[1] in required, eps.value))
  }

  // ---------------------------------------------------------------- the lines of the file

  /** The reader between two lines; `open` inside a cluster, whose words so far are
      `fields`. Outside they are those of the latest cluster. */
  datatype Reading = Reading(open: bool, fields: seq<string>, clusters: seq<CarbonNetwork.ClusterView>)

  const START := Reading(false, [], [])

  predicate IsHeader(l: string) {
    "cluster " <= l
  }

  /** The words before the first semicolon. */
  function Upto(ts: seq<string>): seq<string> {
    if ts == [] || ts[0] == ";" then [] else [ts[0]] + Upto(ts[1..])
  }

  function Kept(fields: seq<string>, required: set<string>): seq<CarbonNetwork.ClusterView> {
    var c := ClusterOf(fields, required);
    if c.Some? then [c.value] else []
  }

  function Line(s: Reading, line: string, required: set<string>): Reading {
    var l := Cut(line);
    var ts := Fields(l);
    if s.open then Reading(";" !in ts, s.fields + Upto(ts), s.clusters)
    else if IsHeader(l) then Reading(true, Upto(ts), s.clusters + Kept(s.fields, required))
    else s
  }

  function Lines(s: Reading, lines: seq<string>, required: set<string>): Reading
    decreases |lines|
  {
    if lines == [] then s else Lines(Line(s, lines[0], required), lines[1..], required)
  }

  function Finish(s: Reading, required: set<string>): seq<CarbonNetwork.ClusterView> {
    s.clusters + Kept(s.fields, required)
  }

  /** The clusters of a configuration. */
  function Parsed(text: string, required: set<string>): seq<CarbonNetwork.ClusterView> {
    Finish(Lines(START, Split(text, '\n'), required), required)
  }

  lemma {:induction false} LinesConcat(s: Reading, a: seq<string>, b: seq<string>, required: set<string>)
    ensures Lines(s, a + b, required) == Lines(Lines(s, a, required), b, required)
    decreases |a|
  {
    hide Line;
    if a == [] {
      assert a + b == b;
    } else {
      LinesConcat(Line(s, a[0], required), a[1..], b, required);
      assert (a + b)[1..] == a[1..] + b;
    }
  }

  /** Outside a cluster a line opens one exactly if it starts with `cluster` and a space,
      whatever comes then; every other line changes nothing. */
  lemma HeaderOpensIff(s: Reading, line: string, required: set<string>)
    requires !s.open && '#' !in line
    ensures Line(s, line, required).open <==> exists rest :: line == "cluster " + rest
    ensures !Line(s, line, required).open ==> Line(s, line, required) == s
  {
    hide Fields, Upto, Kept;
    SplitWhole(line, '#');
    assert Cut(line) == line;
    if "cluster " <= line {
      assert line == "cluster " + line[8..];
    }
  }

  // ---------------------------------------------------------------- endpoints

  lemma OneColon(a: string, b: string)
    requires ':' !in a && ':' !in b
    ensures Count(a + ":" + b, ':') == 1
  {
    var tail := ":" + b;
    assert tail[1..] == b;
    assert a + ":" + b == a + tail;
    CountConcat(a, tail, ':');
    CountAbsent(a, ':');
    CountAbsent(b, ':');
  }

  /** Every address has exactly one colon and no equals sign, whatever the token. */
  lemma AddressShape(token: string)
    ensures Count(Address(token), ':') == 1 && '=' !in Address(token)
  {
    hide Count;
    var host := Split(token, '=')[0];
    var parts := Split(host, ':');
    SplitWithin(host, ':', '=');
    var port := if |parts| == 1 then "2003" else parts[1];
    OneColon(parts[0], port);
    assert Address(token) == parts[0] + ":" + port;
  }

  /** A token's address is what is written before the instance, with the default port
      if it has none, exactly when that has at most one colon. */
  lemma AddressIsAsWrittenIff(token: string)
    ensures var host := Split(token, '=')[0];
            Address(token) == (if ':' in host then host else host + DEFAULT_PORT) <==> Count(host, ':') <= 1
  {
    var host := Split(token, '=')[0];
    SplitCounts(host, ':');
    CountAbsent(host, ':');
    AddressShape(token);
    JoinSplit(host, ':');
    var parts := Split(host, ':');
    if |parts| == 2 {
      assert parts[1..] == [parts[1]];
    }
  }

  /** A token's address ends at the second colon or at the instance, whatever follows; without
      a colon before that it has the default port. */
  lemma AddressIsCut(host: string, port: string, more: string)
    requires ':' !in host && '=' !in host && ':' !in port && '=' !in port
    ensures more == "" || more[0] in {':', '='} ==> Address(host + ":" + port + more) == host + ":" + port
    ensures more == "" || more[0] == '=' ==> Address(host + more) == host + ":2003"
  {
    if more == "" || more[0] in {':', '='} {
      SplitFirst(host + ":" + port, more, '=');
      HostAndPort(host, port, Split(more, '=')[0]);
    }
    if more == "" || more[0] == '=' {
      SplitFirst(host, more, '=');
      assert Split(more, '=')[0] == "" && host + "" == host;
      SplitWhole(host, ':');
    }
  }

  lemma HostAndPort(host: string, port: string, more: string)
    requires ':' !in host && ':' !in port && (more == "" || more[0] == ':')
    ensures |Split(host + ":" + port + more, ':')| >= 2
    ensures Split(host + ":" + port + more, ':')[..2] == [host, port]
  {
    hide Split;
    var a := host + ":" + port;
    SplitWhole(host, ':');
    SplitWhole(port, ':');
    SplitAt(host, port, ':');
    assert a == host + [':'] + port;
    if more == "" {
      assert a + more == a;
    } else {
      SplitAt(a, more[1..], ':');
      assert a + more == a + [':'] + more[1..];
    }
  }

  /** What the keywords do: nine are skipped, four are skipped with the word after them, three
      end the endpoints, and `file` drops the cluster. */
  lemma KeywordsAreRead(w: string, next: string, ts: seq<string>)
    ensures (w in {"forward", "any_of", "failover", "useall", "carbon_ch", "fnv1a_ch", "jump_fnv1a_ch"} ||
             w in {"lb", "dynamic"}) ==> Scan([w] + ts) == Scan(ts)
    ensures w in {"replication", "connections", "ttl", "ttl_jitter"} ==> Scan([w, next] + ts) == Scan(ts)
    ensures w in {"proto", "type", "transport"} ==> Scan([w] + ts) == Some([])
    ensures w == "file" ==> Scan([w] + ts) == None
  {
    hide Address;
    assert ([w] + ts)[1..] == ts && ([w, next] + ts)[2..] == ts;
  }

  /** Every other word, and none of these, is an endpoint. */
  lemma EndpointWordIff(w: string, ts: seq<string>)
    ensures Scan([w]) == Some([Address(w)]) <==>
            w !in {"forward", "any_of", "failover", "useall", "carbon_ch", "fnv1a_ch", "jump_fnv1a_ch", "lb", "dynamic",
                   "replication", "connections", "ttl", "ttl_jitter", "proto", "type", "transport", "file"}
    ensures Scan([w]) == Some([Address(w)]) ==>
              Scan([w] + ts) == if Scan(ts).Some? then Some([Address(w)] + Scan(ts).value) else None
  {
    hide Address;
    assert ([w] + ts)[1..] == ts;
    assert [w][1..] == [] && Scan([]) == Some([]) && [Address(w)] + [] == [Address(w)];
  }

  lemma NoClash(t: string)
    requires ':' in t
    ensures t != "file" && t !in WORDS && t !in SETTINGS && t !in CLAUSES
  {
  }

  lemma AddressIsFixed(token: string)
    ensures Address(Address(token)) == Address(token) && ':' in Address(token)
  {
    var a := Address(token);
    AddressShape(token);
    CountAbsent(a, ':');
    SplitWhole(a, '=');
    AddressIsAsWrittenIff(a);
  }

  /** Written down as the words of a cluster, the endpoints read back unchanged. */
  lemma {:induction false} EndpointsReparse(ts: seq<string>)
    requires Scan(ts).Some?
    ensures Scan(Scan(ts).value) == Scan(ts)
    decreases |ts|
  {
    if ts == [] || ts[0] in CLAUSES {
    } else if ts[0] in WORDS {
      EndpointsReparse(Rest(ts, 1));
    } else if ts[0] in SETTINGS {
      EndpointsReparse(Rest(ts, 2));
    } else {
      EndpointsReparse(Rest(ts, 1));
      var eps := Scan(ts).value;
      AddressIsFixed(ts[0]);
      NoClash(eps[0]);
      assert Rest(eps, 1) == Scan(Rest(ts, 1)).value;
    }
  }

  /** Every endpoint of a cluster is the address of one of its words. */
  lemma {:induction false} EndpointsAreAddresses(ts: seq<string>, e: string) returns (t: string)
    requires Scan(ts).Some? && e in Scan(ts).value
    ensures t in ts && e == Address(t)
    ensures Count(e, ':') == 1 && '=' !in e
    decreases |ts|
  {
    AddressShape(ts[0]);
    if ts[0] in WORDS {
      t := EndpointsAreAddresses(Rest(ts, 1), e);
    } else if ts[0] in SETTINGS {
      t := EndpointsAreAddresses(Rest(ts, 2), e);
    } else if e == Address(ts[0]) {
      t := ts[0];
    } else {
      t := EndpointsAreAddresses(Rest(ts, 1), e);
    }
  }

  /** A cluster to check: it has endpoints, none with an error so far, each with exactly
      one colon and no equals sign, and it is required if its name is. */
  ghost predicate Proper(c: CarbonNetwork.ClusterView, required: set<string>) {
    && c.endpoints != [] && c.errors == seq(|c.endpoints|, _ => None)
    && c.required == (c.name in required)
    && forall e :: e in c.endpoints ==> Count(e, ':') == 1 && '=' !in e
  }

  lemma KeptIsProper(fields: seq<string>, required: set<string>)
    ensures forall c :: c in Kept(fields, required) ==> Proper(c, required)
  {
    hide Count;
    var kept := ClusterOf(fields, required);
    if kept.Some? {
      forall e | e in kept.value.endpoints ensures Count(e, ':') == 1 && '=' !in e {
        var t := EndpointsAreAddresses(fields[2..], e);
      }
    }
  }

  lemma {:induction false} LinesAreProper(s: Reading, lines: seq<string>, required: set<string>)
    requires forall c :: c in s.clusters ==> Proper(c, required)
    ensures forall c :: c in Lines(s, lines, required).clusters ==> Proper(c, required)
    decreases |lines|
  {
    hide Proper, Kept, Fields, Cut;
    if lines != [] {
      KeptIsProper(s.fields, required);
      LinesAreProper(Line(s, lines[0], required), lines[1..], required);
    }
  }

  /** Whatever the file holds, every cluster found in it is one to check. */
  lemma ParsedAreProper(text: string, required: set<string>)
    ensures forall c :: c in Parsed(text, required) ==> Proper(c, required)
  {
    hide Proper, Kept;
    var s := Lines(START, Split(text, '\n'), required);
    LinesAreProper(START, Split(text, '\n'), required);
    KeptIsProper(s.fields, required);
  }

  // ---------------------------------------------------------------- the procedures

  lemma PrependTwice(a: seq<string>, b: seq<string>, more: Option<seq<string>>)
    ensures Prepend(a, Prepend(b, more)) == Prepend(a + b, more)
    ensures Prepend([], more) == more
  {
    assert more.Some? ==> a + (b + more.value) == a + b + more.value && [] + more.value == more.value;
  }

  method ClusterEndpoints(fields: seq<string>, required: set<string>, testPrefix: string)
    returns (cluster: CarbonNetwork.Cluster?, err: ErrorText)
    ensures cluster != null ==> fresh(cluster) && cluster.Valid() && cluster.testPrefix == testPrefix
    ensures ClusterOf(fields, required) == if cluster != null && err.None? then Some(cluster.View()) else None
    ensures err == if |fields| < 4 then Some("incomplete cluster")
                   else if Scan(fields[2..]) == Some([]) then Some("empthy cluster " + fields[1])
                   else None
  {
    if |fields| < 4 {
      return null, Some("incomplete cluster");
    }
    err := None;
    var name := fields[1];
    var c := new CarbonNetwork.Cluster(name, name in required, testPrefix);
    var i := 2;
    ghost var rest := fields[2..];
    PrependTwice([], [], Scan(rest));
    while i < |fields|
      invariant fresh(c) && c.Valid() && c.testPrefix == testPrefix && c.name == name
      invariant c.View() == NewCluster(name, name in required, c.endpoints)
      invariant rest == if i <= |fields| then fields[i..] else []
      invariant Scan(fields[2..]) == Prepend(c.endpoints, Scan(rest))
    {
      if fields[i] == "file" {
        return null, None;
      }
      if fields[i] in WORDS {
        i := i + 1;
        rest := Rest(rest, 1);
        continue;
      }
      if fields[i] in SETTINGS {
        i := i + 2;
        rest := Rest(rest, 2);
        continue;
      }
      if fields[i] in CLAUSES {
        break;
      }
      PrependTwice(c.endpoints, [Address(fields[i])], Scan(Rest(rest, 1)));
      var endpoint := Split(fields[i], '=');
      endpoint := Split(endpoint[0], ':');
      if |endpoint| == 1 {
        c.Append(endpoint[0] + DEFAULT_PORT);
      } else {
        c.Append(endpoint[0] + ":" + endpoint[1]);
      }
      i := i + 1;
      rest := Rest(rest, 1);
    }
    assert Scan(rest) == Some([]) && c.endpoints + [] == c.endpoints;
    if |c.endpoints| == 0 {
      err := Some("empthy cluster " + c.name);
    }
    cluster := c;
  }

  /** bufio.Reader.ReadString: the text up to and including the next line end; all of
      it, with an end-of-file error, if there is none. */
  method ReadString(text: string) returns (line: string, rest: string, eof: bool)
    ensures text == line + rest && (eof ==> rest == "") && (!eof ==> |rest| < |text|)
    ensures line == Split(text, '\n')[0] + if eof then "" else "\n"
    ensures Split(text, '\n')[1..] == if eof then [] else Split(rest, '\n')
  {
    var k := 0;
    while k < |text| && text[k] != '\n'
      invariant 0 <= k <= |text| && '\n' !in text[..k]
    {
      k := k + 1;
    }
    SplitWhole(text[..k], '\n');
    if k == |text| {
      assert text[..k] == text;
      return text, "", true;
    }
    SplitAt(text[..k], text[k + 1..], '\n');
    assert text == text[..k] + ['\n'] + text[k + 1..];
    return text[..k + 1], text[k + 1..], false;
  }

  /** Cutting the comment and then the line end off leaves what cutting the comment off
      the bare line leaves. */
  lemma CutAndTrim(l: string, end: string)
    requires '\n' !in l && (end == "" || end == "\n")
    ensures TrimRight(Cut(l + end), '\n') == Cut(l)
  {
    var parts := Split(l, '#');
    SplitWithin(l, '#', '\n');
    JoinSplit(l, '#');
    if |parts| == 1 {
      if end == "" {
        assert l + end == l;
      } else {
        assert '#' !in l + end;
        SplitWhole(l + end, '#');
        assert (l + end)[..|l|] == l;
      }
    } else {
      var comment := Join(parts[1..], '#');
      assert l == parts[0] + "#" + comment;
      assert l + end == parts[0] + "#" + (comment + end);
      CutComment(parts[0], comment);
      CutComment(parts[0], comment + end);
    }
  }

  /** The words of a line up to a semicolon, after those `before`; both loops over the
      words of a line do this. */
  method AppendWords(before: seq<string>, l: string) returns (fields: seq<string>, ended: bool)
    ensures ended == (";" in Fields(l))
    ensures fields == before + Upto(Fields(l))
  {
    var parts := Split(l, ' ');
    fields, ended := before, false;
    assert parts[0..] == parts;
    for i := 0 to |parts|
      invariant !ended
      invariant (";" in NonEmpty(parts[i..])) == (";" in Fields(l))
      invariant fields + Upto(NonEmpty(parts[i..])) == before + Upto(Fields(l))
    {
      var rest := parts[i..];
      assert rest[1..] == parts[i + 1..];
      if parts[i] == "" {
        assert NonEmpty(rest) == NonEmpty(rest[1..]);
        continue;
      } else if parts[i] == ";" {
        ended := true;
        break;
      }
      assert NonEmpty(rest) == [parts[i]] + NonEmpty(rest[1..]);
      assert NonEmpty(rest)[1..] == NonEmpty(rest[1..]);
      ghost var later := Upto(NonEmpty(rest[1..]));
      assert fields + [parts[i]] + later == fields + ([parts[i]] + later);
      fields := fields + [parts[i]];
    }
  }

  /** A configuration file, or the error of opening it. */
  datatype File = Content(text: string) | OpenFailed(text: string)

  ghost predicate Ready(clusters: seq<CarbonNetwork.Cluster>, testPrefix: string)
    reads clusters
  {
    && Separate(clusters)
    && forall i :: 0 <= i < |clusters| ==> clusters[i].Valid() && clusters[i].testPrefix == testPrefix
  }

  /** Add the cluster that these words describe, if there is one to add. */
  method AddCluster(clusters: seq<CarbonNetwork.Cluster>, fields: seq<string>, required: set<string>,
                    testPrefix: string)
    returns (more: seq<CarbonNetwork.Cluster>)
    requires Ready(clusters, testPrefix)
    ensures Ready(more, testPrefix) && clusters <= more
    ensures forall i :: |clusters| <= i < |more| ==> fresh(more[i])
    ensures CarbonNetwork.Views(more) == CarbonNetwork.Views(clusters) + Kept(fields, required)
  {
    hide ClusterOf, Scan, Separate;
    more := clusters;
    if |fields| > 0 {
      var cluster, err := ClusterEndpoints(fields, required, testPrefix);
      if cluster != null && err.None? {
        var c: CarbonNetwork.Cluster := cluster;
        OneMoreApart(clusters, c);
        more := more + [c];
        assert more[..|more| - 1] == clusters;
      }
    } else {
      NothingKept(required);
    }
  }

  lemma NothingKept(required: set<string>)
    ensures Kept([], required) == []
  {
  }

  /** One line, without comment and line end: the body of the loop over the file. */
  method ReadLine(open: bool, before: seq<string>, clusters: seq<CarbonNetwork.Cluster>, line: string,
                  ghost bare: string, required: set<string>, testPrefix: string)
    returns (found: bool, clusterFields: seq<string>, more: seq<CarbonNetwork.Cluster>)
    requires Ready(clusters, testPrefix) && line == Cut(bare)
    ensures Ready(more, testPrefix) && clusters <= more
    ensures forall i :: |clusters| <= i < |more| ==> fresh(more[i])
    ensures Reading(found, clusterFields, CarbonNetwork.Views(more)) ==
            Line(Reading(open, before, CarbonNetwork.Views(clusters)), bare, required)
  {
    hide Kept, Fields, Upto, Ready;
    found, clusterFields, more := open, before, clusters;
    if found {
      var ended;
      clusterFields, ended := AppendWords(clusterFields, line);
      if ended {
        found := false;
      }
    } else if "cluster " <= line {
      more := AddCluster(more, clusterFields, required, testPrefix);
      var ended;
      clusterFields, ended := AppendWords([], line);
      found := true;
    }
  }

  /** The clusters of a configuration file, as objects. */
  method Clusters(file: File, required: seq<string>, testPrefix: string)
    returns (clusters: seq<CarbonNetwork.Cluster>, err: ErrorText)
    ensures err == if file.OpenFailed? then Some(file.text) else None
    ensures Ready(clusters, testPrefix) && forall i :: 0 <= i < |clusters| ==> fresh(clusters[i])
    ensures CarbonNetwork.Views(clusters) ==
            if file.OpenFailed? then [] else Parsed(file.text, set n | n in required)
  {
    hide Line, Kept, Cut, Ready, CarbonNetwork.Views, TrimRight;
    clusters, err := [], None;
    NothingReady(testPrefix);
    if file.OpenFailed? {
      return clusters, Some(file.text);
    }
    var r: set<string> := {};
    for i := 0 to |required|
      invariant r == set n | n in required[..i]
    {
      r := r + {required[i]};
      assert required[..i + 1] == required[..i] + [required[i]];
    }
    assert required[..|required|] == required;
    var found, clusterFields, rest, eof := false, [], file.text, false;
    while !eof
      invariant Ready(clusters, testPrefix) && forall i :: 0 <= i < |clusters| ==> fresh(clusters[i])
      invariant Lines(START, Split(file.text, '\n'), r) ==
                Lines(Reading(found, clusterFields, CarbonNetwork.Views(clusters)),
                      if eof then [] else Split(rest, '\n'), r)
      decreases if eof then 0 else |rest| + 1
    {
      ghost var bare := Split(rest, '\n')[0];
      var line;
      line, rest, eof := ReadString(rest);
      CutAndTrim(bare, if eof then "" else "\n");
      line := Cut(line);
      line := TrimRight(line, '\n');
      found, clusterFields, clusters := ReadLine(found, clusterFields, clusters, line, bare, r, testPrefix);
    }
    clusters := AddCluster(clusters, clusterFields, r, testPrefix);
  }

  lemma NothingReady(testPrefix: string)
    ensures Ready([], testPrefix)
  {
  }
}
