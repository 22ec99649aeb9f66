/**
  Writing clusters down and reading them back: which of the clusters that a
  configuration lists are found, with which endpoints, however it is laid out.
 */
module ConfigRoundTrip {
  import opened Checker
  import opened Text
  import opened CarbonCRelay
  import opened ConfigLayout
  import CarbonNetwork

  datatype Target = Target(host: string, port: Option<string>, instance: Option<string>)

  /** What can stand in a cluster after its name. */
  datatype Item =
    | Keyword(word: string)
    | Setting(key: string, value: string)
    | Clause(key: string, value: string)
    | Endpoint(target: Target)

  datatype Decl = Decl(name: string, items: seq<Item>)

  function Write(t: Target): string {
    t.host + (if t.port.Some? then ":" + t.port.value else "") +
    (if t.instance.Some? then "=" + t.instance.value else "")
  }

  /** Where the target is to be probed. */
  function Where(t: Target): string {
    t.host + ":" + if t.port.Some? then t.port.value else "2003"
  }

  /** A word as it can stand on a line. */
  predicate OnLine(w: string) {
    Word(w) && '\n' !in w && '#' !in w
  }

  /** A word that can be written in a cluster. */
  predicate Writable(w: string) {
    OnLine(w) && w != ";"
  }

  predicate Reserved(w: string) {
    w in {"forward", "any_of", "failover", "useall", "carbon_ch", "fnv1a_ch", "jump_fnv1a_ch", "lb", "dynamic",
          "replication", "connections", "ttl", "ttl_jitter", "proto", "type", "transport", "file"}
  }

  predicate ValidTarget(t: Target) {
    && Writable(Write(t)) && !Reserved(Write(t))
    && ':' !in t.host && '=' !in t.host
    && (t.port.Some? ==> ':' !in t.port.value && '=' !in t.port.value)
  }

  predicate ValidItem(x: Item) {
    match x
    case Keyword(word) =>
      word in {"forward", "any_of", "failover", "useall", "carbon_ch", "fnv1a_ch", "jump_fnv1a_ch", "lb", "dynamic"}
    case Setting(key, value) => key in {"replication", "connections", "ttl", "ttl_jitter"} && Writable(value)
    case Clause(key, value) => key in {"proto", "type", "transport"} && Writable(value)
    case Endpoint(target) => ValidTarget(target)
  }

  predicate ValidDecl(d: Decl) {
    Writable(d.name) && forall i :: 0 <= i < |d.items| ==> ValidItem(d.items[i])
  }

  function ItemWords(x: Item): seq<string> {
    match x
    case Keyword(word) => [word]
    case Setting(key, value) => [key, value]
    case Clause(key, value) => [key, value]
    case Endpoint(target) => [Write(target)]
  }

  function BodyWords(items: seq<Item>): seq<string> {
    if items == [] then [] else ItemWords(items[0]) + BodyWords(items[1..])
  }

  function DeclWords(d: Decl): seq<string> {
    ["cluster", d.name] + BodyWords(d.items)
  }

  /** The endpoints that the items list. */
  function Listed(items: seq<Item>): seq<string> {
    if items == [] then []
    else (if items[0].Endpoint? then [Where(items[0].target)] else []) + Listed(items[1..])
  }

  /** The items before the first clause. */
  function Reached(items: seq<Item>): seq<Item> {
    if items == [] || items[0].Clause? then [] else [items[0]] + Reached(items[1..])
  }

  predicate NoClause(items: seq<Item>) {
    forall i :: 0 <= i < |items| ==> !items[i].Clause?
  }

  /** What is written before the instance. */
  function HostPort(t: Target): string {
    t.host + if t.port.Some? then ":" + t.port.value else ""
  }

  lemma HostPortSplit(t: Target)
    requires ':' !in t.host && (t.port.Some? ==> ':' !in t.port.value)
    ensures Split(HostPort(t), ':') == if t.port.Some? then [t.host, t.port.value] else [t.host]
  {
    SplitWhole(t.host, ':');
    if t.port.Some? {
      SplitWhole(t.port.value, ':');
      SplitAt(t.host, t.port.value, ':');
      assert HostPort(t) == t.host + [':'] + t.port.value;
    } else {
      assert HostPort(t) == t.host;
    }
  }

  lemma InstanceIsCut(t: Target)
    requires '=' !in t.host && (t.port.Some? ==> '=' !in t.port.value)
    ensures Split(Write(t), '=')[0] == HostPort(t)
  {
    SplitWhole(HostPort(t), '=');
    if t.instance.Some? {
      SplitAt(HostPort(t), t.instance.value, '=');
      assert Write(t) == HostPort(t) + ['='] + t.instance.value;
    } else {
      assert Write(t) == HostPort(t);
    }
  }

  lemma AddressOfTarget(t: Target)
    requires ValidTarget(t)
    ensures Address(Write(t)) == Where(t)
  {
    hide Split, Write, HostPort, Word, Reserved;
    InstanceIsCut(t);
    HostPortSplit(t);
  }

  /** The endpoints found among these items and what follows them: those before the
      first clause. */
  lemma {:induction false} ScanItems(items: seq<Item>, rest: seq<string>)
    requires forall i :: 0 <= i < |items| ==> ValidItem(items[i])
    ensures Scan(BodyWords(items) + rest) ==
            if NoClause(items) then Prepend(Listed(items), Scan(rest)) else Some(Listed(Reached(items)))
  {
    hide Write, Where, Scan, ItemWords, ValidItem;
    if items == [] {
      assert BodyWords(items) + rest == rest;
      PrependTwice([], [], Scan(rest));
    } else {
      var x, more := items[0], BodyWords(items[1..]) + rest;
      var ws := ItemWords(x);
      assert BodyWords(items) + rest == ws + more;
      ScanItems(items[1..], rest);
      assert NoClause(items) <==> !x.Clause? && NoClause(items[1..]);
      ItemStep(x, more);
      if x.Clause? {
        assert Listed(Reached(items)) == [];
      } else {
        var first := if x.Endpoint? then [Where(x.target)] else [];
        PrependTwice(first, Listed(items[1..]), Scan(rest));
        PrependTwice(first, [], Scan(more));
        assert Listed(items) == first + Listed(items[1..]);
        assert Reached(items)[1..] == Reached(items[1..]);
        assert Listed(Reached(items)) == first + Listed(Reached(items[1..]));
      }
    }
  }

  lemma ItemStep(x: Item, more: seq<string>)
    requires ValidItem(x)
    ensures Scan(ItemWords(x) + more) ==
            if x.Clause? then Some([])
            else if x.Endpoint? then Prepend([Where(x.target)], Scan(more))
            else Scan(more)
  {
    var ts := ItemWords(x) + more;
    assert ts[|ItemWords(x)|..] == more;
    if x.Endpoint? {
      AddressOfTarget(x.target);
    }
  }

  lemma {:induction false} ClausesAreWords(items: seq<Item>)
    requires !NoClause(items)
    ensures |BodyWords(items)| >= 2
  {
    if !items[0].Clause? {
      assert exists i :: 0 <= i < |items[1..]| && items[1..][i].Clause? by {
        var i :| 0 <= i < |items| && items[i].Clause?;
        assert items[1..][i - 1].Clause?;
      }
      ClausesAreWords(items[1..]);
    }
  }

  /** The word `file` drops the cluster if no clause precedes it. After a clause it changes
      nothing: the cluster is kept exactly if it has an endpoint before the clause. */
  lemma FileDropsClusterIff(d: Decl, path: seq<string>, required: set<string>)
    requires ValidDecl(d)
    ensures var kept := ClusterOf(DeclWords(d) + ["file"] + path, required);
            && kept == (if NoClause(d.items) then None else ClusterOf(DeclWords(d), required))
            && (kept == None <==> NoClause(d.items) || Listed(Reached(d.items)) == [])
  {
    hide Scan, ValidItem, Listed, Reached;
    var end := ["file"] + path;
    FileEndsScan(path);
    NothingToScan();
    ScanItems(d.items, end);
    ScanItems(d.items, []);
    var fields, body := DeclWords(d) + ["file"] + path, BodyWords(d.items);
    assert fields[2..] == body + end;
    assert DeclWords(d)[2..] == body == body + [];
    if !NoClause(d.items) {
      ClausesAreWords(d.items);
    }
  }

  lemma FileEndsScan(path: seq<string>)
    ensures Scan(["file"] + path) == None
  {
  }

  lemma NothingToScan()
    ensures Scan([]) == Some([])
  {
  }

  // ---------------------------------------------------------------- what is read

  /** The cluster that a declaration means. */
  function Meaning(d: Decl, required: set<string>): CarbonNetwork.ClusterView {
    NewCluster(d.name, d.name in required, Listed(d.items))
  }

  function Meanings(doc: seq<Decl>, required: set<string>): (cs: seq<CarbonNetwork.ClusterView>)
    ensures |cs| == |doc| && forall i :: 0 <= i < |doc| ==> cs[i] == Meaning(doc[i], required)
  {
    seq(|doc|, i requires 0 <= i < |doc| => Meaning(doc[i], required))
  }

  predicate HasEndpoint(items: seq<Item>) {
    exists i :: 0 <= i < |items| && items[i].Endpoint?
  }

  predicate EndpointsFirst(items: seq<Item>) {
    forall i, j :: 0 <= i < j < |items| && items[i].Clause? ==> !items[j].Endpoint?
  }

  /** A declaration with more than one word besides its name, some endpoint, and none
      after a clause. */
  predicate Readable(d: Decl) {
    |BodyWords(d.items)| >= 2 && HasEndpoint(d.items) && EndpointsFirst(d.items)
  }

  lemma {:induction false} HasEndpointIfListed(items: seq<Item>)
    ensures HasEndpoint(items) <==> Listed(items) != []
  {
    if items != [] {
      HasEndpointIfListed(items[1..]);
      assert forall i :: 0 <= i < |items| - 1 ==> items[i + 1] == items[1..][i];
    }
  }

  lemma {:induction false} ReachedListed(items: seq<Item>)
    ensures |Listed(Reached(items))| <= |Listed(items)|
    ensures Listed(Reached(items)) == Listed(items) <==> EndpointsFirst(items)
  {
    hide HasEndpoint, EndpointsFirst, Where;
    if items == [] {
      NoItems();
    } else if items[0].Clause? {
      ClauseFirst(items);
      HasEndpointIfListed(items[1..]);
    } else {
      var first := if items[0].Endpoint? then [Where(items[0].target)] else [];
      ReachedListed(items[1..]);
      NotClauseFirst(items);
      assert Listed(items) == first + Listed(items[1..]);
      assert Reached(items)[1..] == Reached(items[1..]);
      assert Listed(Reached(items)) == first + Listed(Reached(items[1..]));
      assert Listed(items)[|first|..] == Listed(items[1..]);
      assert Listed(Reached(items))[|first|..] == Listed(Reached(items[1..]));
    }
  }

  lemma NoItems()
    ensures EndpointsFirst([])
  {
  }

  lemma ClauseFirst(items: seq<Item>)
    requires items != [] && items[0].Clause?
    ensures EndpointsFirst(items) <==> !HasEndpoint(items[1..])
  {
    var more := items[1..];
    if HasEndpoint(more) {
      var i :| 0 <= i < |more| && more[i].Endpoint?;
      assert items[i + 1].Endpoint?;
    } else {
      forall i, j | 0 <= i < j < |items| && items[i].Clause? ensures !items[j].Endpoint? {
        assert items[j] == more[j - 1];
      }
    }
  }

  lemma NotClauseFirst(items: seq<Item>)
    requires items != [] && !items[0].Clause?
    ensures EndpointsFirst(items) <==> EndpointsFirst(items[1..])
  {
    var more := items[1..];
    if EndpointsFirst(items) {
      forall i, j | 0 <= i < j < |more| && more[i].Clause? ensures !more[j].Endpoint? {
        assert items[i + 1].Clause? && items[j + 1] == more[j];
      }
    } else {
      var i, j :| 0 <= i < j < |items| && items[i].Clause? && items[j].Endpoint?;
      assert more[i - 1].Clause? && more[j - 1].Endpoint?;
    }
  }

  /** A declaration that is readable when these words follow its own: they may make up for a
      missing word, but not add an endpoint, unless a clause hides it. */
  predicate ReadableWith(d: Decl, extra: seq<string>) {
    && |BodyWords(d.items)| + |extra| >= 2 && HasEndpoint(d.items) && EndpointsFirst(d.items)
    && (NoClause(d.items) ==> Scan(extra) == Some([]))
  }

  /** A declaration followed by other words is read as the cluster it means exactly when it
      is readable with them. */
  lemma DeclIsReadWithIff(d: Decl, extra: seq<string>, required: set<string>)
    requires ValidDecl(d)
    ensures ClusterOf(DeclWords(d) + extra, required) == Some(Meaning(d, required)) <==> ReadableWith(d, extra)
  {
    hide Scan, ValidItem;
    var body, listed := BodyWords(d.items), Listed(d.items);
    ScanItems(d.items, extra);
    assert (DeclWords(d) + extra)[2..] == body + extra;
    ReachedListed(d.items);
    HasEndpointIfListed(d.items);
    if NoClause(d.items) {
      assert listed + [] == listed;
      assert Scan(extra).Some? && listed + Scan(extra).value == listed ==> |Scan(extra).value| == 0;
      assert EndpointsFirst(d.items);
    }
  }

  /** A declaration is read as the cluster it means exactly when it is readable. */
  lemma DeclIsReadIff(d: Decl, required: set<string>)
    requires ValidDecl(d)
    ensures ClusterOf(DeclWords(d), required) == Some(Meaning(d, required)) <==> Readable(d)
  {
    hide Scan, ValidItem, ClusterOf;
    assert DeclWords(d) + [] == DeclWords(d);
    NothingToScan();
    DeclIsReadWithIff(d, [], required);
  }

  // ---------------------------------------------------------------- documents

  /** The lines that a declaration is written on: some before it, one that starts it,
      and the rest. */
  datatype Layout = Layout(gap: seq<string>, header: string, body: seq<string>)

  /** These lines hold the declaration's words and a semicolon, with any line breaks,
      spaces, blank lines and comments. */
  predicate Sets(d: Decl, l: Layout) {
    && AllOneLine(l.gap) && NoHeader(l.gap) && OneLine(l.header) && AllOneLine(l.body)
    && IsHeader(Cut(l.header))
    && Fields(Cut(l.header)) + Words(l.body) == DeclWords(d) + [";"]
  }

  /** The semicolon is on the cluster line itself. */
  predicate Inline(l: Layout) {
    ";" in Fields(Cut(l.header))
  }

  predicate LastInline(ls: seq<Layout>) {
    ls != [] && Inline(ls[|ls| - 1])
  }

  predicate SetsAll(doc: seq<Decl>, ls: seq<Layout>)
    ensures SetsAll(doc, ls) ==> |ls| == |doc|
  {
    |ls| == |doc| &&
    (doc != [] ==>
       var n := |doc| - 1;
       SetsAll(doc[..n], ls[..n]) && ValidDecl(doc[n]) && Sets(doc[n], ls[n]))
  }

  function DocLines(ls: seq<Layout>): seq<string> {
    if ls == [] then []
    else
      var l := ls[|ls| - 1];
      DocLines(ls[..|ls| - 1]) + (l.gap + [l.header] + l.body)
  }

  lemma {:induction false} NoSemicolon(items: seq<Item>)
    requires forall i :: 0 <= i < |items| ==> ValidItem(items[i])
    ensures forall w :: w in BodyWords(items) ==> Writable(w)
  {
    if items != [] {
      NoSemicolon(items[1..]);
      var x := items[0];
      match x
      case Keyword(word) => WordsAreWritable(word);
      case Setting(key, _) => KeysAreWritable(key);
      case Clause(key, _) => KeysAreWritable(key);
      case Endpoint(_) =>
    }
  }

  lemma WordsAreWritable(w: string)
    requires w in WORDS
    ensures Writable(w)
  {
    assert w in {"forward", "any_of", "failover", "useall"} || w in {"carbon_ch", "fnv1a_ch"} ||
           w in {"jump_fnv1a_ch", "lb", "dynamic"};
  }

  lemma KeysAreWritable(w: string)
    requires w in SETTINGS + CLAUSES
    ensures Writable(w)
  {
  }

  /** Splitting off the header's words leaves the others and the semicolon. */
  lemma AfterHeader(header: seq<string>, body: seq<string>, all: seq<string>)
    requires header + body == all + [";"] && ";" !in header && ";" !in all
    ensures header + Upto(body) == all && EndsAtSemicolon(body) && ";" in body
  {
    var n := |header|;
    assert n <= |all| by {
      assert (header + body)[|all|] == ";";
    }
    var rest := all[n..];
    assert body == (header + body)[n..] == (all + [";"])[n..] == rest + [";"];
    UptoAll(rest, [";"]);
    assert all[..n] == (all + [";"])[..n] == (header + body)[..n] == header;
    assert header + rest == all;
  }

  /** A semicolon among the header's words is the last of all words. */
  lemma NothingAfterHeader(header: seq<string>, body: seq<string>, all: seq<string>)
    requires header + body == all + [";"] && ";" in header && ";" !in all
    ensures body == [] && Upto(header) == all
  {
    var i :| 0 <= i < |header| && header[i] == ";";
    assert (all + [";"])[i] == (header + body)[i] == ";";
    assert i == |all|;
    assert header + [] == header == all + [";"];
    UptoAll(all, [";"]);
    assert Upto([";"]) == [] && all + [] == all;
  }

  /** Outside a cluster a declaration starts one, and ends it unless its semicolon is on the
      cluster line. */
  lemma DeclIsGathered(s: Reading, d: Decl, l: Layout, required: set<string>)
    requires !s.open && ValidDecl(d) && Sets(d, l)
    ensures Lines(s, [l.header] + l.body, required) ==
            Reading(Inline(l), DeclWords(d), s.clusters + Kept(s.fields, required))
  {
    hide Kept, ValidItem, IsHeader, Writable;
    var header, body := Fields(Cut(l.header)), Words(l.body);
    NoSemicolonIn(d);
    LinesConcat(s, [l.header], l.body, required);
    var t := Line(s, l.header, required);
    assert Lines(s, [l.header], required) == t;
    if Inline(l) {
      NothingAfterHeader(header, body, DeclWords(d));
      BlankLinesKeep(t, l.body, required);
    } else {
      AfterHeader(header, body, DeclWords(d));
      UptoAll(header, []);
      assert header + [] == header;
      OpenLines(t, l.body, required);
    }
  }

  /** Inside a cluster a declaration is taken for more words of it. */
  lemma DeclIsSwallowed(s: Reading, d: Decl, l: Layout, required: set<string>)
    requires s.open && ValidDecl(d) && Sets(d, l)
    ensures Lines(s, [l.header] + l.body, required) == Reading(false, s.fields + DeclWords(d), s.clusters)
  {
    hide ValidItem, IsHeader, Writable, DeclWords, Fields, Cut;
    var ws := DeclWords(d);
    NoSemicolonIn(d);
    WordsConcat([l.header], l.body);
    assert Words([l.header]) == Fields(Cut(l.header)) + Words([]) == Fields(Cut(l.header));
    assert Words([l.header] + l.body) == ws + [";"];
    UptoAll(ws, [";"]);
    assert ws + Upto([";"]) == ws;
    OpenLines(s, [l.header] + l.body, required);
  }

  lemma NoSemicolonIn(d: Decl)
    requires ValidDecl(d)
    ensures ";" !in DeclWords(d)
  {
    NoSemicolon(d.items);
    assert !Writable(";");
  }

  /** The words of each cluster that the reader finds, and whether the last is still open. */
  datatype Sections = Sections(words: seq<seq<string>>, open: bool)

  predicate Proper(r: Sections) {
    r.open ==> r.words != []
  }

  function WithMore(r: Sections, words: seq<string>, open: bool): (more: Sections)
    requires r.words != []
    ensures Proper(more) && |more.words| == |r.words|
  {
    var n := |r.words| - 1;
    Sections(r.words[..n] + [r.words[n] + words], open)
  }

  /** Words between declarations belong to an open section, up to a semicolon. */
  function WithGap(r: Sections, ws: seq<string>): (more: Sections)
    requires Proper(r)
    ensures Proper(more) && |more.words| == |r.words|
    ensures more.open == (r.open && ";" !in ws)
  {
    if r.open then WithMore(r, Upto(ws), ";" !in ws) else r
  }

  /** So does a whole declaration; if no section is open it starts one. */
  function WithDecl(r: Sections, d: Decl, inline: bool): (more: Sections)
    requires Proper(r)
    ensures Proper(more) && |more.words| == |r.words| + (if r.open then 0 else 1)
    ensures more.open == (!r.open && inline)
  {
    if r.open then WithMore(r, DeclWords(d), false) else Sections(r.words + [DeclWords(d)], inline)
  }

  function SectionsOf(doc: seq<Decl>, ls: seq<Layout>): (r: Sections)
    requires |doc| == |ls|
    ensures Proper(r)
  {
    if doc == [] then Sections([], false)
    else
      var n := |doc| - 1;
      WithDecl(WithGap(SectionsOf(doc[..n], ls[..n]), Words(ls[n].gap)), doc[n], Inline(ls[n]))
  }

  /** What the reader keeps of these sections. */
  function KeptEach(sections: seq<seq<string>>, required: set<string>): seq<CarbonNetwork.ClusterView> {
    if sections == [] then []
    else KeptEach(sections[..|sections| - 1], required) + Kept(sections[|sections| - 1], required)
  }

  /** The reader has kept all sections but the last one, whose words it holds. */
  predicate Holds(s: Reading, r: Sections, required: set<string>) {
    && s.open == r.open
    && (r.words == [] ==> s.fields == [] && s.clusters == [])
    && (r.words != [] ==>
          && s.fields == r.words[|r.words| - 1]
          && s.clusters == KeptEach(r.words[..|r.words| - 1], required))
  }

  lemma HeldIsFinished(s: Reading, r: Sections, required: set<string>)
    requires Holds(s, r, required)
    ensures s.clusters + Kept(s.fields, required) == KeptEach(r.words, required)
  {
    NothingKept(required);
  }

  lemma HoldsNext(s: Reading, r: Sections, words: seq<string>, open: bool, required: set<string>)
    requires Holds(s, r, required) && !r.open
    ensures Holds(Reading(open, words, s.clusters + Kept(s.fields, required)),
                  Sections(r.words + [words], open), required)
  {
    hide Kept;
    HeldIsFinished(s, r, required);
    assert (r.words + [words])[..|r.words|] == r.words;
  }

  lemma HoldsMore(s: Reading, r: Sections, words: seq<string>, open: bool, required: set<string>)
    requires Holds(s, r, required) && r.words != []
    ensures Holds(Reading(open, s.fields + words, s.clusters), WithMore(r, words, open), required)
  {
    hide Kept, KeptEach;
    var n := |r.words| - 1;
    assert (r.words[..n] + [r.words[n] + words])[..n] == r.words[..n];
  }

  lemma HoldsGap(s: Reading, r: Sections, lines: seq<string>, required: set<string>)
    requires Holds(s, r, required) && Proper(r) && NoHeader(lines)
    ensures Holds(Lines(s, lines, required), WithGap(r, Words(lines)), required)
  {
    hide Holds, WithMore, Words, NoHeader;
    HeldIsOpen(s, r, required);
    if r.open {
      LinesAreTaken(s, lines, required);
      HoldsMore(s, r, Upto(Words(lines)), ";" !in Words(lines), required);
    } else {
      OutsideLinesKeep(s, lines, required);
    }
  }

  lemma HoldsDecl(s: Reading, r: Sections, d: Decl, l: Layout, required: set<string>)
    requires Holds(s, r, required) && Proper(r) && ValidDecl(d) && Sets(d, l)
    ensures Holds(Lines(s, [l.header] + l.body, required), WithDecl(r, d, Inline(l)), required)
  {
    hide Holds, WithMore, Sets, ValidDecl, DeclWords, Inline, Kept;
    HeldIsOpen(s, r, required);
    if r.open {
      DeclIsSwallowed(s, d, l, required);
      HoldsMore(s, r, DeclWords(d), false, required);
    } else {
      DeclIsGathered(s, d, l, required);
      HoldsNext(s, r, DeclWords(d), Inline(l), required);
    }
  }

  lemma {:induction false} DocIsGathered(doc: seq<Decl>, ls: seq<Layout>, required: set<string>)
    requires SetsAll(doc, ls)
    ensures Holds(Lines(START, DocLines(ls), required), SectionsOf(doc, ls), required)
  {
    hide Sets, ValidDecl, Inline, Holds, WithGap, WithDecl, Words, NoHeader;
    if doc == [] {
      NothingHeld(required);
    } else {
      var n := |doc| - 1;
      var front, l, d := ls[..n], ls[n], doc[n];
      DocIsGathered(doc[..n], front, required);
      var s, r := Lines(START, DocLines(front), required), SectionsOf(doc[..n], front);
      SetsGap(d, l);
      HoldsGap(s, r, l.gap, required);
      HoldsDecl(Lines(s, l.gap, required), WithGap(r, Words(l.gap)), d, l, required);
      LinesConcat(s, l.gap, [l.header] + l.body, required);
      LinesConcat(START, DocLines(front), l.gap + ([l.header] + l.body), required);
      assert l.gap + [l.header] + l.body == l.gap + ([l.header] + l.body);
    }
  }

  lemma SetsGap(d: Decl, l: Layout)
    requires Sets(d, l)
    ensures NoHeader(l.gap)
  {
  }

  lemma NothingHeld(required: set<string>)
    ensures Holds(START, Sections([], false), required)
  {
  }

  lemma HeldIsOpen(s: Reading, r: Sections, required: set<string>)
    requires Holds(s, r, required)
    ensures s.open == r.open
  {
  }

  lemma {:induction false} LinesOfDoc(doc: seq<Decl>, ls: seq<Layout>)
    requires SetsAll(doc, ls)
    ensures AllOneLine(DocLines(ls))
  {
    hide ValidDecl, Words, DeclWords;
    if ls != [] {
      LinesOfDoc(doc[..|doc| - 1], ls[..|ls| - 1]);
    }
  }

  /** In every layout the configuration is read as its sections. */
  lemma SectionsAreRead(doc: seq<Decl>, ls: seq<Layout>, trailer: seq<string>, required: set<string>)
    requires SetsAll(doc, ls) && AllOneLine(trailer) && NoHeader(trailer)
    ensures Parsed(FileText(DocLines(ls) + trailer), required) ==
            KeptEach(WithGap(SectionsOf(doc, ls), Words(trailer)).words, required)
  {
    hide SetsAll, Kept, Parsed, FileText, Holds, KeptEach, SectionsOf, WithGap, Words, NoHeader;
    LinesOfDoc(doc, ls);
    DocIsGathered(doc, ls, required);
    var s, r := Lines(START, DocLines(ls), required), SectionsOf(doc, ls);
    HoldsGap(s, r, trailer, required);
    HeldIsFinished(Lines(s, trailer, required), WithGap(r, Words(trailer)), required);
    LinesConcat(START, DocLines(ls), trailer, required);
    ParsedLines(DocLines(ls) + trailer, required);
  }

  /** Whatever words follow a declaration with its semicolon on the cluster line, up to the
      next semicolon, are taken for words of its cluster, also if they start with `cluster`. */
  lemma WordsAfterInlineAreTaken(d: Decl, l: Layout, next: seq<string>, required: set<string>)
    requires ValidDecl(d) && Sets(d, l) && Inline(l) && AllOneLine(next) && EndsAtSemicolon(Words(next))
    ensures Parsed(FileText(l.gap + ([l.header] + l.body) + next), required) ==
            Kept(DeclWords(d) + Upto(Words(next)), required)
  {
    hide ValidDecl, Inline, Kept, Parsed, FileText, DeclWords, Lines, Upto, Words, EndsAtSemicolon;
    var lines := l.gap + ([l.header] + l.body);
    OutsideLinesKeep(START, l.gap, required);
    LinesConcat(START, l.gap, [l.header] + l.body, required);
    DeclIsGathered(START, d, l, required);
    NothingKept(required);
    OpenLines(Lines(START, lines, required), next, required);
    LinesConcat(START, lines, next, required);
    ParsedLines(lines + next, required);
  }

  /** After each declaration but the last with its semicolon on the cluster line, another
      semicolon stands before the next declaration. */
  predicate Separated(ls: seq<Layout>) {
    forall i :: 0 <= i < |ls| - 1 && Inline(ls[i]) ==> ";" in Words(ls[i + 1].gap)
  }

  /** The words that the i-th declaration is given from the lines after it. */
  function Extra(ls: seq<Layout>, trailer: seq<string>, i: nat): seq<string>
    requires i < |ls|
  {
    if !Inline(ls[i]) then [] else Upto(Words(if i + 1 < |ls| then ls[i + 1].gap else trailer))
  }

  lemma SeparatedStep(ls: seq<Layout>)
    requires ls != []
    ensures var front, gap := ls[..|ls| - 1], ls[|ls| - 1].gap;
            Separated(ls) <==> Separated(front) && (LastInline(front) ==> ";" in Words(gap))
  {
    hide Inline, Words;
    var n := |ls| - 1;
    var front := ls[..n];
    assert forall i :: 0 <= i < n ==> front[i] == ls[i];
    assert front != [] && Inline(front[n - 1]) ==> Inline(ls[n - 1]);
  }

  lemma NothingSeparates()
    ensures Separated([]) && !LastInline([])
  {
  }

  lemma ExtraOfPrefix(ls: seq<Layout>, trailer: seq<string>, n: nat, i: nat)
    requires i < n < |ls|
    ensures Extra(ls[..n], ls[n].gap, i) == Extra(ls, trailer, i)
  {
    hide Inline, Words, Upto;
  }

  lemma WithMoreAt(r: Sections, words: seq<string>, open: bool, i: nat)
    requires i < |r.words|
    ensures WithMore(r, words, open).words[i] == if i < |r.words| - 1 then r.words[i] else r.words[i] + words
  {
  }

  /** If all declarations are separated each is a section, with the words it is given. */
  lemma {:induction false} SeparatedAreSections(doc: seq<Decl>, ls: seq<Layout>, next: seq<string>)
    requires |doc| == |ls| && Separated(ls)
    ensures var r := SectionsOf(doc, ls);
            var all := WithGap(r, Words(next)).words;
            && r.open == LastInline(ls) && |all| == |r.words| == |doc|
            && forall i :: 0 <= i < |doc| ==> all[i] == DeclWords(doc[i]) + Extra(ls, next, i)
    decreases |doc|
  {
    hide DeclWords, Inline, Words, Upto, Separated, Extra, WithMore;
    if doc == [] {
      NothingSeparates();
    } else {
      var n := |doc| - 1;
      var gap := ls[n].gap;
      SeparatedStep(ls);
      SeparatedAreSections(doc[..n], ls[..n], gap);
      var before, r := WithGap(SectionsOf(doc[..n], ls[..n]), Words(gap)), SectionsOf(doc, ls);
      assert !before.open && r.words == before.words + [DeclWords(doc[n])];
      forall i | 0 <= i < |doc| ensures WithGap(r, Words(next)).words[i] == DeclWords(doc[i]) + Extra(ls, next, i) {
        GivenWords(doc[i], ls, next, i);
        if r.open {
          WithMoreAt(r, Upto(Words(next)), ";" !in Words(next), i);
        }
        if i < n {
          ExtraOfPrefix(ls, next, n, i);
        }
      }
    }
  }

  lemma GivenWords(d: Decl, ls: seq<Layout>, next: seq<string>, i: nat)
    requires i < |ls|
    ensures !Inline(ls[i]) ==> DeclWords(d) + Extra(ls, next, i) == DeclWords(d)
    ensures i == |ls| - 1 && Inline(ls[i]) ==> Extra(ls, next, i) == Upto(Words(next))
  {
  }

  /** If not, there are fewer sections than declarations. */
  lemma {:induction false} SectionsAreFewer(doc: seq<Decl>, ls: seq<Layout>)
    requires |doc| == |ls|
    ensures |SectionsOf(doc, ls).words| <= |doc|
    ensures !Separated(ls) || (LastInline(ls) && !SectionsOf(doc, ls).open) ==>
              |SectionsOf(doc, ls).words| < |doc|
  {
    hide DeclWords, Inline, Separated, Words, WithGap, WithDecl;
    if doc == [] {
      NothingSeparates();
    } else {
      var n := |doc| - 1;
      SectionsAreFewer(doc[..n], ls[..n]);
      SeparatedStep(ls);
    }
  }

  lemma {:induction false} KeptAreFewer(sections: seq<seq<string>>, required: set<string>)
    ensures |KeptEach(sections, required)| <= |sections|
  {
    if sections != [] {
      KeptAreFewer(sections[..|sections| - 1], required);
    }
  }

  function AllWords(doc: seq<Decl>): (sections: seq<seq<string>>)
    ensures |sections| == |doc| && forall i :: 0 <= i < |doc| ==> sections[i] == DeclWords(doc[i])
  {
    seq(|doc|, i requires 0 <= i < |doc| => DeclWords(doc[i]))
  }

  /** However a configuration is laid out, it is read as what is kept of each of its
      declarations, if they are separated and given no words. */
  lemma LayoutIsForgotten(doc: seq<Decl>, ls: seq<Layout>, trailer: seq<string>, required: set<string>)
    requires SetsAll(doc, ls) && AllOneLine(trailer) && NoHeader(trailer)
    requires Separated(ls) && forall i :: 0 <= i < |ls| ==> Extra(ls, trailer, i) == []
    ensures Parsed(FileText(DocLines(ls) + trailer), required) == KeptEach(AllWords(doc), required)
  {
    hide SetsAll, Parsed, FileText, DocLines, KeptEach, Separated, Extra, SectionsOf, WithGap, DeclWords;
    SectionsAreRead(doc, ls, trailer, required);
    SeparatedAreSections(doc, ls, trailer);
    var sections := WithGap(SectionsOf(doc, ls), Words(trailer)).words;
    forall i | 0 <= i < |doc| ensures sections[i] == AllWords(doc)[i] {
      assert DeclWords(doc[i]) + [] == DeclWords(doc[i]);
    }
    assert sections == AllWords(doc);
  }

  predicate AllReadable(doc: seq<Decl>) {
    forall i :: 0 <= i < |doc| ==> Readable(doc[i])
  }

  lemma SameLists<T>(a: seq<T>, x: seq<T>, b: seq<T>, y: T)
    requires |a| <= |b| && |x| <= 1
    ensures a + x == b + [y] <==> a == b && x == [y]
  {
    if x == [] {
      assert a + x == a;
    } else {
      assert (a + x)[..|a|] == a && (a + x)[|a|] == x[0];
      assert (b + [y])[..|b|] == b;
    }
  }

  /** Every section is read as the cluster that its declaration means. */
  predicate EachMeans(doc: seq<Decl>, sections: seq<seq<string>>, required: set<string>)
    requires |sections| == |doc|
  {
    forall i :: 0 <= i < |doc| ==> ClusterOf(sections[i], required) == Some(Meaning(doc[i], required))
  }

  lemma EachMeansStep(doc: seq<Decl>, sections: seq<seq<string>>, required: set<string>)
    requires |sections| == |doc| && doc != []
    ensures var n := |doc| - 1;
            EachMeans(doc, sections, required) <==>
            && EachMeans(doc[..n], sections[..n], required)
            && ClusterOf(sections[n], required) == Some(Meaning(doc[n], required))
  {
    hide ClusterOf, Meaning;
    var n := |doc| - 1;
    assert forall i :: 0 <= i < n ==> doc[i] == doc[..n][i] && sections[i] == sections[..n][i];
  }

  lemma {:induction false} KeptEachIff(doc: seq<Decl>, sections: seq<seq<string>>, required: set<string>)
    requires |sections| == |doc|
    ensures KeptEach(sections, required) == Meanings(doc, required) <==> EachMeans(doc, sections, required)
  {
    hide ClusterOf, Meaning, EachMeans;
    if doc == [] {
      NothingMeans(required);
    } else {
      var n := |doc| - 1;
      EachMeansStep(doc, sections, required);
      KeptEachIff(doc[..n], sections[..n], required);
      KeptAreFewer(sections[..n], required);
      var kept, meant := KeptEach(sections[..n], required), Meanings(doc[..n], required);
      assert Meanings(doc, required) == meant + [Meaning(doc[n], required)];
      SameLists(kept, Kept(sections[n], required), meant, Meaning(doc[n], required));
    }
  }

  lemma NothingMeans(required: set<string>)
    ensures EachMeans([], [], required)
  {
  }

  lemma {:induction false} ValidAt(doc: seq<Decl>, ls: seq<Layout>, i: nat)
    requires SetsAll(doc, ls) && i < |doc|
    ensures ValidDecl(doc[i])
    decreases |doc|
  {
    hide ValidDecl, Sets;
    var n := |doc| - 1;
    if i < n {
      ValidAt(doc[..n], ls[..n], i);
    }
  }

  /** Any list of clusters, written on lines of any layout, is read back as those clusters,
      in order, with the default port where none is given and without instances, exactly
      when each, with the words it is given if its semicolon is on the cluster line, has two
      words besides its name, an endpoint, and no endpoint after a clause or among the words
      given, and all are separated. */
  lemma RoundTripIff(doc: seq<Decl>, ls: seq<Layout>, trailer: seq<string>, required: set<string>)
    requires SetsAll(doc, ls) && AllOneLine(trailer) && NoHeader(trailer)
    ensures Parsed(FileText(DocLines(ls) + trailer), required) == Meanings(doc, required) <==>
            Separated(ls) && forall i :: 0 <= i < |doc| ==> ReadableWith(doc[i], Extra(ls, trailer, i))
  {
    hide SetsAll, ValidDecl, Parsed, FileText, DocLines, KeptEach, ReadableWith, Separated, Extra, Meaning, ClusterOf,
      SectionsOf, WithGap, DeclWords, NoHeader;
    SectionsAreRead(doc, ls, trailer, required);
    var sections := WithGap(SectionsOf(doc, ls), Words(trailer)).words;
    if Separated(ls) {
      SeparatedAreSections(doc, ls, trailer);
      KeptEachIff(doc, sections, required);
      forall i | 0 <= i < |doc|
        ensures ClusterOf(sections[i], required) == Some(Meaning(doc[i], required)) <==>
                ReadableWith(doc[i], Extra(ls, trailer, i))
      {
        ValidAt(doc, ls, i);
        DeclIsReadWithIff(doc[i], Extra(ls, trailer, i), required);
      }
    } else {
      SectionsAreFewer(doc, ls);
      KeptAreFewer(sections, required);
    }
  }

  lemma NotInline(ls: seq<Layout>, trailer: seq<string>)
    requires forall i :: 0 <= i < |ls| ==> !Inline(ls[i])
    ensures Separated(ls) && forall i :: 0 <= i < |ls| ==> Extra(ls, trailer, i) == []
  {
  }

  lemma ReadableAlone(doc: seq<Decl>)
    ensures AllReadable(doc) <==> forall i :: 0 <= i < |doc| ==> ReadableWith(doc[i], [])
  {
    hide HasEndpoint, EndpointsFirst, NoClause, Scan;
    NothingToScan();
    assert forall d :: ReadableWith(d, []) <==> Readable(d);
  }

  // ---------------------------------------------------------------- two ways of printing

  lemma {:induction false} JoinWithout(ws: seq<string>, x: char)
    requires ws != [] && x != ' ' && forall i :: 0 <= i < |ws| ==> x !in ws[i]
    ensures x !in Join(ws, ' ')
  {
    if |ws| > 1 {
      JoinWithout(ws[1..], x);
    }
  }

  /** Words joined by spaces are one line that holds them. */
  lemma JoinedWords(ws: seq<string>)
    requires ws != [] && forall i :: 0 <= i < |ws| ==> OnLine(ws[i])
    ensures OneLine(Join(ws, ' ')) && Cut(Join(ws, ' ')) == Join(ws, ' ') && Fields(Join(ws, ' ')) == ws
  {
    JoinWithout(ws, '\n');
    JoinWithout(ws, '#');
    SplitWhole(Join(ws, ' '), '#');
    FieldsOfWords(ws);
  }

  lemma DeclWordsAreWritable(d: Decl)
    requires ValidDecl(d)
    ensures forall w :: w in DeclWords(d) ==> Writable(w)
  {
    NoSemicolon(d.items);
    assert Writable("cluster");
  }

  lemma JoinedStart(a: string, rest: seq<string>)
    requires rest != []
    ensures Join([a] + rest, ' ') == a + " " + Join(rest, ' ')
  {
    assert ([a] + rest)[1..] == rest;
  }

  /** The name on the cluster line, the items on the next, the semicolon on its own. */
  function Printed(d: Decl): Layout {
    Layout([], Join(["cluster", d.name], ' '),
           (if BodyWords(d.items) == [] then [] else [Join(BodyWords(d.items), ' ')]) + [";"])
  }

  lemma PrintedSets(d: Decl)
    requires ValidDecl(d)
    ensures Sets(d, Printed(d)) && !Inline(Printed(d))
  {
    hide ValidItem, Fields, Cut, BodyWords, OnLine;
    var l, header, body := Printed(d), ["cluster", d.name], BodyWords(d.items);
    DeclWordsAreWritable(d);
    assert forall i :: 0 <= i < |header| ==> Writable(header[i]);
    JoinedWords(header);
    JoinedStart("cluster", [d.name]);
    assert header == ["cluster"] + [d.name] && "cluster " <= l.header;
    SemicolonLine();
    if body == [] {
      assert Words(l.body) == [";"] + Words([]);
    } else {
      assert forall i :: 0 <= i < |body| ==> body[i] in DeclWords(d);
      JoinedWords(body);
      assert l.body == [Join(body, ' ')] + [";"];
      assert l.body[1..] == [";"];
      assert Words(l.body) == body + Words([";"]);
    }
    assert header + (body + [";"]) == DeclWords(d) + [";"];
  }

  lemma SemicolonLine()
    ensures OneLine(";") && Words([";"]) == [";"]
  {
    JoinedWords([";"]);
    assert Join([";"], ' ') == ";";
    assert Words([]) == [] && [";"] + [] == [";"];
  }

  lemma NothingSet()
    ensures SetsAll([], [])
  {
  }

  lemma OneMoreSet(doc: seq<Decl>, ls: seq<Layout>, d: Decl, l: Layout)
    requires SetsAll(doc, ls) && ValidDecl(d) && Sets(d, l)
    ensures SetsAll(doc + [d], ls + [l])
  {
    hide Sets, ValidDecl;
    assert (doc + [d])[..|doc|] == doc && (ls + [l])[..|ls|] == ls;
  }

  function PrintAll(doc: seq<Decl>): (ls: seq<Layout>)
    ensures |ls| == |doc| && forall i :: 0 <= i < |doc| ==> ls[i] == Printed(doc[i])
  {
    seq(|doc|, i requires 0 <= i < |doc| => Printed(doc[i]))
  }

  lemma {:induction false} PrintAllSets(doc: seq<Decl>)
    requires forall i :: 0 <= i < |doc| ==> ValidDecl(doc[i])
    ensures SetsAll(doc, PrintAll(doc)) && forall i :: 0 <= i < |doc| ==> !Inline(PrintAll(doc)[i])
  {
    hide Sets, SetsAll, ValidDecl, Inline, PrintAll;
    if doc == [] {
      NothingSet();
    } else {
      var n := |doc| - 1;
      var ls := PrintAll(doc[..n]);
      PrintAllSets(doc[..n]);
      PrintedSets(doc[n]);
      OneMoreSet(doc[..n], ls, doc[n], Printed(doc[n]));
      assert doc == doc[..n] + [doc[n]] && PrintAll(doc) == ls + [Printed(doc[n])];
    }
  }

  /** Printing and reading. */
  lemma PrintThenParseIff(doc: seq<Decl>, required: set<string>)
    requires forall i :: 0 <= i < |doc| ==> ValidDecl(doc[i])
    ensures Parsed(FileText(DocLines(PrintAll(doc))), required) == Meanings(doc, required) <==> AllReadable(doc)
  {
    hide SetsAll, ValidDecl, PrintAll, Parsed, FileText, AllReadable, ReadableWith, Inline, Separated, Extra;
    var ls := PrintAll(doc);
    PrintAllSets(doc);
    RoundTripIff(doc, ls, [], required);
    NotInline(ls, []);
    ReadableAlone(doc);
    assert DocLines(ls) + [] == DocLines(ls);
  }

  /** A declaration on one line, with its semicolon. */
  function OneLined(d: Decl): Layout {
    Layout([], Join(DeclWords(d) + [";"], ' '), [])
  }

  lemma OneLinedSets(d: Decl)
    requires ValidDecl(d)
    ensures Sets(d, OneLined(d)) && Inline(OneLined(d))
  {
    hide ValidItem, Split;
    var ws := DeclWords(d) + [";"];
    DeclWordsAreWritable(d);
    forall i | 0 <= i < |ws| ensures OnLine(ws[i]) {
      assert i < |ws| - 1 ==> ws[i] in DeclWords(d);
    }
    JoinedWords(ws);
    JoinedStart("cluster", ws[1..]);
    assert ws == ["cluster"] + ws[1..];
    assert "cluster " <= Join(ws, ' ');
    assert ws[|ws| - 1] == ";" && ws + [] == ws;
  }

  function OneLiners(doc: seq<Decl>): (ls: seq<Layout>)
    ensures |ls| == |doc| && forall i :: 0 <= i < |doc| ==> ls[i] == OneLined(doc[i])
  {
    seq(|doc|, i requires 0 <= i < |doc| => OneLined(doc[i]))
  }

  lemma {:induction false} OneLinersSet(doc: seq<Decl>)
    requires forall i :: 0 <= i < |doc| ==> ValidDecl(doc[i])
    ensures SetsAll(doc, OneLiners(doc)) && forall i :: 0 <= i < |doc| ==> Inline(OneLiners(doc)[i])
  {
    hide Sets, SetsAll, ValidDecl, Inline, OneLiners;
    if doc == [] {
      NothingSet();
    } else {
      var n := |doc| - 1;
      var ls := OneLiners(doc[..n]);
      OneLinersSet(doc[..n]);
      OneLinedSets(doc[n]);
      OneMoreSet(doc[..n], ls, doc[n], OneLined(doc[n]));
      assert doc == doc[..n] + [doc[n]] && OneLiners(doc) == ls + [OneLined(doc[n])];
    }
  }

  /** The words of the i-th pair of declarations, or of the last one if it is alone. */
  function PairWords(doc: seq<Decl>, i: nat): seq<string>
    requires 2 * i < |doc|
  {
    DeclWords(doc[2 * i]) + if 2 * i + 1 < |doc| then DeclWords(doc[2 * i + 1]) else []
  }

  lemma PairOfPrefix(doc: seq<Decl>, n: nat, i: nat)
    requires n < |doc| && 2 * i <= n
    ensures 2 * i < n && 2 * i + 1 != n ==> PairWords(doc[..n], i) == PairWords(doc[..n + 1], i)
    ensures 2 * i + 1 == n ==> PairWords(doc[..n + 1], i) == PairWords(doc[..n], i) + DeclWords(doc[n])
    ensures 2 * i == n ==> PairWords(doc[..n + 1], i) == DeclWords(doc[n])
  {
    hide DeclWords;
    if 2 * i + 1 == n {
      assert DeclWords(doc[2 * i]) + [] == DeclWords(doc[2 * i]);
    } else if 2 * i == n {
      assert DeclWords(doc[n]) + [] == DeclWords(doc[n]);
    }
  }

  lemma {:induction false} HalfAsMany(doc: seq<Decl>, ls: seq<Layout>)
    requires |doc| == |ls| && forall i :: 0 <= i < |ls| ==> Inline(ls[i]) && Words(ls[i].gap) == []
    ensures var r := SectionsOf(doc, ls);
            |r.words| == (|doc| + 1) / 2 && (r.open <==> |doc| % 2 == 1)
  {
    hide DeclWords, Inline, WithGap, WithDecl, Words;
    if doc != [] {
      HalfAsMany(doc[..|doc| - 1], ls[..|doc| - 1]);
    }
  }

  lemma EmptyGap(r: Sections)
    requires Proper(r)
    ensures WithGap(r, []) == r
  {
    UptoNothing();
    if r.open {
      var n := |r.words| - 1;
      assert r.words[n] + [] == r.words[n];
      assert r.words[..n] + [r.words[n]] == r.words;
    }
  }

  lemma WithDeclAt(r: Sections, d: Decl, inline: bool, i: nat)
    requires Proper(r) && i < |WithDecl(r, d, inline).words|
    ensures WithDecl(r, d, inline).words[i] ==
            if !r.open && i == |r.words| then DeclWords(d)
            else if r.open && i == |r.words| - 1 then r.words[i] + DeclWords(d)
            else r.words[i]
  {
    hide DeclWords;
  }

  /** Of declarations on one line each every other one starts a cluster, which swallows the
      one after it. */
  lemma {:induction false} OneLinersArePaired(doc: seq<Decl>, ls: seq<Layout>, i: nat)
    requires |doc| == |ls| && forall k :: 0 <= k < |ls| ==> Inline(ls[k]) && Words(ls[k].gap) == []
    ensures |SectionsOf(doc, ls).words| == (|doc| + 1) / 2
    ensures 2 * i < |doc| ==> SectionsOf(doc, ls).words[i] == PairWords(doc, i)
    decreases |doc|
  {
    hide DeclWords, Inline, PairWords, WithGap, WithDecl, Words;
    HalfAsMany(doc, ls);
    if 2 * i < |doc| {
      var n := |doc| - 1;
      var before := SectionsOf(doc[..n], ls[..n]);
      HalfAsMany(doc[..n], ls[..n]);
      OneLinersArePaired(doc[..n], ls[..n], i);
      PairOfPrefix(doc, n, i);
      EmptyGap(before);
      WithDeclAt(before, doc[n], Inline(ls[n]), i);
      assert doc[..n + 1] == doc;
    }
  }

  lemma OneLinersSeparatedIff(ls: seq<Layout>)
    requires forall k :: 0 <= k < |ls| ==> Inline(ls[k]) && Words(ls[k].gap) == []
    ensures Separated(ls) <==> |ls| <= 1
    ensures forall i :: 0 <= i < |ls| ==> Extra(ls, [], i) == []
  {
    hide Inline, Words;
    NoWords();
    UptoNothing();
    assert |ls| > 1 ==> Inline(ls[0]) && ";" !in Words(ls[1].gap);
  }

  /** A semicolon on the cluster line does not end the cluster: declarations written on one
      line each are read back exactly when there is at most one, and it is readable. */
  lemma OneLinersAreReadIff(doc: seq<Decl>, required: set<string>)
    requires forall i :: 0 <= i < |doc| ==> ValidDecl(doc[i])
    ensures Parsed(FileText(DocLines(OneLiners(doc))), required) == Meanings(doc, required) <==>
            AllReadable(doc) && |doc| <= 1
  {
    hide SetsAll, ValidDecl, OneLiners, Parsed, FileText, AllReadable, ReadableWith, Inline, Separated, Extra, Words;
    var ls := OneLiners(doc);
    OneLinersSet(doc);
    NoWords();
    RoundTripIff(doc, ls, [], required);
    OneLinersSeparatedIff(ls);
    ReadableAlone(doc);
    assert DocLines(ls) + [] == DocLines(ls);
  }
}
