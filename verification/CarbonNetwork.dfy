/**
  The network checker: groups of endpoints, one probe per endpoint and tick, a flat
  vector of metrics, and a log of the endpoints whose error changed.
 */
module CarbonNetwork {
  import opened Checker
  import opened Hysteresis
  import opened Lists
  import FanIn

  /** The errors of one round of probes, by cluster and endpoint. */
  type Tick = seq<seq<ErrorText>>

  datatype ClusterView = ClusterView(name: string, required: bool, endpoints: seq<string>, errors: seq<ErrorText>)

  datatype NetView = NetView(clusters: seq<ClusterView>, counters: Counters, metrics: seq<Metric>)

  /** The endpoint's error became `err`. */
  datatype Event = Event(cluster: nat, index: nat, endpoint: string, err: ErrorText)

  // ---------------------------------------------------------------- one tick

  function TestMetric(prefix: string, name: string, endpoint: string): string {
    prefix + ".test.network.carbon." + Strip(name) + "." + Strip(endpoint)
  }

  function MetricName(name: string, endpoint: string): string {
    "network.carbon." + Strip(name) + "." + Strip(endpoint)
  }

  function Errors(cs: seq<ClusterView>): Tick {
    seq(|cs|, i requires 0 <= i < |cs| => cs[i].errors)
  }

  function WithErrors(cs: seq<ClusterView>, tick: Tick): seq<ClusterView>
    requires |tick| == |cs|
  {
    seq(|cs|, i requires 0 <= i < |cs| => cs[i].(errors := tick[i]))
  }

  predicate Shaped(cs: seq<ClusterView>, tick: Tick) {
    |tick| == |cs| && forall i :: 0 <= i < |cs| ==> |tick[i]| == |cs[i].endpoints|
  }

  predicate Consistent(cs: seq<ClusterView>) {
    forall i :: 0 <= i < |cs| ==> |cs[i].errors| == |cs[i].endpoints|
  }

  predicate Up(errs: seq<ErrorText>) {
    exists j :: 0 <= j < |errs| && errs[j].None?
  }

  /** A round is good when every required cluster, and at least one cluster, has an
      endpoint without error. */
  predicate GoodTick(cs: seq<ClusterView>, tick: Tick)
    requires |tick| == |cs|
  {
    && (forall i :: 0 <= i < |cs| && cs[i].required ==> Up(tick[i]))
    && (exists i :: 0 <= i < |cs| && Up(tick[i]))
  }

  function ShownState(err: ErrorText): State {
    if err.Some? then Error else Success
  }

  /** Where cluster i's metrics start: the sum of the endpoint counts before it. */
  function Offset(cs: seq<ClusterView>, i: nat): nat
    requires i <= |cs|
  {
    if i == 0 then 0 else Offset(cs, i - 1) + |cs[i - 1].endpoints|
  }

  /** One cluster's metrics; without errors, before the first tick. */
  function Row(c: ClusterView, errs: Option<seq<ErrorText>>): seq<Metric>
    requires errs.Some? ==> |errs.value| == |c.endpoints|
  {
    seq(|c.endpoints|, j requires 0 <= j < |c.endpoints| =>
      Metric(MetricName(c.name, c.endpoints[j]),
             Itoa(if errs.Some? then ShownState(errs.value[j]) else Collecting)))
  }

  predicate ShapedIfAny(cs: seq<ClusterView>, tick: Option<Tick>) {
    tick.Some? ==> Shaped(cs, tick.value)
  }

  /** The metrics of the first n clusters. */
  function Metrics(cs: seq<ClusterView>, tick: Option<Tick>, n: nat): (ms: seq<Metric>)
    requires ShapedIfAny(cs, tick) && n <= |cs|
    ensures |ms| == Offset(cs, n)
  {
    if n == 0 then []
    else Metrics(cs, tick, n - 1) + Row(cs[n - 1], if tick.Some? then Some(tick.value[n - 1]) else None)
  }

  lemma {:induction false} OffsetGrows(cs: seq<ClusterView>, i: nat, n: nat)
    requires i <= n <= |cs|
    ensures Offset(cs, i) <= Offset(cs, n)
  {
    if i < n { OffsetGrows(cs, i, n - 1); }
  }

  lemma {:induction false} MetricAt(cs: seq<ClusterView>, tick: Option<Tick>, n: nat, i: nat, j: nat)
    requires ShapedIfAny(cs, tick) && i < n <= |cs| && j < |cs[i].endpoints|
    ensures Offset(cs, i) + j < Offset(cs, n)
    ensures Metrics(cs, tick, n)[Offset(cs, i) + j] ==
            Metric(MetricName(cs[i].name, cs[i].endpoints[j]),
                   Itoa(if tick.Some? then ShownState(tick.value[i][j]) else Collecting))
  {
    if i < n - 1 {
      MetricAt(cs, tick, n - 1, i, j);
    }
  }

  lemma {:induction false} SameMetrics(a: seq<ClusterView>, b: seq<ClusterView>, tick: Option<Tick>, n: nat)
    requires |a| == |b| && forall i :: 0 <= i < |a| ==> a[i].name == b[i].name && a[i].endpoints == b[i].endpoints
    requires ShapedIfAny(a, tick) && n <= |a|
    ensures Metrics(a, tick, n) == Metrics(b, tick, n)
  {
    if n > 0 { SameMetrics(a, b, tick, n - 1); }
  }

  /** A fresh checker: the clusters as they are, and every metric says `Collecting`. */
  function Fresh(cs: seq<ClusterView>): NetView {
    NetView(cs, ZERO, Metrics(cs, None, |cs|))
  }

  function NetStep(th: Thresholds, v: NetView, tick: Tick): NetView
    requires Shaped(v.clusters, tick)
  {
    NetView(WithErrors(v.clusters, tick),
            Apply(th, v.counters, GoodTick(v.clusters, tick)),
            Metrics(v.clusters, Some(tick), |v.clusters|))
  }

  /** The events of cluster i's first n endpoints. */
  function ClusterEvents(c: ClusterView, i: nat, errs: seq<ErrorText>, n: nat): seq<Event>
    requires n <= |errs| == |c.endpoints| == |c.errors|
  {
    if n == 0 then []
    else
      ClusterEvents(c, i, errs, n - 1) +
      if ErrorChanged(c.errors[n - 1], errs[n - 1]) then [Event(i, n - 1, c.endpoints[n - 1], errs[n - 1])] else []
  }

  /** The events of the first n clusters. */
  function TickEvents(cs: seq<ClusterView>, tick: Tick, n: nat): seq<Event>
    requires Consistent(cs) && Shaped(cs, tick) && n <= |cs|
  {
    if n == 0 then []
    else
      TickEvents(cs, tick, n - 1) + ClusterEvents(cs[n - 1], n - 1, tick[n - 1], |tick[n - 1]|)
  }

  function Render(e: Event): string {
    "endpoint " + e.endpoint + " " + (if e.err.Some? then e.err.value else "up")
  }

  function RenderAll(es: seq<Event>): seq<string> {
    if es == [] then [] else RenderAll(es[..|es| - 1]) + [Render(es[|es| - 1])]
  }

  lemma {:induction false} RenderConcat(a: seq<Event>, b: seq<Event>)
    ensures RenderAll(a + b) == RenderAll(a) + RenderAll(b)
  {
    if b == [] {
      assert a + b == a;
    } else {
      RenderConcat(a, b[..|b| - 1]);
      assert (a + b)[..|a + b| - 1] == a + b[..|b| - 1];
    }
  }

  // ---------------------------------------------------------------- the events' texts

  /** Endpoint j has another error now. */
  predicate Changed(c: ClusterView, errs: seq<ErrorText>, j: nat) {
    j < |c.errors| && j < |errs| && c.errors[j] != errs[j]
  }

  /** How many of the first n endpoints have. */
  function Changes(c: ClusterView, errs: seq<ErrorText>, n: nat): nat {
    |set j: nat | j < n && Changed(c, errs, j)|
  }

  lemma NoChanges(c: ClusterView, errs: seq<ErrorText>)
    ensures Changes(c, errs, 0) == 0
  {
    hide Changed;
    assert (set j: nat | j < 0 && Changed(c, errs, j)) == {};
  }

  lemma ChangesStep(c: ClusterView, errs: seq<ErrorText>, n: nat)
    ensures Changes(c, errs, n + 1) == Changes(c, errs, n) + if Changed(c, errs, n) then 1 else 0
  {
    hide Changed;
    var before := set j: nat | j < n && Changed(c, errs, j);
    var after := set j: nat | j < n + 1 && Changed(c, errs, j);
    assert after == if Changed(c, errs, n) then before + {n} else before;
  }

  /** The events of a cluster are one text per endpoint whose error changed, in order. */
  predicate Tells(events: seq<string>, c: ClusterView, errs: seq<ErrorText>)
    requires |errs| == |c.endpoints| == |c.errors|
  {
    && |events| == Changes(c, errs, |errs|)
    && forall j: nat :: j < |errs| && c.errors[j] != errs[j] ==>
         && Changes(c, errs, j) < |events|
         && events[Changes(c, errs, j)] ==
            "endpoint " + c.endpoints[j] + " " + if errs[j].Some? then errs[j].value else "up"
  }

  lemma {:induction false} EventTextAt(c: ClusterView, i: nat, errs: seq<ErrorText>, n: nat, j: nat)
    requires n <= |errs| == |c.endpoints| == |c.errors|
    ensures |RenderAll(ClusterEvents(c, i, errs, n))| == Changes(c, errs, n)
    ensures j < n && c.errors[j] != errs[j] ==>
              && Changes(c, errs, j) < Changes(c, errs, n)
              && RenderAll(ClusterEvents(c, i, errs, n))[Changes(c, errs, j)] ==
                 "endpoint " + c.endpoints[j] + " " + if errs[j].Some? then errs[j].value else "up"
  {
    hide Changes, RenderAll, ClusterEvents;
    if n == 0 {
      NoEvents(c, i, errs);
      NoChanges(c, errs);
    } else {
      EventTextAt(c, i, errs, n - 1, j);
      EventsStep(c, i, errs, n - 1);
      ChangesStep(c, errs, n - 1);
    }
  }

  lemma ClusterTells(c: ClusterView, i: nat, errs: seq<ErrorText>)
    requires |errs| == |c.endpoints| == |c.errors|
    ensures Tells(RenderAll(ClusterEvents(c, i, errs, |errs|)), c, errs)
  {
    hide Changes, RenderAll, ClusterEvents;
    EventTextAt(c, i, errs, |errs|, 0);
    forall j: nat | j < |errs| && c.errors[j] != errs[j]
      ensures var events := RenderAll(ClusterEvents(c, i, errs, |errs|));
              && Changes(c, errs, j) < |events|
              && events[Changes(c, errs, j)] ==
                 "endpoint " + c.endpoints[j] + " " + if errs[j].Some? then errs[j].value else "up"
    {
      EventTextAt(c, i, errs, |errs|, j);
    }
  }

  /** The same for the clusters before the n-th. */
  function AllChanges(cs: seq<ClusterView>, tick: Tick, n: nat): nat
    requires Consistent(cs) && Shaped(cs, tick) && n <= |cs|
  {
    if n == 0 then 0 else AllChanges(cs, tick, n - 1) + Changes(cs[n - 1], tick[n - 1], |tick[n - 1]|)
  }

  /** The events of a round, as they are logged, are one text per endpoint whose error
      changed, in the order of clusters and endpoints. */
  predicate TellsRound(events: seq<string>, cs: seq<ClusterView>, tick: Tick)
    requires Consistent(cs) && Shaped(cs, tick)
  {
    && events == RenderAll(TickEvents(cs, tick, |cs|))
    && |events| == AllChanges(cs, tick, |cs|)
    && forall i: nat, j: nat :: i < |cs| && j < |tick[i]| && cs[i].errors[j] != tick[i][j] ==>
         var n := AllChanges(cs, tick, i) + Changes(cs[i], tick[i], j);
         && n < |events|
         && events[n] ==
            "endpoint " + cs[i].endpoints[j] + " " + if tick[i][j].Some? then tick[i][j].value else "up"
  }

  lemma {:induction false} RoundTextAt(cs: seq<ClusterView>, tick: Tick, m: nat, i: nat, j: nat)
    requires Consistent(cs) && Shaped(cs, tick) && m <= |cs|
    ensures |RenderAll(TickEvents(cs, tick, m))| == AllChanges(cs, tick, m)
    ensures i < m && j < |tick[i]| && cs[i].errors[j] != tick[i][j] ==>
              var n := AllChanges(cs, tick, i) + Changes(cs[i], tick[i], j);
              && n < AllChanges(cs, tick, m)
              && RenderAll(TickEvents(cs, tick, m))[n] ==
                 "endpoint " + cs[i].endpoints[j] + " " + if tick[i][j].Some? then tick[i][j].value else "up"
  {
    hide Changes, ClusterEvents;
    if m > 0 {
      var k := m - 1;
      RoundTextAt(cs, tick, k, i, j);
      RenderConcat(TickEvents(cs, tick, k), ClusterEvents(cs[k], k, tick[k], |tick[k]|));
      EventTextAt(cs[k], k, tick[k], |tick[k]|, j);
    }
  }

  lemma RoundTells(cs: seq<ClusterView>, tick: Tick)
    requires Consistent(cs) && Shaped(cs, tick)
    ensures TellsRound(RenderAll(TickEvents(cs, tick, |cs|)), cs, tick)
  {
    hide Changes, RenderAll, TickEvents, AllChanges;
    RoundTextAt(cs, tick, |cs|, 0, 0);
    var events := RenderAll(TickEvents(cs, tick, |cs|));
    forall i: nat, j: nat | i < |cs| && j < |tick[i]| && cs[i].errors[j] != tick[i][j]
      ensures var n := AllChanges(cs, tick, i) + Changes(cs[i], tick[i], j);
              && n < |events|
              && events[n] ==
                 "endpoint " + cs[i].endpoints[j] + " " + if tick[i][j].Some? then tick[i][j].value else "up"
    {
      RoundTextAt(cs, tick, |cs|, i, j);
    }
  }

  // ---------------------------------------------------------------- runs

  predicate ShapedRun(cs: seq<ClusterView>, ticks: seq<Tick>) {
    Consistent(cs) && forall t :: 0 <= t < |ticks| ==> Shaped(cs, ticks[t])
  }

  function ErrorsAfter(cs: seq<ClusterView>, ticks: seq<Tick>): (errs: Tick)
    requires ShapedRun(cs, ticks)
    ensures Shaped(cs, errs)
  {
    if ticks == [] then Errors(cs) else ticks[|ticks| - 1]
  }

  function LastTick(ticks: seq<Tick>): Option<Tick> {
    if ticks == [] then None else Some(ticks[|ticks| - 1])
  }

  lemma OwnErrors(cs: seq<ClusterView>)
    ensures WithErrors(cs, Errors(cs)) == cs
  {
  }

  function NetRun(th: Thresholds, cs: seq<ClusterView>, ticks: seq<Tick>): (v: NetView)
    requires ShapedRun(cs, ticks)
    ensures v.clusters == WithErrors(cs, ErrorsAfter(cs, ticks))
    ensures v.metrics == Metrics(cs, LastTick(ticks), |cs|)
  {
    if ticks == [] then
      OwnErrors(cs);
      Fresh(cs)
    else
      var v := NetRun(th, cs, ticks[..|ticks| - 1]);
      SameMetrics(v.clusters, cs, LastTick(ticks), |cs|);
      NetStep(th, v, ticks[|ticks| - 1])
  }

  lemma OneMoreRound(th: Thresholds, cs: seq<ClusterView>, ticks: seq<Tick>, tick: Tick)
    requires ShapedRun(cs, ticks) && Shaped(cs, tick)
    ensures ShapedRun(cs, ticks + [tick])
    ensures NetRun(th, cs, ticks + [tick]) == NetStep(th, NetRun(th, cs, ticks), tick)
  {
    hide NetStep, Metrics;
    assert (ticks + [tick])[..|ticks|] == ticks;
  }

  function Results(cs: seq<ClusterView>, ticks: seq<Tick>): seq<bool>
    requires ShapedRun(cs, ticks)
  {
    seq(|ticks|, t requires 0 <= t < |ticks| => GoodTick(cs, ticks[t]))
  }

  lemma NetRunLastTick(th: Thresholds, cs: seq<ClusterView>, ticks: seq<Tick>)
    requires ShapedRun(cs, ticks) && ticks != []
    ensures var front, last := ticks[..|ticks| - 1], ticks[|ticks| - 1];
            NetRun(th, cs, ticks).counters == Apply(th, NetRun(th, cs, front).counters, GoodTick(cs, last))
  {
    var front, last := ticks[..|ticks| - 1], ticks[|ticks| - 1];
    var w := NetRun(th, cs, front);
    SameGoodness(cs, w.clusters, last);
  }

  lemma ResultsLastTick(cs: seq<ClusterView>, ticks: seq<Tick>)
    requires ShapedRun(cs, ticks) && ticks != []
    ensures var front, last := ticks[..|ticks| - 1], ticks[|ticks| - 1];
            Results(cs, ticks) == Results(cs, front) + [GoodTick(cs, last)]
  {
  }

  /** The checker's counters are the hysteresis automaton run on the rounds' results. */
  lemma {:induction false} NetworkRunsAutomaton(th: Thresholds, cs: seq<ClusterView>, ticks: seq<Tick>)
    requires ShapedRun(cs, ticks)
    ensures NetRun(th, cs, ticks).counters == Run(th, Results(cs, ticks))
  {
    if ticks != [] {
      var front := ticks[..|ticks| - 1];
      NetworkRunsAutomaton(th, cs, front);
      NetRunLastTick(th, cs, ticks);
      ResultsLastTick(cs, ticks);
      var h := Results(cs, ticks);
      assert h[..|h| - 1] == Results(cs, front);
    }
  }

  lemma SameGoodness(a: seq<ClusterView>, b: seq<ClusterView>, tick: Tick)
    requires |a| == |b| == |tick| && forall i :: 0 <= i < |a| ==> a[i].required == b[i].required
    ensures GoodTick(a, tick) == GoodTick(b, tick)
  {
  }

  /** What the checker reports after a run is what its thresholds promise for the
      sequence of good and bad rounds. */
  lemma NetworkKeepsPromise(th: Thresholds, cs: seq<ClusterView>, ticks: seq<Tick>)
    requires ShapedRun(cs, ticks) && Fits(th)
    ensures Verdict(th, NetRun(th, cs, ticks).counters) == Promised(th, Results(cs, ticks))
  {
    NetworkRunsAutomaton(th, cs, ticks);
    VerdictKeepsPromise(th, Results(cs, ticks));
  }

  /** The metric at the prefix sum of endpoint counts plus j names endpoint (i, j)
      and shows an error exactly when that endpoint's latest probe failed. */
  lemma MetricsAreAligned(th: Thresholds, cs: seq<ClusterView>, ticks: seq<Tick>, i: nat, j: nat)
    requires ShapedRun(cs, ticks) && i < |cs| && j < |cs[i].endpoints|
    ensures |NetRun(th, cs, ticks).metrics| == Offset(cs, |cs|)
    ensures Offset(cs, i) + j < Offset(cs, |cs|)
    ensures NetRun(th, cs, ticks).metrics[Offset(cs, i) + j] ==
            Metric("network.carbon." + Strip(cs[i].name) + "." + Strip(cs[i].endpoints[j]),
                   if ticks == [] then "0" else if ErrorsAfter(cs, ticks)[i][j].Some? then "3" else "1")
  {
    hide NetRun, Metrics, Offset;
    MetricAt(cs, LastTick(ticks), |cs|, i, j);
  }

  lemma SamePrefix(prefix: string, a: string, b: string)
    ensures prefix + a == prefix + b <==> a == b
  {
    assert (prefix + a)[|prefix|..] == a && (prefix + b)[|prefix|..] == b;
  }

  /** Two endpoints of a cluster share a metric name exactly when their stripped forms are
      equal; so do their test metrics. */
  lemma MetricNamesCollideIff(prefix: string, name: string, a: string, b: string)
    ensures MetricName(name, a) == MetricName(name, b) <==> Strip(a) == Strip(b)
    ensures TestMetric(prefix, name, a) == TestMetric(prefix, name, b) <==> Strip(a) == Strip(b)
  {
    SamePrefix("network.carbon." + Strip(name) + ".", Strip(a), Strip(b));
    SamePrefix(prefix + ".test.network.carbon." + Strip(name) + ".", Strip(a), Strip(b));
  }

  /** Endpoints with different addresses can: any other character is as good as an underscore. */
  lemma MetricNamesCanCollide(name: string, host: string, domain: string)
    requires AllNames(host) && AllNames(domain)
    ensures MetricName(name, host + "." + domain) == MetricName(name, host + "_" + domain)
  {
    hide Strip;
    StripRun(host, ".", domain);
    StripKeepsNames(host);
    StripKeepsNames(domain);
    StripKeepsNames(host + "_" + domain);
  }

  /** In every run a round counts as good, in the counters, exactly when every required
      cluster and at least one cluster has an endpoint without error; else as a failure. */
  lemma RoundCounts(th: Thresholds, cs: seq<ClusterView>, ticks: seq<Tick>, tick: Tick)
    requires ShapedRun(cs, ticks) && Shaped(cs, tick)
    ensures ShapedRun(cs, ticks + [tick])
    ensures var c, next := NetRun(th, cs, ticks).counters, NetRun(th, cs, ticks + [tick]).counters;
            var good :=
              && (forall i :: 0 <= i < |cs| && cs[i].required ==> exists j :: 0 <= j < |tick[i]| && tick[i][j].None?)
              && (exists i, j :: 0 <= i < |cs| && 0 <= j < |tick[i]| && tick[i][j].None?);
            && next == Apply(th, c, good)
            && (good <==> next.success > 0)
  {
    hide NetRun, Metrics;
    assert (ticks + [tick])[..|ticks|] == ticks;
    NetRunLastTick(th, cs, ticks + [tick]);
    if GoodTick(cs, tick) {
      var i :| 0 <= i < |cs| && Up(tick[i]);
      var j :| 0 <= j < |tick[i]| && tick[i][j].None?;
    }
    if i, j :| 0 <= i < |cs| && 0 <= j < |tick[i]| && tick[i][j].None? {
      assert Up(tick[i]);
    }
    forall i | 0 <= i < |cs| ensures Up(tick[i]) <==> exists j :: 0 <= j < |tick[i]| && tick[i][j].None? {
    }
  }

  // ---------------------------------------------------------------- the event log

  function EventLog(cs: seq<ClusterView>, ticks: seq<Tick>): seq<Event>
    requires ShapedRun(cs, ticks)
  {
    if ticks == [] then []
    else
      var front := ticks[..|ticks| - 1];
      EventLog(cs, front) + TickEvents(WithErrors(cs, ErrorsAfter(cs, front)), ticks[|ticks| - 1], |cs|)
  }

  predicate InRange(errs: Tick, e: Event) {
    e.cluster < |errs| && e.index < |errs[e.cluster]|
  }

  function Apply1(errs: Tick, e: Event): Tick {
    if InRange(errs, e) then errs[e.cluster := errs[e.cluster][e.index := e.err]] else errs
  }

  /** What a reader of the log believes, starting from `errs`. */
  function Replay(errs: Tick, log: seq<Event>): Tick {
    if log == [] then errs else Apply1(Replay(errs, log[..|log| - 1]), log[|log| - 1])
  }

  lemma {:induction false} ReplayConcat(errs: Tick, a: seq<Event>, b: seq<Event>)
    ensures Replay(errs, a + b) == Replay(Replay(errs, a), b)
  {
    if b == [] {
      assert a + b == a;
    } else {
      ReplayConcat(errs, a, b[..|b| - 1]);
      assert (a + b)[..|a + b| - 1] == a + b[..|b| - 1];
    }
  }

  predicate News(errs: Tick, e: Event) {
    InRange(errs, e) && errs[e.cluster][e.index] != e.err
  }

  /** Each event in the log tells its reader something new. */
  ghost predicate AllNews(errs: Tick, log: seq<Event>) {
    forall a :: 0 <= a < |log| ==> News(Replay(errs, log[..a]), log[a])
  }

  lemma NewsAt(errs: Tick, log: seq<Event>, n: nat)
    requires AllNews(errs, log) && n < |log|
    ensures News(Replay(errs, log[..n]), log[n])
  {
    hide Replay, News;
  }

  lemma AllNewsConcat(errs: Tick, a: seq<Event>, b: seq<Event>)
    requires AllNews(errs, a) && AllNews(Replay(errs, a), b)
    ensures AllNews(errs, a + b)
  {
    forall n: nat | n < |a + b| ensures News(Replay(errs, (a + b)[..n]), (a + b)[n]) {
      NewsInConcat(errs, a, b, n);
    }
  }

  lemma NewsInConcat(errs: Tick, a: seq<Event>, b: seq<Event>, n: nat)
    requires AllNews(errs, a) && AllNews(Replay(errs, a), b) && n < |a + b|
    ensures News(Replay(errs, (a + b)[..n]), (a + b)[n])
  {
    hide Replay, News, AllNews;
    var log := a + b;
    if n < |a| {
      NewsAt(errs, a, n);
      assert log[..n] == a[..n] && log[n] == a[n];
    } else {
      var k := n - |a|;
      NewsAt(Replay(errs, a), b, k);
      ReplayConcat(errs, a, b[..k]);
      assert log[..n] == a + b[..k] && log[n] == b[k];
    }
  }

  lemma OneEvent(errs: Tick, e: Event)
    ensures Replay(errs, []) == errs && AllNews(errs, [])
    ensures Replay(errs, [e]) == Apply1(errs, e)
    ensures News(errs, e) ==> AllNews(errs, [e])
  {
    assert [e][..0] == [];
  }

  lemma {:induction false} ClusterEventsReplay(c: ClusterView, errs: Tick, i: nat, tick: seq<ErrorText>, n: nat)
    requires i < |errs| && n <= |tick| == |c.endpoints| == |c.errors| && errs[i] == c.errors
    ensures Replay(errs, ClusterEvents(c, i, tick, n)) == errs[i := tick[..n] + c.errors[n..]]
    ensures AllNews(errs, ClusterEvents(c, i, tick, n))
  {
    hide Replay, AllNews;
    if n == 0 {
      assert tick[..0] + c.errors[0..] == errs[i];
      OneEvent(errs, Event(0, 0, "", None));
    } else {
      var j := n - 1;
      ClusterEventsReplay(c, errs, i, tick, j);
      var front, e := ClusterEvents(c, i, tick, j), Event(i, j, c.endpoints[j], tick[j]);
      var now := Replay(errs, front);
      OneMoreEntry(tick, c.errors, j);
      if ErrorChanged(c.errors[j], tick[j]) {
        OneEvent(now, e);
        ReplayConcat(errs, front, [e]);
        AllNewsConcat(errs, front, [e]);
      } else {
        assert front + [] == front;
      }
    }
  }

  lemma OneMoreEntry(a: seq<ErrorText>, b: seq<ErrorText>, j: nat)
    requires j < |a| == |b|
    ensures (a[..j] + b[j..])[j] == b[j]
    ensures (a[..j] + b[j..])[j := a[j]] == a[..j + 1] + b[j + 1..]
    ensures a[j] == b[j] ==> a[..j] + b[j..] == a[..j + 1] + b[j + 1..]
  {
  }

  lemma {:induction false} TickEventsReplay(cs: seq<ClusterView>, tick: Tick, n: nat)
    requires Consistent(cs) && Shaped(cs, tick) && n <= |cs|
    ensures Replay(Errors(cs), TickEvents(cs, tick, n)) == tick[..n] + Errors(cs)[n..]
    ensures AllNews(Errors(cs), TickEvents(cs, tick, n))
  {
    hide Replay, AllNews, ClusterEvents;
    var errs := Errors(cs);
    if n == 0 {
      assert tick[..0] + errs[0..] == errs;
      OneEvent(errs, Event(0, 0, "", None));
    } else {
      var i := n - 1;
      TickEventsReplay(cs, tick, i);
      var front, more := TickEvents(cs, tick, i), ClusterEvents(cs[i], i, tick[i], |tick[i]|);
      var now := Replay(errs, front);
      assert now[i] == cs[i].errors;
      ClusterEventsReplay(cs[i], now, i, tick[i], |tick[i]|);
      ReplayConcat(errs, front, more);
      AllNewsConcat(errs, front, more);
      assert tick[i][..|tick[i]|] + cs[i].errors[|tick[i]|..] == tick[i];
      OneMoreRow(tick, errs, i);
    }
  }

  lemma OneMoreRow(a: Tick, b: Tick, i: nat)
    requires i < |a| == |b|
    ensures (a[..i] + b[i..])[i := a[i]] == a[..i + 1] + b[i + 1..]
  {
  }

  lemma {:induction false} LogReplay(cs: seq<ClusterView>, ticks: seq<Tick>)
    requires ShapedRun(cs, ticks)
    ensures Replay(Errors(cs), EventLog(cs, ticks)) == ErrorsAfter(cs, ticks)
    ensures AllNews(Errors(cs), EventLog(cs, ticks))
  {
    hide Replay, AllNews, TickEvents;
    if ticks == [] {
      OneEvent(Errors(cs), Event(0, 0, "", None));
    } else {
      var front, last := ticks[..|ticks| - 1], ticks[|ticks| - 1];
      LogReplay(cs, front);
      var now := WithErrors(cs, ErrorsAfter(cs, front));
      assert Errors(now) == ErrorsAfter(cs, front);
      TickEventsReplay(now, last, |cs|);
      var more := TickEvents(now, last, |cs|);
      ReplayConcat(Errors(cs), EventLog(cs, front), more);
      AllNewsConcat(Errors(cs), EventLog(cs, front), more);
      assert last[..|cs|] + Errors(now)[|cs|..] == last;
    }
  }

  lemma {:induction false} ReplayUntouched(errs: Tick, log: seq<Event>, a: nat)
    requires a < |log| && InRange(Replay(errs, log[..a]), log[a])
    requires forall n :: a < n < |log| ==> !SameEndpoint(log[n], log[a])
    ensures InRange(Replay(errs, log), log[a])
    ensures Replay(errs, log)[log[a].cluster][log[a].index] == log[a].err
  {
    var front := log[..|log| - 1];
    if a == |front| {
      assert log[..a] == front;
    } else {
      assert front[..a] == log[..a];
      ReplayUntouched(errs, front, a);
    }
  }

  predicate SameEndpoint(e: Event, f: Event) {
    e.cluster == f.cluster && e.index == f.index
  }

  /** Events a and b concern one endpoint, and none between them does. */
  predicate Successive(log: seq<Event>, a: int, b: int) {
    && 0 <= a < b < |log|
    && SameEndpoint(log[a], log[b])
    && forall n :: a < n < b ==> !SameEndpoint(log[n], log[a])
  }

  lemma SuccessiveEventsDiffer(errs: Tick, log: seq<Event>, a: nat, b: nat)
    requires AllNews(errs, log) && Successive(log, a, b)
    ensures log[a].err != log[b].err
  {
    var upTo := log[..b];
    assert upTo[..a] == log[..a];
    assert News(Replay(errs, log[..a]), log[a]) && News(Replay(errs, upTo), log[b]);
    ReplayUntouched(errs, upTo, a);
  }

  /** The log is lossless: replayed from the errors at the start, none if all endpoints were
      taken to be up, it gives every endpoint's latest error. It is also minimal: two
      successive events of one endpoint never carry the same error. */
  lemma EventLogIsLosslessAndMinimal(cs: seq<ClusterView>, ticks: seq<Tick>)
    requires ShapedRun(cs, ticks)
    ensures Replay(Errors(cs), EventLog(cs, ticks)) == ErrorsAfter(cs, ticks)
    ensures var log := EventLog(cs, ticks);
            forall a, b :: Successive(log, a, b) ==> log[a].err != log[b].err
  {
    LogReplay(cs, ticks);
    var log := EventLog(cs, ticks);
    forall a, b | Successive(log, a, b) ensures log[a].err != log[b].err {
      SuccessiveEventsDiffer(Errors(cs), log, a, b);
    }
  }

  // ---------------------------------------------------------------- the objects

  /** Every endpoint has its own test metric. */
  predicate TestMetricsFit(prefix: string, name: string, endpoints: seq<string>, testMetrics: seq<string>) {
    && |testMetrics| == |endpoints|
    && forall j :: 0 <= j < |endpoints| ==>
         testMetrics[j] == prefix + ".test.network.carbon." + Strip(name) + "." + Strip(endpoints[j])
  }

  /** A named group of endpoints; `errors[j]` is what the last check found at
      endpoint j. */
  class Cluster {
    const name: string
    const required: bool
    const testPrefix: string
    var endpoints: seq<string>
    var testMetrics: seq<string>
    var errors: seq<ErrorText>

    predicate Valid()
      reads this
    {
      |errors| == |endpoints| && TestMetricsFit(testPrefix, name, endpoints, testMetrics)
    }

    function View(): ClusterView
      reads this
    {
      ClusterView(name, required, endpoints, errors)
    }

    constructor (name: string, required: bool, testPrefix: string)
      ensures Valid() && View() == ClusterView(name, required, [], [])
      ensures this.testPrefix == testPrefix
    {
      this.name, this.required, this.testPrefix := name, required, testPrefix;
      endpoints, testMetrics, errors := [], [], [];
    }

    method Append(endpoint: string)
      requires Valid()
      modifies this
      ensures Valid()
      ensures endpoints == old(endpoints) + [endpoint] && errors == old(errors) + [None]
      ensures testMetrics ==
              old(testMetrics) + [testPrefix + ".test.network.carbon." + Strip(name) + "." + Strip(endpoint)]
    {
      endpoints := endpoints + [endpoint];
      errors := errors + [None];
      testMetrics := testMetrics + [TestMetric(testPrefix, name, endpoint)];
    }

    /** The collecting side of a check. Endpoint i's probe yields `probe[i]`; the
        messages arrive in the order `order`. */
    method Check(probe: seq<ErrorText>, order: seq<nat>) returns (ok: bool, errs: seq<ErrorText>)
      requires |probe| == |endpoints| && FanIn.Permutation(order, |endpoints|)
      ensures ok <==> exists j :: 0 <= j < |probe| && probe[j].None?
      ensures errs == probe
    {
      var checks := new ErrorText[|endpoints|](_ => None);
      var count, failed := 0, 0;
      while count < |endpoints|
        invariant count <= |endpoints|
        invariant forall k :: 0 <= k < count ==> checks[order[k]] == probe[order[k]]
        invariant failed == FanIn.ErrorsAmong(probe, order[..count])
      {
        var n := FanIn.Message(order[count], probe[order[count]]);
        checks[n.n] := n.err;
        assert order[..count + 1][..count] == order[..count];
        count := count + 1;
        if n.err.Some? {
          failed := failed + 1;
        }
      }
      FanIn.DistinctFits(order, |endpoints|);
      FanIn.FewerFailuresThanMessages(probe, order);
      assert order[..count] == order;
      forall i: nat | i < |probe| ensures checks[i] == probe[i] {
        assert i in order;
      }
      UpByOrder(probe, order);
      return failed < count, checks[..];
    }
  }

  lemma UpByOrder(probe: seq<ErrorText>, order: seq<nat>)
    requires FanIn.Permutation(order, |probe|)
    ensures Up(probe) <==> exists k :: 0 <= k < |order| && probe[order[k]].None?
  {
    FanIn.DistinctFits(order, |probe|);
    if i :| 0 <= i < |probe| && probe[i].None? {
      assert i in order;
      var k :| 0 <= k < |order| && order[k] == i;
      assert probe[order[k]].None?;
    }
  }

  function Views(clusters: seq<Cluster>): (views: seq<ClusterView>)
    reads clusters
    ensures |views| == |clusters|
    ensures forall i :: 0 <= i < |clusters| ==> views[i] == clusters[i].View()
  {
    if clusters == [] then [] else Views(clusters[..|clusters| - 1]) + [clusters[|clusters| - 1].View()]
  }

  lemma ViewsAre(clusters: seq<Cluster>, views: seq<ClusterView>)
    requires |views| == |clusters| && forall i :: 0 <= i < |clusters| ==> clusters[i].View() == views[i]
    ensures Views(clusters) == views
  {
  }

  /** The flat vector of a fresh checker, in the order of clusters and endpoints. */
  method MetricVector(clusters: seq<Cluster>) returns (vector: seq<Metric>)
    ensures vector == Metrics(Views(clusters), None, |clusters|)
  {
    ghost var views := Views(clusters);
    ghost var target := Metrics(views, None, |views|);
    var n := 0;
    for i := 0 to |clusters|
      invariant n == Offset(views, i)
    {
      n := n + |clusters[i].endpoints|;
    }
    vector := seq(n, _ => Metric("", ""));
    n := 0;
    for i := 0 to |clusters|
      invariant n == Offset(views, i) <= |vector| == |target|
      invariant forall k :: 0 <= k < n ==> vector[k] == target[k]
    {
      OffsetGrows(views, i + 1, |views|);
      var c := clusters[i];
      for j := 0 to |c.endpoints|
        invariant n == Offset(views, i) + j && |vector| == |target|
        invariant forall k :: 0 <= k < n ==> vector[k] == target[k]
      {
        MetricAt(views, None, |views|, i, j);
        vector := vector[n := Metric(MetricName(c.name, c.endpoints[j]), Itoa(Collecting))];
        n := n + 1;
      }
    }
  }

  /** From position k on the metrics are named after this cluster's endpoints. */
  predicate RowNamed(metrics: seq<Metric>, k: nat, c: ClusterView) {
    && k + |c.endpoints| <= |metrics|
    && forall n :: k <= n < k + |c.endpoints| ==> metrics[n].name == MetricName(c.name, c.endpoints[n - k])
  }

  /** The metrics are named after all endpoints, in order. */
  predicate Named(metrics: seq<Metric>, cs: seq<ClusterView>) {
    && |metrics| == Offset(cs, |cs|)
    && forall n :: 0 <= n < |metrics| ==> metrics[n].name == Metrics(cs, None, |cs|)[n].name
  }

  lemma NamesStay(cs: seq<ClusterView>, tick: Option<Tick>)
    requires ShapedIfAny(cs, tick)
    ensures Named(Metrics(cs, tick, |cs|), cs)
  {
    SameNames(cs, tick, |cs|);
  }

  lemma {:induction false} SameNames(cs: seq<ClusterView>, tick: Option<Tick>, n: nat)
    requires ShapedIfAny(cs, tick) && n <= |cs|
    ensures forall k :: 0 <= k < Offset(cs, n) ==> Metrics(cs, tick, n)[k].name == Metrics(cs, None, n)[k].name
  {
    if n > 0 {
      SameNames(cs, tick, n - 1);
    }
  }

  lemma NoEvents(c: ClusterView, i: nat, errs: seq<ErrorText>)
    requires |errs| == |c.endpoints| == |c.errors|
    ensures ClusterEvents(c, i, errs, 0) == [] && RenderAll([]) == []
  {
  }

  lemma EventsStep(c: ClusterView, i: nat, errs: seq<ErrorText>, j: nat)
    requires j < |errs| == |c.endpoints| == |c.errors|
    ensures var events, e := ClusterEvents(c, i, errs, j), Event(i, j, c.endpoints[j], errs[j]);
            && ClusterEvents(c, i, errs, j + 1) == (if ErrorChanged(c.errors[j], errs[j]) then events + [e] else events)
            && RenderAll(events + [e]) == RenderAll(events) + [Render(e)]
  {
    var events, e := ClusterEvents(c, i, errs, j), Event(i, j, c.endpoints[j], errs[j]);
    assert (events + [e])[..|events|] == events;
    assert events + [] == events;
  }

  lemma RowIsShown(was: seq<Metric>, now: seq<Metric>, k: nat, c: ClusterView, errs: seq<ErrorText>)
    requires |was| == |now| && |errs| == |c.endpoints| && RowNamed(was, k, c)
    requires forall n :: k <= n < k + |errs| ==> now[n] == Metric(was[n].name, Itoa(ShownState(errs[n - k])))
    requires forall n :: 0 <= n < |was| && !(k <= n < k + |errs|) ==> now[n] == was[n]
    ensures now == was[..k] + Row(c, Some(errs)) + was[k + |errs|..]
  {
  }

  /** What `Status` has gathered after some of the clusters: where the next one's
      metrics start, whether all required ones are up, how many are down, the metrics
      and the events. */
  datatype Gathered = Gathered(k: nat, good: bool, down: nat, shown: seq<Metric>, events: seq<string>)

  function Gather(g: Gathered, c: ClusterView, i: nat, probe: seq<ErrorText>): Gathered
    requires |probe| == |c.endpoints| == |c.errors|
  {
    Gathered(g.k + |probe|,
             g.good && (c.required ==> Up(probe)),
             g.down + (if Up(probe) then 0 else 1),
             g.shown + Row(c, Some(probe)),
             g.events + RenderAll(ClusterEvents(c, i, probe, |probe|)))
  }

  function GatherAll(cs: seq<ClusterView>, tick: Tick, n: nat): Gathered
    requires Consistent(cs) && Shaped(cs, tick) && n <= |cs|
  {
    if n == 0 then Gathered(0, true, 0, [], [])
    else
      Gather(GatherAll(cs, tick, n - 1), cs[n - 1], n - 1, tick[n - 1])
  }

  lemma {:induction false} GatheredGoodness(cs: seq<ClusterView>, tick: Tick, n: nat)
    requires Consistent(cs) && Shaped(cs, tick) && n <= |cs|
    ensures var g := GatherAll(cs, tick, n);
            && (g.good <==> forall i :: 0 <= i < n && cs[i].required ==> Up(tick[i]))
            && g.down <= n
            && (g.down < n <==> exists i :: 0 <= i < n && Up(tick[i]))
  {
    if n > 0 {
      GatheredGoodness(cs, tick, n - 1);
    }
  }

  lemma {:induction false} GatheredMetrics(cs: seq<ClusterView>, tick: Tick, n: nat)
    requires Consistent(cs) && Shaped(cs, tick) && n <= |cs|
    ensures var g := GatherAll(cs, tick, n);
            g.k == |g.shown| == Offset(cs, n) && g.shown == Metrics(cs, Some(tick), n)
  {
    if n > 0 {
      GatheredMetrics(cs, tick, n - 1);
    }
  }

  lemma {:induction false} GatheredEvents(cs: seq<ClusterView>, tick: Tick, n: nat)
    requires Consistent(cs) && Shaped(cs, tick) && n <= |cs|
    ensures GatherAll(cs, tick, n).events == RenderAll(TickEvents(cs, tick, n))
  {
    if n > 0 {
      var i := n - 1;
      GatheredEvents(cs, tick, i);
      RenderConcat(TickEvents(cs, tick, i), ClusterEvents(cs[i], i, tick[i], |tick[i]|));
    }
  }

  lemma GatheredNone(cs: seq<ClusterView>, tick: Tick)
    requires Consistent(cs) && Shaped(cs, tick)
    ensures GatherAll(cs, tick, 0) == Gathered(0, true, 0, [], [])
  {
  }

  lemma GatheredFits(cs: seq<ClusterView>, tick: Tick, i: nat)
    requires Consistent(cs) && Shaped(cs, tick) && i < |cs|
    ensures |tick[i]| == |cs[i].endpoints| == |cs[i].errors|
    ensures var g, h := GatherAll(cs, tick, i), GatherAll(cs, tick, i + 1);
            && h.k == g.k + |tick[i]|
            && h.good == (g.good && (cs[i].required ==> Up(tick[i])))
            && h.down == g.down + (if Up(tick[i]) then 0 else 1)
            && h.shown == g.shown + Row(cs[i], Some(tick[i]))
            && h.events == g.events + RenderAll(ClusterEvents(cs[i], i, tick[i], |tick[i]|))
    ensures GatherAll(cs, tick, i).k == |GatherAll(cs, tick, i).shown| == Offset(cs, i)
    ensures |Row(cs[i], Some(tick[i]))| == |tick[i]|
    ensures Offset(cs, i) + |tick[i]| <= Offset(cs, |cs|)
  {
    GatheredMetrics(cs, tick, i);
    OffsetGrows(cs, i + 1, |cs|);
  }

  /** The first k metrics are `done`, the others as they were. */
  predicate DoneUpTo(metrics: seq<Metric>, done: seq<Metric>, was: seq<Metric>, k: nat) {
    |done| == k <= |was| && metrics == done + was[k..]
  }

  lemma DoneNone(was: seq<Metric>)
    ensures DoneUpTo(was, [], was, 0)
  {
  }

  lemma DoneAll(metrics: seq<Metric>, done: seq<Metric>, was: seq<Metric>, cs: seq<ClusterView>)
    requires Named(was, cs) && DoneUpTo(metrics, done, was, Offset(cs, |cs|))
    ensures metrics == done
  {
  }

  lemma StillNamed(was: seq<Metric>, now: seq<Metric>, k: nat, c: ClusterView, done: seq<Metric>)
    requires RowNamed(was, k, c) && |done| == k && now == done + was[k..]
    ensures RowNamed(now, k, c)
  {
    assert forall n :: k <= n < |was| ==> now[n] == was[n];
  }

  lemma Spliced(was: seq<Metric>, k: nat, done: seq<Metric>, row: seq<Metric>, mid: seq<Metric>, now: seq<Metric>)
    requires |done| == k && k + |row| <= |was|
    requires mid == done + was[k..] && now == mid[..k] + row + mid[k + |row|..]
    ensures DoneUpTo(now, done + row, was, k + |row|)
  {
  }

  lemma DoneIs(metrics: seq<Metric>, done: seq<Metric>, was: seq<Metric>, k: nat)
    requires DoneUpTo(metrics, done, was, k)
    ensures |done| == k <= |was| && metrics == done + was[k..]
  {
  }

  lemma RowFitsIn(was: seq<Metric>, k: nat, c: ClusterView, probe: seq<ErrorText>)
    requires RowNamed(was, k, c) && |probe| == |c.endpoints|
    ensures |Row(c, Some(probe))| == |probe| && k + |probe| <= |was|
  {
  }

  lemma RowFits(cs: seq<ClusterView>, i: nat)
    requires i < |cs|
    ensures Offset(cs, i) + |cs[i].endpoints| <= Offset(cs, |cs|)
  {
    OffsetGrows(cs, i + 1, |cs|);
  }

  lemma RowIsNamed(metrics: seq<Metric>, cs: seq<ClusterView>, i: nat)
    requires Named(metrics, cs) && i < |cs|
    ensures RowNamed(metrics, Offset(cs, i), cs[i])
  {
    hide Metrics, MetricName, Row, Offset;
    var k := Offset(cs, i);
    RowFits(cs, i);
    forall n | k <= n < k + |cs[i].endpoints|
      ensures metrics[n].name == MetricName(cs[i].name, cs[i].endpoints[n - k])
    {
      MetricAt(cs, None, |cs|, i, n - k);
    }
  }

  /** What the loops over all clusters have gathered is what the round is to yield. */
  lemma GatheredRound(cs: seq<ClusterView>, tick: Tick, good: bool, down: nat, shown: seq<Metric>, events: seq<string>)
    requires Consistent(cs) && Shaped(cs, tick)
    requires GatherAll(cs, tick, |cs|) == Gathered(|shown|, good, down, shown, events)
    ensures GoodTick(cs, tick) <==> good && down != |cs|
    ensures shown == Metrics(cs, Some(tick), |cs|)
    ensures events == RenderAll(TickEvents(cs, tick, |cs|))
  {
    hide GatherAll, Metrics, TickEvents, RenderAll;
    GatheredGoodness(cs, tick, |cs|);
    GatheredMetrics(cs, tick, |cs|);
    GatheredEvents(cs, tick, |cs|);
  }

  /** A checker whose clusters were `start` when it was made, after these rounds. */
  ghost predicate There(th: Thresholds, start: seq<ClusterView>, ticks: seq<Tick>, v: NetView) {
    Consistent(v.clusters) && ShapedRun(start, ticks) && v == NetRun(th, start, ticks)
  }

  lemma FreshIsThere(th: Thresholds, cs: seq<ClusterView>)
    requires Consistent(cs)
    ensures There(th, cs, [], Fresh(cs))
  {
  }

  lemma RunIsNamed(th: Thresholds, start: seq<ClusterView>, ticks: seq<Tick>)
    requires ShapedRun(start, ticks)
    ensures var v := NetRun(th, start, ticks);
            |v.clusters| == |start| && Consistent(v.clusters) && Named(v.metrics, v.clusters)
    ensures forall tick :: Shaped(NetRun(th, start, ticks).clusters, tick) ==> Shaped(start, tick)
  {
    hide Metrics, MetricName, Named, Offset, NetRun;
    var cs := NetRun(th, start, ticks).clusters;
    SameMetrics(start, cs, LastTick(ticks), |start|);
    NamesStay(cs, LastTick(ticks));
  }

  /** A round more. */
  lemma StepIsThere(th: Thresholds, start: seq<ClusterView>, ticks: seq<Tick>, v: NetView, tick: Tick)
    requires There(th, start, ticks, v) && Shaped(v.clusters, tick)
    ensures Named(v.metrics, v.clusters) && Consistent(v.clusters)
    ensures There(th, start, ticks + [tick], NetStep(th, v, tick))
  {
    hide Metrics, Named, GoodTick, Apply;
    RunIsNamed(th, start, ticks);
    assert (ticks + [tick])[..|ticks|] == ticks;
  }

  /** The clusters are distinct objects in a good state. */
  ghost predicate AllReady(clusters: seq<Cluster>)
    reads clusters
  {
    Separate(clusters) && forall i :: 0 <= i < |clusters| ==> clusters[i].Valid()
  }

  lemma ReadyMeansConsistent(clusters: seq<Cluster>)
    requires AllReady(clusters)
    ensures Consistent(Views(clusters))
  {
  }

  class NetworkChecker {
    const name: string
    const clusters: seq<Cluster>
    const th: Thresholds
    var metrics: seq<Metric>
    var failed: nat
    var success: nat
    var checked: nat
    /** The clusters when the checker was made. */
    ghost const start: seq<ClusterView>
    /** The rounds of probes so far. */
    ghost var history: seq<Tick>

    function View(): NetView
      reads this, clusters
    {
      NetView(Views(clusters), Counters(failed, success, checked), metrics)
    }

    /** The checker is where its history of rounds leads from a fresh start. */
    ghost predicate Valid()
      reads this, clusters
    {
      AllReady(clusters) && There(th, start, history, View())
    }

    constructor (name: string, clusters: seq<Cluster>, failCount: int, checkCount: int, resetCount: int)
      requires AllReady(clusters)
      ensures Valid()
      ensures this.name == name && this.clusters == clusters && th == Thresholds(failCount, checkCount, resetCount)
      ensures start == Views(clusters) && history == []
    {
      hide There, AllReady, Metrics;
      this.name, this.clusters := name, clusters;
      th := Thresholds(failCount, checkCount, resetCount);
      failed, success, checked := 0, 0, 0;
      start, history := Views(clusters), [];
      var vector := MetricVector(clusters);
      metrics := vector;
      ReadyMeansConsistent(clusters);
      FreshIsThere(Thresholds(failCount, checkCount, resetCount), Views(clusters));
    }

    /** Store the errors of c, the i-th cluster, whose metrics start at k, and tell
        which are news: the inner loop of `Status`. */
    method Record(c: Cluster, i: nat, k: nat, errs: seq<ErrorText>) returns (events: seq<string>)
      requires c.Valid() && |errs| == |c.endpoints| && RowNamed(metrics, k, c.View())
      modifies c`errors, this`metrics
      ensures c.errors == errs
      ensures events == RenderAll(ClusterEvents(old(c.View()), i, errs, |errs|))
      ensures Tells(events, old(c.View()), errs)
      ensures metrics == old(metrics[..k]) + Row(old(c.View()), Some(errs)) + old(metrics[k + |errs|..])
    {
      hide Row, Itoa, MetricName, Offset, Metrics, ClusterEvents, RenderAll, Tells;
      ghost var was := metrics;
      ghost var before := c.View();
      ghost var news := ClusterEvents(before, i, errs, 0);
      NoEvents(before, i, errs);
      events := [];
      for j := 0 to |errs|
        invariant |c.errors| == |errs| && |metrics| == |was|
        invariant forall n :: 0 <= n < |errs| ==> c.errors[n] == if n < j then errs[n] else before.errors[n]
        invariant forall n :: 0 <= n < |was| && !(k <= n < k + j) ==> metrics[n] == was[n]
        invariant forall n :: k <= n < k + j ==> metrics[n] == Metric(was[n].name, Itoa(ShownState(errs[n - k])))
        invariant news == ClusterEvents(before, i, errs, j) && events == RenderAll(news)
      {
        ghost var e := Event(i, j, c.endpoints[j], errs[j]);
        EventsStep(before, i, errs, j);
        if errs[j].Some? {
          if metrics[k + j].value != Itoa(Error) {
            metrics := metrics[k + j := metrics[k + j].(value := Itoa(Error))];
          }
          if ErrorChanged(c.errors[j], errs[j]) {
            events := events + ["endpoint " + c.endpoints[j] + " " + errs[j].value];
            news := news + [e];
          }
        } else {
          if metrics[k + j].value != Itoa(Success) {
            metrics := metrics[k + j := metrics[k + j].(value := Itoa(Success))];
          }
          if ErrorChanged(c.errors[j], errs[j]) {
            events := events + ["endpoint " + c.endpoints[j] + " " + "up"];
            news := news + [e];
          }
        }
        c.errors := c.errors[j := errs[j]];
      }
      RowIsShown(was, metrics, k, before, errs);
      ClusterTells(before, i, errs);
    }

    /** Check c, the i-th cluster, when the metrics of the earlier ones are `done`. */
    method CheckCluster(c: Cluster, i: nat, k: nat, probe: seq<ErrorText>, order: seq<nat>,
                        ghost view: ClusterView, ghost was: seq<Metric>, ghost done: seq<Metric>)
      returns (ok: bool, events: seq<string>)
      requires c.Valid() && c.View() == view
      requires |probe| == |c.endpoints| && FanIn.Permutation(order, |c.endpoints|)
      requires DoneUpTo(metrics, done, was, k) && RowNamed(was, k, view)
      modifies c`errors, this`metrics
      ensures ok <==> Up(probe)
      ensures c.errors == probe
      ensures events == RenderAll(ClusterEvents(view, i, probe, |probe|))
      ensures DoneUpTo(metrics, done + Row(view, Some(probe)), was, k + |probe|)
    {
      hide Row, RowNamed, ClusterEvents, RenderAll, Tells, TestMetricsFit, DoneUpTo;
      DoneIs(metrics, done, was, k);
      StillNamed(was, metrics, k, view, done);
      ghost var mid := metrics;
      var errs;
      ok, errs := c.Check(probe, order);
      events := Record(c, i, k, errs);
      RowFitsIn(was, k, view, probe);
      Spliced(was, k, done, Row(view, Some(probe)), mid, metrics);
    }

    /** Count one good or bad round and report: the tail of `Status`. */
    method Tally(successCheck: bool) returns (state: State)
      modifies this`failed, this`success, this`checked
      ensures Counters(failed, success, checked) ==
              Apply(th, Counters(old(failed), old(success), old(checked)), successCheck)
      ensures state == Verdict(th, Counters(failed, success, checked))
    {
      if checked < MAX_INT32 {
        checked := checked + 1;
      }
      if successCheck {
        if success < MAX_INT32 {
          success := success + 1;
        }
        if failed > 0 && success >= th.resetCount {
          failed := 0;
        }
      } else {
        if success > 0 {
          success := 0;
        }
        if failed < MAX_INT32 {
          failed := failed + 1;
        }
      }
      if checked < th.checkCount {
        return Collecting;
      } else if failed > 0 {
        if failed >= th.failCount {
          return Error;
        }
        return Warn;
      }
      return Success;
    }

    /** Check and record every cluster: the outer loop of `Status`. */
    method CheckClusters(probes: Tick, orders: seq<seq<nat>>, ghost before: seq<ClusterView>)
      returns (good: bool, down: nat, events: seq<string>)
      requires AllReady(clusters)
      requires |before| == |orders| == |clusters| && Shaped(before, probes) && Consistent(before)
      requires forall i :: 0 <= i < |clusters| ==> clusters[i].View() == before[i]
      requires forall i :: 0 <= i < |clusters| ==> FanIn.Permutation(orders[i], |before[i].endpoints|)
      requires Named(metrics, before)
      modifies clusters`errors, this`metrics
      ensures GatherAll(before, probes, |before|) == Gathered(|metrics|, good, down, metrics, events)
      ensures AllReady(clusters) && Views(clusters) == WithErrors(before, probes)
    {
      hide DoneUpTo, GatherAll, Gather, Metrics, ClusterEvents, RenderAll, Offset, Row, RowNamed, Named, TestMetricsFit;
      ghost var was := metrics;
      DoneNone(was);
      GatheredNone(before, probes);
      ghost var g := GatherAll(before, probes, 0);
      good, down, events := true, 0, [];
      var k: nat := 0;
      for i := 0 to |clusters|
        invariant g == GatherAll(before, probes, i)
        invariant g == Gathered(k, good, down, g.shown, events)
        invariant DoneUpTo(metrics, g.shown, was, k)
        invariant forall n :: 0 <= n < |clusters| ==>
                    clusters[n].errors == if n < i then probes[n] else before[n].errors
      {
        OthersDiffer(clusters, i);
        GatheredFits(before, probes, i);
        RowIsNamed(was, before, i);
        var c := clusters[i];
        var clusterStatus, news := CheckCluster(c, i, k, probes[i], orders[i], before[i], was, g.shown);
        if !clusterStatus {
          down := down + 1;
          if c.required {
            good := false;
          }
        }
        events := events + news;
        k := k + |probes[i]|;
        g := GatherAll(before, probes, i + 1);
      }
      GatheredMetrics(before, probes, |clusters|);
      DoneAll(metrics, g.shown, was, before);
      ViewsAre(clusters, WithErrors(before, probes));
    }

    /** One round, told by the checker as it was before it. */
    method Round(probes: Tick, orders: seq<seq<nat>>, ghost before: NetView)
      returns (state: State, events: seq<string>)
      requires AllReady(clusters) && View() == before
      requires Shaped(before.clusters, probes) && Consistent(before.clusters) && Named(metrics, before.clusters)
      requires |orders| == |clusters|
      requires forall i :: 0 <= i < |clusters| ==> FanIn.Permutation(orders[i], |clusters[i].endpoints|)
      modifies this`failed, this`success, this`checked, clusters`errors, this`metrics
      ensures AllReady(clusters) && View() == NetStep(th, before, probes)
      ensures state == Verdict(th, View().counters)
      ensures TellsRound(events, before.clusters, probes)
    {
      hide GatherAll, Metrics, TickEvents, RenderAll, Verdict, Apply, Named, Offset, GoodTick, AllReady, WithErrors,
        Consistent, TellsRound, FanIn.Permutation;
      var successCheck, down;
      successCheck, down, events := CheckClusters(probes, orders, before.clusters);
      GatheredRound(before.clusters, probes, successCheck, down, metrics, events);
      RoundTells(before.clusters, probes);
      if successCheck && down == |clusters| {
        successCheck := false;
      }
      state := Tally(successCheck);
    }

    /** Probe every endpoint once: `probes[i][j]` is what endpoint j of cluster i
        yields, `orders[i]` the order in which cluster i's messages arrive. */
    method Status(probes: Tick, orders: seq<seq<nat>>) returns (state: State, events: seq<string>)
      requires Valid()
      requires Shaped(Views(clusters), probes) && |orders| == |clusters|
      requires forall i :: 0 <= i < |clusters| ==> FanIn.Permutation(orders[i], |clusters[i].endpoints|)
      modifies this`failed, this`success, this`checked, this`history, clusters`errors, this`metrics
      ensures Valid() && history == old(history) + [probes]
      ensures View() == NetStep(th, old(View()), probes)
      ensures state == Verdict(th, View().counters)
      ensures TellsRound(events, old(Views(clusters)), probes)
    {
      hide There, AllReady, NetStep, Verdict, Named, Consistent, Shaped, TellsRound, FanIn.Permutation;
      ghost var before := View();
      StepIsThere(th, start, history, before, probes);
      state, events := Round(probes, orders, before);
      history := history + [probes];
    }
  }
}
