/**
  The whole monitor: service checkers, the network checker if relay clusters are
  configured, the control loop and the interface, one iteration at a time.
 */
module Monitor {
  import opened Checker
  import opened Hysteresis
  import opened Control
  import opened Lists
  import CarbonCRelay
  import CarbonNetwork
  import FanIn
  import Flapping
  import NetConf
  import Systemd

  /** The monitor between two iterations. */
  datatype View = View(services: seq<Systemd.ServiceView>, net: Option<CarbonNetwork.NetView>, loop: LoopState)

  /** The outside world during one iteration. */
  datatype Input = Input(probes: seq<Systemd.Probe>, round: CarbonNetwork.Tick, world: World)

  predicate Fitting(cfg: Config, v: View, x: Input) {
    && |x.probes| == |v.services|
    && (v.net.Some? ==> CarbonNetwork.Shaped(v.net.value.clusters, x.round))
    && WellFormed(cfg, x.world)
  }

  function ServiceSteps(th: Thresholds, vs: seq<Systemd.ServiceView>, ps: seq<Systemd.Probe>)
    : (next: seq<Systemd.ServiceView>)
    requires |vs| == |ps|
    ensures |next| == |vs| && forall i :: 0 <= i < |vs| ==> next[i] == Systemd.ServiceStep(th, vs[i], ps[i])
  {
    seq(|vs|, i requires 0 <= i < |vs| => Systemd.ServiceStep(th, vs[i], ps[i]))
  }

  function ServiceStates(th: Thresholds, vs: seq<Systemd.ServiceView>, ps: seq<Systemd.Probe>): (states: seq<State>)
    requires |vs| == |ps|
    ensures |states| == |vs| && forall i :: 0 <= i < |vs| ==> states[i] == Systemd.Reported(th, vs[i], ps[i])
  {
    seq(|vs|, i requires 0 <= i < |vs| => Systemd.Reported(th, vs[i], ps[i]))
  }

  function NetAfter(th: Thresholds, net: Option<CarbonNetwork.NetView>, round: CarbonNetwork.Tick)
    : Option<CarbonNetwork.NetView>
    requires net.Some? ==> CarbonNetwork.Shaped(net.value.clusters, round)
  {
    if net.Some? then Some(CarbonNetwork.NetStep(th, net.value, round)) else None
  }

  function NetStates(th: Thresholds, after: Option<CarbonNetwork.NetView>): (states: seq<State>)
    ensures |states| == if after.Some? then 1 else 0
  {
    if after.Some? then [Verdict(th, after.value.counters)] else []
  }

  /** The states that the checkers report in one iteration, services first. */
  function States(cfg: Config, th: Thresholds, v: View, x: Input): seq<State>
    requires Fitting(cfg, v, x)
  {
    ServiceStates(th, v.services, x.probes) + NetStates(th, NetAfter(th, v.net, x.round))
  }

  function Next(cfg: Config, th: Thresholds, v: View, x: Input): View
    requires Fitting(cfg, v, x)
  {
    View(ServiceSteps(th, v.services, x.probes),
         NetAfter(th, v.net, x.round),
         Iterate(cfg, v.loop, Iteration(StepStatus(States(cfg, th, v, x)), x.world)))
  }

  function ActIn(cfg: Config, th: Thresholds, v: View, x: Input): Act
    requires Fitting(cfg, v, x)
  {
    ActOf(cfg, v.loop, Iteration(StepStatus(States(cfg, th, v, x)), x.world))
  }

  /** What one iteration makes of the status. If all checkers report `Success` and the status
      is not `Success` yet, it becomes `Success` exactly if the raise works, the success
      command included, else `Error`; if a checker reports an error it becomes `Error`;
      otherwise nothing is done. */
  lemma IterationDecides(cfg: Config, th: Thresholds, v: View, x: Input)
    requires Fitting(cfg, v, x)
    ensures |States(cfg, th, v, x)| == |v.services| + if v.net.Some? then 1 else 0
    ensures forall i :: 0 <= i < |v.services| ==>
              States(cfg, th, v, x)[i] == Systemd.Reported(th, v.services[i], x.probes[i])
    ensures v.net.Some? ==>
              States(cfg, th, v, x)[|v.services|] ==
              Verdict(th, CarbonNetwork.NetStep(th, v.net.value, x.round).counters)
    ensures var states, next := States(cfg, th, v, x), Next(cfg, th, v, x).loop;
            && (Error in states ==> next.status == Error && (v.loop.status == Error ==> next == v.loop))
            && ((forall i :: 0 <= i < |states| ==> states[i] == Success) ==>
                  next.status == if v.loop.status == Success || RaiseWorks(cfg, x.world) then Success else Error)
            && (Error !in states && (exists i :: 0 <= i < |states| && states[i] != Success) ==> next == v.loop)
  {
    hide Iterate, RaiseWorks, Systemd.Reported, Systemd.ServiceStep, CarbonNetwork.NetStep, Verdict;
    IterationOutcome(cfg, v.loop, Iteration(StepStatus(States(cfg, th, v, x)), x.world));
  }

  // ---------------------------------------------------------------- the system of automata

  function ServiceCounters(vs: seq<Systemd.ServiceView>): (cs: seq<Counters>)
    ensures |cs| == |vs| && forall i :: 0 <= i < |vs| ==> cs[i] == vs[i].counters
  {
    seq(|vs|, i requires 0 <= i < |vs| => vs[i].counters)
  }

  function ServiceObservations(vs: seq<Systemd.ServiceView>, ps: seq<Systemd.Probe>): (os: seq<Observation>)
    requires |vs| == |ps|
    ensures |os| == |vs|
    ensures forall i :: 0 <= i < |vs| ==> os[i] == Systemd.Observed(Systemd.Inspect(vs[i].process, ps[i]))
  {
    seq(|vs|, i requires 0 <= i < |vs| => Systemd.Observed(Systemd.Inspect(vs[i].process, ps[i])))
  }

  /** The monitor as a system of hysteresis automata and a status. */
  function Automata(v: View): Flapping.System {
    Flapping.System(ServiceCounters(v.services) + (if v.net.Some? then [v.net.value.counters] else []), v.loop.status)
  }

  function Observations(v: View, x: Input): seq<Observation>
    requires |x.probes| == |v.services|
    requires v.net.Some? ==> CarbonNetwork.Shaped(v.net.value.clusters, x.round)
  {
    ServiceObservations(v.services, x.probes) +
    if v.net.None? then []
    else if CarbonNetwork.GoodTick(v.net.value.clusters, x.round) then [Good]
    else [Bad]
  }

  function TickOf(cfg: Config, v: View, x: Input): Flapping.Tick
    requires Fitting(cfg, v, x)
  {
    Flapping.Tick(Observations(v, x), Clean(cfg, x.world, v.loop.present))
  }

  /** What every checker does is a step of its automaton. */
  lemma CheckersAreAutomata(cfg: Config, th: Thresholds, v: View, x: Input)
    requires Fitting(cfg, v, x)
    ensures var s, obs := Automata(v), Observations(v, x);
            && |obs| == |s.counters|
            && Automata(Next(cfg, th, v, x)).counters == Flapping.Move(th, s.counters, obs)
            && States(cfg, th, v, x) == Flapping.Reports(th, Flapping.Move(th, s.counters, obs), obs)
  {
    hide Verdict, Apply, CarbonNetwork.GoodTick, CarbonNetwork.Metrics, Iterate, StepStatus;
    var s, obs := Automata(v), Observations(v, x);
    var cs := Flapping.Move(th, s.counters, obs);
    var next, states := Automata(Next(cfg, th, v, x)).counters, States(cfg, th, v, x);
    var reports := Flapping.Reports(th, cs, obs);
    assert |next| == |cs| == |states| == |reports|;
    forall i | 0 <= i < |cs| ensures next[i] == cs[i] && states[i] == reports[i] {
      if i < |v.services| {
        assert s.counters[i] == v.services[i].counters;
      }
    }
  }

  /** One iteration of the monitor is one tick of the system of automata. */
  lemma MonitorRefinesAutomata(cfg: Config, th: Thresholds, v: View, x: Input)
    requires Fitting(cfg, v, x)
    ensures |TickOf(cfg, v, x).obs| == |Automata(v).counters|
    ensures Automata(Next(cfg, th, v, x)) == Flapping.Next(th, Automata(v), TickOf(cfg, v, x))
    ensures ActIn(cfg, th, v, x) == Flapping.ActOf(th, Automata(v), TickOf(cfg, v, x))
  {
    hide Clean, Present;
    CheckersAreAutomata(cfg, th, v, x);
  }

  // ---------------------------------------------------------------- runs

  function Fresh(services: nat, net: Option<seq<CarbonNetwork.ClusterView>>, present: set<NetConf.Key>): View {
    View(seq(services, _ => Systemd.FRESH),
         if net.Some? then Some(CarbonNetwork.Fresh(net.value)) else None,
         LoopState(Collecting, present))
  }

  ghost predicate Legal(cfg: Config, th: Thresholds, start: View, run: seq<Input>)
    decreases |run|, 0
  {
    run == [] ||
    (Legal(cfg, th, start, run[..|run| - 1]) && Fitting(cfg, After(cfg, th, start, run[..|run| - 1]), run[|run| - 1]))
  }

  ghost function After(cfg: Config, th: Thresholds, start: View, run: seq<Input>): View
    requires Legal(cfg, th, start, run)
    decreases |run|, 1
  {
    if run == [] then start else Next(cfg, th, After(cfg, th, start, run[..|run| - 1]), run[|run| - 1])
  }

  /** How often the run withdraws the addresses. */
  ghost function Downs(cfg: Config, th: Thresholds, start: View, run: seq<Input>): nat
    requires Legal(cfg, th, start, run)
  {
    if run == [] then 0
    else
      var front, last := run[..|run| - 1], run[|run| - 1];
      Downs(cfg, th, start, front) + if ActIn(cfg, th, After(cfg, th, start, front), last) == Down then 1 else 0
  }

  /** The run as the automata see it. */
  ghost function Ticks(cfg: Config, th: Thresholds, start: View, run: seq<Input>): (ticks: seq<Flapping.Tick>)
    requires Legal(cfg, th, start, run)
    ensures |ticks| == |run|
  {
    if run == [] then []
    else
      var front, last := run[..|run| - 1], run[|run| - 1];
      Ticks(cfg, th, start, front) + [TickOf(cfg, After(cfg, th, start, front), last)]
  }

  function CheckerCount(v: View): nat {
    |v.services| + if v.net.Some? then 1 else 0
  }

  lemma {:induction false} RunsAreRunsOfAutomata(cfg: Config, th: Thresholds, start: View, run: seq<Input>)
    requires Legal(cfg, th, start, run)
    requires Automata(start) == Flapping.Start(CheckerCount(start))
    ensures var m, ticks := CheckerCount(start), Ticks(cfg, th, start, run);
            && Flapping.Shaped(m, ticks)
            && Automata(After(cfg, th, start, run)) == Flapping.After(th, m, ticks)
            && Downs(cfg, th, start, run) == Flapping.Downs(th, m, ticks)
  {
    hide Automata, Next, TickOf, ActIn, Flapping.Next, Flapping.ActOf, Fitting, Flapping.Start, CheckerCount;
    if run != [] {
      var front, last := run[..|run| - 1], run[|run| - 1];
      RunsAreRunsOfAutomata(cfg, th, start, front);
      var v := After(cfg, th, start, front);
      MonitorRefinesAutomata(cfg, th, v, last);
      var ticks := Ticks(cfg, th, start, run);
      assert ticks[..|ticks| - 1] == Ticks(cfg, th, start, front);
    }
  }

  /** No check of the run is without a result: no service reports `Unknown`. */
  ghost predicate AlwaysKnown(cfg: Config, th: Thresholds, start: View, run: seq<Input>)
    requires Legal(cfg, th, start, run)
  {
    Flapping.AlwaysResult(Ticks(cfg, th, start, run))
  }

  /** The flap-rate bound for the monitor itself: in any run, with any process, systemd
      and network behaviour and any failing commands, withdrawing the addresses d times
      takes at least as many iterations as the thresholds call for. */
  lemma MonitorFlapRate(cfg: Config, th: Thresholds, services: nat, net: Option<seq<CarbonNetwork.ClusterView>>,
                        present: set<NetConf.Key>, run: seq<Input>)
    requires Legal(cfg, th, Fresh(services, net, present), run)
    ensures var start := Fresh(services, net, present);
            var d := Downs(cfg, th, start, run);
            && Flapping.Fastest(th, true, d) <= |run|
            && (AlwaysKnown(cfg, th, start, run) ==> Flapping.Fastest(th, false, d) <= |run|)
  {
    hide Downs, After, Flapping.Downs, Flapping.After, Flapping.Fastest, Fresh, Flapping.NoReset;
    var start := Fresh(services, net, present);
    FreshAutomata(services, net, present);
    RunsAreRunsOfAutomata(cfg, th, start, run);
    var m, ticks := CheckerCount(start), Ticks(cfg, th, start, run);
    Flapping.FlapRateIsBounded(th, m, ticks);
  }

  lemma FreshAutomata(services: nat, net: Option<seq<CarbonNetwork.ClusterView>>, present: set<NetConf.Key>)
    ensures var v := Fresh(services, net, present);
            Automata(v) == Flapping.Start(CheckerCount(v))
  {
    hide CarbonNetwork.Metrics;
    var v := Fresh(services, net, present);
    assert Automata(v).counters == Flapping.Start(CheckerCount(v)).counters;
  }

  lemma {:induction false} PrefixIsLegal(cfg: Config, th: Thresholds, start: View, run: seq<Input>, n: nat)
    requires Legal(cfg, th, start, run) && n <= |run|
    ensures Legal(cfg, th, start, run[..n])
    ensures Ticks(cfg, th, start, run[..n]) == Ticks(cfg, th, start, run)[..n]
  {
    if n < |run| {
      var front := run[..|run| - 1];
      PrefixIsLegal(cfg, th, start, front, n);
      assert front[..n] == run[..n];
    } else {
      assert run[..n] == run;
    }
  }

  /** What the monitor does in its n-th iteration. */
  ghost function ActAt(cfg: Config, th: Thresholds, start: View, run: seq<Input>, n: nat): Act
    requires Legal(cfg, th, start, run) && n < |run|
  {
    PrefixIsLegal(cfg, th, start, run, n);
    PrefixIsLegal(cfg, th, start, run, n + 1);
    assert run[..n + 1][..n] == run[..n];
    ActIn(cfg, th, After(cfg, th, start, run[..n]), run[n])
  }

  lemma ActAtIs(cfg: Config, th: Thresholds, start: View, run: seq<Input>, n: nat)
    requires Legal(cfg, th, start, run) && n < |run|
    requires Automata(start) == Flapping.Start(CheckerCount(start))
    ensures Legal(cfg, th, start, run[..n])
    ensures var m, ticks := CheckerCount(start), Ticks(cfg, th, start, run);
            && Flapping.Shaped(m, ticks)
            && ActAt(cfg, th, start, run, n) == Flapping.ActAt(th, m, ticks, n)
            && After(cfg, th, start, run[..n]).loop.status == Flapping.After(th, m, ticks[..n]).status
  {
    hide Next, TickOf, ActIn, Fitting, Flapping.ActOf, Flapping.Start, CheckerCount;
    PrefixIsLegal(cfg, th, start, run, n);
    PrefixIsLegal(cfg, th, start, run, n + 1);
    assert run[..n + 1][..n] == run[..n];
    RunsAreRunsOfAutomata(cfg, th, start, run);
    RunsAreRunsOfAutomata(cfg, th, start, run[..n]);
    var v := After(cfg, th, start, run[..n]);
    MonitorRefinesAutomata(cfg, th, v, run[n]);
    assert Ticks(cfg, th, start, run)[n] == Ticks(cfg, th, start, run[..n + 1])[n] == TickOf(cfg, v, run[n]);
  }

  /** In iteration i addresses that were up are withdrawn, in iteration j a raise is tried. */
  ghost predicate DownFromTo(cfg: Config, th: Thresholds, start: View, run: seq<Input>, i: nat, j: nat)
    requires Legal(cfg, th, start, run)
  {
    && i < j < |run|
    && ActAt(cfg, th, start, run, i) == Down
    && (PrefixIsLegal(cfg, th, start, run, i); After(cfg, th, start, run[..i]).loop.status == Success)
    && ActAt(cfg, th, start, run, j) in {UpClean, UpFailed}
  }

  /** No check is without a result in the iterations from a up to b. */
  ghost predicate KnownBetween(cfg: Config, th: Thresholds, start: View, run: seq<Input>, a: nat, b: nat)
    requires Legal(cfg, th, start, run) && b <= |run|
  {
    Flapping.ResultsBetween(Ticks(cfg, th, start, run), a, b)
  }

  lemma DownFromToIs(cfg: Config, th: Thresholds, start: View, run: seq<Input>, i: nat, j: nat)
    requires Legal(cfg, th, start, run) && i < j < |run|
    requires Automata(start) == Flapping.Start(CheckerCount(start))
    ensures DownFromTo(cfg, th, start, run, i, j) <==>
            Flapping.DownFromTo(th, CheckerCount(start), Ticks(cfg, th, start, run), i, j)
  {
    hide After, Flapping.After, ActAt, Flapping.ActAt, Legal, Automata, CheckerCount, Flapping.Start;
    ActAtIs(cfg, th, start, run, i);
    ActAtIs(cfg, th, start, run, j);
  }

  /** Dwell times of the monitor. Addresses raised without error stay up for at least
      failCount iterations. Addresses that are up and withdrawn stay down for at least the
      shortest down-time in any run, and for at least resetCount iterations if every check
      has had a result since they were cleanly raised in iteration h. */
  lemma MonitorDwells(cfg: Config, th: Thresholds, services: nat, net: Option<seq<CarbonNetwork.ClusterView>>,
                      present: set<NetConf.Key>, run: seq<Input>, i: nat, j: nat)
    requires Legal(cfg, th, Fresh(services, net, present), run) && i < j < |run|
    ensures var start := Fresh(services, net, present);
            && (ActAt(cfg, th, start, run, i) == UpClean && ActAt(cfg, th, start, run, j) == Down ==>
                  j - i >= Limit(th))
            && (DownFromTo(cfg, th, start, run, i, j) ==> j - i >= Flapping.ShortestDown(th))
            && forall h: nat ::
                 (DownFromTo(cfg, th, start, run, i, j) && h < i && ActAt(cfg, th, start, run, h) == UpClean &&
                  KnownBetween(cfg, th, start, run, h + 1, j + 1)) ==> j - i >= Window(th)
  {
    hide After, Flapping.After, ActAt, Flapping.ActAt, Fresh, DownFromTo, Flapping.DownFromTo, Flapping.ResultsBetween,
      Flapping.ShortestDown, Legal;
    var start := Fresh(services, net, present);
    FreshAutomata(services, net, present);
    ActAtIs(cfg, th, start, run, i);
    ActAtIs(cfg, th, start, run, j);
    DownFromToIs(cfg, th, start, run, i, j);
    var m, ticks := CheckerCount(start), Ticks(cfg, th, start, run);
    if ActAt(cfg, th, start, run, i) == UpClean && ActAt(cfg, th, start, run, j) == Down {
      Flapping.UpTime(th, m, ticks, i, j);
    }
    if DownFromTo(cfg, th, start, run, i, j) {
      Flapping.DownTime(th, m, ticks, i, j);
      forall h: nat | h < i && ActAt(cfg, th, start, run, h) == UpClean &&
                      KnownBetween(cfg, th, start, run, h + 1, j + 1)
        ensures j - i >= Window(th)
      {
        ActAtIs(cfg, th, start, run, h);
        Flapping.DownTimeWithResults(th, m, ticks, h, i, j);
      }
    }
  }

  /** The acts of a run, without the idle iterations. */
  ghost function RunActs(cfg: Config, th: Thresholds, start: View, run: seq<Input>): seq<Act>
    requires Legal(cfg, th, start, run)
  {
    if run == [] then []
    else
      var front, last := run[..|run| - 1], run[|run| - 1];
      var act := ActIn(cfg, th, After(cfg, th, start, front), last);
      RunActs(cfg, th, start, front) + if act == Idle then [] else [act]
  }

  ghost function Turns(cfg: Config, th: Thresholds, start: View, run: seq<Input>): (turns: seq<Turn>)
    requires Legal(cfg, th, start, run)
    ensures |turns| == |run|
  {
    if run == [] then []
    else
      var front, last := run[..|run| - 1], run[|run| - 1];
      var v := After(cfg, th, start, front);
      Turns(cfg, th, start, front) +
      [Turn(StepStatus(States(cfg, th, v, last)), Clean(cfg, last.world, v.loop.present))]
  }

  lemma {:induction false} RunsAreTurns(cfg: Config, th: Thresholds, start: View, run: seq<Input>)
    requires Legal(cfg, th, start, run) && start.loop.status == Collecting
    ensures After(cfg, th, start, run).loop.status == StatusAfter(Turns(cfg, th, start, run))
    ensures RunActs(cfg, th, start, run) == Acts(Turns(cfg, th, start, run))
  {
    hide Fitting, StepStatus, States, Clean, Present, ServiceSteps, NetAfter;
    if run != [] {
      var front := run[..|run| - 1];
      RunsAreTurns(cfg, th, start, front);
      var turns := Turns(cfg, th, start, run);
      assert turns[..|turns| - 1] == Turns(cfg, th, start, front);
    }
  }

  /** In every run of the monitor, with any failures, withdrawals and clean raises strictly
      alternate, failed raises only come while the addresses are not up, and the status
      tells the last act. */
  lemma MonitorActionsAlternate(cfg: Config, th: Thresholds, start: View, run: seq<Input>)
    requires Legal(cfg, th, start, run) && start.loop.status == Collecting
    ensures Alternating(RunActs(cfg, th, start, run))
    ensures After(cfg, th, start, run).loop.status == StatusOf(RunActs(cfg, th, start, run))
  {
    RunsAreTurns(cfg, th, start, run);
    ActsAlternate(Turns(cfg, th, start, run));
  }

  /** Nobody but the monitor changes the interface. */
  ghost predicate Undisturbed(cfg: Config, th: Thresholds, start: View, run: seq<Input>)
    requires Legal(cfg, th, start, run)
  {
    run == [] ||
    var front, last := run[..|run| - 1], run[|run| - 1];
    && Undisturbed(cfg, th, start, front)
    && NetConf.Faithful(last.world.addrs, After(cfg, th, start, front).loop.present)
  }

  ghost function Iterations(cfg: Config, th: Thresholds, start: View, run: seq<Input>): (its: seq<Iteration>)
    requires Legal(cfg, th, start, run)
    ensures |its| == |run|
  {
    if run == [] then []
    else
      var front, last := run[..|run| - 1], run[|run| - 1];
      Iterations(cfg, th, start, front) +
      [Iteration(StepStatus(States(cfg, th, After(cfg, th, start, front), last)), last.world)]
  }

  lemma {:induction false} IterationsKeepWorlds(cfg: Config, th: Thresholds, start: View, run: seq<Input>)
    requires Legal(cfg, th, start, run)
    ensures forall n :: 0 <= n < |run| ==> Iterations(cfg, th, start, run)[n].world == run[n].world
  {
    hide Fitting, States, StepStatus, After;
    if run != [] {
      IterationsKeepWorlds(cfg, th, start, run[..|run| - 1]);
    }
  }

  lemma {:induction false} RunsAreLoopRuns(cfg: Config, th: Thresholds, start: View, run: seq<Input>)
    requires Legal(cfg, th, start, run) && start.loop.status == Collecting
    requires Undisturbed(cfg, th, start, run)
    ensures Possible(cfg, start.loop.present, Iterations(cfg, th, start, run))
    ensures After(cfg, th, start, run).loop == LoopAfter(cfg, start.loop.present, Iterations(cfg, th, start, run))
  {
    hide States, Clean, Present, ServiceSteps, NetAfter, Iterate, NetConf.Faithful;
    if run != [] {
      var front := run[..|run| - 1];
      RunsAreLoopRuns(cfg, th, start, front);
      var its := Iterations(cfg, th, start, run);
      assert its[..|its| - 1] == Iterations(cfg, th, start, front);
    }
  }

  /** All address operations and success commands of a run work. */
  predicate EverythingWorks(cfg: Config, run: seq<Input>) {
    forall n :: 0 <= n < |run| ==>
      NetConf.AllWork(run[n].world.addrs) && (cfg.hasSuccessCmd ==> run[n].world.cmdOk)
  }

  /** After every iteration of the monitor `Success` means that all configured addresses
      are on the interface, whatever has failed, and addresses not configured never
      change. If all address operations and success commands work, `Error` means that
      none is. */
  lemma MonitorStatusAgrees(cfg: Config, th: Thresholds, start: View, run: seq<Input>)
    requires Legal(cfg, th, start, run) && start.loop.status == Collecting
    requires Undisturbed(cfg, th, start, run)
    ensures var s, mine := After(cfg, th, start, run).loop, NetConf.Keys(cfg.ips);
            && (s.status == Success ==> mine <= s.present)
            && s.present - mine == start.loop.present - mine
            && (EverythingWorks(cfg, run) && s.status == Error ==> mine !! s.present)
  {
    RunsAreLoopRuns(cfg, th, start, run);
    var its := Iterations(cfg, th, start, run);
    SuccessMeansPresent(cfg, start.loop.present, its);
    if EverythingWorks(cfg, run) {
      IterationsKeepWorlds(cfg, th, start, run);
      assert forall n :: 0 <= n < |its| ==> Works(cfg, its[n]);
      StatusAgreesWithInterface(cfg, start.loop.present, its);
    }
  }

  lemma {:induction false} PrefixIsUndisturbed(cfg: Config, th: Thresholds, start: View, run: seq<Input>, n: nat)
    requires Legal(cfg, th, start, run) && Undisturbed(cfg, th, start, run) && n <= |run|
    ensures Legal(cfg, th, start, run[..n]) && Undisturbed(cfg, th, start, run[..n])
    ensures Iterations(cfg, th, start, run[..n]) == Iterations(cfg, th, start, run)[..n]
  {
    hide Fitting, States, StepStatus, NetConf.Faithful;
    if n < |run| {
      var front := run[..|run| - 1];
      PrefixIsUndisturbed(cfg, th, start, front, n);
      assert front[..n] == run[..n];
    } else {
      assert run[..n] == run;
    }
  }

  lemma LoopStateAtIs(cfg: Config, th: Thresholds, start: View, run: seq<Input>, n: nat)
    requires Legal(cfg, th, start, run) && Undisturbed(cfg, th, start, run) && n <= |run|
    requires start.loop.status == Collecting
    ensures Legal(cfg, th, start, run[..n])
    ensures Possible(cfg, start.loop.present, Iterations(cfg, th, start, run))
    ensures After(cfg, th, start, run[..n]).loop ==
            StateAt(cfg, start.loop.present, Iterations(cfg, th, start, run), n)
  {
    hide Legal, After, Undisturbed, Possible, LoopAfter;
    RunsAreLoopRuns(cfg, th, start, run);
    PrefixIsUndisturbed(cfg, th, start, run, n);
    RunsAreLoopRuns(cfg, th, start, run[..n]);
  }

  lemma LoopActAtIs(cfg: Config, th: Thresholds, start: View, run: seq<Input>, n: nat)
    requires Legal(cfg, th, start, run) && Undisturbed(cfg, th, start, run) && n < |run|
    requires start.loop.status == Collecting
    ensures Possible(cfg, start.loop.present, Iterations(cfg, th, start, run))
    ensures ActAt(cfg, th, start, run, n) ==
            LoopAct(cfg, start.loop.present, Iterations(cfg, th, start, run), n)
  {
    hide States, StepStatus, Clean, Undisturbed, Possible, LoopAfter, StateAt, Fitting;
    LoopStateAtIs(cfg, th, start, run, n);
    PrefixIsUndisturbed(cfg, th, start, run, n);
    PrefixIsUndisturbed(cfg, th, start, run, n + 1);
    assert run[..n + 1][..n] == run[..n];
    var its := Iterations(cfg, th, start, run);
    assert its[n] == its[..n + 1][n];
    IterationAt(cfg, start.loop.present, its, n);
  }

  /** When operations may fail: under the status `Error` no configured address is on the
      interface exactly when the last act of the monitor, the withdrawal or failed raise in
      iteration k, left none. */
  lemma MonitorErrorMeansAbsentIff(cfg: Config, th: Thresholds, start: View, run: seq<Input>) returns (k: nat)
    requires Legal(cfg, th, start, run) && start.loop.status == Collecting
    requires Undisturbed(cfg, th, start, run) && After(cfg, th, start, run).loop.status == Error
    ensures k < |run| && ActAt(cfg, th, start, run, k) in {Down, UpFailed}
    ensures forall i :: k < i < |run| ==> ActAt(cfg, th, start, run, i) == Idle
    ensures WellFormed(cfg, run[k].world) && Legal(cfg, th, start, run[..k])
    ensures After(cfg, th, start, run).loop.present !! NetConf.Keys(cfg.ips) <==>
            LeavesNone(cfg, ActAt(cfg, th, start, run, k), run[k].world, After(cfg, th, start, run[..k]).loop.present)
  {
    hide Legal, After, Undisturbed, Possible, LoopAfter, LeavesNone, ActAt, LoopAct, StateAt;
    RunsAreLoopRuns(cfg, th, start, run);
    IterationsKeepWorlds(cfg, th, start, run);
    var its := Iterations(cfg, th, start, run);
    k := ErrorMeansAbsentIff(cfg, start.loop.present, its);
    LoopStateAtIs(cfg, th, start, run, k);
    forall i | k <= i < |run|
      ensures ActAt(cfg, th, start, run, i) == LoopAct(cfg, start.loop.present, its, i)
    {
      LoopActAtIs(cfg, th, start, run, i);
    }
  }

  // ---------------------------------------------------------------- reaction

  /** How many checks the k-th checker has counted after n iterations. */
  ghost function CheckedAfter(cfg: Config, th: Thresholds, start: View, run: seq<Input>, n: nat, k: nat): nat
    requires Legal(cfg, th, start, run) && n <= |run|
  {
    PrefixIsLegal(cfg, th, start, run, n);
    var cs := Automata(After(cfg, th, start, run[..n])).counters;
    if k < |cs| then cs[k].checked else 0
  }

  /** The monitor notices a failure: when one checker's results have been bad for failCount
      iterations or more, and it has made checkCount checks, the status is `Error`; and if
      everything works no configured address is on the interface. */
  lemma MonitorNoticesFailure(cfg: Config, th: Thresholds, services: nat, net: Option<seq<CarbonNetwork.ClusterView>>,
                              present: set<NetConf.Key>, run: seq<Input>, k: nat, n: nat)
    requires Fits(th) && Legal(cfg, th, Fresh(services, net, present), run)
    requires k < CheckerCount(Fresh(services, net, present)) && n + Limit(th) <= |run|
    requires Flapping.Fails(Ticks(cfg, th, Fresh(services, net, present), run), k, n, |run|)
    requires CheckedAfter(cfg, th, Fresh(services, net, present), run, n, k) + |run| - n >= th.checkCount
    ensures var start := Fresh(services, net, present);
            var loop := After(cfg, th, start, run).loop;
            && loop.status == Error
            && (Undisturbed(cfg, th, start, run) && EverythingWorks(cfg, run) ==>
                  NetConf.Keys(cfg.ips) !! loop.present)
  {
    hide After, Flapping.After, Fresh, Legal, Flapping.Fails, Undisturbed, EverythingWorks;
    var start := Fresh(services, net, present);
    FreshAutomata(services, net, present);
    RunsAreRunsOfAutomata(cfg, th, start, run);
    PrefixIsLegal(cfg, th, start, run, n);
    RunsAreRunsOfAutomata(cfg, th, start, run[..n]);
    Flapping.FailureIsNoticed(th, CheckerCount(start), Ticks(cfg, th, start, run), k, n);
    if Undisturbed(cfg, th, start, run) {
      FreshCollects(services, net, present);
      MonitorStatusAgrees(cfg, th, start, run);
    }
  }

  lemma FreshCollects(services: nat, net: Option<seq<CarbonNetwork.ClusterView>>, present: set<NetConf.Key>)
    ensures Fresh(services, net, present).loop == LoopState(Collecting, present)
  {
  }

  /** The monitor notices a recovery: when all checkers' results have been good for resetCount
      and for checkCount iterations, the status is `Success` if it was before the last
      iteration, or if raising the addresses then works, the success command included, and
      else `Error`; and if nobody else changes the interface `Success` means that all
      configured addresses are on it. */
  lemma MonitorNoticesRecovery(cfg: Config, th: Thresholds, services: nat, net: Option<seq<CarbonNetwork.ClusterView>>,
                               present: set<NetConf.Key>, run: seq<Input>, n: nat)
    requires Fits(th) && Legal(cfg, th, Fresh(services, net, present), run)
    requires n + Max(Window(th), Flapping.FirstReport(th)) <= |run|
    requires Flapping.Succeeds(Ticks(cfg, th, Fresh(services, net, present), run), n, |run|)
    ensures var start := Fresh(services, net, present);
            var loop, last := After(cfg, th, start, run).loop, run[|run| - 1];
            && Legal(cfg, th, start, run[..|run| - 1]) && WellFormed(cfg, last.world)
            && var before := After(cfg, th, start, run[..|run| - 1]).loop;
            && loop.status == (if before.status == Success || RaiseWorks(cfg, last.world) then Success else Error)
            && (Undisturbed(cfg, th, start, run) && loop.status == Success ==> NetConf.Keys(cfg.ips) <= loop.present)
  {
    hide After, Flapping.After, Fresh, Flapping.Succeeds, Undisturbed, EverythingWorks, RaiseWorks, Clean, Automata,
      Observations, Flapping.FirstReport, CheckerCount, Flapping.Start;
    var start := Fresh(services, net, present);
    var front, last := run[..|run| - 1], run[|run| - 1];
    FreshAutomata(services, net, present);
    RunsAreRunsOfAutomata(cfg, th, start, run);
    RunsAreRunsOfAutomata(cfg, th, start, front);
    var ticks := Ticks(cfg, th, start, run);
    assert ticks[..|ticks| - 1] == Ticks(cfg, th, start, front);
    CleanIff(cfg, last.world, After(cfg, th, start, front).loop.present);
    Flapping.RecoveryIsNoticed(th, CheckerCount(start), ticks, n);
    AutomataStatus(After(cfg, th, start, run));
    AutomataStatus(After(cfg, th, start, front));
    if Undisturbed(cfg, th, start, run) {
      FreshCollects(services, net, present);
      MonitorStatusAgrees(cfg, th, start, run);
    }
  }

  lemma AutomataStatus(v: View)
    ensures Automata(v).status == v.loop.status
  {
  }

  /** What systemd and /proc answered about the k-th service. */
  function ProbesOf(run: seq<Input>, k: nat): seq<Systemd.Probe>
    requires forall i :: 0 <= i < |run| ==> k < |run[i].probes|
  {
    seq(|run|, i requires 0 <= i < |run| => run[i].probes[k])
  }

  /** Every service of the monitor is a service checker on its own. */
  lemma {:induction false} ServicesRunAlone(
      cfg: Config, th: Thresholds, services: nat, net: Option<seq<CarbonNetwork.ClusterView>>,
      present: set<NetConf.Key>, run: seq<Input>, k: nat)
    requires Legal(cfg, th, Fresh(services, net, present), run) && k < services
    ensures forall i :: 0 <= i < |run| ==> |run[i].probes| == services
    ensures var v, ps := After(cfg, th, Fresh(services, net, present), run), ProbesOf(run, k);
            && |v.services| == services && v.services[k] == Systemd.ServiceRun(th, ps)
            && forall n :: 0 <= n < |run| ==>
                 && |Ticks(cfg, th, Fresh(services, net, present), run)[n].obs| > k
                 && Ticks(cfg, th, Fresh(services, net, present), run)[n].obs[k] == Systemd.Observations(th, ps)[n]
  {
    hide CarbonNetwork.Metrics, CarbonNetwork.NetStep, CarbonNetwork.GoodTick, Iterate, Systemd.ServiceStep, Clean,
      States, Systemd.Inspect, Systemd.Observed;
    if run != [] {
      var front := run[..|run| - 1];
      ServicesRunAlone(cfg, th, services, net, present, front, k);
      var ps := ProbesOf(run, k);
      assert ps[..|ps| - 1] == ProbesOf(front, k);
    }
  }

  /** The rounds of probes of all clusters. */
  function RoundsOf(run: seq<Input>): seq<CarbonNetwork.Tick> {
    seq(|run|, i requires 0 <= i < |run| => run[i].round)
  }

  /** And so is the network checker, if there is one. */
  lemma {:induction false} NetworkRunsAlone(cfg: Config, th: Thresholds, services: nat,
                                            clusters: seq<CarbonNetwork.ClusterView>, present: set<NetConf.Key>,
                                            run: seq<Input>)
    requires Legal(cfg, th, Fresh(services, Some(clusters), present), run) && CarbonNetwork.Consistent(clusters)
    ensures CarbonNetwork.ShapedRun(clusters, RoundsOf(run))
    ensures After(cfg, th, Fresh(services, Some(clusters), present), run).net ==
            Some(CarbonNetwork.NetRun(th, clusters, RoundsOf(run)))
  {
    hide CarbonNetwork.Metrics, CarbonNetwork.NetStep, CarbonNetwork.NetRun, Iterate, ServiceSteps, States, StepStatus;
    if run == [] {
      NoRounds(th, clusters);
    } else {
      var front, last := run[..|run| - 1], run[|run| - 1];
      NetworkRunsAlone(cfg, th, services, clusters, present, front);
      assert RoundsOf(run) == RoundsOf(front) + [last.round];
      CarbonNetwork.OneMoreRound(th, clusters, RoundsOf(front), last.round);
    }
  }

  lemma NoRounds(th: Thresholds, clusters: seq<CarbonNetwork.ClusterView>)
    requires CarbonNetwork.Consistent(clusters)
    ensures CarbonNetwork.NetRun(th, clusters, []) == CarbonNetwork.Fresh(clusters)
  {
  }

  /** The monitor notices a service that is down: its process is found gone in iteration n, or
      none is tracked, and from then on systemd gives an error with a state that it knows. After
      failCount such iterations, and checkCount checks of the service, the status is `Error`;
      and if everything works no configured address is on the interface. */
  lemma MonitorNoticesDownService(
      cfg: Config, th: Thresholds, services: nat, net: Option<seq<CarbonNetwork.ClusterView>>,
      present: set<NetConf.Key>, run: seq<Input>, k: nat, n: nat)
    requires Fits(th) && Legal(cfg, th, Fresh(services, net, present), run)
    requires k < services && n + Limit(th) <= |run|
    requires forall i :: 0 <= i < |run| ==> |run[i].probes| == services
    requires Systemd.Fails(Systemd.Tracked(th, ProbesOf(run, k), n), run[n].probes[k])
    requires forall i :: n < i < |run| ==>
               run[i].probes[k].serviceErr.Some? && run[i].probes[k].service.state != Systemd.UnitUnknown
    requires CheckedAfter(cfg, th, Fresh(services, net, present), run, n, k) + |run| - n >= th.checkCount
    ensures var start := Fresh(services, net, present);
            var loop := After(cfg, th, start, run).loop;
            && loop.status == Error
            && (Undisturbed(cfg, th, start, run) && EverythingWorks(cfg, run) ==>
                  NetConf.Keys(cfg.ips) !! loop.present)
  {
    hide Legal, After, Ticks, Systemd.Fails, Systemd.Tracked, Undisturbed, EverythingWorks, CheckedAfter, Fresh;
    var start, ps := Fresh(services, net, present), ProbesOf(run, k);
    ServicesRunAlone(cfg, th, services, net, present, run, k);
    Systemd.DownServiceFails(th, ps, n);
    FreshCount(services, net, present);
    MonitorNoticesFailure(cfg, th, services, net, present, run, k, n);
  }

  lemma FreshCount(services: nat, net: Option<seq<CarbonNetwork.ClusterView>>, present: set<NetConf.Key>)
    ensures CheckerCount(Fresh(services, net, present)) >= services
  {
  }

  // ---------------------------------------------------------------- the bounds are attained

  /** A monitor with one service and one address. */
  const ONE_SERVICE := Config([EXAMPLE], false)

  const ONE_START := Fresh(1, None, {})

  /** What the monitor meets when the service is observed so, all operations work and the
      interface is looked up truthfully. */
  function InputFor(process: Option<Systemd.Proc>, o: Observation, there: bool): Input {
    Input([Systemd.ProbeFor(process, o)], [], ExampleWorld(there, NetConf.Done, true))
  }

  lemma OneServiceStays(th: Thresholds, run: seq<Input>)
    requires Legal(ONE_SERVICE, th, ONE_START, run)
    ensures |After(ONE_SERVICE, th, ONE_START, run).services| == 1
    ensures After(ONE_SERVICE, th, ONE_START, run).net.None?
    decreases |run|
  {
    hide Systemd.ServiceStep, Iterate, StepStatus, States;
    if run != [] {
      OneServiceStays(th, run[..|run| - 1]);
    }
  }

  lemma OneServiceAlone(th: Thresholds, run: seq<Input>)
    requires Legal(ONE_SERVICE, th, ONE_START, run) && Undisturbed(ONE_SERVICE, th, ONE_START, run)
    ensures After(ONE_SERVICE, th, ONE_START, run).loop.present <= NetConf.Keys(ONE_SERVICE.ips)
  {
    hide Legal, After, Undisturbed, Fresh, EverythingWorks, NetConf.Keys;
    FreshCollects(1, None, {});
    MonitorStatusAgrees(ONE_SERVICE, th, ONE_START, run);
    var mine, present := NetConf.Keys(ONE_SERVICE.ips), After(ONE_SERVICE, th, ONE_START, run).loop.present;
    assert present - mine == {} - mine == {};
    forall k | k in present ensures k in mine {
      assert k !in present - mine;
    }
  }

  lemma InputIsTick(th: Thresholds, v: View, o: Observation)
    requires |v.services| == 1 && v.net.None? && v.loop.present <= NetConf.Keys(ONE_SERVICE.ips)
    ensures var x := InputFor(v.services[0].process, o, v.loop.present != {});
            && Fitting(ONE_SERVICE, v, x)
            && TickOf(ONE_SERVICE, v, x) == Flapping.Tick([o], true)
            && NetConf.Faithful(x.world.addrs, v.loop.present)
            && EverythingWorks(ONE_SERVICE, [x])
  {
    hide Systemd.Inspect, Systemd.ProbeFor, Systemd.Observed, NetConf.PassOver, NetConf.Listed;
    var x := InputFor(v.services[0].process, o, v.loop.present != {});
    Systemd.ProbeIsObserved(v.services[0].process, o);
    ExampleIsListed(ONE_SERVICE, v.loop.present != {}, NetConf.Done, true);
    assert v.loop.present != {} ==> v.loop.present == NetConf.Keys(ONE_SERVICE.ips);
    NetConf.NoErrorIff(NetConf.Add, ONE_SERVICE.ips, x.world.addrs, v.loop.present);
    assert Observations(v, x) == [o];
  }

  /** Every sequence of observations, with clean raises, is a run of the monitor in which all
      operations work and nobody else changes the interface. */
  lemma {:induction false} EveryTickHappens(th: Thresholds, ticks: seq<Flapping.Tick>) returns (run: seq<Input>)
    requires Flapping.Shaped(1, ticks) && Flapping.AllClean(ticks)
    ensures Legal(ONE_SERVICE, th, ONE_START, run) && Ticks(ONE_SERVICE, th, ONE_START, run) == ticks
    ensures Undisturbed(ONE_SERVICE, th, ONE_START, run) && EverythingWorks(ONE_SERVICE, run)
  {
    hide Fitting, TickOf, InputFor, NetConf.Faithful, Fresh, Legal, After, Undisturbed, Ticks, EverythingWorks;
    if ticks == [] {
      NoInputs(th);
      run := [];
    } else {
      var front, t := ticks[..|ticks| - 1], ticks[|ticks| - 1];
      var before := EveryTickHappens(th, front);
      var v := After(ONE_SERVICE, th, ONE_START, before);
      OneServiceStays(th, before);
      OneServiceAlone(th, before);
      InputIsTick(th, v, t.obs[0]);
      var x := InputFor(v.services[0].process, t.obs[0], v.loop.present != {});
      run := before + [x];
      OneMoreInput(th, before, x);
      assert t.obs == [t.obs[0]];
    }
  }

  lemma NoInputs(th: Thresholds)
    ensures Legal(ONE_SERVICE, th, ONE_START, []) && Ticks(ONE_SERVICE, th, ONE_START, []) == []
    ensures Undisturbed(ONE_SERVICE, th, ONE_START, []) && EverythingWorks(ONE_SERVICE, [])
  {
  }

  lemma OneMoreInput(th: Thresholds, run: seq<Input>, x: Input)
    requires Legal(ONE_SERVICE, th, ONE_START, run) && Undisturbed(ONE_SERVICE, th, ONE_START, run)
    requires EverythingWorks(ONE_SERVICE, run) && EverythingWorks(ONE_SERVICE, [x])
    requires Fitting(ONE_SERVICE, After(ONE_SERVICE, th, ONE_START, run), x)
    requires NetConf.Faithful(x.world.addrs, After(ONE_SERVICE, th, ONE_START, run).loop.present)
    ensures Legal(ONE_SERVICE, th, ONE_START, run + [x]) && Undisturbed(ONE_SERVICE, th, ONE_START, run + [x])
    ensures EverythingWorks(ONE_SERVICE, run + [x])
    ensures Ticks(ONE_SERVICE, th, ONE_START, run + [x]) ==
            Ticks(ONE_SERVICE, th, ONE_START, run) + [TickOf(ONE_SERVICE, After(ONE_SERVICE, th, ONE_START, run), x)]
  {
    hide Fitting, TickOf, NetConf.Faithful, Fresh, Next;
    assert (run + [x])[..|run|] == run;
    assert [x][0] == x;
  }

  /** The flap-rate bounds are the best there are for the monitor itself: for all thresholds
      that fit in 32 bits and every d, a service can make it flap that fast although all
      operations work, with checks that have no result or without any. */
  lemma FlapRateIsAttained(th: Thresholds, resets: bool, d: nat) returns (run: seq<Input>)
    requires Fits(th)
    ensures Legal(ONE_SERVICE, th, ONE_START, run)
    ensures Undisturbed(ONE_SERVICE, th, ONE_START, run) && EverythingWorks(ONE_SERVICE, run)
    ensures resets || AlwaysKnown(ONE_SERVICE, th, ONE_START, run)
    ensures Downs(ONE_SERVICE, th, ONE_START, run) == d && |run| == Flapping.Fastest(th, resets, d)
  {
    hide Legal, Fresh, Undisturbed, EverythingWorks, Flapping.Fastest, Flapping.Downs, Downs, After, Flapping.After;
    var ticks := Flapping.FlapBoundIsAttained(th, resets, d);
    run := EveryTickHappens(th, ticks);
    FreshAutomata(1, None, {});
    OneServiceCount();
    RunsAreRunsOfAutomata(ONE_SERVICE, th, ONE_START, run);
  }

  lemma OneServiceCount()
    ensures CheckerCount(ONE_START) == 1
  {
  }

  /** And so is the bound on down-times. */
  lemma ShortestDownIsAttained(th: Thresholds) returns (run: seq<Input>, i: nat, j: nat)
    requires Fits(th)
    ensures Legal(ONE_SERVICE, th, ONE_START, run)
    ensures Undisturbed(ONE_SERVICE, th, ONE_START, run) && EverythingWorks(ONE_SERVICE, run)
    ensures DownFromTo(ONE_SERVICE, th, ONE_START, run, i, j) && j - i == Flapping.ShortestDown(th)
  {
    hide Legal, Fresh, Undisturbed, EverythingWorks, DownFromTo, Flapping.ShortestDown, After, ActAt;
    var ticks;
    ticks, i, j := Flapping.ShortestDownIsAttained(th);
    run := EveryTickHappens(th, ticks);
    FreshAutomata(1, None, {});
    OneServiceCount();
    DownFromToIs(ONE_SERVICE, th, ONE_START, run, i, j);
  }

  // ---------------------------------------------------------------- the objects

  function Successes(states: seq<State>): nat {
    if states == [] then 0 else Successes(states[..|states| - 1]) + if states[|states| - 1] == Success then 1 else 0
  }

  lemma {:induction false} AllSuccessesCounted(states: seq<State>)
    ensures Successes(states) <= |states|
    ensures Successes(states) == |states| <==> forall i :: 0 <= i < |states| ==> states[i] == Success
  {
    if states != [] {
      AllSuccessesCounted(states[..|states| - 1]);
    }
  }

  lemma SuccessesAppend(states: seq<State>, s: State)
    ensures Successes(states + [s]) == Successes(states) + if s == Success then 1 else 0
    ensures Error in states + [s] <==> Error in states || s == Error
  {
    assert (states + [s])[..|states|] == states;
  }

  /** What the polling loops have found in these states. */
  predicate Polled(states: seq<State>, stepStatus: State, success: nat) {
    stepStatus == (if Error in states then Error else Collecting) && success == Successes(states)
  }

  lemma PolledMore(states: seq<State>, stepStatus: State, success: nat, s: State)
    requires Polled(states, stepStatus, success)
    ensures Polled(states + [s],
                   if s == Error then Error else stepStatus, if s == Success then success + 1 else success)
  {
    SuccessesAppend(states, s);
  }

  lemma PolledAll(states: seq<State>, stepStatus: State, success: nat)
    requires Polled(states, stepStatus, success)
    ensures StepStatus(states) == if success == |states| then Success else stepStatus
  {
    AllSuccessesCounted(states);
  }

  function ServiceViews(services: seq<Systemd.ServiceChecker>): (views: seq<Systemd.ServiceView>)
    reads services
    ensures |views| == |services|
    ensures forall i :: 0 <= i < |services| ==> views[i] == services[i].View()
  {
    if services == [] then [] else ServiceViews(services[..|services| - 1]) + [services[|services| - 1].View()]
  }

  /** The service checkers are distinct objects in a good state, with these thresholds. */
  ghost predicate ServicesReady(services: seq<Systemd.ServiceChecker>, th: Thresholds)
    reads services
  {
    Separate(services) && forall i :: 0 <= i < |services| ==> services[i].Valid() && services[i].th == th
  }

  /** The part of an iteration that polls the services: the first loop. */
  method PollServices(services: seq<Systemd.ServiceChecker>, th: Thresholds, probes: seq<Systemd.Probe>,
                      ghost before: seq<Systemd.ServiceView>)
    returns (stepStatus: State, success: nat)
    requires ServicesReady(services, th) && |probes| == |services| && before == ServiceViews(services)
    modifies services
    ensures ServicesReady(services, th)
    ensures ServiceViews(services) == ServiceSteps(th, before, probes)
    ensures Polled(ServiceStates(th, before, probes), stepStatus, success)
  {
    hide Polled, Separate, Systemd.ServiceRun, Systemd.ServiceStep, Systemd.Reported, Systemd.Logged;
    ghost var states := ServiceStates(th, before, probes);
    NothingPolled();
    stepStatus, success := Collecting, 0;
    for i := 0 to |services|
      invariant forall n :: 0 <= n < |services| ==> services[n].Valid()
      invariant forall n :: 0 <= n < |services| ==>
                  services[n].View() == if n < i then Systemd.ServiceStep(th, before[n], probes[n]) else before[n]
      invariant Polled(states[..i], stepStatus, success)
    {
      OthersDiffer(services, i);
      PolledMore(states[..i], stepStatus, success, states[i]);
      assert states[..i + 1] == states[..i] + [states[i]];
      var s, events := services[i].Status(probes[i]);
      if s == Error {
        stepStatus := Error;
      } else if s == Success {
        success := success + 1;
      }
    }
    assert states[..|services|] == states;
    ServiceViewsAre(services, ServiceSteps(th, before, probes));
  }

  lemma NextIs(cfg: Config, th: Thresholds, v: View, x: Input, step: State)
    requires Fitting(cfg, v, x)
    requires step == StepStatus(ServiceStates(th, v.services, x.probes) + NetStates(th, NetAfter(th, v.net, x.round)))
    ensures ActIn(cfg, th, v, x) == ActOf(cfg, v.loop, Iteration(step, x.world))
    ensures Next(cfg, th, v, x) == View(ServiceSteps(th, v.services, x.probes), NetAfter(th, v.net, x.round),
                                        Iterate(cfg, v.loop, Iteration(step, x.world)))
  {
  }

  lemma NothingPolled()
    ensures Polled([], Collecting, 0)
  {
  }

  /** One round of probes for the checker's endpoints, and an order of arrival for the
      messages of each cluster. */
  ghost predicate Ordered(net: CarbonNetwork.NetworkChecker?, round: CarbonNetwork.Tick, orders: seq<seq<nat>>)
    reads net, if net == null then [] else net.clusters
  {
    net != null ==>
      && CarbonNetwork.Shaped(net.View().clusters, round)
      && |orders| == |net.clusters|
      && forall i :: 0 <= i < |orders| ==> FanIn.Permutation(orders[i], |net.clusters[i].endpoints|)
  }

  ghost predicate NetReady(net: CarbonNetwork.NetworkChecker?, th: Thresholds)
    reads net, if net == null then [] else net.clusters
  {
    net != null ==> net.Valid() && net.th == th
  }

  function NetViewOf(net: CarbonNetwork.NetworkChecker?): (v: Option<CarbonNetwork.NetView>)
    reads net, if net == null then [] else net.clusters
    ensures v.Some? <==> net != null
  {
    if net == null then None else Some(net.View())
  }

  lemma OrderedFits(cfg: Config, net: CarbonNetwork.NetworkChecker?, orders: seq<seq<nat>>, v: View, x: Input)
    requires |x.probes| == |v.services| && WellFormed(cfg, x.world) && Ordered(net, x.round, orders)
    requires v.net == NetViewOf(net)
    ensures Fitting(cfg, v, x)
  {
  }

  /** The network checker for a relay configuration: a fresh one for the clusters that the
      file describes. */
  method LoadRelay(file: CarbonCRelay.File, required: seq<string>, testPrefix: string, th: Thresholds)
    returns (net: CarbonNetwork.NetworkChecker?, err: ErrorText)
    ensures err == if file.OpenFailed? then Some(file.text) else None
    ensures err.None? <==> net != null
    ensures net != null ==>
              && fresh(net) && fresh(net.clusters) && NetReady(net, th)
              && net.name == "carbon-c-relay clusters"
              && NetViewOf(net) == Some(CarbonNetwork.Fresh(CarbonCRelay.Parsed(file.text, set n | n in required)))
  {
    hide CarbonCRelay.Parsed, CarbonNetwork.NetStep, CarbonNetwork.Metrics, Separate;
    net := null;
    var clusters;
    clusters, err := CarbonCRelay.Clusters(file, required, testPrefix);
    if err.None? {
      net := new CarbonNetwork.NetworkChecker("carbon-c-relay clusters", clusters,
                                              th.failCount, th.checkCount, th.resetCount);
    }
  }

  /** The monitor; `net` is there if relay clusters are configured. */
  class RelayMonitor {
    const cfg: Config
    const th: Thresholds
    const services: seq<Systemd.ServiceChecker>
    const net: CarbonNetwork.NetworkChecker?
    const dev: NetConf.Interface
    var status: State
    /** The monitor when it was made, and what it has met since. */
    ghost const start: View
    ghost var history: seq<Input>

    ghost function Now(): View
      reads this, services, net, if net == null then [] else net.clusters, dev
    {
      View(ServiceViews(services), NetViewOf(net), LoopState(status, dev.present))
    }

    /** The monitor is where its history leads: nobody else has changed its parts. */
    ghost predicate OnTrack()
      reads this, services, net, if net == null then [] else net.clusters, dev
    {
      Legal(cfg, th, start, history) && Now() == After(cfg, th, start, history)
    }

    ghost predicate Valid()
      reads this, services, net, if net == null then [] else net.clusters
    {
      && ServicesReady(services, th)
      && NetReady(net, th)
    }

    constructor (cfg: Config, th: Thresholds, services: seq<Systemd.ServiceChecker>, net: CarbonNetwork.NetworkChecker?,
                 dev: NetConf.Interface)
      requires ServicesReady(services, th)
      requires NetReady(net, th)
      ensures Valid() && OnTrack() && status == Collecting && history == [] && start == Now()
      ensures this.cfg == cfg && this.th == th && this.services == services && this.net == net && this.dev == dev
    {
      this.cfg, this.th, this.services, this.net, this.dev := cfg, th, services, net, dev;
      status := Collecting;
      start := View(ServiceViews(services), NetViewOf(net), LoopState(Collecting, dev.present));
      history := [];
    }

    /** What holds of runs holds of the object: as long as it is on track and nobody else
        changes the interface, status `Success` means that all configured addresses are on
        it, and it has not flapped faster than the thresholds allow. */
    lemma WhatRunsTell(services: nat, clusters: Option<seq<CarbonNetwork.ClusterView>>, present: set<NetConf.Key>)
      requires OnTrack() && start == Fresh(services, clusters, present)
      ensures Undisturbed(cfg, th, start, history) && status == Success ==> NetConf.Keys(cfg.ips) <= dev.present
      ensures Flapping.Fastest(th, true, Downs(cfg, th, start, history)) <= |history|
    {
      hide Legal, After, Undisturbed, Downs, Fresh, Flapping.Fastest;
      FreshCollects(services, clusters, present);
      MonitorFlapRate(cfg, th, services, clusters, present, history);
      if Undisturbed(cfg, th, start, history) {
        MonitorStatusAgrees(cfg, th, start, history);
      }
    }

    /** Act on a combined state that differs from the status: the second half of an
        iteration. */
    method React(stepStatus: State, w: World) returns (ghost act: Act)
      requires WellFormed(cfg, w)
      modifies this`status, dev
      ensures act == ActOf(cfg, LoopState(old(status), old(dev.present)), Iteration(stepStatus, w))
      ensures LoopState(status, dev.present) ==
              Iterate(cfg, LoopState(old(status), old(dev.present)), Iteration(stepStatus, w))
      ensures stepStatus == Success && old(status) != Success ==>
                status == if RaiseWorks(cfg, w) then Success else Error
      ensures stepStatus == Error ==> status == Error
      ensures stepStatus !in {Success, Error} ==> status == old(status) && dev.present == old(dev.present)
      ensures dev.commands == old(dev.commands) + CommandsOf(cfg, act, w, old(dev.present))
    {
      IterationOutcome(cfg, LoopState(status, dev.present), Iteration(stepStatus, w));
      act := Idle;
      if status != stepStatus {
        if stepStatus == Error {
          act := Down;
          status := Error;
          if |cfg.ips| > 0 {
            var errs := dev.AddrDel(cfg.ips, w.addrs);
          }
        } else if stepStatus == Success {
          act := UpClean;
          status := Success;
          if |cfg.ips| > 0 {
            var errs := dev.AddrAdd(cfg.ips, w.addrs);
            if |errs| > 0 {
              act := UpFailed;
              status := Error;
            }
          }
          if cfg.hasSuccessCmd && !w.cmdOk {
            act := UpFailed;
            status := Error;
          }
        }
      }
    }

    /** Poll the network checker, if there is one: the second loop. `orders` tells in
        which order its messages arrive. */
    method PollNet(round: CarbonNetwork.Tick, orders: seq<seq<nat>>, soFar: State, good: nat, ghost states: seq<State>)
      returns (stepStatus: State, success: nat)
      requires NetReady(net, th) && Ordered(net, round, orders)
      requires Polled(states, soFar, good)
      modifies net, if net == null then [] else net.clusters
      ensures NetReady(net, th)
      ensures NetViewOf(net) == NetAfter(th, old(NetViewOf(net)), round)
      ensures Polled(states + NetStates(th, NetViewOf(net)), stepStatus, success)
    {
      hide Polled, Verdict, FanIn.Permutation, CarbonNetwork.NetStep, CarbonNetwork.NetRun, CarbonNetwork.Views;
      stepStatus, success := soFar, good;
      if net != null {
        var s, events := net.Status(round, orders);
        PolledMore(states, stepStatus, success, s);
        if s == Error {
          stepStatus := Error;
        } else if s == Success {
          success := success + 1;
        }
      } else {
        assert states + [] == states;
      }
    }

    /** Poll all checkers and combine what they report: the first half of an iteration. */
    method PollAll(x: Input, orders: seq<seq<nat>>) returns (stepStatus: State)
      requires Valid() && |x.probes| == |services| && Ordered(net, x.round, orders)
      modifies services, net, if net == null then [] else net.clusters
      ensures Valid()
      ensures ServiceViews(services) == ServiceSteps(th, old(ServiceViews(services)), x.probes)
      ensures NetViewOf(net) == NetAfter(th, old(NetViewOf(net)), x.round)
      ensures stepStatus ==
              StepStatus(ServiceStates(th, old(ServiceViews(services)), x.probes) + NetStates(th, NetViewOf(net)))
    {
      hide Polled, ServiceStates, ServiceSteps, NetAfter, NetStates, StepStatus, ServicesReady, ServiceViews, NetReady,
        NetViewOf, Ordered;
      ghost var before := ServiceViews(services);
      ghost var states := ServiceStates(th, before, x.probes);
      var success;
      stepStatus, success := PollServices(services, th, x.probes, before);
      stepStatus, success := PollNet(x.round, orders, stepStatus, success, states);
      PolledAll(states + NetStates(th, NetViewOf(net)), stepStatus, success);
      if success == |services| + (if net == null then 0 else 1) {
        stepStatus := Success;
      }
    }

    /** One iteration of the main loop. */
    method RunIteration(x: Input, orders: seq<seq<nat>>) returns (ghost act: Act)
      requires Valid()
      requires |x.probes| == |services| && WellFormed(cfg, x.world)
      requires Ordered(net, x.round, orders)
      modifies this`status, this`history, dev, services, net, if net == null then [] else net.clusters
      ensures Valid() && history == old(history) + [x]
      ensures Fitting(cfg, old(Now()), x)
      ensures act == ActIn(cfg, th, old(Now()), x) && Now() == Next(cfg, th, old(Now()), x)
      ensures dev.commands == old(dev.commands) + CommandsOf(cfg, act, x.world, old(dev.present))
      ensures old(OnTrack()) ==> OnTrack()
    {
      hide ServiceStates, ServiceSteps, NetAfter, NetStates, StepStatus, Iterate, ActOf, ActIn, Next, ServicesReady,
        ServiceViews, NetReady, NetViewOf, Ordered, WellFormed, Fitting, Legal, After, RaiseWorks,
        CommandsOf;
      ghost var v := Now();
      OrderedFits(cfg, net, orders, v, x);
      var stepStatus := PollAll(x, orders);
      NextIs(cfg, th, v, x, stepStatus);
      assert LoopState(status, dev.present) == v.loop;
      act := React(stepStatus, x.world);
      StaysOnTrack(cfg, th, start, history, v, x);
      history := history + [x];
    }
  }

  lemma StaysOnTrack(cfg: Config, th: Thresholds, start: View, run: seq<Input>, v: View, x: Input)
    requires Fitting(cfg, v, x)
    ensures Legal(cfg, th, start, run) && v == After(cfg, th, start, run) ==>
              Legal(cfg, th, start, run + [x]) && After(cfg, th, start, run + [x]) == Next(cfg, th, v, x)
  {
    hide Fitting, Next;
    assert (run + [x])[..|run|] == run;
  }

  lemma ServiceViewsAre(services: seq<Systemd.ServiceChecker>, views: seq<Systemd.ServiceView>)
    requires |views| == |services| && forall i :: 0 <= i < |services| ==> services[i].View() == views[i]
    ensures ServiceViews(services) == views
  {
  }
}
