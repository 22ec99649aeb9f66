/**
  The checkers and the control loop together: how often the addresses can be withdrawn.

  A run is a sequence of ticks. In each, every checker observes one good result, one
  bad result or none, its automaton moves on, and the loop acts on the reported states.
 */
module Flapping {
  import opened Checker
  import opened Hysteresis
  import opened Control

  /** The observations of all checkers, and whether raising the addresses would be clean. */
  datatype Tick = Tick(obs: seq<Observation>, clean: bool)

  datatype System = System(counters: seq<Counters>, status: State)

  function Start(m: nat): System {
    System(seq(m, _ => ZERO), Collecting)
  }

  function Move(th: Thresholds, cs: seq<Counters>, obs: seq<Observation>): (next: seq<Counters>)
    requires |cs| == |obs|
    ensures |next| == |cs|
    ensures forall i :: 0 <= i < |cs| ==> next[i] == Observe(th, cs[i], obs[i])
  {
    seq(|cs|, i requires 0 <= i < |cs| => Observe(th, cs[i], obs[i]))
  }

  /** What a checker reports after its tick; `Unknown` when it had no result. */
  function Report(th: Thresholds, c: Counters, o: Observation): State {
    if o == Reset then Unknown else Verdict(th, c)
  }

  function Reports(th: Thresholds, cs: seq<Counters>, obs: seq<Observation>): (states: seq<State>)
    requires |cs| == |obs|
    ensures |states| == |cs|
    ensures forall i :: 0 <= i < |cs| ==> states[i] == Report(th, cs[i], obs[i])
  {
    seq(|cs|, i requires 0 <= i < |cs| => Report(th, cs[i], obs[i]))
  }

  function StepOf(th: Thresholds, s: System, t: Tick): State
    requires |t.obs| == |s.counters|
  {
    StepStatus(Reports(th, Move(th, s.counters, t.obs), t.obs))
  }

  function ActOf(th: Thresholds, s: System, t: Tick): Act
    requires |t.obs| == |s.counters|
  {
    Decide(s.status, StepOf(th, s, t), t.clean).1
  }

  function Next(th: Thresholds, s: System, t: Tick): System
    requires |t.obs| == |s.counters|
  {
    System(Move(th, s.counters, t.obs), Decide(s.status, StepOf(th, s, t), t.clean).0)
  }

  predicate Shaped(m: nat, run: seq<Tick>) {
    forall n :: 0 <= n < |run| ==> |run[n].obs| == m
  }

  function After(th: Thresholds, m: nat, run: seq<Tick>): (s: System)
    requires Shaped(m, run)
    ensures |s.counters| == m
  {
    if run == [] then Start(m) else Next(th, After(th, m, run[..|run| - 1]), run[|run| - 1])
  }

  /** How often the addresses were withdrawn. */
  function Downs(th: Thresholds, m: nat, run: seq<Tick>): nat
    requires Shaped(m, run)
  {
    if run == [] then 0
    else
      var front, last := run[..|run| - 1], run[|run| - 1];
      Downs(th, m, front) + if ActOf(th, After(th, m, front), last) == Down then 1 else 0
  }

  // ---------------------------------------------------------------- the earliest downs

  function FirstReport(th: Thresholds): nat {
    Max(1, th.checkCount)
  }

  /** The earliest down: enough checks, and enough of them failed. */
  function FirstDown(th: Thresholds): nat {
    Max(FirstReport(th), Limit(th))
  }

  function Min(a: nat, b: nat): nat {
    if a < b then a else b
  }

  /** The earliest clean raise after the first down. Good results may forget the failures; if
      checks can be without a result, the checker can also start afresh. */
  function FirstUp(th: Thresholds, resets: bool): nat {
    var byWindow := Max(FirstReport(th) + 1, Limit(th) + Window(th));
    if resets then Min(byWindow, FirstDown(th) + 1 + FirstReport(th)) else byWindow
  }

  /** What a later cycle of raise and down takes beyond the failures for the down. */
  function Gap(th: Thresholds, resets: bool): nat {
    if resets then Min(Window(th), 1 + FirstReport(th)) else Window(th)
  }

  /** The earliest tick of the d-th down. */
  function Earliest(th: Thresholds, resets: bool, d: nat): nat
    decreases d, 0
  {
    if d == 0 then 0
    else if d == 1 then FirstDown(th)
    else EarliestUp(th, resets, d - 1) + Limit(th)
  }

  /** The earliest clean raise after the d-th down. */
  function EarliestUp(th: Thresholds, resets: bool, d: nat): nat
    requires d > 0
    decreases d, 1
  {
    if d == 1 then FirstUp(th, resets) else Earliest(th, resets, d) + Gap(th, resets)
  }

  /** The earliest tick of the d-th down, without recursion. */
  function Fastest(th: Thresholds, resets: bool, d: nat): int {
    if d == 0 then 0
    else if d == 1 then FirstDown(th)
    else FirstUp(th, resets) + Limit(th) + (d - 2) * (Limit(th) + Gap(th, resets))
  }

  lemma {:induction false} EarliestIs(th: Thresholds, resets: bool, d: nat)
    ensures Earliest(th, resets, d) == Fastest(th, resets, d)
  {
    if d > 2 {
      EarliestIs(th, resets, d - 1);
      var cycle := Limit(th) + Gap(th, resets);
      assert (d - 2) * cycle == (d - 3) * cycle + cycle;
    }
  }

  /** Checks without a result cannot speed up flapping exactly when good results forget
      failures no later than a fresh start would. */
  lemma ResetsMatterIff(th: Thresholds)
    ensures (forall d: nat :: Fastest(th, true, d) == Fastest(th, false, d)) <==>
            Window(th) <= 1 + FirstReport(th)
  {
    if Window(th) <= 1 + FirstReport(th) {
      assert Gap(th, true) == Gap(th, false) && FirstUp(th, true) == FirstUp(th, false);
    } else {
      var cycle, slower := Limit(th) + Gap(th, true), Limit(th) + Gap(th, false);
      assert Fastest(th, true, 3) == FirstUp(th, true) + Limit(th) + 1 * cycle;
      assert Fastest(th, false, 3) == FirstUp(th, false) + Limit(th) + 1 * slower;
    }
  }

  // ---------------------------------------------------------------- the invariant

  /** Where the window that ends with the raise after the d-th down starts. */
  function WindowStart(th: Thresholds, resets: bool, d: nat): nat
    requires d > 0
  {
    if d == 1 then Limit(th) else Earliest(th, resets, d)
  }

  /** While the addresses are up, no checker that failed has made more checks since than
      there were ticks. */
  predicate UpFor(th: Thresholds, resets: bool, cs: seq<Counters>, n: nat, d: nat) {
    d > 0 ==>
      && EarliestUp(th, resets, d) <= n
      && forall i :: 0 <= i < |cs| && cs[i].failed > 0 ==>
           EarliestUp(th, resets, d) + cs[i].failed + cs[i].success <= n
  }

  /** This checker has brought the addresses down, and has had its good results or, if it
      started afresh, all its checks since. */
  predicate Holding(th: Thresholds, resets: bool, c: Counters, n: nat, d: nat)
    requires d > 0
  {
    || (c.failed > 0 && WindowStart(th, resets, d) + c.success <= n)
    || (resets && Earliest(th, resets, d) + 1 + c.checked <= n)
  }

  /** The time for good results to forget failures, or for a fresh start, has passed. */
  predicate Over(th: Thresholds, resets: bool, n: nat, d: nat)
    requires d > 0
  {
    || WindowStart(th, resets, d) + Window(th) <= n
    || (resets && Earliest(th, resets, d) + 1 + FirstReport(th) <= n)
  }

  /** While they are down, some checker still holds them down, or that time has passed. */
  predicate DownFor(th: Thresholds, resets: bool, cs: seq<Counters>, n: nat, d: nat) {
    d > 0 ==> Over(th, resets, n, d) || exists i :: 0 <= i < |cs| && Holding(th, resets, cs[i], n, d)
  }

  predicate Inv(th: Thresholds, resets: bool, s: System, n: nat, d: nat) {
    && Earliest(th, resets, d) <= n
    && (forall i :: 0 <= i < |s.counters| ==> s.counters[i].checked <= n)
    && (forall i :: 0 <= i < |s.counters| ==> s.counters[i].failed + s.counters[i].success <= n)
    && (s.status == Success ==> UpFor(th, resets, s.counters, n, d))
    && (s.status != Success ==> DownFor(th, resets, s.counters, n, d))
    && (s.status == Collecting ==> d == 0)
    && s.status in {Collecting, Success, Error}
  }

  predicate NoReset(obs: seq<Observation>) {
    forall i :: 0 <= i < |obs| ==> obs[i] != Reset
  }

  predicate AlwaysResult(run: seq<Tick>) {
    forall n :: 0 <= n < |run| ==> NoReset(run[n].obs)
  }

  lemma ObserveGrows(th: Thresholds, c: Counters, o: Observation)
    ensures var e := Observe(th, c, o);
            && e.checked <= c.checked + 1
            && e.failed <= c.failed + 1
            && e.failed + e.success <= c.failed + c.success + 1
            && (c.failed == 0 && e.failed > 0 ==> e.failed + e.success == 1)
            && (o == Reset ==> e == ZERO)
            && (o != Reset ==> e.checked >= c.checked && e.checked > 0)
            && (o != Reset && c.failed > 0 ==> e.failed > 0 || e.success >= Window(th))
            && e.success <= c.success + 1
            && (e.failed > c.failed ==> o == Bad && e.success == 0)
  {
  }

  /** A checker goes on holding the addresses down until the time has passed. */
  lemma HoldingStays(th: Thresholds, resets: bool, c: Counters, o: Observation, n: nat, d: nat)
    requires d > 0 && Earliest(th, resets, d) <= n && (resets || o != Reset)
    requires Holding(th, resets, c, n, d)
    ensures Holding(th, resets, Observe(th, c, o), n + 1, d) || Over(th, resets, n + 1, d)
  {
    hide Observe, Earliest;
    ObserveGrows(th, c, o);
  }

  lemma DownForStays(th: Thresholds, resets: bool, cs: seq<Counters>, obs: seq<Observation>, n: nat, d: nat)
    requires |cs| == |obs| && Earliest(th, resets, d) <= n && (resets || NoReset(obs))
    requires DownFor(th, resets, cs, n, d)
    ensures DownFor(th, resets, Move(th, cs, obs), n + 1, d)
  {
    hide Holding, Observe, Earliest;
    if d > 0 && !Over(th, resets, n, d) {
      var i :| 0 <= i < |cs| && Holding(th, resets, cs[i], n, d);
      HoldingStays(th, resets, cs[i], obs[i], n, d);
      var next := Move(th, cs, obs);
      assert next[i] == Observe(th, cs[i], obs[i]);
    }
  }

  /** A checker that succeeds does not hold the addresses down. */
  lemma SuccessReleases(th: Thresholds, resets: bool, c: Counters, o: Observation, n: nat, d: nat)
    requires d > 0 && Report(th, Observe(th, c, o), o) == Success
    requires Holding(th, resets, Observe(th, c, o), n, d)
    ensures Over(th, resets, n, d)
  {
    hide Observe, Earliest;
    ObserveGrows(th, c, o);
  }

  lemma CountersGrow(th: Thresholds, cs: seq<Counters>, obs: seq<Observation>, n: nat)
    requires |cs| == |obs|
    requires forall i :: 0 <= i < |cs| ==> cs[i].checked <= n && cs[i].failed + cs[i].success <= n
    ensures var next := Move(th, cs, obs);
            forall i :: 0 <= i < |next| ==> next[i].checked <= n + 1 && next[i].failed + next[i].success <= n + 1
  {
    hide Observe;
    forall i | 0 <= i < |cs|
      ensures var e := Move(th, cs, obs)[i]; e.checked <= n + 1 && e.failed + e.success <= n + 1
    {
      ObserveGrows(th, cs[i], obs[i]);
    }
  }

  lemma UpForStays(th: Thresholds, resets: bool, cs: seq<Counters>, obs: seq<Observation>, n: nat, d: nat)
    requires |cs| == |obs| && UpFor(th, resets, cs, n, d)
    ensures UpFor(th, resets, Move(th, cs, obs), n + 1, d)
  {
    hide Observe, EarliestUp;
    var next := Move(th, cs, obs);
    if d > 0 {
      forall i | 0 <= i < |next| && next[i].failed > 0
        ensures EarliestUp(th, resets, d) + next[i].failed + next[i].success <= n + 1
      {
        ObserveGrows(th, cs[i], obs[i]);
      }
    }
  }

  lemma DownStep(th: Thresholds, resets: bool, s: System, t: Tick, n: nat, d: nat)
    requires |t.obs| == |s.counters| && Inv(th, resets, s, n, d)
    requires ActOf(th, s, t) == Down
    ensures Inv(th, resets, Next(th, s, t), n + 1, d + 1)
  {
    hide Observe, Over, FirstUp, Gap;
    var cs := Move(th, s.counters, t.obs);
    var reports := Reports(th, cs, t.obs);
    CountersGrow(th, s.counters, t.obs, n);
    if d > 0 {
      UpForStays(th, resets, s.counters, t.obs, n, d);
    }
    var i :| 0 <= i < |reports| && reports[i] == Error;
    assert Report(th, cs[i], t.obs[i]) == Error;
    ObserveGrows(th, s.counters[i], t.obs[i]);
    assert cs[i].failed >= Limit(th) && cs[i].checked >= FirstReport(th);
    assert Holding(th, resets, cs[i], n + 1, d + 1);
  }

  lemma UpStep(th: Thresholds, resets: bool, s: System, t: Tick, n: nat, d: nat)
    requires |t.obs| == |s.counters| && Inv(th, resets, s, n, d) && (resets || NoReset(t.obs))
    requires ActOf(th, s, t) == UpClean
    ensures Inv(th, resets, Next(th, s, t), n + 1, d)
  {
    hide Observe, Holding, Over;
    var cs := Move(th, s.counters, t.obs);
    CountersGrow(th, s.counters, t.obs, n);
    DownForStays(th, resets, s.counters, t.obs, n, d);
    CleanRaiseFindsNoFailure(th, s, t);
    if d > 0 {
      CleanRaiseMeansOver(th, resets, s, t, n, d);
      OverMeansEarliestUp(th, resets, n, d);
    }
  }

  lemma CleanRaiseFindsNoFailure(th: Thresholds, s: System, t: Tick)
    requires |t.obs| == |s.counters| && ActOf(th, s, t) == UpClean
    ensures forall k :: 0 <= k < |s.counters| ==> Move(th, s.counters, t.obs)[k].failed == 0
  {
    var reports := Reports(th, Move(th, s.counters, t.obs), t.obs);
    forall k | 0 <= k < |s.counters| ensures Move(th, s.counters, t.obs)[k].failed == 0 {
      assert reports[k] == Success;
    }
  }

  lemma CleanRaiseMeansOver(th: Thresholds, resets: bool, s: System, t: Tick, n: nat, d: nat)
    requires d > 0 && |t.obs| == |s.counters| && ActOf(th, s, t) == UpClean
    requires DownFor(th, resets, Move(th, s.counters, t.obs), n + 1, d)
    ensures Over(th, resets, n + 1, d)
  {
    hide Observe, Holding, Over;
    var cs := Move(th, s.counters, t.obs);
    var reports := Reports(th, cs, t.obs);
    if !Over(th, resets, n + 1, d) {
      var i :| 0 <= i < |cs| && Holding(th, resets, cs[i], n + 1, d);
      assert reports[i] == Success;
      SuccessReleases(th, resets, s.counters[i], t.obs[i], n + 1, d);
    }
  }

  lemma OverMeansEarliestUp(th: Thresholds, resets: bool, n: nat, d: nat)
    requires d > 0 && Earliest(th, resets, d) <= n && Over(th, resets, n + 1, d)
    ensures EarliestUp(th, resets, d) <= n + 1
  {
  }

  lemma OtherStep(th: Thresholds, resets: bool, s: System, t: Tick, n: nat, d: nat)
    requires |t.obs| == |s.counters| && Inv(th, resets, s, n, d) && (resets || NoReset(t.obs))
    requires ActOf(th, s, t) in {Idle, UpFailed}
    ensures Inv(th, resets, Next(th, s, t), n + 1, d)
  {
    hide Observe, UpFor, DownFor, Earliest, StepOf;
    CountersGrow(th, s.counters, t.obs, n);
    if s.status == Success {
      UpForStays(th, resets, s.counters, t.obs, n, d);
    } else {
      DownForStays(th, resets, s.counters, t.obs, n, d);
    }
  }

  lemma StartInv(th: Thresholds, m: nat, resets: bool)
    ensures Inv(th, resets, Start(m), 0, 0)
  {
  }

  lemma {:induction false} InvHolds(th: Thresholds, m: nat, run: seq<Tick>, resets: bool)
    requires Shaped(m, run) && (resets || AlwaysResult(run))
    ensures Inv(th, resets, After(th, m, run), |run|, Downs(th, m, run))
  {
    hide Inv, Next, ActOf, NoReset, Start;
    StartInv(th, m, resets);
    if run != [] {
      var front, last := run[..|run| - 1], run[|run| - 1];
      InvHolds(th, m, front, resets);
      var s, d := After(th, m, front), Downs(th, m, front);
      match ActOf(th, s, last)
      case Down => DownStep(th, resets, s, last, |front|, d);
      case UpClean => UpStep(th, resets, s, last, |front|, d);
      case _ => OtherStep(th, resets, s, last, |front|, d);
    }
  }

  // ---------------------------------------------------------------- theorems

  /** Hysteresis bounds flapping, whatever the thresholds, however many checkers there
      are, whichever raises fail, and whichever checks have no result: a run with d downs
      is no shorter than the fastest one. If every check has a result, a checker cannot
      start afresh, and the bound is the one without resets. */
  lemma FlapRateIsBounded(th: Thresholds, m: nat, run: seq<Tick>)
    requires Shaped(m, run)
    ensures Fastest(th, true, Downs(th, m, run)) <= |run|
    ensures AlwaysResult(run) ==> Fastest(th, false, Downs(th, m, run)) <= |run|
  {
    hide After, Downs, UpFor, DownFor, AlwaysResult, Fastest, Earliest;
    var d := Downs(th, m, run);
    InvHolds(th, m, run, true);
    EarliestIs(th, true, d);
    if AlwaysResult(run) {
      InvHolds(th, m, run, false);
      EarliestIs(th, false, d);
    }
  }

  // ---------------------------------------------------------------- dwell times

  function ActAt(th: Thresholds, m: nat, run: seq<Tick>, n: nat): Act
    requires Shaped(m, run) && n < |run|
  {
    ActOf(th, After(th, m, run[..n]), run[n])
  }

  lemma AfterOneMore(th: Thresholds, m: nat, run: seq<Tick>, n: nat)
    requires Shaped(m, run) && n < |run|
    ensures After(th, m, run[..n + 1]) == Next(th, After(th, m, run[..n]), run[n])
  {
    assert run[..n + 1][..n] == run[..n];
  }

  /** After a clean raise no checker has more failures than there were ticks. */
  lemma {:induction false} FailuresSinceUp(th: Thresholds, m: nat, run: seq<Tick>, i: nat, n: nat)
    requires Shaped(m, run) && i < n <= |run| && ActAt(th, m, run, i) == UpClean
    ensures forall k :: 0 <= k < m ==> After(th, m, run[..n]).counters[k].failed <= n - i - 1
  {
    hide After, ActOf, Observe;
    var s, t := After(th, m, run[..n - 1]), run[n - 1];
    AfterOneMore(th, m, run, n - 1);
    if n == i + 1 {
      CleanRaiseFindsNoFailure(th, s, t);
    } else {
      FailuresSinceUp(th, m, run, i, n - 1);
      forall k | 0 <= k < m ensures After(th, m, run[..n]).counters[k].failed <= n - i - 1 {
        ObserveGrows(th, s.counters[k], t.obs[k]);
      }
    }
  }

  /** Addresses that were cleanly raised stay up for at least failCount ticks. */
  lemma UpTime(th: Thresholds, m: nat, run: seq<Tick>, i: nat, j: nat)
    requires Shaped(m, run) && i < j < |run|
    requires ActAt(th, m, run, i) == UpClean && ActAt(th, m, run, j) == Down
    ensures j - i >= Limit(th)
  {
    var s, t := After(th, m, run[..j]), run[j];
    FailuresSinceUp(th, m, run, i, j);
    var cs := Move(th, s.counters, t.obs);
    var reports := Reports(th, cs, t.obs);
    var k :| 0 <= k < |reports| && reports[k] == Error;
    assert Report(th, cs[k], t.obs[k]) == Error;
    ObserveGrows(th, s.counters[k], t.obs[k]);
  }

  /** A checker's true numbers of failures and of successes in a row are part of its checks;
      and while the addresses are up a checker that has made enough checks is no error. */
  predicate Sound(th: Thresholds, s: System) {
    && (forall k :: 0 <= k < |s.counters| && s.counters[k].checked < MAX_INT32 ==>
          s.counters[k].failed + s.counters[k].success <= s.counters[k].checked)
    && (s.status == Success ==>
          forall k :: 0 <= k < |s.counters| && s.counters[k].checked >= th.checkCount ==>
            s.counters[k].failed < Limit(th))
  }

  lemma SoundCounters(th: Thresholds, c: Counters, o: Observation)
    requires c.checked < MAX_INT32 ==> c.failed + c.success <= c.checked
    ensures var e := Observe(th, c, o);
            && (e.checked < MAX_INT32 ==> e.failed + e.success <= e.checked)
            && (Report(th, e, o) != Error && e.checked >= th.checkCount ==> e.failed < Limit(th))
  {
  }

  lemma SoundStep(th: Thresholds, s: System, t: Tick)
    requires |t.obs| == |s.counters| && Sound(th, s)
    ensures Sound(th, Next(th, s, t))
  {
    hide Observe, Report;
    var cs := Move(th, s.counters, t.obs);
    var reports := Reports(th, cs, t.obs);
    forall k | 0 <= k < |cs|
      ensures cs[k].checked < MAX_INT32 ==> cs[k].failed + cs[k].success <= cs[k].checked
      ensures StepOf(th, s, t) != Error && cs[k].checked >= th.checkCount ==> cs[k].failed < Limit(th)
    {
      SoundCounters(th, s.counters[k], t.obs[k]);
      assert reports[k] == Report(th, cs[k], t.obs[k]);
      assert StepOf(th, s, t) != Error ==> reports[k] != Error;
    }
  }

  lemma {:induction false} SoundHolds(th: Thresholds, m: nat, run: seq<Tick>)
    requires Shaped(m, run)
    ensures Sound(th, After(th, m, run))
  {
    hide Sound, Next;
    if run == [] {
      StartIsSound(th, m);
    } else {
      SoundHolds(th, m, run[..|run| - 1]);
      SoundStep(th, After(th, m, run[..|run| - 1]), run[|run| - 1]);
    }
  }

  lemma StartIsSound(th: Thresholds, m: nat)
    ensures Sound(th, Start(m))
  {
  }

  /** While the addresses are up every checker reports, and no error. */
  predicate AllReport(th: Thresholds, s: System) {
    s.status == Success ==>
      forall k :: 0 <= k < |s.counters| ==> s.counters[k].checked >= th.checkCount && s.counters[k].failed < Limit(th)
  }

  lemma AllReportStep(th: Thresholds, s: System, t: Tick)
    requires |t.obs| == |s.counters|
    requires (NoReset(t.obs) && AllReport(th, s)) || ActOf(th, s, t) == UpClean
    ensures AllReport(th, Next(th, s, t))
  {
    hide Observe;
    var cs := Move(th, s.counters, t.obs);
    var reports := Reports(th, cs, t.obs);
    if Next(th, s, t).status == Success {
      forall k | 0 <= k < |cs| ensures cs[k].checked >= th.checkCount && cs[k].failed < Limit(th) {
        ObserveGrows(th, s.counters[k], t.obs[k]);
        assert reports[k] == Report(th, cs[k], t.obs[k]);
        assert StepOf(th, s, t) == Success ==> reports[k] == Success;
        assert StepOf(th, s, t) != Error ==> reports[k] != Error;
      }
    }
  }

  /** Every check has a result in the ticks from a up to b. */
  predicate ResultsBetween(run: seq<Tick>, a: nat, b: nat)
    requires b <= |run|
  {
    forall n :: a <= n < b ==> NoReset(run[n].obs)
  }

  lemma {:induction false} ReportsSinceUp(th: Thresholds, m: nat, run: seq<Tick>, h: nat, n: nat)
    requires Shaped(m, run) && h < n <= |run| && ActAt(th, m, run, h) == UpClean && ResultsBetween(run, h + 1, n)
    ensures AllReport(th, After(th, m, run[..n]))
  {
    hide AllReport, Next, NoReset, After, ActOf;
    AfterOneMore(th, m, run, n - 1);
    if n > h + 1 {
      ReportsSinceUp(th, m, run, h, n - 1);
      assert NoReset(run[n - 1].obs);
    }
    AllReportStep(th, After(th, m, run[..n - 1]), run[n - 1]);
  }

  /** What a change of the status says about the act. */
  lemma ActOfChange(th: Thresholds, s: System, t: Tick)
    requires |t.obs| == |s.counters|
    ensures var act, status := ActOf(th, s, t), Next(th, s, t).status;
            && (status == Success ==> act == UpClean || (act == Idle && s.status == Success))
            && (s.status == Success && status == Error ==> act == Down)
            && (s.status == Error && status == Success ==> act == UpClean)
  {
    hide StepOf, Move;
  }

  lemma StartsCollecting(th: Thresholds, m: nat, run: seq<Tick>)
    requires Shaped(m, run)
    ensures After(th, m, run[..0]).status == Collecting
  {
    assert run[..0] == [];
  }

  /** The status is `Success` only since a clean raise, with nothing done after it. */
  lemma {:induction false} LastUp(th: Thresholds, m: nat, run: seq<Tick>, n: nat) returns (h: nat)
    requires Shaped(m, run) && n <= |run| && After(th, m, run[..n]).status == Success
    ensures h < n && ActAt(th, m, run, h) == UpClean
    ensures forall a :: h < a < n ==> ActAt(th, m, run, a) == Idle
  {
    hide After, ActOf, Next;
    if n == 0 {
      StartsCollecting(th, m, run);
    } else {
      AfterOneMore(th, m, run, n - 1);
      ActOfChange(th, After(th, m, run[..n - 1]), run[n - 1]);
      if ActAt(th, m, run, n - 1) == Idle {
        h := LastUp(th, m, run, n - 1);
      } else {
        h := n - 1;
      }
    }
  }

  /** How many good results a checker can have had in a row when it brings the addresses
      down: those before it has made enough checks to report. */
  function Late(th: Thresholds): nat {
    Max(0, FirstReport(th) - Limit(th))
  }

  /** A withdrawal of addresses that were up finds a checker that failed, not more than this
      many checks ago; in this very tick if all checkers had reported. */
  lemma DownFinds(th: Thresholds, m: nat, run: seq<Tick>, i: nat) returns (k: nat)
    requires Shaped(m, run) && i < |run|
    requires ActAt(th, m, run, i) == Down && After(th, m, run[..i]).status == Success
    ensures k < m
    ensures var c := After(th, m, run[..i + 1]).counters[k];
            && c.failed > 0 && c.success <= Late(th)
            && (AllReport(th, After(th, m, run[..i])) ==> c.success == 0)
  {
    hide After, Observe;
    var s, t := After(th, m, run[..i]), run[i];
    AfterOneMore(th, m, run, i);
    SoundHolds(th, m, run[..i]);
    var cs := Move(th, s.counters, t.obs);
    var reports := Reports(th, cs, t.obs);
    k :| 0 <= k < |reports| && reports[k] == Error;
    LateFailure(th, s.counters[k], t.obs[k]);
  }

  /** A checker that becomes an error only now has failed now, or has just made its first
      report. */
  lemma LateFailure(th: Thresholds, c: Counters, o: Observation)
    requires Report(th, Observe(th, c, o), o) == Error
    requires c.checked < MAX_INT32 ==> c.failed + c.success <= c.checked
    requires c.checked >= th.checkCount ==> c.failed < Limit(th)
    ensures var e := Observe(th, c, o);
            && e.failed > 0 && e.success <= Late(th)
            && (c.checked >= th.checkCount ==> e.success == 0)
  {
  }

  /** What holds the addresses down e ticks after the withdrawal: failures that have not been
      forgotten, or a fresh start; or else the time has passed. */
  predicate HeldFor(th: Thresholds, c: Counters, late: nat, resets: bool, e: nat) {
    || (c.failed > 0 && c.success <= late + e)
    || (resets && 1 + c.checked <= e)
    || Passed(th, late, resets, e)
  }

  predicate Passed(th: Thresholds, late: nat, resets: bool, e: nat) {
    late + e >= Window(th) || (resets && e >= 1 + FirstReport(th))
  }

  lemma HeldOneMore(th: Thresholds, c: Counters, o: Observation, late: nat, resets: bool, e: nat)
    requires HeldFor(th, c, late, resets, e) && (resets || o != Reset)
    ensures HeldFor(th, Observe(th, c, o), late, resets, e + 1)
    ensures Report(th, Observe(th, c, o), o) == Success ==> Passed(th, late, resets, e + 1)
  {
    hide Observe;
    ObserveGrows(th, c, o);
  }

  lemma {:induction false} HeldSince(th: Thresholds, m: nat, run: seq<Tick>, i: nat, n: nat, k: nat, late: nat,
                                     resets: bool)
    requires Shaped(m, run) && i < n <= |run| && k < m && (resets || ResultsBetween(run, i + 1, n))
    requires HeldFor(th, After(th, m, run[..i + 1]).counters[k], late, resets, 0)
    ensures HeldFor(th, After(th, m, run[..n]).counters[k], late, resets, n - i - 1)
  {
    hide After, NoReset, HeldFor, Observe;
    if n > i + 1 {
      HeldSince(th, m, run, i, n - 1, k, late, resets);
      AfterOneMore(th, m, run, n - 1);
      var s, t := After(th, m, run[..n - 1]), run[n - 1];
      if !resets {
        assert NoReset(t.obs);
        NoResetAt(t.obs, k);
      }
      HeldOneMore(th, s.counters[k], t.obs[k], late, resets, n - i - 2);
    }
  }

  lemma NoResetAt(obs: seq<Observation>, k: nat)
    requires NoReset(obs) && k < |obs|
    ensures obs[k] != Reset
  {
  }

  /** A raise is tried only when the time has passed. */
  lemma RaiseMeansPassed(th: Thresholds, m: nat, run: seq<Tick>, i: nat, j: nat, k: nat, late: nat, resets: bool)
    requires Shaped(m, run) && i < j < |run| && k < m && (resets || ResultsBetween(run, i + 1, j + 1))
    requires HeldFor(th, After(th, m, run[..i + 1]).counters[k], late, resets, 0)
    requires ActAt(th, m, run, j) in {UpClean, UpFailed}
    ensures Passed(th, late, resets, j - i)
  {
    hide After, NoReset, HeldFor, Observe, Passed;
    HeldSince(th, m, run, i, j, k, late, resets);
    AfterOneMore(th, m, run, j);
    var s, t := After(th, m, run[..j]), run[j];
    var reports := Reports(th, Move(th, s.counters, t.obs), t.obs);
    assert reports[k] == Success;
    if !resets {
      assert NoReset(t.obs);
      NoResetAt(t.obs, k);
    }
    HeldOneMore(th, s.counters[k], t.obs[k], late, resets, j - i - 1);
  }

  /** The shortest time for which addresses that were up can be down. */
  function ShortestDown(th: Thresholds): nat {
    Min(1 + FirstReport(th), Max(1, Window(th) - Late(th)))
  }

  /** In tick i addresses that were up are withdrawn, in tick j a raise is tried. */
  predicate DownFromTo(th: Thresholds, m: nat, run: seq<Tick>, i: nat, j: nat) {
    && Shaped(m, run) && i < j < |run|
    && ActAt(th, m, run, i) == Down && After(th, m, run[..i]).status == Success
    && ActAt(th, m, run, j) in {UpClean, UpFailed}
  }

  /** Addresses that were up and are withdrawn are not raised again, or tried to be, before
      this time, in any run. */
  lemma DownTime(th: Thresholds, m: nat, run: seq<Tick>, i: nat, j: nat)
    requires DownFromTo(th, m, run, i, j)
    ensures j - i >= ShortestDown(th)
  {
    hide After, ActAt;
    var k := DownFinds(th, m, run, i);
    RaiseMeansPassed(th, m, run, i, j, k, Late(th), true);
  }

  /** If since the clean raise every check has had a result, they stay down for at least
      resetCount ticks. */
  lemma DownTimeWithResults(th: Thresholds, m: nat, run: seq<Tick>, h: nat, i: nat, j: nat)
    requires DownFromTo(th, m, run, i, j) && h < i
    requires ActAt(th, m, run, h) == UpClean && ResultsBetween(run, h + 1, j + 1)
    ensures j - i >= Window(th)
  {
    hide After, ActAt, NoReset;
    ReportsSinceUp(th, m, run, h, i);
    var k := DownFinds(th, m, run, i);
    RaiseMeansPassed(th, m, run, i, j, k, 0, false);
  }

  // ---------------------------------------------------------------- the bound is attained

  /** Every raise would be clean. */
  predicate AllClean(run: seq<Tick>) {
    forall n :: 0 <= n < |run| ==> run[n].clean
  }

  /** A run of one checker, and where it leads. */
  predicate At(th: Thresholds, resets: bool, run: seq<Tick>, c: Counters, status: State, d: nat) {
    && Shaped(1, run)
    && AllClean(run)
    && (resets || AlwaysResult(run))
    && After(th, 1, run) == System([c], status)
    && Downs(th, 1, run) == d
  }

  /** What the loop makes of the only checker's state. */
  function Combined(v: State): State {
    if v == Success || v == Error then v else Collecting
  }

  lemma OneObservation(th: Thresholds, resets: bool, run: seq<Tick>, c: Counters, status: State, d: nat, o: Observation)
    returns (next: seq<Tick>)
    requires At(th, resets, run, c, status, d) && (resets || o != Reset)
    ensures |next| == |run| + 1 && run <= next
    ensures var e := Observe(th, c, o);
            var r := Decide(status, Combined(Report(th, e, o)), true);
            At(th, resets, next, e, r.0, d + if r.1 == Down then 1 else 0)
  {
    hide Observe, Decide;
    var t := Tick([o], true);
    next := run + [t];
    assert next[..|run|] == run;
    var s := System([c], status);
    var e := Observe(th, c, o);
    assert Move(th, s.counters, t.obs) == [e];
    assert Reports(th, [e], t.obs) == [Report(th, e, o)];
    assert [Report(th, e, o)][0] == Report(th, e, o);
    assert StepOf(th, s, t) == Combined(Report(th, e, o));
  }

  lemma OneTick(th: Thresholds, resets: bool, run: seq<Tick>, c: Counters, status: State, d: nat, ok: bool)
    returns (next: seq<Tick>)
    requires At(th, resets, run, c, status, d)
    ensures |next| == |run| + 1 && run <= next
    ensures var e := Apply(th, c, ok);
            var r := Decide(status, Combined(Verdict(th, e)), true);
            At(th, resets, next, e, r.0, d + if r.1 == Down then 1 else 0)
  {
    hide At, Apply, Decide;
    next := OneObservation(th, resets, run, c, status, d, if ok then Good else Bad);
  }

  lemma {:induction false} LeadIn(th: Thresholds, resets: bool, k: nat) returns (run: seq<Tick>)
    requires Fits(th) && (k > 0 ==> k < th.checkCount)
    ensures |run| == k && At(th, resets, run, Counters(0, k, k), Collecting, 0)
  {
    hide At, Downs, After;
    if k == 0 {
      run := [];
      NothingYet(th, resets);
    } else {
      run := LeadIn(th, resets, k - 1);
      run := OneTick(th, resets, run, Counters(0, k - 1, k - 1), Collecting, 0, true);
    }
  }

  lemma NothingYet(th: Thresholds, resets: bool)
    ensures At(th, resets, [], ZERO, Collecting, 0)
  {
    assert Start(1).counters == [ZERO];
  }

  /** The status and the downs once the first failures have been made, in a run of n ticks. */
  function Early(th: Thresholds, n: nat): (State, nat) {
    if n >= th.checkCount then (Error, 1) else (Collecting, 0)
  }

  lemma {:induction false} FirstFailures(th: Thresholds, resets: bool, lead: nat, k: nat) returns (run: seq<Tick>)
    requires Fits(th) && (lead > 0 ==> lead < th.checkCount) && 0 < k <= Limit(th)
    ensures |run| == lead + k
    ensures var e := if k < Limit(th) then (Collecting, 0) else Early(th, lead + k);
            At(th, resets, run, Counters(k, 0, Capped(lead + k)), e.0, e.1)
  {
    hide At, Downs, After;
    if k == 1 {
      run := LeadIn(th, resets, lead);
      run := OneTick(th, resets, run, Counters(0, lead, lead), Collecting, 0, false);
    } else {
      run := FirstFailures(th, resets, lead, k - 1);
      run := OneTick(th, resets, run, Counters(k - 1, 0, Capped(lead + k - 1)), Collecting, 0, false);
    }
  }

  lemma {:induction false} FirstGoods(th: Thresholds, resets: bool, lead: nat, k: nat) returns (run: seq<Tick>)
    requires Fits(th) && (lead > 0 ==> lead < th.checkCount) && k < Window(th)
    ensures |run| == lead + Limit(th) + k
    ensures var e := Early(th, |run|);
            At(th, resets, run, Counters(Limit(th), k, Capped(|run|)), e.0, e.1)
  {
    hide At, Downs, After;
    if k == 0 {
      run := FirstFailures(th, resets, lead, Limit(th));
    } else {
      run := FirstGoods(th, resets, lead, k - 1);
      var n := |run|;
      run := OneTick(th, resets, run, Counters(Limit(th), k - 1, Capped(n)), Early(th, n).0, Early(th, n).1, true);
    }
  }

  /** The fastest run to a clean raise after one down when good results forget failures. */
  lemma FirstUpByWindow(th: Thresholds, resets: bool) returns (run: seq<Tick>)
    requires Fits(th)
    ensures |run| == FirstUp(th, false)
    ensures At(th, resets, run, Counters(0, Window(th), Capped(|run|)), Success, 1)
  {
    hide At, Downs, After;
    var least := Limit(th) + Window(th);
    var lead := Max(0, FirstReport(th) + 1 - least);
    run := FirstGoods(th, resets, lead, Window(th) - 1);
    var n := |run|;
    var c := Counters(Limit(th), Window(th) - 1, Capped(n));
    run := OneTick(th, resets, run, c, Early(th, n).0, Early(th, n).1, true);
  }

  lemma {:induction false} ThenFail(th: Thresholds, resets: bool, start: seq<Tick>, c: Counters, d: nat, k: nat)
    returns (run: seq<Tick>, checked: nat)
    requires Fits(th) && c.failed == 0 && c.checked >= th.checkCount && 0 < k <= Limit(th)
    requires At(th, resets, start, c, Success, d)
    ensures |run| == |start| + k && start <= run && checked >= th.checkCount
    ensures At(th, resets, run, Counters(k, 0, checked),
               if k < Limit(th) then Success else Error, if k < Limit(th) then d else d + 1)
  {
    hide At, Downs, After;
    var before := c;
    run := start;
    if k > 1 {
      run, checked := ThenFail(th, resets, start, c, d, k - 1);
      before := Counters(k - 1, 0, checked);
    }
    run := OneTick(th, resets, run, before, Success, d, false);
    checked := Increment(before.checked);
    assert Apply(th, before, false) == Counters(k, 0, checked);
  }

  lemma {:induction false} ThenSucceed(th: Thresholds, resets: bool, start: seq<Tick>, c: Counters, d: nat, k: nat)
    returns (run: seq<Tick>, checked: nat)
    requires Fits(th) && c.checked >= th.checkCount && c.failed >= Limit(th)
    requires c.success < Window(th) && c.success + k <= Window(th)
    requires At(th, resets, start, c, Error, d)
    ensures |run| == |start| + k && start <= run && checked >= th.checkCount
    ensures var n := c.success + k;
            At(th, resets, run, Counters(if n < Window(th) then c.failed else 0, n, checked),
               if n < Window(th) then Error else Success, d)
  {
    hide At, Downs, After;
    if k == 0 {
      run, checked := start, c.checked;
    } else {
      run, checked := ThenSucceed(th, resets, start, c, d, k - 1);
      var before := Counters(c.failed, c.success + k - 1, checked);
      run := OneTick(th, resets, run, before, Error, d, true);
      assert Apply(th, before, true) ==
             Counters(if c.success + k < Window(th) then c.failed else 0, c.success + k, Increment(checked));
      checked := Increment(checked);
    }
  }

  /** A check without a result, and then good ones until the checker reports again. */
  lemma {:induction false} ThenStartAfresh(th: Thresholds, start: seq<Tick>, c: Counters, d: nat, k: nat)
    returns (run: seq<Tick>)
    requires Fits(th) && k <= FirstReport(th)
    requires At(th, true, start, c, Error, d)
    ensures |run| == |start| + 1 + k && start <= run
    ensures At(th, true, run, Counters(0, k, k), if k < FirstReport(th) then Error else Success, d)
  {
    hide At, Downs, After;
    if k == 0 {
      run := OneObservation(th, true, start, c, Error, d, Reset);
    } else {
      run := ThenStartAfresh(th, start, c, d, k - 1);
      run := OneTick(th, true, run, Counters(0, k - 1, k - 1), Error, d, true);
    }
  }

  lemma FastestFirstDown(th: Thresholds, resets: bool) returns (run: seq<Tick>, checked: nat)
    requires Fits(th)
    ensures |run| == FirstDown(th) && checked >= th.checkCount
    ensures At(th, resets, run, Counters(Limit(th), 0, checked), Error, 1)
  {
    hide At, Downs, After;
    var lead := Max(0, FirstReport(th) - Limit(th));
    run := FirstFailures(th, resets, lead, Limit(th));
    checked := Capped(|run|);
  }

  lemma {:induction false} FastestUp(th: Thresholds, resets: bool, d: nat) returns (run: seq<Tick>, c: Counters)
    requires Fits(th) && d >= 1
    ensures |run| == EarliestUp(th, resets, d)
    ensures c.failed == 0 && c.checked >= th.checkCount && At(th, resets, run, c, Success, d)
    decreases d, 1
  {
    hide At, Downs, After;
    if d == 1 && FirstUp(th, resets) == FirstUp(th, false) {
      run := FirstUpByWindow(th, resets);
      c := Counters(0, Window(th), Capped(|run|));
    } else {
      var checked;
      run, checked := FastestRun(th, resets, d);
      if d > 1 && Gap(th, resets) == Window(th) {
        run, checked := ThenSucceed(th, resets, run, Counters(Limit(th), 0, checked), d, Window(th));
        c := Counters(0, Window(th), checked);
      } else {
        run := ThenStartAfresh(th, run, Counters(Limit(th), 0, checked), d, FirstReport(th));
        c := Counters(0, FirstReport(th), FirstReport(th));
      }
    }
  }

  lemma {:induction false} FastestRun(th: Thresholds, resets: bool, d: nat) returns (run: seq<Tick>, checked: nat)
    requires Fits(th) && d >= 1
    ensures |run| == Earliest(th, resets, d) && checked >= th.checkCount
    ensures At(th, resets, run, Counters(Limit(th), 0, checked), Error, d)
    decreases d, 0
  {
    hide At, Downs, After;
    if d == 1 {
      run, checked := FastestFirstDown(th, resets);
    } else {
      var c;
      run, c := FastestUp(th, resets, d - 1);
      run, checked := ThenFail(th, resets, run, c, d - 1, Limit(th));
    }
  }

  /** Both bounds on flapping are the best there are: for all thresholds that fit in 32 bits
      and every number of downs, one checker can make the loop flap that fast, with checks
      that have no result or, if resets is false, without any. */
  lemma FlapBoundIsAttained(th: Thresholds, resets: bool, d: nat) returns (run: seq<Tick>)
    requires Fits(th)
    ensures Shaped(1, run) && AllClean(run) && (resets || AlwaysResult(run))
    ensures Downs(th, 1, run) == d && |run| == Fastest(th, resets, d)
  {
    hide Fastest;
    if d == 0 {
      run := [];
      NothingYet(th, resets);
    } else {
      var checked;
      run, checked := FastestRun(th, resets, d);
    }
    EarliestIs(th, resets, d);
  }

  // ---------------------------------------------------------------- the shortest down-time is attained

  /** A run in which tick i withdraws and tick j raises addresses, told by where its parts
      lead. */
  lemma ActsOfParts(th: Thresholds, up: seq<Tick>, down: seq<Tick>, held: seq<Tick>, run: seq<Tick>,
                    a: Counters, b: Counters, c: Counters, e: Counters, d: nat)
    requires At(th, true, up, a, Success, d) && At(th, true, down, b, Error, d + 1)
    requires At(th, true, held, c, Error, d + 1) && At(th, true, run, e, Success, d + 1)
    requires |down| == |up| + 1 && |run| == |held| + 1 && up <= down <= held <= run
    ensures DownFromTo(th, 1, run, |up|, |held|)
  {
    hide After, ActOf, Next, Downs;
    assert run[..|up|] == up && run[..|up| + 1] == down;
    assert run[..|held|] == held && run[..|held| + 1] == run;
    AfterOneMore(th, 1, run, |up|);
    AfterOneMore(th, 1, run, |held|);
    ActOfChange(th, After(th, 1, up), run[|up|]);
    ActOfChange(th, After(th, 1, held), run[|held|]);
  }

  /** Up, failCount failures, and either a whole window of good results or a fresh start. */
  lemma DownAfterFailures(th: Thresholds, afresh: bool) returns (run: seq<Tick>, i: nat, j: nat)
    requires Fits(th)
    ensures DownFromTo(th, 1, run, i, j) && AllClean(run)
    ensures j - i == if afresh then 1 + FirstReport(th) else Window(th)
  {
    hide Downs, After, At, DownFromTo;
    var up, a := FastestUp(th, true, 1);
    if Limit(th) > 1 {
      var checked;
      up, checked := ThenFail(th, true, up, a, 1, Limit(th) - 1);
      a := Counters(Limit(th) - 1, 0, checked);
    }
    var down := OneTick(th, true, up, a, Success, 1, false);
    var b := Apply(th, a, false);
    assert b == Counters(Limit(th), 0, Increment(a.checked));
    var held, c;
    if afresh {
      held := ThenStartAfresh(th, down, b, 2, FirstReport(th) - 1);
      c := Counters(0, FirstReport(th) - 1, FirstReport(th) - 1);
    } else {
      var checked;
      held, checked := ThenSucceed(th, true, down, b, 2, Window(th) - 1);
      c := Counters(Limit(th), Window(th) - 1, checked);
    }
    run := OneTick(th, true, held, c, Error, 2, true);
    ActsOfParts(th, up, down, held, run, a, b, c, Apply(th, c, true), 1);
    i, j := |up|, |held|;
    AtIsClean(th, run, Apply(th, c, true), Success, 2);
  }

  lemma AtIsClean(th: Thresholds, run: seq<Tick>, c: Counters, status: State, d: nat)
    requires At(th, true, run, c, status, d)
    ensures AllClean(run)
  {
  }

  /** While a checker that started afresh does not report, its failures are not seen. */
  lemma {:induction false} UnseenFailures(th: Thresholds, start: seq<Tick>, c: Counters, d: nat, k: nat)
    returns (run: seq<Tick>)
    requires Fits(th) && k < th.checkCount
    requires At(th, true, start, c, Success, d)
    ensures |run| == |start| + 1 + k && At(th, true, run, Counters(k, 0, k), Success, d)
  {
    hide At, Downs, After;
    if k == 0 {
      run := OneObservation(th, true, start, c, Success, d, Reset);
    } else {
      run := UnseenFailures(th, start, c, d, k - 1);
      run := OneTick(th, true, run, Counters(k - 1, 0, k - 1), Success, d, false);
    }
  }

  lemma {:induction false} UnseenGoods(th: Thresholds, start: seq<Tick>, b: nat, d: nat, k: nat)
    returns (run: seq<Tick>)
    requires Fits(th) && b + k < th.checkCount && k < Window(th)
    requires At(th, true, start, Counters(b, 0, b), Success, d)
    ensures |run| == |start| + k && At(th, true, run, Counters(b, k, b + k), Success, d)
  {
    hide At, Downs, After;
    if k == 0 {
      run := start;
    } else {
      run := UnseenGoods(th, start, b, d, k - 1);
      run := OneTick(th, true, run, Counters(b, k - 1, b + k - 1), Success, d, true);
    }
  }

  /** Up, a check without a result, enough failures while the checker does not report, and
      then good results, with the last of which it reports the old failures. */
  lemma DownAfterRecovery(th: Thresholds) returns (run: seq<Tick>, i: nat, j: nat)
    requires Fits(th) && Late(th) > 0 && Window(th) > 1
    ensures DownFromTo(th, 1, run, i, j) && AllClean(run)
    ensures j - i == Max(1, Window(th) - Late(th))
  {
    hide Downs, After, At, DownFromTo;
    var goods := Min(Late(th), Window(th) - 1);
    var bads := FirstReport(th) - goods;
    var up, a := FastestUp(th, true, 1);
    up := UnseenFailures(th, up, a, 1, bads);
    up := UnseenGoods(th, up, bads, 1, goods - 1);
    a := Counters(bads, goods - 1, bads + goods - 1);
    var down := OneTick(th, true, up, a, Success, 1, true);
    var b := Apply(th, a, true);
    assert b == Counters(bads, goods, FirstReport(th));
    var held, checked := ThenSucceed(th, true, down, b, 2, Window(th) - goods - 1);
    var c := Counters(bads, Window(th) - 1, checked);
    run := OneTick(th, true, held, c, Error, 2, true);
    ActsOfParts(th, up, down, held, run, a, b, c, Apply(th, c, true), 1);
    i, j := |up|, |held|;
    AtIsClean(th, run, Apply(th, c, true), Success, 2);
  }

  /** The bound on down-times is the best there is: for all thresholds that fit in 32 bits
      one checker attains it. */
  lemma ShortestDownIsAttained(th: Thresholds) returns (run: seq<Tick>, i: nat, j: nat)
    requires Fits(th)
    ensures DownFromTo(th, 1, run, i, j) && AllClean(run) && j - i == ShortestDown(th)
  {
    hide DownFromTo;
    if 1 + FirstReport(th) <= Max(1, Window(th) - Late(th)) {
      run, i, j := DownAfterFailures(th, true);
    } else if Late(th) == 0 || Window(th) == 1 {
      run, i, j := DownAfterFailures(th, false);
    } else {
      run, i, j := DownAfterRecovery(th);
    }
  }

  /** Every down-time, of any number of checkers in any run, is at least resetCount ticks. */
  ghost predicate DownsLast(th: Thresholds) {
    forall m: nat, run: seq<Tick>, i: nat, j: nat :: DownFromTo(th, m, run, i, j) ==> j - i >= Window(th)
  }

  /** That holds exactly when resetCount is at most 1, or neither a fresh start is faster than
      a window of good results nor a checker can report failures after it has recovered. */
  lemma DownsLastIff(th: Thresholds)
    requires Fits(th)
    ensures DownsLast(th) <==>
            Window(th) == 1 || (Window(th) <= 1 + FirstReport(th) && FirstReport(th) <= Limit(th))
  {
    hide DownFromTo;
    if ShortestDown(th) >= Window(th) {
      forall m: nat, run: seq<Tick>, i: nat, j: nat | DownFromTo(th, m, run, i, j) ensures j - i >= Window(th) {
        DownTime(th, m, run, i, j);
      }
    } else {
      var run, i, j := ShortestDownIsAttained(th);
    }
  }

  // ---------------------------------------------------------------- reaction

  /** One checker has only bad results in these ticks. */
  predicate Fails(run: seq<Tick>, k: nat, a: nat, b: nat)
    requires b <= |run|
  {
    forall n :: a <= n < b ==> k < |run[n].obs| && run[n].obs[k] == Bad
  }

  lemma {:induction false} FailuresAdd(th: Thresholds, m: nat, run: seq<Tick>, k: nat, a: nat, n: nat)
    requires Shaped(m, run) && k < m && a <= n <= |run| && Fails(run, k, a, n)
    ensures After(th, m, run[..n]).counters[k].failed >= Capped(n - a)
    ensures After(th, m, run[..n]).counters[k].checked >=
            Capped(After(th, m, run[..a]).counters[k].checked + n - a)
  {
    hide After;
    if n > a {
      FailuresAdd(th, m, run, k, a, n - 1);
      AfterOneMore(th, m, run, n - 1);
      CheckedIsCapped(th, m, run[..a], k);
    } else {
      CheckedIsCapped(th, m, run[..a], k);
    }
  }

  lemma {:induction false} CheckedIsCapped(th: Thresholds, m: nat, run: seq<Tick>, k: nat)
    requires Shaped(m, run) && k < m
    ensures After(th, m, run).counters[k].checked <= MAX_INT32
  {
    if run != [] {
      CheckedIsCapped(th, m, run[..|run| - 1], k);
    }
  }

  /** When a checker has failed without a break for failCount ticks or more, and has made
      checkCount checks by then, the status is `Error`. */
  lemma FailureIsNoticed(th: Thresholds, m: nat, run: seq<Tick>, k: nat, n: nat)
    requires Fits(th) && Shaped(m, run) && k < m && n + Limit(th) <= |run| && Fails(run, k, n, |run|)
    requires After(th, m, run[..n]).counters[k].checked + |run| - n >= th.checkCount
    ensures After(th, m, run).status == Error
  {
    hide After;
    var last := |run| - 1;
    FailuresAdd(th, m, run, k, n, |run|);
    AfterOneMore(th, m, run, last);
    assert run[..|run|] == run;
    var s, t := After(th, m, run[..last]), run[last];
    var reports := Reports(th, Move(th, s.counters, t.obs), t.obs);
    assert t.obs[k] == Bad;
    assert reports[k] == Error;
  }

  /** All checkers have only good results in these ticks. */
  predicate Succeeds(run: seq<Tick>, a: nat, b: nat)
    requires b <= |run|
  {
    forall n :: a <= n < b ==> AllGood(run[n].obs)
  }

  predicate AllGood(obs: seq<Observation>) {
    forall k :: 0 <= k < |obs| ==> obs[k] == Good
  }

  lemma {:induction false} SuccessesAdd(th: Thresholds, m: nat, run: seq<Tick>, k: nat, a: nat, n: nat)
    requires Shaped(m, run) && k < m && a <= n <= |run| && Succeeds(run, a, n)
    ensures var c := After(th, m, run[..n]).counters[k];
            && c.success >= Capped(n - a) && c.checked >= Capped(n - a)
            && (n - a >= Window(th) && Window(th) <= MAX_INT32 ==> c.failed == 0)
  {
    hide After, AllGood;
    if n > a {
      SuccessesAdd(th, m, run, k, a, n - 1);
      AfterOneMore(th, m, run, n - 1);
      assert AllGood(run[n - 1].obs);
      GoodAt(run[n - 1].obs, k);
    }
  }

  lemma GoodAt(obs: seq<Observation>, k: nat)
    requires AllGood(obs) && k < |obs|
    ensures obs[k] == Good
  {
  }

  /** When all checkers have succeeded without a break for resetCount and for checkCount
      ticks, the status is `Success` if it was before the last tick or if a raise in that tick
      is clean, else `Error`. */
  lemma RecoveryIsNoticed(th: Thresholds, m: nat, run: seq<Tick>, n: nat)
    requires Fits(th) && Shaped(m, run) && n + Max(Window(th), FirstReport(th)) <= |run|
    requires Succeeds(run, n, |run|)
    ensures Shaped(m, run[..|run| - 1])
    ensures var before, last := After(th, m, run[..|run| - 1]), run[|run| - 1];
            After(th, m, run).status == if before.status == Success || last.clean then Success else Error
  {
    hide After, AllGood;
    var last := |run| - 1;
    AfterOneMore(th, m, run, last);
    assert run[..|run|] == run;
    var s, t := After(th, m, run[..last]), run[last];
    var cs := Move(th, s.counters, t.obs);
    var reports := Reports(th, cs, t.obs);
    assert AllGood(t.obs);
    forall k | 0 <= k < m ensures reports[k] == Success {
      SuccessesAdd(th, m, run, k, n, |run|);
      GoodAt(t.obs, k);
    }
  }
}
