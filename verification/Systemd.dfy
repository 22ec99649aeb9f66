/**
  The service checker: it tracks the main process of a systemd unit, so that a
  process that was replaced between two ticks counts as a failure even when the unit
  is running again.
 */
module Systemd {
  import opened Checker
  import opened Hysteresis

  datatype Proc = Proc(pid: int, ppid: int, procName: string, startTime: int)

  datatype UnitState = UnitStarted | UnitStopped | UnitFailed | UnitNotFound | UnitUnknown

  datatype Service = Service(procName: string, pid: int, state: UnitState)

  /** What /proc says about a process id: the process, that there is none, or an
      error of its own. */
  datatype Lookup =
    | Found(ppid: int, procName: string, startTime: int)
    | NotExist
    | LookupFailed(text: string)

  /** The outside world during one tick: the answers of systemd and of the one
      look-up in /proc that a tick makes. */
  datatype Probe = Probe(service: Service, serviceErr: ErrorText, lookup: Lookup)

  const SYSTEMD_PID := 1

  function ProcInfo(pid: int, lookup: Lookup): Proc
    requires lookup.Found?
  {
    Proc(pid, lookup.ppid, lookup.procName, lookup.startTime)
  }

  /** What a tick finds: the tracked process, a failure, or no result at all. */
  datatype Finding = Healthy(proc: Proc) | Unhealthy | Broken(text: string)

  function Inspect(process: Option<Proc>, p: Probe): Finding {
    if process.Some? then
      match p.lookup
      case LookupFailed(text) => Broken(text)
      case NotExist => Unhealthy
      case Found(_, _, _) =>
        if ProcInfo(process.value.pid, p.lookup) != process.value then Unhealthy else Healthy(process.value)
    else if p.serviceErr.Some? then
      if p.service.state == UnitUnknown then Broken(p.serviceErr.value) else Unhealthy
    else
      match p.lookup
      case NotExist => Unhealthy
      case LookupFailed(text) => Broken(text)
      case Found(ppid, procName, _) =>
        if ppid != SYSTEMD_PID || procName != p.service.procName then Unhealthy
        else Healthy(ProcInfo(p.service.pid, p.lookup))
  }

  function Observed(f: Finding): Observation {
    match f
    case Healthy(_) => Good
    case Unhealthy => Bad
    case Broken(_) => Reset
  }

  datatype ServiceView = ServiceView(process: Option<Proc>, counters: Counters, status: State, event: string)

  const FRESH := ServiceView(None, ZERO, Collecting, "")

  /** The status field keeps its old value when the look-up of a tracked process fails. */
  function ServiceStep(th: Thresholds, v: ServiceView, p: Probe): ServiceView {
    var f := Inspect(v.process, p);
    var counters := Observe(th, v.counters, Observed(f));
    match f
    case Healthy(proc) => ServiceView(Some(proc), counters, Verdict(th, counters), v.event)
    case Unhealthy => ServiceView(None, counters, Verdict(th, counters), v.event)
    case Broken(text) => ServiceView(v.process, counters, if v.process.Some? then v.status else Unknown, text)
  }

  /** The state that `Status` returns. */
  function Reported(th: Thresholds, v: ServiceView, p: Probe): State {
    if Inspect(v.process, p).Broken? then Unknown else Verdict(th, ServiceStep(th, v, p).counters)
  }

  /** The events that `Status` returns: an error text that is not the last one logged. */
  function Logged(v: ServiceView, p: Probe): seq<string> {
    match Inspect(v.process, p)
    case Broken(text) => if text != v.event then [text] else []
    case _ => []
  }

  // ---------------------------------------------------------------- runs

  function ServiceRun(th: Thresholds, ps: seq<Probe>): ServiceView {
    if ps == [] then FRESH else ServiceStep(th, ServiceRun(th, ps[..|ps| - 1]), ps[|ps| - 1])
  }

  function Observations(th: Thresholds, ps: seq<Probe>): (os: seq<Observation>)
    ensures |os| == |ps|
  {
    if ps == [] then []
    else
      var front := ps[..|ps| - 1];
      Observations(th, front) + [Observed(Inspect(ServiceRun(th, front).process, ps[|ps| - 1]))]
  }

  lemma OneMoreTick(th: Thresholds, ps: seq<Probe>, p: Probe)
    ensures ServiceRun(th, ps + [p]) == ServiceStep(th, ServiceRun(th, ps), p)
  {
    assert (ps + [p])[..|ps|] == ps;
  }

  /** For every run of process and systemd answers the counters are those of the
      network checker's automaton on the ticks since the last one without a result. */
  lemma ServiceSimulatesAutomaton(th: Thresholds, ps: seq<Probe>)
    ensures ServiceRun(th, ps).counters == Hysteresis.Run(th, Counted(Observations(th, ps)))
  {
    CountersFollow(th, ps);
    ResetForgetsTheRest(th, Observations(th, ps));
  }

  lemma {:induction false} CountersFollow(th: Thresholds, ps: seq<Probe>)
    ensures ServiceRun(th, ps).counters == RunObserved(th, Observations(th, ps))
  {
    if ps != [] {
      CountersFollow(th, ps[..|ps| - 1]);
      var os := Observations(th, ps);
      assert os[..|os| - 1] == Observations(th, ps[..|ps| - 1]);
    }
  }

  /** What is reported after a tick: `Unknown` exactly when the tick had no result,
      else the state promised for the ticks since the last one that had none. */
  lemma ServiceKeepsPromise(th: Thresholds, ps: seq<Probe>, p: Probe)
    requires Fits(th)
    ensures var os, s := Observations(th, ps + [p]), Reported(th, ServiceRun(th, ps), p);
            && (s == Unknown <==> os[|os| - 1] == Reset)
            && (s != Unknown ==> s == Promised(th, Counted(os)))
  {
    var all := ps + [p];
    assert all[..|all| - 1] == ps;
    ServiceSimulatesAutomaton(th, all);
    VerdictKeepsPromise(th, Counted(Observations(th, all)));
  }

  /** While a process is tracked the status is known. */
  lemma {:induction false} TrackedIsKnown(th: Thresholds, ps: seq<Probe>)
    ensures ServiceRun(th, ps).process.Some? ==> ServiceRun(th, ps).status != Unknown
  {
    hide Observe;
    if ps != [] {
      TrackedIsKnown(th, ps[..|ps| - 1]);
    }
  }

  /** A process is tracked after these ticks, and its look-up fails in the next. */
  predicate Stale(th: Thresholds, ps: seq<Probe>, p: Probe) {
    ServiceRun(th, ps).process.Some? && p.lookup.LookupFailed?
  }

  /** The metric of a tick shows another state than the one reported exactly then. */
  lemma MetricIsStaleIff(th: Thresholds, ps: seq<Probe>, p: Probe)
    ensures ServiceRun(th, ps + [p]).status != Reported(th, ServiceRun(th, ps), p) <==> Stale(th, ps, p)
  {
    hide ServiceRun, Observe;
    OneMoreTick(th, ps, p);
    TrackedIsKnown(th, ps);
  }

  /** The metric of a healthy service stays at `Success` while the checker reports
      `Unknown`. */
  lemma MetricCanBeStale() returns (th: Thresholds, ps: seq<Probe>, p: Probe)
    ensures ServiceRun(th, ps).status == Success == ServiceRun(th, ps + [p]).status
    ensures Reported(th, ServiceRun(th, ps), p) == Unknown && Stale(th, ps, p)
  {
    th := Thresholds(1, 1, 1);
    ps := [Probe(Service("relay", 7, UnitStarted), None, Found(SYSTEMD_PID, "relay", 0))];
    p := Probe(Service("relay", 7, UnitStarted), None, LookupFailed("permission denied"));
    assert ps[..0] == [];
    assert ServiceRun(th, []) == FRESH;
    OneMoreTick(th, ps, p);
  }

  /** All events of a run. */
  function ServiceLog(th: Thresholds, ps: seq<Probe>): seq<string> {
    if ps == [] then []
    else ServiceLog(th, ps[..|ps| - 1]) + Logged(ServiceRun(th, ps[..|ps| - 1]), ps[|ps| - 1])
  }

  function LastLogged(log: seq<string>): string {
    if log == [] then "" else log[|log| - 1]
  }

  /** Whoever reads the events knows the error of every tick without a result, which is the
      latest one logged, and is never told the same error twice in a row. */
  lemma {:induction false} LogTellsEveryError(th: Thresholds, ps: seq<Probe>)
    ensures ServiceRun(th, ps).event == LastLogged(ServiceLog(th, ps))
    ensures forall i :: 0 < i < |ServiceLog(th, ps)| ==> ServiceLog(th, ps)[i - 1] != ServiceLog(th, ps)[i]
    ensures ps != [] ==>
              var f := Inspect(ServiceRun(th, ps[..|ps| - 1]).process, ps[|ps| - 1]);
              && (f.Broken? ==> LastLogged(ServiceLog(th, ps)) == f.text)
              && (!f.Broken? ==> ServiceLog(th, ps) == ServiceLog(th, ps[..|ps| - 1]))
  {
    hide Inspect, ServiceStep, Logged;
    if ps != [] {
      var front, p := ps[..|ps| - 1], ps[|ps| - 1];
      LogTellsEveryError(th, front);
      LogStep(th, ServiceRun(th, front), p);
    }
  }

  lemma LogStep(th: Thresholds, v: ServiceView, p: Probe)
    ensures var f, log, event := Inspect(v.process, p), Logged(v, p), ServiceStep(th, v, p).event;
            && (f.Broken? ==> event == f.text && log == if f.text != v.event then [f.text] else [])
            && (!f.Broken? ==> event == v.event && log == [])
  {
    hide Inspect, Verdict, Observe;
  }

  const EXAMPLE := Service("relay", 7, UnitStarted)

  /** Answers of the outside world that a checker tracking this process or none observes so. */
  function ProbeFor(process: Option<Proc>, o: Observation): Probe {
    match o
    case Bad => Probe(EXAMPLE, None, NotExist)
    case Reset => Probe(EXAMPLE, None, LookupFailed("read error"))
    case Good =>
      Probe(EXAMPLE, None, if process.None? then Found(SYSTEMD_PID, "relay", 0)
                           else Found(process.value.ppid, process.value.procName, process.value.startTime))
  }

  lemma ProbeIsObserved(process: Option<Proc>, o: Observation)
    ensures Observed(Inspect(process, ProbeFor(process, o))) == o
  {
  }

  /** A service can show every sequence of good, bad and missing results. */
  lemma {:induction false} EverySequenceHappens(th: Thresholds, os: seq<Observation>) returns (ps: seq<Probe>)
    ensures Observations(th, ps) == os
  {
    hide Inspect, Observed, ProbeFor, ServiceRun;
    if os == [] {
      ps := [];
    } else {
      var front, o := os[..|os| - 1], os[|os| - 1];
      var before := EverySequenceHappens(th, front);
      var process := ServiceRun(th, before).process;
      ProbeIsObserved(process, o);
      ps := before + [ProbeFor(process, o)];
      assert ps[..|before|] == before;
      assert Observations(th, ps) == front + [o];
    }
  }

  // ---------------------------------------------------------------- what a tick counts as

  /** The tracked process is still the same; or, if there is none, systemd names a process
      of the unit, and /proc knows it as a child of process 1 with the unit's name. */
  predicate Succeeds(process: Option<Proc>, p: Probe) {
    && p.lookup.Found?
    && if process.Some? then
         && p.lookup.ppid == process.value.ppid && p.lookup.procName == process.value.procName
         && p.lookup.startTime == process.value.startTime
       else
         p.serviceErr.None? && p.lookup.ppid == 1 && p.lookup.procName == p.service.procName
  }

  /** The tracked process is gone or another one; or, if there is none, systemd gives an error
      but knows the unit's state, or names a process that is gone or not the unit's. */
  predicate Fails(process: Option<Proc>, p: Probe) {
    if process.Some? then
      || p.lookup.NotExist?
      || (p.lookup.Found? &&
            (p.lookup.ppid != process.value.ppid || p.lookup.procName != process.value.procName ||
             p.lookup.startTime != process.value.startTime))
    else if p.serviceErr.Some? then
      p.service.state in {UnitStarted, UnitStopped, UnitFailed, UnitNotFound}
    else
      || p.lookup.NotExist?
      || (p.lookup.Found? && (p.lookup.ppid != 1 || p.lookup.procName != p.service.procName))
  }

  /** The look-up in /proc fails, or systemd gives an error and does not know the state. */
  predicate HasNoResult(process: Option<Proc>, p: Probe) {
    if process.None? && p.serviceErr.Some? then p.service.state == UnitUnknown else p.lookup.LookupFailed?
  }

  /** In every run a tick counts as a success, as a failure, or not at all and resets the
      counters, exactly in these cases. */
  lemma TickCounts(th: Thresholds, ps: seq<Probe>, p: Probe)
    ensures var v, next := ServiceRun(th, ps), ServiceRun(th, ps + [p]);
            && (Succeeds(v.process, p) <==> next.counters.success > 0)
            && (Fails(v.process, p) <==> next.counters.success == 0 && next.counters.checked > 0)
            && (HasNoResult(v.process, p) <==> next.counters == ZERO)
            && (HasNoResult(v.process, p) <==> Reported(th, v, p) == Unknown)
            && (Succeeds(v.process, p) ==> next.counters == Apply(th, v.counters, true))
            && (Fails(v.process, p) ==> next.counters == Apply(th, v.counters, false))
            && (next.process.Some? <==> Succeeds(v.process, p) || (HasNoResult(v.process, p) && v.process.Some?))
            && (next.process.Some? && v.process.Some? ==> next.process == v.process)
            && (next.process.Some? && v.process.None? ==>
                  next.process.value == Proc(p.service.pid, p.lookup.ppid, p.lookup.procName, p.lookup.startTime))
            && (HasNoResult(v.process, p) ==>
                  next.event == if v.process.None? && p.serviceErr.Some? then p.serviceErr.value else p.lookup.text)
  {
    hide ServiceRun;
    OneMoreTick(th, ps, p);
  }

  /** While systemd gives an error and knows the state, a service without a tracked process
      only fails. */
  lemma {:induction false} StaysDown(th: Thresholds, ps: seq<Probe>)
    requires forall n :: 0 <= n < |ps| ==> ps[n].serviceErr.Some? && ps[n].service.state != UnitUnknown
    ensures ServiceRun(th, ps).process.None?
    ensures ServiceRun(th, ps).counters == Counters(Capped(|ps|), 0, Capped(|ps|))
  {
    hide ServiceStep, Inspect;
    if ps != [] {
      var front, p := ps[..|ps| - 1], ps[|ps| - 1];
      StaysDown(th, front);
      TickCounts(th, front, p);
      assert ps == front + [p];
    }
  }

  /** A stopped, failed or missing service is an error: if systemd says so in every tick,
      that is what is reported from tick max(failCount, checkCount) on. */
  lemma DownServiceIsAnError(th: Thresholds, ps: seq<Probe>, p: Probe)
    requires Fits(th)
    requires forall n :: 0 <= n < |ps| ==> ps[n].serviceErr.Some? && ps[n].service.state != UnitUnknown
    requires p.serviceErr.Some? && p.service.state != UnitUnknown
    ensures Reported(th, ServiceRun(th, ps), p) ==
            if |ps| + 1 < th.checkCount then Collecting
            else if |ps| + 1 < th.failCount then Warn
            else Error
  {
    hide ServiceRun;
    StaysDown(th, ps);
    StaysDown(th, ps + [p]);
    OneMoreTick(th, ps, p);
    TickCounts(th, ps, p);
  }

  // ---------------------------------------------------------------- restarts

  /** The process tracked after the first n ticks. */
  function Tracked(th: Thresholds, ps: seq<Probe>, n: nat): Option<Proc>
    requires n <= |ps|
  {
    ServiceRun(th, ps[..n]).process
  }

  lemma {:induction false} ObservationAt(th: Thresholds, ps: seq<Probe>, n: nat)
    requires n < |ps|
    ensures Observations(th, ps)[n] == Observed(Inspect(Tracked(th, ps, n), ps[n]))
    ensures ServiceRun(th, ps[..n + 1]) == ServiceStep(th, ServiceRun(th, ps[..n]), ps[n])
  {
    assert ps[..n + 1][..n] == ps[..n];
    if n < |ps| - 1 {
      var front := ps[..|ps| - 1];
      assert front[..n] == ps[..n];
      ObservationAt(th, front, n);
    } else {
      assert ps[..|ps| - 1] == ps[..n];
    }
  }

  /** Two different tracked processes are separated by a failed tick. */
  lemma {:induction false} ReplacementMeansFailure(th: Thresholds, ps: seq<Probe>, a: nat, b: nat) returns (n: nat)
    requires a <= b <= |ps|
    requires Tracked(th, ps, a).Some? && Tracked(th, ps, b).Some?
    requires Tracked(th, ps, a) != Tracked(th, ps, b)
    ensures a <= n < b && Observations(th, ps)[n] == Bad
    decreases b - a
  {
    ObservationAt(th, ps, a);
    if Tracked(th, ps, a + 1) == Tracked(th, ps, a) {
      n := ReplacementMeansFailure(th, ps, a + 1, b);
    } else {
      n := a;
    }
  }

  /** A service whose process is found gone in tick n, or that has none then, and about which
      systemd gives an error with a known state from then on, fails in all these ticks. */
  lemma DownServiceFails(th: Thresholds, ps: seq<Probe>, n: nat)
    requires n < |ps| && Fails(Tracked(th, ps, n), ps[n])
    requires forall i :: n < i < |ps| ==> ps[i].serviceErr.Some? && ps[i].service.state != UnitUnknown
    ensures forall i :: n <= i < |ps| ==> Observations(th, ps)[i] == Bad
  {
    hide Inspect, Tracked, Fails, Observations;
    for i := n to |ps|
      invariant i > n ==> Tracked(th, ps, i).None?
      invariant forall j :: n <= j < i ==> Observations(th, ps)[j] == Bad
    {
      FailedTick(th, ps, i);
    }
  }

  lemma FailedTick(th: Thresholds, ps: seq<Probe>, i: nat)
    requires i < |ps|
    requires Fails(Tracked(th, ps, i), ps[i]) ||
             (Tracked(th, ps, i).None? && ps[i].serviceErr.Some? && ps[i].service.state != UnitUnknown)
    ensures Observations(th, ps)[i] == Bad && Tracked(th, ps, i + 1).None?
  {
    hide ServiceRun, Observations, Observe, Verdict;
    ObservationAt(th, ps, i);
  }

  /** The unit's main process as systemd and /proc describe it, a child of systemd. */
  predicate MainProcess(proc: Proc, p: Probe) {
    && p.serviceErr.None? && proc.pid == p.service.pid
    && proc.procName == p.service.procName && proc.ppid == 1
  }

  /** The look-up has not found the process gone or changed. */
  predicate NotGone(proc: Proc, p: Probe) {
    !p.lookup.NotExist? && (p.lookup.Found? ==> ProcInfo(proc.pid, p.lookup) == proc)
  }

  lemma TrackedStep(th: Thresholds, ps: seq<Probe>, n: nat)
    requires n < |ps| && Tracked(th, ps, n + 1).Some?
    ensures Tracked(th, ps, n).None? ==> MainProcess(Tracked(th, ps, n + 1).value, ps[n])
    ensures Tracked(th, ps, n).Some? ==>
              Tracked(th, ps, n) == Tracked(th, ps, n + 1) && NotGone(Tracked(th, ps, n).value, ps[n])
  {
    hide Verdict, Observe, Observations;
    ObservationAt(th, ps, n);
  }

  /** Every tracked process was once found as the main process of the unit, a child of
      systemd under the unit's own name, and no tick since has found it gone or changed. */
  lemma {:induction false} TrackedProcessIsGenuine(th: Thresholds, ps: seq<Probe>, n: nat) returns (k: nat)
    requires n <= |ps| && Tracked(th, ps, n).Some?
    ensures k < n && Tracked(th, ps, k).None? && MainProcess(Tracked(th, ps, n).value, ps[k])
    ensures forall m :: k < m < n ==>
              Tracked(th, ps, m) == Tracked(th, ps, n) && NotGone(Tracked(th, ps, n).value, ps[m])
  {
    hide Tracked, MainProcess, NotGone;
    if n == 0 {
      NothingTracked(th, ps);
    } else {
      TrackedStep(th, ps, n - 1);
      if Tracked(th, ps, n - 1).None? {
        k := n - 1;
      } else {
        k := TrackedProcessIsGenuine(th, ps, n - 1);
      }
    }
  }

  lemma NothingTracked(th: Thresholds, ps: seq<Probe>)
    ensures Tracked(th, ps, 0) == None
  {
    assert ps[..0] == [];
  }

  /** A tick is good exactly when a process is tracked after it, and the one tracked
      before it, if any, is still the same. */
  lemma GoodTickKeepsProcess(th: Thresholds, ps: seq<Probe>, n: nat)
    requires n < |ps| && Observations(th, ps)[n] != Reset
    ensures Observations(th, ps)[n] == Good <==> Tracked(th, ps, n + 1).Some?
    ensures Observations(th, ps)[n] == Good ==>
              Tracked(th, ps, n).None? || Tracked(th, ps, n) == Tracked(th, ps, n + 1)
  {
    ObservationAt(th, ps, n);
  }

  /** One process is tracked after each of the `w` ticks before position k. */
  ghost predicate Survives(th: Thresholds, ps: seq<Probe>, w: nat, k: nat)
    requires k <= |ps|
  {
    w <= k && forall n :: k - w < n <= k ==> Tracked(th, ps, n).Some? && Tracked(th, ps, n) == Tracked(th, ps, k)
  }

  lemma {:induction false} GoodWindowIsOneProcess(th: Thresholds, ps: seq<Probe>, w: nat, k: nat)
    requires k <= |ps| && w <= k
    requires forall n :: k - w <= n < k ==> Observations(th, ps)[n] == Good
    ensures Survives(th, ps, w, k)
  {
    hide Tracked, Observations;
    if w > 1 {
      GoodWindowIsOneProcess(th, ps, w - 1, k);
      assert Tracked(th, ps, k - w + 2) == Tracked(th, ps, k);
      assert Observations(th, ps)[k - w] == Good && Observations(th, ps)[k - w + 1] == Good;
      GoodTickKeepsProcess(th, ps, k - w);
      GoodTickKeepsProcess(th, ps, k - w + 1);
    } else if w == 1 {
      GoodTickKeepsProcess(th, ps, k - 1);
    }
  }

  /** Repeated restarts are detected: if no process stays tracked for a whole window of
      resetCount ticks, and no tick is without a result, then after n ticks the state is
      an error exactly when checkCount checks and failCount failed ones have been made,
      and from then on it stays one. */
  lemma RestartLoopIsAnError(th: Thresholds, ps: seq<Probe>)
    requires Fits(th)
    requires forall n :: 0 <= n < |ps| ==> Observations(th, ps)[n] != Reset
    requires forall k :: 0 <= k <= |ps| ==> !Survives(th, ps, Window(th), k)
    ensures forall n :: 0 <= n <= |ps| ==>
              (Verdict(th, ServiceRun(th, ps[..n]).counters) == Error <==>
               n >= th.checkCount && Failures(Counted(Observations(th, ps))[..n]) >= Limit(th))
    ensures forall m, n :: 0 <= m <= n <= |ps| && Verdict(th, ServiceRun(th, ps[..m]).counters) == Error ==>
              Verdict(th, ServiceRun(th, ps[..n]).counters) == Error
  {
    hide Verdict, Failures, Hysteresis.Run, ServiceRun, Observations, Counted, Survives, Clears;
    var h := Counted(Observations(th, ps));
    NoWindowIsGood(th, ps);
    RepeatedFailuresLatch(th, h);
    forall n | 0 <= n <= |ps| ensures ServiceRun(th, ps[..n]).counters == Hysteresis.Run(th, h[..n]) {
      CountersOfPrefix(th, ps, n);
    }
  }

  lemma NoWindowIsGood(th: Thresholds, ps: seq<Probe>)
    requires forall n :: 0 <= n < |ps| ==> Observations(th, ps)[n] != Reset
    requires forall k :: 0 <= k <= |ps| ==> !Survives(th, ps, Window(th), k)
    ensures var h := Counted(Observations(th, ps));
            |h| == |ps| && forall k :: 0 <= k <= |h| ==> !Clears(Window(th), h, k)
  {
    var os := Observations(th, ps);
    assert LastReset(os) == 0;
    var h := Counted(os);
    forall k | 0 <= k <= |h| && Clears(Window(th), h, k) ensures false {
      assert forall n :: 0 <= n < |os| ==> h[n] == (os[n] == Good);
      GoodWindowIsOneProcess(th, ps, Window(th), k);
    }
  }

  lemma CountersOfPrefix(th: Thresholds, ps: seq<Probe>, n: nat)
    requires n <= |ps| && forall k :: 0 <= k < |ps| ==> Observations(th, ps)[k] != Reset
    ensures |Counted(Observations(th, ps))| == |ps|
    ensures ServiceRun(th, ps[..n]).counters == Hysteresis.Run(th, Counted(Observations(th, ps))[..n])
  {
    var os := Observations(th, ps);
    ServiceSimulatesAutomaton(th, ps[..n]);
    ObservationsOfPrefix(th, ps, n);
    assert LastReset(os[..n]) == 0 == LastReset(os);
    assert Counted(os[..n]) == Counted(os)[..n];
  }

  lemma {:induction false} ObservationsOfPrefix(th: Thresholds, ps: seq<Probe>, n: nat)
    requires n <= |ps|
    ensures Observations(th, ps[..n]) == Observations(th, ps)[..n]
  {
    if n < |ps| {
      var front := ps[..|ps| - 1];
      ObservationsOfPrefix(th, front, n);
      assert front[..n] == ps[..n];
    } else {
      assert ps[..n] == ps;
    }
  }

  // ---------------------------------------------------------------- the object

  class ServiceChecker {
    const name: string
    const th: Thresholds
    var process: Option<Proc>
    var status: State
    var event: string
    var failed: nat
    var success: nat
    var checked: nat
    /** The answers of the outside world so far. */
    ghost var history: seq<Probe>

    function View(): ServiceView
      reads this
    {
      ServiceView(process, Counters(failed, success, checked), status, event)
    }

    /** The checker is where its history leads from a fresh start. */
    ghost predicate Valid()
      reads this
    {
      View() == ServiceRun(th, history)
    }

    constructor (name: string, failCount: int, checkCount: int, resetCount: int)
      ensures Valid() && history == [] && View() == FRESH
      ensures this.name == name && th == Thresholds(failCount, checkCount, resetCount)
    {
      this.name := name;
      th := Thresholds(failCount, checkCount, resetCount);
      process, status, event := None, Collecting, "";
      failed, success, checked := 0, 0, 0;
      history := [];
    }

    /** Whether the tracked process is gone or replaced, or the error of the look-up. */
    method ProcExit(p: Probe) returns (exit: bool, err: ErrorText)
      requires process.Some?
      ensures err == if p.lookup.LookupFailed? then Some(p.lookup.text) else None
      ensures err.None? ==> (exit <==> Inspect(process, p).Unhealthy?)
    {
      match p.lookup
      case NotExist => return true, None;
      case LookupFailed(text) => return false, Some(text);
      case Found(_, _, _) => return ProcInfo(process.value.pid, p.lookup) != process.value, None;
    }

    method Events(text: string) returns (events: seq<string>)
      modifies this`event
      ensures event == text
      ensures events == if text != old(event) then [text] else []
    {
      events := [];
      if text != event {
        event := text;
        events := [text];
      }
    }

    /** Count a tick whose failure, if it is one, is already counted, and set the
        status: the tail of `Status`. */
    method Conclude(successCheck: bool, ghost before: Counters)
      requires success == before.success && checked == before.checked
      requires failed == if successCheck then before.failed else Increment(before.failed)
      modifies this`failed, this`success, this`checked, this`status
      ensures Counters(failed, success, checked) == Apply(th, before, successCheck)
      ensures status == Verdict(th, Counters(failed, success, checked))
    {
      if checked < MAX_INT32 {
        checked := checked + 1;
      }
      if successCheck {
        if success < MAX_INT32 {
          success := success + 1;
        }
        if failed > 0 && success >= th.resetCount {
          failed := 0;
        }
      } else if success > 0 {
        success := 0;
      }
      if checked < th.checkCount {
        status := Collecting;
      } else if failed > 0 {
        if failed >= th.failCount {
          status := Error;
        } else {
          status := Warn;
        }
      } else {
        status := Success;
      }
    }

    method Status(p: Probe) returns (state: State, events: seq<string>)
      requires Valid()
      modifies this
      ensures Valid() && history == old(history) + [p]
      ensures View() == ServiceStep(th, old(View()), p)
      ensures state == Reported(th, old(View()), p)
      ensures events == Logged(old(View()), p)
    {
      hide ServiceRun, Apply, Verdict;
      OneMoreTick(th, history, p);
      ghost var before := Counters(failed, success, checked);
      history := history + [p];
      var needRecheck, successCheck := false, false;
      if process.None? {
        needRecheck := true;
      } else {
        var exit, procErr := ProcExit(p);
        if procErr.Some? {
          failed, success, checked := 0, 0, 0;
          events := Events(procErr.value);
          return Unknown, events;
        } else if exit {
          if failed < MAX_INT32 {
            failed := failed + 1;
          }
          process := None;
        } else {
          successCheck := true;
        }
      }
      if needRecheck {
        if p.serviceErr.Some? {
          if p.service.state == UnitUnknown {
            failed, success, checked := 0, 0, 0;
            status := Unknown;
            events := Events(p.serviceErr.value);
            return status, events;
          }
          if failed < MAX_INT32 {
            failed := failed + 1;
          }
        } else if p.lookup.NotExist? {
          if failed < MAX_INT32 {
            failed := failed + 1;
          }
        } else if p.lookup.LookupFailed? {
          failed, success, checked := 0, 0, 0;
          status := Unknown;
          events := Events(p.lookup.text);
          return status, events;
        } else {
          var proc := ProcInfo(p.service.pid, p.lookup);
          if proc.ppid != SYSTEMD_PID || proc.procName != p.service.procName {
            if failed < MAX_INT32 {
              failed := failed + 1;
            }
          } else {
            successCheck := true;
            process := Some(proc);
          }
        }
      }
      Conclude(successCheck, before);
      return status, [];
    }

    /** The one metric. After a tick its value is the state that the tick reported, unless
        the look-up of a tracked process failed. */
    method Metrics() returns (metrics: seq<Metric>)
      requires Valid()
      ensures |metrics| == 1 && metrics[0].name == "systemd." + name
      ensures metrics[0].value == Itoa(ServiceRun(th, history).status)
      ensures history != [] ==>
                var ps, p := history[..|history| - 1], history[|history| - 1];
                metrics[0].value == Itoa(Reported(th, ServiceRun(th, ps), p)) <==> !Stale(th, ps, p)
    {
      hide ServiceRun, Reported, Stale;
      if history != [] {
        ghost var ps, p := history[..|history| - 1], history[|history| - 1];
        assert history == ps + [p];
        MetricIsStaleIff(th, ps, p);
        DifferentStatesShow(status, Reported(th, ServiceRun(th, ps), p));
      }
      return [Metric("systemd." + name, Itoa(status))];
    }
  }

  lemma DifferentStatesShow(a: State, b: State)
    ensures Itoa(a) == Itoa(b) <==> a == b
  {
    assert Itoa(a)[0] == Itoa(b)[0] <==> a == b;
  }
}
