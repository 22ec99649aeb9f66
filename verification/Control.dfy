/**
  The decisions of the control loop: how the states of all checkers combine into one,
  when that calls for an action, and what becomes of the loop's own status.
 */
module Control {
  import opened Checker
  import opened NetConf

  /** What an iteration does: nothing, withdraw the addresses, or raise them, which is
      clean if all its commands work. */
  datatype Act = Idle | Down | UpClean | UpFailed

  datatype Config = Config(ips: seq<IPNet>, hasSuccessCmd: bool)

  /** The outside world during one iteration's action. */
  datatype World = World(addrs: Env, cmdOk: bool)

  /** The combined state of one iteration: a single error wins, success takes all. */
  function StepStatus(states: seq<State>): (s: State)
    ensures s == Success <==> forall i :: 0 <= i < |states| ==> states[i] == Success
    ensures s == Error <==> Error in states
    ensures s in {Success, Error, Collecting}
  {
    if forall i :: 0 <= i < |states| ==> states[i] == Success then Success
    else if Error in states then Error
    else Collecting
  }

  /** The loop's status and act, when a raise would be clean or not. */
  function Decide(status: State, step: State, clean: bool): (State, Act) {
    if status == step then (status, Idle)
    else if step == Error then (Error, Down)
    else if step == Success then
      if clean then (Success, UpClean) else (Error, UpFailed)
    else (status, Idle)
  }

  predicate WellFormed(cfg: Config, w: World) {
    |w.addrs.execs| == |cfg.ips|
  }

  /** Whether raising the addresses reports no error and the success command works. */
  predicate Clean(cfg: Config, w: World, present: set<Key>)
    requires WellFormed(cfg, w)
  {
    && (cfg.ips != [] ==> Reconcile(Add, cfg.ips, w.addrs, present).errs == [])
    && (cfg.hasSuccessCmd ==> w.cmdOk)
  }

  /** The addresses after an act. */
  function Present(cfg: Config, act: Act, w: World, present: set<Key>): set<Key>
    requires WellFormed(cfg, w)
  {
    match act
    case Idle => present
    case Down => if cfg.ips != [] then Reconcile(Del, cfg.ips, w.addrs, present).present else present
    case _ => if cfg.ips != [] then Reconcile(Add, cfg.ips, w.addrs, present).present else present
  }

  /** The addresses that an act runs commands for: one pass, and none if it is idle. */
  function CommandsOf(cfg: Config, act: Act, w: World, present: set<Key>): seq<Key>
    requires WellFormed(cfg, w)
  {
    if act == Idle || cfg.ips == [] then []
    else Reconcile(if act == Down then Del else Add, cfg.ips, w.addrs, present).commands
  }

  // ---------------------------------------------------------------- runs of decisions

  /** One iteration as the loop sees it: the combined state, and whether a raise would
      be clean. */
  datatype Turn = Turn(step: State, clean: bool)

  function StatusAfter(turns: seq<Turn>): State {
    if turns == [] then Collecting
    else
      var t := turns[|turns| - 1];
      Decide(StatusAfter(turns[..|turns| - 1]), t.step, t.clean).0
  }

  function ActAt(turns: seq<Turn>, n: nat): Act
    requires n < |turns|
  {
    Decide(StatusAfter(turns[..n]), turns[n].step, turns[n].clean).1
  }

  /** The acts of a run, without the idle iterations. */
  function Acts(turns: seq<Turn>): seq<Act> {
    if turns == [] then []
    else
      var front := turns[..|turns| - 1];
      Acts(front) + if ActAt(turns, |front|) == Idle then [] else [ActAt(turns, |front|)]
  }

  /** Which act may follow which: downs only a clean raise, and raises never one. */
  predicate MayFollow(x: Act, y: Act) {
    match y
    case Idle => false
    case Down => x == UpClean
    case _ => x == Down || x == UpFailed
  }

  predicate Alternating(acts: seq<Act>) {
    && (forall i :: 0 <= i < |acts| ==> acts[i] != Idle)
    && (forall i :: 0 < i < |acts| ==> MayFollow(acts[i - 1], acts[i]))
  }

  /** The status that the last act leaves behind. */
  function StatusOf(acts: seq<Act>): State {
    if acts == [] then Collecting
    else if acts[|acts| - 1] == UpClean then Success
    else Error
  }

  lemma {:induction false} ActsAlternate(turns: seq<Turn>)
    ensures Alternating(Acts(turns))
    ensures StatusAfter(turns) == StatusOf(Acts(turns))
  {
    hide Alternating, StatusOf, Decide;
    if turns == [] {
      NoActs();
    } else {
      var front, t := turns[..|turns| - 1], turns[|turns| - 1];
      ActsAlternate(front);
      OneMoreAct(Acts(front), t.step, t.clean);
      assert Acts(front) + [] == Acts(front);
    }
  }

  lemma NoActs()
    ensures Alternating([]) && StatusOf([]) == Collecting
  {
  }

  lemma OneMoreAct(acts: seq<Act>, step: State, clean: bool)
    requires Alternating(acts)
    ensures var d := Decide(StatusOf(acts), step, clean);
            && (d.1 == Idle ==> d.0 == StatusOf(acts))
            && (d.1 != Idle ==> Alternating(acts + [d.1]) && d.0 == StatusOf(acts + [d.1]))
  {
  }

  /** Whatever the checkers report and whichever commands fail: the status is a function
      of the last act, downs and clean raises strictly alternate, a raise is only tried
      while the status is not `Success`, and a down only while it is not `Error`. An
      iteration whose combined state is neither leaves acts and status alone. */
  lemma ActionsAlternate(turns: seq<Turn>, n: nat)
    requires n < |turns|
    ensures StatusAfter(turns) == StatusOf(Acts(turns))
    ensures forall i, j :: 0 <= i < j < |Acts(turns)| && Acts(turns)[i] == Acts(turns)[j] == Down ==>
              exists k :: i < k < j && Acts(turns)[k] == UpClean
    ensures forall i, j :: 0 <= i < j < |Acts(turns)| && Acts(turns)[i] == Acts(turns)[j] == UpClean ==>
              exists k :: i < k < j && Acts(turns)[k] == Down
    ensures ActAt(turns, n) in {UpClean, UpFailed} ==> StatusAfter(turns[..n]) != Success
    ensures ActAt(turns, n) == Down ==> StatusAfter(turns[..n]) != Error
    ensures turns[n].step !in {Success, Error} ==>
              ActAt(turns, n) == Idle && StatusAfter(turns[..n + 1]) == StatusAfter(turns[..n])
  {
    hide Acts, StatusAfter, Decide;
    ActsAlternate(turns);
    OneTurn(turns, n);
    var acts := Acts(turns);
    forall i, j | 0 <= i < j < |acts| && acts[i] == acts[j] == Down
      ensures exists k :: i < k < j && acts[k] == UpClean
    {
      assert MayFollow(acts[j - 1], acts[j]);
      assert acts[j - 1] == UpClean;
    }
    forall i, j | 0 <= i < j < |acts| && acts[i] == acts[j] == UpClean
      ensures exists k :: i < k < j && acts[k] == Down
    {
      var k := AfterCleanUp(acts, i);
    }
  }

  lemma OneTurn(turns: seq<Turn>, n: nat)
    requires n < |turns|
    ensures ActAt(turns, n) in {UpClean, UpFailed} ==> StatusAfter(turns[..n]) != Success
    ensures ActAt(turns, n) == Down ==> StatusAfter(turns[..n]) != Error
    ensures turns[n].step !in {Success, Error} ==>
              ActAt(turns, n) == Idle && StatusAfter(turns[..n + 1]) == StatusAfter(turns[..n])
  {
    assert turns[..n + 1][..n] == turns[..n];
  }

  lemma AfterCleanUp(acts: seq<Act>, i: nat) returns (k: nat)
    requires Alternating(acts) && i + 1 < |acts| && acts[i] == UpClean
    ensures k == i + 1 && acts[k] == Down
  {
    k := i + 1;
    assert MayFollow(acts[i], acts[k]);
  }

  /** Nothing more can be said about the order of acts: every alternating sequence is
      the acts of some run. */
  lemma {:induction false} EveryAlternationHappens(acts: seq<Act>) returns (turns: seq<Turn>)
    requires Alternating(acts)
    ensures Acts(turns) == acts
  {
    hide Acts;
    if acts == [] {
      turns := [];
      OneMoreTurn([], Turn(Collecting, true));
    } else {
      var front, last := acts[..|acts| - 1], acts[|acts| - 1];
      var before := EveryAlternationHappens(front);
      ActsAlternate(before);
      assert front != [] ==> MayFollow(front[|front| - 1], last);
      var turn := Turn(if last == Down then Error else Success, last == UpClean);
      OneMoreTurn(before, turn);
      turns := before + [turn];
    }
  }

  lemma OneMoreTurn(turns: seq<Turn>, t: Turn)
    ensures Acts([]) == []
    ensures var act := Decide(StatusAfter(turns), t.step, t.clean).1;
            Acts(turns + [t]) == Acts(turns) + if act == Idle then [] else [act]
  {
    assert (turns + [t])[..|turns|] == turns;
  }

  /** After an act that leaves the status `Error`, nothing is done until all checks succeed
      again. */
  lemma {:induction false} IdleUntilSuccess(turns: seq<Turn>, n: nat, m: nat)
    requires n < m < |turns| && StatusAfter(turns[..n + 1]) == Error
    requires forall i :: n < i <= m ==> turns[i].step != Success
    ensures ActAt(turns, m) == Idle && StatusAfter(turns[..m + 1]) == Error
  {
    assert turns[..m + 1][..m] == turns[..m];
    if n < m - 1 {
      IdleUntilSuccess(turns, n, m - 1);
    }
  }

  /** In particular nothing withdraws the addresses that a failed raise may have left. */
  lemma FailedRaiseIsNotUndone(turns: seq<Turn>, n: nat, m: nat)
    requires n < m < |turns| && ActAt(turns, n) == UpFailed
    requires forall i :: n < i <= m ==> turns[i].step != Success
    ensures ActAt(turns, m) == Idle && StatusAfter(turns[..m + 1]) == Error
  {
    assert turns[..n + 1][..n] == turns[..n];
    IdleUntilSuccess(turns, n, m);
  }

  /** And a withdrawal, whatever it left, is not repeated. */
  lemma DownIsNotRepeated(turns: seq<Turn>, n: nat, m: nat)
    requires n < m < |turns| && ActAt(turns, n) == Down
    requires forall i :: n < i <= m ==> turns[i].step != Success
    ensures ActAt(turns, m) == Idle && StatusAfter(turns[..m + 1]) == Error
  {
    assert turns[..n + 1][..n] == turns[..n];
    IdleUntilSuccess(turns, n, m);
  }

  // ---------------------------------------------------------------- status and interface

  /** An iteration of the loop with its interface. */
  datatype Iteration = Iteration(step: State, world: World)

  datatype LoopState = LoopState(status: State, present: set<Key>)

  function ActOf(cfg: Config, s: LoopState, it: Iteration): Act
    requires WellFormed(cfg, it.world)
  {
    Decide(s.status, it.step, Clean(cfg, it.world, s.present)).1
  }

  function Iterate(cfg: Config, s: LoopState, it: Iteration): LoopState
    requires WellFormed(cfg, it.world)
  {
    LoopState(Decide(s.status, it.step, Clean(cfg, it.world, s.present)).0,
              Present(cfg, ActOf(cfg, s, it), it.world, s.present))
  }

  /** The addresses, if there are any, are looked up, and every command for one that is not
      listed works; and the success command, if there is one, works. */
  predicate RaiseWorks(cfg: Config, w: World)
    requires WellFormed(cfg, w)
  {
    && (|cfg.ips| > 0 ==>
          && w.addrs.lookup.Entries?
          && forall i :: 0 <= i < |cfg.ips| && KeyOf(cfg.ips[i]) !in Listed(w.addrs.lookup.addrs) ==>
               w.addrs.execs[i] == Done)
    && (!cfg.hasSuccessCmd || w.cmdOk)
  }

  lemma CleanIff(cfg: Config, w: World, present: set<Key>)
    requires WellFormed(cfg, w)
    ensures Clean(cfg, w, present) <==> RaiseWorks(cfg, w)
  {
    hide PassOver, Listed;
    if cfg.ips != [] && w.addrs.lookup.Entries? {
      PassIs(Add, cfg.ips, Listed(w.addrs.lookup.addrs), w.addrs.execs, present, |cfg.ips|);
    }
  }

  /** What an iteration makes of the status, for every configuration and whatever the look-up
      shows: a raise is tried exactly when all checks succeed and the status is not `Success`
      yet, and leads to `Success` exactly if it works, else to `Error`; an error among the
      checks leads to `Error`; otherwise nothing changes. */
  lemma IterationOutcome(cfg: Config, s: LoopState, it: Iteration)
    requires WellFormed(cfg, it.world)
    ensures var next := Iterate(cfg, s, it);
            && (it.step == Success && s.status != Success ==>
                  next.status == if RaiseWorks(cfg, it.world) then Success else Error)
            && (it.step == Success && s.status == Success ==> next == s)
            && (it.step == Error ==> next.status == Error && (s.status == Error ==> next == s))
            && (it.step !in {Success, Error} ==> next == s)
    ensures var act := ActOf(cfg, s, it);
            && (act == Down <==> it.step == Error && s.status != Error)
            && (act == UpClean <==> it.step == Success && s.status != Success && RaiseWorks(cfg, it.world))
            && (act == UpFailed <==> it.step == Success && s.status != Success && !RaiseWorks(cfg, it.world))
  {
    CleanIff(cfg, it.world, s.present);
  }

  ghost predicate Possible(cfg: Config, start: set<Key>, its: seq<Iteration>)
    decreases |its|, 0
  {
    its == [] ||
    var front, last := its[..|its| - 1], its[|its| - 1];
    && Possible(cfg, start, front)
    && WellFormed(cfg, last.world)
    && last.step in {Success, Error, Collecting}
    && Faithful(last.world.addrs, LoopAfter(cfg, start, front).present)
  }

  /** The loop and its interface after some iterations without outside change. */
  ghost function LoopAfter(cfg: Config, start: set<Key>, its: seq<Iteration>): LoopState
    requires Possible(cfg, start, its)
    decreases |its|, 1
  {
    if its == [] then LoopState(Collecting, start)
    else Iterate(cfg, LoopAfter(cfg, start, its[..|its| - 1]), its[|its| - 1])
  }

  lemma IterationKeepsRest(cfg: Config, s: LoopState, it: Iteration)
    requires WellFormed(cfg, it.world) && Faithful(it.world.addrs, s.present)
    ensures Iterate(cfg, s, it).present - Keys(cfg.ips) == s.present - Keys(cfg.ips)
    ensures (s.status == Success ==> Keys(cfg.ips) <= s.present) ==>
              Iterate(cfg, s, it).status == Success ==> Keys(cfg.ips) <= Iterate(cfg, s, it).present
  {
    PassGuarantees(Add, cfg.ips, it.world.addrs, s.present);
    PassGuarantees(Del, cfg.ips, it.world.addrs, s.present);
  }

  /** With any failures of commands and look-ups, but no outside change: `Success` means
      that all configured addresses are present, and no other address ever changes. */
  lemma {:induction false} SuccessMeansPresent(cfg: Config, start: set<Key>, its: seq<Iteration>)
    requires Possible(cfg, start, its)
    ensures var s := LoopAfter(cfg, start, its);
            && (s.status == Success ==> Keys(cfg.ips) <= s.present)
            && s.present - Keys(cfg.ips) == start - Keys(cfg.ips)
  {
    if its != [] {
      var front := its[..|its| - 1];
      SuccessMeansPresent(cfg, start, front);
      IterationKeepsRest(cfg, LoopAfter(cfg, start, front), its[|its| - 1]);
    }
  }

  predicate Works(cfg: Config, it: Iteration) {
    AllWork(it.world.addrs) && (cfg.hasSuccessCmd ==> it.world.cmdOk)
  }

  lemma WorkingPassHasNoError(action: Action, a: seq<IPNet>, env: Env, present: set<Key>)
    requires |env.execs| == |a| && Faithful(env, present) && AllWork(env)
    ensures Reconcile(action, a, env, present).errs == []
  {
    NoErrorIff(action, a, env, present);
  }

  /** When all address operations and the success command work, the status and the
      interface agree: `Success` means all configured addresses, `Error` none. */
  lemma {:induction false} StatusAgreesWithInterface(cfg: Config, start: set<Key>, its: seq<Iteration>)
    requires Possible(cfg, start, its)
    requires forall i :: 0 <= i < |its| ==> Works(cfg, its[i])
    ensures var s := LoopAfter(cfg, start, its);
            && (s.status == Success ==> Keys(cfg.ips) <= s.present)
            && (s.status == Error ==> Keys(cfg.ips) !! s.present)
            && (s.status == Collecting ==> s.present == start)
            && s.status in {Success, Error, Collecting}
            && s.present - Keys(cfg.ips) == start - Keys(cfg.ips)
  {
    SuccessMeansPresent(cfg, start, its);
    if its != [] {
      var front, last := its[..|its| - 1], its[|its| - 1];
      StatusAgreesWithInterface(cfg, start, front);
      var s := LoopAfter(cfg, start, front);
      WorkingPassHasNoError(Add, cfg.ips, last.world.addrs, s.present);
      WorkingPassHasNoError(Del, cfg.ips, last.world.addrs, s.present);
      PassGuarantees(Del, cfg.ips, last.world.addrs, s.present);
    }
  }

  /** Some command for this address, of one pass, took effect. */
  predicate Removed(cfg: Config, k: Key, execs: seq<Exec>)
    requires |execs| == |cfg.ips|
  {
    exists j :: 0 <= j < |cfg.ips| && KeyOf(cfg.ips[j]) == k && Applied(execs[j])
  }

  /** What has to become of the commands for an act to leave no configured address: a
      withdrawal has to look the interface up and to take every one away that is there; a
      raise that fails must find none and must not add one. */
  predicate LeavesNone(cfg: Config, act: Act, w: World, present: set<Key>)
    requires WellFormed(cfg, w)
  {
    match act
    case Down =>
      if w.addrs.lookup.LookupError? then present !! Keys(cfg.ips)
      else
        forall i :: 0 <= i < |cfg.ips| && KeyOf(cfg.ips[i]) in present ==>
          Removed(cfg, KeyOf(cfg.ips[i]), w.addrs.execs)
    case _ =>
      && present !! Keys(cfg.ips)
      && (w.addrs.lookup.Entries? ==> forall i :: 0 <= i < |cfg.ips| ==> !Applied(w.addrs.execs[i]))
  }

  lemma PassLeavesNoneIff(action: Action, cfg: Config, w: World, present: set<Key>)
    requires WellFormed(cfg, w) && Faithful(w.addrs, present)
    ensures Reconcile(action, cfg.ips, w.addrs, present).present !! Keys(cfg.ips) <==>
            LeavesNone(cfg, if action.Add? then UpFailed else Down, w, present)
  {
    hide PassOver;
    var mine, env := Keys(cfg.ips), w.addrs;
    var after := Reconcile(action, cfg.ips, env, present).present;
    if env.lookup.Entries? {
      PassIs(action, cfg.ips, present, env.execs, present, |cfg.ips|);
      if action.Add? {
        AddLeavesNoneIff(cfg, w, present);
      } else {
        DelLeavesNoneIff(cfg, w, present);
      }
    }
  }

  lemma AddLeavesNoneIff(cfg: Config, w: World, present: set<Key>)
    requires WellFormed(cfg, w)
    ensures present + Changed(Add, cfg.ips, present, w.addrs.execs, |cfg.ips|) !! Keys(cfg.ips) <==>
            present !! Keys(cfg.ips) && forall i :: 0 <= i < |cfg.ips| ==> !Applied(w.addrs.execs[i])
  {
    var c := Changed(Add, cfg.ips, present, w.addrs.execs, |cfg.ips|);
    if present !! Keys(cfg.ips) {
      forall i | 0 <= i < |cfg.ips| ensures KeyOf(cfg.ips[i]) in Keys(cfg.ips) && Wanted(Add, cfg.ips[i], present) {
        assert KeyOf(cfg.ips[i]) in Keys(cfg.ips);
      }
      assert forall i :: 0 <= i < |cfg.ips| && Applied(w.addrs.execs[i]) ==> KeyOf(cfg.ips[i]) in c;
    }
  }

  lemma DelLeavesNoneIff(cfg: Config, w: World, present: set<Key>)
    requires WellFormed(cfg, w)
    ensures present - Changed(Del, cfg.ips, present, w.addrs.execs, |cfg.ips|) !! Keys(cfg.ips) <==>
            forall i :: 0 <= i < |cfg.ips| && KeyOf(cfg.ips[i]) in present ==>
              Removed(cfg, KeyOf(cfg.ips[i]), w.addrs.execs)
  {
    var c := Changed(Del, cfg.ips, present, w.addrs.execs, |cfg.ips|);
    forall i | 0 <= i < |cfg.ips| && KeyOf(cfg.ips[i]) in present
      ensures KeyOf(cfg.ips[i]) in c <==> Removed(cfg, KeyOf(cfg.ips[i]), w.addrs.execs)
    {
      if j :| 0 <= j < |cfg.ips| && KeyOf(cfg.ips[j]) == KeyOf(cfg.ips[i]) && Applied(w.addrs.execs[j]) {
        assert Wanted(Del, cfg.ips[j], present);
      }
    }
    if forall i :: 0 <= i < |cfg.ips| && KeyOf(cfg.ips[i]) in present ==> KeyOf(cfg.ips[i]) in c {
      assert forall k :: k in Keys(cfg.ips) && k in present ==> k in c;
    } else {
      var i :| 0 <= i < |cfg.ips| && KeyOf(cfg.ips[i]) in present && KeyOf(cfg.ips[i]) !in c;
      assert KeyOf(cfg.ips[i]) in Keys(cfg.ips);
    }
  }

  /** Whatever was on the interface before: a withdrawal or a failed raise leaves the status
      `Error`, and no configured address exactly when its commands had that effect. */
  lemma ErrorActLeavesNoneIff(cfg: Config, s: LoopState, it: Iteration)
    requires WellFormed(cfg, it.world) && Faithful(it.world.addrs, s.present)
    requires ActOf(cfg, s, it) in {Down, UpFailed}
    ensures Iterate(cfg, s, it).status == Error
    ensures Iterate(cfg, s, it).present !! Keys(cfg.ips) <==> LeavesNone(cfg, ActOf(cfg, s, it), it.world, s.present)
  {
    hide Reconcile, LeavesNone, Clean;
    if cfg.ips == [] {
      NothingConfigured(cfg, it.world, ActOf(cfg, s, it), s.present);
    } else if ActOf(cfg, s, it) == Down {
      PassLeavesNoneIff(Del, cfg, it.world, s.present);
    } else {
      PassLeavesNoneIff(Add, cfg, it.world, s.present);
    }
  }

  lemma NothingConfigured(cfg: Config, w: World, act: Act, present: set<Key>)
    requires WellFormed(cfg, w) && cfg.ips == []
    ensures Keys(cfg.ips) == {} && LeavesNone(cfg, act, w, present)
  {
  }

  // ---------------------------------------------------------------- runs with failures

  lemma {:induction false} PrefixIsPossible(cfg: Config, start: set<Key>, its: seq<Iteration>, n: nat)
    requires Possible(cfg, start, its) && n <= |its|
    ensures Possible(cfg, start, its[..n])
  {
    if n < |its| {
      var front := its[..|its| - 1];
      PrefixIsPossible(cfg, start, front, n);
      assert front[..n] == its[..n];
    } else {
      assert its[..n] == its;
    }
  }

  /** The loop and its interface after n iterations of a run. */
  ghost function StateAt(cfg: Config, start: set<Key>, its: seq<Iteration>, n: nat): LoopState
    requires Possible(cfg, start, its) && n <= |its|
  {
    PrefixIsPossible(cfg, start, its, n);
    LoopAfter(cfg, start, its[..n])
  }

  lemma IterationAt(cfg: Config, start: set<Key>, its: seq<Iteration>, n: nat)
    requires Possible(cfg, start, its) && n < |its|
    ensures WellFormed(cfg, its[n].world) && Faithful(its[n].world.addrs, StateAt(cfg, start, its, n).present)
    ensures StateAt(cfg, start, its, n + 1) == Iterate(cfg, StateAt(cfg, start, its, n), its[n])
  {
    PrefixIsPossible(cfg, start, its, n + 1);
    assert its[..n + 1][..n] == its[..n];
  }

  /** What the loop does in its n-th iteration. */
  ghost function LoopAct(cfg: Config, start: set<Key>, its: seq<Iteration>, n: nat): Act
    requires Possible(cfg, start, its) && n < |its|
  {
    IterationAt(cfg, start, its, n);
    ActOf(cfg, StateAt(cfg, start, its, n), its[n])
  }

  /** The status is `Error` only after an act that failed or withdrew; the loop has been
      idle since, and the interface is as that act left it. */
  lemma {:induction false} LastErrorAct(cfg: Config, start: set<Key>, its: seq<Iteration>, n: nat) returns (k: nat)
    requires Possible(cfg, start, its) && n <= |its| && StateAt(cfg, start, its, n).status == Error
    ensures k < n && LoopAct(cfg, start, its, k) in {Down, UpFailed}
    ensures forall i :: k < i < n ==> LoopAct(cfg, start, its, i) == Idle
    ensures StateAt(cfg, start, its, n) == StateAt(cfg, start, its, k + 1)
  {
    hide Clean, Possible, LoopAfter, StateAt;
    if n == 0 {
      StartsCollecting(cfg, start, its);
    } else {
      IterationAt(cfg, start, its, n - 1);
      if LoopAct(cfg, start, its, n - 1) == Idle {
        k := LastErrorAct(cfg, start, its, n - 1);
      } else {
        k := n - 1;
      }
    }
  }

  lemma StartsCollecting(cfg: Config, start: set<Key>, its: seq<Iteration>)
    requires Possible(cfg, start, its)
    ensures StateAt(cfg, start, its, 0) == LoopState(Collecting, start)
  {
    assert its[..0] == [];
  }

  /** When operations may fail: under the status `Error` no configured address is on the
      interface exactly when the last act, the one that led to it, left none. */
  lemma ErrorMeansAbsentIff(cfg: Config, start: set<Key>, its: seq<Iteration>) returns (k: nat)
    requires Possible(cfg, start, its) && LoopAfter(cfg, start, its).status == Error
    ensures k < |its| && LoopAct(cfg, start, its, k) in {Down, UpFailed}
    ensures forall i :: k < i < |its| ==> LoopAct(cfg, start, its, i) == Idle
    ensures WellFormed(cfg, its[k].world)
    ensures LoopAfter(cfg, start, its).present !! Keys(cfg.ips) <==>
            LeavesNone(cfg, LoopAct(cfg, start, its, k), its[k].world, StateAt(cfg, start, its, k).present)
  {
    hide Possible, LoopAfter, LeavesNone, Iterate;
    assert its[..|its|] == its;
    k := LastErrorAct(cfg, start, its, |its|);
    IterationAt(cfg, start, its, k);
    ErrorActLeavesNoneIff(cfg, StateAt(cfg, start, its, k), its[k]);
  }

  lemma EmptyRun(cfg: Config, start: set<Key>)
    ensures Possible(cfg, start, []) && LoopAfter(cfg, start, []) == LoopState(Collecting, start)
  {
  }

  lemma OneIteration(cfg: Config, start: set<Key>, its: seq<Iteration>, it: Iteration)
    requires Possible(cfg, start, its) && WellFormed(cfg, it.world) && it.step in {Success, Error, Collecting}
    requires Faithful(it.world.addrs, LoopAfter(cfg, start, its).present)
    ensures Possible(cfg, start, its + [it])
    ensures LoopAfter(cfg, start, its + [it]) == Iterate(cfg, LoopAfter(cfg, start, its), it)
  {
    assert (its + [it])[..|its|] == its;
  }

  /** One address, to show what failures do. */
  const EXAMPLE := IPNet([192, 0, 2, 1], [255, 255, 255, 255])

  /** A truthful look-up of an interface that has the example address or not, and a command
      that ends like this. */
  function ExampleWorld(there: bool, e: Exec, cmdOk: bool): World {
    World(Env(Entries(if there then [NetAddr(EXAMPLE)] else []), [e]), cmdOk)
  }

  lemma ExampleIsListed(cfg: Config, there: bool, e: Exec, cmdOk: bool)
    requires cfg.ips == [EXAMPLE]
    ensures Keys(cfg.ips) == {KeyOf(EXAMPLE)}
    ensures Listed(ExampleWorld(there, e, cmdOk).addrs.lookup.addrs) == if there then {KeyOf(EXAMPLE)} else {}
  {
    assert KeyOf(cfg.ips[0]) in Keys(cfg.ips);
    if there {
      var ns := ExampleWorld(there, e, cmdOk).addrs.lookup.addrs;
      assert ns[0].NetAddr? && KeyOf(ns[0].net) in Listed(ns);
    }
  }

  /** While the checks fail the loop leaves the example address where it is, although every
      look-up and command would work. */
  lemma {:induction false} StaysStranded(cfg: Config, its: seq<Iteration>, n: nat) returns (more: seq<Iteration>)
    requires cfg.ips == [EXAMPLE] && Possible(cfg, {}, its)
    requires LoopAfter(cfg, {}, its) == LoopState(Error, Keys(cfg.ips))
    ensures |more| == n && forall i :: 0 <= i < n ==> more[i].step == Error && Works(cfg, more[i])
    ensures Possible(cfg, {}, its + more) && LoopAfter(cfg, {}, its + more) == LoopState(Error, Keys(cfg.ips))
  {
    hide Possible, LoopAfter, Clean;
    if n == 0 {
      more := [];
      assert its + more == its;
    } else {
      var front := StaysStranded(cfg, its, n - 1);
      var it := Iteration(Error, ExampleWorld(true, Done, true));
      ExampleIsListed(cfg, true, Done, true);
      OneIteration(cfg, {}, its + front, it);
      more := front + [it];
      assert its + more == its + front + [it];
    }
  }

  /** A failing success command leaves all addresses up under the status `Error`, and the
      loop never takes them down however long the checks fail, although all its look-ups
      and commands would work from then on. */
  lemma FailedCommandStrandsAddresses(n: nat) returns (cfg: Config, its: seq<Iteration>)
    ensures |its| == n + 1 && its[0].step == Success
    ensures forall i :: 0 < i <= n ==> its[i].step == Error && Works(cfg, its[i])
    ensures Possible(cfg, {}, its) && Keys(cfg.ips) != {}
    ensures LoopAfter(cfg, {}, its) == LoopState(Error, Keys(cfg.ips))
  {
    hide Possible, LoopAfter, Iterate, Works, Listed;
    cfg := Config([EXAMPLE], true);
    var it := Iteration(Success, ExampleWorld(false, Done, false));
    EmptyRun(cfg, {});
    ExampleIsListed(cfg, false, Done, false);
    ExampleRaise(cfg, false);
    OneIteration(cfg, {}, [], it);
    assert [] + [it] == [it];
    var more := StaysStranded(cfg, [it], n);
    its := [it] + more;
  }

  /** Raising the example address where it is missing. */
  lemma ExampleRaise(cfg: Config, cmdOk: bool)
    requires cfg.ips == [EXAMPLE]
    ensures Iterate(cfg, LoopState(Collecting, {}), Iteration(Success, ExampleWorld(false, Done, cmdOk))) ==
            LoopState(if cfg.hasSuccessCmd && !cmdOk then Error else Success, Keys(cfg.ips))
    ensures Works(cfg, Iteration(Success, ExampleWorld(false, Done, cmdOk))) <== !cfg.hasSuccessCmd || cmdOk
  {
    hide PassOver, Listed;
    var env := ExampleWorld(false, Done, cmdOk).addrs;
    ExampleIsListed(cfg, false, Done, cmdOk);
    NoErrorIff(Add, cfg.ips, env, {});
    PassGuarantees(Add, cfg.ips, env, {});
  }

  /** The same after a withdrawal whose command failed. */
  lemma FailedWithdrawalStrandsAddresses(n: nat) returns (cfg: Config, its: seq<Iteration>)
    ensures |its| == n + 2 && its[0].step == Success && Works(cfg, its[0]) && its[1].step == Error
    ensures forall i :: 1 < i <= n + 1 ==> its[i].step == Error && Works(cfg, its[i])
    ensures Possible(cfg, {}, its) && Keys(cfg.ips) != {}
    ensures LoopAfter(cfg, {}, its) == LoopState(Error, Keys(cfg.ips))
  {
    hide Possible, LoopAfter, Iterate, Works, Listed, Reconcile;
    cfg := Config([EXAMPLE], false);
    var up := Iteration(Success, ExampleWorld(false, Done, true));
    var down := Iteration(Error, ExampleWorld(true, Failed(false, "code 2"), true));
    EmptyRun(cfg, {});
    ExampleIsListed(cfg, false, Done, true);
    ExampleRaise(cfg, true);
    OneIteration(cfg, {}, [], up);
    assert [] + [up] == [up];
    ExampleIsListed(cfg, true, down.world.addrs.execs[0], true);
    NothingRemoved(cfg, down.world);
    OneIteration(cfg, {}, [up], down);
    var more := StaysStranded(cfg, [up] + [down], n);
    its := [up] + [down] + more;
  }

  lemma NothingRemoved(cfg: Config, w: World)
    requires cfg.ips == [EXAMPLE] && w == ExampleWorld(true, Failed(false, "code 2"), true)
    ensures Iterate(cfg, LoopState(Success, Keys(cfg.ips)), Iteration(Error, w)) == LoopState(Error, Keys(cfg.ips))
  {
    ExampleIsListed(cfg, true, w.addrs.execs[0], true);
    PassIs(Del, cfg.ips, Listed(w.addrs.lookup.addrs), w.addrs.execs, Keys(cfg.ips), 1);
  }
}
