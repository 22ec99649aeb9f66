/**
  The hysteresis automaton that the network checker and the service checker run.

  `Apply` and `Verdict` say what one check does to the three saturating counters
  and which state is then reported. The rest of the module says what the counters
  mean in terms of the whole sequence of check results, and what follows for runs.
 */
module Hysteresis {
  import opened Checker

  const MAX_INT32: int := 0x7fff_ffff

  datatype Thresholds = Thresholds(failCount: int, checkCount: int, resetCount: int)

  datatype Counters = Counters(failed: nat, success: nat, checked: nat)

  const ZERO := Counters(0, 0, 0)

  function Increment(n: nat): nat {
    if n < MAX_INT32 then n + 1 else n
  }

  function Apply(th: Thresholds, c: Counters, ok: bool): Counters {
    var checked := Increment(c.checked);
    if ok then
      var success := Increment(c.success);
      Counters(if c.failed > 0 && success >= th.resetCount then 0 else c.failed, success, checked)
    else
      Counters(Increment(c.failed), 0, checked)
  }

  function Verdict(th: Thresholds, c: Counters): State {
    if c.checked < th.checkCount then Collecting
    else if c.failed > 0 then
      if c.failed >= th.failCount then Error else Warn
    else Success
  }

  /** The counters after a sequence of check results, oldest first. */
  function Run(th: Thresholds, h: seq<bool>): Counters {
    if h == [] then ZERO else Apply(th, Run(th, h[..|h| - 1]), h[|h| - 1])
  }

  // ---------------------------------------------------------------- meaning in terms of history

  function Max(a: int, b: int): int {
    if a < b then b else a
  }

  function Capped(n: nat): nat {
    if n < 2147483647 then n else 2147483647
  }

  /** How many results in a row have to be good to forget earlier failures. */
  function Window(th: Thresholds): nat {
    Max(1, th.resetCount)
  }

  /** How many remembered failures make an error. */
  function Limit(th: Thresholds): nat {
    Max(1, th.failCount)
  }

  /** The `w` results before position `k` are all good. */
  predicate Clears(w: nat, h: seq<bool>, k: nat) {
    w <= k <= |h| && forall i :: k - w <= i < k ==> h[i]
  }

  function TrailingSuccesses(h: seq<bool>): (n: nat)
    ensures n <= |h|
    ensures forall i :: |h| - n <= i < |h| ==> h[i]
    ensures n < |h| ==> !h[|h| - n - 1]
  {
    if h == [] || !h[|h| - 1] then 0 else 1 + TrailingSuccesses(h[..|h| - 1])
  }

  /** The last position that ends `w` good results in a row, or 0. */
  function LastClear(w: nat, h: seq<bool>): (k: nat)
    requires w > 0
    ensures k <= |h|
    ensures k == 0 || Clears(w, h, k)
    ensures forall j :: k < j <= |h| ==> !Clears(w, h, j)
  {
    if h == [] then 0
    else if Clears(w, h, |h|) then |h|
    else
      var h' := h[..|h| - 1];
      assert forall j :: 0 <= j <= |h'| ==> (Clears(w, h, j) <==> Clears(w, h', j));
      LastClear(w, h')
  }

  function Failures(h: seq<bool>): nat {
    if h == [] then 0 else Failures(h[..|h| - 1]) + if h[|h| - 1] then 0 else 1
  }

  /** The failures that count against a check: those after the last position
      that ends `w` good results in a row. */
  function Remembered(w: nat, h: seq<bool>): nat
    requires w > 0
  {
    Failures(h[LastClear(w, h)..])
  }

  /** The failures the counters can know of: a success counter stuck at
      MAX_INT32 never reaches a larger resetCount. */
  function Outstanding(th: Thresholds, h: seq<bool>): nat {
    if th.resetCount <= MAX_INT32 then Remembered(Window(th), h) else Failures(h)
  }

  lemma RememberedStep(w: nat, h: seq<bool>, ok: bool)
    requires w > 0
    ensures Remembered(w, h + [ok]) ==
            if !ok then Remembered(w, h) + 1
            else if TrailingSuccesses(h) + 1 >= w then 0
            else Remembered(w, h)
  {
    var g := h + [ok];
    assert g[..|g| - 1] == h;
    var n := TrailingSuccesses(h);
    if Clears(w, g, |g|) {
      assert ok == g[|h|];
      assert n < |h| ==> !g[|h| - n - 1];
      assert g[LastClear(w, g)..] == [];
    } else {
      assert ok ==> n + 1 < w;
      var k := LastClear(w, h);
      assert LastClear(w, g) == k;
      assert g[k..] == h[k..] + [ok];
      assert g[k..][..|g[k..]| - 1] == h[k..];
    }
  }

  lemma OutstandingStep(th: Thresholds, h: seq<bool>, ok: bool)
    ensures Outstanding(th, h + [ok]) ==
            if !ok then Outstanding(th, h) + 1
            else if th.resetCount <= MAX_INT32 && TrailingSuccesses(h) + 1 >= Window(th) then 0
            else Outstanding(th, h)
  {
    assert (h + [ok])[..|h|] == h;
    RememberedStep(Window(th), h, ok);
  }

  lemma TrailingStep(h: seq<bool>, ok: bool)
    ensures TrailingSuccesses(h + [ok]) == if ok then TrailingSuccesses(h) + 1 else 0
  {
    assert (h + [ok])[..|h|] == h;
  }

  /** One check on saturated counters is one check on the true numbers, saturated. */
  lemma ApplyCapped(th: Thresholds, failures: nat, successes: nat, checks: nat, ok: bool)
    ensures Apply(th, Counters(Capped(failures), Capped(successes), Capped(checks)), ok) ==
            Counters(Capped(if !ok then failures + 1
                            else if th.resetCount <= MAX_INT32 && successes + 1 >= Window(th) then 0
                            else failures),
                     Capped(if ok then successes + 1 else 0),
                     Capped(checks + 1))
  {
  }

  /** The three counters are exactly the capped trailing success run, the capped
      number of outstanding failures and the capped number of checks. */
  lemma {:induction false} CountersRefineHistory(th: Thresholds, h: seq<bool>)
    ensures Run(th, h) ==
            Counters(Capped(Outstanding(th, h)), Capped(TrailingSuccesses(h)), Capped(|h|))
  {
    hide Apply, Capped, Outstanding, TrailingSuccesses;
    if h == [] {
      NothingCounted(th);
    } else {
      var h', ok := h[..|h| - 1], h[|h| - 1];
      CountersRefineHistory(th, h');
      assert h == h' + [ok];
      OutstandingStep(th, h', ok);
      TrailingStep(h', ok);
      ApplyCapped(th, Outstanding(th, h'), TrailingSuccesses(h'), |h'|, ok);
    }
  }

  lemma NothingCounted(th: Thresholds)
    ensures Counters(Capped(Outstanding(th, [])), Capped(TrailingSuccesses([])), Capped(0)) == ZERO
  {
    var none: seq<bool> := [];
    assert none[LastClear(Window(th), none)..] == none;
  }

  /** The state the configuration promises, with no machine width in it. */
  function Promised(th: Thresholds, h: seq<bool>): State {
    if |h| < th.checkCount then Collecting
    else if Remembered(Window(th), h) >= Limit(th) then Error
    else if Remembered(Window(th), h) > 0 then Warn
    else Success
  }

  predicate Fits(th: Thresholds) {
    th.failCount <= 2147483647 && th.checkCount <= 2147483647 && th.resetCount <= 2147483647
  }

  lemma VerdictKeepsPromise(th: Thresholds, h: seq<bool>)
    requires Fits(th)
    ensures Verdict(th, Run(th, h)) == Promised(th, h)
  {
    CountersRefineHistory(th, h);
  }

  lemma {:induction false} AllBad(w: nat, n: nat)
    requires w > 0
    ensures var h := seq(n, _ => false);
            LastClear(w, h) == 0 && Failures(h) == n && Remembered(w, h) == n
  {
    var h := seq(n, i => false);
    assert h == seq(n, _ => false);
    assert h[0..] == h;
    if n > 0 {
      AllBad(w, n - 1);
      assert h[..n - 1] == seq(n - 1, _ => false);
    }
    forall j | 0 < j <= n ensures !Clears(w, h, j) {
      assert !h[j - 1];
    }
  }

  lemma {:induction false} OneFailureFailures(n: nat)
    ensures Failures([false] + seq(n, _ => true)) == 1
  {
    var h := [false] + seq(n, _ => true);
    if n == 0 {
      assert h == [false];
      assert h[..0] == [];
    } else {
      assert h[..|h| - 1] == [false] + seq(n - 1, _ => true);
      OneFailureFailures(n - 1);
    }
  }

  /** Good results after a failure make the counters forget all failures exactly when there is
      one and there are resetCount of them. */
  lemma {:induction false} GoodResultsForget(th: Thresholds, h: seq<bool>, n: nat)
    requires n <= 2147483647
    ensures Run(th, h + [false] + seq(n, _ => true)).success == n
    ensures Run(th, h + [false] + seq(n, _ => true)).failed == 0 <==> n >= 1 && n >= th.resetCount
  {
    var g := h + [false] + seq(n, _ => true);
    if n == 0 {
      assert g[|g| - 1] == false;
    } else {
      GoodResultsForget(th, h, n - 1);
      assert g[|g| - 1] == true && g[..|g| - 1] == h + [false] + seq(n - 1, _ => true);
    }
  }

  /** What n failures and nothing else are reported as. */
  lemma {:induction false} FailuresAreReported(th: Thresholds, n: nat)
    requires n <= 2147483647
    ensures Run(th, seq(n, _ => false)) == Counters(n, 0, n)
    ensures Verdict(th, Run(th, seq(n, _ => false))) ==
            if n < th.checkCount then Collecting
            else if n == 0 then Success
            else if n < th.failCount then Warn
            else Error
  {
    if n > 0 {
      FailuresAreReported(th, n - 1);
      var h := seq(n, _ => false);
      assert h[|h| - 1] == false && h[..|h| - 1] == seq(n - 1, _ => false);
    }
  }

  /** A run on which the counters break the promise when a threshold does not
      fit in 32 bits: a counter that saturates below the threshold. */
  lemma TooWideBreaksPromise(th: Thresholds) returns (h: seq<bool>)
    requires !Fits(th)
    ensures Verdict(th, Run(th, h)) != Promised(th, h)
  {
    if th.checkCount > MAX_INT32 || th.resetCount <= MAX_INT32 {
      var n := Max(Max(1, th.checkCount), th.failCount);
      h := seq(n, _ => false);
      AllBad(Window(th), n);
      CountersRefineHistory(th, h);
    } else {
      var n := Max(th.resetCount, th.checkCount);
      h := [false] + seq(n, _ => true);
      OneFailureFailures(n);
      CountersRefineHistory(th, h);
      assert Clears(Window(th), h, |h|);
      assert h[|h|..] == [];
    }
  }

  /** The reported state is the promised one on every run exactly when all three
      thresholds fit in 32 bits. */
  lemma PromiseKeptIffThresholdsFit(th: Thresholds)
    ensures Fits(th) <==> forall h: seq<bool> :: Verdict(th, Run(th, h)) == Promised(th, h)
  {
    if Fits(th) {
      forall h: seq<bool> ensures Verdict(th, Run(th, h)) == Promised(th, h) {
        VerdictKeepsPromise(th, h);
      }
    } else {
      var h := TooWideBreaksPromise(th);
    }
  }

  // ---------------------------------------------------------------- what holds along every run

  /** One more check: `Collecting` is left for good, `Error` is never followed by
      `Warn`, it is left only on completing a window of good results, and a single
      failure turns `Success` into `Error` exactly when failCount is at most 1. */
  lemma Transitions(th: Thresholds, h: seq<bool>, ok: bool)
    ensures var before, after := Verdict(th, Run(th, h)), Verdict(th, Run(th, h + [ok]));
            && (before != Collecting ==> after != Collecting)
            && (before == Error ==> after in {Error, Success})
            && (before == Error && after != Error ==>
                  th.resetCount <= MAX_INT32 && Clears(Window(th), h + [ok], |h| + 1))
            && (before == Success ==> (after == Error <==> !ok && th.failCount <= 1))
  {
    var g := h + [ok];
    assert g[..|g| - 1] == h;
    CountersRefineHistory(th, h);
    CountersRefineHistory(th, g);
    var n := TrailingSuccesses(g);
    if ok && n >= Window(th) {
      assert Clears(Window(th), g, |g|);
    }
  }

  lemma NeverCollectingAgain(th: Thresholds, h: seq<bool>, i: nat, j: nat)
    requires i <= j <= |h|
    requires Verdict(th, Run(th, h[..i])) != Collecting
    ensures Verdict(th, Run(th, h[..j])) != Collecting
  {
    CountersRefineHistory(th, h[..i]);
    CountersRefineHistory(th, h[..j]);
  }

  /** Between a reported error and a later state other than error lies a window of
      good results that ends after the error was reported. */
  lemma {:induction false} LeavingErrorNeedsGoodWindow(th: Thresholds, h: seq<bool>, i: nat, j: nat) returns (k: nat)
    requires i < j <= |h|
    requires Verdict(th, Run(th, h[..i])) == Error
    requires Verdict(th, Run(th, h[..j])) != Error
    ensures th.resetCount <= MAX_INT32
    ensures i < k <= j && Clears(Window(th), h, k)
    decreases j
  {
    if i < j - 1 && Verdict(th, Run(th, h[..j - 1])) != Error {
      k := LeavingErrorNeedsGoodWindow(th, h, i, j - 1);
    } else {
      assert h[..j] == h[..j - 1] + [h[j - 1]];
      Transitions(th, h[..j - 1], h[j - 1]);
      assert forall m :: 0 <= m < j ==> h[m] == h[..j][m];
      k := j;
    }
  }

  lemma {:induction false} FailuresGrow(h: seq<bool>, n: nat)
    requires n <= |h|
    ensures Failures(h[..n]) <= Failures(h) <= Failures(h[..n]) + |h| - n
  {
    if n < |h| {
      var g := h[..|h| - 1];
      FailuresGrow(g, n);
      assert g[..n] == h[..n];
    } else {
      assert h[..n] == h;
    }
  }

  lemma {:induction false} FailuresOfBadTail(h: seq<bool>, n: nat)
    requires n <= |h| && forall i :: n <= i < |h| ==> !h[i]
    ensures Failures(h) == Failures(h[..n]) + |h| - n
  {
    if n < |h| {
      var g := h[..|h| - 1];
      FailuresOfBadTail(g, n);
      assert g[..n] == h[..n];
    } else {
      assert h[..n] == h;
    }
  }

  /** Failing without a break for `Limit` checks is reported as an error, and being
      good for a whole window as a success, once checkCount checks have been made. */
  lemma SteadyResultsAreReported(th: Thresholds, h: seq<bool>, n: nat)
    requires Fits(th) && th.checkCount <= |h| && n <= |h|
    ensures n >= Limit(th) && (forall i :: |h| - n <= i < |h| ==> !h[i]) ==>
              Verdict(th, Run(th, h)) == Error
    ensures n >= Window(th) && (forall i :: |h| - n <= i < |h| ==> h[i]) ==>
              Verdict(th, Run(th, h)) == Success
  {
    VerdictKeepsPromise(th, h);
    var w := Window(th);
    if n >= Limit(th) && forall i :: |h| - n <= i < |h| ==> !h[i] {
      var k := LastClear(w, h);
      assert k <= |h| - n by {
        assert k > 0 ==> h[k - 1];
      }
      var g := h[k..];
      FailuresOfBadTail(g, |h| - n - k);
    }
    if n >= w && forall i :: |h| - n <= i < |h| ==> h[i] {
      assert Clears(w, h, |h|);
      assert h[|h|..] == [];
    }
  }

  /** If some check fails in every window, all failures stay on record: the error
      state is reached with the failCount-th failure and never left. */
  lemma RepeatedFailuresLatch(th: Thresholds, h: seq<bool>)
    requires Fits(th)
    requires forall k :: 0 <= k <= |h| ==> !Clears(Window(th), h, k)
    ensures forall n {:trigger Verdict(th, Run(th, h[..n]))} :: 0 <= n <= |h| ==>
              (Verdict(th, Run(th, h[..n])) == Error <==> n >= th.checkCount && Failures(h[..n]) >= Limit(th))
    ensures forall m, n {:trigger Verdict(th, Run(th, h[..m])), Verdict(th, Run(th, h[..n]))} ::
              0 <= m <= n <= |h| && Verdict(th, Run(th, h[..m])) == Error ==> Verdict(th, Run(th, h[..n])) == Error
  {
    forall n | 0 <= n <= |h|
      ensures Verdict(th, Run(th, h[..n])) == Error <==> n >= th.checkCount && Failures(h[..n]) >= Limit(th)
    {
      var g := h[..n];
      VerdictKeepsPromise(th, g);
      var k := LastClear(Window(th), g);
      assert forall i :: 0 <= i < n ==> g[i] == h[i];
      assert Clears(Window(th), g, k) ==> Clears(Window(th), h, k);
      assert g[0..] == g;
    }
    forall m, n | 0 <= m <= n <= |h| && Verdict(th, Run(th, h[..m])) == Error
      ensures Verdict(th, Run(th, h[..n])) == Error
    {
      FailuresGrow(h[..n], m);
      assert h[..n][..m] == h[..m];
    }
  }

  // ---------------------------------------------------------------- runs with resets

  /** What a check yields: a good or bad result, or no result at all, on which the
      service checker starts counting again from zero. */
  datatype Observation = Good | Bad | Reset

  function Observe(th: Thresholds, c: Counters, o: Observation): Counters {
    match o
    case Good => Apply(th, c, true)
    case Bad => Apply(th, c, false)
    case Reset => ZERO
  }

  function RunObserved(th: Thresholds, os: seq<Observation>): Counters {
    if os == [] then ZERO else Observe(th, RunObserved(th, os[..|os| - 1]), os[|os| - 1])
  }

  /** The position just after the last reset, or 0. */
  function LastReset(os: seq<Observation>): (k: nat)
    ensures k <= |os|
    ensures k == 0 || os[k - 1] == Reset
    ensures forall i :: k <= i < |os| ==> os[i] != Reset
  {
    if os == [] then 0
    else if os[|os| - 1] == Reset then |os|
    else LastReset(os[..|os| - 1])
  }

  /** The results since the last reset. */
  function Counted(os: seq<Observation>): seq<bool> {
    var k := LastReset(os);
    seq(|os| - k, i requires 0 <= i < |os| - k => os[k + i] == Good)
  }

  /** A reset wipes the record: only the results after the last one matter. */
  lemma {:induction false} ResetForgetsTheRest(th: Thresholds, os: seq<Observation>)
    ensures RunObserved(th, os) == Run(th, Counted(os))
  {
    if os != [] && os[|os| - 1] != Reset {
      var front := os[..|os| - 1];
      ResetForgetsTheRest(th, front);
      var h := Counted(os);
      assert h[..|h| - 1] == Counted(front);
    }
  }
}
