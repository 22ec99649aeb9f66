/**
  The fan-out/fan-in protocol of a cluster check: one goroutine per endpoint probes
  it and sends its index and error into a buffered channel, the caller starts the
  goroutines, receives one message per endpoint, and closes the channel on return.

  A run is a sequence of atomic steps of the caller and the goroutines in any
  interleaving. `errs[i]` is what goroutine i's probe yields.
 */
module FanIn {
  import opened Checker

  datatype Message = Message(n: nat, err: ErrorText)

  datatype Fan = Fan(
    started: nat,             // goroutines the caller has started
    sends: seq<nat>,          // the goroutines that have sent, in order
    channel: seq<Message>,    // messages sent and not received
    checks: seq<ErrorText>,   // the caller's result slice
    count: nat,               // messages the caller has received
    failed: nat,              // those that carried an error
    closed: bool)

  datatype Step = Start | Send(i: nat) | Receive | Close

  function Init(n: nat): Fan {
    Fan(0, [], [], seq(n, _ => None), 0, 0, false)
  }

  /** Goroutine i is at its send statement. */
  predicate AtSend(s: Fan, i: nat) {
    i < s.started && i !in s.sends
  }

  /** The channel has room for one more message per endpoint in all; a send to a full
      channel blocks, a send to a closed one panics. */
  predicate Enabled(errs: seq<ErrorText>, s: Fan, step: Step) {
    match step
    case Start => s.started < |errs|
    case Send(i) => AtSend(s, i) && i < |errs| && |s.channel| < |errs| && !s.closed
    case Receive => s.started == |errs| && s.count < |errs| && s.channel != [] && s.channel[0].n < |s.checks|
    case Close => s.started == |errs| && s.count == |errs| && !s.closed
  }

  function Next(errs: seq<ErrorText>, s: Fan, step: Step): Fan
    requires Enabled(errs, s, step)
  {
    match step
    case Start => s.(started := s.started + 1)
    case Send(i) => s.(sends := s.sends + [i], channel := s.channel + [Message(i, errs[i])])
    case Receive =>
      var m := s.channel[0];
      s.(channel := s.channel[1..],
         checks := s.checks[m.n := m.err],
         count := s.count + 1,
         failed := if m.err.Some? then s.failed + 1 else s.failed)
    case Close => s.(closed := true)
  }

  ghost predicate Legal(errs: seq<ErrorText>, run: seq<Step>)
    decreases |run|, 0
  {
    run == [] || (Legal(errs, run[..|run| - 1]) && Enabled(errs, After(errs, run[..|run| - 1]), run[|run| - 1]))
  }

  ghost function After(errs: seq<ErrorText>, run: seq<Step>): Fan
    requires Legal(errs, run)
    decreases |run|, 1
  {
    if run == [] then Init(|errs|) else Next(errs, After(errs, run[..|run| - 1]), run[|run| - 1])
  }

  // ---------------------------------------------------------------- orders of arrival

  predicate Distinct(order: seq<nat>, n: nat) {
    && (forall k :: 0 <= k < |order| ==> order[k] < n)
    && (forall j, k :: 0 <= j < k < |order| ==> order[j] != order[k])
  }

  /** Every index below n occurs exactly once. */
  predicate Permutation(order: seq<nat>, n: nat) {
    |order| == n && Distinct(order, n)
  }

  lemma DistinctAppend(order: seq<nat>, i: nat, n: nat)
    requires Distinct(order, n) && i < n && i !in order
    ensures Distinct(order + [i], n)
  {
  }

  function Elements(order: seq<nat>): set<nat> {
    set i | i in order
  }

  function Below(n: nat): (below: set<nat>)
    ensures |below| == n
    ensures forall i: nat :: i in below <==> i < n
  {
    if n == 0 then {} else Below(n - 1) + {n - 1}
  }

  lemma {:induction false} SizeDistinct(order: seq<nat>, n: nat)
    requires Distinct(order, n)
    ensures |Elements(order)| == |order|
  {
    if order != [] {
      var front, last := order[..|order| - 1], order[|order| - 1];
      SizeDistinct(front, n);
      assert order == front + [last];
      assert Elements(order) == Elements(front) + {last};
    }
  }

  /** Distinct indices below n: n of them are all, fewer leave one out. */
  lemma DistinctFits(order: seq<nat>, n: nat)
    requires Distinct(order, n)
    ensures |order| <= n
    ensures |order| == n <==> forall i: nat :: i < n ==> i in order
  {
    SizeDistinct(order, n);
    SubsetSize(Elements(order), Below(n));
    if |order| == n {
      forall i: nat | i < n ensures i in order {
        assert i in Below(n);
      }
    } else {
      assert Below(n) == Elements(order) + (Below(n) - Elements(order));
      var i :| i in Below(n) - Elements(order);
      assert i < n && i !in order;
    }
  }

  lemma SubsetSize(a: set<nat>, b: set<nat>)
    requires a <= b
    ensures |a| <= |b|
    ensures |a| == |b| ==> a == b
  {
    assert b == a + (b - a);
    assert b - a == {} ==> a == b;
  }

  function ErrorsAmong(errs: seq<ErrorText>, order: seq<nat>): nat
    requires forall k :: 0 <= k < |order| ==> order[k] < |errs|
  {
    if order == [] then 0
    else ErrorsAmong(errs, order[..|order| - 1]) + if errs[order[|order| - 1]].Some? then 1 else 0
  }

  /** The caller's verdict, failures fewer than messages, means that some message
      carried no error. */
  lemma {:induction false} FewerFailuresThanMessages(errs: seq<ErrorText>, order: seq<nat>)
    requires forall k :: 0 <= k < |order| ==> order[k] < |errs|
    ensures ErrorsAmong(errs, order) <= |order|
    ensures ErrorsAmong(errs, order) < |order| <==> exists k :: 0 <= k < |order| && errs[order[k]].None?
  {
    if order != [] {
      var front := order[..|order| - 1];
      FewerFailuresThanMessages(errs, front);
      if k :| 0 <= k < |order| && errs[order[k]].None? {
        if k < |front| { assert errs[front[k]].None?; }
      }
    }
  }

  // ---------------------------------------------------------------- the invariant

  ghost predicate Inv(errs: seq<ErrorText>, s: Fan) {
    && s.started <= |errs| == |s.checks|
    && Distinct(s.sends, s.started)
    && s.count + |s.channel| == |s.sends|
    && (forall k :: 0 <= k < |s.channel| ==>
          s.channel[k] == Message(s.sends[s.count + k], errs[s.sends[s.count + k]]))
    && (forall k :: 0 <= k < s.count ==> s.checks[s.sends[k]] == errs[s.sends[k]])
    && s.failed == ErrorsAmong(errs, s.sends[..s.count])
    && (s.closed ==> s.started == s.count == |errs|)
  }

  /** What remains to be done: each endpoint is started, sends and is received. */
  ghost function Remaining(errs: seq<ErrorText>, s: Fan): int {
    3 * (|errs| - s.started) + 2 * (s.started - |s.sends|) + (|s.sends| - s.count) + if s.closed then 0 else 1
  }

  lemma SendKeepsInv(errs: seq<ErrorText>, s: Fan, i: nat)
    requires Inv(errs, s) && Enabled(errs, s, Send(i))
    ensures Inv(errs, Next(errs, s, Send(i)))
  {
    var t := Next(errs, s, Send(i));
    DistinctAppend(s.sends, i, s.started);
    assert t.sends[..t.count] == s.sends[..s.count];
    forall k | 0 <= k < |t.channel|
      ensures t.channel[k] == Message(t.sends[t.count + k], errs[t.sends[t.count + k]])
    {
      if k < |s.channel| { assert t.channel[k] == s.channel[k]; }
    }
  }

  lemma ReceiveKeepsInv(errs: seq<ErrorText>, s: Fan)
    requires Inv(errs, s) && Enabled(errs, s, Receive)
    ensures Inv(errs, Next(errs, s, Receive))
  {
    var t := Next(errs, s, Receive);
    assert s.channel[0] == Message(s.sends[s.count + 0], errs[s.sends[s.count + 0]]);
    assert t.sends[..t.count][..t.count - 1] == s.sends[..s.count];
    forall k | 0 <= k < |t.channel|
      ensures t.channel[k] == Message(t.sends[t.count + k], errs[t.sends[t.count + k]])
    {
      assert t.channel[k] == s.channel[k + 1];
    }
  }

  lemma StepKeepsInv(errs: seq<ErrorText>, s: Fan, step: Step)
    requires Inv(errs, s) && Enabled(errs, s, step)
    ensures Inv(errs, Next(errs, s, step))
    ensures Remaining(errs, Next(errs, s, step)) == Remaining(errs, s) - 1
  {
    match step
    case Start =>
    case Send(i) => SendKeepsInv(errs, s, i);
    case Receive => ReceiveKeepsInv(errs, s);
    case Close =>
  }

  lemma {:induction false} InvHolds(errs: seq<ErrorText>, run: seq<Step>)
    requires Legal(errs, run)
    ensures Inv(errs, After(errs, run))
    ensures Remaining(errs, After(errs, run)) == 3 * |errs| + 1 - |run|
  {
    if run != [] {
      var front := run[..|run| - 1];
      InvHolds(errs, front);
      StepKeepsInv(errs, After(errs, front), run[|run| - 1]);
    }
  }

  // ---------------------------------------------------------------- theorems

  /** No goroutine ever blocks on its send or sends to the closed channel. */
  lemma SendsNeverBlockOrPanic(errs: seq<ErrorText>, run: seq<Step>, i: nat)
    requires Legal(errs, run)
    requires AtSend(After(errs, run), i)
    ensures Enabled(errs, After(errs, run), Send(i))
  {
    InvHolds(errs, run);
    var s := After(errs, run);
    DistinctAppend(s.sends, i, s.started);
    DistinctFits(s.sends + [i], s.started);
  }

  /** Some step is possible until the channel is closed. */
  lemma NoDeadlock(errs: seq<ErrorText>, run: seq<Step>) returns (step: Step)
    requires Legal(errs, run)
    requires !After(errs, run).closed
    ensures Enabled(errs, After(errs, run), step)
  {
    InvHolds(errs, run);
    var s := After(errs, run);
    if s.started < |errs| {
      step := Start;
    } else if s.channel != [] {
      DistinctFits(s.sends, s.started);
      assert s.channel[0] == Message(s.sends[s.count + 0], errs[s.sends[s.count + 0]]);
      step := Receive;
    } else if s.count == |errs| {
      step := Close;
    } else {
      DistinctFits(s.sends, s.started);
      var i: nat :| i < s.started && i !in s.sends;
      step := Send(i);
    }
  }

  /** Whatever the interleaving, a check takes exactly three steps per endpoint and
      one to close: no run is longer, and the channel is closed when they are made. */
  lemma EveryRunEnds(errs: seq<ErrorText>, run: seq<Step>)
    requires Legal(errs, run)
    ensures |run| <= 3 * |errs| + 1
    ensures |run| == 3 * |errs| + 1 <==> After(errs, run).closed
  {
    InvHolds(errs, run);
    var s := After(errs, run);
    DistinctFits(s.sends, s.started);
  }

  /** When the channel is closed every goroutine has sent exactly once, the result
      slice holds goroutine i's error at position i, and the verdict is that some
      endpoint has no error. None of this depends on the order of arrival. */
  lemma ResultIsOrderIndependent(errs: seq<ErrorText>, run: seq<Step>)
    requires Legal(errs, run)
    requires After(errs, run).closed
    ensures var s := After(errs, run);
            && Permutation(s.sends, |errs|)
            && s.checks == errs
            && (s.failed < s.count <==> exists i :: 0 <= i < |errs| && errs[i].None?)
  {
    InvHolds(errs, run);
    var s := After(errs, run);
    DistinctFits(s.sends, s.started);
    assert s.sends[..s.count] == s.sends;
    FewerFailuresThanMessages(errs, s.sends);
    forall i: nat | i < |errs| ensures s.checks[i] == errs[i] {
      assert i in s.sends;
    }
    if i :| 0 <= i < |errs| && errs[i].None? {
      assert i in s.sends;
      var k :| 0 <= k < |s.sends| && s.sends[k] == i;
      assert errs[s.sends[k]].None?;
    }
  }

  // ---------------------------------------------------------------- every order is possible

  lemma Extend(errs: seq<ErrorText>, run: seq<Step>, step: Step)
    requires Legal(errs, run) && Enabled(errs, After(errs, run), step)
    ensures Legal(errs, run + [step]) && After(errs, run + [step]) == Next(errs, After(errs, run), step)
  {
    assert (run + [step])[..|run|] == run;
  }

  /** The first n messages to arrive. */
  function Messages(errs: seq<ErrorText>, order: seq<nat>, n: nat): (ms: seq<Message>)
    requires Permutation(order, |errs|) && n <= |order|
    ensures |ms| == n
  {
    if n == 0 then [] else Messages(errs, order, n - 1) + [Message(order[n - 1], errs[order[n - 1]])]
  }

  lemma {:induction false} Starting(errs: seq<ErrorText>, n: nat) returns (run: seq<Step>)
    requires n <= |errs|
    ensures Legal(errs, run) && After(errs, run) == Init(|errs|).(started := n)
  {
    if n == 0 {
      run := [];
    } else {
      run := Starting(errs, n - 1);
      Extend(errs, run, Start);
      run := run + [Start];
    }
  }

  lemma {:induction false} Sending(errs: seq<ErrorText>, order: seq<nat>, n: nat) returns (run: seq<Step>)
    requires Permutation(order, |errs|) && n <= |errs|
    ensures Legal(errs, run)
    ensures After(errs, run) ==
            Init(|errs|).(started := |errs|, sends := order[..n], channel := Messages(errs, order, n))
  {
    hide Legal, After;
    if n == 0 {
      run := Starting(errs, |errs|);
    } else {
      run := Sending(errs, order, n - 1);
      Extend(errs, run, Send(order[n - 1]));
      run := run + [Send(order[n - 1])];
      assert order[..n] == order[..n - 1] + [order[n - 1]];
    }
  }

  lemma {:induction false} Receiving(errs: seq<ErrorText>, order: seq<nat>, n: nat) returns (run: seq<Step>)
    requires Permutation(order, |errs|) && n <= |errs|
    ensures Legal(errs, run)
    ensures var s := After(errs, run);
            s.started == |errs| && s.sends == order && s.count == n && !s.closed
  {
    hide Legal, After, Inv, Permutation;
    if n == 0 {
      run := Sending(errs, order, |errs|);
      assert order[..|errs|] == order by { PermutationLength(order, |errs|); }
    } else {
      run := Receiving(errs, order, n - 1);
      var step := NoDeadlock(errs, run);
      PermutationLength(order, |errs|);
      OnlyReceive(errs, After(errs, run), step);
      Extend(errs, run, Receive);
      run := run + [Receive];
    }
  }

  lemma PermutationLength(order: seq<nat>, n: nat)
    requires Permutation(order, n)
    ensures |order| == n && forall i: nat :: i < n ==> i in order
  {
    DistinctFits(order, n);
  }

  /** When all goroutines have sent and not all messages are received, the only step is to
      receive. */
  lemma OnlyReceive(errs: seq<ErrorText>, s: Fan, step: Step)
    requires Enabled(errs, s, step) && s.started == |errs| && s.count < |errs|
    requires forall i: nat :: i < |errs| ==> i in s.sends
    ensures step == Receive
  {
  }

  /** Every order of the messages happens in some run. */
  lemma EveryOrderHappens(errs: seq<ErrorText>, order: seq<nat>) returns (run: seq<Step>)
    requires Permutation(order, |errs|)
    ensures Legal(errs, run) && After(errs, run).closed && After(errs, run).sends == order
  {
    hide Legal, After;
    run := Receiving(errs, order, |errs|);
    Extend(errs, run, Close);
    run := run + [Close];
  }
}
