/**
  The way of a metric to the metrics server: the main loop puts metrics into a bounded
  queue, dropping old ones when it is full, and a goroutine takes them out and sends
  them in batches.

  A run is a sequence of atomic steps of the two in any interleaving. The queue itself
  is taken to be an atomic first-in-first-out queue. Metrics are named by the order in
  which they are offered: 0, 1, 2, ...
 */
module MetricQueue {
  import opened Checker

  /** The queue's size and the size of a full batch. */
  datatype Params = Params(capacity: nat, batch: nat)

  /** Where `Put` is: outside, or with metric m rejected and `gets` calls of Get to go
      before it tries again. */
  datatype Producer = Idle | Making(m: nat, gets: nat)

  /** Where the goroutine is: at the loop's head, or before its first or second Get. */
  datatype Sender = Top | Poll | PollAgain

  datatype Flow = Flow(
    offered: nat,               // metrics that `Put` was called with
    producer: Producer,
    queue: seq<nat>,
    sender: Sender,
    buffer: seq<nat>,           // the metrics in metrics[0..i]
    nextSend: bool,
    failed: bool,
    started: bool,              // whether `Run` was called
    running: bool,
    delivered: seq<seq<nat>>,   // the batches that were sent without error
    dropped: seq<nat>,          // the metrics given up
    rejections: nat,            // first tries that found the queue full
    lastRejected: bool)         // whether the latest first try did

  datatype Step = Begin | Offer | Drop | Retry | Unreachable | SendFails | SendWorks | Take | Stop

  function Init(): Flow {
    Flow(0, Idle, [], Top, [], false, false, false, false, [], [], 0, false)
  }

  /** The goroutine sends before it takes more: its batch is full, or it found nothing. */
  predicate Due(p: Params, s: Flow) {
    |s.buffer| == p.batch || s.nextSend
  }

  predicate Enabled(p: Params, s: Flow, step: Step) {
    match step
    case Begin => !s.started
    case Offer => s.producer.Idle?
    case Drop => s.producer.Making? && s.producer.gets > 0
    case Retry => s.producer.Making? && s.producer.gets == 0
    case Unreachable => s.running && s.sender.Top? && Due(p, s)
    case SendFails => s.running && s.sender.Top? && Due(p, s)
    case SendWorks => s.running && s.sender.Top? && Due(p, s)
    case Take => !s.sender.Top? || (s.running && !Due(p, s))
    case Stop => true
  }

  function TryPut(p: Params, queue: seq<nat>, m: nat): seq<nat> {
    if |queue| < p.capacity then queue + [m] else queue
  }

  function Next(p: Params, s: Flow, step: Step): Flow
    requires Enabled(p, s, step)
  {
    match step
    case Begin => s.(started := true, running := true)
    case Offer =>
      var full := |s.queue| >= p.capacity;
      s.(offered := s.offered + 1,
         queue := TryPut(p, s.queue, s.offered),
         producer := if full then Making(s.offered, 2) else Idle,
         rejections := if full then s.rejections + 1 else s.rejections,
         lastRejected := full)
    case Drop =>
      s.(producer := Making(s.producer.m, s.producer.gets - 1),
         queue := if s.queue == [] then [] else s.queue[1..],
         dropped := if s.queue == [] then s.dropped else s.dropped + [s.queue[0]])
    case Retry =>
      s.(producer := Idle,
         queue := TryPut(p, s.queue, s.producer.m),
         dropped := if |s.queue| < p.capacity then s.dropped else s.dropped + [s.producer.m])
    case Unreachable => s.(failed := true)
    case SendFails => s.(failed := true)
    case SendWorks =>
      s.(delivered := s.delivered + [s.buffer], buffer := [], nextSend := false, failed := false, sender := Poll)
    case Take =>
      if s.queue != [] then s.(queue := s.queue[1..], buffer := s.buffer + [s.queue[0]], sender := Top)
      else if !s.sender.PollAgain? then s.(sender := PollAgain)
      else s.(sender := Top, nextSend := s.buffer != [])
    case Stop => s.(running := false)
  }

  ghost predicate Legal(p: Params, run: seq<Step>)
    decreases |run|, 0
  {
    run == [] || (Legal(p, run[..|run| - 1]) && Enabled(p, After(p, run[..|run| - 1]), run[|run| - 1]))
  }

  ghost function After(p: Params, run: seq<Step>): Flow
    requires Legal(p, run)
    decreases |run|, 1
  {
    if run == [] then Init() else Next(p, After(p, run[..|run| - 1]), run[|run| - 1])
  }

  // ---------------------------------------------------------------- the invariant

  function Flat(batches: seq<seq<nat>>): seq<nat> {
    if batches == [] then [] else Flat(batches[..|batches| - 1]) + batches[|batches| - 1]
  }

  /** What the goroutine has taken, in order. */
  function Taken(s: Flow): seq<nat> {
    Flat(s.delivered) + s.buffer
  }

  /** The metrics from a up to b. */
  function Range(a: nat, b: nat): (r: seq<nat>)
    requires a <= b
    ensures |r| == b - a && forall i :: 0 <= i < |r| ==> r[i] == a + i
  {
    seq(b - a, i requires 0 <= i < b - a => a + i)
  }

  predicate Increasing(s: seq<nat>) {
    forall i :: 0 < i < |s| ==> s[i - 1] < s[i]
  }

  /** How many offered metrics have been in the queue or given up. */
  function Settled(s: Flow): nat {
    if s.producer.Making? && s.offered > 0 then s.offered - 1 else s.offered
  }

  /** Together these are the metrics below n, each once, and both are in order. */
  ghost predicate Partition(n: nat, taken: seq<nat>, dropped: seq<nat>) {
    && Increasing(taken) && Increasing(dropped)
    && multiset(taken) + multiset(dropped) == multiset(Range(0, n))
  }

  /** The queue holds the newest of the settled metrics, without a gap, and all older
      ones have been taken or dropped. */
  ghost predicate Conserved(s: Flow) {
    && |s.queue| <= Settled(s)
    && s.queue == Range(Settled(s) - |s.queue|, Settled(s))
    && Partition(Settled(s) - |s.queue|, Taken(s), s.dropped)
  }

  predicate ProperBatches(p: Params, batches: seq<seq<nat>>) {
    forall i :: 0 <= i < |batches| ==> 0 < |batches[i]| <= p.batch
  }

  /** The goroutine: at most a full batch, no empty batch, and room for one more metric
      whenever it takes one. */
  predicate SenderInv(p: Params, s: Flow) {
    && |s.buffer| <= p.batch
    && (s.nextSend ==> s.buffer != [])
    && (!s.sender.Top? ==> |s.buffer| < p.batch && !s.nextSend)
    && ProperBatches(p, s.delivered)
  }

  /** `Put`: the queue is never too long, there is room for the second try, and after a
      rejected metric there is room for the next if the queue can hold two. */
  predicate ProducerInv(p: Params, s: Flow) {
    && |s.queue| <= p.capacity
    && (s.producer.Making? ==> s.producer.m + 1 == s.offered && s.producer.gets <= 2)
    && (s.producer.Making? ==> s.lastRejected && s.rejections > 0)
    && (s.producer.Making? ==> s.queue == [] || |s.queue| + 2 <= p.capacity + s.producer.gets)
    && (s.producer.Idle? && s.lastRejected && p.capacity >= 2 ==> |s.queue| < p.capacity)
    && (p.capacity > 0 ==>
          |s.dropped| + (if s.producer.Making? then s.producer.gets else 0) <= 2 * s.rejections)
    && (p.capacity == 0 ==> |s.dropped| + (if s.producer.Making? then 1 else 0) <= s.rejections)
  }

  ghost predicate Inv(p: Params, s: Flow) {
    SenderInv(p, s) && ProducerInv(p, s) && Conserved(s)
  }

  lemma RangeFirst(a: nat, b: nat)
    requires a < b
    ensures Range(a, b) == [a] + Range(a + 1, b)
    ensures Range(a, b)[1..] == Range(a + 1, b)
  {
  }

  lemma RangeSplit(a: nat, b: nat)
    requires a <= b
    ensures Range(0, b) == Range(0, a) + Range(a, b)
  {
  }

  lemma RangeLast(a: nat, b: nat)
    requires a <= b
    ensures Range(a, b + 1) == Range(a, b) + [b]
  {
  }

  lemma Bounded(n: nat, s: seq<nat>, t: seq<nat>)
    requires multiset(s) + multiset(t) == multiset(Range(0, n))
    ensures forall m :: m in s ==> m < n
  {
    forall m | m in s ensures m < n {
      assert m in multiset(s) + multiset(t);
      assert m in Range(0, n);
    }
  }

  /** The next metric is taken. */
  lemma PartitionTake(n: nat, taken: seq<nat>, dropped: seq<nat>)
    requires Partition(n, taken, dropped)
    ensures Partition(n + 1, taken + [n], dropped)
  {
    Bounded(n, taken, dropped);
    RangeLast(0, n);
    assert taken != [] ==> taken[|taken| - 1] in taken;
  }

  /** The next metric is dropped. */
  lemma PartitionDrop(n: nat, taken: seq<nat>, dropped: seq<nat>)
    requires Partition(n, taken, dropped)
    ensures Partition(n + 1, taken, dropped + [n])
  {
    Bounded(n, dropped, taken);
    RangeLast(0, n);
    assert dropped != [] ==> dropped[|dropped| - 1] in dropped;
  }

  lemma PutConserves(p: Params, s: Flow, step: Step)
    requires Conserved(s) && ProducerInv(p, s) && Enabled(p, s, step) && step in {Offer, Drop, Retry}
    ensures Conserved(Next(p, s, step))
  {
    hide Partition, Flat, Range, Taken;
    var hi := Settled(s);
    var lo := hi - |s.queue|;
    assert Taken(Next(p, s, step)) == Taken(s) by { SameTaken(s, Next(p, s, step)); }
    if |s.queue| < p.capacity && step != Drop {
      RangeLast(lo, hi);
    } else if step == Retry {
      PartitionDrop(lo, Taken(s), s.dropped);
    } else if step == Drop && s.queue != [] {
      RangeFirst(lo, hi);
      PartitionDrop(lo, Taken(s), s.dropped);
    }
  }

  lemma SameTaken(s: Flow, t: Flow)
    requires t.delivered == s.delivered && t.buffer == s.buffer
    ensures Taken(t) == Taken(s)
  {
  }

  lemma TakeConserves(s: Flow, t: Flow)
    requires Conserved(s) && s.queue != []
    requires t.queue == s.queue[1..] && t.buffer == s.buffer + [s.queue[0]]
    requires t.delivered == s.delivered && t.dropped == s.dropped && Settled(t) == Settled(s)
    ensures Conserved(t)
  {
    hide Partition, Flat, Range, Settled;
    var lo := Settled(s) - |s.queue|;
    RangeFirst(lo, Settled(s));
    PartitionTake(lo, Taken(s), s.dropped);
    assert Taken(t) == Taken(s) + [lo];
  }

  lemma RunConserves(p: Params, s: Flow, step: Step)
    requires Conserved(s) && Enabled(p, s, step) && step !in {Offer, Drop, Retry}
    ensures Conserved(Next(p, s, step))
  {
    hide Partition, Flat, Range, Taken;
    var t := Next(p, s, step);
    if step == Take && s.queue != [] {
      TakeConserves(s, t);
    } else if step == SendWorks {
      SentIsTaken(s, t);
    } else {
      SameTaken(s, t);
    }
  }

  lemma SentIsTaken(s: Flow, t: Flow)
    requires t.delivered == s.delivered + [s.buffer] && t.buffer == []
    ensures Taken(t) == Taken(s)
  {
    FlatMore(s.delivered, s.buffer);
  }

  lemma FlatMore(batches: seq<seq<nat>>, b: seq<nat>)
    ensures Flat(batches + [b]) == Flat(batches) + b
  {
    assert (batches + [b])[..|batches|] == batches;
  }

  lemma StepKeepsSender(p: Params, s: Flow, step: Step)
    requires p.batch > 0 && SenderInv(p, s) && Enabled(p, s, step)
    ensures SenderInv(p, Next(p, s, step))
  {
    hide TryPut;
  }

  lemma PutKeepsProducer(p: Params, s: Flow, step: Step)
    requires ProducerInv(p, s) && Enabled(p, s, step) && step in {Offer, Drop, Retry}
    ensures ProducerInv(p, Next(p, s, step))
  {
  }

  lemma RunKeepsProducer(p: Params, s: Flow, step: Step)
    requires ProducerInv(p, s) && Enabled(p, s, step) && step !in {Offer, Drop, Retry}
    ensures ProducerInv(p, Next(p, s, step))
  {
    var t := Next(p, s, step);
    assert |t.queue| <= |s.queue| && (s.queue == [] ==> t.queue == []);
  }

  lemma StepKeepsInv(p: Params, s: Flow, step: Step)
    requires p.batch > 0 && Inv(p, s) && Enabled(p, s, step)
    ensures Inv(p, Next(p, s, step))
  {
    hide Conserved, SenderInv, ProducerInv, Next, Enabled;
    StepKeepsSender(p, s, step);
    if step in {Offer, Drop, Retry} {
      PutKeepsProducer(p, s, step);
      PutConserves(p, s, step);
    } else {
      RunKeepsProducer(p, s, step);
      RunConserves(p, s, step);
    }
  }

  lemma {:induction false} InvHolds(p: Params, run: seq<Step>)
    requires p.batch > 0 && Legal(p, run)
    ensures Inv(p, After(p, run))
  {
    hide Inv, Enabled, Next;
    if run == [] {
      InitInv(p);
    } else {
      var front := run[..|run| - 1];
      InvHolds(p, front);
      StepKeepsInv(p, After(p, front), run[|run| - 1]);
    }
  }

  lemma InitInv(p: Params)
    ensures Inv(p, Init())
  {
    assert Range(0, 0) == [];
    assert Taken(Init()) == [];
  }

  // ---------------------------------------------------------------- theorems

  function Waiting(s: Flow): seq<nat> {
    s.queue + if s.producer.Making? then [s.producer.m] else []
  }

  lemma {:induction false} RangeOnce(n: nat, m: nat)
    ensures multiset(Range(0, n))[m] == if m < n then 1 else 0
  {
    if n > 0 {
      RangeOnce(n - 1, m);
      RangeLast(0, n - 1);
    } else {
      assert Range(0, 0) == [];
    }
  }

  /** What is conserved, as one list: delivered, taken and waiting metrics and the dropped
      ones make up all that were offered. */
  lemma AllOffered(p: Params, s: Flow)
    requires Inv(p, s)
    ensures multiset(Taken(s)) + multiset(s.dropped) + multiset(Waiting(s)) == multiset(Range(0, s.offered))
  {
    hide Taken, Increasing, Waiting, Range, SenderInv;
    WaitingIsRange(p, s);
    var lo := s.offered - |Waiting(s)|;
    RangeSplit(lo, s.offered);
    assert multiset(Range(0, lo) + Waiting(s)) == multiset(Range(0, lo)) + multiset(Waiting(s));
  }

  /** Whatever the interleaving and whichever sends fail: every metric ever offered is
      delivered, about to be sent, waiting, or dropped, in exactly one of these places and
      only once. */
  lemma EveryMetricIsInOnePlace(p: Params, run: seq<Step>, m: nat)
    requires p.batch > 0 && Legal(p, run)
    ensures var s := After(p, run);
            multiset(Flat(s.delivered))[m] + multiset(s.buffer)[m] + multiset(Waiting(s))[m] + multiset(s.dropped)[m] ==
            if m < s.offered then 1 else 0
  {
    hide Inv, Flat, Waiting;
    InvHolds(p, run);
    var s := After(p, run);
    AllOffered(p, s);
    RangeOnce(s.offered, m);
    var all := multiset(Taken(s)) + multiset(s.dropped) + multiset(Waiting(s));
    assert all[m] == multiset(Taken(s))[m] + multiset(s.dropped)[m] + multiset(Waiting(s))[m];
    assert multiset(Taken(s)) == multiset(Flat(s.delivered)) + multiset(s.buffer);
  }

  /** Metrics are sent in the order in which they were offered, none of those that wait is
      older than one that was sent or dropped, and those that wait are the newest, without
      a gap. */
  lemma OrderIsKept(p: Params, run: seq<Step>)
    requires p.batch > 0 && Legal(p, run)
    ensures var s := After(p, run);
            && Increasing(Flat(s.delivered) + s.buffer + Waiting(s))
            && Increasing(s.dropped)
            && |Waiting(s)| <= s.offered
            && Waiting(s) == Range(s.offered - |Waiting(s)|, s.offered)
            && forall d :: d in s.dropped ==> d < s.offered - |Waiting(s)|
  {
    hide Inv, Flat, Increasing, Range, Waiting, Partition;
    InvHolds(p, run);
    var s := After(p, run);
    WaitingIsRange(p, s);
    var lo := s.offered - |Waiting(s)|;
    PartitionIsOrdered(lo, Taken(s), s.dropped);
    IncreasingConcat(Taken(s), Waiting(s), lo);
  }

  lemma PartitionIsOrdered(n: nat, taken: seq<nat>, dropped: seq<nat>)
    requires Partition(n, taken, dropped)
    ensures Increasing(taken) && Increasing(dropped)
    ensures (forall m :: m in taken ==> m < n) && (forall m :: m in dropped ==> m < n)
  {
    hide Increasing, Range;
    Bounded(n, taken, dropped);
    Bounded(n, dropped, taken);
  }

  lemma WaitingIsRange(p: Params, s: Flow)
    requires Inv(p, s)
    ensures |Waiting(s)| <= s.offered && Settled(s) - |s.queue| == s.offered - |Waiting(s)|
    ensures Partition(s.offered - |Waiting(s)|, Taken(s), s.dropped)
    ensures Waiting(s) == Range(s.offered - |Waiting(s)|, s.offered) && Increasing(Waiting(s))
  {
    hide Partition, Taken, SenderInv;
    if s.producer.Making? {
      RangeLast(Settled(s) - |s.queue|, Settled(s));
    } else {
      assert Waiting(s) == s.queue;
    }
  }

  lemma IncreasingConcat(a: seq<nat>, b: seq<nat>, n: nat)
    requires Increasing(a) && Increasing(b)
    requires (forall x :: x in a ==> x < n) && (forall i :: 0 <= i < |b| ==> b[i] == n + i)
    ensures Increasing(a + b)
  {
    var s := a + b;
    forall i | 0 < i < |s| ensures s[i - 1] < s[i] {
      if i == |a| { assert a[i - 1] in a; }
    }
  }

  /** No batch is empty or too long, also not the one about to be sent. */
  lemma BatchesAreProper(p: Params, run: seq<Step>)
    requires p.batch > 0 && Legal(p, run)
    ensures var s := After(p, run);
            ProperBatches(p, s.delivered) && (Enabled(p, s, SendWorks) ==> 0 < |s.buffer| <= p.batch)
  {
    InvHolds(p, run);
  }

  lemma {:induction false} PrefixIsLegal(p: Params, run: seq<Step>, n: nat)
    requires Legal(p, run) && n <= |run|
    ensures Legal(p, run[..n])
  {
    if n < |run| {
      var front := run[..|run| - 1];
      PrefixIsLegal(p, front, n);
      assert front[..n] == run[..n];
    } else {
      assert run[..n] == run;
    }
  }

  /** The n-th step is a call of Get that finds the queue empty, with this batch. */
  ghost predicate FindsNothing(p: Params, run: seq<Step>, n: nat, buffer: seq<nat>)
    requires Legal(p, run)
  {
    && n < |run| && run[n] == Take
    && (PrefixIsLegal(p, run, n); After(p, run[..n]).queue == [] && After(p, run[..n]).buffer == buffer)
  }

  lemma FindsInFront(p: Params, run: seq<Step>, n: nat, buffer: seq<nat>)
    requires Legal(p, run) && n + 1 < |run| && FindsNothing(p, run[..|run| - 1], n, buffer)
    ensures FindsNothing(p, run, n, buffer)
  {
    hide Legal, After;
    assert run[..|run| - 1][..n] == run[..n];
  }

  lemma {:induction false} FirstGet(p: Params, run: seq<Step>) returns (a: nat)
    requires p.batch > 0 && Legal(p, run) && After(p, run).sender.PollAgain?
    ensures FindsNothing(p, run, a, After(p, run).buffer)
  {
    hide FindsNothing, TryPut, Due;
    var front := run[..|run| - 1];
    if run[|run| - 1] == Take {
      a := |front|;
      TakesNow(p, run);
    } else {
      a := FirstGet(p, front);
      FoundBefore(p, front, a);
      FindsInFront(p, run, a, After(p, run).buffer);
    }
  }

  lemma TakesNow(p: Params, run: seq<Step>)
    requires Legal(p, run) && run != [] && run[|run| - 1] == Take
    requires After(p, run[..|run| - 1]).queue == []
    ensures FindsNothing(p, run, |run| - 1, After(p, run[..|run| - 1]).buffer)
  {
    hide Legal, After;
  }

  lemma FoundBefore(p: Params, run: seq<Step>, n: nat)
    requires Legal(p, run) && FindsNothing(p, run, n, After(p, run).buffer)
    ensures n < |run|
  {
  }

  /** A batch that is not full is only sent because two calls of Get found the queue empty
      when it already held all its metrics. */
  lemma {:induction false} ShortBatchMeansEmptyQueue(p: Params, run: seq<Step>) returns (a: nat, b: nat)
    requires p.batch > 0 && Legal(p, run)
    requires After(p, run).nextSend || (Enabled(p, After(p, run), SendWorks) && |After(p, run).buffer| != p.batch)
    ensures a < b && FindsNothing(p, run, a, After(p, run).buffer) && FindsNothing(p, run, b, After(p, run).buffer)
  {
    hide FindsNothing, TryPut, Conserved, ProducerInv;
    var front := run[..|run| - 1];
    InvHolds(p, front);
    if run[|run| - 1] == Take {
      b := |front|;
      a := FirstGet(p, front);
      FoundBefore(p, front, a);
      TakesNow(p, run);
    } else {
      a, b := ShortBatchMeansEmptyQueue(p, front);
      FoundBefore(p, front, a);
      FoundBefore(p, front, b);
      FindsInFront(p, run, b, After(p, run).buffer);
    }
    FindsInFront(p, run, a, After(p, run).buffer);
  }

  /** The n-th step is a failed attempt to send, and none has worked since. */
  predicate FailsLast(run: seq<Step>, n: nat) {
    n < |run| && run[n] in {Unreachable, SendFails} && forall m :: n < m < |run| ==> run[m] != SendWorks
  }

  lemma FailsLastAfter(run: seq<Step>, step: Step)
    ensures (exists n: nat :: FailsLast(run + [step], n)) <==>
            step in {Unreachable, SendFails} || (step != SendWorks && exists n: nat :: FailsLast(run, n))
  {
    var longer := run + [step];
    assert longer[|run|] == step;
    if step in {Unreachable, SendFails} {
      assert FailsLast(longer, |run|);
    } else if step != SendWorks {
      if n: nat :| FailsLast(run, n) {
        assert FailsLast(longer, n);
      }
      if n: nat :| FailsLast(longer, n) {
        assert n < |run| && longer[n] == run[n];
        assert forall m :: n < m < |run| ==> longer[m] == run[m];
        assert FailsLast(run, n);
      }
    }
  }

  lemma FailedStep(p: Params, s: Flow, step: Step)
    requires Enabled(p, s, step)
    ensures Next(p, s, step).failed == (step in {Unreachable, SendFails} || (step != SendWorks && s.failed))
  {
    hide TryPut, Due;
  }

  /** The goroutine remembers whether its latest attempt to send has failed. */
  lemma {:induction false} FailureIsRemembered(p: Params, run: seq<Step>)
    requires Legal(p, run)
    ensures After(p, run).failed <==> exists n: nat :: FailsLast(run, n)
  {
    hide Next, Enabled, FailsLast;
    if run == [] {
      NeverFailed();
    } else {
      var front, last := run[..|run| - 1], run[|run| - 1];
      FailureIsRemembered(p, front);
      FailsLastAfter(front, last);
      FailedStep(p, After(p, front), last);
      assert run == front + [last];
    }
  }

  lemma NeverFailed()
    ensures !exists n: nat :: FailsLast([], n)
  {
  }

  /** If the queue can hold anything, the second try succeeds and the metric is the last in
      the queue. A rejected metric costs at most two others. */
  lemma RejectionCostsTwo(p: Params, run: seq<Step>)
    requires p.batch > 0 && Legal(p, run)
    ensures var s := After(p, run);
            && (p.capacity > 0 && Enabled(p, s, Retry) ==>
                  Next(p, s, Retry).queue == s.queue + [s.producer.m] && Next(p, s, Retry).dropped == s.dropped)
            && |s.dropped| <= 2 * s.rejections
  {
    hide Conserved, SenderInv;
    InvHolds(p, run);
  }

  /** Without rejections nothing is lost. */
  lemma NothingIsLost(p: Params, run: seq<Step>)
    requires p.batch > 0 && Legal(p, run) && After(p, run).rejections == 0
    ensures var s := After(p, run);
            s.dropped == [] && Flat(s.delivered) + s.buffer + Waiting(s) == Range(0, s.offered)
  {
    hide Inv, Partition, Flat, Range, Waiting;
    InvHolds(p, run);
    var s := After(p, run);
    NothingRejected(p, s);
    AllOlderTaken(p, s);
    RangeSplit(s.offered - |Waiting(s)|, s.offered);
  }

  lemma AllOlderTaken(p: Params, s: Flow)
    requires Inv(p, s) && s.dropped == []
    ensures |Waiting(s)| <= s.offered
    ensures Taken(s) == Range(0, s.offered - |Waiting(s)|)
    ensures Waiting(s) == Range(s.offered - |Waiting(s)|, s.offered)
  {
    hide Inv, Increasing, Taken, Range, Waiting;
    WaitingIsRange(p, s);
    AllTaken(s.offered - |Waiting(s)|, Taken(s), s.dropped);
  }

  lemma NothingRejected(p: Params, s: Flow)
    requires Inv(p, s) && s.rejections == 0
    ensures s.dropped == []
  {
    hide SenderInv, Conserved;
  }

  /** The only increasing list of all numbers below n is their range. */
  lemma AllTaken(n: nat, taken: seq<nat>, dropped: seq<nat>)
    requires Partition(n, taken, dropped) && dropped == []
    ensures taken == Range(0, n)
  {
    Bounded(n, taken, []);
    assert multiset(taken) + multiset([]) == multiset(taken);
    assert |taken| == |multiset(taken)| == |Range(0, n)|;
    forall i | 0 <= i < n ensures taken[i] == i {
      AtLeastPosition(taken, i);
      AtMostPosition(taken, i);
      assert taken[n - 1] in taken;
    }
  }

  lemma {:induction false} AtMostPosition(s: seq<nat>, i: nat)
    requires Increasing(s) && i < |s|
    ensures s[i] <= s[|s| - 1] - (|s| - 1 - i)
    decreases |s| - i
  {
    if i < |s| - 1 { AtMostPosition(s, i + 1); }
  }

  lemma {:induction false} AtLeastPosition(s: seq<nat>, i: nat)
    requires Increasing(s) && i < |s|
    ensures s[i] >= i
  {
    if i > 0 { AtLeastPosition(s, i - 1); }
  }

  /** The latest metric was rejected at first, and the next one will be. */
  predicate RejectsTwice(p: Params, s: Flow) {
    s.producer.Idle? && s.lastRejected && |s.queue| >= p.capacity
  }

  /** No two metrics in a row find the queue full, whatever the goroutine does, exactly
      when the queue can hold two. */
  lemma NoTwoRejectionsIff(p: Params)
    requires p.batch > 0
    ensures p.capacity >= 2 <==> forall run: seq<Step> :: Legal(p, run) ==> !RejectsTwice(p, After(p, run))
  {
    if p.capacity >= 2 {
      forall run: seq<Step> | Legal(p, run) ensures !RejectsTwice(p, After(p, run)) {
        InvHolds(p, run);
      }
    } else {
      var run := RejectedTwice(p);
    }
  }

  lemma Extend(p: Params, run: seq<Step>, step: Step)
    requires Legal(p, run) && Enabled(p, After(p, run), step)
    ensures Legal(p, run + [step]) && After(p, run + [step]) == Next(p, After(p, run), step)
  {
    assert (run + [step])[..|run|] == run;
  }

  lemma RejectedTwice(p: Params) returns (run: seq<Step>)
    requires p.capacity < 2
    ensures Legal(p, run) && RejectsTwice(p, After(p, run))
  {
    hide Legal, After;
    run := [];
    Nothing(p);
    if p.capacity == 1 {
      Extend(p, run, Offer);
      run := run + [Offer];
    }
    Extend(p, run, Offer);
    run := run + [Offer];
    Extend(p, run, Drop);
    run := run + [Drop];
    Extend(p, run, Drop);
    run := run + [Drop];
    Extend(p, run, Retry);
    run := run + [Retry];
  }

  lemma Nothing(p: Params)
    ensures Legal(p, []) && After(p, []) == Init()
  {
  }

  /** How far the goroutine is from having nothing left to send. */
  function Remaining(p: Params, s: Flow): nat {
    4 * |s.queue| +
    if s.buffer == [] then 0
    else if Due(p, s) then 1
    else if s.sender.PollAgain? then 2
    else 3
  }

  /** What the goroutine does next if sending works. */
  function Working(p: Params, s: Flow): Step {
    if s.sender.Top? && Due(p, s) then SendWorks else Take
  }

  lemma WorkingStep(p: Params, s: Flow)
    requires p.batch > 0 && Inv(p, s) && s.running && Remaining(p, s) > 0
    ensures Enabled(p, s, Working(p, s))
    ensures var t := Next(p, s, Working(p, s));
            && Remaining(p, t) < Remaining(p, s)
            && t.running && t.dropped == s.dropped
            && Flat(t.delivered) + t.buffer + t.queue == Flat(s.delivered) + s.buffer + s.queue
  {
    hide Conserved, ProducerInv, Flat;
    FlatMore(s.delivered, s.buffer);
    if s.queue != [] {
      assert s.buffer + s.queue == s.buffer + [s.queue[0]] + s.queue[1..];
    }
  }

  /** From every state that can be reached while the goroutine runs: if sending works from
      now on and nothing more is put, it delivers all it has and all that is in the queue,
      in order, and drops nothing, within four steps per metric and three more. */
  lemma {:induction false} WorkingServerDrainsQueue(p: Params, run: seq<Step>) returns (more: seq<Step>)
    requires p.batch > 0 && Legal(p, run) && After(p, run).running
    ensures Legal(p, run + more) && forall i :: 0 <= i < |more| ==> more[i] in {Take, SendWorks}
    ensures |more| <= Remaining(p, After(p, run)) <= 4 * |After(p, run).queue| + 3
    ensures var s, t := After(p, run), After(p, run + more);
            && t.queue == [] && t.buffer == [] && t.dropped == s.dropped
            && Flat(t.delivered) == Flat(s.delivered) + s.buffer + s.queue
    decreases Remaining(p, After(p, run))
  {
    hide Legal, After, Next, Enabled, Inv, Flat, Due;
    InvHolds(p, run);
    var s := After(p, run);
    if Remaining(p, s) == 0 {
      more := [];
      assert run + more == run;
      assert Flat(s.delivered) + s.buffer + s.queue == Flat(s.delivered);
    } else {
      WorkingStep(p, s);
      var step := Working(p, s);
      Extend(p, run, step);
      var rest := WorkingServerDrainsQueue(p, run + [step]);
      more := [step] + rest;
      assert run + more == run + [step] + rest;
    }
  }

  // ---------------------------------------------------------------- the object

  datatype Sample = Sample(name: string, value: string, timestamp: int)

  /** How an attempt to send ends: no connection, an error, or success. */
  datatype Reply = NoConnection | SendError | Sent

  lemma Extend2(p: Params, run: seq<Step>, a: Step, b: Step)
    requires Legal(p, run) && Enabled(p, After(p, run), a) && Enabled(p, Next(p, After(p, run), a), b)
    ensures Legal(p, run + [a, b]) && After(p, run + [a, b]) == Next(p, Next(p, After(p, run), a), b)
  {
    Extend(p, run, a);
    Extend(p, run + [a], b);
    assert run + [a] + [b] == run + [a, b];
  }

  function PutSteps(p: Params, queue: seq<nat>): seq<Step> {
    if |queue| < p.capacity then [Offer] else [Offer, Drop, Drop, Retry]
  }

  /** The queue without its two oldest elements. */
  function WithoutTwo(queue: seq<nat>): seq<nat> {
    if |queue| < 2 then [] else queue[2..]
  }

  lemma QueueFits(p: Params, run: seq<Step>)
    requires p.batch > 0 && Legal(p, run)
    ensures |After(p, run).queue| <= p.capacity
  {
    InvHolds(p, run);
  }

  /** Put leads from one quiet state to the next. */
  lemma PutRuns(p: Params, run: seq<Step>)
    requires Legal(p, run) && After(p, run).producer.Idle?
    ensures Legal(p, run + PutSteps(p, After(p, run).queue))
    ensures var s := After(p, run);
            var t := After(p, run + PutSteps(p, s.queue));
            && t.offered == s.offered + 1 && t.producer.Idle?
            && t.queue == TryPut(p, if |s.queue| < p.capacity then s.queue else WithoutTwo(s.queue), s.offered)
            && t.sender == s.sender && t.buffer == s.buffer && t.nextSend == s.nextSend
            && t.failed == s.failed && t.started == s.started && t.running == s.running && t.delivered == s.delivered
  {
    hide Legal, After;
    var s := After(p, run);
    if |s.queue| < p.capacity {
      Extend(p, run, Offer);
    } else {
      Extend2(p, run, Offer, Drop);
      Extend2(p, run + [Offer, Drop], Drop, Retry);
      assert run + [Offer, Drop] + [Drop, Retry] == run + [Offer, Drop, Drop, Retry];
    }
  }

  function TakeSteps(queue: seq<nat>): seq<Step> {
    if queue != [] then [Take] else [Take, Take]
  }

  function StepOf(reply: Reply): Step {
    match reply
    case NoConnection => Unreachable
    case SendError => SendFails
    case Sent => SendWorks
  }

  /** One pass of the goroutine's loop. */
  function PassSteps(p: Params, s: Flow, reply: Reply): seq<Step> {
    if !s.running then []
    else if !Due(p, s) then TakeSteps(s.queue)
    else if reply.Sent? then [SendWorks] + TakeSteps(s.queue)
    else [StepOf(reply)]
  }

  /** The queue, and the goroutine with its batch. A metric's pointer is its position among
      the metrics made so far. */
  class GraphiteQueue {
    const enabled: bool
    const p: Params
    const metrics: array<nat>
    var made: seq<Sample>
    var queue: seq<nat>
    var i: nat
    var nextSend: bool
    var failed: bool
    var started: bool
    var running: bool
    /** The steps so far. */
    ghost var history: seq<Step>

    /** Between two calls the object is where its history leads. */
    ghost predicate Valid()
      reads this, metrics
    {
      && p.batch > 0 && metrics.Length == p.batch && i <= metrics.Length
      && Legal(p, history)
      && Matches(After(p, history), metrics[..i])
    }

    ghost predicate Matches(s: Flow, buffer: seq<nat>)
      reads this
    {
      && s.producer.Idle? && s.sender.Top?
      && s.offered == |made| && s.queue == queue && s.buffer == buffer
      && s.nextSend == nextSend && s.failed == failed && s.started == started && s.running == running
    }

    /** The queue when it is made. */
    constructor (address: string, queueSize: nat, batchSend: int)
      ensures Valid() && history == [] && !started && !running && fresh(metrics)
      ensures enabled == (address != "")
      ensures p == Params(queueSize, if batchSend < 1 then 1 else batchSend)
    {
      enabled := |address| > 0;
      var batch: nat := if batchSend < 1 then 1 else batchSend;
      p := Params(queueSize, batch);
      metrics := new nat[batch](_ => 0);
      made, queue, i, nextSend, failed, started, running := [], [], 0, false, false, false, false;
      history := [];
      new;
      Nothing(p);
    }

    /** Start the goroutine, if there is an address to send to. */
    method Run()
      requires Valid() && !started
      modifies this`started, this`running, this`history
      ensures Valid()
      ensures enabled ==> running && history == old(history) + [Begin]
      ensures !enabled ==> running == old(running) && started == old(started) && history == old(history)
    {
      hide Legal, After;
      if !enabled {
        return;
      }
      Extend(p, history, Begin);
      history := history + [Begin];
      started, running := true, true;
    }

    /** Make the goroutine end before its next pass. */
    method StopRunning()
      requires Valid()
      modifies this`running, this`history
      ensures Valid() && !running && history == old(history) + [Stop]
    {
      hide Legal, After;
      Extend(p, history, Stop);
      history := history + [Stop];
      running := false;
    }

    method TryPutting(m: nat) returns (ok: bool)
      modifies this`queue
      ensures ok == (|old(queue)| < p.capacity) && queue == TryPut(p, old(queue), m)
    {
      ok := |queue| < p.capacity;
      if ok {
        queue := queue + [m];
      }
    }

    method Get() returns (m: Option<nat>)
      modifies this`queue
      ensures old(queue) == [] ==> m == None && queue == []
      ensures old(queue) != [] ==> m == Some(old(queue)[0]) && queue == old(queue)[1..]
    {
      if queue == [] {
        return None;
      }
      m := Some(queue[0]);
      queue := queue[1..];
    }

    /** Put a metric; when the queue is full drop two and try again. */
    method Put(name: string, value: string, timestamp: int)
      requires Valid()
      modifies this`made, this`queue, this`history
      ensures Valid()
      ensures !enabled ==> made == old(made) && queue == old(queue) && history == old(history)
      ensures enabled ==> made == old(made) + [Sample(name, value, timestamp)]
      ensures enabled ==> history == old(history) + PutSteps(p, old(queue))
      ensures enabled && p.capacity > 0 ==>
                queue == (if |old(queue)| < p.capacity then old(queue)
                          else if |old(queue)| < 2 then []
                          else old(queue)[2..]) + [|old(made)|]
    {
      hide Legal, After;
      if !enabled {
        return;
      }
      QueueFits(p, history);
      PutRuns(p, history);
      history := history + PutSteps(p, queue);
      var m := |made|;
      made := made + [Sample(name, value, timestamp)];
      var ok := TryPutting(m);
      if !ok {
        var first := Get();
        var second := Get();
        ok := TryPutting(m);
      }
    }

    /** Send the batch: the first half of a pass, when sending is due. */
    method Send(reply: Reply) returns (sent: Option<seq<nat>>)
      requires Valid() && running && (i == p.batch || nextSend)
      modifies this`i, this`nextSend, this`failed, this`history
      ensures history == old(history) + [StepOf(reply)]
      ensures Legal(p, history)
      ensures sent == if reply.Sent? then Some(old(metrics[..i])) else None
      ensures !reply.Sent? ==> Valid() && i == old(i)
      ensures reply.Sent? ==> i == 0
      ensures reply.Sent? ==> Taking(After(p, history))
      ensures Due(p, old(After(p, history)))
    {
      hide Legal, After;
      sent := None;
      if reply.NoConnection? {
        failed := true;
        Extend(p, history, Unreachable);
        history := history + [Unreachable];
      } else if reply.SendError? {
        failed := true;
        Extend(p, history, SendFails);
        history := history + [SendFails];
      } else {
        sent := Some(metrics[..i]);
        i := 0;
        nextSend := false;
        failed := false;
        Extend(p, history, SendWorks);
        history := history + [SendWorks];
      }
    }

    /** The goroutine is about to take a metric. */
    ghost predicate Taking(s: Flow)
      reads this, metrics
    {
      && p.batch > 0 && metrics.Length == p.batch && i < metrics.Length && !nextSend
      && Enabled(p, s, Take) && !s.sender.PollAgain?
      && Matches(s.(sender := Top), metrics[..i])
    }

    /** One pass of the goroutine's loop; `sent` is the batch that was sent, if any. */
    method Pass(reply: Reply) returns (sent: Option<seq<nat>>)
      requires Valid() && enabled
      modifies this`queue, this`i, this`nextSend, this`failed, this`history, metrics
      ensures Valid() && history == old(history) + PassSteps(p, old(After(p, history)), reply)
      ensures sent == if old(running && (i == p.batch || nextSend)) && reply.Sent? then Some(old(metrics[..i]))
                      else None
      ensures old(!running || ((i == p.batch || nextSend) && !reply.Sent?)) ==>
                queue == old(queue) && metrics[..i] == old(metrics[..i])
      ensures old(running && (!(i == p.batch || nextSend) || reply.Sent?)) ==>
                && queue == (if old(queue) == [] then [] else old(queue)[1..])
                && metrics[..i] == (if sent.Some? then [] else old(metrics[..i])) +
                                   (if old(queue) == [] then [] else [old(queue)[0]])
    {
      hide Legal, After, TakeSteps, Inv;
      sent := None;
      if !running {
        return;
      }
      if i == p.batch || nextSend {
        sent := Send(reply);
        if !reply.Sent? {
          return;
        }
      }
      TakeMore();
    }

    /** The second half of a pass: take a metric, or find that there is none. Nothing is put
        between the two calls of Get here; in the protocol it can be. */
    method TakeMore()
      requires Legal(p, history) && Taking(After(p, history))
      modifies this`queue, this`i, this`nextSend, this`history, metrics
      ensures Valid() && history == old(history) + TakeSteps(old(queue))
      ensures queue == if old(queue) == [] then [] else old(queue)[1..]
      ensures metrics[..i] == old(metrics[..i]) + if old(queue) == [] then [] else [old(queue)[0]]
    {
      hide Legal, After;
      ghost var s := After(p, history);
      if i < p.batch {
        var m := Get();
        if m.Some? {
          metrics[i] := m.value;
          i := i + 1;
          Extend(p, history, Take);
          history := history + [Take];
          assert metrics[..i] == s.buffer + [m.value];
        } else {
          m := Get();
          if i > 0 {
            nextSend := true;
          }
          Extend2(p, history, Take, Take);
          history := history + [Take, Take];
        }
      }
    }
  }
}
