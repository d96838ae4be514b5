/** Whole runs of the hand-off: order, progress, stalling, and the exact bound on failures. */
module TurnstileRuns {
  import opened Bytes
  import opened Turnstile

  // ---------------------------------------------------------------------------------------------
  // Order over unbounded runs
  // ---------------------------------------------------------------------------------------------

  lemma {:induction false} FailuresGrow<J, O>(c: Config<J, O>, s: State<J, O>, steps: seq<Step<J>>)
    requires Legal(c, s, steps)
    ensures |Exec(c, s, steps).threads| == |s.threads|
    ensures s.failed <= Exec(c, s, steps).failed
    decreases |steps|
  {
    if steps == [] {
    } else {
      FailuresGrow(c, Apply(c, s, steps[0]), steps[1..]);
    }
  }

  lemma {:induction false} RunKeepsInv<J, O>(c: Config<J, O>, s: State<J, O>, steps: seq<Step<J>>)
    requires Inv(c, s) && Legal(c, s, steps) && Bounded(Exec(c, s, steps))
    ensures Inv(c, Exec(c, s, steps))
    decreases |steps|
  {
    if steps == [] {
    } else {
      FailuresGrow(c, s, steps);
      SubsetSize(s.failed, Exec(c, s, steps).failed);
      StepKeepsInv(c, s, steps[0]);
      RunKeepsInv(c, Apply(c, s, steps[0]), steps[1..]);
    }
  }

  /**
   * In every interleaving with at most `256 - workers` failures, the results sent are those of an
   * initial run of the input, in input order and without a gap, and the jobs held by threads lie
   * within the next 256.
   */
  lemma OrderForever<J, O>(c: Config<J, O>, steps: seq<Step<J>>)
    requires Legal(c, Init(c), steps)
    requires c.workers + |Exec(c, Init(c), steps).failed| <= 256
    ensures var s := Exec(c, Init(c), steps);
            && SentCount(s) <= |s.input|
            && Somes(s.out) == Results(c, s.input, SentCount(s))
            && |Somes(s.out)| == SentCount(s)
            && |s.out| == SentCount(s) + |s.failed|
            && s.pulled - s.done <= c.workers + |s.failed|
            && Consecutive(s.threads, s.failed, s.done, s.pulled)
  {
    InitInv(c);
    FailuresGrow(c, Init(c), steps);
    RunKeepsInv(c, Init(c), steps);
    var s := Exec(c, Init(c), steps);
    ConsecutiveWidth(s.threads, s.failed, s.done, s.pulled);
  }

  /** The states of all runs. */
  ghost predicate Reachable<J(!new), O>(c: Config<J, O>, s: State<J, O>) {
    exists steps: seq<Step<J>> :: Legal(c, Init(c), steps) && Exec(c, Init(c), steps) == s
  }

  lemma {:induction false} ExecAppend<J, O>(c: Config<J, O>, s: State<J, O>, steps: seq<Step<J>>, step: Step<J>)
    requires Legal(c, s, steps) && Enabled(c, Exec(c, s, steps), step)
    ensures Legal(c, s, steps + [step])
    ensures Exec(c, s, steps + [step]) == Apply(c, Exec(c, s, steps), step)
    decreases |steps|
  {
    if steps == [] {
      assert [step][1..] == [];
    } else {
      ExecAppend(c, Apply(c, s, steps[0]), steps[1..], step);
      assert (steps + [step])[1..] == steps[1..] + [step];
    }
  }

  lemma ReachStep<J(!new), O>(c: Config<J, O>, s: State<J, O>, step: Step<J>)
    requires Reachable(c, s) && Enabled(c, s, step)
    ensures Reachable(c, Apply(c, s, step))
  {
    var steps :| Legal(c, Init(c), steps) && Exec(c, Init(c), steps) == s;
    ExecAppend(c, Init(c), steps, step);
  }

  lemma ReachInit<J(!new), O>(c: Config<J, O>)
    ensures Reachable(c, Init(c))
  {
    assert Legal(c, Init(c), []) && Exec(c, Init(c), []) == Init(c);
  }

  /** Upstream may submit any number of jobs at once, as long as it numbers them in order. */
  lemma {:induction false} ReachSubmits<J(!new), O>(c: Config<J, O>, s: State<J, O>, items: seq<Item<J>>)
    requires Reachable(c, s)
    requires forall i :: 0 <= i < |items| ==> items[i].id == Id(c.base + |s.input| + i)
    ensures Reachable(c, s.(input := s.input + items))
    decreases |items|
  {
    if items == [] {
      assert s.(input := s.input + items) == s;
    } else {
      var n := |items| - 1;
      ReachSubmits(c, s, items[..n]);
      var s' := s.(input := s.input + items[..n]);
      ReachStep(c, s', Submit(items[n]));
      assert s'.input + [items[n]] == s.input + items;
    }
  }

  /** What holds in every reachable state, up to the bound on failures. */
  lemma ReachableInv<J(!new), O>(c: Config<J, O>, s: State<J, O>)
    requires Reachable(c, s) && c.workers + |s.failed| <= 256
    ensures Inv(c, s)
  {
    var steps :| Legal(c, Init(c), steps) && Exec(c, Init(c), steps) == s;
    InitInv(c);
    FailuresGrow(c, Init(c), steps);
    RunKeepsInv(c, Init(c), steps);
  }

  ghost predicate NeverFails<J(!new), O>(c: Config<J, O>) {
    forall id: u8, job: J :: c.work(id, job).Some?
  }

  /** Without failing jobs, up to 256 workers keep the order for ever. */
  lemma EncodersInOrder<J(!new), O>(c: Config<J, O>, s: State<J, O>)
    requires NeverFails(c) && c.workers <= 256 && Reachable(c, s)
    ensures Inv(c, s) && s.failed == {}
    ensures |s.out| == SentCount(s) <= |s.input|
    ensures forall i :: 0 <= i < |s.out| ==> s.out[i] == ResultAt(c, s.input, i)
  {
    var steps :| Legal(c, Init(c), steps) && Exec(c, Init(c), steps) == s;
    NoFailures(c, Init(c), steps);
    ReachableInv(c, s);
    AllSome(c, s.input, s.out);
  }

  lemma {:induction false} NoFailures<J(!new), O>(c: Config<J, O>, s: State<J, O>, steps: seq<Step<J>>)
    requires NeverFails(c) && Legal(c, s, steps)
    ensures Exec(c, s, steps).failed == s.failed
    decreases |steps|
  {
    if steps == [] {
    } else {
      NoFailures(c, Apply(c, s, steps[0]), steps[1..]);
    }
  }

  lemma {:induction false} SomesShort<O>(out: seq<Option<O>>)
    ensures |Somes(out)| <= |out|
    ensures |Somes(out)| == |out| ==> forall i :: 0 <= i < |out| ==> out[i] == Some(Somes(out)[i])
  {
    if out == [] {
    } else {
      SomesShort(out[..|out| - 1]);
    }
  }

  lemma {:induction false} ResultsShort<J, O>(c: Config<J, O>, input: seq<Item<J>>, n: nat)
    requires n <= |input| && |Results(c, input, n)| == n
    ensures forall i :: 0 <= i < n ==> ResultAt(c, input, i) == Some(Results(c, input, n)[i])
  {
    if n == 0 {
    } else {
      ResultsShort(c, input, n - 1);
    }
  }

  lemma AllSome<J, O>(c: Config<J, O>, input: seq<Item<J>>, out: seq<Option<O>>)
    requires |out| <= |input| && Somes(out) == Results(c, input, |out|) && |Somes(out)| == |out|
    ensures forall i :: 0 <= i < |out| ==> out[i] == ResultAt(c, input, i)
  {
    SomesShort(out);
    ResultsShort(c, input, |out|);
  }

  /** In terms of what the threads compare: an identifier equal to the turn is never slept on for ever. */
  lemma SleeperWillBeWoken<J(!new), O>(c: Config<J, O>, s: State<J, O>, t: nat)
    requires Reachable(c, s) && c.workers + |s.failed| <= 256
    requires t < |s.threads| && s.threads[t].Asleep? && s.threads[t].k < |s.input|
    requires s.input[s.threads[t].k].id == s.turn
    ensures exists u: nat :: AboutToNotify(s.threads, u)
  {
    ReachableInv(c, s);
    TurnIsDue(c, s, t);
    assert AsleepOnTurn(s.threads, t, s.done);
  }

  // ---------------------------------------------------------------------------------------------
  // Progress
  // ---------------------------------------------------------------------------------------------

  /** Steps of the pipeline itself: not new work from upstream, not a wake-up without a notification. */
  predicate Internal<J>(step: Step<J>) {
    !step.Submit? && !step.Spurious?
  }

  predicate Finished<J, O>(s: State<J, O>) {
    && s.done == |s.input|
    && s.consumed == |s.out|
    && forall t: nat :: t < |s.threads| ==> s.threads[t].Idle?
  }

  predicate Capacious<J, O>(c: Config<J, O>) {
    && (c.inCapacity.Some? ==> c.inCapacity.value >= 1)
    && (c.outCapacity.Some? ==> c.outCapacity.value >= 1)
  }

  /** A thread that is neither idle nor asleep can move, given an empty output channel. */
  lemma BusyThreadMoves<J, O>(c: Config<J, O>, s: State<J, O>, t: nat) returns (step: Step<J>)
    requires Inv(c, s) && Capacious(c) && s.consumed == |s.out|
    requires t < |s.threads| && !s.threads[t].Idle? && !s.threads[t].Asleep?
    requires s.holder.Some? ==> s.holder == Some(t)
    ensures Internal(step) && Enabled(c, s, step)
  {
    match s.threads[t]
    case Working(_) => step := Work(t);
    case Contending(_) => step := Acquire(t);
    case Holding(_) => step := Send(t);
    case Sent(_) => step := Advance(t);
    case Notifying => step := Notify(t);
  }

  /**
   * No deadlock: unless everything is delivered, or the block that is due has failed, some step of
   * the pipeline is possible, although channels are bounded and the send is made under the lock.
   */
  lemma SomeStepPossible<J, O>(c: Config<J, O>, s: State<J, O>)
    requires Inv(c, s) && Capacious(c) && c.workers >= 1
    ensures Finished(s) || s.done in s.failed || exists step: Step<J> :: Internal(step) && Enabled(c, s, step)
  {
    if s.consumed < |s.out| {
      assert Enabled(c, s, Consume);
    } else if s.holder.Some? {
      var step := BusyThreadMoves(c, s, s.holder.value);
    } else if t: nat :| t < |s.threads| && !s.threads[t].Idle? && !s.threads[t].Asleep? {
      var step := BusyThreadMoves(c, s, t);
    } else if s.done in s.failed {
    } else if s.done < s.pulled {
      var t: nat :| Holds(s.threads, t, s.done);
      assert AsleepOnTurn(s.threads, t, s.done);
    } else {
      assert s.threads[0].Idle?;
      if s.pulled < s.fed {
        assert Enabled(c, s, Pull(0));
      } else if s.fed < |s.input| {
        assert Enabled(c, s, Feed);
      }
    }
  }

  function Weight(workers: nat, th: Thread): nat {
    match th
    case Idle => 0
    case Notifying => workers + 1
    case Sent(_) => workers + 2
    case Holding(_) => workers + 4
    case Asleep(_) => workers + 5
    case Contending(_) => workers + 6
    case Working(_) => workers + 7
  }

  function Weights(workers: nat, threads: seq<Thread>): nat {
    if threads == [] then 0 else
    Weights(workers, threads[..|threads| - 1]) + Weight(workers, threads[|threads| - 1])
  }

  /** No channel has been read further than it was written. */
  predicate Ordered<J, O>(s: State<J, O>) {
    s.pulled <= s.fed <= |s.input| && s.consumed <= |s.out|
  }

  /** The guards alone see to that, whatever fails. */
  lemma {:induction false} RunKeepsOrdered<J, O>(c: Config<J, O>, s: State<J, O>, steps: seq<Step<J>>)
    requires Ordered(s) && Legal(c, s, steps)
    ensures Ordered(Exec(c, s, steps))
    decreases |steps|
  {
    if steps == [] {
    } else {
      RunKeepsOrdered(c, Apply(c, s, steps[0]), steps[1..]);
    }
  }

  lemma MeasureBounded<J, O>(s: State<J, O>)
    requires Ordered(s)
    ensures Measure(s) >= 0
  {
    var n := |s.threads|;
    MulNonNegative(n + 9, |s.input| - s.fed);
    MulNonNegative(n + 8, s.fed - s.pulled);
  }

  lemma MulNonNegative(a: nat, b: nat)
    ensures a * b >= 0
  {}

  /** What remains to be done: every internal step lowers it, and in every run it stays non-negative. */
  function Measure<J, O>(s: State<J, O>): int {
    var n := |s.threads|;
    (n + 9) * (|s.input| - s.fed) + (n + 8) * (s.fed - s.pulled) + Weights(n, s.threads) + (|s.out| - s.consumed)
  }

  lemma {:induction false} WeightsSet(workers: nat, threads: seq<Thread>, t: nat, th: Thread)
    requires t < |threads|
    ensures Weights(workers, threads[t := th])
         == Weights(workers, threads) - Weight(workers, threads[t]) + Weight(workers, th)
  {
    var n := |threads| - 1;
    if t == n {
      assert threads[t := th][..n] == threads[..n];
    } else {
      assert threads[t := th][..n] == threads[..n][t := th];
      WeightsSet(workers, threads[..n], t, th);
    }
  }

  lemma {:induction false} WeightsWake(workers: nat, threads: seq<Thread>)
    ensures Weights(workers, WakeAll(threads)) <= Weights(workers, threads) + |threads|
  {
    if threads == [] {
    } else {
      var n := |threads| - 1;
      assert WakeAll(threads)[..n] == WakeAll(threads[..n]);
      WeightsWake(workers, threads[..n]);
    }
  }

  lemma NotifyWeights(threads: seq<Thread>, t: nat)
    requires t < |threads| && threads[t].Notifying?
    ensures Weights(|threads|, WakeAll(threads[t := Idle])) < Weights(|threads|, threads)
  {
    WeightsSet(|threads|, threads, t, Idle);
    WeightsWake(|threads|, threads[t := Idle]);
  }

  lemma StepWeights<J, O>(c: Config<J, O>, s: State<J, O>, step: Step<J>)
    requires Enabled(c, s, step)
    ensures var n := |s.threads|;
            var s' := Apply(c, s, step);
            var d := Weights(n, s'.threads) - Weights(n, s.threads);
            match step
            case Pull(_) => d == n + 7
            case Spurious(_) => d == 1
            case Submit(_) => d == 0
            case Feed => d == 0
            case Consume => d == 0
            case Send(_) => d == -2
            case Work(_) => if |s'.out| == |s.out| then d == -1 else d == -(n + 7)
            case _ => d <= -1
  {
    var n := |s.threads|;
    match step
    case Notify(t) => NotifyWeights(s.threads, t);
    case Submit(_) =>
    case Feed =>
    case Consume =>
    case Pull(t) => WeightsSet(n, s.threads, t, Working(s.pulled));
    case Work(t) =>
      WeightsSet(n, s.threads, t, Idle);
      WeightsSet(n, s.threads, t, Contending(s.threads[t].k));
    case Acquire(t) =>
      WeightsSet(n, s.threads, t, Holding(s.threads[t].k));
      WeightsSet(n, s.threads, t, Asleep(s.threads[t].k));
    case Send(t) => WeightsSet(n, s.threads, t, Sent(s.threads[t].k));
    case Advance(t) => WeightsSet(n, s.threads, t, Notifying);
    case Spurious(t) => WeightsSet(n, s.threads, t, Contending(s.threads[t].k));
  }

  lemma StepMeasure<J, O>(c: Config<J, O>, s: State<J, O>, step: Step<J>)
    requires Enabled(c, s, step)
    ensures Internal(step) ==> Measure(Apply(c, s, step)) < Measure(s)
    ensures step.Submit? ==> Measure(Apply(c, s, step)) == Measure(s) + |s.threads| + 9
    ensures step.Spurious? ==> Measure(Apply(c, s, step)) == Measure(s) + 1
  {
    var s' := Apply(c, s, step);
    var n := |s.threads|;
    StepWeights(c, s, step);
    match step
    case Submit(_) => Distribute(n + 9, |s.input| - s.fed);
    case Feed => Distribute(n + 9, |s'.input| - s'.fed); Distribute(n + 8, s.fed - s.pulled);
    case Pull(t) => Distribute(n + 8, s'.fed - s'.pulled);
    case _ =>
  }

  lemma Distribute(a: int, b: int)
    ensures a * (b + 1) == a * b + a
  {}

  function CountSubmits<J>(steps: seq<Step<J>>): nat {
    if steps == [] then 0 else (if steps[0].Submit? then 1 else 0) + CountSubmits(steps[1..])
  }

  function CountSpurious<J>(steps: seq<Step<J>>): nat {
    if steps == [] then 0 else (if steps[0].Spurious? then 1 else 0) + CountSpurious(steps[1..])
  }

  lemma {:induction false} RunCost<J, O>(c: Config<J, O>, s: State<J, O>, steps: seq<Step<J>>)
    requires Legal(c, s, steps)
    ensures Measure(Exec(c, s, steps)) + |steps|
         <= Measure(s) + (|s.threads| + 10) * CountSubmits(steps) + 2 * CountSpurious(steps)
    decreases |steps|
  {
    if steps == [] {
    } else {
      var s' := Apply(c, s, steps[0]);
      StepMeasure(c, s, steps[0]);
      RunCost(c, s', steps[1..]);
      Distribute(|s.threads| + 10, CountSubmits(steps[1..]));
    }
  }

  lemma {:induction false} IdleWeights(workers: nat, threads: seq<Thread>)
    requires forall t :: 0 <= t < |threads| ==> threads[t].Idle?
    ensures Weights(workers, threads) == 0
  {
    if threads == [] {
    } else {
      IdleWeights(workers, threads[..|threads| - 1]);
    }
  }

  /**
   * Every run is as short as its input: a run takes at most `workers + 10` steps for every job submitted
   * and two for every spurious wake-up, whatever fails.
   */
  lemma RunsAreShort<J, O>(c: Config<J, O>, steps: seq<Step<J>>)
    requires Legal(c, Init(c), steps)
    ensures |steps| <= (c.workers + 10) * CountSubmits(steps) + 2 * CountSpurious(steps)
  {
    RunCost(c, Init(c), steps);
    RunKeepsOrdered(c, Init(c), steps);
    MeasureBounded(Exec(c, Init(c), steps));
    IdleWeights(c.workers, Init(c).threads);
  }

  predicate AllInternal<J>(steps: seq<Step<J>>) {
    forall i :: 0 <= i < |steps| ==> Internal(steps[i])
  }

  lemma {:induction false} InternalCounts<J>(steps: seq<Step<J>>)
    requires AllInternal(steps)
    ensures CountSubmits(steps) == CountSpurious(steps) == 0
  {
    if steps == [] {
    } else {
      InternalCounts(steps[1..]);
    }
  }

  lemma ReachableOrdered<J(!new), O>(c: Config<J, O>, s: State<J, O>)
    requires Reachable(c, s)
    ensures Ordered(s) && |s.threads| == c.workers
  {
    var steps :| Legal(c, Init(c), steps) && Exec(c, Init(c), steps) == s;
    RunKeepsOrdered(c, Init(c), steps);
    FailuresGrow(c, Init(c), steps);
  }

  lemma {:induction false} ReachRun<J(!new), O>(c: Config<J, O>, s: State<J, O>, more: seq<Step<J>>)
    requires Reachable(c, s) && Legal(c, s, more)
    ensures Reachable(c, Exec(c, s, more))
    decreases |more|
  {
    if more == [] {
    } else {
      ReachStep(c, s, more[0]);
      ReachRun(c, Apply(c, s, more[0]), more[1..]);
    }
  }

  /** Every block submitted has been delivered, in order. */
  ghost predicate Drained<J, O>(c: Config<J, O>, s: State<J, O>) {
    && Finished(s) && |s.out| == |s.input|
    && forall i :: 0 <= i < |s.input| ==> s.out[i] == ResultAt(c, s.input, i)
  }

  /** A state of the encoders that cannot go on has delivered every block, in order. */
  lemma StuckIsDrained<J(!new), O>(c: Config<J, O>, s: State<J, O>)
    requires NeverFails(c) && 1 <= c.workers <= 256 && Capacious(c) && Reachable(c, s)
    requires forall step: Step<J> :: Internal(step) ==> !Enabled(c, s, step)
    ensures Drained(c, s)
  {
    EncodersInOrder(c, s);
    SomeStepPossible(c, s);
    assert SentCount(s) == s.done by {
      assert forall t: nat :: t < |s.threads| ==> s.threads[t].Idle?;
    }
  }

  /** Whatever the scheduler does, and whatever fails, the threads take at most `Measure(s)` steps on their own. */
  lemma InternalRunsAreShort<J(!new), O>(c: Config<J, O>, s: State<J, O>, more: seq<Step<J>>)
    requires Reachable(c, s) && Legal(c, s, more) && AllInternal(more)
    ensures |more| <= Measure(s)
  {
    ReachableOrdered(c, s);
    RunKeepsOrdered(c, s, more);
    RunCost(c, s, more);
    InternalCounts(more);
    MeasureBounded(Exec(c, s, more));
  }

  /** After any steps of their own, the encoders have either delivered everything or can take another step. */
  lemma DrainedOrMoving<J(!new), O>(c: Config<J, O>, s: State<J, O>)
    requires NeverFails(c) && 1 <= c.workers <= 256 && Capacious(c) && Reachable(c, s)
    ensures Drained(c, s) || exists step: Step<J> :: Internal(step) && Enabled(c, s, step)
  {
    if forall step: Step<J> :: Internal(step) ==> !Enabled(c, s, step) {
      StuckIsDrained(c, s);
    }
  }

  /**
   * Every finite input drains. From any reachable state, whatever the scheduler does, the encoders take
   * at most `Measure(s)` steps of their own; and when they can take no more, every block submitted has
   * been delivered, in order.
   */
  lemma EncodersDrain<J(!new), O>(c: Config<J, O>, s: State<J, O>, more: seq<Step<J>>)
    requires NeverFails(c) && 1 <= c.workers <= 256 && Capacious(c) && Reachable(c, s)
    requires Legal(c, s, more) && AllInternal(more)
    ensures |more| <= Measure(s)
    ensures Drained(c, Exec(c, s, more))
            || exists step: Step<J> :: Internal(step) && Enabled(c, Exec(c, s, more), step)
  {
    InternalRunsAreShort(c, s, more);
    ReachRun(c, s, more);
    DrainedOrMoving(c, Exec(c, s, more));
  }

  /** So there is a way to drain them. */
  lemma {:induction false} DrainExists<J(!new), O>(c: Config<J, O>, s: State<J, O>) returns (more: seq<Step<J>>)
    requires NeverFails(c) && 1 <= c.workers <= 256 && Capacious(c) && Reachable(c, s)
    ensures Legal(c, s, more) && AllInternal(more) && Drained(c, Exec(c, s, more))
    decreases Measure(s)
  {
    more := [];
    DrainedOrMoving(c, s);
    if !Drained(c, s) {
      var step: Step<J> :| Internal(step) && Enabled(c, s, step);
      ReachStep(c, s, step);
      StepMeasure(c, s, step);
      ReachableOrdered(c, s);
      MeasureBounded(s);
      var rest := DrainExists(c, Apply(c, s, step));
      more := [step] + rest;
      assert more[1..] == rest;
    }
  }

  // ---------------------------------------------------------------------------------------------
  // Failed jobs
  // ---------------------------------------------------------------------------------------------

  /** Once the job that is due has failed, the turn never moves and no result is sent any more. */
  lemma {:induction false} FailureStallsForever<J, O>(c: Config<J, O>, s: State<J, O>, steps: seq<Step<J>>)
    requires Inv(c, s) && s.done in s.failed && Legal(c, s, steps) && Bounded(Exec(c, s, steps))
    ensures var s' := Exec(c, s, steps); s'.done == s.done && s'.turn == s.turn && Somes(s'.out) == Somes(s.out)
    decreases |steps|
  {
    if steps == [] {
    } else {
      FailuresGrow(c, s, steps);
      SubsetSize(s.failed, Exec(c, s, steps).failed);
      StepKeepsInv(c, s, steps[0]);
      StalledStep(c, s, steps[0]);
      FailureStallsForever(c, Apply(c, s, steps[0]), steps[1..]);
    }
  }

  lemma StalledStep<J, O>(c: Config<J, O>, s: State<J, O>, step: Step<J>)
    requires Inv(c, s) && s.done in s.failed && Enabled(c, s, step)
    ensures var s' := Apply(c, s, step);
            s'.done == s.done && s'.turn == s.turn && Somes(s'.out) == Somes(s.out) && s'.done in s'.failed
  {
    match step
    case Send(t) => assert false;
    case Advance(t) => assert false;
    case Work(t) => SomesSnoc(s.out, None);
    case _ =>
  }

  // ---------------------------------------------------------------------------------------------
  // One worker
  // ---------------------------------------------------------------------------------------------

  /** A single worker deals with one job after the other, whatever fails. */
  ghost predicate Solo<J, O>(c: Config<J, O>, s: State<J, O>) {
    && Ordered(s) && |s.threads| == 1 && |s.out| <= |s.input|
    && (match s.threads[0]
        case Idle => s.pulled == |s.out|
        case Notifying => s.pulled == |s.out|
        case Sent(k) => s.pulled == |s.out| == k + 1
        case _ => s.threads[0].k == |s.out| && s.pulled == |s.out| + 1)
    && forall i :: 0 <= i < |s.out| ==> s.out[i] == ResultAt(c, s.input, i)
  }

  lemma {:induction false} SoloRun<J, O>(c: Config<J, O>, s: State<J, O>, steps: seq<Step<J>>)
    requires Solo(c, s) && Legal(c, s, steps)
    ensures Solo(c, Exec(c, s, steps))
    decreases |steps|
  {
    if steps == [] {
    } else {
      SoloRun(c, Apply(c, s, steps[0]), steps[1..]);
    }
  }

  /** With one worker no bound on failures is needed: output `i` is the result, or the failure, of job `i`. */
  lemma OneWorkerInOrder<J(!new), O>(c: Config<J, O>, s: State<J, O>)
    requires c.workers == 1 && Reachable(c, s)
    ensures |s.out| <= |s.input|
    ensures forall i :: 0 <= i < |s.out| ==> s.out[i] == ResultAt(c, s.input, i)
  {
    var steps :| Legal(c, Init(c), steps) && Exec(c, Init(c), steps) == s;
    SoloRun(c, Init(c), steps);
  }
}
