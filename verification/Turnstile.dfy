/**
 * The ordered hand-off that the encoding and decoding workers share (src/send/encoding.rs,
 * src/receive/decode.rs): several threads pull numbered jobs from a queue, work on them in any order,
 * and put the results back in order under a mutex, a condition variable and a wrapping 8-bit turn.
 *
 * A state is a value; one step of one thread is an application of `Apply`. `done`, `failed` and the
 * position `k` of a job in `input` are history: no guard of a step looks at them, only at identifiers.
 */
module Turnstile {
  import opened Bytes

  datatype Item<J> = Item(id: u8, job: J)

  /** Where a thread is in its loop, and the position of the job it carries. */
  datatype Thread =
    | Idle                  // waiting for a job
    | Working(k: nat)       // encoding or decoding
    | Contending(k: nat)    // about to take the lock
    | Asleep(k: nat)        // waiting on the condition variable
    | Holding(k: nat)       // has the lock, and the turn is its own
    | Sent(k: nat)          // has the lock, result sent
    | Notifying             // turn advanced, lock released, others not notified yet

  /** Channel capacities are absent where the channel is unbounded; `work` yields nothing on failure. */
  datatype Config<!J, O> = Config(
    workers: nat, base: nat, inCapacity: Option<nat>, outCapacity: Option<nat>, work: (u8, J) -> Option<O>)

  /**
   * The input channel holds `input[pulled..fed]` and the output channel `out[consumed..]`; the items
   * from `fed` on are still upstream.
   */
  datatype State<J, O> = State(
    input: seq<Item<J>>, fed: nat, pulled: nat,
    threads: seq<Thread>, turn: u8, holder: Option<nat>,
    out: seq<Option<O>>, consumed: nat,
    done: nat, failed: set<nat>)

  datatype Step<J> =
    | Submit(item: Item<J>)
    | Feed
    | Pull(t: nat)
    | Work(t: nat)
    | Acquire(t: nat)
    | Send(t: nat)
    | Advance(t: nat)
    | Notify(t: nat)
    | Spurious(t: nat)
    | Consume

  function Init<J, O>(c: Config<J, O>): State<J, O> {
    State([], 0, 0, seq(c.workers, i => Idle), Id(c.base), None, [], 0, 0, {})
  }

  predicate HasRoom(capacity: Option<nat>, length: int) {
    capacity.Some? ==> length < capacity.value
  }

  /** What working on item `k` yields. */
  function ResultAt<J, O>(c: Config<J, O>, input: seq<Item<J>>, k: nat): Option<O>
    requires k < |input|
  {
    c.work(input[k].id, input[k].job)
  }

  /** Every position a thread carries is one of the input. */
  predicate Carries<J, O>(s: State<J, O>, t: nat) {
    t < |s.threads| && 0 <= Key(s.threads[t]) < |s.input|
  }

  predicate Enabled<J, O>(c: Config<J, O>, s: State<J, O>, step: Step<J>) {
    match step
    case Submit(item) => item.id == Id(c.base + |s.input|)
    case Feed => s.fed < |s.input| && HasRoom(c.inCapacity, s.fed - s.pulled)
    case Pull(t) => t < |s.threads| && s.threads[t].Idle? && s.pulled < s.fed
    case Work(t) => Carries(s, t) && s.threads[t].Working?
                    && (ResultAt(c, s.input, s.threads[t].k).None? ==> HasRoom(c.outCapacity, |s.out| - s.consumed))
    case Acquire(t) => Carries(s, t) && s.threads[t].Contending? && s.holder == None
    case Send(t) => Carries(s, t) && s.threads[t].Holding? && HasRoom(c.outCapacity, |s.out| - s.consumed)
    case Advance(t) => Carries(s, t) && s.threads[t].Sent?
    case Notify(t) => t < |s.threads| && s.threads[t].Notifying?
    case Spurious(t) => t < |s.threads| && s.threads[t].Asleep?
    case Consume => s.consumed < |s.out|
  }

  function WakeAll(threads: seq<Thread>): (r: seq<Thread>)
    ensures |r| == |threads|
  {
    seq(|threads|, i requires 0 <= i < |threads| =>
      if threads[i].Asleep? then Contending(threads[i].k) else threads[i])
  }

  function Apply<J, O>(c: Config<J, O>, s: State<J, O>, step: Step<J>): State<J, O>
    requires Enabled(c, s, step)
  {
    match step
    case Submit(item) => s.(input := s.input + [item])
    case Feed => s.(fed := s.fed + 1)
    case Pull(t) => s.(threads := s.threads[t := Working(s.pulled)], pulled := s.pulled + 1)
    case Work(t) =>
      var k := s.threads[t].k;
      if ResultAt(c, s.input, k).Some?
      then s.(threads := s.threads[t := Contending(k)])
      else s.(threads := s.threads[t := Idle], out := s.out + [None], failed := s.failed + {k})
    case Acquire(t) =>
      var k := s.threads[t].k;
      if s.input[k].id == s.turn
      then s.(threads := s.threads[t := Holding(k)], holder := Some(t))
      else s.(threads := s.threads[t := Asleep(k)])
    case Send(t) =>
      var k := s.threads[t].k;
      s.(threads := s.threads[t := Sent(k)], out := s.out + [ResultAt(c, s.input, k)])
    case Advance(t) =>
      s.(threads := s.threads[t := Notifying], turn := WrappingAdd(s.turn, 1), holder := None, done := s.done + 1)
    case Notify(t) => s.(threads := WakeAll(s.threads[t := Idle]))
    case Spurious(t) => s.(threads := s.threads[t := Contending(s.threads[t].k)])
    case Consume => s.(consumed := s.consumed + 1)
  }

  predicate Legal<J, O>(c: Config<J, O>, s: State<J, O>, steps: seq<Step<J>>)
    decreases |steps|
  {
    steps == [] || (Enabled(c, s, steps[0]) && Legal(c, Apply(c, s, steps[0]), steps[1..]))
  }

  function Exec<J, O>(c: Config<J, O>, s: State<J, O>, steps: seq<Step<J>>): State<J, O>
    requires Legal(c, s, steps)
    decreases |steps|
  {
    if steps == [] then s else Exec(c, Apply(c, s, steps[0]), steps[1..])
  }

  // ---------------------------------------------------------------------------------------------
  // Which jobs the threads hold
  // ---------------------------------------------------------------------------------------------

  /** The position a thread carries, or -1. */
  function Key(th: Thread): int {
    if th.Idle? || th.Notifying? then -1 else th.k
  }

  predicate Holds(threads: seq<Thread>, t: nat, k: nat) {
    t < |threads| && Key(threads[t]) == k
  }

  /**
   * The jobs held by threads, together with the failed ones, are exactly the consecutive ones from
   * the next due to the last pulled; no job is held twice.
   */
  ghost predicate Consecutive(threads: seq<Thread>, failed: set<nat>, done: nat, pulled: nat) {
    && done <= pulled
    && (forall t: nat :: t < |threads| && Key(threads[t]) != -1 ==> done <= Key(threads[t]) < pulled)
    && (forall t: nat :: t < |threads| && Key(threads[t]) != -1 ==> Key(threads[t]) !in failed)
    && (forall t: nat, u: nat :: t < |threads| && u < |threads| && Key(threads[t]) == Key(threads[u]) >= 0 ==> t == u)
    && (forall k: nat :: done <= k < pulled ==> k in failed || exists t: nat :: Holds(threads, t, k))
    && (forall k: nat :: k in failed ==> done <= k < pulled)
  }

  lemma SameKeysConsecutive(a: seq<Thread>, b: seq<Thread>, failed: set<nat>, done: nat, pulled: nat)
    requires Consecutive(a, failed, done, pulled)
    requires |a| == |b| && forall t: nat :: t < |a| ==> Key(a[t]) == Key(b[t])
    ensures Consecutive(b, failed, done, pulled)
  {
    forall k: nat | done <= k < pulled && k !in failed
      ensures exists t: nat :: Holds(b, t, k)
    {
      var t: nat :| Holds(a, t, k);
      assert Holds(b, t, k);
    }
  }

  lemma PullConsecutive(a: seq<Thread>, t: nat, failed: set<nat>, done: nat, pulled: nat)
    requires Consecutive(a, failed, done, pulled) && t < |a| && Key(a[t]) == -1
    ensures Consecutive(a[t := Working(pulled)], failed, done, pulled + 1)
  {
    var b := a[t := Working(pulled)];
    forall k: nat | done <= k < pulled + 1 && k !in failed
      ensures exists u: nat :: Holds(b, u, k)
    {
      if k == pulled {
        assert Holds(b, t, k);
      } else {
        var u: nat :| Holds(a, u, k);
        assert Holds(b, u, k);
      }
    }
  }

  lemma FailConsecutive(a: seq<Thread>, t: nat, failed: set<nat>, done: nat, pulled: nat)
    requires Consecutive(a, failed, done, pulled) && t < |a| && Key(a[t]) >= 0
    ensures Key(a[t]) !in failed
    ensures Consecutive(a[t := Idle], failed + {Key(a[t])}, done, pulled)
  {
    var b := a[t := Idle];
    var failed' := failed + {Key(a[t])};
    forall k: nat | done <= k < pulled && k !in failed'
      ensures exists u: nat :: Holds(b, u, k)
    {
      var u: nat :| Holds(a, u, k);
      assert Holds(b, u, k);
    }
  }

  lemma AdvanceConsecutive(a: seq<Thread>, t: nat, failed: set<nat>, done: nat, pulled: nat)
    requires Consecutive(a, failed, done, pulled) && t < |a| && Key(a[t]) == done
    ensures Consecutive(a[t := Notifying], failed, done + 1, pulled)
  {
    var b := a[t := Notifying];
    forall k: nat | done + 1 <= k < pulled && k !in failed
      ensures exists u: nat :: Holds(b, u, k)
    {
      var u: nat :| Holds(a, u, k);
      assert Holds(b, u, k);
    }
  }

  function KeySet(threads: seq<Thread>): (keys: set<nat>)
    ensures |keys| <= |threads|
    ensures forall t: nat, k: nat :: Holds(threads, t, k) ==> k in keys
  {
    if threads == [] then {} else
    var n := |threads| - 1;
    var rest := KeySet(threads[..n]);
    assert forall t: nat, k: nat :: t < n && Holds(threads, t, k) ==> Holds(threads[..n], t, k);
    if Key(threads[n]) < 0 then rest else rest + {Key(threads[n])}
  }

  function Range(from: nat, to: nat): (r: set<nat>)
    requires from <= to
    ensures forall k: nat :: (k in r <==> from <= k < to)
    ensures |r| == to - from
  {
    if from == to then {} else Range(from, to - 1) + {to - 1}
  }

  lemma SubsetSize<T>(a: set<T>, b: set<T>)
    requires a <= b
    ensures |a| <= |b|
  {
    assert b == a + (b - a);
  }

  /** The window of jobs between the due one and the last pulled is no wider than threads plus failures. */
  lemma ConsecutiveWidth(threads: seq<Thread>, failed: set<nat>, done: nat, pulled: nat)
    requires Consecutive(threads, failed, done, pulled)
    ensures pulled - done <= |threads| + |failed|
  {
    SubsetSize(Range(done, pulled), KeySet(threads) + failed);
    assert |KeySet(threads) + failed| <= |KeySet(threads)| + |failed|;
  }

  /** Among 256 consecutive jobs the 8-bit comparison admits only the one that is due. */
  lemma OnlyTheDueOne(base: nat, k: nat, done: nat)
    requires done <= k < done + 256
    ensures Id(base + k) == Id(base + done) <==> k == done
  {
    if Id(base + k) == Id(base + done) {
      assert (k - done) % 256 == 0;
    }
  }

  // ---------------------------------------------------------------------------------------------
  // The invariant
  // ---------------------------------------------------------------------------------------------

  predicate HasLock(th: Thread) {
    th.Holding? || th.Sent?
  }

  predicate Worked(th: Thread) {
    th.Contending? || th.Asleep? || th.Holding? || th.Sent?
  }

  /** The results that were sent, in order. */
  function Somes<O>(out: seq<Option<O>>): seq<O> {
    if out == [] then [] else
    Somes(out[..|out| - 1]) + match out[|out| - 1] case Some(o) => [o] case None => []
  }

  /** The results of the first `n` jobs. */
  function Results<J, O>(c: Config<J, O>, input: seq<Item<J>>, n: nat): (r: seq<O>)
    requires n <= |input|
    ensures |r| <= n
  {
    if n == 0 then [] else
    Results(c, input, n - 1) + match ResultAt(c, input, n - 1) case Some(o) => [o] case None => []
  }

  /** How many jobs have had their result sent: the due one may be sent but not yet advanced past. */
  function SentCount<J, O>(s: State<J, O>): nat {
    if s.holder.Some? && s.holder.value < |s.threads| && s.threads[s.holder.value].Sent? then s.done + 1 else s.done
  }

  predicate Counters<J, O>(c: Config<J, O>, s: State<J, O>) {
    && |s.threads| == c.workers
    && s.done <= s.pulled <= s.fed <= |s.input|
    && s.consumed <= |s.out|
    && s.turn == Id(c.base + s.done)
    && (forall k: nat :: k < |s.input| ==> s.input[k].id == Id(c.base + k))
  }

  /** The lock has exactly one holder, which carries the job that is due. */
  predicate Exclusive(threads: seq<Thread>, holder: Option<nat>, done: nat) {
    && (holder.Some? ==> holder.value < |threads|)
    && (forall t: nat :: t < |threads| ==> (HasLock(threads[t]) <==> holder == Some(t)))
    && (forall t: nat :: t < |threads| && HasLock(threads[t]) ==> threads[t].k == done)
  }

  predicate AsleepOnTurn(threads: seq<Thread>, t: nat, done: nat) {
    t < |threads| && threads[t] == Asleep(done)
  }

  predicate AboutToNotify(threads: seq<Thread>, t: nat) {
    t < |threads| && threads[t].Notifying?
  }

  /** A thread asleep although its turn has come is about to be woken. */
  ghost predicate NoLostWakeup(threads: seq<Thread>, done: nat) {
    (exists t: nat :: AsleepOnTurn(threads, t, done)) ==> exists u: nat :: AboutToNotify(threads, u)
  }

  /** Threads past their work have a result, failed jobs have none. */
  ghost predicate Productive<J, O>(c: Config<J, O>, input: seq<Item<J>>, threads: seq<Thread>, failed: set<nat>) {
    && (forall t: nat :: t < |threads| && Key(threads[t]) != -1 ==> Key(threads[t]) < |input|)
    && (forall k: nat :: k in failed ==> k < |input| && ResultAt(c, input, k).None?)
    && (forall t: nat :: t < |threads| && Worked(threads[t]) ==> ResultAt(c, input, threads[t].k).Some?)
  }

  /** The results sent are those of the first `sent` jobs, in order and without a gap. */
  ghost predicate InOrder<J, O>(c: Config<J, O>, input: seq<Item<J>>, out: seq<Option<O>>, sent: nat, failures: nat) {
    && sent <= |input|
    && Somes(out) == Results(c, input, sent)
    && |Results(c, input, sent)| == sent
    && |out| == sent + failures
  }

  ghost predicate Inv<J, O>(c: Config<J, O>, s: State<J, O>) {
    && Counters(c, s)
    && Consecutive(s.threads, s.failed, s.done, s.pulled)
    && Exclusive(s.threads, s.holder, s.done)
    && NoLostWakeup(s.threads, s.done)
    && Productive(c, s.input, s.threads, s.failed)
    && InOrder(c, s.input, s.out, SentCount(s), |s.failed|)
  }

  lemma InitInv<J, O>(c: Config<J, O>)
    ensures Inv(c, Init(c))
  {}

  /** Threads and failures together stay within the 256 values of an identifier. */
  predicate Bounded<J, O>(s: State<J, O>) {
    |s.threads| + |s.failed| <= 256
  }

  lemma {:induction false} ResultsExtend<J, O>(c: Config<J, O>, input: seq<Item<J>>, more: seq<Item<J>>, n: nat)
    requires n <= |input|
    ensures Results(c, input + more, n) == Results(c, input, n)
  {
    if n == 0 {
    } else {
      ResultsExtend(c, input, more, n - 1);
    }
  }

  lemma SomesSnoc<O>(out: seq<Option<O>>, o: Option<O>)
    ensures Somes(out + [o]) == Somes(out) + match o case Some(v) => [v] case None => []
  {
    assert (out + [o])[..|out|] == out;
  }

  lemma StepCounters<J, O>(c: Config<J, O>, s: State<J, O>, step: Step<J>)
    requires Counters(c, s) && Enabled(c, s, step)
    requires Exclusive(s.threads, s.holder, s.done) && Consecutive(s.threads, s.failed, s.done, s.pulled)
    ensures Counters(c, Apply(c, s, step))
  {
    if step.Advance? {
      assert Key(s.threads[step.t]) == s.done;
      RingArithmetic(s.turn, 1);
    }
  }

  /** The steps in which no job changes hands. */
  predicate KeepsKeys<J, O>(c: Config<J, O>, s: State<J, O>, step: Step<J>) {
    match step
    case Pull(_) => false
    case Advance(_) => false
    case Work(t) => Carries(s, t) && ResultAt(c, s.input, Key(s.threads[t])).Some?
    case _ => true
  }

  lemma StepKeys<J, O>(c: Config<J, O>, s: State<J, O>, step: Step<J>)
    requires Enabled(c, s, step) && KeepsKeys(c, s, step)
    ensures var s' := Apply(c, s, step);
            && |s'.threads| == |s.threads|
            && (forall t: nat :: t < |s.threads| ==> Key(s.threads[t]) == Key(s'.threads[t]))
            && s'.failed == s.failed && s'.done == s.done && s'.pulled == s.pulled
  {}

  lemma StepConsecutive<J, O>(c: Config<J, O>, s: State<J, O>, step: Step<J>)
    requires Exclusive(s.threads, s.holder, s.done) && Enabled(c, s, step)
    requires Consecutive(s.threads, s.failed, s.done, s.pulled)
    ensures var s' := Apply(c, s, step); Consecutive(s'.threads, s'.failed, s'.done, s'.pulled)
  {
    if KeepsKeys(c, s, step) {
      StepKeys(c, s, step);
      SameKeysConsecutive(s.threads, Apply(c, s, step).threads, s.failed, s.done, s.pulled);
    } else {
      match step
      case Pull(t) => PullConsecutive(s.threads, t, s.failed, s.done, s.pulled);
      case Advance(t) => AdvanceConsecutive(s.threads, t, s.failed, s.done, s.pulled);
      case Work(t) => FailConsecutive(s.threads, t, s.failed, s.done, s.pulled);
    }
  }

  lemma ExclusiveSet(threads: seq<Thread>, holder: Option<nat>, done: nat, t: nat, th: Thread)
    requires Exclusive(threads, holder, done) && t < |threads| && !HasLock(threads[t]) && !HasLock(th)
    ensures Exclusive(threads[t := th], holder, done)
  {}

  lemma ExclusiveWake(threads: seq<Thread>, holder: Option<nat>, done: nat)
    requires Exclusive(threads, holder, done)
    ensures Exclusive(WakeAll(threads), holder, done)
  {}

  /** What a thread compares under the lock decides whether its job is the one that is due. */
  lemma TurnIsDue<J, O>(c: Config<J, O>, s: State<J, O>, t: nat)
    requires Counters(c, s) && Consecutive(s.threads, s.failed, s.done, s.pulled) && Bounded(s)
    requires t < |s.threads| && Key(s.threads[t]) >= 0
    ensures s.threads[t].k < |s.input|
    ensures s.input[s.threads[t].k].id == s.turn <==> s.threads[t].k == s.done
  {
    ConsecutiveWidth(s.threads, s.failed, s.done, s.pulled);
    assert s.done <= Key(s.threads[t]) < s.pulled;
    OnlyTheDueOne(c.base, s.threads[t].k, s.done);
  }

  lemma StepExclusive<J, O>(c: Config<J, O>, s: State<J, O>, step: Step<J>)
    requires Exclusive(s.threads, s.holder, s.done) && Enabled(c, s, step)
    requires step.Acquire? ==> (s.input[s.threads[step.t].k].id == s.turn <==> s.threads[step.t].k == s.done)
    ensures var s' := Apply(c, s, step); Exclusive(s'.threads, s'.holder, s'.done)
  {
    match step
    case Notify(t) =>
      ExclusiveSet(s.threads, s.holder, s.done, t, Idle);
      ExclusiveWake(s.threads[t := Idle], s.holder, s.done);
    case _ =>
  }

  lemma StepNoLostWakeup<J, O>(c: Config<J, O>, s: State<J, O>, step: Step<J>)
    requires Inv(c, s) && Enabled(c, s, step)
    ensures var s' := Apply(c, s, step); NoLostWakeup(s'.threads, s'.done)
  {
    var s' := Apply(c, s, step);
    if step.Advance? {
      assert AboutToNotify(s'.threads, step.t);
    } else if t: nat :| AsleepOnTurn(s'.threads, t, s'.done) {
      assert AsleepOnTurn(s.threads, t, s.done);
      var u: nat :| AboutToNotify(s.threads, u);
      assert AboutToNotify(s'.threads, u);
    }
  }

  lemma ProductiveSet<J, O>(
    c: Config<J, O>, input: seq<Item<J>>, threads: seq<Thread>, failed: set<nat>, t: nat, th: Thread)
    requires Productive(c, input, threads, failed) && t < |threads|
    requires Key(th) < |input| && (Worked(th) ==> ResultAt(c, input, th.k).Some?)
    ensures Productive(c, input, threads[t := th], failed)
  {}

  lemma ProductiveSubmit<J, O>(
    c: Config<J, O>, input: seq<Item<J>>, threads: seq<Thread>, failed: set<nat>, item: Item<J>)
    requires Productive(c, input, threads, failed)
    ensures Productive(c, input + [item], threads, failed)
  {
    assert forall k: nat :: k < |input| ==> ResultAt(c, input + [item], k) == ResultAt(c, input, k);
  }

  lemma ProductiveWake<J, O>(c: Config<J, O>, input: seq<Item<J>>, threads: seq<Thread>, failed: set<nat>)
    requires Productive(c, input, threads, failed)
    ensures Productive(c, input, WakeAll(threads), failed)
  {}

  lemma StepProductive<J, O>(c: Config<J, O>, s: State<J, O>, step: Step<J>)
    requires Counters(c, s) && Productive(c, s.input, s.threads, s.failed) && Enabled(c, s, step)
    ensures var s' := Apply(c, s, step); Productive(c, s'.input, s'.threads, s'.failed)
  {
    match step
    case Submit(item) => ProductiveSubmit(c, s.input, s.threads, s.failed, item);
    case Notify(t) =>
      ProductiveSet(c, s.input, s.threads, s.failed, t, Idle);
      ProductiveWake(c, s.input, s.threads[t := Idle], s.failed);
    case Feed =>
    case Consume =>
    case _ =>
      ProductiveSet(c, s.input, s.threads, s.failed, step.t, Apply(c, s, step).threads[step.t]);
  }

  /** Only a send adds a result; advancing the turn merely counts it. */
  lemma StepSentCount<J, O>(c: Config<J, O>, s: State<J, O>, step: Step<J>)
    requires Exclusive(s.threads, s.holder, s.done) && Enabled(c, s, step)
    ensures SentCount(Apply(c, s, step)) == SentCount(s) + if step.Send? then 1 else 0
  {}

  lemma InOrderSend<J, O>(c: Config<J, O>, input: seq<Item<J>>, out: seq<Option<O>>, sent: nat, failures: nat)
    requires InOrder(c, input, out, sent, failures) && sent < |input| && ResultAt(c, input, sent).Some?
    ensures InOrder(c, input, out + [ResultAt(c, input, sent)], sent + 1, failures)
  {
    SomesSnoc(out, ResultAt(c, input, sent));
  }

  lemma InOrderFail<J, O>(c: Config<J, O>, input: seq<Item<J>>, out: seq<Option<O>>, sent: nat, failures: nat)
    requires InOrder(c, input, out, sent, failures)
    ensures InOrder(c, input, out + [None], sent, failures + 1)
  {
    SomesSnoc(out, None);
  }

  lemma StepInOrder<J, O>(c: Config<J, O>, s: State<J, O>, step: Step<J>)
    requires Exclusive(s.threads, s.holder, s.done)
    requires forall t: nat :: t < |s.threads| && Key(s.threads[t]) != -1 ==> Key(s.threads[t]) !in s.failed
    requires Productive(c, s.input, s.threads, s.failed) && InOrder(c, s.input, s.out, SentCount(s), |s.failed|)
    requires Enabled(c, s, step)
    ensures var s' := Apply(c, s, step); InOrder(c, s'.input, s'.out, SentCount(s'), |s'.failed|)
  {
    StepSentCount(c, s, step);
    match step
    case Submit(item) => ResultsExtend(c, s.input, [item], SentCount(s));
    case Send(t) => InOrderSend(c, s.input, s.out, SentCount(s), |s.failed|);
    case Work(t) =>
      if ResultAt(c, s.input, s.threads[t].k).None? {
        assert Key(s.threads[t]) !in s.failed;
        InOrderFail(c, s.input, s.out, SentCount(s), |s.failed|);
      }
    case _ =>
  }

  /** Every step of every thread keeps the invariant, as long as failures stay within the bound. */
  lemma StepKeepsInv<J, O>(c: Config<J, O>, s: State<J, O>, step: Step<J>)
    requires Inv(c, s) && Bounded(s) && Enabled(c, s, step)
    ensures Inv(c, Apply(c, s, step))
  {
    StepCounters(c, s, step);
    StepConsecutive(c, s, step);
    if step.Acquire? {
      TurnIsDue(c, s, step.t);
    }
    StepExclusive(c, s, step);
    StepNoLostWakeup(c, s, step);
    StepProductive(c, s, step);
    StepInOrder(c, s, step);
  }
}
