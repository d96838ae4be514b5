/**
 * The hand-off of the decoders across resets (src/receive/reblock.rs, src/receive/decode.rs). A reset
 * overwrites the turn and waits for nobody, so threads may still hold jobs from before it, and jobs from
 * before it may still be queued. `mark` is the number of jobs handed over before the last reset; a job below
 * it is stale. Steps of threads look neither at the mark nor at any other history.
 *
 * As long as no stale job takes the turn, what happens since the reset is a run of the hand-off of its own,
 * in which threads with stale jobs do not show: `View`.
 */
module TurnstileResets {
  import opened Bytes
  import opened Turnstile
  import opened TurnstileRuns

  function Since(x: nat, mark: nat): nat {
    if x < mark then 0 else x - mark
  }

  predicate Stale(th: Thread, mark: nat) {
    0 <= Key(th) < mark
  }

  /** A thread as the current epoch sees it. */
  function Shift(th: Thread, mark: nat): Thread {
    if Stale(th, mark) then Idle else
    match th
    case Idle => Idle
    case Notifying => Notifying
    case Working(k) => Working(k - mark)
    case Contending(k) => Contending(k - mark)
    case Asleep(k) => Asleep(k - mark)
    case Holding(k) => Holding(k - mark)
    case Sent(k) => Sent(k - mark)
  }

  function ShiftAll(threads: seq<Thread>, mark: nat): (r: seq<Thread>)
    ensures |r| == |threads|
    ensures forall t :: 0 <= t < |r| ==> r[t] == Shift(threads[t], mark)
  {
    seq(|threads|, t requires 0 <= t < |threads| => Shift(threads[t], mark))
  }

  function OwnFailures(failed: set<nat>, mark: nat): set<nat> {
    set k | k in failed && k >= mark :: k - mark
  }

  /** The current epoch by itself; `own` are the results of its own jobs. */
  function View<J, O>(s: State<J, O>, mark: nat, own: seq<Option<O>>): State<J, O>
    requires mark <= |s.input|
  {
    State(s.input[mark..], Since(s.fed, mark), Since(s.pulled, mark), ShiftAll(s.threads, mark), s.turn, s.holder,
          own, 0, s.done, OwnFailures(s.failed, mark))
  }

  /** Threads carry jobs of the input, and nobody has the lock for a stale one. */
  predicate Steady<J, O>(s: State<J, O>, mark: nat) {
    && Ordered(s) && mark <= |s.input|
    && forall t :: 0 <= t < |s.threads| ==>
         Key(s.threads[t]) < |s.input| && (HasLock(s.threads[t]) ==> s.threads[t].k >= mark)
  }

  /** A thread that holds a stale job does not find its turn come. */
  predicate StaleWaits<J, O>(s: State<J, O>, mark: nat, step: Step<J>) {
    step.Acquire? && Carries(s, step.t) && Stale(s.threads[step.t], mark) ==>
      s.input[Key(s.threads[step.t])].id != s.turn
  }

  /** A step of a thread, or of the queue to it. */
  predicate DecoderStep<J>(step: Step<J>) {
    !step.Submit? && !step.Consume?
  }

  /** The results of the epoch's own jobs after one more step. */
  function OwnAfter<J, O>(c: Config<J, O>, s: State<J, O>, mark: nat, own: seq<Option<O>>, step: Step<J>)
    : seq<Option<O>>
    requires Enabled(c, s, step) && DecoderStep(step)
  {
    var s' := Apply(c, s, step);
    if |s'.out| > |s.out| && !Stale(s.threads[step.t], mark) then own + [s'.out[|s.out|]] else own
  }

  // ---------------------------------------------------------------------------------------------
  // Steps
  // ---------------------------------------------------------------------------------------------

  lemma ShiftSet(threads: seq<Thread>, mark: nat, t: nat, th: Thread)
    requires t < |threads|
    ensures ShiftAll(threads[t := th], mark) == ShiftAll(threads, mark)[t := Shift(th, mark)]
  {}

  lemma ShiftWake(threads: seq<Thread>, mark: nat)
    ensures ShiftAll(WakeAll(threads), mark) == WakeAll(ShiftAll(threads, mark))
  {}

  /** Two systems that differ in the first job's number only. */
  ghost predicate Alike<J, O>(c: Config<J, O>, c': Config<J, O>) {
    c' == c.(base := c'.base) && c.inCapacity.None? && c.outCapacity.None?
  }

  /** A step in the current epoch, or one that does not show there. */
  ghost predicate Refines<J, O>(c': Config<J, O>, v: State<J, O>, v': State<J, O>, step: Step<J>) {
    v' == v || (Enabled(c', v, step) && v' == Apply(c', v, step))
  }

  lemma OwnFailuresGrow(failed: set<nat>, mark: nat, k: nat)
    ensures OwnFailures(failed + {k}, mark) == if k < mark then OwnFailures(failed, mark)
                                             else OwnFailures(failed, mark) + {k - mark}
  {
    forall x: nat
      ensures x in OwnFailures(failed + {k}, mark)
              <==> x in OwnFailures(failed, mark) || (k >= mark && x == k - mark)
    {
      assert x in OwnFailures(failed + {k}, mark) <==> x + mark in failed + {k};
      assert x in OwnFailures(failed, mark) <==> x + mark in failed;
    }
  }

  lemma WorkRefines<J, O>(
    c: Config<J, O>, c': Config<J, O>, s: State<J, O>, mark: nat, own: seq<Option<O>>, t: nat)
    requires Alike(c, c') && Steady(s, mark) && Enabled(c, s, Work(t))
    ensures Refines(c', View(s, mark, own),
                    View(Apply(c, s, Work(t)), mark, OwnAfter(c, s, mark, own, Work(t))), Work(t))
  {
    var k := s.threads[t].k;
    ShiftSet(s.threads, mark, t, Idle);
    ShiftSet(s.threads, mark, t, Contending(k));
    OwnFailuresGrow(s.failed, mark, k);
    var v := View(s, mark, own);
    if k < mark {
      assert v.threads[t := Idle] == v.threads;
    } else {
      assert ResultAt(c', v.input, k - mark) == ResultAt(c, s.input, k);
    }
  }

  lemma AcquireRefines<J, O>(
    c: Config<J, O>, c': Config<J, O>, s: State<J, O>, mark: nat, own: seq<Option<O>>, t: nat)
    requires Alike(c, c') && Steady(s, mark) && Enabled(c, s, Acquire(t)) && StaleWaits(s, mark, Acquire(t))
    ensures Refines(c', View(s, mark, own), View(Apply(c, s, Acquire(t)), mark, own), Acquire(t))
  {
    var k := s.threads[t].k;
    ShiftSet(s.threads, mark, t, Holding(k));
    ShiftSet(s.threads, mark, t, Asleep(k));
    var v := View(s, mark, own);
    if k < mark {
      assert v.threads[t := Idle] == v.threads;
    } else {
      assert v.input[k - mark] == s.input[k];
    }
  }

  lemma SendRefines<J, O>(
    c: Config<J, O>, c': Config<J, O>, s: State<J, O>, mark: nat, own: seq<Option<O>>, t: nat)
    requires Alike(c, c') && Steady(s, mark) && Enabled(c, s, Send(t))
    ensures Refines(c', View(s, mark, own),
                    View(Apply(c, s, Send(t)), mark, OwnAfter(c, s, mark, own, Send(t))), Send(t))
  {
    var k := s.threads[t].k;
    ShiftSet(s.threads, mark, t, Sent(k));
    assert ResultAt(c', View(s, mark, own).input, k - mark) == ResultAt(c, s.input, k);
  }

  lemma PullRefines<J, O>(
    c: Config<J, O>, c': Config<J, O>, s: State<J, O>, mark: nat, own: seq<Option<O>>, t: nat)
    requires Alike(c, c') && Steady(s, mark) && Enabled(c, s, Pull(t))
    ensures Refines(c', View(s, mark, own), View(Apply(c, s, Pull(t)), mark, own), Pull(t))
  {
    ShiftSet(s.threads, mark, t, Working(s.pulled));
    var v := View(s, mark, own);
    if s.pulled < mark {
      assert v.threads[t := Idle] == v.threads;
    }
  }

  lemma SpuriousRefines<J, O>(
    c: Config<J, O>, c': Config<J, O>, s: State<J, O>, mark: nat, own: seq<Option<O>>, t: nat)
    requires Alike(c, c') && Steady(s, mark) && Enabled(c, s, Spurious(t))
    ensures Refines(c', View(s, mark, own), View(Apply(c, s, Spurious(t)), mark, own), Spurious(t))
  {
    ShiftSet(s.threads, mark, t, Contending(s.threads[t].k));
    var v := View(s, mark, own);
    if s.threads[t].k < mark {
      assert v.threads[t := Idle] == v.threads;
    }
  }

  lemma NotifyRefines<J, O>(
    c: Config<J, O>, c': Config<J, O>, s: State<J, O>, mark: nat, own: seq<Option<O>>, t: nat)
    requires Alike(c, c') && Steady(s, mark) && Enabled(c, s, Notify(t))
    ensures Refines(c', View(s, mark, own), View(Apply(c, s, Notify(t)), mark, own), Notify(t))
  {
    ShiftSet(s.threads, mark, t, Idle);
    ShiftWake(s.threads[t := Idle], mark);
  }

  /**
   * While stale jobs wait, every step of the code is a step of the current epoch by itself, or does not
   * show there.
   */
  lemma StepRefines<J, O>(
    c: Config<J, O>, c': Config<J, O>, s: State<J, O>, mark: nat, own: seq<Option<O>>, step: Step<J>)
    requires Alike(c, c') && Steady(s, mark) && Enabled(c, s, step) && DecoderStep(step)
    requires StaleWaits(s, mark, step)
    ensures Steady(Apply(c, s, step), mark)
    ensures Refines(c', View(s, mark, own),
                    View(Apply(c, s, step), mark, OwnAfter(c, s, mark, own, step)), step)
  {
    SteadyStep(c, s, mark, step);
    match step
    case Feed =>
    case Pull(t) => PullRefines(c, c', s, mark, own, t);
    case Work(t) => WorkRefines(c, c', s, mark, own, t);
    case Acquire(t) => AcquireRefines(c, c', s, mark, own, t);
    case Send(t) => SendRefines(c, c', s, mark, own, t);
    case Advance(t) => ShiftSet(s.threads, mark, t, Notifying);
    case Notify(t) => NotifyRefines(c, c', s, mark, own, t);
    case Spurious(t) => SpuriousRefines(c, c', s, mark, own, t);
  }

  lemma SteadyStep<J, O>(c: Config<J, O>, s: State<J, O>, mark: nat, step: Step<J>)
    requires Steady(s, mark) && Enabled(c, s, step) && DecoderStep(step) && StaleWaits(s, mark, step)
    ensures Steady(Apply(c, s, step), mark)
  {}

  /** So the current epoch goes through states that the hand-off reaches by itself. */
  lemma ViewReachable<J(!new), O>(
    c: Config<J, O>, c': Config<J, O>, s: State<J, O>, mark: nat, own: seq<Option<O>>, step: Step<J>)
    requires Alike(c, c') && Steady(s, mark) && Enabled(c, s, step) && DecoderStep(step)
    requires StaleWaits(s, mark, step) && Reachable(c', View(s, mark, own))
    ensures Steady(Apply(c, s, step), mark)
    ensures Reachable(c', View(Apply(c, s, step), mark, OwnAfter(c, s, mark, own, step)))
  {
    StepRefines(c, c', s, mark, own, step);
    if View(Apply(c, s, step), mark, OwnAfter(c, s, mark, own, step)) != View(s, mark, own) {
      ReachStep(c', View(s, mark, own), step);
    }
  }

  lemma ViewOfMore<J, O>(s: State<J, O>, mark: nat, own: seq<Option<O>>, items: seq<Item<J>>)
    requires Steady(s, mark)
    ensures Steady(s.(input := s.input + items), mark)
    ensures View(s.(input := s.input + items), mark, own) == View(s, mark, own).(input := s.input[mark..] + items)
  {
    assert (s.input + items)[mark..] == s.input[mark..] + items;
  }

  /** More jobs of the current epoch. */
  lemma ViewSubmits<J(!new), O>(
    c': Config<J, O>, s: State<J, O>, mark: nat, own: seq<Option<O>>, items: seq<Item<J>>)
    requires Steady(s, mark) && Reachable(c', View(s, mark, own))
    requires forall i :: 0 <= i < |items| ==> items[i].id == Id(c'.base + |s.input[mark..]| + i)
    ensures Steady(s.(input := s.input + items), mark)
    ensures Reachable(c', View(s.(input := s.input + items), mark, own))
  {
    ViewOfMore(s, mark, own, items);
    ReachSubmits(c', View(s, mark, own), items);
  }

  // ---------------------------------------------------------------------------------------------
  // Resets
  // ---------------------------------------------------------------------------------------------

  /** The reset takes the lock too. */
  predicate LockFree<J, O>(s: State<J, O>) {
    s.holder == None && forall t :: 0 <= t < |s.threads| ==> !HasLock(s.threads[t])
  }

  /**
   * All sleepers are woken. A thread that has yet to notify the others is taken to be idle already: its late
   * notification shows as spurious wake-ups.
   */
  function Rested(threads: seq<Thread>): (r: seq<Thread>)
    ensures |r| == |threads|
  {
    seq(|threads|, t requires 0 <= t < |threads| =>
      match threads[t]
      case Asleep(k) => Contending(k)
      case Notifying => Idle
      case _ => threads[t])
  }

  /** The turn is overwritten; the history of the epoch starts anew. */
  function Reset<J, O>(s: State<J, O>, turn: u8): State<J, O> {
    s.(turn := turn, threads := Rested(s.threads), done := 0, failed := {})
  }

  /**
   * What a reset leaves alone, and that it wakes all sleepers: no thread and no queue loses a job, and
   * nothing that was sent is taken back.
   */
  lemma ResetTouchesOnly<J, O>(s: State<J, O>, turn: u8)
    ensures var s' := Reset(s, turn);
            && s'.turn == turn && |s'.threads| == |s.threads|
            && s'.input == s.input && s'.fed == s.fed && s'.pulled == s.pulled && s'.holder == s.holder
            && s'.out == s.out && s'.consumed == s.consumed
            && forall t :: 0 <= t < |s.threads| ==>
                 match s.threads[t]
                 case Asleep(k) => s'.threads[t] == Contending(k)
                 case Notifying => s'.threads[t] == Idle
                 case _ => s'.threads[t] == s.threads[t]
  {}

  // ---------------------------------------------------------------------------------------------
  // No lost wake-up
  // ---------------------------------------------------------------------------------------------

  /** A thread asleep although the identifier of its job is the turn. */
  predicate Overslept<J, O>(s: State<J, O>, t: nat) {
    && t < |s.threads| && s.threads[t].Asleep? && s.threads[t].k < |s.input|
    && s.input[s.threads[t].k].id == s.turn
  }

  /** Whoever oversleeps is about to be woken; in terms of what the threads compare, and of any job. */
  ghost predicate Awake<J, O>(s: State<J, O>) {
    && (forall t :: 0 <= t < |s.threads| ==> Key(s.threads[t]) < |s.input|)
    && ((exists t: nat :: Overslept(s, t)) ==> exists u: nat :: AboutToNotify(s.threads, u))
  }

  /** Every step keeps this, however many jobs fail. */
  lemma StepKeepsAwake<J, O>(c: Config<J, O>, s: State<J, O>, step: Step<J>)
    requires Awake(s) && Ordered(s) && Enabled(c, s, step)
    ensures Awake(Apply(c, s, step)) && Ordered(Apply(c, s, step))
  {
    var s' := Apply(c, s, step);
    if step.Advance? {
      assert AboutToNotify(s'.threads, step.t);
    } else if t: nat :| Overslept(s', t) {
      assert Overslept(s, t);
      var u: nat :| AboutToNotify(s.threads, u);
      assert AboutToNotify(s'.threads, u);
    }
  }

  /** So do more jobs, and so does a reset, because it wakes everybody. */
  lemma ResetKeepsAwake<J, O>(s: State<J, O>, turn: u8, more: seq<Item<J>>)
    requires Awake(s) && Ordered(s)
    ensures Awake(s.(input := s.input + more)) && Ordered(s.(input := s.input + more))
    ensures Awake(Reset(s, turn)) && Ordered(Reset(s, turn))
  {
    var s' := s.(input := s.input + more);
    if t: nat :| Overslept(s', t) {
      assert Overslept(s, t);
    }
    forall t: nat
      ensures !Overslept(Reset(s, turn), t)
    {
    }
  }

  lemma ResetView<J, O>(c: Config<J, O>, s: State<J, O>, mark: nat)
    requires Steady(s, mark) && LockFree(s) && |s.threads| == c.workers
    ensures var s' := Reset(s, Id(c.base));
            Steady(s', |s.input|) && View(s', |s.input|, []) == Init(c)
  {
    var v := View(Reset(s, Id(c.base)), |s.input|, []);
    assert forall t :: 0 <= t < |v.threads| ==> v.threads[t] == Idle;
    assert v.threads == Init(c).threads;
  }

  lemma ResetSolo<J, O>(c: Config<J, O>, s: State<J, O>, turn: u8)
    requires Solo(c, s) && LockFree(s)
    ensures Solo(c, Reset(s, turn))
  {}

  lemma SoloStep<J, O>(c: Config<J, O>, s: State<J, O>, step: Step<J>)
    requires Solo(c, s) && Enabled(c, s, step)
    ensures Solo(c, Apply(c, s, step))
  {
    assert [step][1..] == [] && [step][0] == step;
    SoloRun(c, s, [step]);
  }

  lemma SoloSubmits<J, O>(c: Config<J, O>, s: State<J, O>, items: seq<Item<J>>)
    requires Solo(c, s)
    ensures Solo(c, s.(input := s.input + items))
  {}

  /**
   * The condition on held identifiers: a stale job takes the turn exactly when the number of blocks sent
   * since the reset is, modulo 256, how far its identifier lies ahead of the first one of the epoch. For as
   * many blocks as lie between the first one and the nearest stale identifier, the reset is harmless.
   */
  lemma StaleTakesTurnIff<J, O>(c': Config<J, O>, s: State<J, O>, mark: nat, own: seq<Option<O>>, id: u8)
    requires mark <= |s.input| && Counters(c', View(s, mark, own))
    ensures id == s.turn <==> Offset(id, Id(c'.base)) == s.done % 256
  {
    IdSum(c'.base, s.done);
  }

  lemma IdSum(a: nat, b: nat)
    ensures Id(a + b) == WrappingAdd(Id(a), Id(b))
  {
    RingArithmetic(Id(a), Id(b));
    assert (Id(a) + Id(b)) % 256 == (a + b) % 256;
  }
}
