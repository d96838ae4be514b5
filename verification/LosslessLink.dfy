/**
 * What the diode delivers when its link loses nothing: then no block fails to decode, every block
 * reaches the threshold, and every client is served in full.
 */
module LosslessLink {
  import opened Bytes
  import opened Protocol
  import opened Reblock
  import opened Epoch
  import opened TurnstileResets
  import opened Demultiplex
  import opened Pipeline
  import opened EndToEnd
  import NoPanic

  predicate Distinct<A(==)>(s: seq<A>) {
    forall i, j :: 0 <= i < j < |s| ==> s[i] != s[j]
  }

  /**
   * The codec's side of progress: a block is encoded into `packets` packets, and any `threshold` different
   * ones among them are enough to decode it.
   */
  ghost predicate Efficient(sys: System, packets: nat) {
    && (forall id: u8, data: seq<u8> :: |data| == sys.transferLength ==> |sys.codec.encode(id, data)| == packets)
    && (forall id: u8, data: seq<u8>, ps: seq<Packet> ::
          |data| == sys.transferLength && From(sys.codec, id, data, ps) && Distinct(ps) && |ps| >= sys.threshold
          ==> sys.codec.decode(id, ps).Some?)
  }

  function Arriving(step: Step): seq<Arrival> {
    if step.Deliver? then step.batch else []
  }

  /** All packets that reach the receiver, in order. */
  function Arrivals(steps: seq<Step>): seq<Arrival> {
    if steps == [] then [] else Arriving(steps[0]) + Arrivals(steps[1..])
  }

  /** No packet is ahead of the window when it arrives, there is no reset, and no client worker stops. */
  ghost predicate OnTime(sys: System, s: State, step: Step) {
    match step
    case Deliver(batch) => batch != [] && forall a :: a in batch ==> a.number < Front(s, batch) + WINDOW_WIDTH
    case Restart(_) => false
    case ClientWorker(e) => e.Taken?
    case _ => true
  }

  ghost predicate AllOnTime(sys: System, s: State, steps: seq<Step>)
    requires Sensible(sys) && Legal(sys, s, steps)
    decreases |steps|
  {
    steps == [] || (OnTime(sys, s, steps[0]) && AllOnTime(sys, Apply(sys, s, steps[0]), steps[1..]))
  }

  /** Every packet of every block from the first one on has arrived. */
  ghost predicate NothingLost(sys: System, merged: seq<Message>, first: nat, arrived: seq<Arrival>)
    requires Merged(sys, merged)
  {
    forall n: nat, p :: first <= n < |merged| && p in sys.codec.encode(Id(n), BytesOf(sys, merged, n))
                        ==> Arrival(n, p) in arrived
  }

  // ---------------------------------------------------------------------------------------------
  // What holds throughout such a run
  // ---------------------------------------------------------------------------------------------

  /** What arrived was accepted, or came for a block that has left the window. */
  ghost predicate Accepting(r: Receiving, arrived: seq<Arrival>) {
    && Distinct(r.kept)
    && (forall a :: a in r.kept ==> a in arrived)
    && (forall a :: a in arrived ==> a in r.kept || a.number < Cur(r.epoch))
  }

  ghost predicate Unfailing(r: Receiving) {
    && r.restarts == 0 && r.decoding.failed == {} && Lossless(r.events)
    && forall i :: 0 <= i < |r.decoding.out| ==> r.decoding.out[i].Some?
  }

  ghost predicate Smooth(s: State, arrived: seq<Arrival>) {
    if s.receiving.None? then arrived == []
    else Accepting(s.receiving.value, arrived) && Unfailing(s.receiving.value)
  }

  lemma DistinctAppend<A>(a: seq<A>, b: seq<A>)
    requires Distinct(a + b)
    ensures Distinct(a) && Distinct(b) && forall x :: x in a ==> x !in b
  {
    assert forall i :: 0 <= i < |a| ==> (a + b)[i] == a[i];
    assert forall i :: 0 <= i < |b| ==> (a + b)[|a| + i] == b[i];
  }

  lemma DistinctFront<A>(a: seq<A>, b: seq<A>, c: seq<A>)
    requires Distinct(a + (b + c))
    ensures a + (b + c) == (a + b) + c && Distinct(a + b)
  {
    assert a + (b + c) == (a + b) + c;
    DistinctAppend(a + b, c);
  }

  lemma DistinctJoin<A>(a: seq<A>, b: seq<A>)
    requires Distinct(a) && Distinct(b) && forall x :: x in a ==> x !in b
    ensures Distinct(a + b)
  {
    forall i, j | 0 <= i < j < |a + b|
      ensures (a + b)[i] != (a + b)[j]
    {
      if i < |a| <= j {
        assert a[i] in a && b[j - |a|] in b;
      }
    }
  }

  lemma {:induction false} KeptDistinct(e: Epoch, batch: seq<Arrival>)
    requires Distinct(batch)
    ensures Distinct(Kept(e, batch))
  {
    if batch == [] {
    } else {
      var init, last := batch[..|batch| - 1], batch[|batch| - 1];
      KeptDistinct(e, init);
      KeptMembers(e, init);
      assert last !in init;
      DistinctJoin(Kept(e, init), [last]);
    }
  }

  lemma {:induction false} OfBlockDistinct(kept: seq<Arrival>, n: nat)
    requires Distinct(kept)
    ensures Distinct(OfBlock(kept, n))
  {
    if kept == [] {
    } else {
      var init, last := kept[..|kept| - 1], kept[|kept| - 1];
      OfBlockDistinct(init, n);
      OfBlockMembers(init, n);
      assert last !in init;
      if last.number == n {
        assert last == Arrival(n, last.packet);
        DistinctJoin(OfBlock(init, n), [last.packet]);
      }
    }
  }

  lemma {:induction false} OfBlockHolds(kept: seq<Arrival>, n: nat, p: Packet)
    requires Arrival(n, p) in kept
    ensures p in OfBlock(kept, n)
  {
    var init, last := kept[..|kept| - 1], kept[|kept| - 1];
    if last != Arrival(n, p) {
      assert kept == init + [last];
      OfBlockHolds(init, n, p);
    }
  }

  lemma {:induction false} SetNoLarger<A>(xs: set<A>, s: seq<A>)
    requires forall x :: x in xs ==> x in s
    ensures |xs| <= |s|
  {
    if s != [] {
      var init, last := s[..|s| - 1], s[|s| - 1];
      assert s == init + [last];
      SetNoLarger(xs - {last}, init);
    } else {
      assert xs == {};
    }
  }

  lemma AcceptBatch(sys: System, r: Receiving, arrived: seq<Arrival>, batch: seq<Arrival>)
    requires Accepting(r, arrived) && Distinct(arrived + batch) && |r.window.slots| == WINDOW_WIDTH
    requires forall a :: a in batch ==> a.number < Cur(r.epoch) + WINDOW_WIDTH
    ensures Accepting(Reblocked(sys, r, batch), arrived + batch)
  {
    DistinctAppend(arrived, batch);
    KeptDistinct(r.epoch, batch);
    KeptMembers(r.epoch, batch);
    DistinctJoin(r.kept, Kept(r.epoch, batch));
  }

  /** An emitted block of different packets decodes. */
  lemma DistinctDecodes(sys: System, merged: seq<Message>, kept: seq<Arrival>, packets: nat, n: nat)
    requires Sensible(sys) && Merged(sys, merged) && Efficient(sys, packets) && Genuine(sys, merged, kept)
    requires Distinct(kept) && n < |merged| && |OfBlock(kept, n)| >= sys.threshold
    ensures sys.codec.decode(Id(n), OfBlock(kept, n)).Some?
  {
    OfBlockMembers(kept, n);
    OfBlockDistinct(kept, n);
    BlockRoundTrip(merged[n], sys.transferLength);
    assert From(sys.codec, Id(n), BytesOf(sys, merged, n), OfBlock(kept, n));
  }

  /** No block that the decoders work on fails. */
  lemma NeverFailing(sys: System, merged: seq<Message>, r: Receiving, packets: nat, i: nat)
    requires Sensible(sys) && Merged(sys, merged) && Received(sys, merged, r) && Efficient(sys, packets)
    requires Distinct(r.kept) && r.restarts == 0 && i < |r.decoding.input|
    ensures T.ResultAt(Decoding(sys, r.epoch.first), r.decoding.input, i).Some?
  {
    var n := r.epoch.first + i;
    DecodedIsSent(sys, merged, r, i);
    assert r.decoding.input[0..][i] == T.Item(Id(n), r.epoch.emitted[i]);
    FaithfulAt(r.epoch, r.kept, sys.threshold, n);
    DistinctDecodes(sys, merged, r.kept, packets, n);
  }

  lemma UnfailingStep(
    sys: System, merged: seq<Message>, r: Receiving, step: T.Step<seq<Packet>>, next: Receiving, packets: nat)
    requires Sensible(sys) && Merged(sys, merged) && Received(sys, merged, r) && Efficient(sys, packets)
    requires DecoderStep(step) && T.Enabled(Decoding(sys, r.epoch.first), r.decoding, step)
    requires Unfailing(r) && Distinct(r.kept) && next == Decoded(sys, r, step)
    ensures Unfailing(next)
  {
    match step
    case Work(t) => NeverFailing(sys, merged, r, packets, r.decoding.threads[t].k);
    case Send(t) => NeverFailing(sys, merged, r, packets, r.decoding.threads[t].k);
    case _ =>
  }

  lemma SmoothDecode(sys: System, s: State, step: Step, packets: nat, arrived: seq<Arrival>)
    requires Inv(sys, s) && Enabled(sys, s, step) && step.Decode? && Smooth(s, arrived) && Efficient(sys, packets)
    ensures Smooth(Apply(sys, s, step), arrived)
  {
    var r := s.receiving.value;
    UnfailingStep(sys, s.merged, r, step.decoderStep, Decoded(sys, r, step.decoderStep), packets);
  }

  lemma SmoothDeliver(sys: System, s: State, step: Step, arrived: seq<Arrival>)
    requires Inv(sys, s) && Enabled(sys, s, step) && step.Deliver? && OnTime(sys, s, step)
    requires Smooth(s, arrived) && Distinct(arrived + step.batch)
    ensures Smooth(Apply(sys, s, step), arrived + step.batch)
  {
    if s.receiving.None? {
      AcceptBatch(sys, Opening(sys, step.batch[0]), [], step.batch);
    } else {
      AcceptBatch(sys, s.receiving.value, arrived, step.batch);
    }
  }

  lemma SmoothDispatch(sys: System, s: State, step: Step, arrived: seq<Arrival>)
    requires Sensible(sys) && Enabled(sys, s, step) && Smooth(s, arrived)
    requires step.DispatchNext? || (step.ClientWorker? && step.e.Taken?)
    ensures Smooth(Apply(sys, s, step), arrived)
  {
    var r := s.receiving.value;
    var e := if step.ClientWorker? then step.e else EventOf(r.decoding.out[r.decoding.consumed]);
    LosslessSnoc(r.events, e);
  }

  lemma SmoothNext(sys: System, s: State, step: Step, packets: nat, arrived: seq<Arrival>)
    requires Inv(sys, s) && Enabled(sys, s, step) && OnTime(sys, s, step)
    requires Smooth(s, arrived) && Efficient(sys, packets)
    requires Distinct(arrived + Arriving(step))
    ensures Smooth(Apply(sys, s, step), arrived + Arriving(step))
  {
    assert arrived + [] == arrived;
    match step
    case Deliver(_) => SmoothDeliver(sys, s, step, arrived);
    case Decode(_) => SmoothDecode(sys, s, step, packets, arrived);
    case DispatchNext => SmoothDispatch(sys, s, step, arrived);
    case ClientWorker(_) => SmoothDispatch(sys, s, step, arrived);
    case _ =>
  }

  lemma UnfailingIsFew(sys: System, r: Receiving)
    requires Sensible(sys) && r.decoding.failed == {}
    ensures FewFailures(sys, r)
  {
    assert OwnFailures(r.decoding.failed, r.mark) == {};
  }

  /** Every step of such a run is tame, and what was said remains true. */
  lemma SmoothStep(sys: System, s: State, step: Step, packets: nat, arrived: seq<Arrival>)
    requires Inv(sys, s) && Enabled(sys, s, step) && OnTime(sys, s, step)
    requires Smooth(s, arrived) && Efficient(sys, packets)
    requires Distinct(arrived + Arriving(step))
    ensures Tame(sys, s, step) && Smooth(Apply(sys, s, step), arrived + Arriving(step))
  {
    SmoothNext(sys, s, step, packets, arrived);
    var next := Apply(sys, s, step).receiving;
    if next.Some? {
      UnfailingIsFew(sys, next.value);
    }
  }

  lemma {:induction false} SmoothRun(sys: System, s: State, steps: seq<Step>, packets: nat, arrived: seq<Arrival>)
    requires Inv(sys, s) && Legal(sys, s, steps) && AllOnTime(sys, s, steps)
    requires Smooth(s, arrived) && Efficient(sys, packets) && Distinct(arrived + Arrivals(steps))
    ensures AllTame(sys, s, steps) && Inv(sys, Exec(sys, s, steps))
    ensures Smooth(Exec(sys, s, steps), arrived + Arrivals(steps))
    decreases |steps|
  {
    if steps == [] {
      assert arrived + [] == arrived;
    } else {
      var step, rest := steps[0], steps[1..];
      DistinctFront(arrived, Arriving(step), Arrivals(rest));
      SmoothStep(sys, s, step, packets, arrived);
      StepKeepsInv(sys, s, step);
      SmoothRun(sys, Apply(sys, s, step), rest, packets, arrived + Arriving(step));
    }
  }

  // ---------------------------------------------------------------------------------------------
  // Delivery
  // ---------------------------------------------------------------------------------------------

  lemma NothingLostIsEnough(
    sys: System, merged: seq<Message>, r: Receiving, packets: nat, arrived: seq<Arrival>, n: nat)
    requires Sensible(sys) && Merged(sys, merged) && ReceivingInv(sys, merged, r)
    requires Accepting(r, arrived) && Efficient(sys, packets) && sys.threshold <= packets
    requires NothingLost(sys, merged, r.epoch.first, arrived) && r.epoch.first <= n < |merged|
    ensures |OfBlock(r.kept, n)| >= sys.threshold
  {
    if n < Cur(r.epoch) {
      FaithfulAt(r.epoch, r.kept, sys.threshold, n);
    } else {
      BlockRoundTrip(merged[n], sys.transferLength);
      var encoded := sys.codec.encode(Id(n), BytesOf(sys, merged, n));
      forall p | p in encoded
        ensures p in OfBlock(r.kept, n)
      {
        assert Arrival(n, p) in arrived;
        OfBlockHolds(r.kept, n, p);
      }
      SetNoLarger(encoded, OfBlock(r.kept, n));
    }
  }

  /** A step of the receiver by itself: no packet arrives, and no thread wakes without being notified. */
  predicate OwnStep(step: Step) {
    step.DispatchNext? || (step.Decode? && Runs.Internal(step.decoderStep))
  }

  predicate AllOwn(steps: seq<Step>) {
    forall i :: 0 <= i < |steps| ==> OwnStep(steps[i])
  }

  lemma OwnStepLowers(sys: System, s: State, step: Step)
    requires Sensible(sys) && Enabled(sys, s, step) && OwnStep(step) && Runs.Ordered(s.receiving.value.decoding)
    ensures var next := Apply(sys, s, step);
            && next == s.(receiving := next.receiving) && next.receiving.Some?
            && Runs.Ordered(next.receiving.value.decoding)
            && Runs.Measure(next.receiving.value.decoding) < Runs.Measure(s.receiving.value.decoding)
            && next.receiving.value.epoch == s.receiving.value.epoch
  {
    var r := s.receiving.value;
    var c := Decoding(sys, r.epoch.first);
    var t := if step.DispatchNext? then T.Consume else step.decoderStep;
    Runs.StepMeasure(c, r.decoding, t);
    OrderedStep(c, r.decoding, t);
  }

  lemma OrderedStep<J, O>(c: T.Config<J, O>, s: T.State<J, O>, step: T.Step<J>)
    requires Runs.Ordered(s) && T.Enabled(c, s, step)
    ensures Runs.Ordered(T.Apply(c, s, step))
  {}

  /** Left to itself, the receiver takes a bounded number of steps, whatever fails or was reset. */
  lemma {:induction false} OwnStepsAreShort(sys: System, s: State, more: seq<Step>)
    requires Sensible(sys) && s.receiving.Some? && Runs.Ordered(s.receiving.value.decoding)
    requires Legal(sys, s, more) && AllOwn(more)
    ensures |more| <= Runs.Measure(s.receiving.value.decoding)
    ensures Exec(sys, s, more).receiving.Some? && Exec(sys, s, more).merged == s.merged
    ensures Exec(sys, s, more).receiving.value.epoch == s.receiving.value.epoch
    decreases |more|
  {
    if more == [] {
      Runs.MeasureBounded(s.receiving.value.decoding);
    } else {
      assert OwnStep(more[0]);
      OwnStepLowers(sys, s, more[0]);
      OwnStepsAreShort(sys, Apply(sys, s, more[0]), more[1..]);
    }
  }

  lemma {:induction false} OwnStepsOnTime(sys: System, s: State, more: seq<Step>)
    requires Sensible(sys) && Legal(sys, s, more) && AllOwn(more)
    ensures AllOnTime(sys, s, more) && Arrivals(more) == []
    decreases |more|
  {
    if more == [] {
    } else {
      assert OwnStep(more[0]);
      OwnStepsOnTime(sys, Apply(sys, s, more[0]), more[1..]);
    }
  }

  /** A receiver that is not at rest can take a step. */
  lemma RestOrMoving(sys: System, s: State)
    requires Inv(sys, s) && s.receiving.Some? && NoPanic.Sane(sys, s)
    ensures AtRest(sys, s.receiving.value) || exists step :: OwnStep(step) && Enabled(sys, s, step)
  {
    var r := s.receiving.value;
    var c := Decoding(sys, r.epoch.first);
    if r.decoding.consumed < |r.decoding.out| {
      if r.decoding.out[r.decoding.consumed].Some? {
        NoPanic.SentIsWellFormed(sys, s.merged, r.decoding.out[r.decoding.consumed].value);
      }
      assert Enabled(sys, s, DispatchNext);
    } else if step: T.Step<seq<Packet>> :| Runs.Internal(step) && T.Enabled(c, r.decoding, step) {
      assert Enabled(sys, s, Decode(step));
    }
  }

  /** A run on a link that loses, repeats and delays nothing. */
  ghost predicate Undisturbed(sys: System, steps: seq<Step>)
    requires Sensible(sys)
  {
    && Legal(sys, Init(sys), steps) && AllOnTime(sys, Init(sys), steps) && Distinct(Arrivals(steps))
    && var s := Exec(sys, Init(sys), steps);
       && Merged(sys, s.merged) && s.receiving.Some?
       && NothingLost(sys, s.merged, s.receiving.value.epoch.first, Arrivals(steps))
  }

  /** The sizes of the two ends, as `diode-send` and `diode-receive` build them from their settings. */
  predicate Configured(sys: System, packets: nat, mtu: u16, blockSize: u32, repair: u32, minRepair: u32) {
    && MaxPacketSize(mtu) > 0
    && var sender, receiver := Sizes(mtu, blockSize, repair, 0), Sizes(mtu, blockSize, repair, minRepair);
       && sender.Success? && receiver.Success?
       && packets == NbPackets(sender.value) && sys.threshold == MinNbPackets(receiver.value)
       && sys.transferLength == sender.value.transferLength
  }

  /** Everything was sent and has arrived, and the receiver is at rest. */
  lemma RestIsDelivery(
    sys: System, s: State, arrived: seq<Arrival>, c: ClientId, packets: nat)
    requires Inv(sys, s) && Smooth(s, arrived) && s.receiving.Some? && AtRest(sys, s.receiving.value)
    requires Efficient(sys, packets) && sys.threshold <= packets
    requires NothingLost(sys, s.merged, s.receiving.value.epoch.first, arrived)
    requires c in sys.clients && Of(s.merged[s.receiving.value.epoch.first..], c) == sys.clients[c].stream
    ensures Served(sys.clients[c], s.receiving.value.events, c)
  {
    var r := s.receiving.value;
    forall n: nat | r.epoch.first <= n < |s.merged|
      ensures |OfBlock(r.kept, n)| >= sys.threshold
    {
      NothingLostIsEnough(sys, s.merged, r, packets, arrived, n);
    }
    AllDispatched(sys, s.merged, r);
    WholeStream(r.events, c, sys.clients[c]);
  }

  /** What holds after such a run. */
  ghost predicate Well(sys: System, s: State, arrived: seq<Arrival>) {
    Inv(sys, s) && Smooth(s, arrived) && NoPanic.Sane(sys, s) && s.receiving.Some?
  }

  lemma WellAfter(sys: System, steps: seq<Step>, packets: nat)
    requires Sensible(sys) && Efficient(sys, packets) && Undisturbed(sys, steps)
    ensures Well(sys, Exec(sys, Init(sys), steps), Arrivals(steps))
  {
    InitInv(sys);
    assert [] + Arrivals(steps) == Arrivals(steps);
    SmoothRun(sys, Init(sys), steps, packets, []);
    NoPanic.RunKeepsSane(sys, Init(sys), steps);
  }

  /** It still holds after any steps that the receiver takes by itself. */
  lemma WellOn(sys: System, s: State, more: seq<Step>, packets: nat, arrived: seq<Arrival>)
    requires Well(sys, s, arrived) && Efficient(sys, packets) && Distinct(arrived)
    requires Legal(sys, s, more) && AllOwn(more)
    ensures Exec(sys, s, more).receiving.Some? && Well(sys, Exec(sys, s, more), arrived)
  {
    OwnStepsOnTime(sys, s, more);
    assert arrived + [] == arrived;
    SmoothRun(sys, s, more, packets, arrived);
    NoPanic.RunKeepsSane(sys, s, more);
    OwnStepsAreShort(sys, s, more);
  }

  lemma AtRestMeansStuck(sys: System, s: State, step: Step)
    requires Sensible(sys) && s.receiving.Some? && AtRest(sys, s.receiving.value) && OwnStep(step)
    ensures !Enabled(sys, s, step)
  {}

  lemma WellStep(sys: System, s: State, step: Step, packets: nat, arrived: seq<Arrival>)
    requires Well(sys, s, arrived) && Efficient(sys, packets) && Distinct(arrived)
    requires OwnStep(step) && Enabled(sys, s, step)
    ensures Well(sys, Apply(sys, s, step), arrived)
  {
    ExecOne(sys, s, step);
    WellOn(sys, s, [step], packets, arrived);
  }

  ghost predicate CanRest(sys: System, s: State)
    requires Sensible(sys)
  {
    exists more ::
      && Legal(sys, s, more) && AllOwn(more)
      && Exec(sys, s, more).receiving.Some? && AtRest(sys, Exec(sys, s, more).receiving.value)
  }

  lemma RestNow(sys: System, s: State)
    requires Sensible(sys) && s.receiving.Some? && AtRest(sys, s.receiving.value)
    ensures CanRest(sys, s)
  {
    assert Legal(sys, s, []) && AllOwn([]) && Exec(sys, s, []) == s;
  }

  lemma RestLater(sys: System, s: State, step: Step)
    requires Sensible(sys) && OwnStep(step) && Enabled(sys, s, step) && CanRest(sys, Apply(sys, s, step))
    ensures CanRest(sys, s)
  {
    var next := Apply(sys, s, step);
    var rest :|
      && Legal(sys, next, rest) && AllOwn(rest)
      && Exec(sys, next, rest).receiving.Some? && AtRest(sys, Exec(sys, next, rest).receiving.value);
    var more := [step] + rest;
    assert more[0] == step && more[1..] == rest;
    assert Legal(sys, s, more) && Exec(sys, s, more) == Exec(sys, next, rest);
  }

  /** So there is a way for it to come to rest. */
  lemma {:induction false} ComesToRest(sys: System, s: State, packets: nat, arrived: seq<Arrival>)
    requires Well(sys, s, arrived) && Efficient(sys, packets) && Distinct(arrived)
    ensures CanRest(sys, s)
    decreases Runs.Measure(s.receiving.value.decoding)
  {
    RestOrMoving(sys, s);
    if AtRest(sys, s.receiving.value) {
      RestNow(sys, s);
    } else {
      var step :| OwnStep(step) && Enabled(sys, s, step);
      WellStep(sys, s, step, packets, arrived);
      OwnStepLowers(sys, s, step);
      Runs.MeasureBounded(s.receiving.value.decoding);
      ComesToRest(sys, Apply(sys, s, step), packets, arrived);
      RestLater(sys, s, step);
    }
  }

  /**
   * On a link that loses, repeats and delays nothing, whatever the order of its packets within the window
   * and the interleaving of all workers: left to itself, the receiver takes a bounded number of steps, and
   * as soon as it can take no more, every client whose stream was sent from the first block received on has
   * been served: one queue, holding the whole stream, all bytes written, and success reported if and only if
   * the sender read them to the end. Nothing is assumed of what the receiver accepts or of its decoders:
   * no block fails, and every block reaches the threshold, because the codec decodes from that many packets
   * and the sender emits no fewer.
   */
  lemma LosslessDelivery(
    sys: System, steps: seq<Step>, more: seq<Step>, c: ClientId,
    packets: nat, mtu: u16, blockSize: u32, repair: u32, minRepair: u32)
    requires Sensible(sys) && Efficient(sys, packets) && Undisturbed(sys, steps) && c in sys.clients
    requires Configured(sys, packets, mtu, blockSize, repair, minRepair) && minRepair <= repair <= 100
    requires Legal(sys, Exec(sys, Init(sys), steps), more) && AllOwn(more)
    requires var s := Exec(sys, Init(sys), steps);
             && s.receiving.value.epoch.first <= |s.merged|
             && Of(s.merged[s.receiving.value.epoch.first..], c) == sys.clients[c].stream
    ensures var s, s' := Exec(sys, Init(sys), steps), Exec(sys, Exec(sys, Init(sys), steps), more);
            && |more| <= Runs.Measure(s.receiving.value.decoding)
            && s'.receiving.Some?
            && (Served(sys.clients[c], s'.receiving.value.events, c)
                || exists step :: OwnStep(step) && Enabled(sys, s', step))
  {
    ThresholdReachable(mtu, blockSize, repair, minRepair);
    var s, s' := Exec(sys, Init(sys), steps), Exec(sys, Exec(sys, Init(sys), steps), more);
    WellAfter(sys, steps, packets);
    WellOn(sys, s, more, packets, Arrivals(steps));
    OwnStepsAreShort(sys, s, more);
    RestOrMoving(sys, s');
    if AtRest(sys, s'.receiving.value) {
      RestIsDelivery(sys, s', Arrivals(steps), c, packets);
    }
  }
}
