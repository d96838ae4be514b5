/**
 * The whole diode: clients, encoders, a lossy and reordering link, reblocking, decoders, dispatch and
 * receiving clients, as one transition system. The receiver may be reset, and so start a new epoch, at any
 * time.
 */
module Pipeline {
  import opened Bytes
  import opened Protocol
  import opened Reblock
  import opened Epoch
  import T = Turnstile
  import opened Sender
  import opened Dispatch
  import opened Demultiplex
  import opened ReceiveClient
  import Runs = TurnstileRuns
  import opened TurnstileResets

  // ---------------------------------------------------------------------------------------------
  // Parameters and hypotheses
  // ---------------------------------------------------------------------------------------------

  /** RaptorQ (RFC 6330), of which only `Sound` is assumed. */
  datatype Codec = Codec(encode: (u8, seq<u8>) -> set<Packet>, decode: (u8, seq<Packet>) -> Option<seq<u8>>)

  /** The packets `ps` all come from encoding `data` as block `id`. */
  predicate From(codec: Codec, id: u8, data: seq<u8>, ps: seq<Packet>) {
    forall p :: p in ps ==> p in codec.encode(id, data)
  }

  /**
   * Packets carry the identifier of their block (the source block number in the payload identifier of
   * section 3.2 of RFC 6330), and decoding packets of one block yields that block or nothing.
   */
  ghost predicate Sound(codec: Codec, transferLength: nat) {
    && (forall id: u8, data: seq<u8>, p: Packet :: p in codec.encode(id, data) ==> p.id == id)
    && (forall id: u8, data: seq<u8>, ps: seq<Packet> ::
          |data| == transferLength && From(codec, id, data, ps) && codec.decode(id, ps).Some?
          ==> codec.decode(id, ps).value == data)
  }

  /** One sending client: the blocks it will send, the bytes it read, and whether it read them to the end. */
  datatype Client = Client(stream: seq<Message>, content: seq<u8>, ok: bool)

  datatype System = System(
    codec: Codec, transferLength: u32, threshold: nat, encoders: nat, decoders: nat, clients: map<ClientId, Client>)

  ghost predicate Sensible(sys: System) {
    && Sound(sys.codec, sys.transferLength)
    && sys.threshold > 0
    && 1 <= sys.encoders <= 255 && 1 <= sys.decoders <= 255
    && forall c :: c in sys.clients ==>
         var client := sys.clients[c];
         && IsStream(c, client.stream, client.content, client.ok)
         && forall i :: 0 <= i < |client.stream| ==> Fits(client.stream[i], sys.transferLength)
  }

  /** The encoding stage: channels of capacity `encoders`, work that never fails. */
  function Encoding(sys: System): T.Config<seq<u8>, set<Packet>> {
    T.Config(sys.encoders, 0, Some(sys.encoders), Some(sys.encoders), (id, data) => Some(sys.codec.encode(id, data)))
  }

  /** The decoding stage: unbounded channels, work that may fail, a turn that starts at the first block. */
  function Decoding(sys: System, first: nat): T.Config<seq<Packet>, seq<u8>> {
    T.Config(sys.decoders, first, None, None, sys.codec.decode)
  }

  // ---------------------------------------------------------------------------------------------
  // States and steps
  // ---------------------------------------------------------------------------------------------

  /**
   * The receiving side since its first datagram. `epoch` and `kept` are history of the current epoch, and so
   * are `own`, the results of its jobs, and `mark`, the number of jobs handed over before it; `restarts`
   * counts the resets after the first.
   */
  datatype Receiving = Receiving(
    window: Window, decoding: T.State<seq<Packet>, seq<u8>>, events: seq<Event>, epoch: Epoch, kept: seq<Arrival>,
    restarts: nat, mark: nat, own: seq<Option<seq<u8>>>)

  /** `merged` lists the blocks in the order in which they reached the ordering worker. */
  datatype State = State(merged: seq<Message>, encoding: T.State<seq<u8>, set<Packet>>, receiving: Option<Receiving>)

  datatype Step =
    | ClientSends(m: Message)
    | Encode(encoderStep: T.Step<seq<u8>>)
    | Deliver(batch: seq<Arrival>)
    | Restart(batch: seq<Arrival>)
    | Decode(decoderStep: T.Step<seq<Packet>>)
    | DispatchNext
    | ClientWorker(e: Event)

  function Init(sys: System): State {
    State([], T.Init(Encoding(sys)), None)
  }

  /** A heartbeat, or the next block of some client. */
  predicate MaySend(sys: System, merged: seq<Message>, m: Message) {
    || (m.kind.Heartbeat? && m.payload == [] && Fits(m, sys.transferLength))
    || (Routable(m) && m.client in sys.clients && Of(merged, m.client) + [m] <= sys.clients[m.client].stream)
  }

  /** A packet that the encoders have put on the link; the link may also repeat it. */
  predicate OnLink(s: State, a: Arrival) {
    && a.number < s.encoding.consumed <= |s.encoding.out|
    && s.encoding.out[a.number].Some? && a.packet in s.encoding.out[a.number].value
  }

  /** The block number at which the window stands when this batch arrives. */
  function Front(s: State, batch: seq<Arrival>): nat
    requires batch != []
  {
    if s.receiving.Some? then Cur(s.receiving.value.epoch) else batch[0].number
  }

  ghost predicate Enabled(sys: System, s: State, step: Step) {
    match step
    case ClientSends(m) => MaySend(sys, s.merged, m)
    case Encode(step) => !step.Submit? && T.Enabled(Encoding(sys), s.encoding, step)
    case Deliver(batch) =>
      && batch != []
      && (s.receiving.Some? ==> |s.receiving.value.window.slots| == WINDOW_WIDTH)
      && (forall a :: a in batch ==> OnLink(s, a) && Near(a.number, Front(s, batch)))
    case Restart(batch) =>
      && batch != [] && s.receiving.Some? && LockFree(s.receiving.value.decoding)
      && (forall a :: a in batch ==> OnLink(s, a) && Near(a.number, batch[0].number))
    case Decode(step) =>
      && s.receiving.Some?
      && var r := s.receiving.value;
         DecoderStep(step) && T.Enabled(Decoding(sys, r.epoch.first), r.decoding, step)
    case DispatchNext =>
      && s.receiving.Some?
      && var d := s.receiving.value.decoding;
         d.consumed < |d.out| && (d.out[d.consumed].Some? ==> WellFormed(d.out[d.consumed].value))
    case ClientWorker(e) => s.receiving.Some? && (e.Gone? || e.Taken?)
  }

  /** Blocks as the decoding queue receives them. */
  function Items(blocks: seq<Reassembled>): (items: seq<T.Item<seq<Packet>>>)
    requires forall i :: 0 <= i < |blocks| ==> blocks[i].Block?
    ensures |items| == |blocks|
  {
    seq(|blocks|, i requires 0 <= i < |blocks| => T.Item(blocks[i].id, blocks[i].packets))
  }

  /** The reblocking worker on one batch; `base` is its state, or a fresh one after a reset. */
  function Reblocked(sys: System, base: Receiving, batch: seq<Arrival>): Receiving
    requires |base.window.slots| == WINDOW_WIDTH
  {
    var filled := Fill(base.window, Packets(batch));
    var k := Ready(filled.slots, sys.threshold);
    base.(
      window := Slide(filled, k),
      decoding := base.decoding.(input := base.decoding.input + Items(Emitted(filled, k))),
      epoch := Absorb(base.epoch, batch, sys.threshold),
      kept := base.kept + Kept(base.epoch, batch))
  }

  /** The receiver as its first datagram finds it. */
  function Opening(sys: System, first: Arrival): Receiving {
    Receiving(
      FreshWindow(first.packet.id), T.Init(Decoding(sys, first.number)), [], Open(first.number), [], 0, 0, [])
  }

  /**
   * The receiver as the first datagram after a reset finds it. The turn is overwritten, but queues, threads
   * and the dispatcher go on with what they have.
   */
  function Reopened(r: Receiving, first: Arrival): Receiving {
    Receiving(
      FreshWindow(first.packet.id), Reset(r.decoding, first.packet.id), r.events, Open(first.number), [],
      r.restarts + 1, |r.decoding.input|, [])
  }

  /** One step of the decoders. */
  function Decoded(sys: System, r: Receiving, step: T.Step<seq<Packet>>): Receiving
    requires DecoderStep(step) && T.Enabled(Decoding(sys, r.epoch.first), r.decoding, step)
  {
    var c := Decoding(sys, r.epoch.first);
    r.(decoding := T.Apply(c, r.decoding, step), own := OwnAfter(c, r.decoding, r.mark, r.own, step))
  }

  /** The dispatcher takes one element of the decoders' output, which it sees as the event `e`. */
  function TakeNext(r: Receiving, e: Event): Receiving {
    r.(decoding := r.decoding.(consumed := r.decoding.consumed + 1), events := r.events + [e])
  }

  /** The guard of `DispatchNext` asks for a block on which no accessor panics. */
  function EventOf(o: Option<seq<u8>>): Event {
    if o.Some? && WellFormed(o.value) then Incoming(Parse(o.value)) else Lost
  }

  ghost function Apply(sys: System, s: State, step: Step): State
    requires Sensible(sys) && Enabled(sys, s, step)
  {
    match step
    case ClientSends(m) =>
      SentFits(sys, s.merged, m);
      var item := T.Item(Id(|s.encoding.input|), BlockBytes(m, sys.transferLength));
      s.(merged := s.merged + [m], encoding := T.Apply(Encoding(sys), s.encoding, T.Submit(item)))
    case Encode(step) => s.(encoding := T.Apply(Encoding(sys), s.encoding, step))
    case Deliver(batch) =>
      var base := if s.receiving.Some? then s.receiving.value else Opening(sys, batch[0]);
      s.(receiving := Some(Reblocked(sys, base, batch)))
    case Restart(batch) =>
      s.(receiving := Some(Reblocked(sys, Reopened(s.receiving.value, batch[0]), batch)))
    case Decode(step) => s.(receiving := Some(Decoded(sys, s.receiving.value, step)))
    case DispatchNext =>
      var r := s.receiving.value;
      s.(receiving := Some(TakeNext(r, EventOf(r.decoding.out[r.decoding.consumed]))))
    case ClientWorker(e) =>
      var r := s.receiving.value;
      s.(receiving := Some(r.(events := r.events + [e])))
  }

  // ---------------------------------------------------------------------------------------------
  // Under which runs the diode is safe
  // ---------------------------------------------------------------------------------------------

  /** A single decoder, or up to 256 decoders and failed blocks of the current epoch together. */
  predicate FewFailures(sys: System, r: Receiving) {
    sys.decoders == 1 || sys.decoders + |OwnFailures(r.decoding.failed, r.mark)| <= 256
  }

  function Pending(out: seq<Option<seq<u8>>>): (events: seq<Event>)
    ensures |events| == |out|
  {
    seq(|out|, i requires 0 <= i < |out| => EventOf(out[i]))
  }

  /** What the dispatcher has seen, and what it is going to see of what the decoders have sent already. */
  function Plan(r: Receiving): seq<Event>
    requires r.decoding.consumed <= |r.decoding.out|
  {
    r.events + Pending(r.decoding.out[r.decoding.consumed..])
  }

  /**
   * The number of the block that the decoders send next. Several decoders skip none; one decoder skips those
   * that failed, having reported the loss.
   */
  function NextNumber(sys: System, r: Receiving): nat {
    r.epoch.first + if sys.decoders == 1 then Since(|r.decoding.out|, r.mark) else |T.Somes(r.own)|
  }

  /** A reset skips, or repeats, no block of a transfer that what was sent so far leaves open. */
  predicate Harmless(sys: System, s: State, batch: seq<Arrival>)
    requires s.receiving.Some? && batch != []
  {
    var r := s.receiving.value;
    && r.decoding.consumed <= |r.decoding.out|
    && var n, first := NextNumber(sys, r), batch[0].number;
       forall k, c :: 0 <= k < |s.merged| && (n <= k < first || first <= k < n) && HasOpen(Trace(Plan(r)), c)
         ==> !(s.merged[k].client == c && Routable(s.merged[k]))
  }

  /**
   * What is asked of a step, beyond its being possible: no reset cuts an open transfer, no thread that holds
   * a block from before a reset takes the turn, and there are few failures.
   */
  ghost predicate Tame(sys: System, s: State, step: Step)
    requires Sensible(sys) && Enabled(sys, s, step)
  {
    && (step.Restart? ==> Harmless(sys, s, step.batch))
    && (step.Decode? ==> StaleWaits(s.receiving.value.decoding, s.receiving.value.mark, step.decoderStep))
    && var s' := Apply(sys, s, step); s'.receiving.Some? ==> FewFailures(sys, s'.receiving.value)
  }

  lemma SentFits(sys: System, merged: seq<Message>, m: Message)
    requires Sensible(sys) && MaySend(sys, merged, m)
    ensures Fits(m, sys.transferLength)
  {
    if Routable(m) && m.client in sys.clients && Of(merged, m.client) + [m] <= sys.clients[m.client].stream {
      assert sys.clients[m.client].stream[|Of(merged, m.client)|] == m;
    }
  }

  // ---------------------------------------------------------------------------------------------
  // The invariant
  // ---------------------------------------------------------------------------------------------

  /** The bytes of the block with true number `n`. */
  function BytesOf(sys: System, merged: seq<Message>, n: nat): seq<u8>
    requires n < |merged| && Fits(merged[n], sys.transferLength)
  {
    BlockBytes(merged[n], sys.transferLength)
  }

  /** What the ordering worker has seen is a merge of initial parts of the clients' streams. */
  ghost predicate Merged(sys: System, merged: seq<Message>) {
    && (forall n :: 0 <= n < |merged| ==> Fits(merged[n], sys.transferLength))
    && (forall n :: 0 <= n < |merged| && Routable(merged[n]) ==> merged[n].client in sys.clients)
    && (forall c :: c in sys.clients ==> Of(merged, c) <= sys.clients[c].stream)
  }

  ghost predicate SendingInv(sys: System, s: State) {
    && Merged(sys, s.merged)
    && Runs.Reachable(Encoding(sys), s.encoding)
    && |s.encoding.input| == |s.merged|
    && forall n :: 0 <= n < |s.merged| ==> s.encoding.input[n] == T.Item(Id(n), BytesOf(sys, s.merged, n))
  }

  /** Every accepted packet was encoded from the block whose number it is filed under. */
  ghost predicate Genuine(sys: System, merged: seq<Message>, kept: seq<Arrival>)
    requires Merged(sys, merged)
  {
    forall a :: a in kept ==>
      a.number < |merged| && a.packet in sys.codec.encode(Id(a.number), BytesOf(sys, merged, a.number))
  }

  /** The decoding queue received exactly the emitted blocks, numbered from the first one. */
  ghost predicate Numbered(input: seq<T.Item<seq<Packet>>>, e: Epoch) {
    && |input| == |e.emitted|
    && forall i :: 0 <= i < |input| ==> input[i] == T.Item(Id(e.first + i), e.emitted[i])
  }

  /** Every client's queues are in step with what the dispatcher was given, and belong to a sending client. */
  ghost predicate Followed(sys: System, merged: seq<Message>, events: seq<Event>, n: nat) {
    && n <= |merged|
    && (forall c :: c in sys.clients ==> Tracks(Trace(events), c, sys.clients[c].stream, Of(merged[..n], c)))
    && (forall j :: 0 <= j < |Trace(events)| ==> Trace(events)[j].client in sys.clients)
  }

  /** Without losses and resets the dispatcher is given the blocks from the first one on, as they were merged. */
  ghost predicate Gapless(merged: seq<Message>, r: Receiving, events: seq<Event>, n: nat) {
    && r.epoch.first <= n <= |merged|
    && (Lossless(events) && r.restarts == 0 ==> Arrived(events) == merged[r.epoch.first..n])
  }

  ghost predicate Dispatched(sys: System, merged: seq<Message>, r: Receiving) {
    && r.decoding.consumed <= |r.decoding.out|
    && Followed(sys, merged, Plan(r), NextNumber(sys, r))
    && Gapless(merged, r, Plan(r), NextNumber(sys, r))
  }

  /**
   * The decoders are in a state that the hand-off of the current epoch reaches by itself; and before any
   * reset, that is all there is to them.
   */
  ghost predicate Handed(sys: System, r: Receiving) {
    && Steady(r.decoding, r.mark) && |r.decoding.threads| == sys.decoders
    && Runs.Reachable(Decoding(sys, r.epoch.first), View(r.decoding, r.mark, r.own))
    && (sys.decoders == 1 ==> Runs.Solo(Decoding(sys, r.epoch.first), r.decoding))
    && (r.restarts == 0 ==>
          r.mark == 0 && r.own == r.decoding.out && Runs.Reachable(Decoding(sys, r.epoch.first), r.decoding))
  }

  /** Everything but the dispatcher. */
  ghost predicate Received(sys: System, merged: seq<Message>, r: Receiving)
    requires Merged(sys, merged)
  {
    && r.window == WindowOf(r.epoch)
    && Faithful(r.epoch, r.kept, sys.threshold)
    && r.epoch.first <= |merged|
    && Genuine(sys, merged, r.kept)
    && Handed(sys, r) && FewFailures(sys, r)
    && Numbered(r.decoding.input[r.mark..], r.epoch)
  }

  ghost predicate ReceivingInv(sys: System, merged: seq<Message>, r: Receiving)
    requires Merged(sys, merged)
  {
    Received(sys, merged, r) && Dispatched(sys, merged, r)
  }

  ghost predicate Inv(sys: System, s: State) {
    && Sensible(sys)
    && SendingInv(sys, s)
    && (s.receiving.Some? ==> ReceivingInv(sys, s.merged, s.receiving.value))
  }

  lemma InitInv(sys: System)
    requires Sensible(sys)
    ensures Inv(sys, Init(sys))
  {
    Runs.ReachInit(Encoding(sys));
  }

  // ---------------------------------------------------------------------------------------------
  // Every step keeps it
  // ---------------------------------------------------------------------------------------------

  lemma MergedGrows(sys: System, merged: seq<Message>, m: Message)
    requires Sensible(sys) && Merged(sys, merged) && MaySend(sys, merged, m)
    ensures Merged(sys, merged + [m])
  {
    SentFits(sys, merged, m);
    forall c | c in sys.clients
      ensures Of(merged + [m], c) <= sys.clients[c].stream
    {
      OfSnoc(merged, m, c);
    }
  }

  lemma NumberedBlocks(sys: System, merged: seq<Message>, m: Message, input: seq<T.Item<seq<u8>>>)
    requires Merged(sys, merged) && Merged(sys, merged + [m]) && Fits(m, sys.transferLength) && |input| == |merged|
    requires forall n :: 0 <= n < |merged| ==> input[n] == T.Item(Id(n), BytesOf(sys, merged, n))
    ensures var input' := input + [T.Item(Id(|merged|), BlockBytes(m, sys.transferLength))];
            forall n :: 0 <= n < |merged + [m]| ==> input'[n] == T.Item(Id(n), BytesOf(sys, merged + [m], n))
  {
    assert (merged + [m])[|merged|] == m;
  }

  lemma SendingGrows(sys: System, s: State, m: Message)
    requires Sensible(sys) && SendingInv(sys, s) && MaySend(sys, s.merged, m) && Fits(m, sys.transferLength)
    ensures var item := T.Item(Id(|s.merged|), BlockBytes(m, sys.transferLength));
            SendingInv(sys, s.(merged := s.merged + [m], encoding := s.encoding.(input := s.encoding.input + [item])))
  {
    MergedGrows(sys, s.merged, m);
    NumberedBlocks(sys, s.merged, m, s.encoding.input);
    Runs.ReachStep(Encoding(sys), s.encoding, T.Submit(T.Item(Id(|s.merged|), BlockBytes(m, sys.transferLength))));
  }

  lemma ReceivingUnaffected(sys: System, merged: seq<Message>, m: Message, r: Receiving)
    requires Merged(sys, merged) && Merged(sys, merged + [m]) && ReceivingInv(sys, merged, r)
    ensures ReceivingInv(sys, merged + [m], r)
  {
    var n := NextNumber(sys, r);
    assert (merged + [m])[..n] == merged[..n];
    assert (merged + [m])[r.epoch.first..n] == merged[r.epoch.first..n];
  }

  lemma ClientSendsKeepsInv(sys: System, s: State, step: Step)
    requires Inv(sys, s) && Enabled(sys, s, step) && step.ClientSends?
    ensures Inv(sys, Apply(sys, s, step))
  {
    SentFits(sys, s.merged, step.m);
    SendingGrows(sys, s, step.m);
    if s.receiving.Some? {
      ReceivingUnaffected(sys, s.merged, step.m, s.receiving.value);
    }
  }

  lemma EncodeKeepsInv(sys: System, s: State, step: Step)
    requires Inv(sys, s) && Enabled(sys, s, step) && step.Encode?
    ensures Inv(sys, Apply(sys, s, step))
  {
    Runs.ReachStep(Encoding(sys), s.encoding, step.encoderStep);
  }

  /** A packet on the link was encoded from the block whose number it is filed under. */
  lemma LinkIsGenuine(sys: System, s: State, batch: seq<Arrival>)
    requires Inv(sys, s) && forall a :: a in batch ==> OnLink(s, a)
    ensures Genuine(sys, s.merged, batch)
    ensures forall a :: a in batch ==> a.packet.id == Id(a.number)
  {
    Runs.EncodersInOrder(Encoding(sys), s.encoding);
  }

  lemma KeptIsGenuine(sys: System, merged: seq<Message>, e: Epoch, kept: seq<Arrival>, batch: seq<Arrival>)
    requires Merged(sys, merged) && Genuine(sys, merged, kept) && Genuine(sys, merged, batch)
    ensures Genuine(sys, merged, kept + Kept(e, batch))
  {
    KeptMembers(e, batch);
  }

  lemma OpeningInv(sys: System, merged: seq<Message>, first: Arrival)
    requires Sensible(sys) && Merged(sys, merged) && first.number < |merged| && first.packet.id == Id(first.number)
    ensures ReceivingInv(sys, merged, Opening(sys, first))
  {
    var r := Opening(sys, first);
    var c := Decoding(sys, first.number);
    Runs.ReachInit(c);
    ViewOfInit(c);
    FirstIsFaithful(first.number, sys.threshold);
    assert Plan(r) == [] && NextNumber(sys, r) == first.number;
  }

  lemma ViewOfInit<J, O>(c: T.Config<J, O>)
    ensures Steady(T.Init(c), 0) && View(T.Init(c), 0, []) == T.Init(c)
  {
    assert View(T.Init(c), 0, []).threads == T.Init(c).threads;
  }

  lemma NumberedAppend(e: Epoch, e': Epoch, input: seq<T.Item<seq<Packet>>>, items: seq<T.Item<seq<Packet>>>)
    requires Numbered(input, e) && e'.first == e.first && e.emitted <= e'.emitted
    requires |e'.emitted| == |e.emitted| + |items|
    requires forall i :: 0 <= i < |items| ==> items[i] == T.Item(Id(Cur(e) + i), e'.emitted[|e.emitted| + i])
    ensures Numbered(input + items, e')
  {
    forall k | 0 <= k < |input + items|
      ensures (input + items)[k] == T.Item(Id(e.first + k), e'.emitted[k])
    {
      if k < |input| {
        assert e'.emitted[k] == e.emitted[k];
      } else {
        assert (input + items)[k] == items[k - |input|];
      }
    }
  }

  /** The jobs that reblocking makes of a batch. */
  function NewJobs(sys: System, r: Receiving, batch: seq<Arrival>): seq<T.Item<seq<Packet>>>
    requires |r.window.slots| == WINDOW_WIDTH
  {
    var filled := Fill(r.window, Packets(batch));
    Items(Emitted(filled, Ready(filled.slots, sys.threshold)))
  }

  lemma NewJobsAre(sys: System, r: Receiving, batch: seq<Arrival>)
    requires r.window == WindowOf(r.epoch) && |r.epoch.slots| == WINDOW_WIDTH && Plausible(batch, Cur(r.epoch))
    ensures var jobs, e' := NewJobs(sys, r, batch), Absorb(r.epoch, batch, sys.threshold);
            && Reblocked(sys, r, batch).window == WindowOf(e')
            && r.epoch.emitted <= e'.emitted && |e'.emitted| == |r.epoch.emitted| + |jobs|
            && forall i :: 0 <= i < |jobs| ==>
                 jobs[i] == T.Item(Id(Cur(r.epoch) + i), e'.emitted[|r.epoch.emitted| + i])
  {
    WindowRefinesEpoch(r.epoch, batch, sys.threshold);
  }

  /** The blocks that reblocking hands to the decoders continue their numbering. */
  lemma NewJobsNumbered(sys: System, r: Receiving, batch: seq<Arrival>, input: seq<T.Item<seq<Packet>>>)
    requires r.window == WindowOf(r.epoch) && |r.epoch.slots| == WINDOW_WIDTH
    requires Numbered(input, r.epoch) && Plausible(batch, Cur(r.epoch))
    ensures Reblocked(sys, r, batch).window == WindowOf(Reblocked(sys, r, batch).epoch)
    ensures Numbered(input + NewJobs(sys, r, batch), Reblocked(sys, r, batch).epoch)
    ensures forall i :: 0 <= i < |NewJobs(sys, r, batch)| ==>
              NewJobs(sys, r, batch)[i].id == Id(r.epoch.first + |input| + i)
  {
    var jobs := NewJobs(sys, r, batch);
    NewJobsAre(sys, r, batch);
    NumberedAppend(r.epoch, Absorb(r.epoch, batch, sys.threshold), input, jobs);
    forall i | 0 <= i < |jobs|
      ensures jobs[i].id == Id(r.epoch.first + |input| + i)
    {
      assert Cur(r.epoch) + i == r.epoch.first + |input| + i;
    }
  }

  lemma ReblockedHanded(sys: System, r: Receiving, batch: seq<Arrival>)
    requires |r.window.slots| == WINDOW_WIDTH && Handed(sys, r)
    requires forall i :: 0 <= i < |NewJobs(sys, r, batch)| ==>
               NewJobs(sys, r, batch)[i].id == Id(r.epoch.first + (|r.decoding.input| - r.mark) + i)
    ensures Handed(sys, Reblocked(sys, r, batch))
  {
    var c, jobs := Decoding(sys, r.epoch.first), NewJobs(sys, r, batch);
    ViewSubmits(c, r.decoding, r.mark, r.own, jobs);
    if sys.decoders == 1 {
      SoloSubmits(c, r.decoding, jobs);
    }
    if r.restarts == 0 {
      Runs.ReachSubmits(c, r.decoding, jobs);
    }
  }

  lemma ReblockedDispatched(sys: System, merged: seq<Message>, r: Receiving, batch: seq<Arrival>)
    requires Dispatched(sys, merged, r) && |r.window.slots| == WINDOW_WIDTH
    ensures Dispatched(sys, merged, Reblocked(sys, r, batch))
  {
    assert NextNumber(sys, Reblocked(sys, r, batch)) == NextNumber(sys, r);
    assert Plan(Reblocked(sys, r, batch)) == Plan(r);
  }

  lemma ReblockedKept(sys: System, merged: seq<Message>, r: Receiving, batch: seq<Arrival>)
    requires Merged(sys, merged) && Genuine(sys, merged, r.kept) && Genuine(sys, merged, batch)
    requires Faithful(r.epoch, r.kept, sys.threshold) && sys.threshold > 0
    ensures var e, kept := Absorb(r.epoch, batch, sys.threshold), r.kept + Kept(r.epoch, batch);
            e.first == r.epoch.first && Faithful(e, kept, sys.threshold) && Genuine(sys, merged, kept)
  {
    AbsorbKeepsFaithful(r.epoch, r.kept, batch, sys.threshold);
    KeptIsGenuine(sys, merged, r.epoch, r.kept, batch);
  }

  lemma ReblockedNumbered(sys: System, r: Receiving, batch: seq<Arrival>, next: Receiving)
    requires r.window == WindowOf(r.epoch) && |r.epoch.slots| == WINDOW_WIDTH && r.mark <= |r.decoding.input|
    requires Numbered(r.decoding.input[r.mark..], r.epoch) && Plausible(batch, Cur(r.epoch))
    requires next == Reblocked(sys, r, batch)
    ensures next.window == WindowOf(next.epoch) && Numbered(next.decoding.input[r.mark..], next.epoch)
    ensures forall i :: 0 <= i < |NewJobs(sys, r, batch)| ==>
              NewJobs(sys, r, batch)[i].id == Id(r.epoch.first + (|r.decoding.input| - r.mark) + i)
  {
    var input, jobs := r.decoding.input, NewJobs(sys, r, batch);
    NewJobsNumbered(sys, r, batch, input[r.mark..]);
    assert (input + jobs)[r.mark..] == input[r.mark..] + jobs;
  }

  lemma ReblockedReceived(sys: System, merged: seq<Message>, r: Receiving, batch: seq<Arrival>)
    requires Sensible(sys) && Merged(sys, merged) && Received(sys, merged, r)
    requires Genuine(sys, merged, batch) && Plausible(batch, Cur(r.epoch))
    ensures Received(sys, merged, Reblocked(sys, r, batch))
  {
    ReblockedNumbered(sys, r, batch, Reblocked(sys, r, batch));
    ReblockedKept(sys, merged, r, batch);
    ReblockedHanded(sys, r, batch);
  }

  lemma ReblockedInv(sys: System, merged: seq<Message>, r: Receiving, batch: seq<Arrival>)
    requires Sensible(sys) && Merged(sys, merged) && ReceivingInv(sys, merged, r)
    requires Genuine(sys, merged, batch) && Plausible(batch, Cur(r.epoch))
    ensures ReceivingInv(sys, merged, Reblocked(sys, r, batch))
  {
    ReblockedReceived(sys, merged, r, batch);
    ReblockedDispatched(sys, merged, r, batch);
  }

  lemma DeliverKeepsInv(sys: System, s: State, step: Step)
    requires Inv(sys, s) && Enabled(sys, s, step) && step.Deliver?
    ensures Inv(sys, Apply(sys, s, step))
  {
    var batch := step.batch;
    LinkIsGenuine(sys, s, batch);
    assert batch[0] in batch;
    if s.receiving.None? {
      OpeningInv(sys, s.merged, batch[0]);
      ReblockedInv(sys, s.merged, Opening(sys, batch[0]), batch);
    } else {
      ReblockedInv(sys, s.merged, s.receiving.value, batch);
    }
  }

  /** Blocks that belong to no open transfer may be skipped, or come again. */
  lemma FollowedSkip(sys: System, s: State, batch: seq<Arrival>)
    requires Sensible(sys) && Merged(sys, s.merged) && s.receiving.Some? && batch != []
    requires ReceivingInv(sys, s.merged, s.receiving.value) && Harmless(sys, s, batch)
    requires batch[0].number <= |s.merged|
    ensures Followed(sys, s.merged, Plan(s.receiving.value), batch[0].number)
  {
    var r := s.receiving.value;
    var trace, n, first := Trace(Plan(r)), NextNumber(sys, r), batch[0].number;
    forall c | c in sys.clients
      ensures Tracks(trace, c, sys.clients[c].stream, Of(s.merged[..first], c))
    {
      if HasOpen(trace, c) {
        if n <= first {
          OfUnaffected(s.merged, n, first, c);
        } else {
          OfUnaffected(s.merged, first, n, c);
        }
      }
      TracksSkip(trace, c, sys.clients[c].stream, Of(s.merged[..n], c), Of(s.merged[..first], c));
    }
  }

  /** An open queue is in step with one position only, up to blocks of other clients. */
  lemma OpenQueueFixes(sys: System, merged: seq<Message>, events: seq<Event>, a: nat, b: nat, k: nat, c: ClientId)
    requires Merged(sys, merged) && Followed(sys, merged, events, a) && Followed(sys, merged, events, b)
    requires a <= k < b && HasOpen(Trace(events), c)
    ensures !(merged[k].client == c && Routable(merged[k]))
  {
    var j :| 0 <= j < |Trace(events)| && Trace(events)[j].client == c && Trace(events)[j].open;
    assert Of(merged[..a], c) == Trace(events)[j].blocks == Of(merged[..b], c);
    if merged[k].client == c && Routable(merged[k]) {
      OfAffected(merged, a, b, k, c);
    }
  }

  /** A reset is harmless if and only if all queues remain in step with what the dispatcher is given next. */
  lemma HarmlessIsExact(sys: System, s: State, batch: seq<Arrival>)
    requires Inv(sys, s) && s.receiving.Some? && batch != [] && batch[0].number <= |s.merged|
    ensures Harmless(sys, s, batch) <==> Followed(sys, s.merged, Plan(s.receiving.value), batch[0].number)
  {
    var r := s.receiving.value;
    var n, first := NextNumber(sys, r), batch[0].number;
    if Harmless(sys, s, batch) {
      FollowedSkip(sys, s, batch);
    } else if Followed(sys, s.merged, Plan(r), first) {
      forall k, c | 0 <= k < |s.merged| && (n <= k < first || first <= k < n) && HasOpen(Trace(Plan(r)), c)
        ensures !(s.merged[k].client == c && Routable(s.merged[k]))
      {
        if n <= k < first {
          OpenQueueFixes(sys, s.merged, Plan(r), n, first, k, c);
        } else {
          OpenQueueFixes(sys, s.merged, Plan(r), first, n, k, c);
        }
      }
    }
  }

  lemma ReopenedHanded(sys: System, r: Receiving, first: Arrival)
    requires Handed(sys, r) && LockFree(r.decoding) && first.packet.id == Id(first.number)
    ensures Handed(sys, Reopened(r, first))
  {
    var c := Decoding(sys, first.number);
    ResetView(c, r.decoding, r.mark);
    Runs.ReachInit(c);
    if sys.decoders == 1 {
      ResetSolo(c, r.decoding, first.packet.id);
    }
  }

  lemma ReopenedInv(sys: System, s: State, first: Arrival)
    requires Inv(sys, s) && s.receiving.Some? && LockFree(s.receiving.value.decoding)
    requires first.number < |s.merged| && first.packet.id == Id(first.number)
    requires Followed(sys, s.merged, Plan(s.receiving.value), first.number)
    ensures ReceivingInv(sys, s.merged, Reopened(s.receiving.value, first))
  {
    var r := s.receiving.value;
    var next := Reopened(r, first);
    ReopenedHanded(sys, r, first);
    FirstIsFaithful(first.number, sys.threshold);
    assert Plan(next) == Plan(r);
    ReopenedNext(sys, r, first);
  }

  lemma ReopenedNext(sys: System, r: Receiving, first: Arrival)
    requires Handed(sys, r) && 1 <= sys.decoders <= 255
    ensures NextNumber(sys, Reopened(r, first)) == first.number
    ensures FewFailures(sys, Reopened(r, first))
  {
    assert OwnFailures({}, |r.decoding.input|) == {};
  }

  lemma RestartKeepsInv(sys: System, s: State, step: Step)
    requires Inv(sys, s) && Enabled(sys, s, step) && step.Restart? && Harmless(sys, s, step.batch)
    ensures Inv(sys, Apply(sys, s, step))
  {
    var batch := step.batch;
    LinkIsGenuine(sys, s, batch);
    assert batch[0] in batch;
    FollowedSkip(sys, s, batch);
    ReopenedInv(sys, s, batch[0]);
    ReblockedInv(sys, s.merged, Reopened(s.receiving.value, batch[0]), batch);
  }

  lemma {:induction false} SomesPrefix<O>(out: seq<Option<O>>, n: nat)
    requires n <= |out|
    ensures T.Somes(out[..n]) <= T.Somes(out)
  {
    if n == |out| {
      assert out[..n] == out;
    } else {
      SomesPrefix(out[..|out| - 1], n);
      assert out[..|out| - 1][..n] == out[..n];
    }
  }

  lemma {:induction false} OfBlockMembers(kept: seq<Arrival>, n: nat)
    ensures forall p :: p in OfBlock(kept, n) ==> Arrival(n, p) in kept
  {
    if kept == [] {
    } else {
      var last := kept[|kept| - 1];
      OfBlockMembers(kept[..|kept| - 1], n);
      assert last.number == n ==> last == Arrival(n, last.packet);
    }
  }

  /** An emitted block that decodes yields the bytes that were sent under its number. */
  lemma DecodedIsSent(sys: System, merged: seq<Message>, r: Receiving, i: nat)
    requires Sensible(sys) && Merged(sys, merged) && Received(sys, merged, r)
    requires r.mark + i < |r.decoding.input|
    ensures r.epoch.first + i < |merged|
    ensures var o := T.ResultAt(Decoding(sys, r.epoch.first), r.decoding.input, r.mark + i);
            o.Some? ==> o.value == BytesOf(sys, merged, r.epoch.first + i)
  {
    var n := r.epoch.first + i;
    var ps := r.epoch.emitted[i];
    assert r.decoding.input[r.mark + i] == r.decoding.input[r.mark..][i] == T.Item(Id(n), ps);
    assert ps == Content(r.epoch, n) == OfBlock(r.kept, n);
    OfBlockMembers(r.kept, n);
    assert Arrival(n, ps[0]) in r.kept;
    BlockRoundTrip(merged[n], sys.transferLength);
    assert From(sys.codec, Id(n), BytesOf(sys, merged, n), ps);
  }

  /** Several decoders: the `i`-th block sent in the current epoch is block `first + i` of the merged sequence. */
  lemma OwnIsSent(sys: System, merged: seq<Message>, r: Receiving)
    requires Sensible(sys) && Merged(sys, merged) && Received(sys, merged, r) && sys.decoders > 1
    ensures var somes := T.Somes(r.own);
            && r.epoch.first + |somes| <= |merged|
            && forall i :: 0 <= i < |somes| ==> somes[i] == BytesOf(sys, merged, r.epoch.first + i)
  {
    var c, v := Decoding(sys, r.epoch.first), View(r.decoding, r.mark, r.own);
    var somes := T.Somes(r.own);
    Runs.ReachableInv(c, v);
    Runs.ResultsShort(c, v.input, |somes|);
    forall i | 0 <= i < |somes|
      ensures r.epoch.first + i < |merged| && somes[i] == BytesOf(sys, merged, r.epoch.first + i)
    {
      assert T.ResultAt(c, v.input, i) == T.ResultAt(c, r.decoding.input, r.mark + i);
      DecodedIsSent(sys, merged, r, i);
    }
    if somes != [] {
      assert r.epoch.first + (|somes| - 1) < |merged|;
    }
  }

  /** One decoder: results, or losses, come in the order of the blocks. */
  lemma OneIsSent(sys: System, merged: seq<Message>, r: Receiving, i: nat)
    requires Sensible(sys) && Merged(sys, merged) && Received(sys, merged, r) && sys.decoders == 1
    requires r.mark <= i < |r.decoding.out|
    ensures var n := r.epoch.first + (i - r.mark);
            n < |merged| && (r.decoding.out[i].Some? ==> r.decoding.out[i].value == BytesOf(sys, merged, n))
  {
    DecodedIsSent(sys, merged, r, i - r.mark);
  }

  lemma NextOfOne(sys: System, merged: seq<Message>, r: Receiving, next: Receiving, o: Option<seq<u8>>)
    requires Sensible(sys) && Merged(sys, merged) && Received(sys, merged, next) && sys.decoders == 1
    requires next.epoch == r.epoch && next.mark == r.mark && next.decoding.out == r.decoding.out + [o]
    requires o.Some? ==> r.mark <= |r.decoding.out|
    ensures NextNumber(sys, next) <= |merged| && NextNumber(sys, r) <= NextNumber(sys, next)
    ensures o.Some? ==>
              && NextNumber(sys, next) == NextNumber(sys, r) + 1
              && o.value == BytesOf(sys, merged, NextNumber(sys, r))
  {
    var i := |r.decoding.out|;
    assert next.decoding.out[i] == o;
    if r.mark <= i {
      OneIsSent(sys, merged, next, i);
    }
  }

  lemma NextOfMany(sys: System, merged: seq<Message>, r: Receiving, next: Receiving, o: Option<seq<u8>>)
    requires Sensible(sys) && Merged(sys, merged) && Received(sys, merged, next) && sys.decoders > 1
    requires next.epoch == r.epoch
    requires next.own == r.own + [o] || (next.own == r.own && o.None?)
    ensures NextNumber(sys, next) <= |merged| && NextNumber(sys, r) <= NextNumber(sys, next)
    ensures o.Some? ==>
              && NextNumber(sys, next) == NextNumber(sys, r) + 1
              && o.value == BytesOf(sys, merged, NextNumber(sys, r))
  {
    OwnIsSent(sys, merged, next);
    T.SomesSnoc(r.own, o);
    assert o.Some? ==> T.Somes(next.own)[|T.Somes(r.own)|] == o.value;
  }

  /** What the decoders send, if it is a block, is the block that is due; it is never a stale one. */
  lemma NextIsSent(sys: System, merged: seq<Message>, r: Receiving, next: Receiving, o: Option<seq<u8>>)
    requires Sensible(sys) && Merged(sys, merged) && Received(sys, merged, next)
    requires next.epoch == r.epoch && next.mark == r.mark && next.decoding.out == r.decoding.out + [o]
    requires next.own == r.own + [o] || (next.own == r.own && o.None?)
    requires sys.decoders == 1 && o.Some? ==> r.mark <= |r.decoding.out|
    ensures NextNumber(sys, next) <= |merged| && NextNumber(sys, r) <= NextNumber(sys, next)
    ensures o.Some? ==>
              && NextNumber(sys, next) == NextNumber(sys, r) + 1
              && EventOf(o) == Incoming(merged[NextNumber(sys, r)])
  {
    if sys.decoders == 1 {
      NextOfOne(sys, merged, r, next, o);
    } else {
      NextOfMany(sys, merged, r, next, o);
    }
    if o.Some? {
      BlockRoundTrip(merged[NextNumber(sys, r)], sys.transferLength);
    }
  }

  lemma TracksMerged(client: Client, c: ClientId, merged: seq<Message>, trace: seq<Queue>, n: nat)
    requires IsStream(c, client.stream, client.content, client.ok) && n < |merged|
    requires Of(merged, c) <= client.stream && Tracks(trace, c, client.stream, Of(merged[..n], c))
    ensures Tracks(Grown(trace, Incoming(merged[n])), c, client.stream, Of(merged[..n + 1], c))
  {
    assert merged[..n + 1] == merged[..n] + [merged[n]];
    OfSnoc(merged[..n], merged[n], c);
    OfPrefix(merged, n + 1, c);
    StreamShape(c, client.stream, client.content, client.ok);
    TracksNext(trace, merged[n], c, client.stream, Of(merged[..n], c));
  }

  lemma FollowedNext(sys: System, merged: seq<Message>, events: seq<Event>, n: nat)
    requires Sensible(sys) && Merged(sys, merged) && Followed(sys, merged, events, n) && n < |merged|
    ensures Followed(sys, merged, events + [Incoming(merged[n])], n + 1)
  {
    TraceSnoc(events, Incoming(merged[n]));
    forall c | c in sys.clients
      ensures Tracks(Trace(events + [Incoming(merged[n])]), c, sys.clients[c].stream, Of(merged[..n + 1], c))
    {
      TracksMerged(sys.clients[c], c, merged, Trace(events), n);
    }
  }

  lemma FollowedLoss(sys: System, merged: seq<Message>, events: seq<Event>, n: nat, next: nat)
    requires Merged(sys, merged) && Followed(sys, merged, events, n) && next <= |merged|
    ensures Followed(sys, merged, events + [Lost], next)
  {
    TraceSnoc(events, Lost);
    forall c | c in sys.clients
      ensures Tracks(Trace(events + [Lost]), c, sys.clients[c].stream, Of(merged[..next], c))
    {
      OfPrefix(merged, n, c);
      TracksLoss(Trace(events), c, sys.clients[c].stream, Of(merged[..n], c), Of(merged[..next], c));
    }
  }

  lemma GaplessNext(merged: seq<Message>, r: Receiving, events: seq<Event>, n: nat)
    requires Gapless(merged, r, events, n) && n < |merged|
    ensures Gapless(merged, r, events + [Incoming(merged[n])], n + 1)
  {
    var e := Incoming(merged[n]);
    ArrivedSnoc(events, e);
    LosslessSnoc(events, e);
    assert merged[r.epoch.first..n + 1] == merged[r.epoch.first..n] + [merged[n]];
  }

  lemma GaplessOther(merged: seq<Message>, r: Receiving, events: seq<Event>, e: Event, n: nat, next: nat)
    requires Gapless(merged, r, events, n) && !e.Incoming? && r.epoch.first <= next <= |merged|
    requires e.Taken? ==> next == n
    ensures Gapless(merged, r, events + [e], next)
  {
    ArrivedSnoc(events, e);
    LosslessSnoc(events, e);
  }

  lemma LosslessSnoc(events: seq<Event>, e: Event)
    ensures Lossless(events + [e]) <==> Lossless(events) && (e.Incoming? || e.Taken?)
  {
    assert forall x :: x in events + [e] <==> x in events || x == e;
  }

  /** What is sent joins the plan. */
  lemma PlanGrows(r: Receiving, next: Receiving, o: Option<seq<u8>>)
    requires r.decoding.consumed <= |r.decoding.out| && next.events == r.events
    requires next.decoding.out == r.decoding.out + [o] && next.decoding.consumed == r.decoding.consumed
    ensures Plan(next) == Plan(r) + [EventOf(o)]
  {
    var k := r.decoding.consumed;
    assert next.decoding.out[k..] == r.decoding.out[k..] + [o];
    assert Pending(next.decoding.out[k..]) == Pending(r.decoding.out[k..]) + [EventOf(o)];
  }

  /** The plan after one more event, and the number that then comes next. */
  lemma PlanFollowed(
    sys: System, merged: seq<Message>, r: Receiving, plan: seq<Event>, e: Event, n: nat, next: nat)
    requires Sensible(sys) && Merged(sys, merged) && Followed(sys, merged, plan, n) && Gapless(merged, r, plan, n)
    requires n <= next <= |merged|
    requires if e.Incoming? then next == n + 1 && e.m == merged[n] else e.Lost?
    ensures Followed(sys, merged, plan + [e], next) && Gapless(merged, r, plan + [e], next)
  {
    if e.Incoming? {
      FollowedNext(sys, merged, plan, n);
      GaplessNext(merged, r, plan, n);
    } else {
      FollowedLoss(sys, merged, plan, n, next);
      GaplessOther(merged, r, plan, e, n, next);
    }
  }

  lemma SentDispatched(sys: System, merged: seq<Message>, r: Receiving, next: Receiving, o: Option<seq<u8>>)
    requires Sensible(sys) && Merged(sys, merged) && Received(sys, merged, next) && Dispatched(sys, merged, r)
    requires next == r.(decoding := next.decoding, own := next.own)
    requires next.decoding.out == r.decoding.out + [o] && next.decoding.consumed == r.decoding.consumed
    requires next.own == r.own + [o] || (next.own == r.own && o.None?)
    requires sys.decoders == 1 && o.Some? ==> r.mark <= |r.decoding.out|
    ensures Dispatched(sys, merged, next)
  {
    NextIsSent(sys, merged, r, next, o);
    PlanGrows(r, next, o);
    PlanFollowed(sys, merged, r, Plan(r), EventOf(o), NextNumber(sys, r), NextNumber(sys, next));
  }

  /** Before any reset, every result is one of the current epoch. */
  lemma OwnIsOut<J, O>(c: T.Config<J, O>, s: T.State<J, O>, own: seq<Option<O>>, step: T.Step<J>)
    requires DecoderStep(step) && T.Enabled(c, s, step)
    ensures own == s.out ==> OwnAfter(c, s, 0, own, step) == T.Apply(c, s, step).out
  {}

  lemma DecodedHanded(sys: System, r: Receiving, step: T.Step<seq<Packet>>)
    requires DecoderStep(step) && T.Enabled(Decoding(sys, r.epoch.first), r.decoding, step)
    requires Handed(sys, r) && StaleWaits(r.decoding, r.mark, step)
    ensures Handed(sys, Decoded(sys, r, step))
  {
    var c := Decoding(sys, r.epoch.first);
    OwnIsOut(c, r.decoding, r.own, step);
    ViewReachable(c, c, r.decoding, r.mark, r.own, step);
    if sys.decoders == 1 {
      SoloStep(c, r.decoding, step);
    }
    if r.restarts == 0 {
      Runs.ReachStep(c, r.decoding, step);
    }
  }

  /** The output of a step: nothing, a loss, or a result of the current epoch. */
  lemma DecodedOutput(sys: System, r: Receiving, step: T.Step<seq<Packet>>)
    requires DecoderStep(step) && T.Enabled(Decoding(sys, r.epoch.first), r.decoding, step) && Handed(sys, r)
    ensures var next := Decoded(sys, r, step);
            || (next.decoding.out == r.decoding.out && next.own == r.own)
            || (|next.decoding.out| == |r.decoding.out| + 1
                && var o := next.decoding.out[|r.decoding.out|];
                   && next.decoding.out == r.decoding.out + [o]
                   && (next.own == r.own + [o] || (next.own == r.own && o.None?))
                   && (sys.decoders == 1 && o.Some? ==> r.mark <= |r.decoding.out|))
  {}

  lemma DecodedReceived(sys: System, merged: seq<Message>, r: Receiving, step: T.Step<seq<Packet>>, next: Receiving)
    requires DecoderStep(step) && T.Enabled(Decoding(sys, r.epoch.first), r.decoding, step)
    requires Merged(sys, merged) && Received(sys, merged, r) && StaleWaits(r.decoding, r.mark, step)
    requires next == Decoded(sys, r, step) && FewFailures(sys, next)
    ensures Received(sys, merged, next)
  {
    DecodedHanded(sys, r, step);
    assert next.decoding.input == r.decoding.input;
  }

  lemma DecodedDispatched(
    sys: System, merged: seq<Message>, r: Receiving, step: T.Step<seq<Packet>>, next: Receiving)
    requires DecoderStep(step) && T.Enabled(Decoding(sys, r.epoch.first), r.decoding, step) && Sensible(sys)
    requires Merged(sys, merged) && Received(sys, merged, next) && Handed(sys, r) && Dispatched(sys, merged, r)
    requires next == Decoded(sys, r, step)
    ensures Dispatched(sys, merged, next)
  {
    DecodedOutput(sys, r, step);
    if next.decoding.out == r.decoding.out {
      assert Plan(next) == Plan(r) && NextNumber(sys, next) == NextNumber(sys, r);
    } else {
      SentDispatched(sys, merged, r, next, next.decoding.out[|r.decoding.out|]);
    }
  }

  lemma DecodeKeepsInv(sys: System, s: State, step: Step)
    requires Inv(sys, s) && Enabled(sys, s, step) && step.Decode? && Tame(sys, s, step)
    ensures Inv(sys, Apply(sys, s, step))
  {
    var r := s.receiving.value;
    var next := Decoded(sys, r, step.decoderStep);
    DecodedReceived(sys, s.merged, r, step.decoderStep, next);
    DecodedDispatched(sys, s.merged, r, step.decoderStep, next);
  }

  /** The dispatcher takes what was planned. */
  lemma PlanTaken(r: Receiving)
    requires r.decoding.consumed < |r.decoding.out|
    ensures Plan(TakeNext(r, EventOf(r.decoding.out[r.decoding.consumed]))) == Plan(r)
  {
    var out, k := r.decoding.out, r.decoding.consumed;
    assert out[k..] == [out[k]] + out[k + 1..];
    assert Pending(out[k..]) == [EventOf(out[k])] + Pending(out[k + 1..]);
  }

  lemma ConsumeHanded(sys: System, r: Receiving, next: Receiving)
    requires Handed(sys, r) && r.decoding.consumed < |r.decoding.out|
    requires next == r.(decoding := next.decoding, events := next.events)
    requires next.decoding == r.decoding.(consumed := r.decoding.consumed + 1)
    ensures Handed(sys, next)
  {
    var c := Decoding(sys, r.epoch.first);
    if sys.decoders == 1 {
      SoloStep(c, r.decoding, T.Consume);
    }
    if r.restarts == 0 {
      Runs.ReachStep(c, r.decoding, T.Consume);
    }
  }

  lemma TakenInv(sys: System, merged: seq<Message>, r: Receiving, next: Receiving)
    requires Merged(sys, merged) && ReceivingInv(sys, merged, r) && r.decoding.consumed < |r.decoding.out|
    requires next == TakeNext(r, EventOf(r.decoding.out[r.decoding.consumed]))
    ensures ReceivingInv(sys, merged, next)
  {
    PlanTaken(r);
    ConsumeHanded(sys, r, next);
    assert NextNumber(sys, next) == NextNumber(sys, r);
  }

  lemma DispatchKeepsInv(sys: System, s: State, step: Step)
    requires Inv(sys, s) && Enabled(sys, s, step) && step.DispatchNext?
    ensures Inv(sys, Apply(sys, s, step))
  {
    var r := s.receiving.value;
    TakenInv(sys, s.merged, r, TakeNext(r, EventOf(r.decoding.out[r.decoding.consumed])));
  }

  lemma ArrivedSnoc(events: seq<Event>, e: Event)
    ensures Arrived(events + [e]) == Arrived(events) + match e case Incoming(m) => [m] case _ => []
  {
    assert (events + [e])[..|events|] == events;
  }

  lemma {:induction false} ArrivedAppend(a: seq<Event>, b: seq<Event>)
    ensures Arrived(a + b) == Arrived(a) + Arrived(b)
  {
    if b == [] {
      assert a + b == a;
    } else {
      var init, last := b[..|b| - 1], b[|b| - 1];
      ArrivedAppend(a, init);
      assert a + b == a + init + [last];
      ArrivedSnoc(a + init, last);
    }
  }

  lemma FollowedBehind(sys: System, merged: seq<Message>, before: seq<Event>, e: Event, after: seq<Event>, n: nat)
    requires Merged(sys, merged) && Followed(sys, merged, before + after, n) && (e.Gone? || e.Taken?)
    ensures Followed(sys, merged, before + [e] + after, n)
  {
    WorkerBehind(before, e, after);
    forall c | c in sys.clients
      ensures Tracks(Trace(before + [e] + after), c, sys.clients[c].stream, Of(merged[..n], c))
    {
      OfPrefix(merged, n, c);
      TracksBehind(
        Trace(before + [e] + after), Trace(before + after), c, sys.clients[c].stream, Of(merged[..n], c));
    }
  }

  lemma GaplessBehind(merged: seq<Message>, r: Receiving, before: seq<Event>, e: Event, after: seq<Event>, n: nat)
    requires Gapless(merged, r, before + after, n) && (e.Gone? || e.Taken?)
    ensures Gapless(merged, r, before + [e] + after, n)
  {
    ArrivedAppend(before + [e], after);
    ArrivedSnoc(before, e);
    ArrivedAppend(before, after);
    assert forall x :: x in before + after ==> x in before + [e] + after;
  }

  lemma WorkerDispatched(sys: System, merged: seq<Message>, r: Receiving, next: Receiving, e: Event)
    requires Merged(sys, merged) && Dispatched(sys, merged, r) && (e.Gone? || e.Taken?)
    requires next == r.(events := r.events + [e])
    ensures Dispatched(sys, merged, next)
  {
    var after := Pending(r.decoding.out[r.decoding.consumed..]);
    var n := NextNumber(sys, r);
    assert NextNumber(sys, next) == n && Plan(next) == r.events + [e] + after;
    FollowedBehind(sys, merged, r.events, e, after, n);
    GaplessBehind(merged, r, r.events, e, after, n);
  }

  lemma ClientWorkerKeepsInv(sys: System, s: State, step: Step)
    requires Inv(sys, s) && Enabled(sys, s, step) && step.ClientWorker?
    ensures Inv(sys, Apply(sys, s, step))
  {
    var r := s.receiving.value;
    WorkerDispatched(sys, s.merged, r, r.(events := r.events + [step.e]), step.e);
  }

  lemma StepKeepsInv(sys: System, s: State, step: Step)
    requires Inv(sys, s) && Enabled(sys, s, step) && Tame(sys, s, step)
    ensures Inv(sys, Apply(sys, s, step))
  {
    match step
    case ClientSends(_) => ClientSendsKeepsInv(sys, s, step);
    case Encode(_) => EncodeKeepsInv(sys, s, step);
    case Deliver(_) => DeliverKeepsInv(sys, s, step);
    case Restart(_) => RestartKeepsInv(sys, s, step);
    case Decode(_) => DecodeKeepsInv(sys, s, step);
    case DispatchNext => DispatchKeepsInv(sys, s, step);
    case ClientWorker(_) => ClientWorkerKeepsInv(sys, s, step);
  }
}
