/**
 * How to exhibit runs of the whole diode, of systems that the programs can build: an MTU of 40 and blocks of
 * 16 bytes, that is, two source symbols of 8 bytes a block, no repair packets, and a threshold of two.
 */
module Witnesses {
  import opened Bytes
  import opened Protocol
  import opened Reblock
  import opened Epoch
  import opened TurnstileResets
  import opened Sender
  import opened Dispatch
  import opened Demultiplex
  import opened ReceiveClient
  import opened Pipeline
  import opened EndToEnd
  import opened LosslessLink

  // ---------------------------------------------------------------------------------------------
  // Systems
  // ---------------------------------------------------------------------------------------------

  const CLIENT: ClientId := 7
  const SYMBOL := 8
  const LENGTH: u32 := 16

  function Front8(data: seq<u8>): seq<u8> {
    if |data| <= SYMBOL then data else data[..SYMBOL]
  }

  function Back8(data: seq<u8>): seq<u8> {
    if |data| <= SYMBOL then [] else data[SYMBOL..]
  }

  /** The first packet with this symbol. */
  function Find(ps: seq<Packet>, symbol: nat): Option<seq<u8>> {
    if ps == [] then None else if ps[0].symbol == symbol then Some(ps[0].data) else Find(ps[1..], symbol)
  }

  function Halves(id: u8, data: seq<u8>): set<Packet> {
    {Packet(id, 0, Front8(data)), Packet(id, 1, Back8(data))}
  }

  function Joined(id: u8, ps: seq<Packet>): Option<seq<u8>> {
    match (Find(ps, 0), Find(ps, 1))
    case (Some(a), Some(b)) => Some(a + b)
    case _ => None
  }

  /** The two source symbols of a block, without repair packets: both are needed, and enough. */
  function Plain(): Codec {
    Codec((id: u8, data: seq<u8>) => Halves(id, data), (id: u8, ps: seq<Packet>) => Joined(id, ps))
  }

  lemma {:induction false} Found(ps: seq<Packet>, id: u8, data: seq<u8>, symbol: nat)
    requires forall p :: p in ps ==> p in Halves(id, data)
    requires symbol <= 1
    ensures Find(ps, symbol).Some? <==> exists p :: p in ps && p.symbol == symbol
    ensures Find(ps, symbol).Some? ==> Find(ps, symbol).value == if symbol == 0 then Front8(data) else Back8(data)
  {
    if ps == [] {
    } else {
      assert ps[0] in ps;
      assert forall p :: p in ps <==> p == ps[0] || p in ps[1..];
      Found(ps[1..], id, data, symbol);
    }
  }

  lemma PlainIsSound(transferLength: nat)
    ensures Sound(Plain(), transferLength)
  {
    forall id: u8, data: seq<u8>, ps: seq<Packet> |
      |data| == transferLength && From(Plain(), id, data, ps) && Plain().decode(id, ps).Some?
      ensures Plain().decode(id, ps).value == data
    {
      Found(ps, id, data, 0);
      Found(ps, id, data, 1);
      assert Front8(data) + Back8(data) == data;
    }
  }

  lemma TwoDecode(id: u8, data: seq<u8>, ps: seq<Packet>)
    requires From(Plain(), id, data, ps) && Distinct(ps) && |ps| >= 2
    ensures Joined(id, ps).Some?
  {
    Found(ps, id, data, 0);
    Found(ps, id, data, 1);
    assert ps[0] in ps && ps[1] in ps && ps[0] != ps[1];
  }

  /** A start block, `n` data blocks of one byte each, and an end block. */
  function Stream(n: nat): (stream: seq<Message>)
    ensures |stream| == n + 2
    ensures forall i :: 0 <= i < n + 2 ==>
              stream[i] == if i == 0 then Message(Start, CLIENT, [])
                           else if i <= n then Message(Data, CLIENT, [0]) else Message(End, CLIENT, [])
  {
    [Message(Start, CLIENT, [])] + seq(n, i => Message(Data, CLIENT, [0])) + [Message(End, CLIENT, [])]
  }

  /** `h` heartbeats and the client's stream. */
  function Script(h: nat, n: nat): (script: seq<Message>)
    ensures |script| == h + n + 2
    ensures forall k :: 0 <= k < |script| ==>
              script[k] == if k < h then Message(Heartbeat, 0, []) else Stream(n)[k - h]
  {
    seq(h, i => Message(Heartbeat, 0, [])) + Stream(n)
  }

  function TheSystem(n: nat, decoders: nat): System {
    System(Plain(), LENGTH, 2, 1, decoders, map[CLIENT := Client(Stream(n), Zeros(n), true)])
  }

  lemma {:induction false} StreamPayloads(n: nat, k: nat)
    requires 1 <= k <= n + 1
    ensures Payloads(Stream(n)[..k]) == Zeros(k - 1)
  {
    var stream := Stream(n);
    if k == 1 {
      assert stream[..1] == [] + [stream[0]];
      PayloadsSnoc([], stream[0]);
    } else {
      StreamPayloads(n, k - 1);
      assert stream[..k] == stream[..k - 1] + [stream[k - 1]];
      PayloadsSnoc(stream[..k - 1], stream[k - 1]);
    }
  }

  lemma StreamIsStream(n: nat)
    ensures IsStream(CLIENT, Stream(n), Zeros(n), true)
  {
    var stream := Stream(n);
    StreamPayloads(n, n + 1);
    assert stream == stream[..n + 1] + [stream[n + 1]];
    PayloadsSnoc(stream[..n + 1], stream[n + 1]);
  }

  lemma {:induction false} OfHeartbeats(h: nat, n: nat, k: nat)
    requires k <= h
    ensures Of(Script(h, n)[..k], CLIENT) == []
  {
    if k == 0 {
    } else {
      OfHeartbeats(h, n, k - 1);
      assert Script(h, n)[..k] == Script(h, n)[..k - 1] + [Script(h, n)[k - 1]];
      OfSnoc(Script(h, n)[..k - 1], Script(h, n)[k - 1], CLIENT);
    }
  }

  lemma {:induction false} OfOwn(messages: seq<Message>)
    requires forall i :: 0 <= i < |messages| ==> messages[i].client == CLIENT && Routable(messages[i])
    ensures Of(messages, CLIENT) == messages
  {
    if messages == [] {
    } else {
      OfOwn(messages[..|messages| - 1]);
    }
  }

  lemma OfScript(h: nat, n: nat)
    ensures Of(Script(h, n), CLIENT) == Stream(n)
  {
    OfHeartbeats(h, n, h);
    OfOwn(Stream(n));
    assert Script(h, n) == Script(h, n)[..h] + Stream(n);
    OfAppend(Script(h, n)[..h], Stream(n), CLIENT);
  }

  /** A sensible system in which the client sends this stream, and blocks that fit. */
  ghost predicate Has(sys: System, script: seq<Message>) {
    && Sensible(sys) && CLIENT in sys.clients && Of(script, CLIENT) == sys.clients[CLIENT].stream
    && forall k :: 0 <= k < |script| ==>
         && Fits(script[k], sys.transferLength)
         && (if Routable(script[k]) then script[k].client == CLIENT else script[k] == Message(Heartbeat, 0, []))
  }

  /** The systems of which runs are exhibited. */
  ghost predicate Shown(sys: System, script: seq<Message>) {
    Has(sys, script) && sys.codec == Plain() && sys.threshold == 2
  }

  lemma TheSystemIsShown(h: nat, n: nat, decoders: nat)
    requires 1 <= decoders <= 255
    ensures Shown(TheSystem(n, decoders), Script(h, n))
  {
    PlainIsSound(LENGTH);
    StreamIsStream(n);
    OfScript(h, n);
  }

  /** It is one that the programs build, with a codec that decodes from any two different packets of a block. */
  ghost predicate Real(sys: System) {
    Efficient(sys, 2) && Configured(sys, 2, 40, 16, 0, 0)
  }

  lemma TheSystemIsReal(n: nat, decoders: nat)
    ensures Real(TheSystem(n, decoders))
  {
    var sys := TheSystem(n, decoders);
    forall id: u8, data: seq<u8> | |data| == sys.transferLength
      ensures |sys.codec.encode(id, data)| == 2
    {
      assert Packet(id, 0, Front8(data)) != Packet(id, 1, Back8(data));
    }
    forall id: u8, data: seq<u8>, ps: seq<Packet> |
      |data| == sys.transferLength && From(sys.codec, id, data, ps) && Distinct(ps) && |ps| >= sys.threshold
      ensures sys.codec.decode(id, ps).Some?
    {
      TwoDecode(id, data, ps);
    }
    assert MaxPacketSize(40) == 8;
    assert RepairCount(16, 0, 8) == 0;
  }

  // ---------------------------------------------------------------------------------------------
  // Runs
  // ---------------------------------------------------------------------------------------------

  /** The one condition that a run is allowed to break. */
  datatype Blame = TooManyFailures | CutByReset | StaleTurn

  /** All other conditions of a tame step. */
  ghost predicate TameBut(sys: System, s: State, step: Step, blame: Blame)
    requires Sensible(sys) && Enabled(sys, s, step)
  {
    && (step.Restart? && !blame.CutByReset? ==> Harmless(sys, s, step.batch))
    && (step.Decode? && !blame.StaleTurn? ==>
          StaleWaits(s.receiving.value.decoding, s.receiving.value.mark, step.decoderStep))
    && (!blame.TooManyFailures? ==>
          var s' := Apply(sys, s, step); s'.receiving.Some? ==> FewFailures(sys, s'.receiving.value))
  }

  ghost predicate AllTameBut(sys: System, s: State, steps: seq<Step>, blame: Blame)
    requires Sensible(sys) && Legal(sys, s, steps)
    decreases |steps|
  {
    steps == [] || (TameBut(sys, s, steps[0], blame) && AllTameBut(sys, Apply(sys, s, steps[0]), steps[1..], blame))
  }

  predicate NeverReset(s: State) {
    s.receiving.Some? ==> s.receiving.value.restarts == 0
  }

  /** Some run leads to this state, tame but for one condition, in which these packets arrive. */
  ghost predicate Reached(sys: System, s: State, blame: Blame, arrived: seq<Arrival>)
    requires Sensible(sys)
  {
    exists steps ::
      && Legal(sys, Init(sys), steps) && Exec(sys, Init(sys), steps) == s
      && AllTameBut(sys, Init(sys), steps, blame) && Arrivals(steps) == arrived
      && (NeverReset(s) ==> AllOnTime(sys, Init(sys), steps))
  }

  lemma {:induction false} ExecSnoc(sys: System, s: State, steps: seq<Step>, step: Step, blame: Blame)
    requires Sensible(sys) && Legal(sys, s, steps) && Enabled(sys, Exec(sys, s, steps), step)
    ensures Legal(sys, s, steps + [step])
    ensures Exec(sys, s, steps + [step]) == Apply(sys, Exec(sys, s, steps), step)
    ensures AllTameBut(sys, s, steps, blame) && TameBut(sys, Exec(sys, s, steps), step, blame)
            ==> AllTameBut(sys, s, steps + [step], blame)
    ensures AllOnTime(sys, s, steps) && OnTime(sys, Exec(sys, s, steps), step) ==> AllOnTime(sys, s, steps + [step])
    decreases |steps|
  {
    if steps == [] {
      assert [step][1..] == [];
    } else {
      ExecSnoc(sys, Apply(sys, s, steps[0]), steps[1..], step, blame);
      assert (steps + [step])[1..] == steps[1..] + [step];
    }
  }

  lemma {:induction false} ArrivalsSnoc(steps: seq<Step>, step: Step)
    ensures Arrivals(steps + [step]) == Arrivals(steps) + Arriving(step)
  {
    if steps == [] {
      assert [step][1..] == [];
    } else {
      ArrivalsSnoc(steps[1..], step);
      assert (steps + [step])[1..] == steps[1..] + [step];
      Associates(Arriving(steps[0]), Arrivals(steps[1..]), Arriving(step));
    }
  }

  lemma Associates<A>(a: seq<A>, b: seq<A>, c: seq<A>)
    ensures a + (b + c) == (a + b) + c
  {}

  /** One more step of such a run. */
  lemma OneMore(sys: System, steps: seq<Step>, step: Step, blame: Blame)
    requires Sensible(sys) && Legal(sys, Init(sys), steps) && Enabled(sys, Exec(sys, Init(sys), steps), step)
    requires AllTameBut(sys, Init(sys), steps, blame) && TameBut(sys, Exec(sys, Init(sys), steps), step, blame)
    requires NeverReset(Exec(sys, Init(sys), steps)) ==> AllOnTime(sys, Init(sys), steps)
    requires OnTime(sys, Exec(sys, Init(sys), steps), step) || step.Restart?
    ensures Reached(sys, Apply(sys, Exec(sys, Init(sys), steps), step), blame, Arrivals(steps) + Arriving(step))
  {
    ExecSnoc(sys, Init(sys), steps, step, blame);
    ArrivalsSnoc(steps, step);
  }

  lemma Next(sys: System, s: State, step: Step, blame: Blame, arrived: seq<Arrival>)
    requires Sensible(sys) && Reached(sys, s, blame, arrived) && Enabled(sys, s, step)
    requires TameBut(sys, s, step, blame) && (OnTime(sys, s, step) || step.Restart?)
    ensures Reached(sys, Apply(sys, s, step), blame, arrived + Arriving(step))
  {
    var steps :|
      && Legal(sys, Init(sys), steps) && Exec(sys, Init(sys), steps) == s
      && AllTameBut(sys, Init(sys), steps, blame) && Arrivals(steps) == arrived
      && (NeverReset(s) ==> AllOnTime(sys, Init(sys), steps));
    OneMore(sys, steps, step, blame);
  }

  lemma InitReached(sys: System, blame: Blame)
    requires Sensible(sys)
    ensures Reached(sys, Init(sys), blame, [])
  {
    assert Legal(sys, Init(sys), []) && Exec(sys, Init(sys), []) == Init(sys) && Arrivals([]) == [];
  }

  // ---------------------------------------------------------------------------------------------
  // Everything is sent
  // ---------------------------------------------------------------------------------------------

  /** What the encoders do by themselves. */
  lemma {:induction false} EncodersRun(sys: System, s: State, more: seq<T.Step<seq<u8>>>, blame: Blame)
    requires Sensible(sys) && Reached(sys, s, blame, []) && s.receiving.None?
    requires T.Legal(Encoding(sys), s.encoding, more) && Runs.AllInternal(more)
    ensures Reached(sys, s.(encoding := T.Exec(Encoding(sys), s.encoding, more)), blame, [])
    decreases |more|
  {
    if more == [] {
      assert s.(encoding := s.encoding) == s;
    } else {
      Next(sys, s, Encode(more[0]), blame, []);
      assert [] + Arriving(Encode(more[0])) == [];
      EncodersRun(sys, s.(encoding := T.Apply(Encoding(sys), s.encoding, more[0])), more[1..], blame);
    }
  }

  ghost function BytesAt(sys: System, script: seq<Message>, k: nat): seq<u8>
    requires Has(sys, script) && k < |script|
  {
    BlockBytes(script[k], sys.transferLength)
  }

  ghost function Submitted(sys: System, script: seq<Message>, k: nat): (items: seq<T.Item<seq<u8>>>)
    requires Has(sys, script) && k <= |script|
    ensures |items| == k
  {
    seq(k, i requires 0 <= i < k => T.Item(Id(i), BytesAt(sys, script, i)))
  }

  ghost function AllSubmitted(sys: System, script: seq<Message>, k: nat): State
    requires Has(sys, script) && k <= |script|
  {
    State(script[..k], T.Init(Encoding(sys)).(input := Submitted(sys, script, k)), None)
  }

  lemma MaySendNext(sys: System, script: seq<Message>, k: nat)
    requires Has(sys, script) && k < |script|
    ensures MaySend(sys, script[..k], script[k])
    ensures script[..k + 1] == script[..k] + [script[k]]
  {
    assert script[..k + 1] == script[..k] + [script[k]];
    OfSnoc(script[..k], script[k], CLIENT);
    OfPrefix(script, k + 1, CLIENT);
  }

  lemma SubmitOne(sys: System, script: seq<Message>, k: nat)
    requires Has(sys, script) && k < |script|
    ensures Enabled(sys, AllSubmitted(sys, script, k), ClientSends(script[k]))
    ensures Apply(sys, AllSubmitted(sys, script, k), ClientSends(script[k])) == AllSubmitted(sys, script, k + 1)
    ensures T.Apply(Encoding(sys), AllSubmitted(sys, script, k).encoding,
                    T.Submit(T.Item(Id(k), BytesAt(sys, script, k))))
         == AllSubmitted(sys, script, k + 1).encoding
  {
    MaySendNext(sys, script, k);
    assert Submitted(sys, script, k + 1) == Submitted(sys, script, k) + [T.Item(Id(k), BytesAt(sys, script, k))];
  }

  /** The first `k` blocks can be submitted. */
  ghost predicate CanSubmit(sys: System, script: seq<Message>, k: nat, blame: Blame)
    requires Has(sys, script) && k <= |script|
  {
    && Reached(sys, AllSubmitted(sys, script, k), blame, [])
    && Runs.Reachable(Encoding(sys), AllSubmitted(sys, script, k).encoding)
  }

  lemma SubmitNext(sys: System, script: seq<Message>, k: nat, blame: Blame)
    requires Has(sys, script) && k < |script| && CanSubmit(sys, script, k, blame)
    ensures CanSubmit(sys, script, k + 1, blame)
  {
    SubmitOne(sys, script, k);
    Next(sys, AllSubmitted(sys, script, k), ClientSends(script[k]), blame, []);
    assert [] + Arriving(ClientSends(script[k])) == [];
    Runs.ReachStep(
      Encoding(sys), AllSubmitted(sys, script, k).encoding, T.Submit(T.Item(Id(k), BytesAt(sys, script, k))));
  }

  lemma SubmitAll(sys: System, script: seq<Message>, blame: Blame)
    requires Has(sys, script)
    ensures CanSubmit(sys, script, |script|, blame)
  {
    InitReached(sys, blame);
    Runs.ReachInit(Encoding(sys));
    assert AllSubmitted(sys, script, 0) == Init(sys);
    for k := 0 to |script|
      invariant CanSubmit(sys, script, k, blame)
    {
      SubmitNext(sys, script, k, blame);
    }
  }

  /** All blocks are on the link. */
  ghost predicate AllOnLink(sys: System, script: seq<Message>, s: State)
    requires Has(sys, script)
  {
    && s.merged == script
    && s.encoding.consumed == |s.encoding.out| == |script|
    && forall k :: 0 <= k < |script| ==>
         s.encoding.out[k] == Some(sys.codec.encode(Id(k), BytesAt(sys, script, k)))
  }

  lemma SendAll(sys: System, script: seq<Message>, blame: Blame) returns (s: State)
    requires Has(sys, script)
    ensures Reached(sys, s, blame, []) && AllOnLink(sys, script, s) && s.receiving.None?
  {
    SubmitAll(sys, script, blame);
    var s0 := AllSubmitted(sys, script, |script|);
    assert script[..|script|] == script;
    var more := Runs.DrainExists(Encoding(sys), s0.encoding);
    EncodersRun(sys, s0, more, blame);
    s := s0.(encoding := T.Exec(Encoding(sys), s0.encoding, more));
    InternalKeepsInput(Encoding(sys), s0.encoding, more);
  }

  lemma {:induction false} InternalKeepsInput<J(!new), O>(c: T.Config<J, O>, s: T.State<J, O>, more: seq<T.Step<J>>)
    requires T.Legal(c, s, more) && Runs.AllInternal(more)
    ensures T.Exec(c, s, more).input == s.input
    decreases |more|
  {
    if more == [] {
    } else {
      assert Runs.Internal(more[0]);
      InternalKeepsInput(c, T.Apply(c, s, more[0]), more[1..]);
    }
  }

  // ---------------------------------------------------------------------------------------------
  // Packets arrive one block at a time
  // ---------------------------------------------------------------------------------------------

  /** The window is empty and stands at block `n`. */
  predicate Expecting(r: Receiving, n: nat) {
    r.window == FreshWindow(Id(n)) && r.epoch.slots == EmptySlots(WINDOW_WIDTH) && Cur(r.epoch) == n
  }

  function BatchOf(n: nat, ps: seq<Packet>): (batch: seq<Arrival>)
    ensures |batch| == |ps|
  {
    seq(|ps|, i requires 0 <= i < |ps| => Arrival(n, ps[i]))
  }

  /** The packets `ps` of block `n` have arrived and the block has been emitted. */
  function WithBlock(r: Receiving, n: nat, ps: seq<Packet>): Receiving {
    r.(window := FreshWindow(Id(n + 1)),
       decoding := r.decoding.(input := r.decoding.input + [T.Item(Id(n), ps)]),
       epoch := Epoch(r.epoch.first, r.epoch.emitted + [ps], EmptySlots(WINDOW_WIDTH)),
       kept := r.kept + BatchOf(n, ps))
  }

  lemma BatchSnoc(n: nat, ps: seq<Packet>)
    requires ps != []
    ensures BatchOf(n, ps) == BatchOf(n, ps[..|ps| - 1]) + [Arrival(n, ps[|ps| - 1])]
  {}

  lemma {:induction false} AllOfBlock(n: nat, ps: seq<Packet>, m: nat)
    ensures OfBlock(BatchOf(n, ps), m) == if m == n then ps else []
  {
    if ps == [] {
    } else {
      var init, last := ps[..|ps| - 1], ps[|ps| - 1];
      AllOfBlock(n, init, m);
      BatchSnoc(n, ps);
      OfBlockSnoc(BatchOf(n, init), Arrival(n, last), m);
      assert ps == init + [last];
    }
  }

  lemma {:induction false} AllKeptOf(e: Epoch, n: nat, ps: seq<Packet>)
    requires InWindow(n, Cur(e))
    ensures Kept(e, BatchOf(n, ps)) == BatchOf(n, ps)
  {
    if ps == [] {
    } else {
      var init := ps[..|ps| - 1];
      AllKeptOf(e, n, init);
      BatchSnoc(n, ps);
      assert BatchOf(n, ps)[..|ps| - 1] == BatchOf(n, init);
    }
  }

  lemma {:induction false} AllWithOne(ps: seq<Packet>, cur: u8, id: u8)
    requires forall p :: p in ps ==> p.id == cur
    ensures WithId(ps, id) == if id == cur then ps else []
  {
    if ps == [] {
    } else {
      var k := |ps| - 1;
      assert ps[k] in ps;
      AllWithOne(ps[..k], cur, id);
      assert ps == ps[..k] + [ps[k]];
    }
  }

  lemma FillOne(cur: u8, ps: seq<Packet>)
    requires forall p :: p in ps ==> p.id == cur
    ensures Fill(FreshWindow(cur), ps) == Window(cur, EmptySlots(WINDOW_WIDTH)[0 := ps])
  {
    forall i | 0 <= i < WINDOW_WIDTH
      ensures Fill(FreshWindow(cur), ps).slots[i] == if i == 0 then ps else []
    {
      assert WrappingAdd(cur, i) == cur <==> i == 0;
      AllWithOne(ps, cur, WrappingAdd(cur, i));
    }
  }

  lemma FillOneByNumber(e: Epoch, ps: seq<Packet>)
    requires e.slots == EmptySlots(WINDOW_WIDTH)
    ensures FillByNumber(e, BatchOf(Cur(e), ps)) == EmptySlots(WINDOW_WIDTH)[0 := ps]
  {
    forall i | 0 <= i < WINDOW_WIDTH
      ensures FillByNumber(e, BatchOf(Cur(e), ps))[i] == if i == 0 then ps else []
    {
      AllOfBlock(Cur(e), ps, Cur(e) + i);
    }
  }

  lemma EmitOne(cur: u8, slots: seq<seq<Packet>>, ps: seq<Packet>, threshold: nat)
    requires slots == EmptySlots(WINDOW_WIDTH)[0 := ps] && |ps| >= threshold > 0
    ensures Ready(slots, threshold) == 1
    ensures Slide(Window(cur, slots), 1) == FreshWindow(WrappingAdd(cur, 1))
    ensures Emitted(Window(cur, slots), 1) == [Block(cur, ps)]
    ensures slots[..1] == [ps] && slots[1..] + EmptySlots(1) == EmptySlots(WINDOW_WIDTH)
  {
    ReadyUnique(slots, threshold, 1);
    assert slots[1..] + EmptySlots(1) == EmptySlots(WINDOW_WIDTH);
  }

  lemma AbsorbOne(e: Epoch, ps: seq<Packet>, threshold: nat)
    requires e.slots == EmptySlots(WINDOW_WIDTH) && |ps| >= threshold > 0
    ensures Absorb(e, BatchOf(Cur(e), ps), threshold)
         == Epoch(e.first, e.emitted + [ps], EmptySlots(WINDOW_WIDTH))
    ensures Kept(e, BatchOf(Cur(e), ps)) == BatchOf(Cur(e), ps)
  {
    FillOneByNumber(e, ps);
    EmitOne(0, EmptySlots(WINDOW_WIDTH)[0 := ps], ps, threshold);
    AllKeptOf(e, Cur(e), ps);
  }

  lemma SlideOne(cur: u8, n: nat, ps: seq<Packet>, threshold: nat)
    requires cur == Id(n) && (forall p :: p in ps ==> p.id == cur) && |ps| >= threshold > 0
    ensures var filled := Fill(FreshWindow(cur), Packets(BatchOf(n, ps)));
            && Ready(filled.slots, threshold) == 1
            && Slide(filled, 1) == FreshWindow(Id(n + 1))
            && Items(Emitted(filled, 1)) == [T.Item(cur, ps)]
  {
    var slots := EmptySlots(WINDOW_WIDTH)[0 := ps];
    assert Packets(BatchOf(n, ps)) == ps;
    FillOne(cur, ps);
    EmitOne(cur, slots, ps, threshold);
    RingArithmetic(cur, 1);
    assert Id(cur + 1) == Id(n + 1);
  }

  lemma ReblockOne(sys: System, r: Receiving, n: nat, ps: seq<Packet>)
    requires Expecting(r, n) && (forall p :: p in ps ==> p.id == Id(n)) && |ps| >= sys.threshold > 0
    ensures Reblocked(sys, r, BatchOf(n, ps)) == WithBlock(r, n, ps)
    ensures Expecting(WithBlock(r, n, ps), n + 1)
  {
    AbsorbOne(r.epoch, ps, sys.threshold);
    SlideOne(Id(n), n, ps, sys.threshold);
  }

  // ---------------------------------------------------------------------------------------------
  // What arrives of a block
  // ---------------------------------------------------------------------------------------------

  ghost function First(sys: System, script: seq<Message>, k: nat): Packet
    requires Has(sys, script) && k < |script|
  {
    Packet(Id(k), 0, Front8(BytesAt(sys, script, k)))
  }

  ghost function Second(sys: System, script: seq<Message>, k: nat): Packet
    requires Has(sys, script) && k < |script|
  {
    Packet(Id(k), 1, Back8(BytesAt(sys, script, k)))
  }

  /** Both packets of a block; or one of them twice, as the link may repeat it. */
  ghost function PacketsAt(sys: System, script: seq<Message>, k: nat, spoiled: bool): (ps: seq<Packet>)
    requires Has(sys, script) && k < |script|
    ensures |ps| == 2 && forall p :: p in ps ==> p.id == Id(k)
  {
    if spoiled then [First(sys, script, k), First(sys, script, k)]
    else [First(sys, script, k), Second(sys, script, k)]
  }

  lemma DecodesUnlessSpoiled(sys: System, script: seq<Message>, k: nat, spoiled: bool)
    requires Shown(sys, script) && k < |script|
    ensures sys.codec.decode(Id(k), PacketsAt(sys, script, k, spoiled))
         == if spoiled then None else Some(BytesAt(sys, script, k))
  {
    var ps, data := PacketsAt(sys, script, k, spoiled), BytesAt(sys, script, k);
    assert Find(ps, 0) == Some(ps[0].data);
    assert Find(ps, 1) == Find(ps[1..], 1);
    assert spoiled ==> Find(ps[1..], 1) == Find(ps[1..][1..], 1) == None;
    assert Front8(data) + Back8(data) == data;
  }

  ghost function BatchAt(sys: System, script: seq<Message>, k: nat, spoiled: bool): seq<Arrival>
    requires Has(sys, script) && k < |script|
  {
    BatchOf(k, PacketsAt(sys, script, k, spoiled))
  }

  lemma LinkHolds(sys: System, script: seq<Message>, s: State, k: nat, spoiled: bool)
    requires Shown(sys, script) && AllOnLink(sys, script, s) && k < |script|
    ensures forall a :: a in BatchAt(sys, script, k, spoiled) ==> OnLink(s, a) && a.number == k
  {
    assert s.encoding.out[k] == Some(Halves(Id(k), BytesAt(sys, script, k)));
  }

  lemma FreshFailures(sys: System, r: Receiving)
    requires Sensible(sys) && r.decoding.failed == {}
    ensures FewFailures(sys, r)
  {
    UnfailingIsFew(sys, r);
  }

  lemma ReceiveFirst(
    sys: System, script: seq<Message>, s: State, k: nat, spoiled: bool, blame: Blame, next: State)
    requires Shown(sys, script) && Reached(sys, s, blame, []) && AllOnLink(sys, script, s) && s.receiving.None?
    requires k < |script|
    requires next == s.(receiving := Some(WithBlock(
                          Opening(sys, BatchAt(sys, script, k, spoiled)[0]), k, PacketsAt(sys, script, k, spoiled))))
    ensures Reached(sys, next, blame, BatchAt(sys, script, k, spoiled))
  {
    var batch := BatchAt(sys, script, k, spoiled);
    LinkHolds(sys, script, s, k, spoiled);
    assert batch[0] in batch;
    ReblockOne(sys, Opening(sys, batch[0]), k, PacketsAt(sys, script, k, spoiled));
    FreshFailures(sys, next.receiving.value);
    Next(sys, s, Deliver(batch), blame, []);
    assert [] + batch == batch;
  }

  lemma ReceiveNext(
    sys: System, script: seq<Message>, s: State, k: nat, spoiled: bool, blame: Blame, arrived: seq<Arrival>,
    next: State)
    requires Shown(sys, script) && Reached(sys, s, blame, arrived) && AllOnLink(sys, script, s)
    requires s.receiving.Some? && k < |script| && Expecting(s.receiving.value, k)
    requires blame.TooManyFailures? || FewFailures(sys, s.receiving.value)
    requires next == s.(receiving := Some(WithBlock(s.receiving.value, k, PacketsAt(sys, script, k, spoiled))))
    ensures Reached(sys, next, blame, arrived + BatchAt(sys, script, k, spoiled))
  {
    var batch := BatchAt(sys, script, k, spoiled);
    LinkHolds(sys, script, s, k, spoiled);
    ReblockOne(sys, s.receiving.value, k, PacketsAt(sys, script, k, spoiled));
    Next(sys, s, Deliver(batch), blame, arrived);
  }

  lemma ReceiveAfterReset(
    sys: System, script: seq<Message>, s: State, k: nat, blame: Blame, arrived: seq<Arrival>, base: Receiving)
    requires Shown(sys, script) && Reached(sys, s, blame, arrived) && AllOnLink(sys, script, s)
    requires s.receiving.Some? && k < |script| && LockFree(s.receiving.value.decoding)
    requires blame.CutByReset? || Harmless(sys, s, BatchAt(sys, script, k, false))
    requires base == Reopened(s.receiving.value, BatchAt(sys, script, k, false)[0])
    ensures Reached(sys, s.(receiving := Some(WithBlock(base, k, PacketsAt(sys, script, k, false)))), blame, arrived)
  {
    var batch := BatchAt(sys, script, k, false);
    LinkHolds(sys, script, s, k, false);
    assert batch[0] in batch;
    ReblockOne(sys, base, k, PacketsAt(sys, script, k, false));
    FreshFailures(sys, WithBlock(base, k, PacketsAt(sys, script, k, false)));
    assert arrived + [] == arrived;
    Next(sys, s, Restart(batch), blame, arrived);
  }

  // ---------------------------------------------------------------------------------------------
  // What the decoders do by themselves
  // ---------------------------------------------------------------------------------------------

  /** No step of a run gives the turn to a stale job. */
  predicate AllWait<J, O>(c: T.Config<J, O>, s: T.State<J, O>, mark: nat, steps: seq<T.Step<J>>)
    requires T.Legal(c, s, steps)
    decreases |steps|
  {
    steps == [] || (StaleWaits(s, mark, steps[0]) && AllWait(c, T.Apply(c, s, steps[0]), mark, steps[1..]))
  }

  predicate DecoderSteps<J>(steps: seq<T.Step<J>>) {
    forall i :: 0 <= i < |steps| ==> DecoderStep(steps[i])
  }

  /** Some steps of the decoders lead on; unless `stale`, none of them gives the turn to a job below `mark`. */
  ghost predicate Leads<J(!new), O>(
    c: T.Config<J, O>, s: T.State<J, O>, s': T.State<J, O>, mark: nat, stale: bool)
  {
    exists steps: seq<T.Step<J>> ::
      && T.Legal(c, s, steps) && DecoderSteps(steps) && T.Exec(c, s, steps) == s'
      && (stale || AllWait(c, s, mark, steps))
  }

  lemma LeadsNowhere<J(!new), O>(c: T.Config<J, O>, s: T.State<J, O>, mark: nat, stale: bool)
    ensures Leads(c, s, s, mark, stale)
  {
    assert T.Legal(c, s, []) && DecoderSteps<J>([]) && T.Exec(c, s, []) == s && AllWait(c, s, mark, []);
  }

  lemma {:induction false} WaitSnoc<J(!new), O>(
    c: T.Config<J, O>, s: T.State<J, O>, mark: nat, steps: seq<T.Step<J>>, step: T.Step<J>)
    requires T.Legal(c, s, steps) && T.Enabled(c, T.Exec(c, s, steps), step)
    requires AllWait(c, s, mark, steps) && StaleWaits(T.Exec(c, s, steps), mark, step)
    ensures T.Legal(c, s, steps + [step]) && AllWait(c, s, mark, steps + [step])
    decreases |steps|
  {
    if steps == [] {
      assert [step][1..] == [];
    } else {
      WaitSnoc(c, T.Apply(c, s, steps[0]), mark, steps[1..], step);
      assert (steps + [step])[1..] == steps[1..] + [step];
    }
  }

  lemma LeadsOn<J(!new), O>(
    c: T.Config<J, O>, s: T.State<J, O>, s': T.State<J, O>, mark: nat, stale: bool, step: T.Step<J>)
    requires Leads(c, s, s', mark, stale) && T.Enabled(c, s', step) && DecoderStep(step)
    requires stale || StaleWaits(s', mark, step)
    ensures Leads(c, s, T.Apply(c, s', step), mark, stale)
  {
    var steps: seq<T.Step<J>> :|
      && T.Legal(c, s, steps) && DecoderSteps(steps) && T.Exec(c, s, steps) == s'
      && (stale || AllWait(c, s, mark, steps));
    Runs.ExecAppend(c, s, steps, step);
    if !stale {
      WaitSnoc(c, s, mark, steps, step);
    }
    assert DecoderSteps(steps + [step]);
  }

  /** A thread with a job whose turn it is works, and sends the result. */
  lemma WorksAndSends<J(!new), O>(
    c: T.Config<J, O>, s0: T.State<J, O>, s: T.State<J, O>, mark: nat, stale: bool, t: nat, k: nat, next: T.State<J, O>)
    requires Leads(c, s0, s, mark, stale) && c.outCapacity.None? && s.holder == None && t < |s.threads|
    requires s.threads[t] == T.Working(k) && k < |s.input| && T.ResultAt(c, s.input, k).Some?
    requires s.input[k].id == s.turn && (stale || k >= mark)
    requires next == s.(threads := s.threads[t := T.Sent(k)], holder := Some(t),
                        out := s.out + [T.ResultAt(c, s.input, k)])
    ensures Leads(c, s0, next, mark, stale)
  {
    LeadsOn(c, s0, s, mark, stale, T.Work(t));
    var s1 := s.(threads := s.threads[t := T.Contending(k)]);
    assert T.Apply(c, s, T.Work(t)) == s1;
    LeadsOn(c, s0, s1, mark, stale, T.Acquire(t));
    var s2 := s1.(threads := s.threads[t := T.Holding(k)], holder := Some(t));
    assert T.Apply(c, s1, T.Acquire(t)) == s2;
    LeadsOn(c, s0, s2, mark, stale, T.Send(t));
    assert T.Apply(c, s2, T.Send(t)) == next;
  }

  /** Having sent, it advances the turn and wakes the others, of which none sleeps. */
  lemma Finishes<J(!new), O>(
    c: T.Config<J, O>, s0: T.State<J, O>, s: T.State<J, O>, mark: nat, stale: bool, t: nat, k: nat, next: T.State<J, O>)
    requires Leads(c, s0, s, mark, stale) && t < |s.threads| && s.threads[t] == T.Sent(k) && k < |s.input|
    requires forall i :: 0 <= i < |s.threads| ==> !s.threads[i].Asleep?
    requires next == s.(threads := s.threads[t := T.Idle], holder := None, turn := WrappingAdd(s.turn, 1),
                        done := s.done + 1)
    ensures Leads(c, s0, next, mark, stale)
  {
    LeadsOn(c, s0, s, mark, stale, T.Advance(t));
    var s1 := next.(threads := s.threads[t := T.Notifying]);
    assert T.Apply(c, s, T.Advance(t)) == s1;
    LeadsOn(c, s0, s1, mark, stale, T.Notify(t));
    assert T.WakeAll(s1.threads[t := T.Idle]) == next.threads;
    assert T.Apply(c, s1, T.Notify(t)) == next;
  }

  lemma Pulls<J(!new), O>(
    c: T.Config<J, O>, s0: T.State<J, O>, s: T.State<J, O>, mark: nat, stale: bool, t: nat, next: T.State<J, O>)
    requires Leads(c, s0, s, mark, stale) && t < |s.threads| && s.threads[t].Idle? && s.pulled < s.fed
    requires next == s.(threads := s.threads[t := T.Working(s.pulled)], pulled := s.pulled + 1)
    ensures Leads(c, s0, next, mark, stale)
  {
    LeadsOn(c, s0, s, mark, stale, T.Pull(t));
  }

  lemma Feeds<J(!new), O>(
    c: T.Config<J, O>, s0: T.State<J, O>, s: T.State<J, O>, mark: nat, stale: bool, next: T.State<J, O>)
    requires Leads(c, s0, s, mark, stale) && c.inCapacity.None? && s.fed < |s.input|
    requires next == s.(fed := s.fed + 1)
    ensures Leads(c, s0, next, mark, stale)
  {
    LeadsOn(c, s0, s, mark, stale, T.Feed);
  }

  /** Without failures, or with one decoder, there are few of them. */
  predicate Allowed(sys: System, d: T.State<seq<Packet>, seq<u8>>, blame: Blame) {
    blame.TooManyFailures? || sys.decoders == 1 || d.failed == {}
  }

  lemma AllowedTame(sys: System, s: State, step: Step, blame: Blame)
    requires Sensible(sys) && Enabled(sys, s, step) && step.Decode?
    requires Allowed(sys, Apply(sys, s, step).receiving.value.decoding, blame)
    requires blame.StaleTurn? || StaleWaits(s.receiving.value.decoding, s.receiving.value.mark, step.decoderStep)
    ensures TameBut(sys, s, step, blame)
  {
    var next := Apply(sys, s, step).receiving.value;
    if next.decoding.failed == {} {
      FreshFailures(sys, next);
    }
  }

  lemma {:induction false} DecodersRun(
    sys: System, s: State, more: seq<T.Step<seq<Packet>>>, blame: Blame, arrived: seq<Arrival>)
    returns (own: seq<Option<seq<u8>>>)
    requires Sensible(sys) && Reached(sys, s, blame, arrived) && s.receiving.Some?
    requires T.Legal(Decoding(sys, s.receiving.value.epoch.first), s.receiving.value.decoding, more)
    requires DecoderSteps(more)
    requires blame.StaleTurn? || AllWait(Decoding(sys, s.receiving.value.epoch.first), s.receiving.value.decoding,
                                         s.receiving.value.mark, more)
    requires Allowed(
               sys, T.Exec(Decoding(sys, s.receiving.value.epoch.first), s.receiving.value.decoding, more), blame)
    ensures var r := s.receiving.value;
            Reached(sys, s.(receiving := Some(r.(
              decoding := T.Exec(Decoding(sys, r.epoch.first), r.decoding, more), own := own))), blame, arrived)
    decreases |more|
  {
    var r := s.receiving.value;
    if more == [] {
      own := r.own;
      assert s.(receiving := Some(r.(decoding := r.decoding, own := own))) == s;
    } else {
      var c := Decoding(sys, r.epoch.first);
      assert DecoderStep(more[0]);
      Runs.FailuresGrow(c, T.Apply(c, r.decoding, more[0]), more[1..]);
      AllowedTame(sys, s, Decode(more[0]), blame);
      Next(sys, s, Decode(more[0]), blame, arrived);
      assert arrived + [] == arrived;
      own := DecodersRun(sys, s.(receiving := Some(Decoded(sys, r, more[0]))), more[1..], blame, arrived);
    }
  }

  lemma DecodersLead(
    sys: System, s: State, d: T.State<seq<Packet>, seq<u8>>, blame: Blame, arrived: seq<Arrival>)
    returns (own: seq<Option<seq<u8>>>)
    requires Sensible(sys) && Reached(sys, s, blame, arrived) && s.receiving.Some?
    requires Leads(Decoding(sys, s.receiving.value.epoch.first), s.receiving.value.decoding, d,
                   s.receiving.value.mark, blame.StaleTurn?)
    requires Allowed(sys, d, blame)
    ensures Reached(sys, s.(receiving := Some(s.receiving.value.(decoding := d, own := own))), blame, arrived)
  {
    var c := Decoding(sys, s.receiving.value.epoch.first);
    var steps :|
      && T.Legal(c, s.receiving.value.decoding, steps) && DecoderSteps(steps)
      && T.Exec(c, s.receiving.value.decoding, steps) == d
      && (blame.StaleTurn? || AllWait(c, s.receiving.value.decoding, s.receiving.value.mark, steps));
    own := DecodersRun(sys, s, steps, blame, arrived);
  }

  // ---------------------------------------------------------------------------------------------
  // What the dispatcher does
  // ---------------------------------------------------------------------------------------------

  lemma DispatchBlock(
    sys: System, script: seq<Message>, s: State, k: nat, blame: Blame, arrived: seq<Arrival>, next: State)
    requires Has(sys, script) && Reached(sys, s, blame, arrived) && s.receiving.Some? && k < |script|
    requires var d := s.receiving.value.decoding;
             d.consumed < |d.out| && d.out[d.consumed] == Some(BytesAt(sys, script, k))
    requires Allowed(sys, s.receiving.value.decoding, blame)
    requires next == s.(receiving := Some(TakeNext(s.receiving.value, Incoming(script[k]))))
    ensures Reached(sys, next, blame, arrived)
  {
    BlockRoundTrip(script[k], sys.transferLength);
    if next.receiving.value.decoding.failed == {} {
      FreshFailures(sys, next.receiving.value);
    }
    Next(sys, s, DispatchNext, blame, arrived);
    assert arrived + [] == arrived;
  }

  lemma DispatchLoss(sys: System, s: State, blame: Blame, arrived: seq<Arrival>, next: State)
    requires Sensible(sys) && Reached(sys, s, blame, arrived) && s.receiving.Some? && blame.TooManyFailures?
    requires var d := s.receiving.value.decoding; d.consumed < |d.out| && d.out[d.consumed] == None
    requires next == s.(receiving := Some(TakeNext(s.receiving.value, Lost)))
    ensures Reached(sys, next, blame, arrived)
  {
    Next(sys, s, DispatchNext, blame, arrived);
    assert arrived + [] == arrived;
  }

  // ---------------------------------------------------------------------------------------------
  // A broken promise
  // ---------------------------------------------------------------------------------------------

  /** Some client is told of a success although not all it was sent is delivered to it. */
  ghost predicate Deceived(sys: System, s: State) {
    s.receiving.Some? && exists queue ::
      && queue in Trace(s.receiving.value.events) && queue.client in sys.clients
      && Verdict(queue.blocks) == Some(true)
      && Delivered(queue.blocks) < sys.clients[queue.client].content
  }

  lemma DeceivedIsUnsafe(sys: System, s: State)
    requires Deceived(sys, s)
    ensures !AllSafe(sys, s)
  {
    var trace := Trace(s.receiving.value.events);
    var queue :| queue in trace && queue.client in sys.clients && Verdict(queue.blocks) == Some(true)
                 && Delivered(queue.blocks) < sys.clients[queue.client].content;
    var j: nat :| j < |trace| && trace[j] == queue;
    assert !Safe(sys, trace[j]);
  }

  /** A queue with nothing between the start and the end block. */
  function EmptyQueue(): Queue {
    Queue(CLIENT, [Message(Start, CLIENT, [])] + [Message(End, CLIENT, [])], false)
  }

  lemma EmptyQueueDeceives(sys: System, n: nat, s: State)
    requires n > 0 && CLIENT in sys.clients && sys.clients[CLIENT].content == Zeros(n)
    requires s.receiving.Some? && Trace(s.receiving.value.events) == [EmptyQueue()]
    ensures Deceived(sys, s) && !AllSafe(sys, s)
  {
    var blocks := EmptyQueue().blocks;
    HeardIs(blocks, 2);
    assert blocks[..2] == [] + [blocks[0]] + [blocks[1]];
    PayloadsSnoc([], blocks[0]);
    PayloadsSnoc([] + [blocks[0]], blocks[1]);
    assert EmptyQueue() in Trace(s.receiving.value.events);
    DeceivedIsUnsafe(sys, s);
  }

  lemma StartGrows(start: Message)
    requires start.kind.Start?
    ensures Grown([], Incoming(start)) == [Queue(start.client, [start], true)]
  {}

  lemma HeartbeatIgnored(trace: seq<Queue>, m: Message)
    requires m.kind.Heartbeat?
    ensures Grown(trace, Incoming(m)) == trace
  {}

  lemma EndGrows(start: Message, end: Message)
    requires end.kind.End? && end.client == start.client
    ensures Grown([Queue(start.client, [start], true)], Incoming(end))
         == [Queue(start.client, [start] + [end], false)]
  {}

  /** The end block after the start block, with nothing routable in between. */
  lemma StartToEnd(before: seq<Event>, start: Message, between: Option<Message>, end: Message)
    requires Trace(before) == [] && (between.Some? ==> between.value.kind.Heartbeat?)
    requires start.kind.Start? && end.kind.End? && end.client == start.client
    ensures var middle := if between.Some? then [Incoming(between.value)] else [];
            Trace(before + [Incoming(start)] + middle + [Incoming(end)])
            == [Queue(start.client, [start] + [end], false)]
  {
    var begun := before + [Incoming(start)];
    TraceSnoc(before, Incoming(start));
    StartGrows(start);
    EndGrows(start, end);
    if between.Some? {
      TraceSnoc(begun, Incoming(between.value));
      HeartbeatIgnored(Trace(begun), between.value);
      TraceSnoc(begun + [Incoming(between.value)], Incoming(end));
    } else {
      assert begun + [] == begun;
      TraceSnoc(begun, Incoming(end));
    }
  }
}
