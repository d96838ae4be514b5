/** What the diode guarantees to the clients at its two ends, over every run. */
module EndToEnd {
  import opened Bytes
  import opened Protocol
  import opened Streams
  import opened Reblock
  import opened Epoch
  import opened Sender
  import opened Dispatch
  import opened Demultiplex
  import opened ReceiveClient
  import opened Pipeline

  ghost predicate Legal(sys: System, s: State, steps: seq<Step>)
    requires Sensible(sys)
    decreases |steps|
  {
    steps == [] || (Enabled(sys, s, steps[0]) && Legal(sys, Apply(sys, s, steps[0]), steps[1..]))
  }

  ghost function Exec(sys: System, s: State, steps: seq<Step>): State
    requires Sensible(sys) && Legal(sys, s, steps)
    decreases |steps|
  {
    if steps == [] then s else Exec(sys, Apply(sys, s, steps[0]), steps[1..])
  }

  lemma ExecOne(sys: System, s: State, step: Step)
    requires Sensible(sys) && Enabled(sys, s, step)
    ensures Legal(sys, s, [step]) && Exec(sys, s, [step]) == Apply(sys, s, step)
  {
    var rest := [step][1..];
    assert rest == [] && [step][0] == step;
    assert Legal(sys, Apply(sys, s, step), rest) && Exec(sys, Apply(sys, s, step), rest) == Apply(sys, s, step);
  }

  /** Every step is tame. */
  ghost predicate AllTame(sys: System, s: State, steps: seq<Step>)
    requires Sensible(sys) && Legal(sys, s, steps)
    decreases |steps|
  {
    steps == [] || (Tame(sys, s, steps[0]) && AllTame(sys, Apply(sys, s, steps[0]), steps[1..]))
  }

  lemma {:induction false} RunKeepsInv(sys: System, s: State, steps: seq<Step>)
    requires Inv(sys, s) && Legal(sys, s, steps) && AllTame(sys, s, steps)
    ensures Inv(sys, Exec(sys, s, steps))
    decreases |steps|
  {
    if steps == [] {
    } else {
      StepKeepsInv(sys, s, steps[0]);
      RunKeepsInv(sys, Apply(sys, s, steps[0]), steps[1..]);
    }
  }

  // ---------------------------------------------------------------------------------------------
  // Safety
  // ---------------------------------------------------------------------------------------------

  /** A queue belongs to a sending client, and what is written for it comes from that client, in order. */
  ghost predicate Safe(sys: System, queue: Queue) {
    && queue.client in sys.clients
    && var client := sys.clients[queue.client];
       && Delivered(queue.blocks) <= client.content
       && (Verdict(queue.blocks) == Some(true) ==> client.ok && Delivered(queue.blocks) == client.content)
  }

  /** Every queue of the receiver. */
  ghost predicate AllSafe(sys: System, s: State) {
    s.receiving.Some? ==>
      forall j: nat :: j < |Trace(s.receiving.value.events)| ==> Safe(sys, Trace(s.receiving.value.events)[j])
  }

  /** A queue that will be in step with its client's stream is an initial part of it already. */
  lemma FollowedIsSafe(
    sys: System, merged: seq<Message>, events: seq<Event>, pending: seq<Event>, n: nat, j: nat)
    requires Sensible(sys) && Merged(sys, merged) && Followed(sys, merged, events + pending, n)
    requires j < |Trace(events)|
    ensures Safe(sys, Trace(events)[j])
  {
    QueuesGrow(events, pending, j);
    var trace := Trace(events + pending);
    var queue, later := Trace(events)[j], trace[j];
    var client := sys.clients[later.client];
    OfPrefix(merged, n, later.client);
    TracksPrefix(queue, later, trace, client.stream, Of(merged[..n], later.client));
    DeliveredIsPrefix(queue.blocks, queue.client, client.stream, client.content, client.ok);
  }

  /**
   * End-to-end safety: in every interleaving of clients, encoders, a link that loses, reorders and
   * repeats packets within the window's reach, decoders that fail, resets at any time, and receiving clients
   * that stop at any time, every receiving client writes an initial part of the bytes its sending client
   * read, and a transfer reported as successful consists of exactly those bytes; provided that there is one
   * decoder or `decoders + failures` stays within 256 in every epoch, that no reset skips a block of an open
   * transfer, and that no thread which holds a block from before a reset finds its turn come after it.
   */
  lemma EndToEndSafety(sys: System, steps: seq<Step>)
    requires Sensible(sys) && Legal(sys, Init(sys), steps) && AllTame(sys, Init(sys), steps)
    ensures AllSafe(sys, Exec(sys, Init(sys), steps))
  {
    InitInv(sys);
    RunKeepsInv(sys, Init(sys), steps);
    var s := Exec(sys, Init(sys), steps);
    if s.receiving.Some? {
      var r := s.receiving.value;
      forall j: nat | j < |Trace(r.events)|
        ensures Safe(sys, Trace(r.events)[j])
      {
        FollowedIsSafe(sys, s.merged, r.events, Pending(r.decoding.out[r.decoding.consumed..]), NextNumber(sys, r), j);
      }
    }
  }

  // ---------------------------------------------------------------------------------------------
  // Delivery
  // ---------------------------------------------------------------------------------------------

  /** Every block from the first one received on has had enough packets accepted. */
  ghost predicate EnoughPackets(sys: System, merged: seq<Message>, r: Receiving) {
    forall n: nat :: r.epoch.first <= n < |merged| ==> |OfBlock(r.kept, n)| >= sys.threshold
  }

  /** The receiver has nothing left to do. */
  ghost predicate AtRest(sys: System, r: Receiving) {
    && r.decoding.consumed == |r.decoding.out|
    && forall step: T.Step<seq<Packet>> ::
         Runs.Internal(step) ==> !T.Enabled(Decoding(sys, r.epoch.first), r.decoding, step)
  }

  /** Nor has any block failed to decode. */
  ghost predicate Settled(sys: System, r: Receiving) {
    r.decoding.failed == {} && AtRest(sys, r)
  }

  lemma AllEmitted(sys: System, merged: seq<Message>, r: Receiving)
    requires Sensible(sys) && Merged(sys, merged) && ReceivingInv(sys, merged, r) && EnoughPackets(sys, merged, r)
    requires r.mark == 0
    ensures |r.decoding.input| == |merged| - r.epoch.first
  {
    var m := |merged|;
    assert r.decoding.input[0..] == r.decoding.input;
    if r.epoch.first < m {
      FaithfulEmits(r.epoch, r.kept, sys.threshold, m - 1);
    }
    FaithfulEmits(r.epoch, r.kept, sys.threshold, m);
    OfBlockAbsent(r.kept, m);
  }

  /** A receiver at rest has sent the results of all its jobs. */
  lemma AllSent(sys: System, r: Receiving)
    requires Sensible(sys) && Handed(sys, r) && r.restarts == 0 && Settled(sys, r)
    ensures |T.Somes(r.decoding.out)| == |r.decoding.out| == |r.decoding.input|
  {
    var c := Decoding(sys, r.epoch.first);
    Runs.ReachableInv(c, r.decoding);
    Runs.SomeStepPossible(c, r.decoding);
    assert forall t: nat :: t < |r.decoding.threads| ==> r.decoding.threads[t].Idle?;
    assert T.SentCount(r.decoding) == r.decoding.done;
  }

  lemma AllDispatched(sys: System, merged: seq<Message>, r: Receiving)
    requires Sensible(sys) && Merged(sys, merged) && ReceivingInv(sys, merged, r)
    requires EnoughPackets(sys, merged, r) && Settled(sys, r) && Lossless(r.events) && r.restarts == 0
    ensures Arrived(r.events) == merged[r.epoch.first..]
  {
    AllEmitted(sys, merged, r);
    AllSent(sys, r);
    assert Plan(r) == r.events;
  }

  /** The whole stream of client `c` was sent from the first block received on, and nothing was lost since. */
  ghost predicate FullySent(sys: System, s: State, c: ClientId) {
    && c in sys.clients && s.receiving.Some?
    && var r := s.receiving.value;
       && EnoughPackets(sys, s.merged, r) && Settled(sys, r) && Lossless(r.events) && r.restarts == 0
       && r.epoch.first <= |s.merged| && Of(s.merged[r.epoch.first..], c) == sys.clients[c].stream
  }

  /** Client `c` has exactly one queue, which holds its stream; what is written and reported follows. */
  ghost predicate Served(client: Client, events: seq<Event>, c: ClientId) {
    && OnlyQueue(Trace(events), c, client.stream, false)
    && Verdict(client.stream) == Some(client.ok)
    && Delivered(client.stream) == Payloads(client.stream)
    && (client.ok ==> Delivered(client.stream) == client.content)
  }

  /**
   * Delivery: once every block from the first one received on has had enough packets accepted, no
   * block has failed to decode and the receiver has come to rest, each client whose whole stream was
   * sent after that first block has exactly one queue, which holds its stream; all its bytes are
   * written, and success is reported if and only if its sender read them to the end.
   */
  lemma EndToEndDelivery(sys: System, steps: seq<Step>, c: ClientId)
    requires Sensible(sys) && Legal(sys, Init(sys), steps) && AllTame(sys, Init(sys), steps)
    requires FullySent(sys, Exec(sys, Init(sys), steps), c)
    ensures Served(sys.clients[c], Exec(sys, Init(sys), steps).receiving.value.events, c)
  {
    InitInv(sys);
    RunKeepsInv(sys, Init(sys), steps);
    var s := Exec(sys, Init(sys), steps);
    AllDispatched(sys, s.merged, s.receiving.value);
    WholeStream(s.receiving.value.events, c, sys.clients[c]);
  }

  lemma WholeStream(events: seq<Event>, c: ClientId, client: Client)
    requires IsStream(c, client.stream, client.content, client.ok)
    requires Lossless(events) && Of(Arrived(events), c) == client.stream
    ensures Served(client, events, c)
  {
    StreamShape(c, client.stream, client.content, client.ok);
    DemultiplexIsInverse(events, c, client.stream);
    HeardIs(client.stream, |client.stream|);
    assert client.stream[..|client.stream|] == client.stream;
  }

  // ---------------------------------------------------------------------------------------------
  // The two ends
  // ---------------------------------------------------------------------------------------------

  /** A client served at the sending end is one of those that a system may have: its stream carries its bytes. */
  method SendStream(source: Reader, c: ClientId, transferLength: u32, flush: bool)
    returns (stream: seq<Message>, ok: bool, ghost client: Client)
    requires transferLength > SERIALIZE_OVERHEAD
    modifies source
    ensures client == Client(stream, old(source.rest), ok)
    ensures IsStream(c, client.stream, client.content, client.ok)
    ensures forall i :: 0 <= i < |stream| ==> Fits(stream[i], transferLength)
    ensures source.broken == (old(source.broken) || !ok)
  {
    ghost var content := source.rest;
    ghost var chunks;
    stream, ok, chunks := ServeClient(source, c, transferLength - SERIALIZE_OVERHEAD, flush);
    client := Client(stream, content, ok);
    StreamFits(stream, c, content, ok, transferLength - SERIALIZE_OVERHEAD, flush, transferLength);
  }

  /**
   * A worker at the receiving end, run on a queue of the receiver: what it writes is a prefix of what the
   * sending client read, and if it reports success, all of it.
   */
  method WriteStream(
    ghost sys: System, ghost steps: seq<Step>, queue: Queue, patience: nat, flush: bool, client: Writer)
    returns (reported: Option<bool>)
    requires Sensible(sys) && Legal(sys, Init(sys), steps) && AllTame(sys, Init(sys), steps)
    requires Exec(sys, Init(sys), steps).receiving.Some?
    requires queue in Trace(Exec(sys, Init(sys), steps).receiving.value.events)
    modifies client
    ensures queue.client in sys.clients
    ensures old(client.written) <= client.written <= old(client.written) + sys.clients[queue.client].content
    ensures reported == Some(true) ==>
              && sys.clients[queue.client].ok
              && client.written == old(client.written) + sys.clients[queue.client].content
  {
    EndToEndSafety(sys, steps);
    ghost var j: nat :| j < |Trace(Exec(sys, Init(sys), steps).receiving.value.events)|
                        && Trace(Exec(sys, Init(sys), steps).receiving.value.events)[j] == queue;
    assert Safe(sys, queue);
    ghost var content := sys.clients[queue.client].content;
    assert client.written + Delivered(queue.blocks) <= client.written + content by {
      assert content == Delivered(queue.blocks) + content[|Delivered(queue.blocks)|..];
    }
    ghost var n;
    reported, n := ReceiveClient.Run(queue.blocks, patience, flush, client);
  }
}
