/**
 * What each client queue holds (src/receive/dispatch.rs), stated without the dispatcher's state, and
 * the inverse of multiplexing (src/send/client.rs, src/send/server.rs, src/send/ordering.rs).
 */
module Demultiplex {
  import opened Protocol
  import opened Dispatch

  // ---------------------------------------------------------------------------------------------
  // A queue runs from its start block to the first thing that ends it
  // ---------------------------------------------------------------------------------------------

  /** The blocks that queue `j` of client `c` receives from the events after its start block. */
  function After(events: seq<Event>, c: ClientId, j: nat): seq<Message> {
    if events == [] then [] else
    var rest := events[1..];
    match events[0]
    case Lost => [AbortBlock(c)]
    case Gone(q) => if q == j then [] else After(rest, c, j)
    case Taken(_) => After(rest, c, j)
    case Incoming(m) =>
      if m.client != c || !Routable(m) then After(rest, c, j)
      else if m.kind.Start? then []
      else if Terminal(m) then [m]
      else [m] + After(rest, c, j)
  }

  /** The events that do not end queue `j` of client `c`. */
  predicate Keeps(e: Event, c: ClientId, j: nat) {
    match e
    case Lost => false
    case Gone(q) => q != j
    case Taken(_) => true
    case Incoming(m) => m.client == c && Routable(m) ==> m.kind.Data?
  }

  predicate StaysOpen(events: seq<Event>, c: ClientId, j: nat) {
    forall i :: 0 <= i < |events| ==> Keeps(events[i], c, j)
  }

  lemma StaysOpenAppend(a: seq<Event>, b: seq<Event>, c: ClientId, j: nat)
    ensures StaysOpen(a + b, c, j) <==> StaysOpen(a, c, j) && StaysOpen(b, c, j)
  {
    if StaysOpen(a + b, c, j) {
      assert forall i :: 0 <= i < |a| ==> a[i] == (a + b)[i];
      assert forall i :: 0 <= i < |b| ==> b[i] == (a + b)[|a| + i];
    }
  }

  /** What one event by itself adds to an open queue. */
  lemma AfterOne(e: Event, c: ClientId, j: nat)
    ensures StaysOpen([e], c, j) <==> Keeps(e, c, j)
    ensures After([e], c, j) ==
              match e
              case Lost => [AbortBlock(c)]
              case Gone(_) => []
              case Taken(_) => []
              case Incoming(m) => if m.client != c || !Routable(m) || m.kind.Start? then [] else [m]
  {
    assert [e][0] == e && [e][1..] == [];
  }

  function CountStarts(events: seq<Event>): nat {
    if events == [] then 0 else CountStarts(events[..|events| - 1]) + if Starts(events[|events| - 1]) then 1 else 0
  }

  lemma {:induction false} AfterSnoc(events: seq<Event>, c: ClientId, j: nat, e: Event)
    ensures After(events + [e], c, j)
         == if StaysOpen(events, c, j) then After(events, c, j) + After([e], c, j) else After(events, c, j)
  {
    if events == [] {
      assert events + [e] == [e];
    } else {
      AfterSnoc(events[1..], c, j, e);
      assert (events + [e])[1..] == events[1..] + [e];
      assert events == [events[0]] + events[1..];
      StaysOpenAppend([events[0]], events[1..], c, j);
      AfterOne(events[0], c, j);
    }
  }

  lemma {:induction false} TraceLength(events: seq<Event>)
    ensures |Trace(events)| == CountStarts(events)
  {
    if events == [] {
    } else {
      TraceLength(events[..|events| - 1]);
    }
  }

  /** One event extends a queue by what `After` says about that event alone. */
  lemma ExtendIsAfter(queue: Queue, j: nat, e: Event)
    ensures Extend(queue, j, e) == Queue(
      queue.client,
      queue.blocks + (if queue.open then After([e], queue.client, j) else []),
      queue.open && StaysOpen([e], queue.client, j))
  {
    AfterOne(e, queue.client, j);
  }

  /** The queue created by the start block at position `p`. */
  function QueueFrom(events: seq<Event>, p: nat, j: nat): Queue
    requires p < |events| && Starts(events[p])
  {
    var c := events[p].m.client;
    Queue(c, [events[p].m] + After(events[p + 1..], c, j), StaysOpen(events[p + 1..], c, j))
  }

  lemma QueueFromSnoc(events: seq<Event>, e: Event, p: nat, j: nat)
    requires p < |events| && Starts(events[p])
    ensures QueueFrom(events + [e], p, j) == Extend(QueueFrom(events, p, j), j, e)
  {
    var c, rest := events[p].m.client, events[p + 1..];
    assert (events + [e])[p + 1..] == rest + [e];
    AfterSnoc(rest, c, j, e);
    StaysOpenAppend(rest, [e], c, j);
    ExtendIsAfter(QueueFrom(events, p, j), j, e);
  }

  /**
   * For every list of events and every start block in it: the queue it creates holds that block,
   * then the client's blocks up to and including the first terminal one, unless a loss (which adds one
   * abort block), a new start of the same client or the end of its worker comes first.
   */
  lemma {:induction false} QueueHolds(events: seq<Event>, p: nat)
    requires p < |events| && Starts(events[p])
    ensures CountStarts(events[..p]) < |Trace(events)|
    ensures Trace(events)[CountStarts(events[..p])] == QueueFrom(events, p, CountStarts(events[..p]))
  {
    var init, e := events[..|events| - 1], events[|events| - 1];
    var j := CountStarts(events[..p]);
    assert events == init + [e];
    TraceSnoc(init, e);
    TraceLength(init);
    if p == |events| - 1 {
      assert events[..p] == init;
      assert events[p + 1..] == [];
    } else {
      assert init[..p] == events[..p];
      QueueHolds(init, p);
      QueueFromSnoc(init, e, p, j);
    }
  }

  /** The data blocks of a client among the events. */
  function DataOf(events: seq<Event>, c: ClientId): seq<Message> {
    if events == [] then [] else
    (if events[0].Incoming? && events[0].m.client == c && events[0].m.kind.Data? then [events[0].m] else [])
    + DataOf(events[1..], c)
  }

  /** Up to the event at `k`, which ends the queue, or to the end. */
  ghost predicate AfterEnds(events: seq<Event>, c: ClientId, j: nat, k: nat) {
    && k <= |events| && StaysOpen(events[..k], c, j)
    && (k < |events| ==> !Keeps(events[k], c, j))
    && After(events, c, j) == DataOf(events[..k], c) + if k < |events| then After([events[k]], c, j) else []
  }

  lemma AfterEndsLater(events: seq<Event>, c: ClientId, j: nat, k: nat)
    requires events != [] && Keeps(events[0], c, j) && AfterEnds(events[1..], c, j, k)
    ensures AfterEnds(events, c, j, k + 1)
  {
    var front := events[..k + 1];
    assert front[1..] == events[1..][..k] && front == [events[0]] + front[1..];
    StaysOpenAppend([events[0]], front[1..], c, j);
    AfterOne(events[0], c, j);
    assert DataOf(front, c) == DataOf([events[0]], c) + DataOf(front[1..], c) by {
      assert [events[0]][1..] == [];
    }
    if k + 1 < |events| {
      assert events[1..][k] == events[k + 1];
    }
  }

  lemma {:induction false} AfterIs(events: seq<Event>, c: ClientId, j: nat) returns (k: nat)
    ensures AfterEnds(events, c, j, k)
  {
    if events == [] {
      k := 0;
    } else if !Keeps(events[0], c, j) {
      k := 0;
      AfterOne(events[0], c, j);
      assert events[..0] == [];
    } else {
      var k' := AfterIs(events[1..], c, j);
      AfterEndsLater(events, c, j, k');
      k := k' + 1;
    }
  }

  /**
   * The queue that the start block at `p` opens, in so many words: it stays open up to the first event, at
   * `end`, that is a loss, the end of its worker, or a start, abort or end block of its client. Until then it
   * receives its client's data blocks. An abort or end block is the last one it receives, and after a loss it
   * receives an abort block; a new start leaves it as it is.
   */
  lemma QueueIs(events: seq<Event>, p: nat) returns (j: nat, end: nat)
    requires p < |events| && events[p].Incoming? && events[p].m.kind.Start?
    ensures j < |Trace(events)| && p < end <= |events| && Trace(events)[j].client == events[p].m.client
    ensures forall i :: p < i < end ==>
              events[i] != Lost && events[i] != Gone(j)
              && (events[i].Incoming? && events[i].m.client == events[p].m.client ==>
                    !events[i].m.kind.Start? && !events[i].m.kind.Abort? && !events[i].m.kind.End?)
    ensures var c, blocks := events[p].m.client, [events[p].m] + DataOf(events[p + 1..end], events[p].m.client);
            var queue := Trace(events)[j];
            if end == |events| then queue.open && queue.blocks == blocks
            else !queue.open
                 && match events[end]
                    case Lost => queue.blocks == blocks + [Message(Abort, c, [])]
                    case Gone(q) => q == j && queue.blocks == blocks
                    case Taken(_) => false
                    case Incoming(m) =>
                      && m.client == c && (m.kind.Start? || m.kind.Abort? || m.kind.End?)
                      && queue.blocks == blocks + if m.kind.Start? then [] else [m]
  {
    QueueHolds(events, p);
    j := CountStarts(events[..p]);
    var c, rest := events[p].m.client, events[p + 1..];
    var k := AfterIs(rest, c, j);
    end := p + 1 + k;
    assert rest[..k] == events[p + 1..end];
    forall i | p < i < end
      ensures Keeps(events[i], c, j)
    {
      assert events[i] == rest[..k][i - p - 1];
    }
    if k < |rest| {
      assert events[end] == rest[k];
      AfterOne(rest[k], c, j);
      assert !StaysOpen(rest, c, j);
    } else {
      assert rest[..k] == rest;
    }
  }

  /** A start block only first, a terminal block only last, nothing but the client's own routable blocks. */
  predicate Wellformed(queue: Queue) {
    && queue.blocks != [] && queue.blocks[0].kind.Start?
    && (forall i :: 0 <= i < |queue.blocks| ==>
          queue.blocks[i].client == queue.client && !queue.blocks[i].kind.Heartbeat? && !queue.blocks[i].kind.Unknown?)
    && (forall i :: 1 <= i < |queue.blocks| ==> !queue.blocks[i].kind.Start?)
    && (forall i :: 0 <= i < |queue.blocks| - 1 ==> !queue.blocks[i].kind.Abort? && !queue.blocks[i].kind.End?)
    && (queue.open ==>
          !queue.blocks[|queue.blocks| - 1].kind.Abort? && !queue.blocks[|queue.blocks| - 1].kind.End?)
  }

  lemma {:induction false} QueuesWellformed(events: seq<Event>)
    ensures forall j :: 0 <= j < |Trace(events)| ==> Wellformed(Trace(events)[j])
  {
    if events == [] {
    } else {
      QueuesWellformed(events[..|events| - 1]);
    }
  }

  // ---------------------------------------------------------------------------------------------
  // Multiplexing and back
  // ---------------------------------------------------------------------------------------------

  function Arrived(events: seq<Event>): seq<Message> {
    if events == [] then [] else
    Arrived(events[..|events| - 1]) + match events[|events| - 1] case Incoming(m) => [m] case _ => []
  }

  /** The blocks of client `c` in a merged sequence; heartbeats carry client 0 but belong to nobody. */
  function Of(messages: seq<Message>, c: ClientId): seq<Message> {
    if messages == [] then [] else
    var m := messages[|messages| - 1];
    Of(messages[..|messages| - 1], c) + if m.client == c && Routable(m) then [m] else []
  }

  lemma OfSnoc(messages: seq<Message>, m: Message, c: ClientId)
    ensures Of(messages + [m], c) == Of(messages, c) + if m.client == c && Routable(m) then [m] else []
  {
    assert (messages + [m])[..|messages|] == messages;
  }

  lemma CountSnoc<A>(s: seq<A>, x: A, y: A)
    ensures multiset(s + [x])[y] == multiset(s)[y] + if x == y then 1 else 0
  {}

  /** Every routable block of the client counts as often as in `messages`, and no other block does. */
  ghost predicate HasAll(messages: seq<Message>, of: seq<Message>, c: ClientId, m: Message) {
    multiset(of)[m] == if m.client == c && (m.kind.Start? || m.kind.Data? || m.kind.Abort? || m.kind.End?)
                       then multiset(messages)[m] else 0
  }

  lemma HasAllNext(messages: seq<Message>, of: seq<Message>, c: ClientId, m: Message, last: Message)
    requires HasAll(messages, of, c, m)
    ensures HasAll(messages + [last], of + if last.client == c && Routable(last) then [last] else [], c, m)
  {
    CountSnoc(messages, last, m);
    CountSnoc(of, last, m);
    assert of + [] == of;
  }

  lemma {:induction false} OfHasAll(messages: seq<Message>, c: ClientId, m: Message)
    ensures HasAll(messages, Of(messages, c), c, m)
  {
    if messages == [] {
    } else {
      var init, last := messages[..|messages| - 1], messages[|messages| - 1];
      OfHasAll(init, c, m);
      HasAllNext(init, Of(init, c), c, m, last);
      assert messages == init + [last];
    }
  }

  lemma {:induction false} ArrivedHasAll(events: seq<Event>, m: Message)
    ensures multiset(Arrived(events))[m] == multiset(events)[Incoming(m)]
  {
    if events == [] {
    } else {
      var init := events[..|events| - 1];
      ArrivedHasAll(init, m);
      assert events == init + [events[|events| - 1]];
    }
  }

  lemma {:induction false} OfAppend(a: seq<Message>, b: seq<Message>, c: ClientId)
    ensures Of(a + b, c) == Of(a, c) + Of(b, c)
  {
    if b == [] {
      assert a + b == a;
    } else {
      var init := b[..|b| - 1];
      OfAppend(a, init, c);
      assert (a + b)[..|a + b| - 1] == a + init;
    }
  }

  lemma {:induction false} OfStranger(messages: seq<Message>, c: ClientId)
    requires forall m :: m in messages ==> !(m.client == c && Routable(m))
    ensures Of(messages, c) == []
  {
    if messages == [] {
    } else {
      OfStranger(messages[..|messages| - 1], c);
      assert messages[|messages| - 1] in messages;
    }
  }

  lemma OfPrefix(messages: seq<Message>, n: nat, c: ClientId)
    requires n <= |messages|
    ensures Of(messages[..n], c) <= Of(messages, c)
  {
    assert messages == messages[..n] + messages[n..];
    OfAppend(messages[..n], messages[n..], c);
  }

  lemma OfUnaffected(messages: seq<Message>, from: nat, to: nat, c: ClientId)
    requires from <= to <= |messages|
    requires forall k :: from <= k < to ==> !(messages[k].client == c && Routable(messages[k]))
    ensures Of(messages[..to], c) == Of(messages[..from], c)
  {
    assert messages[..to] == messages[..from] + messages[from..to];
    OfAppend(messages[..from], messages[from..to], c);
    OfStranger(messages[from..to], c);
  }

  lemma OfAffected(messages: seq<Message>, from: nat, to: nat, k: nat, c: ClientId)
    requires from <= k < to <= |messages| && messages[k].client == c && Routable(messages[k])
    ensures |Of(messages[..from], c)| < |Of(messages[..to], c)|
  {
    var front, rest := messages[..k], messages[k + 1..to];
    OfPrefix(front, from, c);
    assert front[..from] == messages[..from];
    OfSnoc(front, messages[k], c);
    assert messages[..to] == front + [messages[k]] + rest;
    OfAppend(front + [messages[k]], rest, c);
  }

  /** Start only at the head, a terminal block only at the end: what every sender stream looks like. */
  predicate Transfer(stream: seq<Message>) {
    && (forall i :: 0 <= i < |stream| ==> (stream[i].kind.Start? <==> i == 0))
    && (forall i :: 0 <= i < |stream| - 1 ==> !Terminal(stream[i]))
    && (stream != [] ==> Terminal(stream[|stream| - 1]))
  }

  predicate Lossless(events: seq<Event>) {
    forall e :: e in events ==> e.Incoming? || e.Taken?
  }

  /** Exactly one queue for client `c`, holding `blocks`; none if there are no blocks. */
  ghost predicate OnlyQueue(trace: seq<Queue>, c: ClientId, blocks: seq<Message>, open: bool) {
    && (blocks != [] ==> exists j :: 0 <= j < |trace| && trace[j] == Queue(c, blocks, open))
    && (forall i :: 0 <= i < |trace| && trace[i].client == c ==> trace[i] == Queue(c, blocks, open))
    && (forall i, j :: 0 <= i < |trace| && 0 <= j < |trace| && trace[i].client == trace[j].client == c ==> i == j)
  }

  lemma {:induction false} DemultiplexPrefix(events: seq<Event>, c: ClientId, stream: seq<Message>)
    requires Lossless(events) && Transfer(stream) && Of(Arrived(events), c) <= stream
    ensures var seen := Of(Arrived(events), c);
            && (forall i :: 0 <= i < |Trace(events)| && Trace(events)[i].client == c ==> seen != [])
            && OnlyQueue(Trace(events), c, seen, |seen| < |stream|)
  {
    if events == [] {
    } else {
      var init, e := events[..|events| - 1], events[|events| - 1];
      assert events == init + [e];
      if e.Incoming? {
        OfSnoc(Arrived(init), e.m, c);
      } else {
        assert Arrived(events) == Arrived(init);
      }
      assert Of(Arrived(init), c) <= Of(Arrived(events), c);
      DemultiplexPrefix(init, c, stream);
      assert e in events;
      DemultiplexStep(Trace(init), e, c, Of(Arrived(init), c), stream);
      TraceSnoc(init, e);
    }
  }

  predicate Belongs(e: Event, c: ClientId) {
    e.Incoming? && e.m.client == c && Routable(e.m)
  }

  lemma OnlyQueueUnaffected(trace: seq<Queue>, e: Event, c: ClientId, blocks: seq<Message>, open: bool)
    requires OnlyQueue(trace, c, blocks, open) && (e.Incoming? || e.Taken?) && !Belongs(e, c)
    ensures OnlyQueue(Grown(trace, e), c, blocks, open)
    ensures (exists i :: 0 <= i < |trace| && trace[i].client == c)
            <== exists i :: 0 <= i < |Grown(trace, e)| && Grown(trace, e)[i].client == c
  {
    if blocks != [] {
      var j :| 0 <= j < |trace| && trace[j] == Queue(c, blocks, open);
      assert Grown(trace, e)[j] == trace[j];
    }
  }

  lemma OnlyQueueStarts(trace: seq<Queue>, m: Message)
    requires m.kind.Start? && forall i :: 0 <= i < |trace| ==> trace[i].client != m.client
    ensures OnlyQueue(Grown(trace, Incoming(m)), m.client, [m], true)
  {
    assert Grown(trace, Incoming(m))[|trace|] == Queue(m.client, [m], true);
  }

  lemma OnlyQueueGrows(trace: seq<Queue>, m: Message, blocks: seq<Message>)
    requires OnlyQueue(trace, m.client, blocks, true) && blocks != [] && Routable(m) && !m.kind.Start?
    ensures OnlyQueue(Grown(trace, Incoming(m)), m.client, blocks + [m], !Terminal(m))
  {
    var j :| 0 <= j < |trace| && trace[j] == Queue(m.client, blocks, true);
    assert Grown(trace, Incoming(m))[j] == Queue(m.client, blocks + [m], !Terminal(m));
  }

  lemma DemultiplexStep(trace: seq<Queue>, e: Event, c: ClientId, seen: seq<Message>, stream: seq<Message>)
    requires Transfer(stream) && seen <= stream && (e.Incoming? || e.Taken?)
    requires OnlyQueue(trace, c, seen, |seen| < |stream|)
    requires forall i :: 0 <= i < |trace| && trace[i].client == c ==> seen != []
    requires Belongs(e, c) ==> seen + [e.m] <= stream
    ensures var seen' := if Belongs(e, c) then seen + [e.m] else seen;
            && (forall i :: 0 <= i < |Grown(trace, e)| && Grown(trace, e)[i].client == c ==> seen' != [])
            && OnlyQueue(Grown(trace, e), c, seen', |seen'| < |stream|)
  {
    if !Belongs(e, c) {
      OnlyQueueUnaffected(trace, e, c, seen, |seen| < |stream|);
    } else {
      assert stream[|seen|] == (seen + [e.m])[|seen|] == e.m;
      if seen == [] {
        OnlyQueueStarts(trace, e.m);
      } else {
        OnlyQueueGrows(trace, e.m, seen);
      }
    }
  }

  /**
   * Multiplexing followed by demultiplexing is the identity: however the blocks of any number of
   * clients and heartbeats are merged, client `c` gets one queue, and it holds exactly its stream.
   */
  lemma DemultiplexIsInverse(events: seq<Event>, c: ClientId, stream: seq<Message>)
    requires Lossless(events) && Transfer(stream) && stream != [] && Of(Arrived(events), c) == stream
    ensures OnlyQueue(Trace(events), c, stream, false)
  {
    DemultiplexPrefix(events, c, stream);
  }

  /** With losses: a queue holds an initial part of what arrived, possibly followed by one abort block. */
  predicate PrefixOrAborted(blocks: seq<Message>, seen: seq<Message>, c: ClientId) {
    || blocks <= seen
    || (blocks != [] && blocks[|blocks| - 1] == AbortBlock(c) && blocks[..|blocks| - 1] <= seen)
  }

  predicate StartsOnce(seen: seq<Message>) {
    forall i :: 1 <= i < |seen| ==> !seen[i].kind.Start?
  }

  /** Every queue of client `c` holds what arrived for it, complete while the queue is open. */
  ghost predicate Prefixes(trace: seq<Queue>, c: ClientId, seen: seq<Message>) {
    forall j :: 0 <= j < |trace| && trace[j].client == c ==>
      && (if trace[j].open then trace[j].blocks == seen else PrefixOrAborted(trace[j].blocks, seen, c))
      && seen != [] && seen[0].kind.Start?
  }

  lemma {:induction false} QueuesArePrefixes(events: seq<Event>, c: ClientId)
    requires StartsOnce(Of(Arrived(events), c))
    ensures Prefixes(Trace(events), c, Of(Arrived(events), c))
  {
    if events == [] {
    } else {
      var init, e := events[..|events| - 1], events[|events| - 1];
      var seen0, seen := Of(Arrived(init), c), Of(Arrived(events), c);
      if e.Incoming? {
        OfSnoc(Arrived(init), e.m, c);
      } else {
        assert Arrived(events) == Arrived(init);
      }
      assert StartsOnce(seen0) by {
        assert forall i :: 0 <= i < |seen0| ==> seen0[i] == seen[i];
      }
      QueuesArePrefixes(init, c);
      PrefixesStep(Trace(init), e, c, seen0, seen);
    }
  }

  lemma PrefixesStep(trace: seq<Queue>, e: Event, c: ClientId, seen0: seq<Message>, seen: seq<Message>)
    requires Prefixes(trace, c, seen0)
    requires seen == seen0 + if e.Incoming? && e.m.client == c && Routable(e.m) then [e.m] else []
    requires StartsOnce(seen)
    ensures Prefixes(Grown(trace, e), c, seen)
  {
    if e.Incoming? && e.m.client == c && e.m.kind.Start? {
      assert seen[|seen0|] == e.m;
      assert seen0 == [];
    } else {
      forall j | 0 <= j < |trace| && trace[j].client == c
        ensures if Extend(trace[j], j, e).open then Extend(trace[j], j, e).blocks == seen
                else PrefixOrAborted(Extend(trace[j], j, e).blocks, seen, c)
      {
        ExtendKeepsPrefix(trace[j], j, e, seen0, seen);
      }
    }
  }

  lemma ExtendKeepsPrefix(queue: Queue, j: nat, e: Event, seen0: seq<Message>, seen: seq<Message>)
    requires if queue.open then queue.blocks == seen0 else PrefixOrAborted(queue.blocks, seen0, queue.client)
    requires seen == seen0 + if e.Incoming? && e.m.client == queue.client && Routable(e.m) then [e.m] else []
    requires queue.open && e.Incoming? && e.m.client == queue.client ==> !e.m.kind.Start?
    ensures var q := Extend(queue, j, e);
            if q.open then q.blocks == seen else PrefixOrAborted(q.blocks, seen, queue.client)
  {
    if queue.open && e.Lost? {
      assert (seen0 + [AbortBlock(queue.client)])[..|seen0|] == seen0;
    }
  }

  // ---------------------------------------------------------------------------------------------
  // Queues and streams, when blocks may be missing
  // ---------------------------------------------------------------------------------------------

  /**
   * Of client `c`, whose stream is `stream`, the blocks `sofar` have been dealt with or are lost. Its open
   * queue, if it has one, holds them all; the others hold an initial part, possibly cut by an abort block.
   */
  ghost predicate Tracks(trace: seq<Queue>, c: ClientId, stream: seq<Message>, sofar: seq<Message>) {
    forall j :: 0 <= j < |trace| && trace[j].client == c ==>
      if trace[j].open then trace[j].blocks == sofar else PrefixOrAborted(trace[j].blocks, stream, c)
  }

  predicate HasOpen(trace: seq<Queue>, c: ClientId) {
    exists j :: 0 <= j < |trace| && trace[j].client == c && trace[j].open
  }

  /** The next block of the merged sequence. */
  lemma TracksNext(trace: seq<Queue>, m: Message, c: ClientId, stream: seq<Message>, sofar: seq<Message>)
    requires Tracks(trace, c, stream, sofar) && Transfer(stream)
    requires var next := sofar + if m.client == c && Routable(m) then [m] else []; next <= stream
    ensures var next := sofar + if m.client == c && Routable(m) then [m] else [];
            Tracks(Grown(trace, Incoming(m)), c, stream, next)
  {
    if m.client == c && Routable(m) {
      assert stream[|sofar|] == m;
    }
  }

  /** After a loss no queue is open, so any blocks may go missing. */
  lemma TracksLoss(
    trace: seq<Queue>, c: ClientId, stream: seq<Message>, sofar: seq<Message>, next: seq<Message>)
    requires Tracks(trace, c, stream, sofar) && sofar <= stream
    ensures Tracks(Grown(trace, Lost), c, stream, next)
  {
    assert (sofar + [AbortBlock(c)])[..|sofar|] == sofar;
  }

  /** The queues of `x` are those of `y`, except that some were closed earlier. */
  ghost predicate Behind(x: seq<Queue>, y: seq<Queue>) {
    && |x| == |y|
    && forall j :: 0 <= j < |x| ==>
         x[j].client == y[j].client && (x[j] == y[j] || (!x[j].open && x[j].blocks <= y[j].blocks))
  }

  lemma BehindGrows(x: seq<Queue>, y: seq<Queue>, e: Event)
    requires Behind(x, y)
    ensures Behind(Grown(x, e), Grown(y, e))
  {}

  /** A client worker that takes a block or stops, whatever the dispatcher does after that. */
  lemma {:induction false} WorkerBehind(before: seq<Event>, e: Event, after: seq<Event>)
    requires e.Gone? || e.Taken?
    ensures Behind(Trace(before + [e] + after), Trace(before + after))
  {
    if after == [] {
      assert before + [e] + [] == before + [e] && before + [] == before;
      TraceSnoc(before, e);
    } else {
      var init, last := after[..|after| - 1], after[|after| - 1];
      WorkerBehind(before, e, init);
      assert before + [e] + after == before + [e] + init + [last];
      assert before + after == before + init + [last];
      TraceSnoc(before + [e] + init, last);
      TraceSnoc(before + init, last);
      BehindGrows(Trace(before + [e] + init), Trace(before + init), last);
    }
  }

  lemma TracksBehind(x: seq<Queue>, y: seq<Queue>, c: ClientId, stream: seq<Message>, sofar: seq<Message>)
    requires Behind(x, y) && Tracks(y, c, stream, sofar) && sofar <= stream
    ensures Tracks(x, c, stream, sofar)
  {}

  /** What a queue holds at some time is an initial part of what it will hold. */
  lemma {:induction false} QueuesGrow(before: seq<Event>, after: seq<Event>, j: nat)
    requires j < |Trace(before)|
    ensures j < |Trace(before + after)|
    ensures Trace(before)[j].client == Trace(before + after)[j].client
    ensures Trace(before)[j].blocks <= Trace(before + after)[j].blocks
  {
    if after == [] {
      assert before + [] == before;
    } else {
      var init, last := after[..|after| - 1], after[|after| - 1];
      QueuesGrow(before, init, j);
      assert before + after == before + init + [last];
      TraceSnoc(before + init, last);
    }
  }

  /** Blocks may also go missing unnoticed, as long as the client has no open queue. */
  lemma TracksSkip(
    trace: seq<Queue>, c: ClientId, stream: seq<Message>, sofar: seq<Message>, next: seq<Message>)
    requires Tracks(trace, c, stream, sofar) && (next == sofar || !HasOpen(trace, c))
    ensures Tracks(trace, c, stream, next)
  {}

  /** Every queue then is an initial part of its client's stream, or was cut by an abort block; and was, before. */
  lemma TracksPrefix(queue: Queue, later: Queue, trace: seq<Queue>, stream: seq<Message>, sofar: seq<Message>)
    requires later in trace && Tracks(trace, later.client, stream, sofar) && sofar <= stream
    requires queue.client == later.client && queue.blocks <= later.blocks
    ensures PrefixOrAborted(queue.blocks, stream, queue.client)
  {
    var j :| 0 <= j < |trace| && trace[j] == later;
    assert PrefixOrAborted(later.blocks, stream, later.client);
    if queue.blocks != later.blocks && !(later.blocks <= stream) {
      assert queue.blocks <= later.blocks[..|later.blocks| - 1];
    }
  }
}
