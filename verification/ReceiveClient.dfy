/** The worker that writes one client's queue out (src/receive/client.rs). */
module ReceiveClient {
  import opened Bytes
  import opened Protocol
  import opened Streams
  import opened Sender
  import opened Dispatch
  import opened Demultiplex

  /** How many blocks of a queue the worker looks at: up to and including the first terminal one. */
  function Heard(blocks: seq<Message>): (h: nat)
    ensures h <= |blocks|
    ensures forall i :: 0 <= i < h - 1 ==> !Terminal(blocks[i])
    ensures h < |blocks| ==> h > 0 && Terminal(blocks[h - 1])
  {
    if blocks == [] then 0 else
    var init := blocks[..|blocks| - 1];
    var h := Heard(init);
    if h < |init| || (h > 0 && Terminal(init[h - 1])) then h else |blocks|
  }

  /** The bytes written for a queue. */
  function Delivered(blocks: seq<Message>): seq<u8> {
    Payloads(blocks[..Heard(blocks)])
  }

  /** What is reported to the caller: success, abort, or nothing as long as no terminal block is heard. */
  function Verdict(blocks: seq<Message>): Option<bool> {
    var h := Heard(blocks);
    if h > 0 && Terminal(blocks[h - 1]) then Some(blocks[h - 1].kind.End?) else None
  }

  predicate Understood(blocks: seq<Message>) {
    forall i :: 0 <= i < |blocks| ==> !blocks[i].kind.Unknown?
  }

  lemma HeardIs(blocks: seq<Message>, n: nat)
    requires n <= |blocks| && forall i :: 0 <= i < n - 1 ==> !Terminal(blocks[i])
    requires (n > 0 && Terminal(blocks[n - 1])) || (n == |blocks| && (n > 0 ==> !Terminal(blocks[n - 1])))
    ensures Heard(blocks) == n
  {
    var h := Heard(blocks);
  }

  lemma HeardReaches(blocks: seq<Message>, i: nat)
    requires i < |blocks| && forall k :: 0 <= k < i ==> !Terminal(blocks[k])
    ensures i < Heard(blocks)
  {
    var h := Heard(blocks);
    assert h < |blocks| ==> h > 0 && Terminal(blocks[h - 1]);
  }

  /** With flushing, everything up to the end of each payload is flushed before the next block is taken. */
  ghost predicate PayloadsFlushed(blocks: seq<Message>, base: nat, flushes: seq<nat>, n: nat)
    requires n <= |blocks|
  {
    forall k :: 0 <= k < n && blocks[k].payload != [] ==> base + |Payloads(blocks[..k + 1])| in flushes
  }

  /** Without flushing, only what is reported is flushed. */
  ghost predicate FlushedAsAsked(
    flush: bool, blocks: seq<Message>, base: nat, before: seq<nat>, flushes: seq<nat>, n: nat)
    requires n <= |blocks|
  {
    if flush then PayloadsFlushed(blocks, base, flushes, n) else flushes == before
  }

  lemma FlushedNext(
    flush: bool, blocks: seq<Message>, base: nat, before: seq<nat>, flushes: seq<nat>, n: nat, next: seq<nat>)
    requires n < |blocks| && FlushedAsAsked(flush, blocks, base, before, flushes, n)
    requires next == flushes + if flush && blocks[n].payload != [] then [base + |Payloads(blocks[..n + 1])|] else []
    ensures FlushedAsAsked(flush, blocks, base, before, next, n + 1)
  {
    assert forall x :: x in flushes ==> x in next;
    if flush && blocks[n].payload != [] {
      assert next[|flushes|] == base + |Payloads(blocks[..n + 1])|;
    }
  }

  lemma FlushedMore(blocks: seq<Message>, base: nat, flushes: seq<nat>, n: nat, x: nat)
    requires n <= |blocks| && PayloadsFlushed(blocks, base, flushes, n)
    ensures PayloadsFlushed(blocks, base, flushes + [x], n)
  {
    assert forall y :: y in flushes ==> y in flushes + [x];
  }

  /** The payloads of `n` blocks are written, and at most part of the next one. */
  ghost predicate Dealt(blocks: seq<Message>, start: seq<u8>, written: seq<u8>, n: nat) {
    && n <= |blocks|
    && start + Payloads(blocks[..n]) <= written
    && (if n < |blocks| then written <= start + Payloads(blocks[..n + 1]) else written == start + Payloads(blocks))
  }

  lemma DealtExactly(blocks: seq<Message>, start: seq<u8>, written: seq<u8>, n: nat)
    requires n <= |blocks| && written == start + Payloads(blocks[..n])
    ensures Dealt(blocks, start, written, n)
  {
    if n < |blocks| {
      assert blocks[..n + 1] == blocks[..n] + [blocks[n]];
      PayloadsSnoc(blocks[..n], blocks[n]);
      assert start + (Payloads(blocks[..n]) + blocks[n].payload) == written + blocks[n].payload;
    } else {
      assert blocks[..n] == blocks;
    }
  }

  /** What is written stays within what the queue delivers, when no block beyond those heard is begun. */
  lemma DealtWithin(blocks: seq<Message>, start: seq<u8>, written: seq<u8>, n: nat)
    requires Dealt(blocks, start, written, n)
    requires n < Heard(blocks) || (n == Heard(blocks) && written == start + Payloads(blocks[..n]))
    ensures start <= written <= start + Delivered(blocks)
  {
    if n < Heard(blocks) {
      var heard := blocks[..Heard(blocks)];
      PayloadsPrefix(heard, n + 1);
      assert heard[..n + 1] == blocks[..n + 1];
      PrefixAfter(start, Payloads(blocks[..n + 1]), Delivered(blocks));
    }
    assert start <= start + Payloads(blocks[..n]);
  }

  lemma DealtHere(blocks: seq<Message>, start: seq<u8>, written: seq<u8>, n: nat)
    requires n <= Heard(blocks) && written == start + Payloads(blocks[..n])
    ensures Dealt(blocks, start, written, n) && start <= written <= start + Delivered(blocks)
    ensures n == Heard(blocks) ==> written == start + Delivered(blocks)
  {
    DealtExactly(blocks, start, written, n);
    DealtWithin(blocks, start, written, n);
  }

  lemma PrefixAfter(start: seq<u8>, a: seq<u8>, b: seq<u8>)
    requires a <= b
    ensures start + a <= start + b
  {
    assert b == a + b[|a|..];
    assert start + b == start + a + b[|a|..];
  }

  /** How the worker ended: `n` blocks are dealt with. */
  ghost predicate Ended(blocks: seq<Message>, patience: nat, n: nat, broken: bool, reported: Option<bool>) {
    && (reported.Some? ==> n == Heard(blocks) && reported == Verdict(blocks))
    && (reported.None? ==> broken || patience < Heard(blocks) || Verdict(blocks).None? || !Understood(blocks))
  }

  /**
   * `client::start` on everything that the queue will ever hold, of which it receives `patience` blocks
   * before the timeout. When a write fails nothing is reported. `n` blocks are dealt with, and at most one
   * more is begun.
   */
  method Run(blocks: seq<Message>, patience: nat, flush: bool, client: Writer)
    returns (reported: Option<bool>, ghost n: nat)
    modifies client
    ensures old(client.written) <= client.written <= old(client.written) + Delivered(blocks)
    ensures Ended(blocks, patience, n, client.broken, reported)
    ensures Dealt(blocks, old(client.written), client.written, n)
    ensures !client.broken ==> client.written == old(client.written) + Payloads(blocks[..n])
    ensures reported.Some? ==> client.written == old(client.written) + Delivered(blocks) && client.Synced()
    ensures if flush then PayloadsFlushed(blocks, |old(client.written)|, client.flushes, n)
            else client.flushes == old(client.flushes) + if reported.Some? then [|client.written|] else []
  {
    n := 0;
    for i := 0 to |blocks|
      invariant n == i <= patience && client.broken == old(client.broken)
      invariant forall k :: 0 <= k < i ==> !Terminal(blocks[k])
      invariant client.written == old(client.written) + Payloads(blocks[..i])
      invariant FlushedAsAsked(flush, blocks, |old(client.written)|, old(client.flushes), client.flushes, i)
    {
      var block := blocks[i];
      HeardReaches(blocks, i);
      if i == patience || block.kind.Unknown? {
        DealtHere(blocks, old(client.written), client.written, i);
        return None, n;
      }
      var ok := WriteBlock(client, block, flush, blocks, i, old(client.written), old(client.flushes));
      if !ok {
        DealtWithin(blocks, old(client.written), client.written, i);
        return None, n;
      }
      n := i + 1;
      if block.kind.Abort? || block.kind.End? {
        HeardIs(blocks, n);
        DealtHere(blocks, old(client.written), client.written, n);
        ok := HandOver(client, flush, blocks, n, |old(client.written)|, old(client.flushes));
        return if ok then Some(block.kind.End?) else None, n;
      }
    }
    HeardIs(blocks, |blocks|);
    DealtHere(blocks, old(client.written), client.written, n);
    return None, n;
  }

  /** One block: its payload, if it has one, and the flush after it. */
  method WriteBlock(
    client: Writer, block: Message, flush: bool,
    ghost blocks: seq<Message>, ghost n: nat, ghost start: seq<u8>, ghost before: seq<nat>)
    returns (ok: bool)
    requires n < |blocks| && blocks[n] == block && client.written == start + Payloads(blocks[..n])
    requires FlushedAsAsked(flush, blocks, |start|, before, client.flushes, n)
    modifies client
    ensures client.broken == (old(client.broken) || !ok)
    ensures if ok
            then client.written == start + Payloads(blocks[..n + 1])
                 && FlushedAsAsked(flush, blocks, |start|, before, client.flushes, n + 1)
            else Dealt(blocks, start, client.written, n)
                 && FlushedAsAsked(flush, blocks, |start|, before, client.flushes, n)
  {
    DealtExactly(blocks, start, client.written, n);
    assert blocks[..n + 1] == blocks[..n] + [block];
    PayloadsSnoc(blocks[..n], block);
    assert start + Payloads(blocks[..n + 1]) == start + Payloads(blocks[..n]) + block.payload;
    FlushedNext(
      flush, blocks, |start|, before, client.flushes, n,
      client.flushes + if flush && block.payload != [] then [|start| + |Payloads(blocks[..n + 1])|] else []);
    ok := true;
    if block.payload != [] {
      ok := client.WriteAll(block.payload);
      if ok && flush {
        ok := client.Flush();
      }
    }
  }

  /** The last flush, before the client is handed over and the end is reported. */
  method HandOver(
    client: Writer, flush: bool, ghost blocks: seq<Message>, ghost n: nat, ghost base: nat, ghost before: seq<nat>)
    returns (ok: bool)
    requires n <= |blocks| && FlushedAsAsked(flush, blocks, base, before, client.flushes, n)
    modifies client
    ensures client.written == old(client.written) && client.broken == (old(client.broken) || !ok)
    ensures ok ==> client.Synced()
    ensures if flush then PayloadsFlushed(blocks, base, client.flushes, n)
            else client.flushes == before + if ok then [|client.written|] else []
  {
    if flush {
      FlushedMore(blocks, base, client.flushes, n, |client.written|);
    }
    ok := client.Flush();
  }

  /** A sender's stream starts once and ends once. */
  lemma StreamShape(client: ClientId, stream: seq<Message>, content: seq<u8>, ok: bool)
    requires IsStream(client, stream, content, ok)
    ensures Transfer(stream)
    ensures stream[|stream| - 1].kind.End? <==> ok
    ensures forall i :: 0 <= i < |stream| ==> stream[i].client == client && Routable(stream[i])
  {
    var n := |stream| - 1;
    assert forall i :: 0 <= i < n ==> stream[i] == stream[..n][i];
  }

  lemma HeardPrefix(stream: seq<Message>, n: nat, content: seq<u8>)
    requires Payloads(stream) <= content && n <= |stream|
    ensures Payloads(stream[..n]) <= content
  {
    PayloadsPrefix(stream, n);
  }

  lemma TerminalIsLast(stream: seq<Message>, k: nat)
    requires Transfer(stream) && k < |stream| && Terminal(stream[k])
    ensures k == |stream| - 1
  {}

  /** Blocks that agree with a stream as far as they are heard. */
  lemma HeardAgrees(blocks: seq<Message>, stream: seq<Message>, content: seq<u8>, ok: bool, h: nat)
    requires h == Heard(blocks) <= |stream| && blocks[..h] == stream[..h]
    requires Transfer(stream) && stream != [] && Payloads(stream) <= content && (stream[|stream| - 1].kind.End? <==> ok)
    requires ok ==> Payloads(stream) == content
    ensures Delivered(blocks) <= content
    ensures Verdict(blocks) == Some(true) ==> ok && Delivered(blocks) == content
  {
    HeardPrefix(stream, h, content);
    if Verdict(blocks) == Some(true) {
      assert blocks[h - 1] == blocks[..h][h - 1] == stream[..h][h - 1];
      TerminalIsLast(stream, h - 1);
      assert stream[..h] == stream;
    }
  }

  lemma AbortedDelivers(heard: seq<Message>, client: ClientId, stream: seq<Message>, content: seq<u8>)
    requires Payloads(stream) <= content && heard <= stream
    ensures Payloads(heard + [AbortBlock(client)]) <= content
  {
    PayloadsSnoc(heard, AbortBlock(client));
    assert heard == stream[..|heard|];
    HeardPrefix(stream, |heard|, content);
  }

  /** Whoever loses synchronisation is told: every open transfer delivers what it has, and reports a failure. */
  lemma LossIsReported(events: seq<Event>, j: nat)
    requires j < |Trace(events)| && Trace(events)[j].open
    ensures j < |Trace(events + [Lost])|
    ensures var blocks := Trace(events + [Lost])[j].blocks;
            Verdict(blocks) == Some(false) && Delivered(blocks) == Payloads(Trace(events)[j].blocks)
  {
    var queue := Trace(events)[j];
    QueuesWellformed(events);
    TraceSnoc(events, Lost);
    var abort := AbortBlock(queue.client);
    var blocks := queue.blocks + [abort];
    assert Wellformed(queue);
    assert Trace(events + [Lost])[j].blocks == blocks;
    HeardIs(blocks, |blocks|);
    assert blocks[..|blocks|] == blocks;
    PayloadsSnoc(queue.blocks, abort);
  }

  /** The link to the sender: a queue that is a prefix of a client's stream, or was cut by a loss. */
  lemma DeliveredIsPrefix(blocks: seq<Message>, client: ClientId, stream: seq<Message>, content: seq<u8>, ok: bool)
    requires IsStream(client, stream, content, ok) && PrefixOrAborted(blocks, stream, client)
    ensures Delivered(blocks) <= content
    ensures Verdict(blocks) == Some(true) ==> ok && Delivered(blocks) == content
  {
    StreamShape(client, stream, content, ok);
    var h := Heard(blocks);
    if blocks <= stream {
      assert blocks[..h] == stream[..h];
      HeardAgrees(blocks, stream, content, ok, h);
    } else {
      var init := blocks[..|blocks| - 1];
      if h <= |init| {
        assert blocks[..h] == stream[..h];
        HeardAgrees(blocks, stream, content, ok, h);
      } else {
        assert blocks[..h] == init + [AbortBlock(client)];
        assert blocks[h - 1] == AbortBlock(client) && Verdict(blocks) == Some(false);
        AbortedDelivers(init, client, stream, content);
      }
    }
  }
}
