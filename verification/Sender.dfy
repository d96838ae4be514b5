/**
 * Cutting a client's bytes into blocks (src/send/client.rs, src/send/server.rs) and numbering the
 * blocks of all clients (src/send/ordering.rs).
 */
module Sender {
  import opened Bytes
  import opened Protocol
  import opened Streams
  import opened Turnstile

  /** The payloads of a list of blocks, concatenated. */
  function Payloads(messages: seq<Message>): seq<u8> {
    if messages == [] then [] else
    Payloads(messages[..|messages| - 1]) + messages[|messages| - 1].payload
  }

  lemma PayloadsSnoc(messages: seq<Message>, m: Message)
    ensures Payloads(messages + [m]) == Payloads(messages) + m.payload
  {
    assert (messages + [m])[..|messages|] == messages;
  }

  lemma {:induction false} PayloadsPrefix(messages: seq<Message>, n: nat)
    requires n <= |messages|
    ensures Payloads(messages[..n]) <= Payloads(messages)
  {
    if n == |messages| {
      assert messages[..n] == messages;
    } else {
      PayloadsPrefix(messages[..|messages| - 1], n);
      assert messages[..|messages| - 1][..n] == messages[..n];
    }
  }

  /** A start block followed by data blocks, all of one client. */
  predicate Opened(client: ClientId, messages: seq<Message>) {
    && messages != [] && messages[0] == Message(Start, client, [])
    && forall i :: 1 <= i < |messages| ==> messages[i].kind == Data && messages[i].client == client
  }

  /** The blocks of a whole transfer: `ok` when the client's bytes were read to their end. */
  ghost predicate IsStream(client: ClientId, messages: seq<Message>, content: seq<u8>, ok: bool) {
    && |messages| >= 2
    && Opened(client, messages[..|messages| - 1])
    && var last := messages[|messages| - 1];
       && last.client == client
       && if ok
          then last.kind == End && Payloads(messages) == content
          else last.kind == Abort && last.payload == [] && Payloads(messages) <= content
  }

  /** Sizes of the data blocks, given the largest payload and whether every read is sent at once. */
  predicate Sized(messages: seq<Message>, maxDataLen: nat, flush: bool) {
    forall i :: 0 <= i < |messages| && messages[i].kind == Data ==>
      if flush then 1 <= |messages[i].payload| <= maxDataLen else |messages[i].payload| == maxDataLen
  }

  lemma MulSuccessor(a: nat, b: nat)
    ensures a * (b + 1) == a * b + a
  {}

  /** Everything read is in the blocks sent, in the buffer, or still to be read. */
  ghost predicate Sending(client: ClientId, sent: seq<Message>, buffered: seq<u8>, rest: seq<u8>, content: seq<u8>) {
    Opened(client, sent) && Payloads(sent) + buffered + rest == content
  }

  /** A data block with the whole buffer. */
  lemma SendingData(client: ClientId, sent: seq<Message>, buffered: seq<u8>, rest: seq<u8>, content: seq<u8>)
    requires Sending(client, sent, buffered, rest, content)
    ensures Sending(client, sent + [Message(Data, client, buffered)], [], rest, content)
  {
    var block := Message(Data, client, buffered);
    PayloadsSnoc(sent, block);
    assert Payloads(sent + [block]) + [] + rest == Payloads(sent) + buffered + rest;
  }

  /** The end block, once there is nothing left to read. */
  lemma SendingEnd(client: ClientId, sent: seq<Message>, buffered: seq<u8>, content: seq<u8>)
    requires Sending(client, sent, buffered, [], content)
    ensures IsStream(client, sent + [Message(End, client, buffered)], content, true)
  {
    var block := Message(End, client, buffered);
    PayloadsSnoc(sent, block);
    assert (sent + [block])[..|sent|] == sent;
    assert Payloads(sent) + buffered + [] == Payloads(sent) + buffered;
  }

  /** One read into the rest of the buffer. */
  method ReadMore(source: Reader, buffer: array<u8>, cursor: nat)
    returns (read: Result<nat, IoError>, ghost bytes: seq<u8>)
    requires cursor < buffer.Length
    modifies source, buffer
    ensures source.broken == (old(source.broken) || read.Failure?)
    ensures source.chunks == old(source.chunks) + if bytes == [] then [] else [bytes]
    ensures old(source.rest) == bytes + source.rest
    ensures read.Failure? ==> bytes == []
    ensures read.Success? ==>
              && read.value == |bytes| <= buffer.Length - cursor
              && buffer[..cursor + |bytes|] == old(buffer[..cursor]) + bytes
              && (bytes == [] ==> source.rest == [])
  {
    ghost var rest := source.rest;
    read := source.Read(buffer, cursor, buffer.Length);
    if read.Failure? {
      bytes := [];
    } else {
      bytes := rest[..read.value];
      assert rest == bytes + rest[read.value..];
      assert buffer[..cursor + read.value] == buffer[..cursor] + buffer[cursor..cursor + read.value];
    }
  }

  /** With flushing, the blocks after the start block carry what was read, one block for every read. */
  ghost predicate Prompt(client: ClientId, blocks: seq<Message>, chunks: seq<seq<u8>>) {
    && |blocks| == 1 + |chunks|
    && forall i :: 0 <= i < |chunks| ==> blocks[1 + i] == Message(Data, client, chunks[i])
  }

  lemma PromptNext(client: ClientId, blocks: seq<Message>, chunks: seq<seq<u8>>, bytes: seq<u8>)
    requires Prompt(client, blocks, chunks)
    ensures Prompt(client, blocks + [Message(Data, client, bytes)], chunks + [bytes])
  {}

  /** What holds between two reads: `chunks` were read, and less than a buffer is held back; nothing, with flushing. */
  ghost predicate Going(
    client: ClientId, maxDataLen: nat, flush: bool, content: seq<u8>, sent: seq<Message>, buffered: seq<u8>,
    rest: seq<u8>, chunks: seq<seq<u8>>)
  {
    && |buffered| < maxDataLen && Sized(sent, maxDataLen, flush)
    && Sending(client, sent, buffered, rest, content)
    && (flush ==> buffered == [] && Prompt(client, sent, chunks))
  }

  lemma GoingStart(client: ClientId, maxDataLen: nat, flush: bool, content: seq<u8>)
    requires maxDataLen > 0
    ensures Going(client, maxDataLen, flush, content, [Message(Start, client, [])], [], content, [])
  {
    var start := Message(Start, client, []);
    PayloadsSnoc([], start);
    assert [] + [start] == [start] && Payloads([start]) == [] && [] + [] + content == content;
  }

  /** A read that does not fill the buffer. */
  lemma GoingMore(
    client: ClientId, maxDataLen: nat, flush: bool, content: seq<u8>, sent: seq<Message>, buffered: seq<u8>,
    rest: seq<u8>, chunks: seq<seq<u8>>, bytes: seq<u8>)
    requires Going(client, maxDataLen, flush, content, sent, buffered, bytes + rest, chunks)
    requires |buffered + bytes| < maxDataLen && !flush
    ensures Going(client, maxDataLen, flush, content, sent, buffered + bytes, rest, chunks + [bytes])
  {
    assert Payloads(sent) + (buffered + bytes) + rest == Payloads(sent) + buffered + (bytes + rest);
  }

  /** Of a read that fills the buffer, or with flushing of any, a block is made. */
  lemma GoingData(
    client: ClientId, maxDataLen: nat, flush: bool, content: seq<u8>, sent: seq<Message>, buffered: seq<u8>,
    rest: seq<u8>, chunks: seq<seq<u8>>, bytes: seq<u8>)
    requires Going(client, maxDataLen, flush, content, sent, buffered, bytes + rest, chunks) && bytes != []
    requires |buffered + bytes| <= maxDataLen && (flush || |buffered + bytes| == maxDataLen)
    ensures Going(client, maxDataLen, flush, content, sent + [Message(Data, client, buffered + bytes)], [], rest,
                  chunks + [bytes])
  {
    assert Payloads(sent) + (buffered + bytes) + rest == Payloads(sent) + buffered + (bytes + rest);
    SendingData(client, sent, buffered + bytes, rest, content);
    if flush {
      assert buffered + bytes == bytes;
      PromptNext(client, sent, chunks, bytes);
    }
  }

  /** A read fails: less than one buffer is held back. */
  lemma GoingFails(
    client: ClientId, maxDataLen: nat, flush: bool, content: seq<u8>, sent: seq<Message>, buffered: seq<u8>,
    rest: seq<u8>, chunks: seq<seq<u8>>)
    requires Going(client, maxDataLen, flush, content, sent, buffered, rest, chunks)
    ensures Opened(client, sent) && Payloads(sent) <= content && |content| - |rest| - |Payloads(sent)| < maxDataLen
    ensures Handled(client, maxDataLen, flush, sent, chunks, false)
  {
    assert content == Payloads(sent) + (buffered + rest);
  }

  /** What a whole call leaves. */
  ghost predicate Handled(
    client: ClientId, maxDataLen: nat, flush: bool, sent: seq<Message>, chunks: seq<seq<u8>>, ok: bool)
  {
    && Sized(sent, maxDataLen, flush) && sent != []
    && (flush ==> Prompt(client, if ok then sent[..|sent| - 1] else sent, chunks))
    && (ok ==> |sent[|sent| - 1].payload| < maxDataLen && (flush ==> sent[|sent| - 1].payload == []))
  }

  lemma GoingEnd(
    client: ClientId, maxDataLen: nat, flush: bool, content: seq<u8>, sent: seq<Message>, buffered: seq<u8>,
    chunks: seq<seq<u8>>)
    requires Going(client, maxDataLen, flush, content, sent, buffered, [], chunks)
    ensures Handled(client, maxDataLen, flush, sent + [Message(End, client, buffered)], chunks, true)
    ensures IsStream(client, sent + [Message(End, client, buffered)], content, true)
  {
    SendingEnd(client, sent, buffered, content);
    assert (sent + [Message(End, client, buffered)])[..|sent|] == sent;
  }

  /**
   * `client::start`: one client, until its end of stream or a read error; `chunks` is what the reads
   * delivered. On an error, and so before any read, less than one buffer is held back.
   */
  method SendClient(source: Reader, client: ClientId, maxDataLen: nat, flush: bool)
    returns (sent: seq<Message>, ok: bool, ghost chunks: seq<seq<u8>>)
    requires maxDataLen > 0
    modifies source
    ensures source.broken == (old(source.broken) || !ok)
    ensures source.chunks == old(source.chunks) + chunks
    ensures if ok then IsStream(client, sent, old(source.rest), true)
            else Opened(client, sent) && Payloads(sent) <= old(source.rest)
                 && |old(source.rest)| - |source.rest| - |Payloads(sent)| < maxDataLen
    ensures Handled(client, maxDataLen, flush, sent, chunks, ok)
  {
    ghost var content := source.rest;
    sent, chunks := [Message(Start, client, [])], [];
    var buffer := new u8[maxDataLen](i => 0);
    var cursor: nat := 0;
    GoingStart(client, maxDataLen, flush, content);
    assert buffer[..cursor] == [];
    while true
      invariant cursor < maxDataLen && source.broken == old(source.broken)
      invariant Going(client, maxDataLen, flush, content, sent, buffer[..cursor], source.rest, chunks)
      invariant source.chunks == old(source.chunks) + chunks
      decreases |source.rest|
    {
      ghost var before := buffer[..cursor];
      var read;
      ghost var bytes;
      read, bytes := ReadMore(source, buffer, cursor);
      if read.Failure? {
        GoingFails(client, maxDataLen, flush, content, sent, before, source.rest, chunks);
        return sent, false, chunks;
      }
      cursor := cursor + read.value;
      if 0 < read.value && !(flush || cursor >= buffer.Length) {
        GoingMore(client, maxDataLen, flush, content, sent, before, source.rest, chunks, bytes);
        chunks := chunks + [bytes];
        continue;
      }
      var block := Message(if read.value == 0 then End else Data, client, buffer[..cursor]);
      if read.value == 0 {
        GoingEnd(client, maxDataLen, flush, content, sent, before, chunks);
        return sent + [block], true, chunks;
      }
      GoingData(client, maxDataLen, flush, content, sent, before, source.rest, chunks, bytes);
      sent := sent + [block];
      chunks := chunks + [bytes];
      cursor := 0;
      assert buffer[..cursor] == [];
    }
  }

  /** `server::start` for one client: an error is followed by an abort block. */
  method ServeClient(source: Reader, client: ClientId, maxDataLen: nat, flush: bool)
    returns (sent: seq<Message>, ok: bool, ghost chunks: seq<seq<u8>>)
    requires maxDataLen > 0
    modifies source
    ensures source.broken == (old(source.broken) || !ok)
    ensures source.chunks == old(source.chunks) + chunks
    ensures IsStream(client, sent, old(source.rest), ok) && Handled(client, maxDataLen, flush, sent, chunks, true)
    ensures !ok ==> |old(source.rest)| - |source.rest| - |Payloads(sent)| < maxDataLen
  {
    sent, ok, chunks := SendClient(source, client, maxDataLen, flush);
    if !ok {
      var abort := Message(Abort, client, []);
      PayloadsSnoc(sent, abort);
      assert (sent + [abort])[..|sent|] == sent;
      sent := sent + [abort];
    }
  }

  /** Without flushing, a transfer of `n` bytes takes `n / maxDataLen + 2` blocks, however the reads were split. */
  lemma StreamLength(messages: seq<Message>, client: ClientId, content: seq<u8>, maxDataLen: nat)
    requires IsStream(client, messages, content, true) && Sized(messages, maxDataLen, false)
    requires |messages[|messages| - 1].payload| < maxDataLen
    ensures |messages| == |content| / maxDataLen + 2
  {
    var n := |messages| - 1;
    assert forall i :: 0 <= i < n ==> messages[..n][i] == messages[i];
    DataLength(messages[..n], client, maxDataLen);
    DivideUnique(|content|, maxDataLen, n - 1, |messages[n].payload|);
  }

  lemma {:induction false} DataLength(messages: seq<Message>, client: ClientId, maxDataLen: nat)
    requires Opened(client, messages) && Sized(messages, maxDataLen, false)
    ensures |Payloads(messages)| == maxDataLen * (|messages| - 1)
  {
    var n := |messages| - 1;
    if n == 0 {
      assert messages == [] + [messages[0]];
      PayloadsSnoc([], messages[0]);
    } else {
      DataLength(messages[..n], client, maxDataLen);
      assert messages == messages[..n] + [messages[n]];
      PayloadsSnoc(messages[..n], messages[n]);
      MulSuccessor(maxDataLen, n - 1);
    }
  }

  /** Every block of a stream fits in a block of `maxDataLen` bytes of payload plus the overhead. */
  lemma StreamFits(messages: seq<Message>, client: ClientId, content: seq<u8>, ok: bool, maxDataLen: nat, flush: bool,
                   transferLength: u32)
    requires IsStream(client, messages, content, ok) && Sized(messages, maxDataLen, flush)
    requires |messages[|messages| - 1].payload| < maxDataLen && maxDataLen + SERIALIZE_OVERHEAD == transferLength
    ensures forall i :: 0 <= i < |messages| ==> Fits(messages[i], transferLength)
  {}

  /** `ordering::start`: numbers blocks in arrival order with a wrapping byte. */
  method Order(blocks: seq<seq<u8>>) returns (items: seq<Item<seq<u8>>>)
    ensures |items| == |blocks|
    ensures forall k :: 0 <= k < |blocks| ==> items[k] == Item(Id(k), blocks[k])
  {
    var id: u8 := 0;
    items := [];
    for k := 0 to |blocks|
      invariant |items| == k && id == Id(k)
      invariant forall i :: 0 <= i < k ==> items[i] == Item(Id(i), blocks[i])
    {
      items := items + [Item(id, blocks[k])];
      RingArithmetic(id, 1);
      id := WrappingAdd(id, 1);
    }
  }
}
