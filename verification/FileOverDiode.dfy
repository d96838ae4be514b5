/**
 * A file sent through the diode (src/aux/file/send.rs, src/aux/file/receive.rs): one end writes it to a
 * client of the diode, the other end reads what a receiving client was given.
 */
module FileOverDiode {
  import opened Bytes
  import opened Protocol
  import opened Streams
  import opened Sender
  import opened Dispatch
  import opened Pipeline
  import opened EndToEnd
  import opened FileProtocol
  import opened FileTransfer

  /** The file, as a client of the diode sends it; whole, or cut where a read or a write failed. */
  method SendOverDiode(
    file: Reader, header: Header, size: nat, hashing: bool, hash: Hash, c: ClientId, transferLength: u32, flush: bool)
    returns (s: Result<nat, FileError>, stream: seq<Message>, ok: bool, ghost client: Client)
    requires Representable(header) && transferLength > SERIALIZE_OVERHEAD
    modifies file
    ensures client.stream == stream && client.ok == ok
    ensures IsStream(c, client.stream, client.content, client.ok)
    ensures forall i :: 0 <= i < |stream| ==> Fits(stream[i], transferLength)
    ensures client.content <= Sent(header, old(file.rest), size, hashing, hash)
    ensures s.Success? ==> client.content == Sent(header, old(file.rest), size, hashing, hash)
  {
    ghost var whole := Sent(header, file.rest, size, hashing, hash);
    var socket := new Writer();
    s := SendFile(file, socket, header, size, hashing, hash);
    assert [] + whole == whole;
    var source := new Reader(socket.written);
    stream, ok, client := SendStream(source, c, transferLength, flush);
  }

  /**
   * A file that is accepted at the far end of the diode is the file that was sent; whatever is written is an
   * initial part of it. This holds in every tame run of the diode, whatever was lost or failed on the way.
   */
  method ReceiveOverDiode(
    ghost sys: System, ghost steps: seq<Step>, queue: Queue, patience: nat, flush: bool, destination: Writer,
    ghost header: Header, ghost content: seq<u8>, ghost sent: nat, ghost sender: bool,
    received: nat, receiver: bool, hash: Hash)
    returns (reported: Option<bool>, r: Result<nat, FileError>)
    requires Sensible(sys) && Legal(sys, Init(sys), steps) && AllTame(sys, Init(sys), steps)
    requires Exec(sys, Init(sys), steps).receiving.Some?
    requires queue in Trace(Exec(sys, Init(sys), steps).receiving.value.events)
    requires Representable(header) && Utf8(header.name) && header.length == |content| && sent > 0 && received > 0
    requires queue.client in sys.clients ==>
               sys.clients[queue.client].content <= Sent(header, content, sent, sender, hash)
    modifies destination
    ensures old(destination.written) <= destination.written <= old(destination.written) + content
    ensures r.Success? ==> destination.written == old(destination.written) + content
  {
    var socket := new Writer();
    reported := WriteStream(sys, steps, queue, patience, flush, socket);
    assert [] + sys.clients[queue.client].content == sys.clients[queue.client].content;
    ghost var whole := Sent(header, content, sent, sender, hash);
    var diode := new Reader(socket.written);
    r := ReceiveFile(diode, destination, received, receiver, hash);
    WholeOrCut(socket.written, header, content, sent, sender, received, receiver, hash);
  }

  /** What the receiver makes of any part of what was sent. */
  lemma WholeOrCut(
    stream: seq<u8>, header: Header, content: seq<u8>, sent: nat, sender: bool, received: nat, receiver: bool,
    hash: Hash)
    requires Representable(header) && Utf8(header.name) && header.length == |content| && sent > 0 && received > 0
    requires stream <= Sent(header, content, sent, sender, hash)
    ensures var o := FileTransfer.Received(stream, received, receiver, hash);
            o.file <= content && (o.result.Success? ==> o.file == content)
  {
    var whole := Sent(header, content, sent, sender, hash);
    if stream == whole {
      FileRoundTrip(header, content, sent, received, sender, receiver, hash, []);
      assert whole + [] == whole;
    } else {
      CutStreamIsRefused(header, content, sent, received, sender, receiver, hash, stream);
    }
  }
}
