/**
 * Sending and receiving a file through a diode stream (src/aux/file/send.rs, src/aux/file/receive.rs):
 * two buffered copy loops, each with its own buffer size, that must compose to the identity.
 */
module FileTransfer {
  import opened Bytes
  import opened Streams
  import opened FileProtocol

  /** One call on the hasher: a whole buffer is hashed as a slice, with its length; a tail is written raw. */
  datatype Update = Whole(bytes: seq<u8>) | Raw(bytes: seq<u8>)

  /** The hash is some function of the updates made. */
  type Hash = seq<Update> -> u128

  datatype FileError = IoFailure | Truncated | InvalidName | InvalidFileSize(expected: nat, received: nat) | InvalidHash

  /** The updates for a content copied through a buffer of `size` bytes. */
  function Updates(content: seq<u8>, size: nat): seq<Update>
    decreases |content|
  {
    if content == [] || size == 0 then []
    else if |content| < size then [Raw(content)]
    else [Whole(content[..size])] + Updates(content[size..], size)
  }

  /** The updates made for the bytes left in the buffer when nothing more is read. */
  function TailUpdates(tail: seq<u8>): seq<Update> {
    if tail == [] then [] else [Raw(tail)]
  }

  /** What a copy loop carries: everything, unless its buffer is empty. */
  function Carried(content: seq<u8>, size: nat): seq<u8> {
    if size == 0 then [] else content
  }

  /** The bytes that went into the hasher. */
  function Hashed(updates: seq<Update>): seq<u8> {
    if updates == [] then [] else updates[0].bytes + Hashed(updates[1..])
  }

  /**
   * The updates hold the content, all of it and in order, whatever the buffer: whole buffers, and then the
   * tail, if there is one, written raw.
   */
  lemma {:induction false} UpdatesHoldContent(content: seq<u8>, size: nat)
    requires size > 0
    ensures Hashed(Updates(content, size)) == content
    ensures var updates := Updates(content, size);
            forall i :: 0 <= i < |updates| ==>
              if updates[i].Whole? then |updates[i].bytes| == size
              else i == |updates| - 1 && 0 < |updates[i].bytes| < size
    decreases |content|
  {
    if content == [] {
    } else if |content| < size {
      assert Updates(content, size)[1..] == [] && content + [] == content;
    } else {
      UpdatesHoldContent(content[size..], size);
      var rest := Updates(content[size..], size);
      assert Updates(content, size)[1..] == rest;
      assert content == content[..size] + content[size..];
    }
  }

  /** So the updates tell any two contents apart. */
  lemma UpdatesDiffer(a: seq<u8>, b: seq<u8>, size: nat)
    requires size > 0
    ensures Updates(a, size) == Updates(b, size) <==> a == b
  {
    UpdatesHoldContent(a, size);
    UpdatesHoldContent(b, size);
  }

  /** The footer for the updates made: zero when hashing is off. */
  function FooterFor(updates: seq<Update>, hashing: bool, hash: Hash): (s: seq<u8>)
    ensures |s| == FOOTER_SIZE
  {
    FooterBytes(if hashing then hash(updates) else 0)
  }

  /** A copy loop in progress: what is written, what is in the buffer, what is still to be read. */
  datatype Copy = Copy(done: seq<u8>, buffered: seq<u8>, rest: seq<u8>, updates: seq<Update>) {
    ghost predicate Of(content: seq<u8>, size: nat) {
      && content == done + (buffered + rest)
      && Updates(content, size) == updates + Updates(buffered + rest, size)
    }

    function Read(n: nat): Copy
      requires n <= |rest|
    {
      this.(buffered := buffered + rest[..n], rest := rest[n..])
    }

    function Flushed(): Copy {
      this.(done := done + buffered, buffered := [], updates := updates + [Whole(buffered)])
    }
  }

  lemma CopyRead(c: Copy, content: seq<u8>, size: nat, n: nat)
    requires c.Of(content, size) && n <= |c.rest|
    ensures c.Read(n).Of(content, size)
  {
    assert c.rest == c.rest[..n] + c.rest[n..];
    assert c.buffered + c.rest[..n] + c.rest[n..] == c.buffered + c.rest;
  }

  lemma CopyFlushed(c: Copy, content: seq<u8>, size: nat)
    requires c.Of(content, size) && |c.buffered| == size > 0
    ensures c.Flushed().Of(content, size)
  {
    var left := c.buffered + c.rest;
    assert left[..size] == c.buffered && left[size..] == c.rest == [] + c.rest;
    assert c.done + (c.buffered + c.rest) == c.done + c.buffered + ([] + c.rest);
    var whole, after := [Whole(c.buffered)], Updates(c.rest, size);
    assert c.updates + (whole + after) == c.updates + whole + after;
  }

  lemma CopyEnds(c: Copy, content: seq<u8>, size: nat)
    requires c.Of(content, size) && c.rest == [] && (|c.buffered| < size || c.buffered == [])
    ensures content == c.done + c.buffered
    ensures Updates(content, size) == c.updates + TailUpdates(c.buffered)
  {
    assert c.buffered + [] == c.buffered;
  }

  /**
   * One read of a copy loop. The source holds the rest of the content, and then `tail`, which the loop
   * must not read.
   */
  method ReadSome(
    source: Reader, buffer: array<u8>, cursor: nat, end: nat, ghost content: seq<u8>, ghost size: nat,
    ghost c: Copy, ghost tail: seq<u8>)
    returns (read: Result<nat, IoError>, ghost d: Copy)
    requires cursor <= end <= buffer.Length
    requires c.Of(content, size) && c.buffered == buffer[..cursor]
    requires source.rest == c.rest + tail && (tail != [] ==> end - cursor <= |c.rest|)
    modifies source, buffer
    ensures source.rest == d.rest + tail && d.Of(content, size)
    ensures d.done == c.done && d.updates == c.updates
    ensures source.broken == (old(source.broken) || read.Failure?)
    ensures read.Failure? ==> d == c
    ensures read.Success? ==>
              && read.value <= end - cursor && |d.rest| == |c.rest| - read.value
              && d.buffered == buffer[..cursor + read.value]
              && (read.value == 0 ==> cursor == end || (d.rest == [] && tail == []))
  {
    ghost var before := buffer[..cursor];
    read := source.Read(buffer, cursor, end);
    d := c;
    if read.Success? {
      ghost var n := read.value;
      assert (c.rest + tail)[..n] == c.rest[..n] && (c.rest + tail)[n..] == c.rest[n..] + tail;
      assert buffer[..cursor + n] == before + c.rest[..n];
      CopyRead(c, content, size, n);
      d := c.Read(n);
    }
  }

  /** A full buffer is written out. */
  method WriteWhole(w: Writer, buffer: seq<u8>, ghost start: seq<u8>, ghost content: seq<u8>, ghost c: Copy)
    returns (ok: bool, ghost d: Copy)
    requires c.Of(content, |buffer|) && c.buffered == buffer != []
    requires w.written == start + c.done
    modifies w
    ensures w.broken == (old(w.broken) || !ok)
    ensures start <= w.written <= start + content
    ensures d == c.Flushed() && d.Of(content, |buffer|)
    ensures ok ==> w.written == start + d.done
  {
    CopyFlushed(c, content, |buffer|);
    d := c.Flushed();
    assert start + content == start + c.done + buffer + c.rest;
    assert start + d.done == start + c.done + buffer;
    ok := w.WriteAll(buffer);
  }

  /** The bytes left in the buffer when nothing more is read are written out. */
  method WriteTail(
    w: Writer, tail: seq<u8>, updates: seq<Update>, ghost start: seq<u8>, ghost content: seq<u8>, ghost size: nat,
    ghost c: Copy)
    returns (ok: bool, all: seq<Update>)
    requires c.Of(content, size) && c.buffered == tail && c.updates == updates && c.rest == []
    requires |tail| < size || tail == []
    requires w.written == start + c.done
    modifies w
    ensures w.broken == (old(w.broken) || !ok)
    ensures start <= w.written <= start + content
    ensures all == Updates(content, size)
    ensures ok ==> w.written == start + content
  {
    CopyEnds(c, content, size);
    assert start + content == start + c.done + tail;
    all, ok := updates, true;
    if 0 < |tail| {
      all := all + [Raw(tail)];
      ok := w.WriteAll(tail);
    }
  }

  /** `send_file_aux`, from the header on. */
  method SendFile(file: Reader, diode: Writer, header: Header, size: nat, hashing: bool, hash: Hash)
    returns (r: Result<nat, FileError>)
    requires Representable(header)
    modifies file, diode
    ensures r.Success? ==> r.value == |Carried(old(file.rest), size)| && diode.Synced()
    ensures r.Success? ==> diode.written == old(diode.written) + Sent(header, old(file.rest), size, hashing, hash)
    ensures r.Failure? ==> r.error == IoFailure && (file.broken || diode.broken)
    ensures old(diode.written) <= diode.written
            <= old(diode.written) + Sent(header, old(file.rest), size, hashing, hash)
  {
    SentInOrder(diode.written, header, file.rest, size, hashing, hash);
    var ok := WriteHeader(header, diode);
    if !ok {
      return Failure(IoFailure);
    }
    r := SendContent(file, diode, size, hashing, hash);
  }

  function Sent(header: Header, content: seq<u8>, size: nat, hashing: bool, hash: Hash): seq<u8>
    requires Representable(header)
  {
    HeaderBytes(header) + (Carried(content, size) + FooterFor(Updates(content, size), hashing, hash))
  }

  lemma SentInOrder(
    start: seq<u8>, header: Header, content: seq<u8>, size: nat, hashing: bool, hash: Hash)
    requires Representable(header)
    ensures var carried := Carried(content, size);
            start + Sent(header, content, size, hashing, hash)
            == start + HeaderBytes(header) + carried + FooterFor(Updates(carried, size), hashing, hash)
  {
  }

  /** The copy loop of the sender, and the footer. */
  method SendContent(file: Reader, diode: Writer, size: nat, hashing: bool, hash: Hash)
    returns (r: Result<nat, FileError>)
    modifies file, diode
    ensures var content := Carried(old(file.rest), size);
            var goal := old(diode.written) + content + FooterFor(Updates(content, size), hashing, hash);
            && old(diode.written) <= diode.written <= goal
            && (r.Success? ==> r.value == |content| && diode.written == goal && diode.Synced())
            && (r.Failure? ==> r.error == IoFailure && (file.broken || diode.broken))
  {
    ghost var start, content := diode.written, Carried(file.rest, size);
    ghost var tail := if size == 0 then file.rest else [];
    var buffer := new u8[size](i => 0);
    var cursor: nat := 0;
    var total := 0;
    var updates: seq<Update> := [];
    ghost var c := Copy([], [], content, []);
    assert [] + content == content;
    while true
      invariant cursor < size || cursor == size == 0
      invariant c.Of(content, size) && c.buffered == buffer[..cursor] && c.updates == updates
      invariant file.rest == c.rest + tail && |c.done| == total && diode.written == start + c.done
      decreases |c.rest|
    {
      var read;
      read, c := ReadSome(file, buffer, cursor, size, content, size, c, tail);
      if read.Failure? {
        return Failure(IoFailure);
      }
      cursor := cursor + read.value;
      if read.value == 0 {
        r := SendEnd(diode, buffer[..cursor], total, updates, hashing, hash, start, content, size, c);
        return;
      }
      if cursor < size {
        continue;
      }
      total := total + size;
      updates := updates + [Whole(buffer[..])];
      var ok;
      ok, c := WriteWhole(diode, buffer[..], start, content, c);
      if !ok {
        return Failure(IoFailure);
      }
      cursor := 0;
    }
  }

  method SendEnd(
    diode: Writer, tail: seq<u8>, total: nat, updates: seq<Update>, hashing: bool, hash: Hash,
    ghost start: seq<u8>, ghost content: seq<u8>, ghost size: nat, ghost c: Copy)
    returns (r: Result<nat, FileError>)
    requires c.Of(content, size) && c.buffered == tail && c.updates == updates && c.rest == []
    requires |tail| < size || tail == []
    requires |c.done| == total && diode.written == start + c.done
    modifies diode
    ensures var goal := start + content + FooterFor(Updates(content, size), hashing, hash);
            && start <= diode.written <= goal
            && (r.Success? ==> r.value == |content| && diode.written == goal && diode.Synced())
            && (r.Failure? ==> r.error == IoFailure && diode.broken)
  {
    var ok, all := WriteTail(diode, tail, updates, start, content, size, c);
    if !ok {
      return Failure(IoFailure);
    }
    ok := diode.WriteAll(FooterFor(all, hashing, hash));
    if !ok {
      return Failure(IoFailure);
    }
    ok := diode.Flush();
    return if ok then Success(total + |tail|) else Failure(IoFailure);
  }

  /** What the receiver leaves on disk and answers, when no read or write fails. */
  datatype Outcome = Outcome(file: seq<u8>, result: Result<nat, FileError>)

  /** The part of what follows the header that is taken as content. */
  function Taken(body: seq<u8>, length: nat, size: nat): seq<u8> {
    Carried(if length <= |body| then body[..length] else body, size)
  }

  function Received(stream: seq<u8>, size: nat, hashing: bool, hash: Hash): Outcome {
    match ParseHeader(stream)
    case Failure(Broken(_)) => Outcome([], Failure(Truncated))
    case Failure(NameNotUtf8) => Outcome([], Failure(InvalidName))
    case Success((header, body)) =>
      var content := Taken(body, header.length, size);
      Outcome(content, Verdict(content, body[|content|..], header.length, size, hashing, hash))
  }

  function Verdict(content: seq<u8>, tail: seq<u8>, length: nat, size: nat, hashing: bool, hash: Hash)
    : Result<nat, FileError>
  {
    if |tail| < FOOTER_SIZE then Failure(Truncated)
    else if |content| != length then Failure(InvalidFileSize(length, |content|))
    else if hashing && ParseFooter(tail[..FOOTER_SIZE]) != hash(Updates(content, size)) then Failure(InvalidHash)
    else Success(length)
  }

  /** `receive_file`. */
  method ReceiveFile(diode: Reader, file: Writer, size: nat, hashing: bool, hash: Hash)
    returns (r: Result<nat, FileError>)
    modifies diode, file
    ensures var expected := Received(old(diode.rest), size, hashing, hash);
            && old(file.written) <= file.written <= old(file.written) + expected.file
            && (if r == Failure(IoFailure) then diode.broken || file.broken
                else file.written == old(file.written) + expected.file && r == expected.result)
            && (r.Success? ==> file.Synced())
  {
    var header := ReadHeader(diode);
    if header.Failure? {
      return Failure(if header.error == NameNotUtf8 then InvalidName
                     else if header.error.e == UnexpectedEof then Truncated else IoFailure);
    }
    r := ReceiveContent(diode, file, header.value.length, size, hashing, hash);
  }

  /** The copy loop of the receiver, and the footer. */
  method ReceiveContent(diode: Reader, file: Writer, length: nat, size: nat, hashing: bool, hash: Hash)
    returns (r: Result<nat, FileError>)
    modifies diode, file
    ensures var body := old(diode.rest);
            var content := Taken(body, length, size);
            && old(file.written) <= file.written <= old(file.written) + content
            && (if r == Failure(IoFailure) then diode.broken || file.broken
                else file.Synced() && file.written == old(file.written) + content
                     && r == Verdict(content, body[|content|..], length, size, hashing, hash))
  {
    ghost var start, content := file.written, Taken(diode.rest, length, size);
    ghost var tail := diode.rest[|content|..];
    var buffer := new u8[size](i => 0);
    var cursor: nat := 0;
    var remaining: nat := length;
    var updates: seq<Update> := [];
    ghost var c := Copy([], [], content, []);
    assert [] + content == content;
    while true
      invariant cursor < size || cursor == size == 0
      invariant c.Of(content, size) && c.buffered == buffer[..cursor] && c.updates == updates
      invariant diode.rest == c.rest + tail && file.written == start + c.done
      invariant if tail == [] then |c.rest| <= remaining else size == 0 || |c.rest| == remaining
      invariant remaining == length - (|content| - |c.rest|)
      decreases |c.rest|
    {
      var end := if remaining >= size - cursor then size else cursor + remaining;
      var read;
      read, c := ReadSome(diode, buffer, cursor, end, content, size, c, tail);
      if read.Failure? {
        return Failure(IoFailure);
      }
      if read.value == 0 {
        assert diode.rest == tail;
        r := ReceiveEnd(
          diode, file, buffer[..cursor], length, remaining, updates, hashing, hash, start, content, size, c);
        return;
      }
      remaining := remaining - read.value;
      cursor := cursor + read.value;
      if cursor < size {
        continue;
      }
      updates := updates + [Whole(buffer[..])];
      var ok;
      ok, c := WriteWhole(file, buffer[..], start, content, c);
      if !ok {
        return Failure(IoFailure);
      }
      cursor := 0;
    }
  }

  method ReceiveEnd(
    diode: Reader, file: Writer, buffered: seq<u8>, length: nat, remaining: nat, updates: seq<Update>,
    hashing: bool, hash: Hash, ghost start: seq<u8>, ghost content: seq<u8>, ghost size: nat, ghost c: Copy)
    returns (r: Result<nat, FileError>)
    requires c.Of(content, size) && c.buffered == buffered && c.updates == updates && c.rest == []
    requires |buffered| < size || buffered == []
    requires file.written == start + c.done && remaining == length - |content|
    modifies diode, file
    ensures start <= file.written <= start + content
    ensures if r == Failure(IoFailure) then diode.broken || file.broken
            else file.Synced() && file.written == start + content
                 && r == Verdict(content, old(diode.rest), length, size, hashing, hash)
  {
    var ok, all := WriteTail(file, buffered, updates, start, content, size, c);
    if !ok {
      return Failure(IoFailure);
    }
    ok := file.Flush();
    if !ok {
      return Failure(IoFailure);
    }
    var received := length - remaining;
    var footer := diode.ReadExact(FOOTER_SIZE);
    if footer.Failure? {
      return Failure(if footer.error == UnexpectedEof then Truncated else IoFailure);
    }
    if remaining != 0 {
      return Failure(InvalidFileSize(length, received));
    }
    if hashing && ParseFooter(footer.value) != hash(all) {
      return Failure(InvalidHash);
    }
    return Success(received);
  }

  lemma Parts(head: seq<u8>, content: seq<u8>, footer: seq<u8>, after: seq<u8>)
    requires |footer| == FOOTER_SIZE
    ensures head + (content + footer) + after == head + (content + footer + after)
    ensures (content + footer + after)[..|content|] == content
    ensures (content + footer + after)[|content|..] == footer + after
    ensures (footer + after)[..FOOTER_SIZE] == footer
  {
    assert content + footer + after == content + (footer + after);
  }

  /** What the receiver sees after the header. */
  lemma BodyOf(header: Header, content: seq<u8>, size: nat, hashing: bool, hash: Hash, after: seq<u8>)
    requires Representable(header) && Utf8(header.name) && size > 0
    ensures var footer := FooterFor(Updates(content, size), hashing, hash);
            && ParseHeader(Sent(header, content, size, hashing, hash) + after)
               == Success((header, content + footer + after))
            && (content + footer + after)[..|content|] == content
            && (content + footer + after)[|content|..] == footer + after
            && (footer + after)[..FOOTER_SIZE] == footer
  {
    var footer := FooterFor(Updates(content, size), hashing, hash);
    Parts(HeaderBytes(header), content, footer, after);
    HeaderRoundTrip(header, content + footer + after);
  }

  /**
   * The two ends agree on the hash exactly when they cut the content alike: with equal buffer sizes, or
   * with a content smaller than either buffer.
   */
  lemma {:induction false} UpdatesAgreeIff(content: seq<u8>, a: nat, b: nat)
    requires a > 0 && b > 0
    ensures Updates(content, a) == Updates(content, b) <==> a == b || (|content| < a && |content| < b)
  {
    if content != [] && a != b && !(|content| < a && |content| < b) {
      var x, y := Updates(content, a)[0], Updates(content, b)[0];
      if a <= |content| && b <= |content| {
        assert |x.bytes| == a && |y.bytes| == b;
      } else {
        assert x.Whole? != y.Whole?;
      }
    }
  }

  predicate AcceptedWith(header: Header, content: seq<u8>, sent: nat, received: nat, hash: Hash)
    requires Representable(header)
  {
    Received(Sent(header, content, sent, true, hash), received, true, hash).result == Success(|content|)
  }

  lemma AcceptedIffHashesAgree(header: Header, content: seq<u8>, sent: nat, received: nat, hash: Hash)
    requires Representable(header) && Utf8(header.name) && header.length == |content| && sent > 0 && received > 0
    ensures AcceptedWith(header, content, sent, received, hash)
            <==> hash(Updates(content, sent)) == hash(Updates(content, received))
  {
    FileRoundTrip(header, content, sent, received, true, true, hash, []);
    var stream := Sent(header, content, sent, true, hash);
    assert stream + [] == stream;
  }

  lemma Distinguishing(a: seq<Update>, b: seq<Update>) returns (hash: Hash)
    requires a != b
    ensures hash(a) != hash(b)
  {
    hash := updates => if updates == a then 1 else 0;
  }

  /** With hashing on at both ends, the file is accepted for every hash function exactly in those cases. */
  lemma HashAgreement(header: Header, content: seq<u8>, sent: nat, received: nat)
    requires Representable(header) && Utf8(header.name) && header.length == |content| && sent > 0 && received > 0
    ensures (forall hash: Hash :: AcceptedWith(header, content, sent, received, hash))
            <==> sent == received || (|content| < sent && |content| < received)
  {
    UpdatesAgreeIff(content, sent, received);
    if Updates(content, sent) == Updates(content, received) {
      forall hash: Hash
        ensures AcceptedWith(header, content, sent, received, hash)
      {
        AcceptedIffHashesAgree(header, content, sent, received, hash);
      }
    } else {
      var hash := Distinguishing(Updates(content, sent), Updates(content, received));
      AcceptedIffHashesAgree(header, content, sent, received, hash);
    }
  }

  /** What becomes of a whole file in every setting of hashing at the two ends. */
  lemma FileRoundTrip(
    header: Header, content: seq<u8>, sent: nat, received: nat, sender: bool, receiver: bool, hash: Hash,
    after: seq<u8>)
    requires Representable(header) && Utf8(header.name) && header.length == |content| && sent > 0 && received > 0
    ensures var footer := if sender then hash(Updates(content, sent)) else 0;
            Received(Sent(header, content, sent, sender, hash) + after, received, receiver, hash)
            == Outcome(content, if receiver && footer != hash(Updates(content, received))
                                then Failure(InvalidHash) else Success(|content|))
  {
    BodyOf(header, content, sent, sender, hash, after);
    FooterRoundTrip(if sender then hash(Updates(content, sent)) else 0);
  }

  lemma TakenOf(content: seq<u8>, footer: seq<u8>, length: nat, size: nat)
    requires size > 0 && |footer| == FOOTER_SIZE
    ensures var taken := Taken(content + footer, length, size);
            && taken == (if length <= |content| then content[..length]
                         else if length <= |content| + FOOTER_SIZE then content + footer[..length - |content|]
                         else content + footer)
            && (length <= |content| <==> |taken| == length && |content + footer| - |taken| >= FOOTER_SIZE)
  {
  }

  /** A body that lacks some of what was sent. */
  lemma TakenOfCut(body: seq<u8>, cut: seq<u8>, content: seq<u8>, footer: seq<u8>, size: nat)
    requires size > 0 && |footer| == FOOTER_SIZE
    requires body + cut == content + footer && cut != []
    ensures var taken := Taken(body, |content|, size); taken <= content && |body| - |taken| < FOOTER_SIZE
  {
    assert body == (content + footer)[..|body|];
    if |body| < |content| {
      assert body == content[..|body|];
    } else {
      assert body[..|content|] == content;
    }
  }

  /** A stream in which the content has been replaced by another of the same length, but not the footer. */
  function Altered(header: Header, content: seq<u8>, altered: seq<u8>, size: nat, hash: Hash): seq<u8>
    requires Representable(header)
  {
    HeaderBytes(header) + (altered + FooterFor(Updates(content, size), true, hash))
  }

  lemma AlteredIsHashed(header: Header, content: seq<u8>, altered: seq<u8>, size: nat, hash: Hash)
    requires Representable(header) && Utf8(header.name) && header.length == |altered| == |content| && size > 0
    ensures Received(Altered(header, content, altered, size, hash), size, true, hash)
         == Outcome(altered, if hash(Updates(content, size)) == hash(Updates(altered, size))
                             then Success(|altered|) else Failure(InvalidHash))
  {
    var footer := FooterFor(Updates(content, size), true, hash);
    HeaderRoundTrip(header, altered + footer);
    TakenOf(altered, footer, header.length, size);
    FooterRoundTrip(hash(Updates(content, size)));
    assert (altered + footer)[|altered|..] == footer == footer[..FOOTER_SIZE];
  }

  predicate AcceptedAltered(header: Header, content: seq<u8>, altered: seq<u8>, size: nat, hash: Hash)
    requires Representable(header)
  {
    Received(Altered(header, content, altered, size, hash), size, true, hash).result == Success(|altered|)
  }

  lemma AcceptedAlteredIff(header: Header, content: seq<u8>, altered: seq<u8>, size: nat, hash: Hash)
    requires Representable(header) && Utf8(header.name) && header.length == |altered| == |content| && size > 0
    ensures AcceptedAltered(header, content, altered, size, hash)
            <==> hash(Updates(content, size)) == hash(Updates(altered, size))
  {
    AlteredIsHashed(header, content, altered, size, hash);
  }

  /** With hashing on at both ends, a content is accepted by every hash function only if it was not altered. */
  lemma AlteredFile(header: Header, content: seq<u8>, altered: seq<u8>, size: nat)
    requires Representable(header) && Utf8(header.name) && header.length == |altered| == |content| && size > 0
    ensures (forall hash: Hash :: AcceptedAltered(header, content, altered, size, hash)) <==> altered == content
  {
    UpdatesDiffer(content, altered, size);
    if Updates(content, size) == Updates(altered, size) {
      forall hash: Hash
        ensures AcceptedAltered(header, content, altered, size, hash)
      {
        AcceptedAlteredIff(header, content, altered, size, hash);
      }
    } else {
      var hash := Distinguishing(Updates(content, size), Updates(altered, size));
      AcceptedAlteredIff(header, content, altered, size, hash);
    }
  }

  /** A header whose name is not UTF-8 is refused as such, with nothing written, however the stream goes on. */
  lemma BadNameIsRefused(name: seq<u8>, rest: seq<u8>, size: nat, hashing: bool, hash: Hash)
    requires |name| < 0x1_0000_0000_0000_0000 && !Utf8(name)
    ensures Pow256(8) == 0x1_0000_0000_0000_0000
    ensures Received(ToLe(|name|, 8) + name + rest, size, hashing, hash) == Outcome([], Failure(InvalidName))
  {
    Pow256Values();
    var s := ToLe(|name|, 8) + name + rest;
    LeRoundTrip(|name|, 8);
    assert s[..8] == ToLe(|name|, 8) && s[8..8 + |name|] == name;
  }

  /** What a receiver makes of a content and a footer under a header of any length. */
  ghost predicate LengthDecides(
    o: Outcome, length: nat, content: seq<u8>, footer: seq<u8>, size: nat, hashing: bool, hash: Hash)
    requires |footer| == FOOTER_SIZE
  {
    if length <= |content| then
      var taken, tail := content[..length], content[length..] + footer;
      o == Outcome(taken, if hashing && ParseFooter(tail[..FOOTER_SIZE]) != hash(Updates(taken, size))
                          then Failure(InvalidHash) else Success(length))
    else if length <= |content| + FOOTER_SIZE
    then o == Outcome(content + footer[..length - |content|], Failure(Truncated))
    else o == Outcome(content + footer, Failure(Truncated))
  }

  lemma ParsedLengthDecides(
    stream: seq<u8>, header: Header, content: seq<u8>, footer: seq<u8>, size: nat, hashing: bool, hash: Hash)
    requires size > 0 && |footer| == FOOTER_SIZE && ParseHeader(stream) == Success((header, content + footer))
    ensures LengthDecides(Received(stream, size, hashing, hash), header.length, content, footer, size, hashing, hash)
  {
    TakenOf(content, footer, header.length, size);
    if header.length <= |content| {
      assert (content + footer)[header.length..] == content[header.length..] + footer;
    }
  }

  /**
   * The header carries the length the file had when it was opened. A file that grew meanwhile is cut there,
   * and still accepted unless hashing is on and the 16 bytes that follow the cut, of the content or the
   * footer, are not the hash of what was taken. One that shrank is refused in every setting, but bytes of
   * the footer are then taken as content.
   */
  lemma LengthMismatch(
    header: Header, content: seq<u8>, sent: nat, received: nat, sender: bool, receiver: bool, hash: Hash)
    requires Representable(header) && Utf8(header.name) && sent > 0 && received > 0
    ensures LengthDecides(
              Received(Sent(header, content, sent, sender, hash), received, receiver, hash),
              header.length, content, FooterFor(Updates(content, sent), sender, hash), received, receiver, hash)
  {
    BodyOf(header, content, sent, sender, hash, []);
    var footer := FooterFor(Updates(content, sent), sender, hash);
    var stream := Sent(header, content, sent, sender, hash);
    assert stream + [] == stream && content + footer + [] == content + footer;
    ParsedLengthDecides(stream, header, content, footer, received, receiver, hash);
  }

  /** The length of the file is found wrong only at a receiver that has no buffer. */
  lemma InvalidFileSizeNeedsEmptyBuffer(stream: seq<u8>, size: nat, hashing: bool, hash: Hash)
    ensures var r := Received(stream, size, hashing, hash).result;
            var parsed := ParseHeader(stream);
            (r.Failure? && r.error.InvalidFileSize?)
            <==> size == 0 && parsed.Success? && parsed.value.0.length > 0 && |parsed.value.1| >= FOOTER_SIZE
  {
    if ParseHeader(stream).Success? {
      var (header, body) := ParseHeader(stream).value;
      var content := Taken(body, header.length, size);
      assert size > 0 && |content| < header.length ==> body[|content|..] == [];
    }
  }

  /** What parses still parses, to the same header, when more follows. */
  lemma ParseExtends(stream: seq<u8>, more: seq<u8>)
    requires ParseHeader(stream).Success?
    ensures var (header, body) := ParseHeader(stream).value;
            ParseHeader(stream + more) == Success((header, body + more))
  {
    var (header, body) := ParseHeader(stream).value;
    HeaderRoundTripBack(stream);
    assert stream + more == HeaderBytes(header) + (body + more);
    HeaderRoundTrip(header, body + more);
  }

  /** A stream cut short is never accepted, and what it leaves on disk is a prefix of the file. */
  lemma CutStreamIsRefused(
    header: Header, content: seq<u8>, sent: nat, received: nat, sender: bool, receiver: bool, hash: Hash,
    stream: seq<u8>)
    requires Representable(header) && Utf8(header.name) && header.length == |content| && sent > 0 && received > 0
    requires stream < Sent(header, content, sent, sender, hash)
    ensures Received(stream, received, receiver, hash).result == Failure(Truncated)
    ensures Received(stream, received, receiver, hash).file <= content
  {
    var whole := Sent(header, content, sent, sender, hash);
    var cut, footer := whole[|stream|..], FooterFor(Updates(content, sent), sender, hash);
    assert whole == stream + cut;
    BodyOf(header, content, sent, sender, hash, []);
    assert whole + [] == whole && content + footer + [] == content + footer;
    match ParseHeader(stream)
    case Success((h, body)) =>
      ParseExtends(stream, cut);
      TakenOfCut(body, cut, content, footer, received);
    case Failure(NameNotUtf8) => BadNameExtends(stream, cut);
    case Failure(Broken(_)) =>
  }

  /**
   * A file sent and received. The stream that reaches the receiver is what the sender wrote, even when the
   * sender failed half-way.
   */
  method Transfer(
    source: Reader, destination: Writer, header: Header, sent: nat, received: nat, sender: bool, receiver: bool,
    hash: Hash)
    returns (s: Result<nat, FileError>, r: Result<nat, FileError>)
    requires Representable(header) && Utf8(header.name) && header.length == |source.rest| && sent > 0 && received > 0
    modifies source, destination
    ensures old(destination.written) <= destination.written <= old(destination.written) + old(source.rest)
    ensures r.Success? ==> destination.written == old(destination.written) + old(source.rest)
    ensures s.Success? && !receiver ==> r == Success(header.length) || r == Failure(IoFailure)
    ensures s.Success? && sender && sent == received ==> r == Success(header.length) || r == Failure(IoFailure)
  {
    ghost var content := source.rest;
    ghost var whole := Sent(header, content, sent, sender, hash);
    var out := new Writer();
    s := SendFile(source, out, header, sent, sender, hash);
    assert [] + whole == whole;
    var diode := new Reader(out.written);
    r := ReceiveFile(diode, destination, received, receiver, hash);
    if out.written == whole {
      FileRoundTrip(header, content, sent, received, sender, receiver, hash, []);
      assert whole + [] == whole;
    } else {
      CutStreamIsRefused(header, content, sent, received, sender, receiver, hash, out.written);
    }
  }
}
