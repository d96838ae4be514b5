/** Block layout and RaptorQ size arithmetic (src/protocol.rs). */
module Protocol {
  import opened Bytes

  const PACKET_HEADER_SIZE := 20 + 8
  const RAPTORQ_ALIGNMENT := 8
  const RAPTORQ_HEADER_SIZE := 4
  const SERIALIZE_OVERHEAD := 4 + 1 + 4

  // ---------------------------------------------------------------------------------------------
  // Block layout
  // ---------------------------------------------------------------------------------------------

  type ClientId = u32

  /** `Unknown` stands for every byte that is not one of the five identifiers. */
  datatype BlockType = Heartbeat | Start | Data | Abort | End | Unknown(code: u8)

  /** The logical content of a block; a block built without data has an empty payload. */
  datatype Message = Message(kind: BlockType, client: ClientId, payload: seq<u8>)

  function TypeCode(kind: BlockType): u8 {
    match kind
    case Heartbeat => 0
    case Start => 1
    case Data => 2
    case Abort => 3
    case End => 4
    case Unknown(code) => code
  }

  function TypeOf(code: u8): BlockType {
    match code
    case 0 => Heartbeat
    case 1 => Start
    case 2 => Data
    case 3 => Abort
    case 4 => End
    case _ => Unknown(code)
  }

  function ClientIdOf(block: seq<u8>): ClientId
    requires |block| >= SERIALIZE_OVERHEAD
  {
    Pow256Values();
    FromLe(block[0..4])
  }

  function BlockTypeOf(block: seq<u8>): BlockType
    requires |block| >= SERIALIZE_OVERHEAD
  {
    TypeOf(block[4])
  }

  function PayloadLen(block: seq<u8>): u32
    requires |block| >= SERIALIZE_OVERHEAD
  {
    Pow256Values();
    FromLe(block[5..9])
  }

  /** The bytes on which none of the accessors panics. */
  predicate WellFormed(block: seq<u8>) {
    |block| >= SERIALIZE_OVERHEAD && SERIALIZE_OVERHEAD + PayloadLen(block) <= |block|
  }

  function PayloadOf(block: seq<u8>): seq<u8>
    requires WellFormed(block)
  {
    block[SERIALIZE_OVERHEAD..SERIALIZE_OVERHEAD + PayloadLen(block)]
  }

  /** Everything the receiver reads back out of a block. */
  function Parse(block: seq<u8>): Message
    requires WellFormed(block)
  {
    Message(BlockTypeOf(block), ClientIdOf(block), PayloadOf(block))
  }

  /** A message that the sender may hand to the block constructor. */
  predicate Fits(m: Message, transferLength: u32) {
    !m.kind.Unknown? && SERIALIZE_OVERHEAD + |m.payload| <= transferLength
  }

  function Zeros(n: nat): (s: seq<u8>)
    ensures |s| == n && forall i :: 0 <= i < n ==> s[i] == 0
  {
    seq(n, i => 0)
  }

  /** The part of a block before its padding: little-endian client, type, little-endian length, payload. */
  function Head(m: Message): (s: seq<u8>)
    requires |m.payload| < 0x1_0000_0000
    ensures |s| == SERIALIZE_OVERHEAD + |m.payload|
  {
    Pow256Values();
    ToLe(m.client, 4) + [TypeCode(m.kind)] + ToLe(|m.payload|, 4) + m.payload
  }

  /** The bytes of a block, padded with zeros. */
  function BlockBytes(m: Message, transferLength: u32): seq<u8>
    requires Fits(m, transferLength)
  {
    Head(m) + Zeros(transferLength - SERIALIZE_OVERHEAD - |m.payload|)
  }

  /** Whatever follows it, the head of a block reads back as its message. */
  lemma HeadParses(m: Message, padding: seq<u8>)
    requires |m.payload| < 0x1_0000_0000 && !m.kind.Unknown?
    ensures WellFormed(Head(m) + padding) && Parse(Head(m) + padding) == m
  {
    Pow256Values();
    var b := Head(m) + padding;
    assert b[0..4] == ToLe(m.client, 4);
    LeRoundTrip(m.client, 4);
    assert b[5..9] == ToLe(|m.payload|, 4);
    LeRoundTrip(|m.payload|, 4);
    assert b[9..9 + |m.payload|] == m.payload;
  }

  lemma BlockRoundTrip(m: Message, transferLength: u32)
    requires Fits(m, transferLength)
    ensures |BlockBytes(m, transferLength)| == transferLength
    ensures WellFormed(BlockBytes(m, transferLength))
    ensures Parse(BlockBytes(m, transferLength)) == m
    ensures forall i :: SERIALIZE_OVERHEAD + |m.payload| <= i < transferLength
                        ==> BlockBytes(m, transferLength)[i] == 0
  {
    HeadParses(m, Zeros(transferLength - SERIALIZE_OVERHEAD - |m.payload|));
  }

  /** The wire format: what stands in every byte of a block. */
  predicate LaidOut(block: seq<u8>, kind: BlockType, client: ClientId, payload: seq<u8>) {
    && |block| >= 5
    && block[0] == client % 256 && block[1] == client / 0x100 % 256
    && block[2] == client / 0x1_0000 % 256 && block[3] == client / 0x100_0000 % 256
    && (match kind
        case Heartbeat => block[4] == 0
        case Start => block[4] == 1
        case Data => block[4] == 2
        case Abort => block[4] == 3
        case End => block[4] == 4
        case Unknown(code) => block[4] == code)
    && (|block| >= 9 ==>
          && block[5] == |payload| % 256 && block[6] == |payload| / 0x100 % 256
          && block[7] == |payload| / 0x1_0000 % 256 && block[8] == |payload| / 0x100_0000 % 256)
    && (forall i :: 0 <= i < |payload| && 9 + i < |block| ==> block[9 + i] == payload[i])
    && (forall i :: 9 + |payload| <= i < |block| ==> block[i] == 0)
  }

  lemma HeadLaidOut(m: Message, n: nat)
    requires |m.payload| < 0x1_0000_0000
    ensures LaidOut(Head(m) + Zeros(n), m.kind, m.client, m.payload)
  {
    Pow256Values();
    var b, client, length := Head(m) + Zeros(n), ToLe(m.client, 4), ToLe(|m.payload|, 4);
    ToLeIsLittleEndian(m.client, 4);
    LittleEndianBytes(client, m.client);
    ToLeIsLittleEndian(|m.payload|, 4);
    LittleEndianBytes(length, |m.payload|);
    assert b[..4] == client && b[5..9] == length;
    assert b[5] == length[0] && b[6] == length[1] && b[7] == length[2] && b[8] == length[3];
  }

  /** Four bytes, the least significant first. */
  function InFours(a: int, b: int, c: int, d: int): int {
    a + 0x100 * b + 0x1_0000 * c + 0x100_0000 * d
  }

  /** What the accessors read, on any bytes. */
  lemma AccessorsRead(block: seq<u8>)
    requires |block| >= 9
    ensures ClientIdOf(block) == InFours(block[0], block[1], block[2], block[3])
    ensures PayloadLen(block) == InFours(block[5], block[6], block[7], block[8])
    ensures BlockTypeOf(block).Heartbeat? <==> block[4] == 0
    ensures BlockTypeOf(block).Start? <==> block[4] == 1
    ensures BlockTypeOf(block).Data? <==> block[4] == 2
    ensures BlockTypeOf(block).Abort? <==> block[4] == 3
    ensures BlockTypeOf(block).End? <==> block[4] == 4
    ensures WellFormed(block) <==> 9 + PayloadLen(block) <= |block|
    ensures WellFormed(block) ==> PayloadOf(block) == block[9..9 + PayloadLen(block)]
  {
    FourBytes(block[0..4]);
    FourBytes(block[5..9]);
  }

  lemma FourBytes(s: seq<u8>)
    requires |s| == 4
    ensures FromLe(s) == InFours(s[0], s[1], s[2], s[3])
  {
    var t, u, v := s[1..], s[2..], s[3..];
    assert t[1..] == u && u[1..] == v && v[1..] == [];
    assert FromLe(v) == v[0] + 256 * FromLe([]);
    assert FromLe(u) == u[0] + 256 * FromLe(v);
    assert FromLe(t) == t[0] + 256 * FromLe(u);
  }

  datatype BlockError = DataLength

  /**
   * `Block::new`: fills a vector of `transferLength` bytes. Data that does not fit is not refused: the
   * vector then grows to some larger capacity. Without data the fields are set in place, which panics on
   * fewer than five bytes.
   */
  method NewBlock(kind: BlockType, transferLength: u32, client: ClientId, data: Option<seq<u8>>)
    returns (r: Result<seq<u8>, BlockError>)
    requires !kind.Unknown?
    requires data.None? ==> transferLength >= 5
    ensures r.Failure? <==> data.Some? && |data.value| >= 0x1_0000_0000
    ensures r.Success? ==>
              var m := Message(kind, client, if data.Some? then data.value else []);
              && (Fits(m, transferLength) ==> r.value == BlockBytes(m, transferLength))
              && (data.None? ==> |r.value| == transferLength)
              && (data.Some? ==> |r.value| >= transferLength && |r.value| >= |Head(m)|)
              && (if |r.value| >= SERIALIZE_OVERHEAD then WellFormed(r.value) && Parse(r.value) == m
                  else r.value[..5] == Head(m)[..5])
              && LaidOut(r.value, kind, client, m.payload)
  {
    match data
    case None =>
      var content := EmptyBlock(kind, transferLength, client);
      r := Success(content);
    case Some(payload) =>
      if |payload| >= 0x1_0000_0000 {
        return Failure(DataLength);
      }
      ghost var m := Message(kind, client, payload);
      Pow256Values();
      var content := ToLe(client, 4);
      content := content + [TypeCode(kind)];
      content := content + ToLe(|payload|, 4);
      content := content + payload;
      assert content == Head(m);
      var capacity: nat := transferLength;
      if |content| > capacity {
        capacity :| capacity >= |content|;
      }
      content := content + Zeros(capacity - |content|);
      HeadParses(m, Zeros(capacity - |Head(m)|));
      HeadLaidOut(m, capacity - |Head(m)|);
      r := Success(content);
  }

  /** A block without data: zeros, with the client and the type set in place. */
  method EmptyBlock(kind: BlockType, transferLength: u32, client: ClientId) returns (content: seq<u8>)
    requires !kind.Unknown? && transferLength >= 5
    ensures var m := Message(kind, client, []);
            && |content| == transferLength
            && (if transferLength < SERIALIZE_OVERHEAD then content[..5] == Head(m)[..5]
                else content == BlockBytes(m, transferLength) && WellFormed(content) && Parse(content) == m)
            && LaidOut(content, kind, client, [])
  {
    ghost var m := Message(kind, client, []);
    Pow256Values();
    var bytes := ToLe(client, 4);
    content := Zeros(transferLength);
    content := content[0 := bytes[0]];
    content := content[1 := bytes[1]];
    content := content[2 := bytes[2]];
    content := content[3 := bytes[3]];
    content := content[4 := TypeCode(kind)];
    assert content == bytes + [TypeCode(kind)] + Zeros(transferLength - 5);
    EmptyHead(m, transferLength - 5);
    if transferLength >= SERIALIZE_OVERHEAD {
      HeadParses(m, Zeros(transferLength - 9));
      HeadLaidOut(m, transferLength - 9);
    } else {
      HeadLaidOut(m, 0);
      assert content[..5] == (Head(m) + Zeros(0))[..5];
    }
  }

  /** A head without payload ends in four zeros, which continue into the padding. */
  lemma EmptyHead(m: Message, n: nat)
    requires m.payload == []
    ensures Pow256(4) == 0x1_0000_0000
    ensures Head(m)[..5] == ToLe(m.client, 4) + [TypeCode(m.kind)]
    ensures n >= 4 ==> ToLe(m.client, 4) + [TypeCode(m.kind)] + Zeros(n) == Head(m) + Zeros(n - 4)
  {
    Pow256Values();
    ZeroLe();
    var front := ToLe(m.client, 4) + [TypeCode(m.kind)];
    assert Head(m) == front + [0, 0, 0, 0];
    if n >= 4 {
      assert Zeros(n) == [0, 0, 0, 0] + Zeros(n - 4);
      assert front + Zeros(n) == front + [0, 0, 0, 0] + Zeros(n - 4);
    }
  }

  lemma ZeroLe()
    ensures Pow256(4) > 0 && ToLe(0, 4) == [0, 0, 0, 0]
  {
    assert ToLe(0, 0) == [];
    assert ToLe(0, 1) == [0] + ToLe(0, 0);
    assert ToLe(0, 2) == [0] + ToLe(0, 1);
    assert ToLe(0, 3) == [0] + ToLe(0, 2);
  }

  // ---------------------------------------------------------------------------------------------
  // Sizes
  // ---------------------------------------------------------------------------------------------

  datatype RaptorQ = RaptorQ(
    maxPacketSize: u16, symbolCount: u16, transferLength: u32, nbRepairPackets: u16, minNbRepairPackets: u16)

  datatype SizeError = SymbolCount | NbRepairPackets | MinNbRepairPackets

  /** Subtraction on 16 bits, which wraps in a release build. */
  function WrappingSub16(x: u16, y: u16): u16 {
    if y <= x then x - y else x - y + 0x1_0000
  }

  /** The largest multiple of the alignment within the datagram less its headers. */
  function MaxPacketSize(mtu: u16): u16 {
    WrappingSub16(mtu, PACKET_HEADER_SIZE + RAPTORQ_HEADER_SIZE) / RAPTORQ_ALIGNMENT * RAPTORQ_ALIGNMENT
  }

  /** Packets in `percentage` percent of a block; the `u32` product wraps in a release build. */
  function RepairCount(transferLength: u32, percentage: u32, maxPacketSize: u16): nat
    requires maxPacketSize > 0
  {
    (transferLength / 100 * percentage) % 0x1_0000_0000 / maxPacketSize
  }

  /** Everything that follows from the packet size and the number of symbols. */
  function SizesOf(size: u16, count: u16, repair: u32, minRepair: u32): Result<RaptorQ, SizeError>
    requires size > 0
  {
    ProductBelow(count, size);
    var length: u32 := count * size;
    var nb := RepairCount(length, repair, size);
    if nb >= 0x1_0000 then Failure(NbRepairPackets) else
    var minNb := RepairCount(length, minRepair, size);
    if minNb >= 0x1_0000 then Failure(MinNbRepairPackets) else
    Success(RaptorQ(size, count, length, if nb < minNb then minNb else nb, minNb))
  }

  /** The sizes for a given packet size. */
  function SizesFor(size: u16, blockSize: u32, repair: u32, minRepair: u32): Result<RaptorQ, SizeError>
    requires size > 0
  {
    var count := blockSize / size;
    if count >= 0x1_0000 then Failure(SymbolCount) else SizesOf(size, count, repair, minRepair)
  }

  function Sizes(mtu: u16, blockSize: u32, repair: u32, minRepair: u32): Result<RaptorQ, SizeError>
    requires MaxPacketSize(mtu) > 0
  {
    SizesFor(MaxPacketSize(mtu), blockSize, repair, minRepair)
  }

  lemma ProductBelow(count: u16, size: u16)
    ensures 0 <= count * size < 0x1_0000_0000
  {
    MulMonotone(0, count, size);
    MulMonotone(count, 0xFFFF, size);
  }

  lemma PacketSizeInSteps(mtu: u16)
    ensures var room := WrappingSub16(WrappingSub16(mtu, PACKET_HEADER_SIZE), RAPTORQ_HEADER_SIZE);
            room - room % RAPTORQ_ALIGNMENT == MaxPacketSize(mtu)
  {}

  /**
   * `RaptorQ::new`. An MTU from 32 to 39 leaves no room for an aligned packet, and the division by its
   * size panics.
   */
  method NewRaptorQ(mtu: u16, blockSize: u32, repair: u32, minRepair: u32)
    returns (r: Result<RaptorQ, SizeError>)
    requires MaxPacketSize(mtu) > 0
    ensures r == Sizes(mtu, blockSize, repair, minRepair)
    ensures repair <= 100 && minRepair <= 100 ==> FitsIfItCan(r, MaxPacketSize(mtu), blockSize, repair, minRepair)
  {
    var maxPacketSize := WrappingSub16(WrappingSub16(mtu, PACKET_HEADER_SIZE), RAPTORQ_HEADER_SIZE);
    maxPacketSize := maxPacketSize - maxPacketSize % RAPTORQ_ALIGNMENT;
    PacketSizeInSteps(mtu);
    SizesFit(maxPacketSize, blockSize, repair, minRepair);
    r := SizesOfPacket(maxPacketSize, blockSize, repair, minRepair);
  }

  /** The rest of `RaptorQ::new`, once the packet size is known. */
  method SizesOfPacket(maxPacketSize: u16, blockSize: u32, repair: u32, minRepair: u32)
    returns (r: Result<RaptorQ, SizeError>)
    requires maxPacketSize > 0
    ensures r == SizesFor(maxPacketSize, blockSize, repair, minRepair)
  {
    var symbolCount := blockSize / maxPacketSize;
    if symbolCount >= 0x1_0000 { return Failure(SymbolCount); }
    ProductBelow(symbolCount, maxPacketSize);
    var transferLength: u32 := maxPacketSize * symbolCount;
    var nbRepairPackets := RepairCount(transferLength, repair, maxPacketSize);
    if nbRepairPackets >= 0x1_0000 { return Failure(NbRepairPackets); }
    var minNbRepairPackets := RepairCount(transferLength, minRepair, maxPacketSize);
    if minNbRepairPackets >= 0x1_0000 { return Failure(MinNbRepairPackets); }
    if nbRepairPackets < minNbRepairPackets {
      nbRepairPackets := minNbRepairPackets;
    }
    return Success(RaptorQ(maxPacketSize, symbolCount, transferLength, nbRepairPackets, minNbRepairPackets));
  }

  /** `min_nb_packets`: a `u16` sum, which wraps in a release build. */
  function MinNbPackets(r: RaptorQ): u16 {
    (r.symbolCount + r.minNbRepairPackets) % 0x1_0000
  }

  function NbPackets(r: RaptorQ): u32 {
    r.symbolCount + r.nbRepairPackets
  }

  lemma DivideMonotone(a: nat, b: nat, m: nat)
    requires m > 0 && a <= b
    ensures a / m <= b / m
  {
    assert a / m * m <= a && b < (b / m + 1) * m;
    MulCancel(a / m, b / m, m);
  }

  lemma DivideExact(count: nat, size: nat)
    requires size > 0
    ensures count * size / size == count
  {
    DivideUnique(count * size, size, count, 0);
  }

  /** A percentage of a length never exceeds the length, so the 32-bit product does not wrap. */
  lemma ShareBound(length: nat, low: nat, high: nat)
    requires low <= high <= 100
    ensures length / 100 * low <= length / 100 * high <= length
  {
    MulMonotone(low, high, length / 100);
    MulMonotone(high, 100, length / 100);
  }

  lemma RepairMonotone(length: u32, low: u32, high: u32, size: u16)
    requires size > 0 && low <= high <= 100
    ensures RepairCount(length, high, size) == length / 100 * high / size
    ensures RepairCount(length, low, size) <= RepairCount(length, high, size)
  {
    ShareBound(length, low, high);
    DivideMonotone(length / 100 * low, length / 100 * high, size);
  }

  /** Up to 100 percent there are at most as many repair packets as symbols. */
  lemma RepairBound(length: u32, count: u16, size: u16, percentage: u32)
    requires size > 0 && percentage <= 100 && length == count * size
    ensures RepairCount(length, percentage, size) <= count
  {
    ShareBound(length, percentage, 100);
    DivideMonotone(length / 100 * percentage, length, size);
    DivideExact(count, size);
  }

  /** The symbol count is the number of whole packets in a block. */
  lemma CountExact(blockSize: nat, size: nat)
    requires size > 0
    ensures blockSize - size < blockSize / size * size <= blockSize
    ensures blockSize / size >= 1 <==> blockSize >= size
  {
    assert blockSize == size * (blockSize / size) + blockSize % size;
    if blockSize >= size {
      DivideMonotone(size, blockSize, size);
      DivideExact(1, size);
    }
  }

  lemma SizesOfExact(size: u16, count: u16, repair: u32, minRepair: u32)
    requires size > 0 && repair <= 100 && minRepair <= 100
    ensures SizesOf(size, count, repair, minRepair).Success?
    ensures var r := SizesOf(size, count, repair, minRepair).value;
            && r.maxPacketSize == size && r.symbolCount == count && r.transferLength == count * size
            && r.minNbRepairPackets == RepairCount(r.transferLength, minRepair, size)
            && r.nbRepairPackets >= RepairCount(r.transferLength, repair, size)
            && r.minNbRepairPackets <= r.nbRepairPackets <= count
            && Repaired(r, repair, minRepair)
  {
    ProductBelow(count, size);
    RepairMonotone(count * size, 0, repair, size);
    RepairMonotone(count * size, 0, minRepair, size);
    RepairBound(count * size, count, size, repair);
    RepairBound(count * size, count, size, minRepair);
  }

  /**
   * From 40 on, a packet fills the datagram up to its headers and the alignment. Below 32 the subtraction
   * wraps, and the packet is larger than any datagram of that size.
   */
  lemma PacketSizeExact(mtu: u16)
    ensures MaxPacketSize(mtu) % 8 == 0
    ensures MaxPacketSize(mtu) > 0 <==> !(32 <= mtu < 40)
    ensures mtu >= 40 ==> mtu - 40 < MaxPacketSize(mtu) <= mtu - 32
    ensures mtu < 32 ==> mtu + 0xFFD8 < MaxPacketSize(mtu) <= mtu + 0xFFE0
  {}

  /** A block of whole packets, the largest within the requested size, with at most as many repair packets. */
  predicate Fitting(r: RaptorQ, size: u16, blockSize: u32)
    requires size > 0
  {
    && r.maxPacketSize == size && r.symbolCount == blockSize / size
    && r.transferLength == r.symbolCount * size
    && blockSize - size < r.transferLength <= blockSize
    && (r.symbolCount >= 1 <==> blockSize >= size)
    && r.minNbRepairPackets <= r.nbRepairPackets <= r.symbolCount
  }

  /** The repair packets: floored shares of the block, in whole packets, and at least the minimal ones. */
  predicate Repaired(r: RaptorQ, repair: u32, minRepair: u32)
    requires r.maxPacketSize > 0
  {
    var wanted, minimal := r.transferLength / 100 * repair / r.maxPacketSize,
                           r.transferLength / 100 * minRepair / r.maxPacketSize;
    r.minNbRepairPackets == minimal && r.nbRepairPackets == (if wanted < minimal then minimal else wanted)
  }

  /** Construction fails exactly when the symbol count does not fit in 16 bits. */
  predicate FitsIfItCan(
    r: Result<RaptorQ, SizeError>, size: u16, blockSize: u32, repair: u32, minRepair: u32)
    requires size > 0
  {
    && (r.Success? <==> blockSize / size < 0x1_0000)
    && (r.Success? ==> Fitting(r.value, size, blockSize) && Repaired(r.value, repair, minRepair))
  }

  lemma SizesFit(size: u16, blockSize: u32, repair: u32, minRepair: u32)
    requires size > 0
    ensures repair <= 100 && minRepair <= 100 ==>
              FitsIfItCan(SizesFor(size, blockSize, repair, minRepair), size, blockSize, repair, minRepair)
  {
    if repair <= 100 && minRepair <= 100 {
      SizesExact(size, blockSize, repair, minRepair);
    }
  }

  /**
   * Percentages up to 100: construction fails exactly when the symbol count does not fit, and a block
   * is the largest multiple of the packet size within the requested size.
   */
  lemma SizesExact(size: u16, blockSize: u32, repair: u32, minRepair: u32)
    requires size > 0 && repair <= 100 && minRepair <= 100
    ensures FitsIfItCan(SizesFor(size, blockSize, repair, minRepair), size, blockSize, repair, minRepair)
    ensures SizesFor(size, blockSize, repair, minRepair).Success? ==>
              var r := SizesFor(size, blockSize, repair, minRepair).value;
              && r.minNbRepairPackets == RepairCount(r.transferLength, minRepair, size)
              && r.nbRepairPackets >= RepairCount(r.transferLength, repair, size)
  {
    CountExact(blockSize, size);
    if blockSize / size < 0x1_0000 {
      SizesOfExact(size, blockSize / size, repair, minRepair);
    }
  }

  /** The sum that the threshold is, before it is cut to 16 bits. */
  function Required(r: RaptorQ): nat {
    r.symbolCount + r.minNbRepairPackets
  }

  /**
   * The threshold is zero exactly when a block has no symbol, because the requested size is below one
   * packet, or when the sum is 65536; and it is the sum exactly when that fits in 16 bits.
   */
  lemma ThresholdZeroIff(mtu: u16, blockSize: u32, repair: u32, minRepair: u32)
    requires MaxPacketSize(mtu) > 0 && Sizes(mtu, blockSize, repair, minRepair).Success?
    ensures var r := Sizes(mtu, blockSize, repair, minRepair).value;
            && (MinNbPackets(r) == 0 <==> blockSize < MaxPacketSize(mtu) || Required(r) == 0x1_0000)
            && (MinNbPackets(r) == Required(r) <==> Required(r) < 0x1_0000)
  {
    ZeroFor(MaxPacketSize(mtu), blockSize, repair, minRepair);
  }

  lemma ZeroFor(size: u16, blockSize: u32, repair: u32, minRepair: u32)
    requires size > 0 && SizesFor(size, blockSize, repair, minRepair).Success?
    ensures var r := SizesFor(size, blockSize, repair, minRepair).value;
            && (MinNbPackets(r) == 0 <==> blockSize < size || Required(r) == 0x1_0000)
            && (MinNbPackets(r) == Required(r) <==> Required(r) < 0x1_0000)
  {
    var r := SizesFor(size, blockSize, repair, minRepair).value;
    CountExact(blockSize, size);
    assert r.symbolCount == 0 <==> blockSize < size;
    if r.symbolCount == 0 {
      NoRepair(minRepair, size);
    }
  }

  lemma NoRepair(percentage: u32, size: u16)
    requires size > 0
    ensures RepairCount(0, percentage, size) == 0
  {}

  /**
   * What the receiver waits for, against what the sender emits, for all settings that both ends accept;
   * `diode-send` builds its sizes with a minimum of zero. A block none of whose packets is lost reaches the
   * threshold exactly when the minimal repair packets are no more than the sender's, or the 16-bit sum
   * wraps. It always does when the minimal percentage is at most the other, and that at most 100.
   */
  lemma ThresholdReachable(mtu: u16, blockSize: u32, repair: u32, minRepair: u32)
    requires MaxPacketSize(mtu) > 0
    requires Sizes(mtu, blockSize, repair, 0).Success? && Sizes(mtu, blockSize, repair, minRepair).Success?
    ensures var sender := Sizes(mtu, blockSize, repair, 0).value;
            var receiver := Sizes(mtu, blockSize, repair, minRepair).value;
            && sender.transferLength == receiver.transferLength
            && (MinNbPackets(receiver) <= NbPackets(sender)
                <==> receiver.minNbRepairPackets <= sender.nbRepairPackets || Required(receiver) >= 0x1_0000)
            && (minRepair <= repair <= 100 ==> receiver.minNbRepairPackets <= sender.nbRepairPackets)
  {
    ReachableFor(MaxPacketSize(mtu), blockSize, repair, minRepair);
  }

  lemma ReachableFor(size: u16, blockSize: u32, repair: u32, minRepair: u32)
    requires size > 0
    requires SizesFor(size, blockSize, repair, 0).Success? && SizesFor(size, blockSize, repair, minRepair).Success?
    ensures var sender := SizesFor(size, blockSize, repair, 0).value;
            var receiver := SizesFor(size, blockSize, repair, minRepair).value;
            && sender.transferLength == receiver.transferLength
            && (MinNbPackets(receiver) <= NbPackets(sender)
                <==> receiver.minNbRepairPackets <= sender.nbRepairPackets || Required(receiver) >= 0x1_0000)
            && (minRepair <= repair <= 100 ==> receiver.minNbRepairPackets <= sender.nbRepairPackets)
  {
    var sender := SizesFor(size, blockSize, repair, 0).value;
    if minRepair <= repair <= 100 {
      SizesExact(size, blockSize, repair, 0);
      SizesExact(size, blockSize, repair, minRepair);
      RepairMonotone(sender.transferLength, minRepair, repair, size);
    }
  }

  /** A setting that both ends accept and in which no block of 504 symbols ever reaches the threshold of 756. */
  lemma ThresholdOutOfReach()
    ensures var sender, receiver := Sizes(1500, 734_928, 2, 0), Sizes(1500, 734_928, 2, 50);
            && sender.Success? && receiver.Success?
            && MinNbPackets(receiver.value) > NbPackets(sender.value)
  {
    assert MaxPacketSize(1500) == 1464;
    assert RepairCount(734_928, 2, 1464) < RepairCount(734_928, 50, 1464);
  }

  /** Which conversion fails, for all settings; the products are those of 32 bits. */
  lemma SizesFail(mtu: u16, blockSize: u32, repair: u32, minRepair: u32)
    requires MaxPacketSize(mtu) > 0
    ensures var size := MaxPacketSize(mtu);
            var r, count := Sizes(mtu, blockSize, repair, minRepair), blockSize / size;
            && (r == Failure(SymbolCount) <==> count >= 0x1_0000)
            && (r == Failure(NbRepairPackets) <==>
                  count < 0x1_0000 && (count * size / 100 * repair) % 0x1_0000_0000 / size >= 0x1_0000)
            && (r == Failure(MinNbRepairPackets) <==>
                  count < 0x1_0000 && (count * size / 100 * repair) % 0x1_0000_0000 / size < 0x1_0000
                  && (count * size / 100 * minRepair) % 0x1_0000_0000 / size >= 0x1_0000)
  {}
}
