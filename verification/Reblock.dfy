/**
 * The worker that groups packets by block (src/receive/reblock.rs).
 *
 * The code keeps 256 slots, a flag per slot and a wrapping current identifier. `Window` is the
 * meaning of that state: the 127 slots from the current identifier on, in order, and nothing else.
 */
module Reblock {
  import opened Bytes

  const WINDOW_WIDTH := 127

  /** An encoding packet: its payload identifier (source block number, symbol) and its data. */
  datatype Packet = Packet(id: u8, symbol: nat, data: seq<u8>)

  datatype Reassembled = Error | Block(id: u8, packets: seq<Packet>)

  datatype Window = Window(cur: u8, slots: seq<seq<Packet>>)

  function EmptySlots(n: nat): (s: seq<seq<Packet>>)
    ensures |s| == n
  {
    seq(n, i => [])
  }

  /** The 127 slots of the ring that start at `cur`. */
  function SlotsFrom(data: seq<seq<Packet>>, cur: u8): (s: seq<seq<Packet>>)
    requires |data| == 256
    ensures |s| == WINDOW_WIDTH
  {
    seq(WINDOW_WIDTH, i requires 0 <= i < WINDOW_WIDTH => data[WrappingAdd(cur, i)])
  }

  function FreshWindow(cur: u8): Window {
    Window(cur, EmptySlots(WINDOW_WIDTH))
  }

  /** The packets that carry identifier `id`, in arrival order. */
  function WithId(packets: seq<Packet>, id: u8): seq<Packet> {
    if packets == [] then [] else
    WithId(packets[..|packets| - 1], id)
    + (if packets[|packets| - 1].id == id then [packets[|packets| - 1]] else [])
  }

  lemma WithIdSnoc(packets: seq<Packet>, p: Packet, id: u8)
    ensures WithId(packets + [p], id) == if p.id == id then WithId(packets, id) + [p] else WithId(packets, id)
  {
    assert (packets + [p])[..|packets|] == packets;
  }

  /** Every packet with the identifier counts as often as it arrived, and no other packet does. */
  lemma {:induction false} WithIdHasAll(packets: seq<Packet>, id: u8, p: Packet)
    ensures multiset(WithId(packets, id))[p] == if p.id == id then multiset(packets)[p] else 0
  {
    if packets == [] {
    } else {
      var init, last := packets[..|packets| - 1], packets[|packets| - 1];
      WithIdHasAll(init, id, p);
      WithIdSnoc(init, last, id);
      assert packets == init + [last];
    }
  }

  /** Every slot of the window receives its own packets; every other packet is dropped. */
  function Fill(w: Window, packets: seq<Packet>): (f: Window)
    requires |w.slots| == WINDOW_WIDTH
    ensures f.cur == w.cur && |f.slots| == |w.slots|
  {
    Window(w.cur, seq(|w.slots|, i requires 0 <= i < |w.slots| =>
      w.slots[i] + WithId(packets, WrappingAdd(w.cur, i))))
  }

  /** How many slots at the head of the window have reached the threshold. */
  function Ready(slots: seq<seq<Packet>>, threshold: nat): (k: nat)
    ensures k <= |slots|
    ensures forall i :: 0 <= i < k ==> |slots[i]| >= threshold
    ensures k < |slots| ==> |slots[k]| < threshold
  {
    if slots == [] || |slots[0]| < threshold then 0 else 1 + Ready(slots[1..], threshold)
  }

  /** The window after its first `k` slots have left and as many empty ones have entered. */
  function Slide(w: Window, k: nat): Window
    requires |w.slots| == WINDOW_WIDTH && k <= WINDOW_WIDTH
  {
    Window(WrappingAdd(w.cur, k), w.slots[k..] + EmptySlots(k))
  }

  function Emitted(w: Window, k: nat): (out: seq<Reassembled>)
    requires |w.slots| == WINDOW_WIDTH && k <= WINDOW_WIDTH
    ensures |out| == k
  {
    seq(k, i requires 0 <= i < k => Block(WrappingAdd(w.cur, i), w.slots[i]))
  }

  lemma {:induction false} ReadyUnique(slots: seq<seq<Packet>>, threshold: nat, k: nat)
    requires k <= |slots|
    requires forall i :: 0 <= i < k ==> |slots[i]| >= threshold
    requires k < |slots| ==> |slots[k]| < threshold
    ensures k == Ready(slots, threshold)
  {
    if slots != [] && |slots[0]| >= threshold {
      ReadyUnique(slots[1..], threshold, k - 1);
    }
  }

  /** Identifiers of the ring, seen from a window that has moved by `k`. */
  lemma OffsetMoves(id: u8, cur: u8, k: nat)
    requires k <= WINDOW_WIDTH
    ensures Offset(id, WrappingAdd(cur, k)) < WINDOW_WIDTH <==> k <= Offset(id, cur) < WINDOW_WIDTH + k
    ensures k <= Offset(id, cur) ==> Offset(id, WrappingAdd(cur, k)) == Offset(id, cur) - k
  {}

  /** Exactly one identifier lies `j` ahead of `cur`. */
  lemma OffsetInverse(cur: u8, j: u8)
    ensures Offset(WrappingAdd(cur, j), cur) == j
    ensures forall id: u8 :: Offset(id, cur) == j <==> id == WrappingAdd(cur, j)
  {}

  /** Every slot inside the window has received its packets; the others are empty. */
  ghost predicate Filled(before: seq<seq<Packet>>, after: seq<seq<Packet>>, cur: u8, packets: seq<Packet>) {
    && |before| == |after| == 256
    && forall id: u8 :: after[id] == if Offset(id, cur) < WINDOW_WIDTH then before[id] + WithId(packets, id) else []
  }

  /** The effect of one more packet on the slots. */
  lemma FilledStep(before: seq<seq<Packet>>, after: seq<seq<Packet>>, cur: u8, packets: seq<Packet>, i: nat)
    requires i < |packets| && Filled(before, after, cur, packets[..i])
    ensures var p := packets[i];
            Filled(before, if Offset(p.id, cur) < WINDOW_WIDTH then after[p.id := after[p.id] + [p]] else after,
                   cur, packets[..i + 1])
  {
    var p := packets[i];
    assert packets[..i + 1] == packets[..i] + [p];
    forall id: u8
      ensures WithId(packets[..i] + [p], id)
              == if p.id == id then WithId(packets[..i], id) + [p] else WithId(packets[..i], id)
    {
      WithIdSnoc(packets[..i], p, id);
    }
  }

  lemma SortedIsFilled(
    before: seq<seq<Packet>>, after: seq<seq<Packet>>, ignore: seq<bool>, cur: u8, packets: seq<Packet>)
    requires Filled(before, after, cur, packets) && |ignore| == 256
    requires forall id: u8 :: ignore[id] <==> Offset(id, cur) >= WINDOW_WIDTH
    ensures Emitting(after, ignore, Offsets(cur), Fill(Window(cur, SlotsFrom(before, cur)), packets).slots, 0)
  {
    var slots := Fill(Window(cur, SlotsFrom(before, cur)), packets).slots;
    forall id: u8 | Offset(id, cur) < WINDOW_WIDTH
      ensures before[id] + WithId(packets, id) == slots[Offset(id, cur)]
    {
      OffsetInverse(cur, Offset(id, cur));
    }
    FilledIsEmitting(before, after, ignore, Offsets(cur), slots, cur, packets);
  }

  /** Distances of all 256 identifiers from `cur`. */
  function Offsets(cur: u8): (off: seq<u8>)
    ensures |off| == 256 && forall id: u8 :: off[id] == Offset(id, cur)
  {
    seq(256, id requires 0 <= id < 256 => Offset(id, cur))
  }

  /**
   * The ring after `k` emissions: the first `k` slots are gone and `k` empty ones are open. A slot is
   * known by its distance `off` from the identifier at which the emissions began.
   */
  ghost predicate Emitting(data: seq<seq<Packet>>, ignore: seq<bool>, off: seq<u8>, slots: seq<seq<Packet>>, k: nat) {
    && |data| == |ignore| == |off| == 256 && |slots| == WINDOW_WIDTH && k <= WINDOW_WIDTH
    && (forall id: u8 :: ignore[id] <==> !(k <= off[id] < WINDOW_WIDTH + k))
    && (forall id: u8 :: data[id] == if k <= off[id] < WINDOW_WIDTH then slots[off[id]] else [])
  }

  lemma FilledIsEmitting(before: seq<seq<Packet>>, after: seq<seq<Packet>>, ignore: seq<bool>, off: seq<u8>,
                         slots: seq<seq<Packet>>, cur: u8, packets: seq<Packet>)
    requires Filled(before, after, cur, packets) && |ignore| == |off| == 256 && |slots| == WINDOW_WIDTH
    requires forall id: u8 :: off[id] == Offset(id, cur)
    requires forall id: u8 :: ignore[id] <==> Offset(id, cur) >= WINDOW_WIDTH
    requires forall id: u8 ::
               Offset(id, cur) < WINDOW_WIDTH ==> before[id] + WithId(packets, id) == slots[Offset(id, cur)]
    ensures Emitting(after, ignore, off, slots, 0)
  {}

  /** What the loop does with the head of the window, and why the slot it opens is empty. */
  lemma EmittingStep(data: seq<seq<Packet>>, ignore: seq<bool>, off: seq<u8>, slots: seq<seq<Packet>>, k: nat,
                     cur: u8, opposite: u8)
    requires Emitting(data, ignore, off, slots, k) && data[cur] != []
    requires forall id: u8 :: off[id] == k <==> id == cur
    requires forall id: u8 :: off[id] == k + WINDOW_WIDTH <==> id == opposite
    ensures k < WINDOW_WIDTH && data[cur] == slots[k]
    ensures data[cur := []][opposite] == []
    ensures Emitting(data[cur := []], ignore[cur := true][opposite := false], off, slots, k + 1)
  {
    assert off[cur] == k && off[opposite] == k + WINDOW_WIDTH;
  }

  lemma Opposite(base: u8, k: nat, cur: u8)
    requires k <= WINDOW_WIDTH && cur == WrappingAdd(base, k)
    ensures forall id: u8 :: Offsets(base)[id] == k <==> id == cur
    ensures forall id: u8 :: Offsets(base)[id] == k + WINDOW_WIDTH <==> id == WrappingAdd(cur, WINDOW_WIDTH)
  {
    OffsetInverse(base, k);
    assert WrappingAdd(cur, WINDOW_WIDTH) == WrappingAdd(base, (k + WINDOW_WIDTH));
    OffsetInverse(base, k + WINDOW_WIDTH);
  }

  lemma EmittingEnds(data: seq<seq<Packet>>, ignore: seq<bool>, w: Window, k: nat, cur: u8)
    requires Emitting(data, ignore, Offsets(w.cur), w.slots, k) && cur == WrappingAdd(w.cur, k)
    ensures forall id: u8 :: ignore[id] <==> Offset(id, cur) >= WINDOW_WIDTH
    ensures Window(cur, SlotsFrom(data, cur)) == Slide(w, k)
    ensures k < WINDOW_WIDTH ==> data[cur] == w.slots[k]
  {
    forall id: u8
      ensures ignore[id] <==> Offset(id, cur) >= WINDOW_WIDTH
    {
      OffsetMoves(id, w.cur, k);
    }
    forall i: u8 | i < WINDOW_WIDTH
      ensures data[WrappingAdd(cur, i)] == Slide(w, k).slots[i]
    {
      OffsetAhead(w.cur, k, cur, i);
    }
    assert data[WrappingAdd(cur, 0)] == Slide(w, k).slots[0];
  }

  lemma OffsetAhead(base: u8, k: nat, cur: u8, i: u8)
    requires k <= WINDOW_WIDTH && i < WINDOW_WIDTH && cur == WrappingAdd(base, k)
    ensures Offsets(base)[WrappingAdd(cur, i)] == k + i
  {
    assert WrappingAdd(cur, i) == WrappingAdd(base, (k + i));
    OffsetInverse(base, k + i);
  }

  /** The ring, its current identifier and the blocks sent after `k` emissions from `w`. */
  ghost predicate EmittedSoFar(data: seq<seq<Packet>>, ignore: seq<bool>, cur: u8, w: Window, k: nat, threshold: nat) {
    && Emitting(data, ignore, Offsets(w.cur), w.slots, k)
    && cur == WrappingAdd(w.cur, k)
    && forall i :: 0 <= i < k ==> |w.slots[i]| >= threshold
  }

  /** One iteration of the emission loop, on values. */
  lemma EmitStep(data: seq<seq<Packet>>, ignore: seq<bool>, w: Window, k: nat, cur: u8, opposite: u8, threshold: nat)
    requires EmittedSoFar(data, ignore, cur, w, k, threshold) && |data[cur]| >= threshold > 0
    requires opposite == WrappingAdd(cur, WINDOW_WIDTH)
    ensures k < WINDOW_WIDTH && opposite != cur && data[opposite] == []
    ensures EmittedSoFar(
              data[cur := []], ignore[cur := true][opposite := false], WrappingAdd(cur, 1), w, k + 1, threshold)
    ensures Emitted(w, k + 1) == Emitted(w, k) + [Block(cur, data[cur])]
  {
    Opposite(w.cur, k, cur);
    EmittingStep(data, ignore, Offsets(w.cur), w.slots, k, cur, opposite);
    EmittedGrows(w, k);
  }

  lemma EmittedGrows(w: Window, k: nat)
    requires |w.slots| == WINDOW_WIDTH && k < WINDOW_WIDTH
    ensures Emitted(w, k + 1) == Emitted(w, k) + [Block(WrappingAdd(w.cur, k), w.slots[k])]
  {}

  class Worker {
    const minNbPackets: nat
    const blocksData: array<seq<Packet>>
    const blocksIgnore: array<bool>
    var curId: u8
    var reset: bool
    /** The identifier the decoders dispatch next, shared with them under a mutex. */
    var blockToDispatch: u8
    /** Everything sent to the decoding queue. */
    var toDecode: seq<Reassembled>
    /** Whether a datagram has been received since the worker started. */
    ghost var started: bool

    /** Ignored slots are empty, and the others are the 127 slots from the current identifier on. */
    ghost predicate Valid()
      reads this, blocksData, blocksIgnore
    {
      && blocksData.Length == 256 && blocksIgnore.Length == 256
      && minNbPackets > 0
      && (forall id: u8 :: blocksIgnore[id] ==> blocksData[id] == [])
      && (if started
          then (forall id: u8 :: blocksIgnore[id] <==> Offset(id, curId) >= WINDOW_WIDTH)
               && |blocksData[curId]| < minNbPackets
          else reset && forall id: u8 :: blocksIgnore[id])
    }

    ghost function CurrentWindow(): (w: Window)
      requires Valid()
      reads this, blocksData, blocksIgnore
      ensures |w.slots| == WINDOW_WIDTH
    {
      Window(curId, SlotsFrom(blocksData[..], curId))
    }

    constructor (minNbPackets: nat)
      requires minNbPackets > 0
      ensures Valid() && !started && toDecode == [] && fresh(blocksData) && fresh(blocksIgnore)
      ensures this.minNbPackets == minNbPackets
    {
      this.minNbPackets := minNbPackets;
      blocksData := new seq<Packet>[256](i => []);
      blocksIgnore := new bool[256](i => true);
      curId, blockToDispatch := 0, 0;
      reset, started := true, false;
      toDecode := [];
    }

    /** A timeout forces a reset; the test for damaged slots never succeeds, so no error is sent. */
    method Timeout()
      requires Valid()
      modifies this`reset, this`toDecode
      ensures Valid() && reset && toDecode == old(toDecode)
      ensures CurrentWindow() == old(CurrentWindow())
    {
      reset := true;
      var damaged := false;
      for id := 0 to 256
        invariant damaged ==> exists i: u8 :: blocksIgnore[i] && blocksData[i] != []
      {
        if blocksIgnore[id] && blocksData[id] != [] {
          damaged := true;
        }
      }
      toDecode := toDecode + if damaged then [Error] else [];
    }

    /** The state in which a batch is sorted into slots: the old window, or a fresh one after a reset. */
    ghost function Opening(first: u8): (w: Window)
      requires Valid()
      reads this, blocksData, blocksIgnore
      ensures |w.slots| == WINDOW_WIDTH
    {
      if reset then FreshWindow(first) else CurrentWindow()
    }

    /**
     * One batch of datagrams. The window is filled; then exactly the ready blocks at its head are
     * sent, in order, and the window slides past them. No `Error` is ever sent.
     */
    method Receive(datagrams: seq<Packet>)
      requires Valid() && datagrams != []
      modifies this, blocksData, blocksIgnore
      ensures Valid() && started && !reset
      ensures blockToDispatch == if old(reset) then datagrams[0].id else old(blockToDispatch)
      ensures var filled := Fill(old(Opening(datagrams[0].id)), datagrams);
              var k := Ready(filled.slots, minNbPackets);
              && CurrentWindow() == Slide(filled, k)
              && toDecode == old(toDecode) + Emitted(filled, k)
    {
      if reset {
        Reopen(datagrams[0].id);
      }
      ghost var data := blocksData[..];
      Sort(datagrams);
      SortedIsFilled(data, blocksData[..], blocksIgnore[..], curId, datagrams);
      EmitReady(Fill(Window(curId, SlotsFrom(data, curId)), datagrams));
    }

    /** The part of a reset that clears every slot and opens the window at the first identifier seen. */
    method Reopen(first: u8)
      requires Valid()
      modifies this, blocksData, blocksIgnore
      ensures Valid() && started && !reset && blockToDispatch == first
      ensures CurrentWindow() == FreshWindow(first)
      ensures toDecode == old(toDecode)
    {
      reset := false;
      Clear();
      curId := first;
      blockToDispatch := first;
      OpenWindow(first);
      started := true;
      assert SlotsFrom(blocksData[..], first) == EmptySlots(WINDOW_WIDTH);
    }

    /** Stops ignoring the slots from `first` up to, and not including, the one 127 further on. */
    method OpenWindow(first: u8)
      requires blocksIgnore.Length == 256 && forall id: u8 :: blocksIgnore[id]
      modifies blocksIgnore
      ensures forall id: u8 :: blocksIgnore[id] <==> Offset(id, first) >= WINDOW_WIDTH
    {
      var id: u8 := first;
      var last: u8 := WrappingAdd(id, WINDOW_WIDTH);
      ghost var off := Offsets(first);
      ghost var k := 0;
      while id != last
        invariant k <= WINDOW_WIDTH && id == WrappingAdd(first, k)
        invariant forall i: u8 :: blocksIgnore[i] <==> off[i] >= k
        decreases WINDOW_WIDTH - k
      {
        Opposite(first, k, id);
        blocksIgnore[id] := false;
        id := WrappingAdd(id, 1);
        k := k + 1;
      }
    }

    method Clear()
      requires blocksData.Length == 256 && blocksIgnore.Length == 256
      modifies blocksData, blocksIgnore
      ensures forall id: u8 :: blocksData[id] == [] && blocksIgnore[id]
    {
      for i := 0 to 256
        invariant forall id :: 0 <= id < i ==> blocksData[id] == [] && blocksIgnore[id]
      {
        blocksData[i] := [];
        blocksIgnore[i] := true;
      }
    }

    /** Pushes every packet whose slot is not ignored. */
    method Sort(datagrams: seq<Packet>)
      requires Valid() && started
      modifies blocksData
      ensures Filled(old(blocksData[..]), blocksData[..], curId, datagrams)
    {
      for i := 0 to |datagrams|
        invariant Filled(old(blocksData[..]), blocksData[..], curId, datagrams[..i])
      {
        var packet := datagrams[i];
        FilledStep(old(blocksData[..]), blocksData[..], curId, datagrams, i);
        if !blocksIgnore[packet.id] {
          blocksData[packet.id] := blocksData[packet.id] + [packet];
        }
      }
      assert datagrams[..|datagrams|] == datagrams;
    }

    /** Sends blocks from the head of the window `w` while they have enough packets. */
    method EmitReady(ghost w: Window)
      requires Emitting(blocksData[..], blocksIgnore[..], Offsets(w.cur), w.slots, 0) && curId == w.cur
      requires minNbPackets > 0 && started && !reset
      modifies this, blocksData, blocksIgnore
      ensures Valid() && started && !reset && blockToDispatch == old(blockToDispatch)
      ensures var k := Ready(w.slots, minNbPackets);
              && CurrentWindow() == Slide(w, k)
              && toDecode == old(toDecode) + Emitted(w, k)
    {
      ghost var k := EmitWhileReady(w);
      EmittingEnds(blocksData[..], blocksIgnore[..], w, k, curId);
      ReadyUnique(w.slots, minNbPackets, k);
    }

    /** The emission loop. At most 127 blocks leave in one batch. */
    method EmitWhileReady(ghost w: Window) returns (ghost k: nat)
      requires Emitting(blocksData[..], blocksIgnore[..], Offsets(w.cur), w.slots, 0) && curId == w.cur
      requires minNbPackets > 0 && !reset
      modifies this`curId, this`toDecode, this`reset, blocksData, blocksIgnore
      ensures Emitting(blocksData[..], blocksIgnore[..], Offsets(w.cur), w.slots, k)
      ensures !reset && curId == WrappingAdd(w.cur, k) && |blocksData[curId]| < minNbPackets
      ensures forall i :: 0 <= i < k ==> |w.slots[i]| >= minNbPackets
      ensures toDecode == old(toDecode) + Emitted(w, k)
    {
      k := 0;
      while |blocksData[curId]| >= minNbPackets
        invariant !reset && EmittedSoFar(blocksData[..], blocksIgnore[..], curId, w, k, minNbPackets)
        invariant toDecode == old(toDecode) + Emitted(w, k)
        decreases WINDOW_WIDTH - k
      {
        var opposite: u8 := WrappingAdd(curId, WINDOW_WIDTH);
        ghost var data, ignore, sent := blocksData[..], blocksIgnore[..], toDecode;
        EmitStep(data, ignore, w, k, curId, opposite, minNbPackets);
        var packets := blocksData[curId];
        blocksData[curId] := [];
        toDecode := toDecode + [Block(curId, packets)];
        blocksIgnore[curId] := true;
        blocksIgnore[opposite] := false;
        assert blocksData[..] == data[curId := []] && blocksIgnore[..] == ignore[curId := true][opposite := false];
        // "too far": never true, because the slot was ignored until now
        var tooFar := blocksData[opposite] != [];
        toDecode := toDecode + if tooFar then [Error] else [];
        reset := reset || tooFar;
        if tooFar {
          break;
        }
        curId := WrappingAdd(curId, 1);
        k := k + 1;
      }
    }
  }
}
