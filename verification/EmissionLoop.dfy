/**
 * When the emission loop of the reblocking worker ends (src/receive/reblock.rs). `Reblock.Worker` is
 * modelled for positive thresholds, because for a threshold of zero its loop never ends.
 */
module EmissionLoop {
  import opened Bytes
  import opened Protocol
  import opened Reblock

  /** The slots, the flags and the current identifier. */
  datatype Ring = Ring(data: seq<seq<Packet>>, ignore: seq<bool>, cur: u8)

  /** What holds of the ring whenever the loop is reached. */
  ghost predicate Sorted(r: Ring) {
    && |r.data| == 256 && |r.ignore| == 256
    && (forall id: u8 :: r.ignore[id] <==> Offset(id, r.cur) >= WINDOW_WIDTH)
    && (forall id: u8 :: r.ignore[id] ==> r.data[id] == [])
  }

  function Opposite(r: Ring): u8 {
    WrappingAdd(r.cur, WINDOW_WIDTH)
  }

  /** One iteration, up to the test for a damaged slot and, if that fails, to its end. */
  function Iterate(r: Ring): (next: Ring)
    requires |r.data| == |r.ignore| == 256
    ensures |next.data| == |next.ignore| == 256
  {
    Ring(r.data[r.cur := []], r.ignore[r.cur := true][Opposite(r) := false], WrappingAdd(r.cur, 1))
  }

  /** Whether the iteration leaves the loop as "too far". */
  predicate Breaks(r: Ring)
    requires |r.data| == 256
  {
    r.data[r.cur := []][Opposite(r)] != []
  }

  function After(r: Ring, n: nat): (next: Ring)
    requires |r.data| == |r.ignore| == 256
    ensures |next.data| == |next.ignore| == 256
  {
    if n == 0 then r else Iterate(After(r, n - 1))
  }

  predicate Guard(r: Ring, threshold: nat)
    requires |r.data| == 256
  {
    |r.data[r.cur]| >= threshold
  }

  /** The loop goes through at least `n` iterations without leaving. */
  predicate Goes(r: Ring, threshold: nat, n: nat)
    requires |r.data| == |r.ignore| == 256
  {
    n == 0 || (Goes(r, threshold, n - 1) && Guard(After(r, n - 1), threshold) && !Breaks(After(r, n - 1)))
  }

  /** The loop ends after `n` iterations, by its guard or by leaving from the next one. */
  predicate EndsAfter(r: Ring, threshold: nat, n: nat)
    requires |r.data| == |r.ignore| == 256
  {
    Goes(r, threshold, n) && (!Guard(After(r, n), threshold) || Breaks(After(r, n)))
  }

  /** The slot that an iteration opens is empty, and the next iteration finds the ring in the same shape. */
  lemma IterateSorted(r: Ring)
    requires Sorted(r)
    ensures !Breaks(r) && Sorted(Iterate(r))
  {
    OffsetInverse(r.cur, WINDOW_WIDTH);
    forall id: u8
      ensures Iterate(r).ignore[id] <==> Offset(id, Iterate(r).cur) >= WINDOW_WIDTH
    {
      OffsetMoves(id, r.cur, 1);
      OffsetInverse(r.cur, 0);
    }
  }

  lemma {:induction false} AfterSorted(r: Ring, n: nat)
    requires Sorted(r)
    ensures Sorted(After(r, n)) && !Breaks(After(r, n))
  {
    if n == 0 {
    } else {
      AfterSorted(r, n - 1);
      IterateSorted(After(r, n - 1));
    }
    IterateSorted(After(r, n));
  }

  /** At threshold zero the guard holds and the break does not fire, after any number of iterations. */
  lemma {:induction false} GoesForever(r: Ring, n: nat)
    requires Sorted(r)
    ensures Goes(r, 0, n) && !EndsAfter(r, 0, n)
  {
    AfterSorted(r, n);
    if n == 0 {
    } else {
      GoesForever(r, n - 1);
      AfterSorted(r, n - 1);
    }
  }

  function WindowAt(r: Ring): Window
    requires |r.data| == 256
  {
    Window(r.cur, SlotsFrom(r.data, r.cur))
  }

  lemma NoneEmitted(r: Ring, threshold: nat)
    requires Sorted(r)
    ensures EmittedSoFar(r.data, r.ignore, r.cur, WindowAt(r), 0, threshold)
  {
    var slots := WindowAt(r).slots;
    forall id: u8 | Offset(id, r.cur) < WINDOW_WIDTH
      ensures slots[Offset(id, r.cur)] == r.data[id]
    {
      OffsetInverse(r.cur, Offset(id, r.cur));
    }
  }

  /** An iteration on a ready slot is an emission. */
  lemma IterateEmits(r: Ring, w: Window, k: nat, threshold: nat)
    requires EmittedSoFar(r.data, r.ignore, r.cur, w, k, threshold) && threshold > 0
    requires k < WINDOW_WIDTH && |w.slots[k]| >= threshold
    ensures Guard(r, threshold) && !Breaks(r)
    ensures EmittedSoFar(Iterate(r).data, Iterate(r).ignore, Iterate(r).cur, w, k + 1, threshold)
  {
    EmittingEnds(r.data, r.ignore, w, k, r.cur);
    EmitStep(r.data, r.ignore, w, k, r.cur, Opposite(r), threshold);
  }

  /** The ring after `n` iterations is what `n` emissions make of it, and no iteration left the loop. */
  ghost predicate GoneAndEmitted(r: Ring, s: Ring, w: Window, threshold: nat, n: nat)
    requires |r.data| == |r.ignore| == 256
  {
    s == After(r, n) && Goes(r, threshold, n) && EmittedSoFar(s.data, s.ignore, s.cur, w, n, threshold)
  }

  lemma GoesOn(r: Ring, s: Ring, w: Window, threshold: nat, n: nat)
    requires |r.data| == |r.ignore| == 256 && GoneAndEmitted(r, s, w, threshold, n) && threshold > 0
    requires n < WINDOW_WIDTH && |w.slots[n]| >= threshold
    ensures GoneAndEmitted(r, Iterate(s), w, threshold, n + 1)
  {
    IterateEmits(s, w, n, threshold);
  }

  lemma GoesWhileReady(r: Ring, w: Window, threshold: nat)
    requires Sorted(r) && w == WindowAt(r) && threshold > 0
    ensures GoneAndEmitted(r, After(r, Ready(w.slots, threshold)), w, threshold, Ready(w.slots, threshold))
  {
    NoneEmitted(r, threshold);
    var s := r;
    for n := 0 to Ready(w.slots, threshold)
      invariant GoneAndEmitted(r, s, w, threshold, n)
    {
      GoesOn(r, s, w, threshold, n);
      s := Iterate(s);
    }
  }

  lemma EndsWhenReadyIsOver(r: Ring, threshold: nat)
    requires Sorted(r) && threshold > 0
    ensures EndsAfter(r, threshold, Ready(WindowAt(r).slots, threshold))
  {
    var w := WindowAt(r);
    var k := Ready(w.slots, threshold);
    GoesWhileReady(r, w, threshold);
    var s := After(r, k);
    AfterSorted(r, k);
    EmittingEnds(s.data, s.ignore, w, k, s.cur);
    if k == WINDOW_WIDTH {
      EmittedAll(s, w, threshold);
    }
  }

  /** When the whole window has been emitted, the slot at its head is a fresh one. */
  lemma EmittedAll(s: Ring, w: Window, threshold: nat)
    requires EmittedSoFar(s.data, s.ignore, s.cur, w, WINDOW_WIDTH, threshold)
    ensures s.data[s.cur] == []
  {
    OffsetInverse(w.cur, WINDOW_WIDTH);
  }

  /** On every ring that the worker can reach, the loop ends if and only if the threshold is positive. */
  lemma EndsIffThresholdPositive(r: Ring, threshold: nat)
    requires Sorted(r)
    ensures (exists n: nat :: EndsAfter(r, threshold, n)) <==> threshold > 0
  {
    if threshold > 0 {
      EndsWhenReadyIsOver(r, threshold);
      assert EndsAfter(r, threshold, Ready(WindowAt(r).slots, threshold));
    } else {
      forall n: nat
        ensures !EndsAfter(r, threshold, n)
      {
        GoesForever(r, n);
      }
    }
  }

  /**
   * In terms of the configuration, for all that are accepted: the loop ends unless a block has no symbol or
   * symbols and minimal repair packets add up to 65536.
   */
  lemma EndsIffSumFits(mtu: u16, blockSize: u32, repair: u32, minRepair: u32, r: Ring)
    requires MaxPacketSize(mtu) > 0 && Sizes(mtu, blockSize, repair, minRepair).Success? && Sorted(r)
    ensures var receiver := Sizes(mtu, blockSize, repair, minRepair).value;
            (exists n: nat :: EndsAfter(r, MinNbPackets(receiver), n))
            <==> MaxPacketSize(mtu) <= blockSize && Required(receiver) != 0x1_0000
  {
    ThresholdZeroIff(mtu, blockSize, repair, minRepair);
    EndsIffThresholdPositive(r, MinNbPackets(Sizes(mtu, blockSize, repair, minRepair).value));
  }

  /** A configuration that is accepted and in which they do: 32768 symbols of 200 bytes, 100 percent of repair. */
  lemma ZeroThresholdIsAccepted()
    ensures Sizes(232, 6_553_600, 100, 100).Success?
    ensures MinNbPackets(Sizes(232, 6_553_600, 100, 100).value) == 0
  {
    assert MaxPacketSize(232) == 200;
    assert RepairCount(6_553_600, 100, 200) == 32768;
  }

  /** The other family: a block of the requested size holds no packet. */
  lemma EmptyBlockIsAccepted()
    ensures Sizes(1500, 100, 0, 0).Success? && MinNbPackets(Sizes(1500, 100, 0, 0).value) == 0
  {
    assert MaxPacketSize(1500) == 1464;
  }

  /** Such rings are what the worker's loop is given: after a batch has been sorted into the open slots. */
  lemma FilledIsSorted(before: seq<seq<Packet>>, after: seq<seq<Packet>>, ignore: seq<bool>, cur: u8,
                       packets: seq<Packet>)
    requires Filled(before, after, cur, packets) && |ignore| == 256
    requires forall id: u8 :: ignore[id] <==> Offset(id, cur) >= WINDOW_WIDTH
    ensures Sorted(Ring(after, ignore, cur))
  {}
}
