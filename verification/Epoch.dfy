/**
 * The reblocking window over unbounded block numbers, from one reset to the next
 * (src/receive/reblock.rs). `Absorb` knows nothing of 8-bit identifiers; within the stated distance
 * the worker's window computes the same thing.
 */
module Epoch {
  import opened Bytes
  import opened Reblock

  /** A packet together with the true number of its block, which the wire does not carry. */
  datatype Arrival = Arrival(number: nat, packet: Packet)

  /** Block `first + i` was emitted with packets `emitted[i]`; `slots` are the 127 blocks after those. */
  datatype Epoch = Epoch(first: nat, emitted: seq<seq<Packet>>, slots: seq<seq<Packet>>)

  function Cur(e: Epoch): nat {
    e.first + |e.emitted|
  }

  function Open(first: nat): Epoch {
    Epoch(first, [], EmptySlots(WINDOW_WIDTH))
  }

  /** The packets of block `n`, in arrival order. */
  function OfBlock(arrivals: seq<Arrival>, n: nat): seq<Packet> {
    if arrivals == [] then [] else
    OfBlock(arrivals[..|arrivals| - 1], n)
    + (if arrivals[|arrivals| - 1].number == n then [arrivals[|arrivals| - 1].packet] else [])
  }

  function Packets(arrivals: seq<Arrival>): (ps: seq<Packet>)
    ensures |ps| == |arrivals|
  {
    seq(|arrivals|, i requires 0 <= i < |arrivals| => arrivals[i].packet)
  }

  /** Sorting a batch by block number. */
  function FillByNumber(e: Epoch, batch: seq<Arrival>): (slots: seq<seq<Packet>>)
    ensures |slots| == |e.slots|
  {
    seq(|e.slots|, i requires 0 <= i < |e.slots| => e.slots[i] + OfBlock(batch, Cur(e) + i))
  }

  /** The first `k` blocks leave and as many empty slots open. */
  function Emit(e: Epoch, filled: seq<seq<Packet>>, k: nat): Epoch
    requires k <= |filled|
  {
    Epoch(e.first, e.emitted + filled[..k], filled[k..] + EmptySlots(k))
  }

  function Absorb(e: Epoch, batch: seq<Arrival>, threshold: nat): Epoch {
    var filled := FillByNumber(e, batch);
    Emit(e, filled, Ready(filled, threshold))
  }

  /** The arrivals of a batch whose block is still open. */
  function Kept(e: Epoch, batch: seq<Arrival>): seq<Arrival> {
    if batch == [] then [] else
    Kept(e, batch[..|batch| - 1])
    + (var a := batch[|batch| - 1]; if Cur(e) <= a.number < Cur(e) + WINDOW_WIDTH then [a] else [])
  }

  // ---------------------------------------------------------------------------------------------
  // How far identifiers can be trusted
  // ---------------------------------------------------------------------------------------------

  predicate InWindow(n: nat, cur: nat) {
    cur <= n < cur + WINDOW_WIDTH
  }

  /** What the code tests. */
  predicate Accepted(n: nat, cur: nat) {
    Offset(Id(n), Id(cur)) < WINDOW_WIDTH
  }

  /** The distance within which the code's test means what it should. */
  predicate Near(n: nat, cur: nat) {
    cur - 129 <= n <= cur + 255
  }

  lemma AcceptedIffInWindow(n: nat, cur: nat)
    requires Near(n, cur)
    ensures Accepted(n, cur) <==> InWindow(n, cur)
    ensures InWindow(n, cur) ==> Offset(Id(n), Id(cur)) == n - cur
  {
    RingArithmetic(Id(n), Id(cur));
    assert Offset(Id(n), Id(cur)) == (n - cur) % 256;
  }

  /**
   * The distance is exact on both sides: a range of block numbers around `cur` is judged correctly
   * for every `cur` if and only if it reaches no further back than 129 and no further on than 255.
   */
  lemma NearIsExact(behind: nat, ahead: nat)
    ensures (forall n: nat, cur: nat :: cur - behind <= n <= cur + ahead ==> (Accepted(n, cur) <==> InWindow(n, cur)))
            <==> behind <= 129 && ahead <= 255
  {
    if behind <= 129 && ahead <= 255 {
      forall n: nat, cur: nat | cur - behind <= n <= cur + ahead
        ensures Accepted(n, cur) <==> InWindow(n, cur)
      {
        AcceptedIffInWindow(n, cur);
      }
    } else if behind > 129 {
      assert Accepted(0, 130) && !InWindow(0, 130);
    } else {
      assert Accepted(256, 0) && !InWindow(256, 0);
    }
  }

  // ---------------------------------------------------------------------------------------------
  // The worker's window refines the epoch
  // ---------------------------------------------------------------------------------------------

  /** Every arrival is near the current block and carries its number modulo 256. */
  ghost predicate Plausible(batch: seq<Arrival>, cur: nat) {
    forall a :: a in batch ==> Near(a.number, cur) && a.packet.id == Id(a.number)
  }

  function WindowOf(e: Epoch): Window {
    Window(Id(Cur(e)), e.slots)
  }

  lemma {:induction false} SameSlot(batch: seq<Arrival>, cur: nat, i: nat)
    requires Plausible(batch, cur) && i < WINDOW_WIDTH
    ensures WithId(Packets(batch), WrappingAdd(Id(cur), i)) == OfBlock(batch, cur + i)
  {
    if batch == [] {
    } else {
      var init, a := batch[..|batch| - 1], batch[|batch| - 1];
      SameSlot(init, cur, i);
      assert Packets(batch)[..|batch| - 1] == Packets(init);
      assert a in batch;
      SameIdentifier(a.number, cur, i);
    }
  }

  lemma SameIdentifier(n: nat, cur: nat, i: nat)
    requires Near(n, cur) && i < WINDOW_WIDTH
    ensures Id(n) == WrappingAdd(Id(cur), i) <==> n == cur + i
  {
    RingArithmetic(Id(cur), i);
    assert WrappingAdd(Id(cur), i) == Id(cur + i);
    if Id(n) == Id(cur + i) {
      assert (n - (cur + i)) % 256 == 0;
    }
  }

  lemma FillAgrees(e: Epoch, batch: seq<Arrival>)
    requires |e.slots| == WINDOW_WIDTH && Plausible(batch, Cur(e))
    ensures Fill(WindowOf(e), Packets(batch)).slots == FillByNumber(e, batch)
  {
    forall i | 0 <= i < WINDOW_WIDTH
      ensures Fill(WindowOf(e), Packets(batch)).slots[i] == FillByNumber(e, batch)[i]
    {
      SameSlot(batch, Cur(e), i);
    }
  }

  /** Sliding a window of consecutive identifiers. */
  lemma SlideAgrees(w: Window, cur: nat, k: nat)
    requires |w.slots| == WINDOW_WIDTH && k <= WINDOW_WIDTH && w.cur == Id(cur)
    ensures Slide(w, k).cur == Id(cur + k)
    ensures forall i :: 0 <= i < k ==> Emitted(w, k)[i] == Block(Id(cur + i), w.slots[i])
  {
    forall i | 0 <= i <= k
      ensures WrappingAdd(w.cur, i) == Id(cur + i)
    {
      RingArithmetic(w.cur, i);
    }
  }

  /** One batch: the 8-bit window and the unbounded one emit the same blocks and end in the same state. */
  lemma WindowRefinesEpoch(e: Epoch, batch: seq<Arrival>, threshold: nat)
    requires |e.slots| == WINDOW_WIDTH && Plausible(batch, Cur(e))
    ensures var filled := Fill(WindowOf(e), Packets(batch));
            var k := Ready(filled.slots, threshold);
            var e' := Absorb(e, batch, threshold);
            && WindowOf(e') == Slide(filled, k)
            && e'.emitted == e.emitted + filled.slots[..k]
            && forall i :: 0 <= i < k ==>
                 Emitted(filled, k)[i] == Block(Id(Cur(e) + i), e'.emitted[|e.emitted| + i])
  {
    FillAgrees(e, batch);
    var filled := Fill(WindowOf(e), Packets(batch));
    SlideAgrees(filled, Cur(e), Ready(filled.slots, threshold));
  }

  // ---------------------------------------------------------------------------------------------
  // What an epoch emits
  // ---------------------------------------------------------------------------------------------

  /** The packets held for block `n`, emitted or still waiting. */
  function Content(e: Epoch, n: nat): seq<Packet>
    requires e.first <= n < Cur(e) + |e.slots|
  {
    if n < Cur(e) then e.emitted[n - e.first] else e.slots[n - Cur(e)]
  }

  /**
   * `kept` is the list of all arrivals accepted so far. Every block holds exactly its own, in order;
   * the emitted blocks, and only those, are the initial ones that reached the threshold.
   */
  ghost predicate Faithful(e: Epoch, kept: seq<Arrival>, threshold: nat) {
    && |e.slots| == WINDOW_WIDTH
    && (forall n: nat :: e.first <= n < Cur(e) + WINDOW_WIDTH ==> Content(e, n) == OfBlock(kept, n))
    && (forall a :: a in kept ==> e.first <= a.number < Cur(e) + WINDOW_WIDTH)
    && (forall i :: 0 <= i < |e.emitted| ==> |e.emitted[i]| >= threshold)
    && |e.slots[0]| < threshold
  }

  lemma {:induction false} OfBlockAppend(xs: seq<Arrival>, ys: seq<Arrival>, n: nat)
    ensures OfBlock(xs + ys, n) == OfBlock(xs, n) + OfBlock(ys, n)
  {
    if ys == [] {
      assert xs + ys == xs;
    } else {
      var init := ys[..|ys| - 1];
      OfBlockAppend(xs, init, n);
      assert (xs + ys)[..|xs + ys| - 1] == xs + init;
    }
  }

  /** Every packet of the block counts as often as it arrived, and no other packet does. */
  lemma {:induction false} OfBlockHasAll(arrivals: seq<Arrival>, n: nat, p: Packet)
    ensures multiset(OfBlock(arrivals, n))[p] == multiset(arrivals)[Arrival(n, p)]
  {
    if arrivals == [] {
    } else {
      var init, last := arrivals[..|arrivals| - 1], arrivals[|arrivals| - 1];
      OfBlockHasAll(init, n, p);
      assert arrivals == init + [last];
      assert last.number == n ==> last == Arrival(n, last.packet);
    }
  }

  lemma {:induction false} OfBlockAbsent(xs: seq<Arrival>, n: nat)
    requires forall a :: a in xs ==> a.number != n
    ensures OfBlock(xs, n) == []
  {
    if xs == [] {
    } else {
      assert xs[|xs| - 1] in xs;
      OfBlockAbsent(xs[..|xs| - 1], n);
    }
  }

  lemma OfBlockSnoc(xs: seq<Arrival>, a: Arrival, n: nat)
    ensures OfBlock(xs + [a], n) == OfBlock(xs, n) + if a.number == n then [a.packet] else []
  {
    assert (xs + [a])[..|xs|] == xs;
  }

  lemma {:induction false} KeptMembers(e: Epoch, batch: seq<Arrival>)
    ensures forall a :: a in Kept(e, batch) <==> a in batch && InWindow(a.number, Cur(e))
  {
    if batch == [] {
    } else {
      var init, last := batch[..|batch| - 1], batch[|batch| - 1];
      KeptMembers(e, init);
      assert batch == init + [last];
    }
  }

  lemma {:induction false} KeptOfBlock(e: Epoch, batch: seq<Arrival>, n: nat)
    requires InWindow(n, Cur(e))
    ensures OfBlock(Kept(e, batch), n) == OfBlock(batch, n)
  {
    if batch == [] {
    } else {
      var init, last := batch[..|batch| - 1], batch[|batch| - 1];
      KeptOfBlock(e, init, n);
      if InWindow(last.number, Cur(e)) {
        OfBlockSnoc(Kept(e, init), last, n);
      } else {
        assert Kept(e, batch) == Kept(e, init);
      }
    }
  }

  lemma FirstIsFaithful(first: nat, threshold: nat)
    requires threshold > 0
    ensures Faithful(Open(first), [], threshold)
  {}

  lemma SlideContent(e: Epoch, filled: seq<seq<Packet>>, k: nat, n: nat)
    requires |filled| == WINDOW_WIDTH && k <= WINDOW_WIDTH
    requires e.first <= n < Cur(e) + k + WINDOW_WIDTH
    ensures Content(Emit(e, filled, k), n) ==
              if n < Cur(e) then e.emitted[n - e.first]
              else if InWindow(n, Cur(e)) then filled[n - Cur(e)]
              else []
  {}

  lemma SlotByNumber(e: Epoch, batch: seq<Arrival>, n: nat)
    requires |e.slots| == WINDOW_WIDTH && InWindow(n, Cur(e))
    ensures FillByNumber(e, batch)[n - Cur(e)] == Content(e, n) + OfBlock(batch, n)
  {}

  /** Emission moves blocks without touching their packets, and opens empty slots. */
  lemma AbsorbContent(e: Epoch, batch: seq<Arrival>, threshold: nat, n: nat)
    requires |e.slots| == WINDOW_WIDTH && e.first <= n < Cur(Absorb(e, batch, threshold)) + WINDOW_WIDTH
    ensures Content(Absorb(e, batch, threshold), n) ==
              if n < Cur(e) then Content(e, n)
              else if InWindow(n, Cur(e)) then Content(e, n) + OfBlock(batch, n)
              else []
  {
    var filled := FillByNumber(e, batch);
    var k := Ready(filled, threshold);
    SlideContent(e, filled, k, n);
    if InWindow(n, Cur(e)) {
      SlotByNumber(e, batch, n);
    }
  }

  lemma AbsorbFaithfully(e: Epoch, kept: seq<Arrival>, batch: seq<Arrival>, threshold: nat, n: nat)
    requires Faithful(e, kept, threshold)
    requires e.first <= n < Cur(Absorb(e, batch, threshold)) + WINDOW_WIDTH
    ensures Content(Absorb(e, batch, threshold), n) == OfBlock(kept + Kept(e, batch), n)
  {
    AbsorbContent(e, batch, threshold, n);
    OfBlockAppend(kept, Kept(e, batch), n);
    KeptMembers(e, batch);
    if InWindow(n, Cur(e)) {
      KeptOfBlock(e, batch, n);
    } else {
      OfBlockAbsent(Kept(e, batch), n);
      if n >= Cur(e) {
        OfBlockAbsent(kept, n);
      }
    }
  }

  lemma AbsorbKeepsFaithful(e: Epoch, kept: seq<Arrival>, batch: seq<Arrival>, threshold: nat)
    requires Faithful(e, kept, threshold) && threshold > 0
    ensures Faithful(Absorb(e, batch, threshold), kept + Kept(e, batch), threshold)
  {
    var e' := Absorb(e, batch, threshold);
    KeptMembers(e, batch);
    forall n: nat | e'.first <= n < Cur(e') + WINDOW_WIDTH
      ensures Content(e', n) == OfBlock(kept + Kept(e, batch), n)
    {
      AbsorbFaithfully(e, kept, batch, threshold, n);
    }
  }

  /** All batches of an epoch. The first datagram of the first batch opened the window. */
  function Run(first: nat, batches: seq<seq<Arrival>>, threshold: nat): Epoch {
    if batches == [] then Open(first) else
    Absorb(Run(first, batches[..|batches| - 1], threshold), batches[|batches| - 1], threshold)
  }

  /** The arrivals accepted over all batches, in order. */
  function AllKept(first: nat, batches: seq<seq<Arrival>>, threshold: nat): seq<Arrival> {
    if batches == [] then [] else
    var init := batches[..|batches| - 1];
    AllKept(first, init, threshold) + Kept(Run(first, init, threshold), batches[|batches| - 1])
  }

  lemma {:induction false} RunIsFaithful(first: nat, batches: seq<seq<Arrival>>, threshold: nat)
    requires threshold > 0
    ensures Run(first, batches, threshold).first == first
    ensures Faithful(Run(first, batches, threshold), AllKept(first, batches, threshold), threshold)
  {
    if batches == [] {
      FirstIsFaithful(first, threshold);
    } else {
      var init := batches[..|batches| - 1];
      RunIsFaithful(first, init, threshold);
      AbsorbKeepsFaithful(
        Run(first, init, threshold), AllKept(first, init, threshold), batches[|batches| - 1], threshold);
    }
  }

  /**
   * Over any run, block `n` has been emitted if and only if it and every earlier block of the epoch
   * received the threshold of accepted packets, and then it consists of exactly those.
   */
  lemma EmittedIffReached(first: nat, batches: seq<seq<Arrival>>, threshold: nat, n: nat)
    requires threshold > 0 && first <= n
    ensures Run(first, batches, threshold).first == first
    ensures var e := Run(first, batches, threshold);
            var kept := AllKept(first, batches, threshold);
            && (n < Cur(e) <==> AllReached(kept, first, n, threshold))
            && (n < Cur(e) ==> e.emitted[n - first] == OfBlock(kept, n))
  {
    RunIsFaithful(first, batches, threshold);
    FaithfulEmits(Run(first, batches, threshold), AllKept(first, batches, threshold), threshold, n);
  }

  predicate AllReached(kept: seq<Arrival>, from: nat, to: nat, threshold: nat) {
    forall m: nat :: from <= m <= to ==> |OfBlock(kept, m)| >= threshold
  }

  lemma FaithfulEmits(e: Epoch, kept: seq<Arrival>, threshold: nat, n: nat)
    requires Faithful(e, kept, threshold) && e.first <= n
    ensures n < Cur(e) <==> AllReached(kept, e.first, n, threshold)
    ensures n < Cur(e) ==> e.emitted[n - e.first] == OfBlock(kept, n)
  {
    if n < Cur(e) {
      forall m: nat | e.first <= m <= n
        ensures |OfBlock(kept, m)| >= threshold
      {
        FaithfulAt(e, kept, threshold, m);
      }
      FaithfulAt(e, kept, threshold, n);
    } else {
      FaithfulAt(e, kept, threshold, Cur(e));
    }
  }

  /** One block that has been emitted, or the first that has not. */
  lemma FaithfulAt(e: Epoch, kept: seq<Arrival>, threshold: nat, n: nat)
    requires Faithful(e, kept, threshold) && e.first <= n <= Cur(e)
    ensures n < Cur(e) ==> e.emitted[n - e.first] == OfBlock(kept, n)
    ensures n < Cur(e) <==> |OfBlock(kept, n)| >= threshold
  {
    assert Content(e, n) == OfBlock(kept, n);
  }
}
