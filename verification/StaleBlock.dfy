/**
 * A decoder that holds a block across a reset (src/receive/reblock.rs, src/receive/decode.rs): when its
 * identifier comes round, it sends that block in the place of another. `StaleWaits`, the condition on held
 * identifiers under which resets are safe, excludes just that.
 *
 * One thread still decodes block 0 when the receiver is reset. The client's start block then has identifier
 * 255, so that its data block has the identifier of block 0, which takes the turn; the thread that holds the
 * data block will wait for ever, and the end block follows.
 */
module StaleBlock {
  import opened Bytes
  import opened Protocol
  import opened Reblock
  import opened Epoch
  import opened TurnstileResets
  import opened Dispatch
  import opened Pipeline
  import opened EndToEnd
  import opened Witnesses

  // ---------------------------------------------------------------------------------------------
  // The decoders
  // ---------------------------------------------------------------------------------------------

  /** Thread 0 works on the first job, and the others have nothing to do. */
  predicate OneHeld<J, O>(s: T.State<J, O>) {
    && |s.threads| >= 2 && s.threads[0] == T.Working(0) && s.holder == None && s.failed == {}
    && (forall t :: 1 <= t < |s.threads| ==> s.threads[t].Idle?)
    && s.fed == s.pulled == 1 <= |s.input| && s.out == [] && s.consumed == 0
  }

  lemma HoldsOne<J(!new), O>(c: T.Config<J, O>, s: T.State<J, O>) returns (next: T.State<J, O>)
    requires c.workers >= 2 && c.inCapacity.None? && |s.input| == 1 && s == T.Init(c).(input := s.input)
    ensures Leads(c, s, next, 0, true) && OneHeld(next) && next.input == s.input && |next.threads| == c.workers
  {
    LeadsNowhere(c, s, 0, true);
    var s1 := s.(fed := 1);
    Feeds(c, s, s, 0, true, s1);
    next := s1.(threads := s.threads[0 := T.Working(0)], pulled := 1);
    Pulls(c, s, s1, 0, true, 0, next);
  }

  /** Jobs that all yield something, with identifiers 0, 255, 0 and 1. */
  predicate ComesRound<J, O>(c: T.Config<J, O>, input: seq<T.Item<J>>) {
    && |input| == 4 && c.inCapacity.None? && c.outCapacity.None?
    && input[0].id == 0 && input[1].id == 255 && input[2].id == 0 && input[3].id == 1
    && forall k :: 0 <= k < 4 ==> T.ResultAt(c, input, k).Some?
  }

  lemma PullsSecond<J(!new), O>(c: T.Config<J, O>, s: T.State<J, O>, next: T.State<J, O>)
    requires OneHeld(s) && ComesRound(c, s.input)
    requires next == s.(threads := s.threads[1 := T.Working(1)], fed := 2, pulled := 2)
    ensures Leads(c, s, next, 1, true)
  {
    LeadsNowhere(c, s, 1, true);
    var s1 := s.(fed := 2);
    Feeds(c, s, s, 1, true, s1);
    Pulls(c, s, s1, 1, true, 1, next);
  }

  /** Thread 1 sends the second job. */
  lemma SendsSecond<J(!new), O>(c: T.Config<J, O>, s: T.State<J, O>, next: T.State<J, O>)
    requires OneHeld(s) && ComesRound(c, s.input) && s.turn == 255
    requires next == s.(fed := 2, pulled := 2, turn := 0, done := s.done + 1, out := [T.ResultAt(c, s.input, 1)])
    ensures Leads(c, s, next, 1, true)
  {
    var s2 := s.(threads := s.threads[1 := T.Working(1)], fed := 2, pulled := 2);
    PullsSecond(c, s, s2);
    var s3 := s2.(threads := s2.threads[1 := T.Sent(1)], holder := Some(1), out := next.out);
    WorksAndSends(c, s, s2, 1, true, 1, 1, s3);
    assert s3.threads[1 := T.Idle] == s.threads;
    Finishes(c, s, s3, 1, true, 1, 1, next);
  }

  /** And thread 0 the first one, after it. */
  lemma SendsTwo<J(!new), O>(c: T.Config<J, O>, s: T.State<J, O>) returns (next: T.State<J, O>)
    requires OneHeld(s) && ComesRound(c, s.input) && s.turn == 255
    ensures Leads(c, s, next, 1, true)
    ensures |next.threads| >= 2 && forall t :: 0 <= t < |next.threads| ==> next.threads[t].Idle?
    ensures next.holder == None && next.fed == next.pulled == 2 && next.turn == 1 && next.failed == {}
    ensures next.input == s.input && next.consumed == 0
    ensures next.out == [T.ResultAt(c, s.input, 1), T.ResultAt(c, s.input, 0)]
  {
    var s1 := s.(fed := 2, pulled := 2, turn := 0, done := s.done + 1, out := [T.ResultAt(c, s.input, 1)]);
    SendsSecond(c, s, s1);
    var s2 := s1.(threads := s1.threads[0 := T.Sent(0)], holder := Some(0),
                  out := s1.out + [T.ResultAt(c, s.input, 0)]);
    WorksAndSends(c, s, s1, 1, true, 0, 0, s2);
    next := s2.(threads := s2.threads[0 := T.Idle], holder := None, turn := 1, done := s2.done + 1);
    Finishes(c, s, s2, 1, true, 0, 0, next);
  }

  /** Thread 1 takes the third job, which waits in vain, and thread 0 sends the last one. */
  lemma SendsLast<J(!new), O>(c: T.Config<J, O>, s0: T.State<J, O>, s: T.State<J, O>) returns (next: T.State<J, O>)
    requires Leads(c, s0, s, 1, true) && ComesRound(c, s.input)
    requires |s.threads| >= 2 && forall t :: 0 <= t < |s.threads| ==> s.threads[t].Idle?
    requires s.holder == None && s.fed == s.pulled == 2 && s.turn == 1 && s.failed == {}
    ensures Leads(c, s0, next, 1, true) && next.failed == {} && next.consumed == s.consumed
    ensures next.out == s.out + [T.ResultAt(c, s.input, 3)]
  {
    var s1 := s.(fed := 3);
    Feeds(c, s0, s, 1, true, s1);
    var s2 := s1.(fed := 4);
    Feeds(c, s0, s1, 1, true, s2);
    var s3 := s2.(threads := s2.threads[1 := T.Working(2)], pulled := 3);
    Pulls(c, s0, s2, 1, true, 1, s3);
    var s4 := s3.(threads := s3.threads[0 := T.Working(3)], pulled := 4);
    Pulls(c, s0, s3, 1, true, 0, s4);
    next := s4.(threads := s4.threads[0 := T.Sent(3)], holder := Some(0),
                out := s4.out + [T.ResultAt(c, s.input, 3)]);
    WorksAndSends(c, s0, s4, 1, true, 0, 3, next);
  }

  // ---------------------------------------------------------------------------------------------
  // The diode
  // ---------------------------------------------------------------------------------------------

  /** `h` heartbeats, then a start, a data and an end block with identifiers 255, 0 and 1. */
  ghost predicate Staged(sys: System, h: nat, script: seq<Message>) {
    && Shown(sys, script) && 2 <= sys.decoders <= 255
    && script == Script(h, 1) && Id(h) == 255 && Id(h + 1) == 0 && Id(h + 2) == 1
  }

  ghost function Job(sys: System, script: seq<Message>, k: nat): T.Item<seq<Packet>>
    requires Has(sys, script) && k < |script|
  {
    T.Item(Id(k), PacketsAt(sys, script, k, false))
  }

  /** Before the reset: the first block, a heartbeat, is held by a thread. */
  lemma HeldAtReset(sys: System, h: nat, script: seq<Message>) returns (s: State, arrived: seq<Arrival>)
    requires Staged(sys, h, script)
    ensures Reached(sys, s, StaleTurn, arrived) && AllOnLink(sys, script, s) && s.receiving.Some?
    ensures OneHeld(s.receiving.value.decoding) && s.receiving.value.decoding.input == [Job(sys, script, 0)]
    ensures s.receiving.value.events == [] && s.receiving.value.restarts == 0
  {
    var sent := SendAll(sys, script, StaleTurn);
    var batch := BatchAt(sys, script, 0, false);
    var r := WithBlock(Opening(sys, batch[0]), 0, PacketsAt(sys, script, 0, false));
    var received := sent.(receiving := Some(r));
    ReceiveFirst(sys, script, sent, 0, false, StaleTurn, received);
    assert r.decoding.input == [Job(sys, script, 0)];
    var d := HoldsOne(Decoding(sys, 0), r.decoding);
    var own := DecodersLead(sys, received, d, StaleTurn, batch);
    s := received.(receiving := Some(r.(decoding := d, own := own)));
    arrived := batch;
  }

  lemma NothingOpen(sys: System, s: State, batch: seq<Arrival>)
    requires s.receiving.Some? && batch != []
    requires s.receiving.value.events == [] && s.receiving.value.decoding.out == []
    requires s.receiving.value.decoding.consumed == 0
    ensures Harmless(sys, s, batch)
  {
    assert Plan(s.receiving.value) == [];
  }

  lemma HeldStays<J, O>(s: T.State<J, O>, turn: u8)
    requires OneHeld(s)
    ensures LockFree(s) && OneHeld(Reset(s, turn))
    ensures Reset(s, turn).input == s.input && Reset(s, turn).turn == turn
  {
    assert Rested(s.threads) == s.threads;
  }

  /** The reset, and the packets of the client's start block. */
  lemma StartAfterReset(sys: System, h: nat, script: seq<Message>, s: State, arrived: seq<Arrival>, r: Receiving)
    requires Staged(sys, h, script) && Reached(sys, s, StaleTurn, arrived) && AllOnLink(sys, script, s)
    requires s.receiving.Some? && OneHeld(s.receiving.value.decoding) && s.receiving.value.events == []
    requires r == WithBlock(Reopened(s.receiving.value, BatchAt(sys, script, h, false)[0]), h,
                            PacketsAt(sys, script, h, false))
    ensures Reached(sys, s.(receiving := Some(r)), StaleTurn, arrived)
  {
    NothingOpen(sys, s, BatchAt(sys, script, h, false));
    HeldStays(s.receiving.value.decoding, Id(h));
    ReceiveAfterReset(
      sys, script, s, h, StaleTurn, arrived, Reopened(s.receiving.value, BatchAt(sys, script, h, false)[0]));
  }

  /** The receiver after that. */
  ghost predicate Restarted(sys: System, h: nat, script: seq<Message>, r: Receiving)
    requires Has(sys, script) && h < |script|
  {
    && OneHeld(r.decoding) && r.decoding.turn == 255 && r.mark == 1 && r.events == [] && r.restarts == 1
    && r.decoding.input == [Job(sys, script, 0), Job(sys, script, h)] && Expecting(r, h + 1)
  }

  lemma RestartedThen(sys: System, h: nat, script: seq<Message>, r: Receiving, next: Receiving)
    requires Staged(sys, h, script) && OneHeld(r.decoding) && r.events == [] && r.restarts == 0
    requires r.decoding.input == [Job(sys, script, 0)]
    requires next == WithBlock(Reopened(r, BatchAt(sys, script, h, false)[0]), h, PacketsAt(sys, script, h, false))
    ensures Restarted(sys, h, script, next)
  {
    HeldStays(r.decoding, Id(h));
  }

  lemma NextArrives(sys: System, script: seq<Message>, s: State, k: nat, arrived: seq<Arrival>)
    returns (next: State)
    requires Shown(sys, script) && Reached(sys, s, StaleTurn, arrived) && AllOnLink(sys, script, s)
    requires s.receiving.Some? && Expecting(s.receiving.value, k) && k < |script|
    requires s.receiving.value.decoding.failed == {}
    ensures Reached(sys, next, StaleTurn, arrived + BatchAt(sys, script, k, false))
    ensures next == s.(receiving := Some(WithBlock(s.receiving.value, k, PacketsAt(sys, script, k, false))))
    ensures Expecting(next.receiving.value, k + 1)
  {
    FreshFailures(sys, s.receiving.value);
    next := s.(receiving := Some(WithBlock(s.receiving.value, k, PacketsAt(sys, script, k, false))));
    ReceiveNext(sys, script, s, k, false, StaleTurn, arrived, next);
  }

  /** All of the client's blocks have arrived, and the first block is still held. */
  ghost predicate Waiting(sys: System, h: nat, script: seq<Message>, r: Receiving)
    requires Has(sys, script) && h + 2 < |script|
  {
    && OneHeld(r.decoding) && r.decoding.turn == 255 && r.mark == 1 && r.events == [] && r.restarts == 1
    && r.decoding.input == [Job(sys, script, 0), Job(sys, script, h)]
                           + [Job(sys, script, h + 1)] + [Job(sys, script, h + 2)]
  }

  lemma StartArrived(sys: System, h: nat, script: seq<Message>) returns (s: State, arrived: seq<Arrival>)
    requires Staged(sys, h, script)
    ensures Reached(sys, s, StaleTurn, arrived) && AllOnLink(sys, script, s)
    ensures s.receiving.Some? && Restarted(sys, h, script, s.receiving.value)
  {
    var held, a := HeldAtReset(sys, h, script);
    arrived := a;
    var batch, ps := BatchAt(sys, script, h, false), PacketsAt(sys, script, h, false);
    var r := WithBlock(Reopened(held.receiving.value, batch[0]), h, ps);
    StartAfterReset(sys, h, script, held, arrived, r);
    RestartedThen(sys, h, script, held.receiving.value, r);
    s := held.(receiving := Some(r));
  }

  lemma AllArrived(sys: System, h: nat, script: seq<Message>) returns (s: State, arrived: seq<Arrival>)
    requires Staged(sys, h, script)
    ensures Reached(sys, s, StaleTurn, arrived)
    ensures s.receiving.Some? && Waiting(sys, h, script, s.receiving.value)
  {
    var started, a := StartArrived(sys, h, script);
    var s1 := NextArrives(sys, script, started, h + 1, a);
    var a1 := a + BatchAt(sys, script, h + 1, false);
    s := NextArrives(sys, script, s1, h + 2, a1);
    arrived := a1 + BatchAt(sys, script, h + 2, false);
  }

  /** What the decoders send then. */
  ghost predicate AllSent(sys: System, h: nat, script: seq<Message>, r: Receiving)
    requires Has(sys, script) && h + 2 < |script|
  {
    && r.decoding.failed == {} && r.decoding.consumed == 0 && r.events == [] && r.restarts == 1
    && r.decoding.out == [Some(BytesAt(sys, script, h)), Some(BytesAt(sys, script, 0))]
                         + [Some(BytesAt(sys, script, h + 2))]
  }

  lemma JobsComeRound(sys: System, h: nat, script: seq<Message>, r: Receiving)
    requires Staged(sys, h, script) && Waiting(sys, h, script, r)
    ensures var c, input := Decoding(sys, r.epoch.first), r.decoding.input;
            && ComesRound(c, input)
            && T.ResultAt(c, input, 0) == Some(BytesAt(sys, script, 0))
            && T.ResultAt(c, input, 1) == Some(BytesAt(sys, script, h))
            && T.ResultAt(c, input, 3) == Some(BytesAt(sys, script, h + 2))
  {
    DecodesUnlessSpoiled(sys, script, 0, false);
    DecodesUnlessSpoiled(sys, script, h, false);
    DecodesUnlessSpoiled(sys, script, h + 1, false);
    DecodesUnlessSpoiled(sys, script, h + 2, false);
  }

  lemma DecodeAll(sys: System, h: nat, script: seq<Message>, s: State, arrived: seq<Arrival>) returns (next: State)
    requires Staged(sys, h, script) && Reached(sys, s, StaleTurn, arrived)
    requires s.receiving.Some? && Waiting(sys, h, script, s.receiving.value)
    ensures Reached(sys, next, StaleTurn, arrived)
    ensures next.receiving.Some? && AllSent(sys, h, script, next.receiving.value)
  {
    var r := s.receiving.value;
    var c := Decoding(sys, r.epoch.first);
    JobsComeRound(sys, h, script, r);
    var d1 := SendsTwo(c, r.decoding);
    var d2 := SendsLast(c, r.decoding, d1);
    var own := DecodersLead(sys, s, d2, StaleTurn, arrived);
    next := s.(receiving := Some(r.(decoding := d2, own := own)));
  }

  lemma DispatchAll(sys: System, h: nat, script: seq<Message>, s: State, arrived: seq<Arrival>)
    returns (next: State)
    requires Staged(sys, h, script) && Reached(sys, s, StaleTurn, arrived)
    requires s.receiving.Some? && AllSent(sys, h, script, s.receiving.value)
    ensures Reached(sys, next, StaleTurn, arrived) && next.receiving.Some?
    ensures next.receiving.value.restarts == 1 && next.receiving.value.decoding.failed == {}
    ensures next.receiving.value.events
         == [] + [Incoming(script[h])] + [Incoming(script[0])] + [Incoming(script[h + 2])]
  {
    var s1 := s.(receiving := Some(TakeNext(s.receiving.value, Incoming(script[h]))));
    DispatchBlock(sys, script, s, h, StaleTurn, arrived, s1);
    var s2 := s1.(receiving := Some(TakeNext(s1.receiving.value, Incoming(script[0]))));
    DispatchBlock(sys, script, s1, 0, StaleTurn, arrived, s2);
    next := s2.(receiving := Some(TakeNext(s2.receiving.value, Incoming(script[h + 2]))));
    DispatchBlock(sys, script, s2, h + 2, StaleTurn, arrived, next);
  }

  lemma StaleRun(sys: System, h: nat, script: seq<Message>) returns (s: State, arrived: seq<Arrival>)
    requires Staged(sys, h, script)
    ensures Reached(sys, s, StaleTurn, arrived) && s.receiving.Some?
    ensures s.receiving.value.restarts == 1 && s.receiving.value.decoding.failed == {}
    ensures Trace(s.receiving.value.events) == [EmptyQueue()]
  {
    var s1, a := AllArrived(sys, h, script);
    var s2 := DecodeAll(sys, h, script, s1, a);
    s := DispatchAll(sys, h, script, s2, a);
    arrived := a;
    StartToEnd([], script[h], Some(script[0]), script[h + 2]);
  }

  /**
   * For every number of decoders from 2 to 255 there is a run without any failure, with a reset at which no
   * transfer is open, at the end of which a client is told of a success although its data was not delivered.
   * The run is tame but for the stale block that takes the turn.
   */
  lemma StaleBlockDeceives(decoders: nat, gap: nat) returns (sys: System, s: State, arrived: seq<Arrival>)
    requires 2 <= decoders <= 255
    ensures Sensible(sys) && Real(sys) && sys.decoders == decoders && Reached(sys, s, StaleTurn, arrived)
    ensures s.receiving.Some? && s.receiving.value.restarts == 1 && s.receiving.value.decoding.failed == {}
    ensures Deceived(sys, s) && !AllSafe(sys, s)
  {
    var h := 255 + 256 * gap;
    IdsComeRound(gap);
    sys := TheSystem(1, decoders);
    TheSystemIsShown(h, 1, decoders);
    TheSystemIsReal(1, decoders);
    s, arrived := StaleRun(sys, h, Script(h, 1));
    EmptyQueueDeceives(sys, 1, s);
  }

  lemma IdsComeRound(gap: nat)
    ensures var h := 255 + 256 * gap; Id(h) == 255 && Id(h + 1) == 0 && Id(h + 2) == 1
  {
    assert (255 + 256 * gap) % 256 == 255;
  }
}
