/**
 * A reset that skips blocks of an open transfer (src/receive/reblock.rs): the transfer stays active, and
 * nobody is told. `Pipeline.Harmless`, the condition under which resets are safe, excludes just that.
 */
module SkippingReset {
  import opened Bytes
  import opened Protocol
  import opened Reblock
  import opened Epoch
  import opened TurnstileResets
  import opened Dispatch
  import opened Pipeline
  import opened EndToEnd
  import opened Witnesses

  /** A single worker that is idle, and how many jobs it has not been given yet. */
  predicate IdleBut<J, O>(s: T.State<J, O>, jobs: nat) {
    && s.threads == [T.Idle] && s.holder == None && s.pulled == s.fed == |s.input| - jobs
    && s.consumed == |s.out| && s.failed == {}
  }

  /** It deals with the last job. */
  lemma DecodeLast<J(!new), O>(c: T.Config<J, O>, s: T.State<J, O>, mark: nat, next: T.State<J, O>)
    requires c.inCapacity.None? && c.outCapacity.None? && IdleBut(s, 1) && mark < |s.input|
    requires s.input[|s.input| - 1].id == s.turn && T.ResultAt(c, s.input, |s.input| - 1).Some?
    requires next == s.(fed := |s.input|, pulled := |s.input|, turn := WrappingAdd(s.turn, 1), done := s.done + 1,
                        out := s.out + [T.ResultAt(c, s.input, |s.input| - 1)])
    ensures Leads(c, s, next, mark, false)
  {
    var k := |s.input| - 1;
    LeadsNowhere(c, s, mark, false);
    var s1 := s.(fed := k + 1);
    Feeds(c, s, s, mark, false, s1);
    var s2 := s1.(threads := s1.threads[0 := T.Working(k)], pulled := k + 1);
    Pulls(c, s, s1, mark, false, 0, s2);
    var s3 := s2.(threads := s2.threads[0 := T.Sent(k)], holder := Some(0), out := next.out);
    WorksAndSends(c, s, s2, mark, false, 0, k, s3);
    assert s3.threads[0 := T.Idle] == [T.Idle];
    Finishes(c, s, s3, mark, false, 0, k, next);
  }

  /** The last block handed to the only decoder can be decoded. */
  ghost predicate Ready(sys: System, script: seq<Message>, r: Receiving, k: nat)
    requires Has(sys, script) && k < |script|
  {
    var d := r.decoding;
    && IdleBut(d, 1) && r.mark < |d.input| && d.turn == Id(k)
    && d.input[|d.input| - 1] == T.Item(Id(k), PacketsAt(sys, script, k, false))
  }

  /** The decoder after that. */
  ghost function AfterLast(sys: System, script: seq<Message>, d: T.State<seq<Packet>, seq<u8>>, k: nat)
    : T.State<seq<Packet>, seq<u8>>
    requires Has(sys, script) && k < |script|
  {
    d.(fed := |d.input|, pulled := |d.input|, turn := WrappingAdd(d.turn, 1), done := d.done + 1,
       out := d.out + [Some(BytesAt(sys, script, k))])
  }

  lemma ReadyLeads(sys: System, script: seq<Message>, r: Receiving, k: nat)
    requires Shown(sys, script) && k < |script| && Ready(sys, script, r, k)
    ensures Leads(Decoding(sys, r.epoch.first), r.decoding, AfterLast(sys, script, r.decoding, k), r.mark, false)
  {
    DecodesUnlessSpoiled(sys, script, k, false);
    DecodeLast(Decoding(sys, r.epoch.first), r.decoding, r.mark, AfterLast(sys, script, r.decoding, k));
  }

  lemma DecodeIt(sys: System, script: seq<Message>, s: State, k: nat, blame: Blame, arrived: seq<Arrival>)
    returns (next: State)
    requires Shown(sys, script) && sys.decoders == 1 && k < |script| && !blame.StaleTurn?
    requires Reached(sys, s, blame, arrived) && s.receiving.Some? && Ready(sys, script, s.receiving.value, k)
    ensures Reached(sys, next, blame, arrived) && next.receiving.Some? && next == s.(receiving := next.receiving)
    ensures var r, r' := s.receiving.value, next.receiving.value;
            r' == r.(decoding := AfterLast(sys, script, r.decoding, k), own := r'.own)
  {
    var r := s.receiving.value;
    ReadyLeads(sys, script, r, k);
    var own := DecodersLead(sys, s, AfterLast(sys, script, r.decoding, k), blame, arrived);
    next := s.(receiving := Some(r.(decoding := AfterLast(sys, script, r.decoding, k), own := own)));
  }

  /** It is decoded and dispatched. */
  lemma DecodeAndDispatch(sys: System, script: seq<Message>, s: State, k: nat, blame: Blame, arrived: seq<Arrival>)
    returns (next: State)
    requires Shown(sys, script) && sys.decoders == 1 && k < |script| && !blame.StaleTurn?
    requires Reached(sys, s, blame, arrived) && s.receiving.Some? && Ready(sys, script, s.receiving.value, k)
    ensures Reached(sys, next, blame, arrived) && next.receiving.Some? && next == s.(receiving := next.receiving)
    ensures var r, r' := s.receiving.value, next.receiving.value;
            && r' == r.(decoding := r'.decoding, own := r'.own, events := r'.events)
            && r'.events == r.events + [Incoming(script[k])]
            && IdleBut(r'.decoding, 0) && r'.decoding.input == r.decoding.input
  {
    var decoded := DecodeIt(sys, script, s, k, blame, arrived);
    next := decoded.(receiving := Some(TakeNext(decoded.receiving.value, Incoming(script[k]))));
    DispatchBlock(sys, script, decoded, k, blame, arrived, next);
  }

  lemma FirstReceived(sys: System, script: seq<Message>, sent: State) returns (s: State, arrived: seq<Arrival>)
    requires Shown(sys, script) && script != [] && sys.decoders == 1
    requires Reached(sys, sent, CutByReset, []) && AllOnLink(sys, script, sent) && sent.receiving.None?
    ensures Reached(sys, s, CutByReset, arrived) && AllOnLink(sys, script, s)
    ensures s.receiving.Some? && Ready(sys, script, s.receiving.value, 0)
    ensures s.receiving.value.events == [] && s.receiving.value.restarts == 0
  {
    arrived := BatchAt(sys, script, 0, false);
    var r := WithBlock(Opening(sys, arrived[0]), 0, PacketsAt(sys, script, 0, false));
    s := sent.(receiving := Some(r));
    assert r.decoding.threads == [T.Idle];
    ReceiveFirst(sys, script, sent, 0, false, CutByReset, s);
  }

  /** The client has started, and the decoder is idle. */
  lemma Started(sys: System, n: nat) returns (s: State, arrived: seq<Arrival>)
    requires Shown(sys, Script(0, n)) && sys.decoders == 1
    ensures Reached(sys, s, CutByReset, arrived) && AllOnLink(sys, Script(0, n), s)
    ensures s.receiving.Some? && IdleBut(s.receiving.value.decoding, 0)
    ensures s.receiving.value.events == [Incoming(Script(0, n)[0])] && s.receiving.value.restarts == 0
  {
    var script := Script(0, n);
    var sent := SendAll(sys, script, CutByReset);
    var received, a := FirstReceived(sys, script, sent);
    arrived := a;
    s := DecodeAndDispatch(sys, script, received, 0, CutByReset, arrived);
  }

  /** The receiver is reset, and the first packets after that are those of the end block. */
  lemma EndedAfterReset(sys: System, n: nat, s: State, arrived: seq<Arrival>) returns (next: State)
    requires Shown(sys, Script(0, n)) && sys.decoders == 1
    requires Reached(sys, s, CutByReset, arrived) && AllOnLink(sys, Script(0, n), s)
    requires s.receiving.Some? && IdleBut(s.receiving.value.decoding, 0)
    ensures Reached(sys, next, CutByReset, arrived) && next.receiving.Some?
    ensures next.receiving.value.events == s.receiving.value.events + [Incoming(Script(0, n)[n + 1])]
    ensures next.receiving.value.restarts == s.receiving.value.restarts + 1
    ensures next.receiving.value.decoding.failed == {}
  {
    var script, k := Script(0, n), n + 1;
    var base := Reopened(s.receiving.value, BatchAt(sys, script, k, false)[0]);
    ReceiveAfterReset(sys, script, s, k, CutByReset, arrived, base);
    assert Rested([T.Idle]) == [T.Idle];
    var received := s.(receiving := Some(WithBlock(base, k, PacketsAt(sys, script, k, false))));
    next := DecodeAndDispatch(sys, script, received, k, CutByReset, arrived);
  }

  lemma StartedAndEnded(sys: System, n: nat) returns (s: State, arrived: seq<Arrival>)
    requires Shown(sys, Script(0, n)) && sys.decoders == 1
    ensures Reached(sys, s, CutByReset, arrived) && s.receiving.Some?
    ensures s.receiving.value.restarts == 1 && s.receiving.value.decoding.failed == {}
    ensures Trace(s.receiving.value.events) == [EmptyQueue()]
  {
    var started, a := Started(sys, n);
    arrived := a;
    s := EndedAfterReset(sys, n, started, arrived);
    var script := Script(0, n);
    StartToEnd([], script[0], None, script[n + 1]);
    assert s.receiving.value.events == [] + [Incoming(script[0])] + [] + [Incoming(script[n + 1])];
  }

  /**
   * One decoder, no failure, an idle decoder at the reset: a client starts, the receiver is reset, and the
   * packets of its `n` data blocks are lost. The end block then arrives at a transfer that is still active,
   * and success is reported for an incomplete one. The run is tame but for that reset.
   */
  lemma ResetCanDeceive(n: nat) returns (sys: System, s: State, arrived: seq<Arrival>)
    requires n > 0
    ensures Sensible(sys) && Real(sys) && sys.decoders == 1 && Reached(sys, s, CutByReset, arrived)
    ensures s.receiving.Some? && s.receiving.value.restarts == 1 && s.receiving.value.decoding.failed == {}
    ensures Deceived(sys, s) && !AllSafe(sys, s)
  {
    sys := TheSystem(n, 1);
    TheSystemIsShown(0, n, 1);
    TheSystemIsReal(n, 1);
    s, arrived := StartedAndEnded(sys, n);
    EmptyQueueDeceives(sys, n, s);
  }
}
