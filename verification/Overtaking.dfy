/**
 * The bound on failed decodes is exact for the whole diode (src/receive/decode.rs): with two or more
 * decoders and one failure more, a client can be told of a success although most of its data is missing.
 * While one thread still decodes the client's start block, `257 - decoders` data blocks fail, and all those
 * losses reach the dispatcher before there is a transfer to abort. The other threads hold the next blocks;
 * the first thread dispatches the start block, and then block 257, whose identifier is that of block 1. The
 * data blocks fail because the link repeats one of their two packets in place of the other.
 */
module Overtaking {
  import opened Bytes
  import opened Protocol
  import opened Reblock
  import opened Epoch
  import opened Turnstile
  import opened Dispatch
  import R = TurnstileResets
  import P = Pipeline
  import E = EndToEnd
  import opened Witnesses

  // ---------------------------------------------------------------------------------------------
  // The decoders
  // ---------------------------------------------------------------------------------------------

  /** 258 jobs, of which those from 1 to 256 fail. */
  predicate Failing<J, O>(c: Config<J, O>, input: seq<Item<J>>) {
    && 2 <= c.workers <= 255 && c.base == 0 && c.inCapacity.None? && c.outCapacity.None?
    && |input| == 258
    && (forall k :: 0 <= k < 258 ==> input[k].id == Id(k))
    && (forall k :: 0 <= k < 258 ==> (ResultAt(c, input, k).None? <==> 1 <= k <= 256))
  }

  function Failures(workers: nat): nat
    requires workers <= 255
  {
    257 - workers
  }

  /** Thread 0 holds job 0, threads 1 to `j` those after the failed ones. */
  function Threads(workers: nat, j: nat): (threads: seq<Thread>)
    requires j < workers <= 255
    ensures |threads| == workers
  {
    seq(workers, i requires 0 <= i < workers =>
      if i == 0 then Working(0) else if i <= j then Working(257 - workers + i) else Idle)
  }

  function Nones<O>(n: nat): (out: seq<Option<O>>)
    ensures |out| == n && forall i :: 0 <= i < n ==> out[i] == None
  {
    seq(n, i => None)
  }

  /** The first `f` jobs are in the queue. */
  function Queued<J, O>(c: Config<J, O>, input: seq<Item<J>>, f: nat): State<J, O> {
    Init(c).(input := input, fed := f)
  }

  lemma {:induction false} LeadsQueued<J(!new), O>(c: Config<J, O>, input: seq<Item<J>>, f: nat)
    requires Failing(c, input) && f <= 258
    ensures Leads(c, Queued(c, input, 0), Queued(c, input, f), 0, false)
  {
    if f == 0 {
      LeadsNowhere(c, Queued(c, input, 0), 0, false);
    } else {
      LeadsQueued(c, input, f - 1);
      LeadsOn(c, Queued(c, input, 0), Queued(c, input, f - 1), 0, false, Feed);
    }
  }

  /** Thread 0 holds job 0, and `n` jobs have failed in thread 1. */
  function Failed<J, O>(c: Config<J, O>, input: seq<Item<J>>, n: nat): State<J, O>
    requires 2 <= c.workers <= 255
  {
    State(input, 258, n + 1, Threads(c.workers, 0), 0, None, Nones(n), 0, 0, Range(1, n + 1))
  }

  lemma FailsNext<J(!new), O>(c: Config<J, O>, s0: State<J, O>, input: seq<Item<J>>, n: nat)
    requires Failing(c, input) && n < 256 && Leads(c, s0, Failed(c, input, n), 0, false)
    ensures Leads(c, s0, Failed(c, input, n + 1), 0, false)
  {
    var s := Failed(c, input, n);
    LeadsOn(c, s0, s, 0, false, Pull(1));
    var s1 := s.(pulled := n + 2, threads := s.threads[1 := Working(n + 1)]);
    assert Apply(c, s, Pull(1)) == s1;
    LeadsOn(c, s0, s1, 0, false, Work(1));
    assert s1.threads[1 := Idle] == s.threads;
    assert Nones<O>(n) + [None] == Nones(n + 1);
    assert Range(1, n + 1) + {n + 1} == Range(1, n + 2);
    assert Apply(c, s1, Work(1)) == Failed(c, input, n + 1);
  }

  lemma {:induction false} LeadsFailed<J(!new), O>(c: Config<J, O>, input: seq<Item<J>>, n: nat)
    requires Failing(c, input) && n <= Failures(c.workers)
    ensures Leads(c, Queued(c, input, 0), Failed(c, input, n), 0, false)
  {
    if n == 0 {
      LeadsQueued(c, input, 258);
      var s := Queued(c, input, 258);
      LeadsOn(c, Queued(c, input, 0), s, 0, false, Pull(0));
      assert s.threads[0 := Working(0)] == Threads(c.workers, 0);
      assert Apply(c, s, Pull(0)) == Failed(c, input, 0);
    } else {
      LeadsFailed(c, input, n - 1);
      FailsNext(c, Queued(c, input, 0), input, n - 1);
    }
  }

  /** Threads 1 to `j` hold the jobs after the failed ones. */
  function Held<J, O>(c: Config<J, O>, input: seq<Item<J>>, j: nat): State<J, O>
    requires j < c.workers && 2 <= c.workers <= 255
  {
    var f := Failures(c.workers);
    Failed(c, input, f).(pulled := f + 1 + j, threads := Threads(c.workers, j))
  }

  lemma {:induction false} LeadsHeld<J(!new), O>(c: Config<J, O>, input: seq<Item<J>>, j: nat)
    requires Failing(c, input) && j < c.workers
    ensures Leads(c, Queued(c, input, 0), Held(c, input, j), 0, false)
  {
    if j == 0 {
      LeadsFailed(c, input, Failures(c.workers));
    } else {
      LeadsHeld(c, input, j - 1);
      var s := Held(c, input, j - 1);
      LeadsOn(c, Queued(c, input, 0), s, 0, false, Pull(j));
      assert s.threads[j := Working(s.pulled)] == Threads(c.workers, j);
      assert Apply(c, s, Pull(j)) == Held(c, input, j);
    }
  }

  /** The failures, the first job and the last one, in this order. */
  lemma Overtakes<J(!new), O>(c: Config<J, O>, input: seq<Item<J>>) returns (s: State<J, O>)
    requires Failing(c, input)
    ensures Leads(c, Queued(c, input, 0), s, 0, false)
    ensures s.consumed == 0 && |s.failed| == Failures(c.workers)
    ensures s.out == Nones(Failures(c.workers)) + [ResultAt(c, input, 0), ResultAt(c, input, 257)]
  {
    var s0 := Queued(c, input, 0);
    LeadsHeld(c, input, c.workers - 1);
    var s1 := Held(c, input, c.workers - 1);
    var s2 := s1.(threads := s1.threads[0 := Sent(0)], holder := Some(0), out := s1.out + [ResultAt(c, input, 0)]);
    WorksAndSends(c, s0, s1, 0, false, 0, 0, s2);
    var s3 := s2.(threads := s2.threads[0 := Idle], holder := None, turn := 1, done := 1);
    Finishes(c, s0, s2, 0, false, 0, 0, s3);
    var s4 := s3.(threads := s3.threads[0 := Working(257)], pulled := 258);
    Pulls(c, s0, s3, 0, false, 0, s4);
    s := s4.(threads := s4.threads[0 := Sent(257)], holder := Some(0), out := s4.out + [ResultAt(c, input, 257)]);
    WorksAndSends(c, s0, s4, 0, false, 0, 257, s);
  }

  // ---------------------------------------------------------------------------------------------
  // The diode
  // ---------------------------------------------------------------------------------------------

  const DATA := 256

  function TheScript(): seq<Message> {
    Script(0, DATA)
  }

  /** Of every data block only one packet arrives, twice. */
  predicate Spoiled(k: nat) {
    1 <= k <= DATA
  }

  ghost function Jobs(sys: P.System, script: seq<Message>, k: nat): (jobs: seq<Item<seq<Packet>>>)
    requires Has(sys, script) && k <= |script|
    ensures |jobs| == k
  {
    seq(k, i requires 0 <= i < k => Item(Id(i), PacketsAt(sys, script, i, Spoiled(i))))
  }

  /** The receiver after the packets of the first `k` blocks, with idle decoders. */
  ghost predicate Gathered(sys: P.System, script: seq<Message>, r: P.Receiving, k: nat)
    requires Has(sys, script) && k <= |script|
  {
    && Expecting(r, k) && r.epoch.first == 0 && r.events == [] && r.restarts == 0 && r.mark == 0
    && r.decoding == Queued(P.Decoding(sys, 0), Jobs(sys, script, k), 0)
  }

  lemma GatheredFirst(sys: P.System, script: seq<Message>)
    requires Has(sys, script) && script != []
    ensures var batch := BatchAt(sys, script, 0, false);
            Gathered(sys, script, WithBlock(P.Opening(sys, batch[0]), 0, PacketsAt(sys, script, 0, false)), 1)
  {
    assert [] + [Item(Id(0), PacketsAt(sys, script, 0, Spoiled(0)))] == Jobs(sys, script, 1);
  }

  lemma GatheredNext(sys: P.System, script: seq<Message>, r: P.Receiving, k: nat)
    requires Has(sys, script) && k < |script| && Gathered(sys, script, r, k)
    ensures Gathered(sys, script, WithBlock(r, k, PacketsAt(sys, script, k, Spoiled(k))), k + 1)
  {
    assert Jobs(sys, script, k) + [Item(Id(k), PacketsAt(sys, script, k, Spoiled(k)))] == Jobs(sys, script, k + 1);
  }

  /** From `s`, in which nothing has been received yet, some run gathers the packets of `k` blocks. */
  ghost predicate CanGather(sys: P.System, script: seq<Message>, s: P.State, k: nat)
    requires Has(sys, script) && k <= |script|
  {
    exists r, arrived ::
      Reached(sys, s.(receiving := Some(r)), TooManyFailures, arrived) && Gathered(sys, script, r, k)
  }

  lemma GatherFirst(sys: P.System, script: seq<Message>, s: P.State)
    requires Shown(sys, script) && AllOnLink(sys, script, s) && s.receiving.None? && script != []
    requires Reached(sys, s, TooManyFailures, [])
    ensures CanGather(sys, script, s, 1)
  {
    var batch := BatchAt(sys, script, 0, false);
    var r := WithBlock(P.Opening(sys, batch[0]), 0, PacketsAt(sys, script, 0, false));
    ReceiveFirst(sys, script, s, 0, false, TooManyFailures, s.(receiving := Some(r)));
    GatheredFirst(sys, script);
  }

  lemma GatherNext(sys: P.System, script: seq<Message>, s: P.State, k: nat)
    requires Shown(sys, script) && AllOnLink(sys, script, s) && k < |script| && CanGather(sys, script, s, k)
    ensures CanGather(sys, script, s, k + 1)
  {
    var r, arrived :|
      Reached(sys, s.(receiving := Some(r)), TooManyFailures, arrived) && Gathered(sys, script, r, k);
    var r' := WithBlock(r, k, PacketsAt(sys, script, k, Spoiled(k)));
    var next := s.(receiving := Some(r'));
    ReceiveNext(
      sys, script, s.(receiving := Some(r)), k, Spoiled(k), TooManyFailures, arrived, next);
    GatheredNext(sys, script, r, k);
  }

  lemma GatherAll(sys: P.System, script: seq<Message>, s: P.State)
    requires Shown(sys, script) && AllOnLink(sys, script, s) && s.receiving.None? && script != []
    requires Reached(sys, s, TooManyFailures, [])
    ensures CanGather(sys, script, s, |script|)
  {
    GatherFirst(sys, script, s);
    for k := 1 to |script|
      invariant CanGather(sys, script, s, k)
    {
      GatherNext(sys, script, s, k);
    }
  }

  function Losses(n: nat): (events: seq<Event>)
    ensures |events| == n
  {
    seq(n, i => Lost)
  }

  lemma {:induction false} NothingToAbort(n: nat)
    ensures Trace(Losses(n)) == []
  {
    if n == 0 {
    } else {
      NothingToAbort(n - 1);
      assert Losses(n) == Losses(n - 1) + [Lost];
      TraceSnoc(Losses(n - 1), Lost);
    }
  }

  /** After the dispatcher has taken `n` losses. */
  function Lossy(s: P.State, n: nat): P.State
    requires s.receiving.Some?
  {
    var r := s.receiving.value;
    s.(receiving := Some(r.(decoding := r.decoding.(consumed := n), events := Losses(n))))
  }

  lemma LoseOne(sys: P.System, s: P.State, n: nat, arrived: seq<Arrival>)
    requires P.Sensible(sys) && s.receiving.Some? && n < |s.receiving.value.decoding.out|
    requires s.receiving.value.decoding.out[n] == None && Reached(sys, Lossy(s, n), TooManyFailures, arrived)
    ensures Reached(sys, Lossy(s, n + 1), TooManyFailures, arrived)
  {
    assert Losses(n) + [Lost] == Losses(n + 1);
    DispatchLoss(sys, Lossy(s, n), TooManyFailures, arrived, Lossy(s, n + 1));
  }

  lemma LoseAll(sys: P.System, s: P.State, n: nat, arrived: seq<Arrival>)
    requires P.Sensible(sys) && Reached(sys, s, TooManyFailures, arrived) && s.receiving.Some?
    requires s.receiving.value.events == [] && s.receiving.value.decoding.consumed == 0
    requires n <= |s.receiving.value.decoding.out|
    requires forall i :: 0 <= i < n ==> s.receiving.value.decoding.out[i] == None
    ensures Reached(sys, Lossy(s, n), TooManyFailures, arrived)
  {
    assert Lossy(s, 0) == s;
    for k := 0 to n
      invariant Reached(sys, Lossy(s, k), TooManyFailures, arrived)
    {
      LoseOne(sys, s, k, arrived);
    }
  }

  lemma JobsFail(sys: P.System)
    requires Shown(sys, TheScript()) && 2 <= sys.decoders <= 255
    ensures Failing(P.Decoding(sys, 0), Jobs(sys, TheScript(), 258))
    ensures ResultAt(P.Decoding(sys, 0), Jobs(sys, TheScript(), 258), 0) == Some(BytesAt(sys, TheScript(), 0))
    ensures ResultAt(P.Decoding(sys, 0), Jobs(sys, TheScript(), 258), 257) == Some(BytesAt(sys, TheScript(), 257))
  {
    forall k: nat | k < 258
      ensures ResultAt(P.Decoding(sys, 0), Jobs(sys, TheScript(), 258), k)
           == if Spoiled(k) then None else Some(BytesAt(sys, TheScript(), k))
    {
      DecodesUnlessSpoiled(sys, TheScript(), k, Spoiled(k));
    }
  }

  /** The decoders have sent the losses, the start block and the end block. */
  ghost predicate AllDecoded(sys: P.System, r: P.Receiving)
    requires Has(sys, TheScript()) && sys.decoders <= 255
  {
    && r.events == [] && r.restarts == 0 && r.mark == 0 && r.decoding.consumed == 0
    && |r.decoding.failed| == Failures(sys.decoders)
    && r.decoding.out == Nones(Failures(sys.decoders))
                         + [Some(BytesAt(sys, TheScript(), 0)), Some(BytesAt(sys, TheScript(), 257))]
  }

  lemma DecodeAll(sys: P.System, s: P.State, arrived: seq<Arrival>) returns (next: P.State)
    requires Shown(sys, TheScript()) && 2 <= sys.decoders <= 255
    requires Reached(sys, s, TooManyFailures, arrived)
    requires s.receiving.Some? && Gathered(sys, TheScript(), s.receiving.value, 258)
    ensures Reached(sys, next, TooManyFailures, arrived)
    ensures next.receiving.Some? && AllDecoded(sys, next.receiving.value)
  {
    JobsFail(sys);
    var d := Overtakes(P.Decoding(sys, 0), Jobs(sys, TheScript(), 258));
    var own := DecodersLead(sys, s, d, TooManyFailures, arrived);
    next := s.(receiving := Some(s.receiving.value.(decoding := d, own := own)));
  }

  lemma DispatchAll(sys: P.System, s: P.State, arrived: seq<Arrival>) returns (next: P.State)
    requires Shown(sys, TheScript()) && 2 <= sys.decoders <= 255
    requires Reached(sys, s, TooManyFailures, arrived)
    requires s.receiving.Some? && AllDecoded(sys, s.receiving.value)
    ensures Reached(sys, next, TooManyFailures, arrived) && next.receiving.Some?
    ensures next.receiving.value.restarts == 0 && next.receiving.value.mark == 0
    ensures next.receiving.value.decoding.failed == s.receiving.value.decoding.failed
    ensures next.receiving.value.events
         == Losses(Failures(sys.decoders)) + [Incoming(TheScript()[0])] + [Incoming(TheScript()[257])]
  {
    var f := Failures(sys.decoders);
    LoseAll(sys, s, f, arrived);
    var s1 := Lossy(s, f);
    var s2 := s1.(receiving := Some(P.TakeNext(s1.receiving.value, Incoming(TheScript()[0]))));
    DispatchBlock(sys, TheScript(), s1, 0, TooManyFailures, arrived, s2);
    next := s2.(receiving := Some(P.TakeNext(s2.receiving.value, Incoming(TheScript()[257]))));
    DispatchBlock(sys, TheScript(), s2, 257, TooManyFailures, arrived, next);
  }

  lemma DecodedRun(sys: P.System) returns (s: P.State, arrived: seq<Arrival>)
    requires Shown(sys, TheScript()) && 2 <= sys.decoders <= 255
    ensures Reached(sys, s, TooManyFailures, arrived)
    ensures s.receiving.Some? && AllDecoded(sys, s.receiving.value)
  {
    var script := TheScript();
    var sent := SendAll(sys, script, TooManyFailures);
    GatherAll(sys, script, sent);
    var r, a :| Reached(sys, sent.(receiving := Some(r)), TooManyFailures, a) && Gathered(sys, script, r, |script|);
    arrived := a;
    s := DecodeAll(sys, sent.(receiving := Some(r)), arrived);
  }

  lemma LossesThenAll(losses: seq<Event>)
    requires Trace(losses) == []
    ensures Trace(losses + [Incoming(TheScript()[0])] + [Incoming(TheScript()[257])]) == [EmptyQueue()]
  {
    StartToEnd(losses, TheScript()[0], None, TheScript()[257]);
    assert losses + [Incoming(TheScript()[0])] + [] == losses + [Incoming(TheScript()[0])];
  }

  lemma OvertakenRun(sys: P.System) returns (s: P.State, arrived: seq<Arrival>)
    requires Shown(sys, TheScript()) && 2 <= sys.decoders <= 255
    ensures Reached(sys, s, TooManyFailures, arrived) && s.receiving.Some?
    ensures s.receiving.value.restarts == 0 && s.receiving.value.mark == 0
    ensures |s.receiving.value.decoding.failed| == Failures(sys.decoders)
    ensures Trace(s.receiving.value.events) == [EmptyQueue()]
  {
    var decoded, a := DecodedRun(sys);
    arrived := a;
    s := DispatchAll(sys, decoded, arrived);
    NothingToAbort(Failures(sys.decoders));
    LossesThenAll(Losses(Failures(sys.decoders)));
  }

  /**
   * For every number of decoders from 2 to 255 there is a run without a reset, in which decoders and failed
   * blocks together are 257, and at the end of which a client is told of a success although none of its
   * 256 bytes is delivered. The run is tame but for the number of failures.
   */
  lemma FewFailuresIsExact(decoders: nat) returns (sys: P.System, s: P.State, arrived: seq<Arrival>)
    requires 2 <= decoders <= 255
    ensures P.Sensible(sys) && Real(sys) && sys.decoders == decoders && Reached(sys, s, TooManyFailures, arrived)
    ensures s.receiving.Some? && s.receiving.value.restarts == 0
    ensures decoders + |R.OwnFailures(s.receiving.value.decoding.failed, s.receiving.value.mark)| == 257
    ensures Deceived(sys, s) && !E.AllSafe(sys, s)
  {
    sys := TheSystem(DATA, decoders);
    TheSystemIsShown(0, DATA, decoders);
    TheSystemIsReal(DATA, decoders);
    s, arrived := OvertakenRun(sys);
    EmptyQueueDeceives(sys, DATA, s);
    assert R.OwnFailures(s.receiving.value.decoding.failed, 0) == s.receiving.value.decoding.failed;
  }
}
