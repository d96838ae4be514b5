/** A run to which `LosslessLink.LosslessDelivery` applies, for any amount of data and any number of decoders. */
module LosslessRun {
  import opened Bytes
  import opened Protocol
  import opened Epoch
  import opened Pipeline
  import opened EndToEnd
  import opened LosslessLink
  import opened Witnesses

  /** Both packets of each of the first `k` blocks have arrived, each once. */
  ghost predicate AllOf(sys: System, script: seq<Message>, arrived: seq<Arrival>, k: nat)
    requires Has(sys, script) && k <= |script|
  {
    && Distinct(arrived) && (forall a :: a in arrived ==> a.number < k)
    && forall j :: 0 <= j < k ==>
         Arrival(j, First(sys, script, j)) in arrived && Arrival(j, Second(sys, script, j)) in arrived
  }

  lemma AllOfNext(sys: System, script: seq<Message>, arrived: seq<Arrival>, k: nat)
    requires Has(sys, script) && k < |script| && AllOf(sys, script, arrived, k)
    ensures AllOf(sys, script, arrived + BatchAt(sys, script, k, false), k + 1)
  {
    var batch := BatchAt(sys, script, k, false);
    assert batch[0] == Arrival(k, First(sys, script, k)) && batch[1] == Arrival(k, Second(sys, script, k));
    assert batch[0] in batch && batch[1] in batch;
    DistinctJoin(arrived, batch);
  }

  /** The receiver can have been given the first `k` blocks in this way. */
  ghost predicate CanArrive(sys: System, script: seq<Message>, s: State, k: nat)
    requires Has(sys, script) && k <= |script|
  {
    exists r, arrived ::
      && Reached(sys, s.(receiving := Some(r)), TooManyFailures, arrived) && AllOf(sys, script, arrived, k)
      && Expecting(r, k) && r.epoch.first == 0 && r.restarts == 0
  }

  lemma FirstExpects(sys: System, script: seq<Message>, r: Receiving)
    requires Shown(sys, script) && script != []
    requires r == WithBlock(Opening(sys, BatchAt(sys, script, 0, false)[0]), 0, PacketsAt(sys, script, 0, false))
    ensures Expecting(r, 1) && r.epoch.first == 0 && r.restarts == 0
  {}

  lemma FirstArrives(sys: System, script: seq<Message>, s: State)
    requires Shown(sys, script) && AllOnLink(sys, script, s) && s.receiving.None? && script != []
    requires Reached(sys, s, TooManyFailures, [])
    ensures CanArrive(sys, script, s, 1)
  {
    var batch := BatchAt(sys, script, 0, false);
    var r := WithBlock(Opening(sys, batch[0]), 0, PacketsAt(sys, script, 0, false));
    ReceiveFirst(sys, script, s, 0, false, TooManyFailures, s.(receiving := Some(r)));
    FirstExpects(sys, script, r);
    AllOfNext(sys, script, [], 0);
    assert [] + batch == batch;
    assert AllOf(sys, script, batch, 1);
  }

  lemma NextArrives(sys: System, script: seq<Message>, s: State, k: nat)
    requires Shown(sys, script) && AllOnLink(sys, script, s) && k < |script| && CanArrive(sys, script, s, k)
    ensures CanArrive(sys, script, s, k + 1)
  {
    var r, arrived :|
      && Reached(sys, s.(receiving := Some(r)), TooManyFailures, arrived) && AllOf(sys, script, arrived, k)
      && Expecting(r, k) && r.epoch.first == 0 && r.restarts == 0;
    var r' := WithBlock(r, k, PacketsAt(sys, script, k, false));
    ReceiveNext(
      sys, script, s.(receiving := Some(r)), k, false, TooManyFailures, arrived, s.(receiving := Some(r')));
    AllOfNext(sys, script, arrived, k);
  }

  lemma AllArrive(sys: System, script: seq<Message>, s: State)
    requires Shown(sys, script) && AllOnLink(sys, script, s) && s.receiving.None? && script != []
    requires Reached(sys, s, TooManyFailures, [])
    ensures CanArrive(sys, script, s, |script|)
  {
    FirstArrives(sys, script, s);
    for k := 1 to |script|
      invariant CanArrive(sys, script, s, k)
    {
      NextArrives(sys, script, s, k);
    }
  }

  lemma NoneLost(sys: System, script: seq<Message>, arrived: seq<Arrival>)
    requires Shown(sys, script) && Merged(sys, script) && AllOf(sys, script, arrived, |script|)
    ensures NothingLost(sys, script, 0, arrived)
  {
    forall n: nat, p | n < |script| && p in sys.codec.encode(Id(n), BytesOf(sys, script, n))
      ensures Arrival(n, p) in arrived
    {
      assert p in Halves(Id(n), BytesAt(sys, script, n));
      assert p == First(sys, script, n) || p == Second(sys, script, n);
    }
  }

  lemma ScriptIsMerged(sys: System, n: nat, decoders: nat)
    requires sys == TheSystem(n, decoders) && Has(sys, Script(0, n))
    ensures Merged(sys, Script(0, n))
  {}

  lemma ArrivedRun(sys: System, script: seq<Message>) returns (s: State, arrived: seq<Arrival>)
    requires Shown(sys, script) && script != []
    ensures Reached(sys, s, TooManyFailures, arrived) && AllOf(sys, script, arrived, |script|)
    ensures s.merged == script && s.receiving.Some?
    ensures s.receiving.value.epoch.first == 0 && s.receiving.value.restarts == 0
  {
    var sent := SendAll(sys, script, TooManyFailures);
    AllArrive(sys, script, sent);
    var r, a :|
      && Reached(sys, sent.(receiving := Some(r)), TooManyFailures, a) && AllOf(sys, script, a, |script|)
      && Expecting(r, |script|) && r.epoch.first == 0 && r.restarts == 0;
    s, arrived := sent.(receiving := Some(r)), a;
  }

  lemma UndisturbedRun(sys: System, n: nat, decoders: nat) returns (steps: seq<Step>)
    requires 1 <= decoders <= 255 && sys == TheSystem(n, decoders) && Shown(sys, Script(0, n))
    ensures Undisturbed(sys, steps)
    ensures Exec(sys, Init(sys), steps).merged == Script(0, n)
    ensures Exec(sys, Init(sys), steps).receiving.value.epoch.first == 0
  {
    var script := Script(0, n);
    var s, arrived := ArrivedRun(sys, script);
    steps :|
      && Legal(sys, Init(sys), steps) && Exec(sys, Init(sys), steps) == s
      && AllTameBut(sys, Init(sys), steps, TooManyFailures) && Arrivals(steps) == arrived
      && (NeverReset(s) ==> AllOnTime(sys, Init(sys), steps));
    ScriptIsMerged(sys, n, decoders);
    NoneLost(sys, script, arrived);
  }

  /**
   * For every amount of data and every number of decoders there are an undisturbed run and steps of the
   * receiver after which it is at rest and the client is served.
   */
  lemma LosslessRunExists(n: nat, decoders: nat) returns (sys: System, steps: seq<Step>, more: seq<Step>)
    requires 1 <= decoders <= 255
    ensures Sensible(sys) && Real(sys) && sys.decoders == decoders && Undisturbed(sys, steps)
    ensures CLIENT in sys.clients && |sys.clients[CLIENT].content| == n
    ensures Legal(sys, Exec(sys, Init(sys), steps), more) && AllOwn(more)
    ensures var s' := Exec(sys, Exec(sys, Init(sys), steps), more);
            && s'.receiving.Some? && AtRest(sys, s'.receiving.value)
            && Served(sys.clients[CLIENT], s'.receiving.value.events, CLIENT)
  {
    sys := TheSystem(n, decoders);
    TheSystemIsShown(0, n, decoders);
    TheSystemIsReal(n, decoders);
    steps := UndisturbedRun(sys, n, decoders);
    var s := Exec(sys, Init(sys), steps);
    WellAfter(sys, steps, 2);
    ComesToRest(sys, s, 2, Arrivals(steps));
    more :|
      && Legal(sys, s, more) && AllOwn(more)
      && Exec(sys, s, more).receiving.Some? && AtRest(sys, Exec(sys, s, more).receiving.value);
    OfScript(0, n);
    assert s.merged[0..] == s.merged;
    LosslessDelivery(sys, steps, more, CLIENT, 2, 40, 16, 0, 0);
    Stuck(sys, Exec(sys, s, more));
  }

  lemma Stuck(sys: System, s: State)
    requires Sensible(sys) && s.receiving.Some? && AtRest(sys, s.receiving.value)
    ensures !exists step :: OwnStep(step) && Enabled(sys, s, step)
  {
    if step :| OwnStep(step) && Enabled(sys, s, step) {
      AtRestMeansStuck(sys, s, step);
    }
  }
}
