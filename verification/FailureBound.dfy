/**
 * The bound on failed decodes is exact (src/receive/decode.rs): for every number of workers there is a
 * run with one failure more in which a block overtakes a failed one, 256 places further on.
 */
module FailureBound {
  import opened Bytes
  import opened Turnstile
  import opened TurnstileRuns

  /** Jobs are numbers; zero stands for a block that does not decode. */
  function Decoders(workers: nat): Config<nat, nat> {
    Config(workers, 0, None, None, (id, job) => if job == 0 then None else Some(job))
  }

  /** 257 blocks, the first `257 - workers` of which do not decode. */
  function Blocks(workers: nat): (items: seq<Item<nat>>)
    requires 1 <= workers <= 256
    ensures |items| == 257
  {
    seq(257, k requires 0 <= k < 257 => Item(Id(k), if k < 257 - workers then 0 else k))
  }

  function NoThreads(workers: nat): (threads: seq<Thread>)
    ensures |threads| == workers
  {
    seq(workers, i => Idle)
  }

  function Nones(n: nat): (out: seq<Option<nat>>)
    ensures |out| == n && Somes(out) == []
  {
    if n == 0 then [] else Nones(n - 1) + [None]
  }

  /** The first `m` blocks are submitted and `f` of them are in the queue. */
  function Queued(workers: nat, m: nat, f: nat): State<nat, nat>
    requires 1 <= workers <= 256 && m <= 257
  {
    State(Blocks(workers)[..m], f, 0, NoThreads(workers), 0, None, [], 0, 0, {})
  }

  lemma {:induction false} ReachQueued(workers: nat, m: nat, f: nat)
    requires 1 <= workers <= 256 && f <= m <= 257 && (f == 0 || m == 257)
    ensures Reachable(Decoders(workers), Queued(workers, m, f))
    decreases m + f
  {
    var c := Decoders(workers);
    if m == 0 {
      assert Legal(c, Init(c), []) && Exec(c, Init(c), []) == Queued(workers, 0, 0);
    } else if f == 0 {
      ReachQueued(workers, m - 1, 0);
      var s := Queued(workers, m - 1, 0);
      ReachStep(c, s, Submit(Blocks(workers)[m - 1]));
      assert Apply(c, s, Submit(Blocks(workers)[m - 1])) == Queued(workers, m, 0);
    } else {
      ReachQueued(workers, m, f - 1);
      ReachStep(c, Queued(workers, m, f - 1), Feed);
    }
  }

  /** Everything is queued and the first `n` blocks have failed, one after the other, in thread 0. */
  function Failing(workers: nat, n: nat): State<nat, nat>
    requires 1 <= workers <= 256 && n <= 257 - workers
  {
    State(Blocks(workers), 257, n, NoThreads(workers), 0, None, Nones(n), 0, 0, Range(0, n))
  }

  lemma FailsNext(workers: nat, n: nat)
    requires 1 <= workers <= 256 && n < 257 - workers && Reachable(Decoders(workers), Failing(workers, n))
    ensures Reachable(Decoders(workers), Failing(workers, n + 1))
  {
    var c, s := Decoders(workers), Failing(workers, n);
    ReachStep(c, s, Pull(0));
    var s1 := s.(pulled := n + 1, threads := s.threads[0 := Working(n)]);
    assert Apply(c, s, Pull(0)) == s1;
    ReachStep(c, s1, Work(0));
    assert s1.threads[0 := Idle] == NoThreads(workers);
    assert Apply(c, s1, Work(0)) == Failing(workers, n + 1);
  }

  lemma {:induction false} ReachFailing(workers: nat, n: nat)
    requires 1 <= workers <= 256 && n <= 257 - workers
    ensures Reachable(Decoders(workers), Failing(workers, n))
  {
    if n == 0 {
      ReachQueued(workers, 257, 257);
      assert Failing(workers, 0) == Queued(workers, 257, 257);
    } else {
      ReachFailing(workers, n - 1);
      FailsNext(workers, n - 1);
    }
  }

  function BusyThreads(workers: nat, j: nat): (threads: seq<Thread>)
    requires j < workers <= 256
    ensures |threads| == workers && threads[0] == Idle
  {
    seq(workers, i requires 0 <= i < workers => if 1 <= i <= j then Working(256 - workers + i) else Idle)
  }

  /** Threads 1 to `j` work on the blocks after the failed ones. */
  function Busy(workers: nat, j: nat): State<nat, nat>
    requires 1 <= workers <= 256 && j < workers
  {
    var n := 257 - workers;
    Failing(workers, n).(pulled := n + j, threads := BusyThreads(workers, j))
  }

  lemma BusyGrows(workers: nat, j: nat)
    requires 1 <= j < workers <= 256
    ensures BusyThreads(workers, j - 1)[j] == Idle
    ensures BusyThreads(workers, j) == BusyThreads(workers, j - 1)[j := Working(256 - workers + j)]
  {}

  lemma {:induction false} ReachBusyFrom(workers: nat, base: State<nat, nat>, j: nat)
    requires 1 <= workers <= 256 && j < workers && base.fed == 257
    requires base.threads == BusyThreads(workers, 0) && base.pulled == 257 - workers
    requires Reachable(Decoders(workers), base)
    ensures Reachable(Decoders(workers), base.(pulled := 257 - workers + j, threads := BusyThreads(workers, j)))
  {
    if j > 0 {
      ReachBusyFrom(workers, base, j - 1);
      var s := base.(pulled := 256 - workers + j, threads := BusyThreads(workers, j - 1));
      BusyGrows(workers, j);
      ReachStep(Decoders(workers), s, Pull(j));
      assert Apply(Decoders(workers), s, Pull(j)).threads == BusyThreads(workers, j);
    } else {
      assert base == base.(pulled := 257 - workers, threads := BusyThreads(workers, 0));
    }
  }

  lemma ReachBusy(workers: nat, j: nat)
    requires 1 <= workers <= 256 && j < workers
    ensures Reachable(Decoders(workers), Busy(workers, j))
  {
    ReachFailing(workers, 257 - workers);
    assert NoThreads(workers) == BusyThreads(workers, 0);
    ReachBusyFrom(workers, Failing(workers, 257 - workers), j);
  }

  /** Block 256 carries the identifier of block 0, so a thread that has decoded it takes its turn. */
  lemma TakesTheTurn(workers: nat, s: State<nat, nat>)
    requires 1 <= workers <= 256 && Reachable(Decoders(workers), s)
    requires s.input == Blocks(workers) && s.fed == 257 && s.pulled == 256 && s.turn == 0 && s.holder == None
    requires |s.threads| == workers && s.threads[0] == Idle
    ensures Reachable(Decoders(workers), s.(pulled := 257, threads := s.threads[0 := Sent(256)], holder := Some(0),
                                            out := s.out + [Some(256)]))
  {
    var c := Decoders(workers);
    ReachStep(c, s, Pull(0));
    var s1 := s.(pulled := 257, threads := s.threads[0 := Working(256)]);
    ReachStep(c, s1, Work(0));
    var s2 := s1.(threads := s.threads[0 := Contending(256)]);
    assert Apply(c, s1, Work(0)) == s2;
    ReachStep(c, s2, Acquire(0));
    var s3 := s2.(threads := s.threads[0 := Holding(256)], holder := Some(0));
    assert Apply(c, s2, Acquire(0)) == s3;
    ReachStep(c, s3, Send(0));
    assert s3.threads[0 := Sent(256)] == s.threads[0 := Sent(256)];
  }

  /**
   * With `257 - workers` failures, block 256 can be dispatched although block 0 failed and no other
   * block has been dispatched: the order of `OrderForever` is lost.
   */
  lemma FailureBoundIsExact(workers: nat)
    requires 1 <= workers <= 256
    ensures exists s: State<nat, nat> ::
              && Reachable(Decoders(workers), s)
              && workers + |s.failed| == 257
              && 0 in s.failed
              && Somes(s.out) == [256]
  {
    ReachBusy(workers, workers - 1);
    var s := Busy(workers, workers - 1);
    TakesTheTurn(workers, s);
    SomesSnoc(s.out, Some(256));
  }
}
