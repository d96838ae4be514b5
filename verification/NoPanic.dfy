/**
 * In every run whatsoever the dispatcher meets only blocks that were sent, so that none of the accessors
 * panics on them (src/protocol.rs, src/receive/dispatch.rs): however many blocks fail, and whatever is reset.
 */
module NoPanic {
  import opened Bytes
  import opened Protocol
  import opened Reblock
  import opened Epoch
  import opened TurnstileResets
  import opened Pipeline
  import opened EndToEnd

  /** The bytes of some block that was sent. */
  ghost predicate IsSent(sys: System, merged: seq<Message>, block: seq<u8>)
    requires Merged(sys, merged)
  {
    exists n: nat :: n < |merged| && block == BytesOf(sys, merged, n)
  }

  /** The packets of one job were encoded from one block, whose identifier it carries. */
  ghost predicate OneBlock(sys: System, merged: seq<Message>, item: T.Item<seq<Packet>>)
    requires Merged(sys, merged)
  {
    exists n: nat ::
      n < |merged| && item.id == Id(n) && From(sys.codec, Id(n), BytesOf(sys, merged, n), item.job)
  }

  ghost predicate Proper(sys: System, merged: seq<Message>, r: Receiving)
    requires Merged(sys, merged)
  {
    && r.window == WindowOf(r.epoch)
    && Faithful(r.epoch, r.kept, sys.threshold)
    && Genuine(sys, merged, r.kept)
    && (forall k :: 0 <= k < |r.decoding.input| ==> OneBlock(sys, merged, r.decoding.input[k]))
    && (forall i :: 0 <= i < |r.decoding.out| && r.decoding.out[i].Some? ==>
          IsSent(sys, merged, r.decoding.out[i].value))
  }

  ghost predicate Sane(sys: System, s: State) {
    && Sensible(sys) && SendingInv(sys, s)
    && (s.receiving.Some? ==> Proper(sys, s.merged, s.receiving.value))
  }

  lemma OneBlockStays(sys: System, merged: seq<Message>, m: Message, item: T.Item<seq<Packet>>)
    requires Merged(sys, merged) && Merged(sys, merged + [m]) && OneBlock(sys, merged, item)
    ensures OneBlock(sys, merged + [m], item)
  {
    var n: nat :| n < |merged| && item.id == Id(n) && From(sys.codec, Id(n), BytesOf(sys, merged, n), item.job);
    assert BytesOf(sys, merged + [m], n) == BytesOf(sys, merged, n);
  }

  lemma IsSentStays(sys: System, merged: seq<Message>, m: Message, block: seq<u8>)
    requires Merged(sys, merged) && Merged(sys, merged + [m]) && IsSent(sys, merged, block)
    ensures IsSent(sys, merged + [m], block)
  {
    var n: nat :| n < |merged| && block == BytesOf(sys, merged, n);
    assert BytesOf(sys, merged + [m], n) == BytesOf(sys, merged, n);
  }

  lemma ProperStays(sys: System, merged: seq<Message>, m: Message, r: Receiving)
    requires Merged(sys, merged) && Merged(sys, merged + [m]) && Proper(sys, merged, r)
    ensures Proper(sys, merged + [m], r)
  {
    forall k | 0 <= k < |r.decoding.input|
      ensures OneBlock(sys, merged + [m], r.decoding.input[k])
    {
      OneBlockStays(sys, merged, m, r.decoding.input[k]);
    }
    forall i | 0 <= i < |r.decoding.out| && r.decoding.out[i].Some?
      ensures IsSent(sys, merged + [m], r.decoding.out[i].value)
    {
      IsSentStays(sys, merged, m, r.decoding.out[i].value);
    }
  }

  /** The packets of a block that has been emitted. */
  lemma EmittedIsOneBlock(sys: System, merged: seq<Message>, e: Epoch, kept: seq<Arrival>, i: nat)
    requires Merged(sys, merged) && Genuine(sys, merged, kept) && Faithful(e, kept, sys.threshold)
    requires sys.threshold > 0 && i < |e.emitted|
    ensures OneBlock(sys, merged, T.Item(Id(e.first + i), e.emitted[i]))
  {
    var n := e.first + i;
    FaithfulAt(e, kept, sys.threshold, n);
    OfBlockMembers(kept, n);
    assert Arrival(n, e.emitted[i][0]) in kept;
    assert From(sys.codec, Id(n), BytesOf(sys, merged, n), e.emitted[i]);
  }

  /** A new job is the next block that the epoch emits. */
  lemma JobIsEmitted(sys: System, r: Receiving, batch: seq<Arrival>, i: nat)
    requires r.window == WindowOf(r.epoch) && |r.epoch.slots| == WINDOW_WIDTH && Plausible(batch, Cur(r.epoch))
    requires i < |NewJobs(sys, r, batch)|
    ensures var e, j := Absorb(r.epoch, batch, sys.threshold), |r.epoch.emitted| + i;
            j < |e.emitted| && NewJobs(sys, r, batch)[i] == T.Item(Id(e.first + j), e.emitted[j])
  {
    NewJobsAre(sys, r, batch);
    assert Cur(r.epoch) + i == r.epoch.first + (|r.epoch.emitted| + i);
  }

  lemma JobsAreBlocks(sys: System, merged: seq<Message>, r: Receiving, batch: seq<Arrival>, i: nat)
    requires r.window == WindowOf(r.epoch) && |r.epoch.slots| == WINDOW_WIDTH && Plausible(batch, Cur(r.epoch))
    requires Merged(sys, merged) && sys.threshold > 0 && i < |NewJobs(sys, r, batch)|
    requires Genuine(sys, merged, Reblocked(sys, r, batch).kept)
    requires Faithful(Reblocked(sys, r, batch).epoch, Reblocked(sys, r, batch).kept, sys.threshold)
    ensures OneBlock(sys, merged, NewJobs(sys, r, batch)[i])
  {
    JobIsEmitted(sys, r, batch, i);
    var next := Reblocked(sys, r, batch);
    EmittedIsOneBlock(sys, merged, next.epoch, next.kept, |r.epoch.emitted| + i);
  }

  lemma ReblockedProper(sys: System, merged: seq<Message>, r: Receiving, batch: seq<Arrival>)
    requires Sensible(sys) && Merged(sys, merged) && Proper(sys, merged, r)
    requires Genuine(sys, merged, batch) && Plausible(batch, Cur(r.epoch))
    ensures Proper(sys, merged, Reblocked(sys, r, batch))
  {
    NewJobsAre(sys, r, batch);
    ReblockedKept(sys, merged, r, batch);
    var jobs := NewJobs(sys, r, batch);
    forall i | 0 <= i < |jobs|
      ensures OneBlock(sys, merged, jobs[i])
    {
      JobsAreBlocks(sys, merged, r, batch, i);
    }
  }

  lemma ReopenedProper(sys: System, merged: seq<Message>, r: Receiving, first: Arrival)
    requires Sensible(sys) && Merged(sys, merged) && Proper(sys, merged, r) && first.packet.id == Id(first.number)
    ensures Proper(sys, merged, Reopened(r, first))
  {
    FirstIsFaithful(first.number, sys.threshold);
  }

  /** A result is what was sent, whatever else the decoders hold. */
  lemma ResultIsSent(sys: System, merged: seq<Message>, item: T.Item<seq<Packet>>)
    requires Sensible(sys) && Merged(sys, merged) && OneBlock(sys, merged, item)
    ensures var o := sys.codec.decode(item.id, item.job); o.Some? ==> IsSent(sys, merged, o.value)
  {
    var n: nat :| n < |merged| && item.id == Id(n) && From(sys.codec, Id(n), BytesOf(sys, merged, n), item.job);
    BlockRoundTrip(merged[n], sys.transferLength);
  }

  lemma DecodedProper(sys: System, merged: seq<Message>, r: Receiving, step: T.Step<seq<Packet>>, next: Receiving)
    requires Sensible(sys) && Merged(sys, merged) && Proper(sys, merged, r)
    requires DecoderStep(step) && T.Enabled(Decoding(sys, r.epoch.first), r.decoding, step)
    requires next == Decoded(sys, r, step)
    ensures Proper(sys, merged, next)
  {
    if next.decoding.out != r.decoding.out {
      ResultIsSent(sys, merged, r.decoding.input[T.Key(r.decoding.threads[step.t])]);
    }
  }

  lemma GenuineOnLink(sys: System, s: State, batch: seq<Arrival>)
    requires Sensible(sys) && SendingInv(sys, s) && forall a :: a in batch ==> OnLink(s, a)
    ensures Genuine(sys, s.merged, batch)
    ensures forall a :: a in batch ==> a.packet.id == Id(a.number)
  {
    LinkIsGenuine(sys, s.(receiving := None), batch);
  }

  lemma ArrivingProper(sys: System, s: State, step: Step)
    requires Sane(sys, s) && Enabled(sys, s, step) && (step.Deliver? || step.Restart?)
    ensures Proper(sys, s.merged, Apply(sys, s, step).receiving.value)
  {
    var batch := step.batch;
    GenuineOnLink(sys, s, batch);
    assert batch[0] in batch;
    if step.Restart? {
      ReopenedProper(sys, s.merged, s.receiving.value, batch[0]);
      ReblockedProper(sys, s.merged, Reopened(s.receiving.value, batch[0]), batch);
    } else if s.receiving.Some? {
      ReblockedProper(sys, s.merged, s.receiving.value, batch);
    } else {
      FirstIsFaithful(batch[0].number, sys.threshold);
      ReblockedProper(sys, s.merged, Opening(sys, batch[0]), batch);
    }
  }

  lemma SendingKept(sys: System, s: State, step: Step)
    requires Sensible(sys) && SendingInv(sys, s) && Enabled(sys, s, step) && (step.ClientSends? || step.Encode?)
    ensures SendingInv(sys, Apply(sys, s, step))
  {
    var alone := s.(receiving := None);
    if step.ClientSends? {
      ClientSendsKeepsInv(sys, alone, step);
    } else {
      EncodeKeepsInv(sys, alone, step);
    }
  }

  lemma StepKeepsSane(sys: System, s: State, step: Step)
    requires Sane(sys, s) && Enabled(sys, s, step)
    ensures Sane(sys, Apply(sys, s, step))
  {
    match step
    case ClientSends(m) =>
      SendingKept(sys, s, step);
      if s.receiving.Some? {
        ProperStays(sys, s.merged, m, s.receiving.value);
      }
    case Encode(_) => SendingKept(sys, s, step);
    case Deliver(_) => ArrivingProper(sys, s, step);
    case Restart(_) => ArrivingProper(sys, s, step);
    case Decode(decoderStep) =>
      var r := s.receiving.value;
      DecodedProper(sys, s.merged, r, decoderStep, Decoded(sys, r, decoderStep));
    case DispatchNext =>
    case ClientWorker(_) =>
  }

  lemma {:induction false} RunKeepsSane(sys: System, s: State, steps: seq<Step>)
    requires Sane(sys, s) && Legal(sys, s, steps)
    ensures Sane(sys, Exec(sys, s, steps))
    decreases |steps|
  {
    if steps == [] {
    } else {
      StepKeepsSane(sys, s, steps[0]);
      RunKeepsSane(sys, Apply(sys, s, steps[0]), steps[1..]);
    }
  }

  /** Every block that is or was handed to the dispatcher is one that was sent, and no accessor panics on it. */
  lemma DispatchNeverPanics(sys: System, steps: seq<Step>)
    requires Sensible(sys) && Legal(sys, Init(sys), steps)
    ensures var s := Exec(sys, Init(sys), steps);
            s.receiving.Some? ==>
              forall i :: 0 <= i < |s.receiving.value.decoding.out| && s.receiving.value.decoding.out[i].Some? ==>
                && WellFormed(s.receiving.value.decoding.out[i].value)
                && Parse(s.receiving.value.decoding.out[i].value) in s.merged
  {
    InitInv(sys);
    RunKeepsSane(sys, Init(sys), steps);
    var s := Exec(sys, Init(sys), steps);
    if s.receiving.Some? {
      forall i | 0 <= i < |s.receiving.value.decoding.out| && s.receiving.value.decoding.out[i].Some?
        ensures WellFormed(s.receiving.value.decoding.out[i].value)
        ensures Parse(s.receiving.value.decoding.out[i].value) in s.merged
      {
        SentIsWellFormed(sys, s.merged, s.receiving.value.decoding.out[i].value);
      }
    }
  }

  lemma SentIsWellFormed(sys: System, merged: seq<Message>, block: seq<u8>)
    requires Merged(sys, merged) && IsSent(sys, merged, block)
    ensures WellFormed(block) && Parse(block) in merged
  {
    var n: nat :| n < |merged| && block == BytesOf(sys, merged, n);
    BlockRoundTrip(merged[n], sys.transferLength);
  }
}
