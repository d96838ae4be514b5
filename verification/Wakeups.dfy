/**
 * No wake-up is lost in any run of the whole diode (src/send/encoding.rs, src/receive/decode.rs,
 * src/receive/reblock.rs), with resets at any time and any number of failures.
 */
module Wakeups {
  import opened Bytes
  import opened TurnstileResets
  import opened Pipeline
  import opened EndToEnd

  ghost predicate AllAwake(s: State) {
    && Awake(s.encoding) && Runs.Ordered(s.encoding)
    && (s.receiving.Some? ==>
          Awake(s.receiving.value.decoding) && Runs.Ordered(s.receiving.value.decoding))
  }

  lemma StepKeepsAllAwake(sys: System, s: State, step: Step)
    requires Sensible(sys) && AllAwake(s) && Enabled(sys, s, step)
    ensures AllAwake(Apply(sys, s, step))
  {
    match step
    case ClientSends(m) =>
      ResetKeepsAwake(s.encoding, 0, Apply(sys, s, step).encoding.input[|s.encoding.input|..]);
    case Encode(encoderStep) => StepKeepsAwake(Encoding(sys), s.encoding, encoderStep);
    case Deliver(batch) =>
      var base := if s.receiving.Some? then s.receiving.value else Opening(sys, batch[0]);
      ResetKeepsAwake(base.decoding, 0, NewJobs(sys, base, batch));
    case Restart(batch) =>
      var base := Reopened(s.receiving.value, batch[0]);
      ResetKeepsAwake(s.receiving.value.decoding, batch[0].packet.id, []);
      ResetKeepsAwake(base.decoding, 0, NewJobs(sys, base, batch));
    case Decode(decoderStep) =>
      var r := s.receiving.value;
      StepKeepsAwake(Decoding(sys, r.epoch.first), r.decoding, decoderStep);
    case DispatchNext =>
      var r := s.receiving.value;
      StepKeepsAwake(Decoding(sys, r.epoch.first), r.decoding, T.Consume);
    case ClientWorker(_) =>
  }

  lemma {:induction false} RunKeepsAllAwake(sys: System, s: State, steps: seq<Step>)
    requires Sensible(sys) && AllAwake(s) && Legal(sys, s, steps)
    ensures AllAwake(Exec(sys, s, steps))
    decreases |steps|
  {
    if steps == [] {
    } else {
      StepKeepsAllAwake(sys, s, steps[0]);
      RunKeepsAllAwake(sys, Apply(sys, s, steps[0]), steps[1..]);
    }
  }

  /**
   * In every run whatsoever: an encoder or a decoder that is asleep although the identifier it holds is the
   * turn is about to be woken.
   */
  lemma NoWakeupIsLost(sys: System, steps: seq<Step>, t: nat)
    requires Sensible(sys) && Legal(sys, Init(sys), steps)
    ensures var e := Exec(sys, Init(sys), steps).encoding;
            t < |e.threads| && e.threads[t].Asleep? ==>
              && e.threads[t].k < |e.input|
              && (e.input[e.threads[t].k].id == e.turn ==>
                    exists u: nat :: u < |e.threads| && e.threads[u].Notifying?)
    ensures Exec(sys, Init(sys), steps).receiving.Some? ==>
              var d := Exec(sys, Init(sys), steps).receiving.value.decoding;
              t < |d.threads| && d.threads[t].Asleep? ==>
                && d.threads[t].k < |d.input|
                && (d.input[d.threads[t].k].id == d.turn ==>
                      exists u: nat :: u < |d.threads| && d.threads[u].Notifying?)
  {
    RunKeepsAllAwake(sys, Init(sys), steps);
    var s := Exec(sys, Init(sys), steps);
    AwakeMeans(s.encoding, t);
    if s.receiving.Some? {
      AwakeMeans(s.receiving.value.decoding, t);
    }
  }

  lemma AwakeMeans<J, O>(s: T.State<J, O>, t: nat)
    requires Awake(s)
    ensures t < |s.threads| && s.threads[t].Asleep? ==>
              && s.threads[t].k < |s.input|
              && (s.input[s.threads[t].k].id == s.turn ==>
                    exists u: nat :: u < |s.threads| && s.threads[u].Notifying?)
  {
    assert t < |s.threads| ==> T.Key(s.threads[t]) < |s.input|;
    if Overslept(s, t) {
      var u: nat :| T.AboutToNotify(s.threads, u);
      assert s.threads[u].Notifying?;
    }
  }
}
