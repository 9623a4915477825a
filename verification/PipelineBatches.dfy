/**
 What the pipeline hands on (pkg/hubble/pipeline.go, aggregator.go): every bucket a flow opens becomes
 one event of one flush, and when all stages have ended both writers got exactly those events.
 */
module PipelineBatches {
  import opened Pipeline

  /** A run, with the step taken at each point. */
  ghost predicate RunBy(states: seq<State>, steps: seq<Step>)
  {
    && |states| == |steps| + 1 && Initial(states[0])
    && forall i :: 0 <= i < |steps| ==> Enabled(states[i], steps[i]) && states[i + 1] == Apply(states[i], steps[i])
  }

  /** The events of a flush are the ones the builder made of its buckets. */
  function FlushOf(step: Step): seq<Event>
  {
    match step
    case AggStep(Tick(events)) => events
    case AggStep(Leave(events)) => events
    case AggStep(TakeDrop(_, Abandoned(events))) => events
    case _ => []
  }

  function Flushed(steps: seq<Step>): seq<Event>
  {
    if steps == [] then [] else Flushed(steps[..|steps| - 1]) + FlushOf(steps[|steps| - 1])
  }

  predicate OpensBucket(step: Step) { step == AggStep(TakeBucketed(true)) }

  predicate TakesFlow(step: Step)
  {
    step.AggStep? && (step.a.TakeFiltered? || step.a.TakeBucketed? || step.a.TakeDrop?)
  }

  predicate TakesDrop(step: Step) { step.AggStep? && step.a.TakeDrop? }

  function Count(steps: seq<Step>, p: Step -> bool): nat
  {
    if steps == [] then 0 else Count(steps[..|steps| - 1], p) + (if p(steps[|steps| - 1]) then 1 else 0)
  }

  function Pending(s: State): seq<Event> { if s.agg.Flushing? then s.agg.todo else [] }

  lemma CountNext(steps: seq<Step>, step: Step, p: Step -> bool)
    ensures Count(steps + [step], p) == Count(steps, p) + (if p(step) then 1 else 0)
  {
    assert (steps + [step])[..|steps|] == steps;
  }

  lemma FlushedNext(steps: seq<Step>, step: Step)
    ensures Flushed(steps + [step]) == Flushed(steps) + FlushOf(step)
  {
    assert (steps + [step])[..|steps|] == steps;
  }

  /** Flows and drops are counted as they are read. */
  ghost predicate FlowsCounted(first: State, steps: seq<Step>, s: State)
  {
    Count(steps, TakesFlow) + s.left == first.left && Count(steps, TakesDrop) == s.infra
  }

  /** Every bucket opened so far is open, waiting to be sent, or sent. */
  ghost predicate BucketsCounted(steps: seq<Step>, s: State)
  {
    && Flushed(steps) == s.emitted + Pending(s)
    && Count(steps, OpensBucket) == |Flushed(steps)| + s.buckets
    && (s.agg != Reading ==> s.buckets == 0)
  }

  lemma AggCounts(s: State, a: AggAct)
    requires CanAgg(s, a)
    ensures var t := DoAgg(s, a);
            && t.left + (if TakesFlow(AggStep(a)) then 1 else 0) == s.left
            && t.infra == s.infra + (if TakesDrop(AggStep(a)) then 1 else 0)
  {
    match a
    case TakeDrop(_, Delivered) =>
    case TakeDrop(_, Slow) =>
    case TakeDrop(_, Abandoned(_)) =>
    case TakeFiltered =>
    case TakeBucketed(_) =>
    case Tick(_) =>
    case Leave(_) =>
    case SendEvent =>
    case EndFlush =>
  }

  lemma AggFlushes(s: State, a: AggAct)
    requires CanAgg(s, a) && (s.agg != Reading ==> s.buckets == 0)
    ensures var t := DoAgg(s, a);
            && t.emitted + Pending(t) == s.emitted + Pending(s) + FlushOf(AggStep(a))
            && |FlushOf(AggStep(a))| + t.buckets == s.buckets + (if OpensBucket(AggStep(a)) then 1 else 0)
            && (t.agg != Reading ==> t.buckets == 0)
  {
    match a
    case TakeDrop(_, Delivered) =>
    case TakeDrop(_, Slow) =>
    case TakeDrop(_, Abandoned(_)) =>
    case TakeFiltered =>
    case TakeBucketed(_) =>
    case Tick(_) =>
    case Leave(_) =>
    case SendEvent => assert s.emitted + s.agg.todo == s.emitted + [s.agg.todo[0]] + s.agg.todo[1..];
    case EndFlush =>
  }

  lemma OthersKeep(s: State, step: Step)
    requires Enabled(s, step) && !step.AggStep?
    ensures var t := Apply(s, step);
            t.emitted == s.emitted && t.agg == s.agg && t.buckets == s.buckets && t.left == s.left && t.infra == s.infra
  {
    match step
    case FanStep(_) =>
    case SinkStep(_) =>
    case Cancel =>
  }

  lemma FlowsStep(first: State, steps: seq<Step>, s: State, step: Step)
    requires FlowsCounted(first, steps, s) && Enabled(s, step)
    ensures FlowsCounted(first, steps + [step], Apply(s, step))
  {
    CountNext(steps, step, TakesFlow);
    CountNext(steps, step, TakesDrop);
    if step.AggStep? { AggCounts(s, step.a); } else { OthersKeep(s, step); }
  }

  /** Only the aggregator opens, flushes and sends. */
  lemma StepFlushes(s: State, step: Step)
    requires Enabled(s, step) && (s.agg != Reading ==> s.buckets == 0)
    ensures var t := Apply(s, step);
            && t.emitted + Pending(t) == s.emitted + Pending(s) + FlushOf(step)
            && |FlushOf(step)| + t.buckets == s.buckets + (if OpensBucket(step) then 1 else 0)
            && (t.agg != Reading ==> t.buckets == 0)
  {
    if step.AggStep? {
      AggFlushes(s, step.a);
    } else {
      OthersKeep(s, step);
      assert FlushOf(step) == [] && s.emitted + Pending(s) + [] == s.emitted + Pending(s);
    }
  }

  lemma BucketsStep(steps: seq<Step>, s: State, step: Step)
    requires BucketsCounted(steps, s) && Enabled(s, step)
    ensures BucketsCounted(steps + [step], Apply(s, step))
  {
    CountNext(steps, step, OpensBucket);
    FlushedNext(steps, step);
    StepFlushes(s, step);
  }

  lemma {:induction false} RunAccounts(states: seq<State>, steps: seq<Step>)
    requires RunBy(states, steps)
    ensures FlowsCounted(states[0], steps, states[|states| - 1]) && BucketsCounted(steps, states[|states| - 1])
    ensures IsRun(states)
  {
    var n := |steps|;
    if n > 0 {
      RunAccounts(states[..n], steps[..n - 1]);
      FlowsStep(states[0], steps[..n - 1], states[n - 1], steps[n - 1]);
      BucketsStep(steps[..n - 1], states[n - 1], steps[n - 1]);
      assert steps == steps[..n - 1] + [steps[n - 1]];
    }
    forall i | 0 < i < |states| ensures Follows(states[i - 1], states[i]) {
      assert Enabled(states[i - 1], steps[i - 1]);
    }
  }

  /**
   At every point the flows read and the ones left make up the input, and every bucket ever opened is
   open, waiting to be sent, or sent.
   */
  lemma BucketsAccounted(states: seq<State>, steps: seq<Step>)
    requires RunBy(states, steps)
    ensures var s := states[|states| - 1];
            && Count(steps, OpensBucket) == |s.emitted| + |Pending(s)| + s.buckets
            && Count(steps, TakesFlow) + s.left == states[0].left
            && Count(steps, TakesDrop) == |s.reported| + s.dropped + s.abandoned
  {
    RunAccounts(states, steps);
    RunsKeepInv(states);
  }

  /** When all stages have ended, both writers got the events of every flush in order, one for each bucket ever opened. */
  lemma BucketsDelivered(states: seq<State>, steps: seq<Step>)
    requires RunBy(states, steps) && Finished(states[|states| - 1])
    ensures var s := states[|states| - 1];
            && s.gotPolicy == Flushed(steps) && s.gotEvidence == Flushed(steps)
            && Count(steps, OpensBucket) == |s.gotPolicy|
  {
    RunAccounts(states, steps);
    AllDelivered(states);
    RunsKeepInv(states);
  }
}
