/**
 The streaming pipeline (pkg/hubble/pipeline.go): aggregator, fan-out and three consumers over four
 bounded channels, as a step system. A send is enabled by room alone, so a send on a closed channel
 is a state the model can reach unless it is proved that it does not.
 */
module Pipeline {

  type Event = nat
  type Drop = nat

  const CAP := 64

  datatype Chan<T> = Chan(buf: seq<T>, closed: bool)

  predicate Room<T>(c: Chan<T>) { |c.buf| < CAP }

  function Push<T>(c: Chan<T>, x: T): Chan<T> { c.(buf := c.buf + [x]) }

  function Pop<T>(c: Chan<T>): Chan<T>
    requires c.buf != []
  {
    c.(buf := c.buf[1..])
  }

  function Close<T>(c: Chan<T>): Chan<T> { c.(closed := true) }

  /** Flushing: events still to be sent, and whether Run returns afterwards. */
  datatype Agg = Reading | Flushing(todo: seq<Event>, leaving: bool) | AggDone

  datatype Fan = Receiving | ToPolicy(e: Event) | ToEvidence(e: Event) | ClosingPolicy | ClosingEvidence | ClosingHealth | FanDone

  /** left: flows not yet read from the input; buckets: open aggregation buckets. */
  datatype State = State(
    left: nat, cancelled: bool, agg: Agg, buckets: nat, fan: Fan,
    policies: Chan<Event>, policyCh: Chan<Event>, evidenceCh: Chan<Event>, healthCh: Chan<Drop>,
    policyDone: bool, evidenceDone: bool, healthDone: bool,
    emitted: seq<Event>, reported: seq<Drop>, dropped: nat, abandoned: nat, infra: nat,
    gotPolicy: seq<Event>, gotEvidence: seq<Event>, gotHealth: seq<Drop>)

  predicate Initial(s: State)
  {
    s == State(s.left, false, Reading, 0, Receiving, Chan([], false), Chan([], false), Chan([], false), Chan([], false),
               false, false, false, [], [], 0, 0, 0, [], [], [])
  }

  datatype AggAct =
    | TakeFiltered
    | TakeBucketed(isNew: bool)
    | TakeDrop(d: Drop, fate: DropFate)
    | Tick(events: seq<Event>)
    | Leave(events: seq<Event>)
    | SendEvent
    | EndFlush

  /** How the three-way select on the health channel goes. */
  datatype DropFate = Delivered | Slow | Abandoned(events: seq<Event>)

  datatype FanAct = Receive | FeedPolicy | FeedEvidence | ClosePolicy | CloseEvidence | CloseHealth

  datatype SinkAct = WritePolicy | WriteEvidence | WriteHealth | EndPolicy | EndEvidence | EndHealth

  datatype Step = AggStep(a: AggAct) | FanStep(f: FanAct) | SinkStep(k: SinkAct) | Cancel

  // ---- The aggregator ---------------------------------------------------------------------------

  /** A flush builds one event for each open bucket. */
  predicate CanAgg(s: State, a: AggAct)
  {
    match a
    case TakeFiltered => s.agg == Reading && s.left > 0
    case TakeBucketed(isNew) => s.agg == Reading && s.left > 0 && (s.buckets == 0 ==> isNew)
    case TakeDrop(_, fate) =>
      s.agg == Reading && s.left > 0
      && (match fate
          case Delivered => Room(s.healthCh)
          case Slow => !Room(s.healthCh) && !s.cancelled
          case Abandoned(events) => s.cancelled && |events| == s.buckets)
    case Tick(events) => s.agg == Reading && |events| == s.buckets && s.buckets > 0
    case Leave(events) => s.agg == Reading && |events| == s.buckets && (s.cancelled || s.left == 0)
    case SendEvent => s.agg.Flushing? && s.agg.todo != [] && Room(s.policies)
    case EndFlush => s.agg.Flushing? && s.agg.todo == []
  }

  function DoAgg(s: State, a: AggAct): State
    requires CanAgg(s, a)
  {
    match a
    case TakeFiltered => s.(left := s.left - 1)
    case TakeBucketed(isNew) => s.(left := s.left - 1, buckets := if isNew then s.buckets + 1 else s.buckets)
    case TakeDrop(d, fate) =>
      var t := s.(left := s.left - 1, infra := s.infra + 1);
      (match fate
       case Delivered => t.(healthCh := Push(s.healthCh, d), reported := s.reported + [d])
       case Slow => t.(dropped := s.dropped + 1)
       case Abandoned(events) => t.(abandoned := s.abandoned + 1, agg := Flushing(events, true), buckets := 0))
    case Tick(events) => s.(agg := Flushing(events, false), buckets := 0)
    case Leave(events) => s.(agg := Flushing(events, true), buckets := 0)
    case SendEvent =>
      s.(policies := Push(s.policies, s.agg.todo[0]), emitted := s.emitted + [s.agg.todo[0]],
         agg := Flushing(s.agg.todo[1..], s.agg.leaving))
    case EndFlush => if s.agg.leaving then s.(agg := AggDone, policies := Close(s.policies)) else s.(agg := Reading)
  }

  // ---- The fan-out ------------------------------------------------------------------------------

  predicate CanFan(s: State, f: FanAct)
  {
    match f
    case Receive => s.fan == Receiving && (s.policies.buf != [] || s.policies.closed)
    case FeedPolicy => s.fan.ToPolicy? && Room(s.policyCh)
    case FeedEvidence => s.fan.ToEvidence? && Room(s.evidenceCh)
    case ClosePolicy => s.fan == ClosingPolicy
    case CloseEvidence => s.fan == ClosingEvidence
    case CloseHealth => s.fan == ClosingHealth
  }

  function DoFan(s: State, f: FanAct): State
    requires CanFan(s, f)
  {
    match f
    case Receive =>
      if s.policies.buf != [] then s.(policies := Pop(s.policies), fan := ToPolicy(s.policies.buf[0]))
      else s.(fan := ClosingPolicy)
    case FeedPolicy => s.(policyCh := Push(s.policyCh, s.fan.e), fan := ToEvidence(s.fan.e))
    case FeedEvidence => s.(evidenceCh := Push(s.evidenceCh, s.fan.e), fan := Receiving)
    case ClosePolicy => s.(policyCh := Close(s.policyCh), fan := ClosingEvidence)
    case CloseEvidence => s.(evidenceCh := Close(s.evidenceCh), fan := ClosingHealth)
    case CloseHealth => s.(healthCh := Close(s.healthCh), fan := FanDone)
  }

  // ---- The consumers ----------------------------------------------------------------------------

  predicate CanSink(s: State, k: SinkAct)
  {
    match k
    case WritePolicy => !s.policyDone && s.policyCh.buf != []
    case WriteEvidence => !s.evidenceDone && s.evidenceCh.buf != []
    case WriteHealth => !s.healthDone && s.healthCh.buf != []
    case EndPolicy => !s.policyDone && s.policyCh == Chan([], true)
    case EndEvidence => !s.evidenceDone && s.evidenceCh == Chan([], true)
    case EndHealth => !s.healthDone && s.healthCh == Chan([], true)
  }

  function DoSink(s: State, k: SinkAct): State
    requires CanSink(s, k)
  {
    match k
    case WritePolicy => s.(gotPolicy := s.gotPolicy + [s.policyCh.buf[0]], policyCh := Pop(s.policyCh))
    case WriteEvidence => s.(gotEvidence := s.gotEvidence + [s.evidenceCh.buf[0]], evidenceCh := Pop(s.evidenceCh))
    case WriteHealth => s.(gotHealth := s.gotHealth + [s.healthCh.buf[0]], healthCh := Pop(s.healthCh))
    case EndPolicy => s.(policyDone := true)
    case EndEvidence => s.(evidenceDone := true)
    case EndHealth => s.(healthDone := true)
  }

  predicate Enabled(s: State, step: Step)
  {
    match step
    case AggStep(a) => CanAgg(s, a)
    case FanStep(f) => CanFan(s, f)
    case SinkStep(k) => CanSink(s, k)
    case Cancel => !s.cancelled
  }

  function Apply(s: State, step: Step): State
    requires Enabled(s, step)
  {
    match step
    case AggStep(a) => DoAgg(s, a)
    case FanStep(f) => DoFan(s, f)
    case SinkStep(k) => DoSink(s, k)
    case Cancel => s.(cancelled := true)
  }

  ghost predicate Follows(s: State, t: State)
  {
    exists step :: Enabled(s, step) && t == Apply(s, step)
  }

  ghost predicate IsRun(states: seq<State>)
  {
    && |states| > 0 && Initial(states[0])
    && forall i :: 0 < i < |states| ==> Follows(states[i - 1], states[i])
  }

  /** The step sends on, or closes, a channel that is already closed: a panic. */
  predicate Panics(s: State, step: Step)
  {
    match step
    case AggStep(SendEvent) => s.policies.closed
    case AggStep(EndFlush) => s.agg.Flushing? && s.agg.leaving && s.policies.closed
    case AggStep(TakeDrop(_, Delivered)) => s.healthCh.closed
    case FanStep(FeedPolicy) => s.policyCh.closed
    case FanStep(FeedEvidence) => s.evidenceCh.closed
    case FanStep(ClosePolicy) => s.policyCh.closed
    case FanStep(CloseEvidence) => s.evidenceCh.closed
    case FanStep(CloseHealth) => s.healthCh.closed
    case _ => false
  }

  // ---- What every step keeps --------------------------------------------------------------------

  function InHandPolicy(f: Fan): seq<Event> { if f.ToPolicy? then [f.e] else [] }

  function InHandEvidence(f: Fan): seq<Event> { if f.ToPolicy? || f.ToEvidence? then [f.e] else [] }

  predicate ClosesOk(s: State)
  {
    && (s.policies.closed <==> s.agg == AggDone)
    && (s.fan.ClosingPolicy? || s.fan.ClosingEvidence? || s.fan.ClosingHealth? || s.fan.FanDone? ==> s.policies == Chan([], true))
    && (s.policyCh.closed <==> s.fan.ClosingEvidence? || s.fan.ClosingHealth? || s.fan.FanDone?)
    && (s.evidenceCh.closed <==> s.fan.ClosingHealth? || s.fan.FanDone?)
    && (s.healthCh.closed <==> s.fan.FanDone?)
    && (s.policyDone ==> s.policyCh == Chan([], true))
    && (s.evidenceDone ==> s.evidenceCh == Chan([], true))
    && (s.healthDone ==> s.healthCh == Chan([], true))
  }

  predicate OrderOk(s: State)
  {
    && s.emitted == s.gotPolicy + s.policyCh.buf + InHandPolicy(s.fan) + s.policies.buf
    && s.emitted == s.gotEvidence + s.evidenceCh.buf + InHandEvidence(s.fan) + s.policies.buf
    && s.reported == s.gotHealth + s.healthCh.buf
  }

  predicate CountsOk(s: State)
  {
    && s.infra == |s.reported| + s.dropped + s.abandoned
    && s.abandoned <= 1
    && (s.abandoned == 1 ==> s.agg == AggDone || (s.agg.Flushing? && s.agg.leaving))
    && (s.abandoned == 1 ==> s.cancelled)
  }

  predicate BoundsOk(s: State)
  {
    |s.policies.buf| <= CAP && |s.policyCh.buf| <= CAP && |s.evidenceCh.buf| <= CAP && |s.healthCh.buf| <= CAP
  }

  predicate Inv(s: State) { ClosesOk(s) && OrderOk(s) && CountsOk(s) && BoundsOk(s) }

  lemma AggCloses(s: State, a: AggAct)
    requires ClosesOk(s) && CountsOk(s) && BoundsOk(s) && CanAgg(s, a)
    ensures var t := DoAgg(s, a); ClosesOk(t) && CountsOk(t) && BoundsOk(t)
  {
    match a
    case TakeDrop(_, Delivered) =>
    case TakeDrop(_, Slow) =>
    case TakeDrop(_, Abandoned(_)) =>
    case SendEvent =>
    case EndFlush =>
    case _ =>
  }

  lemma AggOrder(s: State, a: AggAct)
    requires OrderOk(s) && CanAgg(s, a)
    ensures OrderOk(DoAgg(s, a))
  {
    match a
    case TakeDrop(d, Delivered) =>
      assert s.gotHealth + (s.healthCh.buf + [d]) == s.gotHealth + s.healthCh.buf + [d];
    case SendEvent =>
      var e := s.agg.todo[0];
      Snoc(s.gotPolicy + s.policyCh.buf + InHandPolicy(s.fan), s.policies.buf, e);
      Snoc(s.gotEvidence + s.evidenceCh.buf + InHandEvidence(s.fan), s.policies.buf, e);
    case _ =>
  }

  lemma Snoc<T>(a: seq<T>, b: seq<T>, x: T)
    ensures a + (b + [x]) == (a + b) + [x]
  {
  }

  /** An item moves from the head of one stretch to the tail of the one before it. */
  lemma Shift<T>(a: seq<T>, b: seq<T>)
    requires b != []
    ensures a + b == a + [b[0]] + b[1..]
  {
  }

  lemma FanCloses(s: State, f: FanAct)
    requires ClosesOk(s) && CountsOk(s) && BoundsOk(s) && CanFan(s, f)
    ensures var t := DoFan(s, f); ClosesOk(t) && CountsOk(t) && BoundsOk(t)
  {
  }

  lemma ReceiveOrder(s: State)
    requires OrderOk(s) && CanFan(s, Receive)
    ensures OrderOk(DoFan(s, Receive))
  {
    if s.policies.buf != [] {
      Shift(s.gotPolicy + s.policyCh.buf, s.policies.buf);
      Shift(s.gotEvidence + s.evidenceCh.buf, s.policies.buf);
    }
  }

  lemma FanOrder(s: State, f: FanAct)
    requires OrderOk(s) && CanFan(s, f)
    ensures OrderOk(DoFan(s, f))
  {
    match f
    case Receive => ReceiveOrder(s);
    case FeedPolicy =>
      assert s.gotPolicy + (s.policyCh.buf + [s.fan.e]) == s.gotPolicy + s.policyCh.buf + [s.fan.e];
    case FeedEvidence =>
      assert s.gotEvidence + (s.evidenceCh.buf + [s.fan.e]) == s.gotEvidence + s.evidenceCh.buf + [s.fan.e];
    case _ =>
  }

  lemma SinkCloses(s: State, k: SinkAct)
    requires ClosesOk(s) && CountsOk(s) && BoundsOk(s) && CanSink(s, k)
    ensures var t := DoSink(s, k); ClosesOk(t) && CountsOk(t) && BoundsOk(t)
  {
  }

  lemma SinkOrder(s: State, k: SinkAct)
    requires OrderOk(s) && CanSink(s, k)
    ensures OrderOk(DoSink(s, k))
  {
    match k
    case WritePolicy => Shift(s.gotPolicy, s.policyCh.buf);
    case WriteEvidence => Shift(s.gotEvidence, s.evidenceCh.buf);
    case WriteHealth => Shift(s.gotHealth, s.healthCh.buf);
    case _ =>
  }

  lemma InvStep(s: State, step: Step)
    requires Inv(s) && Enabled(s, step)
    ensures Inv(Apply(s, step))
  {
    match step
    case AggStep(a) => AggCloses(s, a); AggOrder(s, a);
    case FanStep(f) => FanCloses(s, f); FanOrder(s, f);
    case SinkStep(k) => SinkCloses(s, k); SinkOrder(s, k);
    case Cancel =>
  }

  lemma {:induction false} RunsKeepInv(states: seq<State>)
    requires IsRun(states)
    ensures Inv(states[|states| - 1])
  {
    var last := |states| - 1;
    if last > 0 {
      var front := states[..last];
      forall i | 0 < i < |front| ensures Follows(front[i - 1], front[i]) { assert Follows(states[i - 1], states[i]); }
      RunsKeepInv(front);
      assert Follows(states[last - 1], states[last]);
      var step :| Enabled(states[last - 1], step) && states[last] == Apply(states[last - 1], step);
      InvStep(states[last - 1], step);
    }
  }

  /** In no schedule does any stage send on or close a closed channel. */
  lemma NeverPanics(states: seq<State>, step: Step)
    requires IsRun(states) && Enabled(states[|states| - 1], step)
    ensures !Panics(states[|states| - 1], step)
  {
    RunsKeepInv(states);
  }

  predicate Finished(s: State)
  {
    s.agg == AggDone && s.fan == FanDone && s.policyDone && s.evidenceDone && s.healthDone
  }

  /** When all stages have ended, both writers got every event in order and the health drainer every report. */
  lemma AllDelivered(states: seq<State>)
    requires IsRun(states) && Finished(states[|states| - 1])
    ensures var s := states[|states| - 1];
            && s.gotPolicy == s.emitted && s.gotEvidence == s.emitted && s.gotHealth == s.reported
            && s.infra == |s.gotHealth| + s.dropped + s.abandoned && s.abandoned <= 1
  {
    RunsKeepInv(states);
    var s := states[|states| - 1];
    assert s.policies.buf == [] && s.policyCh.buf == [] && s.evidenceCh.buf == [] && s.healthCh.buf == [];
    assert s.gotPolicy + [] + [] + [] == s.gotPolicy;
    assert s.gotEvidence + [] + [] + [] == s.gotEvidence;
    assert s.gotHealth + [] == s.gotHealth;
  }

  /** At every point each consumer has got a prefix of what was sent, never anything twice. */
  lemma AlwaysPrefix(states: seq<State>)
    requires IsRun(states)
    ensures var s := states[|states| - 1]; s.gotPolicy <= s.emitted && s.gotEvidence <= s.emitted && s.gotHealth <= s.reported
  {
    RunsKeepInv(states);
  }

  // ---- Progress ---------------------------------------------------------------------------------

  function AggWeight(a: Agg): nat
  {
    match a
    case Reading => 3
    case Flushing(todo, leaving) => 7 * |todo| + (if leaving then 2 else 4)
    case AggDone => 0
  }

  function FanWeight(f: Fan): nat
  {
    match f
    case Receiving => 4
    case ToPolicy(_) => 9
    case ToEvidence(_) => 7
    case ClosingPolicy => 3
    case ClosingEvidence => 2
    case ClosingHealth => 1
    case FanDone => 0
  }

  function Pending(done: bool): nat { if done then 0 else 1 }

  /** What is left to do. */
  function Measure(s: State): nat
  {
    12 * s.left + 10 * s.buckets + AggWeight(s.agg) + FanWeight(s.fan)
    + 6 * |s.policies.buf| + |s.policyCh.buf| + |s.evidenceCh.buf| + |s.healthCh.buf|
    + Pending(s.policyDone) + Pending(s.evidenceDone) + Pending(s.healthDone) + Pending(s.cancelled)
  }

  lemma DropDecreases(s: State, a: AggAct)
    requires CanAgg(s, a) && a.TakeDrop?
    ensures Measure(DoAgg(s, a)) < Measure(s)
  {
    match a
    case TakeDrop(_, Delivered) =>
    case TakeDrop(_, Slow) =>
    case TakeDrop(_, Abandoned(_)) =>
  }

  lemma AggDecreases(s: State, a: AggAct)
    requires CanAgg(s, a)
    ensures Measure(DoAgg(s, a)) < Measure(s)
  {
    match a
    case TakeDrop(_, _) => DropDecreases(s, a);
    case TakeFiltered =>
    case TakeBucketed(_) =>
    case Tick(_) =>
    case Leave(_) =>
    case SendEvent =>
    case EndFlush =>
  }

  lemma FanDecreases(s: State, f: FanAct)
    requires CanFan(s, f)
    ensures Measure(DoFan(s, f)) < Measure(s)
  {
    match f
    case Receive =>
    case FeedPolicy =>
    case FeedEvidence =>
    case ClosePolicy =>
    case CloseEvidence =>
    case CloseHealth =>
  }

  lemma SinkDecreases(s: State, k: SinkAct)
    requires CanSink(s, k)
    ensures Measure(DoSink(s, k)) < Measure(s)
  {
    match k
    case WritePolicy =>
    case WriteEvidence =>
    case WriteHealth =>
    case EndPolicy =>
    case EndEvidence =>
    case EndHealth =>
  }

  lemma EveryStepDecreases(s: State, step: Step)
    requires Enabled(s, step)
    ensures Measure(Apply(s, step)) < Measure(s)
  {
    match step
    case AggStep(a) => AggDecreases(s, a);
    case FanStep(f) => FanDecreases(s, f);
    case SinkStep(k) => SinkDecreases(s, k);
    case Cancel =>
  }

  /** A flush of any number of buckets. */
  function SomeEvents(n: nat): (r: seq<Event>)
    ensures |r| == n
  {
    seq(n, i => i)
  }

  /** No deadlock: unless every stage has ended, some stage can move. */
  lemma SomeStageMoves(s: State) returns (step: Step)
    requires Inv(s) && !Finished(s)
    ensures Enabled(s, step)
    ensures step == AggStep(TakeFiltered) || Apply(s, step).left == s.left
  {
    if !s.policyDone && s.policyCh.buf != [] { step := SinkStep(WritePolicy); }
    else if !s.evidenceDone && s.evidenceCh.buf != [] { step := SinkStep(WriteEvidence); }
    else if s.fan.ToPolicy? { step := FanStep(FeedPolicy); }
    else if s.fan.ToEvidence? { step := FanStep(FeedEvidence); }
    else if s.fan.ClosingPolicy? { step := FanStep(ClosePolicy); }
    else if s.fan.ClosingEvidence? { step := FanStep(CloseEvidence); }
    else if s.fan.ClosingHealth? { step := FanStep(CloseHealth); }
    else if s.fan.Receiving? {
      if s.policies.buf != [] || s.policies.closed { step := FanStep(Receive); }
      else if s.agg.Flushing? { step := AggStep(if s.agg.todo == [] then EndFlush else SendEvent); }
      else if s.left > 0 { step := AggStep(TakeFiltered); }
      else { step := AggStep(Leave(SomeEvents(s.buckets))); }
    }
    else if !s.policyDone { step := SinkStep(EndPolicy); }
    else if !s.evidenceDone { step := SinkStep(EndEvidence); }
    else if s.healthCh.buf != [] { step := SinkStep(WriteHealth); }
    else { step := SinkStep(EndHealth); }
  }

  /** Once the context is cancelled the stages can end without reading another flow. */
  lemma CancelledCanLeave(s: State) returns (step: Step)
    requires Inv(s) && !Finished(s) && s.cancelled
    ensures Enabled(s, step) && Apply(s, step).left == s.left
  {
    step := SomeStageMoves(s);
    if step == AggStep(TakeFiltered) { step := AggStep(Leave(SomeEvents(s.buckets))); }
  }

  /** No schedule is longer than the measure of its first state. */
  lemma {:induction false} SchedulesEnd(states: seq<State>)
    requires IsRun(states)
    ensures |states| - 1 + Measure(states[|states| - 1]) <= Measure(states[0])
  {
    var last := |states| - 1;
    if last > 0 {
      var front := states[..last];
      forall i | 0 < i < |front| ensures Follows(front[i - 1], front[i]) { assert Follows(states[i - 1], states[i]); }
      SchedulesEnd(front);
      assert Follows(states[last - 1], states[last]);
      var step :| Enabled(states[last - 1], step) && states[last] == Apply(states[last - 1], step);
      EveryStepDecreases(states[last - 1], step);
    }
  }
}
