/**
 The aggregator and the health writer (pkg/hubble/aggregator.go, health_writer.go): every flow read is
 counted in exactly one place, every bucketed flow is handed to the builder in exactly one flush, and
 the health report adds up to the infrastructure drops.
 */
module Aggregation {
  import opened PolicyTypes
  import opened Builder

  // ---- Sums over counter maps -------------------------------------------------------------------

  function At<K>(m: map<K, nat>, k: K): nat { if k in m then m[k] else 0 }

  function Bump<K>(m: map<K, nat>, k: K): map<K, nat> { m[k := At(m, k) + 1] }

  ghost function SumValues<K(!new)>(m: map<K, nat>): nat
    decreases |m|
  {
    if m == map[] then 0
    else
      var k :| k in m;
      m[k] + SumValues(m - {k})
  }

  lemma {:induction false} SumSplits<K(!new)>(m: map<K, nat>, k: K)
    requires k in m
    ensures SumValues(m) == m[k] + SumValues(m - {k})
    decreases |m|
  {
    var j :| j in m && SumValues(m) == m[j] + SumValues(m - {j});
    if j != k {
      SumSplits(m - {j}, k);
      SumSplits(m - {k}, j);
      assert m - {j} - {k} == m - {k} - {j};
    }
  }

  lemma SumBump<K(!new)>(m: map<K, nat>, k: K)
    ensures SumValues(Bump(m, k)) == SumValues(m) + 1
  {
    var n := Bump(m, k);
    SumSplits(n, k);
    assert n - {k} == m - {k};
    if k in m { SumSplits(m, k); } else { assert m - {k} == m; }
  }

  method SumUp<K(==, !new)>(m: map<K, nat>) returns (total: nat)
    ensures total == SumValues(m)
  {
    total := 0;
    ghost var rest := m;
    var todo := m.Keys;
    while todo != {}
      invariant todo == rest.Keys && todo <= m.Keys && forall k :: k in todo ==> rest[k] == m[k]
      invariant total + SumValues(rest) == SumValues(m)
      decreases todo
    {
      var k :| k in todo;
      SumSplits(rest, k);
      total := total + m[k];
      rest := rest - {k};
      todo := todo - {k};
    }
  }

  // ---- Flows and their fate ---------------------------------------------------------------------

  datatype Verdict = Dropped | Audit | OtherVerdict

  /**
   workload, proto, node: the target's workload name, the L4 protocol name, the node name. labelled: the target has any
   label at all, also one that selectors leave out.
   */
  datatype Observed = Observed(flow: Flow, verdict: Verdict, reason: int, workload: string, labelled: bool, proto: string, node: string)

  datatype DropClass = PolicyDrop | InfraDrop | TransientDrop | NoiseDrop | UnknownDrop

  /** reasonName gives "" for a value the enumeration does not name; classify is the static table. */
  datatype Config = Config(ignoreReasons: set<string>, ignoreProtos: set<string>, includeAudit: bool,
                           reasonName: int -> string, classify: int -> DropClass)

  const UNKNOWN_REASON := 0

  datatype Fate = ByReason(name: string) | ByProto(name: string) | Noise | Infra(reason: int) | Tracked | Bucketed(key: Name)

  function PolicyTarget(f: Flow): Option<Endpoint>
  {
    match f.dir
    case In => f.destination
    case Out => f.source
    case Unset => None
  }

  function KeyFate(o: Observed): Fate
  {
    match PolicyTarget(o.flow)
    case None => Tracked
    case Some(ep) => if ep.namespace == "" then Tracked else Bucketed(Name(ep.namespace, o.workload))
  }

  predicate Classified(c: Config, o: Observed)
  {
    (o.verdict == Dropped || (c.includeAudit && o.verdict == Audit)) && o.reason != UNKNOWN_REASON
  }

  /** Where a flow ends up: the filters and gates in the order they are tried. */
  function FateOf(c: Config, o: Observed): Fate
  {
    if c.reasonName(o.reason) != "" && c.reasonName(o.reason) in c.ignoreReasons then ByReason(c.reasonName(o.reason))
    else if o.proto != "" && o.proto in c.ignoreProtos then ByProto(o.proto)
    else if Classified(c, o) then
      match c.classify(o.reason)
      case InfraDrop => Infra(o.reason)
      case TransientDrop => Infra(o.reason)
      case NoiseDrop => Noise
      case _ => KeyFate(o)
    else KeyFate(o)
  }

  /** How many flows met exactly this fate. */
  function CountOf(c: Config, seen: seq<Observed>, fate: Fate): nat
  {
    if seen == [] then 0
    else CountOf(c, seen[..|seen| - 1], fate) + (if FateOf(c, seen[|seen| - 1]) == fate then 1 else 0)
  }

  datatype Tally = Tally(byReason: nat, byProto: nat, noise: nat, infra: nat, tracked: nat, bucketed: nat)

  function Counted(t: Tally, fate: Fate): Tally
  {
    match fate
    case ByReason(_) => t.(byReason := t.byReason + 1)
    case ByProto(_) => t.(byProto := t.byProto + 1)
    case Noise => t.(noise := t.noise + 1)
    case Infra(_) => t.(infra := t.infra + 1)
    case Tracked => t.(tracked := t.tracked + 1)
    case Bucketed(_) => t.(bucketed := t.bucketed + 1)
  }

  function TallyOf(c: Config, seen: seq<Observed>): Tally
  {
    if seen == [] then Tally(0, 0, 0, 0, 0, 0)
    else Counted(TallyOf(c, seen[..|seen| - 1]), FateOf(c, seen[|seen| - 1]))
  }

  function TallyTotal(t: Tally): nat { t.byReason + t.byProto + t.noise + t.infra + t.tracked + t.bucketed }

  /** Every flow is counted once. */
  lemma {:induction false} TallyIsAll(c: Config, seen: seq<Observed>)
    ensures TallyTotal(TallyOf(c, seen)) == |seen|
  {
    if seen != [] {
      TallyIsAll(c, seen[..|seen| - 1]);
      CountedOnce(TallyOf(c, seen[..|seen| - 1]), FateOf(c, seen[|seen| - 1]));
    }
  }

  lemma CountedOnce(t: Tally, fate: Fate)
    ensures TallyTotal(Counted(t, fate)) == TallyTotal(t) + 1
  {
  }

  /** The flows bucketed under a key, in arrival order. */
  function FlowsFor(c: Config, seen: seq<Observed>, key: Name): seq<Flow>
  {
    if seen == [] then []
    else FlowsFor(c, seen[..|seen| - 1], key)
         + (if FateOf(c, seen[|seen| - 1]) == Bucketed(key) then [seen[|seen| - 1].flow] else [])
  }

  // ---- Counters ---------------------------------------------------------------------------------

  datatype Counters = Counters(flowsSeen: nat, byReason: map<string, nat>, byProto: map<string, nat>, infra: map<int, nat>, tracked: nat)

  /** What a flow's fate does to the counters. */
  function CountedIn(v: Counters, fate: Fate): Counters
  {
    match fate
    case ByReason(n) => v.(byReason := Bump(v.byReason, n))
    case ByProto(n) => v.(byProto := Bump(v.byProto, n))
    case Noise => v
    case Infra(r) => v.(flowsSeen := v.flowsSeen + 1, infra := Bump(v.infra, r))
    case Tracked => v.(tracked := v.tracked + 1)
    case Bucketed(_) => v.(flowsSeen := v.flowsSeen + 1)
  }

  /** Each counter is the number of flows with its fate. */
  ghost predicate TotalsOk(c: Config, seen: seq<Observed>, v: Counters)
  {
    var t := TallyOf(c, seen);
    && v.flowsSeen == t.infra + t.bucketed && v.tracked == t.tracked
    && SumValues(v.byReason) == t.byReason && SumValues(v.byProto) == t.byProto && SumValues(v.infra) == t.infra
  }

  ghost predicate CountsOk(c: Config, seen: seq<Observed>, v: Counters)
  {
    && (forall n :: At(v.byReason, n) == CountOf(c, seen, ByReason(n)))
    && (forall n :: At(v.byProto, n) == CountOf(c, seen, ByProto(n)))
    && (forall r: int :: At(v.infra, r) == CountOf(c, seen, Infra(r)))
  }

  lemma TotalsStep(c: Config, seen: seq<Observed>, v: Counters, o: Observed)
    requires TotalsOk(c, seen, v)
    ensures TotalsOk(c, seen + [o], CountedIn(v, FateOf(c, o)))
  {
    assert (seen + [o])[..|seen|] == seen;
    match FateOf(c, o)
    case ByReason(n) => SumBump(v.byReason, n);
    case ByProto(n) => SumBump(v.byProto, n);
    case Infra(r) => SumBump(v.infra, r);
    case _ =>
  }

  lemma CountNext(c: Config, seen: seq<Observed>, o: Observed, fate: Fate)
    ensures CountOf(c, seen + [o], fate) == CountOf(c, seen, fate) + (if FateOf(c, o) == fate then 1 else 0)
  {
    assert (seen + [o])[..|seen|] == seen;
  }

  lemma ReasonStep(c: Config, seen: seq<Observed>, v: Counters, o: Observed, n: string)
    requires At(v.byReason, n) == CountOf(c, seen, ByReason(n))
    ensures At(CountedIn(v, FateOf(c, o)).byReason, n) == CountOf(c, seen + [o], ByReason(n))
  {
    CountNext(c, seen, o, ByReason(n));
  }

  lemma ProtoStep(c: Config, seen: seq<Observed>, v: Counters, o: Observed, n: string)
    requires At(v.byProto, n) == CountOf(c, seen, ByProto(n))
    ensures At(CountedIn(v, FateOf(c, o)).byProto, n) == CountOf(c, seen + [o], ByProto(n))
  {
    CountNext(c, seen, o, ByProto(n));
  }

  lemma InfraCountStep(c: Config, seen: seq<Observed>, v: Counters, o: Observed, r: int)
    requires At(v.infra, r) == CountOf(c, seen, Infra(r))
    ensures At(CountedIn(v, FateOf(c, o)).infra, r) == CountOf(c, seen + [o], Infra(r))
  {
    CountNext(c, seen, o, Infra(r));
  }

  lemma CountsStep(c: Config, seen: seq<Observed>, v: Counters, o: Observed)
    requires CountsOk(c, seen, v)
    ensures CountsOk(c, seen + [o], CountedIn(v, FateOf(c, o)))
  {
    var w := CountedIn(v, FateOf(c, o));
    forall n ensures At(w.byReason, n) == CountOf(c, seen + [o], ByReason(n)) { ReasonStep(c, seen, v, o, n); }
    forall n ensures At(w.byProto, n) == CountOf(c, seen + [o], ByProto(n)) { ProtoStep(c, seen, v, o, n); }
    forall r: int ensures At(w.infra, r) == CountOf(c, seen + [o], Infra(r)) { InfraCountStep(c, seen, v, o, r); }
  }

  // ---- Buckets and flushes ----------------------------------------------------------------------

  /** One bucket handed to the policy builder. */
  datatype Batch = Batch(key: Name, flows: seq<Flow>)

  function Handed(out: seq<Batch>, key: Name): seq<Flow>
  {
    if out == [] then []
    else Handed(out[..|out| - 1], key) + (if out[|out| - 1].key == key then out[|out| - 1].flows else [])
  }

  function InBucket(buckets: map<Name, seq<Flow>>, key: Name): seq<Flow> { if key in buckets then buckets[key] else [] }

  function BucketedIn(buckets: map<Name, seq<Flow>>, fate: Fate, f: Flow): map<Name, seq<Flow>>
  {
    match fate
    case Bucketed(key) => buckets[key := InBucket(buckets, key) + [f]]
    case _ => buckets
  }

  /** What was handed over for a key and what its bucket holds are the key's flows, in order. */
  ghost predicate FlowsOk(c: Config, seen: seq<Observed>, out: seq<Batch>, buckets: map<Name, seq<Flow>>)
  {
    && (forall key :: Handed(out, key) + InBucket(buckets, key) == FlowsFor(c, seen, key))
    && (forall key :: key in buckets ==> buckets[key] != [])
  }

  lemma FlowsStep(c: Config, seen: seq<Observed>, out: seq<Batch>, buckets: map<Name, seq<Flow>>, o: Observed)
    requires FlowsOk(c, seen, out, buckets)
    ensures FlowsOk(c, seen + [o], out, BucketedIn(buckets, FateOf(c, o), o.flow))
  {
    assert (seen + [o])[..|seen|] == seen;
    var after := BucketedIn(buckets, FateOf(c, o), o.flow);
    forall key ensures Handed(out, key) + InBucket(after, key) == FlowsFor(c, seen + [o], key) {
      assert Handed(out, key) + InBucket(buckets, key) == FlowsFor(c, seen, key);
    }
  }

  /** Handing over one more bucket of a flush that is under way. */
  ghost predicate Flushed(c: Config, seen: seq<Observed>, out: seq<Batch>, held: map<Name, seq<Flow>>, todo: set<Name>)
  {
    forall key :: Handed(out, key) + (if key in todo then InBucket(held, key) else []) == FlowsFor(c, seen, key)
  }

  lemma FlushStep(c: Config, seen: seq<Observed>, out: seq<Batch>, held: map<Name, seq<Flow>>, todo: set<Name>, key: Name)
    requires Flushed(c, seen, out, held, todo) && key in todo && key in held
    ensures Flushed(c, seen, out + [Batch(key, held[key])], held, todo - {key})
  {
    forall k ensures Handed(out + [Batch(key, held[key])], k) + (if k in todo - {key} then InBucket(held, k) else []) == FlowsFor(c, seen, k) {
      HandedAppend(out, Batch(key, held[key]), k);
      assert Handed(out, k) + (if k in todo then InBucket(held, k) else []) == FlowsFor(c, seen, k);
    }
  }

  /** From index from on, out holds non-empty batches of different keys, none of which is still to do. */
  ghost predicate OneEach(out: seq<Batch>, from: nat, todo: set<Name>)
  {
    && (forall i :: from <= i < |out| ==> out[i].flows != [] && out[i].key !in todo)
    && (forall i, j :: from <= i < j < |out| ==> out[i].key != out[j].key)
  }

  lemma OneMoreEach(out: seq<Batch>, from: nat, todo: set<Name>, b: Batch)
    requires OneEach(out, from, todo) && from <= |out| && b.key in todo && b.flows != []
    ensures OneEach(out + [b], from, todo - {b.key})
  {
  }

  lemma FlushEnds(c: Config, seen: seq<Observed>, out: seq<Batch>, held: map<Name, seq<Flow>>)
    requires Flushed(c, seen, out, held, {})
    ensures FlowsOk(c, seen, out, map[])
  {
  }

  lemma FlushStarts(c: Config, seen: seq<Observed>, out: seq<Batch>, held: map<Name, seq<Flow>>)
    requires FlowsOk(c, seen, out, held)
    ensures Flushed(c, seen, out, held, held.Keys)
  {
  }

  lemma HandedAppend(out: seq<Batch>, b: Batch, key: Name)
    ensures Handed(out + [b], key) == Handed(out, key) + (if b.key == key then b.flows else [])
  {
    assert (out + [b])[..|out|] == out;
  }

  datatype DropEvent = DropEvent(reason: int, class': DropClass, namespace: string, workload: string, node: string)

  const UNKNOWN_LABEL := "_unknown"

  function BuildDropEvent(o: Observed, class': DropClass): DropEvent
  {
    var t := PolicyTarget(o.flow);
    DropEvent(o.reason, class',
              if t.Some? && t.value.namespace != "" then t.value.namespace else UNKNOWN_LABEL,
              if t.Some? && o.labelled then o.workload else UNKNOWN_LABEL,
              if o.node == "" then UNKNOWN_LABEL else o.node)
  }

  /** Every report is of an infrastructure drop that was read. */
  ghost predicate Reported(c: Config, seen: seq<Observed>, health: seq<DropEvent>)
  {
    forall e :: e in health ==> SomeDrop(c, seen, e)
  }

  ghost predicate SomeDrop(c: Config, seen: seq<Observed>, e: DropEvent)
  {
    exists o :: o in seen && FateOf(c, o).Infra? && e == BuildDropEvent(o, c.classify(o.reason))
  }

  lemma ReportedNext(c: Config, seen: seq<Observed>, health: seq<DropEvent>, o: Observed)
    requires Reported(c, seen, health)
    ensures Reported(c, seen + [o], health)
    ensures FateOf(c, o).Infra? ==> Reported(c, seen + [o], health + [BuildDropEvent(o, c.classify(o.reason))])
  {
    var more := seen + [o];
    assert o in more;
    forall e | e in health ensures SomeDrop(c, more, e) {
      var x :| x in seen && FateOf(c, x).Infra? && e == BuildDropEvent(x, c.classify(x.reason));
      assert x in more;
    }
  }

  /** How the three-way select on the health channel goes. */
  datatype Send = Delivered | Slow | CancelledFirst

  /** What the select loop sees: a flow, the flush ticker, or the end of input or context. */
  datatype Event = Flow(o: Observed, send: Send) | Tick | Stop

  predicate Ends(c: Config, e: Event)
  {
    e.Stop? || (e.Flow? && FateOf(c, e.o).Infra? && e.send == CancelledFirst)
  }

  lemma TakenNext(c: Config, script: seq<Event>, i: nat)
    requires i < |script|
    ensures Taken(c, script[i..]) == if Ends(c, script[i]) then 1 else 1 + Taken(c, script[i + 1..])
  {
    assert script[i..][1..] == script[i + 1..];
  }

  lemma FlowsOfNext(script: seq<Event>, i: nat)
    requires i < |script|
    ensures FlowsOf(script[..i + 1]) == FlowsOf(script[..i]) + (if script[i].Flow? then [script[i].o] else [])
  {
    assert script[..i + 1][..i] == script[..i];
  }

  /** How many events a run consumes: up to and including the one that ends it. */
  function Taken(c: Config, script: seq<Event>): (n: nat)
    ensures n <= |script|
  {
    if script == [] then 0
    else if Ends(c, script[0]) then 1
    else 1 + Taken(c, script[1..])
  }

  function FlowsOf(script: seq<Event>): seq<Observed>
  {
    if script == [] then []
    else FlowsOf(script[..|script| - 1]) + (if script[|script| - 1].Flow? then [script[|script| - 1].o] else [])
  }

  class Aggregator {
    const config: Config
    var flowsSeen: nat
    var ignoredByReason: map<string, nat>
    var ignoredByProto: map<string, nat>
    var infraDrops: map<int, nat>
    var healthChDrops: nat
    var tracked: nat
    var buckets: map<Name, seq<Flow>>
    var out: seq<Batch>
    var health: seq<DropEvent>
    ghost var seen: seq<Observed>
    ghost var abandoned: nat

    function View(): Counters
      reads this
    {
      Counters(flowsSeen, ignoredByReason, ignoredByProto, infraDrops, tracked)
    }

    /** Conservation: the counters are right, no bucketed flow is lost or repeated, every drop is accounted for. */
    ghost predicate Valid()
      reads this
    {
      && TotalsOk(config, seen, View()) && CountsOk(config, seen, View())
      && FlowsOk(config, seen, out, buckets)
      && |health| + healthChDrops + abandoned == TallyOf(config, seen).infra
      && Reported(config, seen, health)
    }

    constructor (config: Config)
      ensures Valid() && this.config == config && seen == [] && out == [] && health == [] && buckets == map[] && abandoned == 0
    {
      this.config := config;
      flowsSeen, ignoredByReason, ignoredByProto, infraDrops, healthChDrops, tracked := 0, map[], map[], map[], 0, 0;
      buckets, out, health, seen, abandoned := map[], [], [], [], 0;
    }

    /** Hand every bucket to the builder, in any order, and clear them. */
    method Flush()
      requires Valid()
      modifies `out, `buckets
      ensures Valid() && buckets == map[] && old(out) <= out
      ensures forall i :: |old(out)| <= i < |out| ==> out[i].flows != []
      ensures forall i, j :: |old(out)| <= i < j < |out| ==> out[i].key != out[j].key
    {
      ghost var held := buckets;
      var todo := buckets.Keys;
      FlushStarts(config, seen, out, held);
      while todo != {}
        invariant todo <= buckets.Keys && buckets == held && old(out) <= out
        invariant Flushed(config, seen, out, held, todo)
        invariant OneEach(out, |old(out)|, todo)
        decreases todo
      {
        var key :| key in todo;
        OneMoreEach(out, |old(out)|, todo, Batch(key, buckets[key]));
        FlushStep(config, seen, out, held, todo, key);
        out := out + [Batch(key, buckets[key])];
        todo := todo - {key};
      }
      FlushEnds(config, seen, out, held);
      buckets := map[];
    }

    /** The classification gate: None when the flow goes on to bucketing. */
    method Gate(o: Observed) returns (class': Option<DropClass>)
      ensures class'.Some? <==> Classified(config, o) && config.classify(o.reason) in {InfraDrop, TransientDrop, NoiseDrop}
      ensures class'.Some? ==> class'.value == config.classify(o.reason)
    {
      class' := None;
      if (o.verdict == Dropped || (config.includeAudit && o.verdict == Audit)) && o.reason != UNKNOWN_REASON {
        var c := config.classify(o.reason);
        match c {
          case InfraDrop => class' := Some(c);
          case TransientDrop => class' := Some(c);
          case NoiseDrop => class' := Some(c);
          case _ =>
        }
      }
    }

    /** Count an infrastructure drop and try to report it. */
    method CountInfra(o: Observed, class': DropClass, send: Send)
      modifies `flowsSeen, `infraDrops, `health, `healthChDrops, `abandoned
      ensures flowsSeen == old(flowsSeen) + 1 && infraDrops == Bump(old(infraDrops), o.reason)
      ensures match send
              case Delivered => health == old(health) + [BuildDropEvent(o, class')] && healthChDrops == old(healthChDrops) && abandoned == old(abandoned)
              case Slow => health == old(health) && healthChDrops == old(healthChDrops) + 1 && abandoned == old(abandoned)
              case CancelledFirst => health == old(health) && healthChDrops == old(healthChDrops) && abandoned == old(abandoned) + 1
    {
      flowsSeen := flowsSeen + 1;
      infraDrops := Bump(infraDrops, o.reason);
      match send {
        case Delivered => health := health + [BuildDropEvent(o, class')];
        case Slow => healthChDrops := healthChDrops + 1;
        case CancelledFirst => abandoned := abandoned + 1;
      }
    }

    /** Put the flow into the bucket of its key, or track it when it has none. */
    method Bucket(o: Observed)
      modifies `flowsSeen, `buckets, `tracked
      ensures match KeyFate(o)
              case Bucketed(key) => flowsSeen == old(flowsSeen) + 1 && tracked == old(tracked)
                                    && buckets == old(buckets)[key := InBucket(old(buckets), key) + [o.flow]]
              case _ => flowsSeen == old(flowsSeen) && tracked == old(tracked) + 1 && buckets == old(buckets)
    {
      var ep := PolicyTarget(o.flow);
      if ep.None? || ep.value.namespace == "" {
        tracked := tracked + 1;
        return;
      }
      flowsSeen := flowsSeen + 1;
      var key := Name(ep.value.namespace, o.workload);
      buckets := buckets[key := InBucket(buckets, key) + [o.flow]];
    }

    /** Count and place one flow; stop: the context ended while its drop was being reported. */
    method Place(o: Observed, send: Send) returns (stop: bool)
      modifies `flowsSeen, `ignoredByReason, `ignoredByProto, `infraDrops, `tracked, `buckets, `health, `healthChDrops, `abandoned
      ensures View() == CountedIn(old(View()), FateOf(config, o))
      ensures buckets == BucketedIn(old(buckets), FateOf(config, o), o.flow)
      ensures stop <==> FateOf(config, o).Infra? && send == CancelledFirst
      ensures abandoned == old(abandoned) + (if stop then 1 else 0)
      ensures |health| + healthChDrops + abandoned == |old(health)| + old(healthChDrops) + old(abandoned) + (if FateOf(config, o).Infra? then 1 else 0)
      ensures FateOf(config, o).Infra? && send == Delivered ==> health == old(health) + [BuildDropEvent(o, config.classify(o.reason))]
      ensures !(FateOf(config, o).Infra? && send == Delivered) ==> health == old(health)
    {
      stop := false;
      var name := config.reasonName(o.reason);
      if name != "" && name in config.ignoreReasons {
        ignoredByReason := Bump(ignoredByReason, name);
        return;
      }
      if o.proto != "" && o.proto in config.ignoreProtos {
        ignoredByProto := Bump(ignoredByProto, o.proto);
        return;
      }
      var class' := Gate(o);
      if class' == Some(NoiseDrop) {
        return;
      }
      if class'.Some? {
        CountInfra(o, class'.value, send);
        stop := send == CancelledFirst;
        return;
      }
      Bucket(o);
    }

    /** The total of the per-reason drop counters. */
    method InfraDropTotal() returns (total: nat)
      ensures total == SumValues(infraDrops)
    {
      total := SumUp(infraDrops);
    }

    /**
     The event loop: flows and ticks in the order the select takes them, then a last flush when the input
     closes, the context ends, or it ended while a drop was being reported.
     */
    method Run(script: seq<Event>)
      requires Valid() && seen == [] && out == [] && buckets == map[] && health == [] && abandoned == 0
      modifies this
      ensures Valid() && buckets == map[]
      ensures seen == FlowsOf(script[..Taken(config, script)])
      ensures forall key :: Handed(out, key) == FlowsFor(config, seen, key)
      ensures |health| + healthChDrops + abandoned == SumValues(infraDrops) && abandoned <= 1
    {
      var i := 0;
      var ended := false;
      assert script[0..] == script;
      while i < |script| && !ended
        invariant 0 <= i <= |script| && Taken(config, script) == i + (if ended then 0 else Taken(config, script[i..]))
        invariant Valid() && seen == FlowsOf(script[..i]) && abandoned <= (if ended then 1 else 0)
      {
        TakenNext(config, script, i);
        FlowsOfNext(script, i);
        ended := Handle(script[i]);
        i := i + 1;
      }
      Flush();
      forall key ensures Handed(out, key) == FlowsFor(config, seen, key) {
        assert Handed(out, key) + InBucket(buckets, key) == FlowsFor(config, seen, key);
      }
    }

    method Handle(e: Event) returns (ended: bool)
      requires Valid() && abandoned == 0
      modifies this
      ensures Valid() && seen == old(seen) + (if e.Flow? then [e.o] else [])
      ensures ended == Ends(config, e) && abandoned <= (if ended then 1 else 0)
    {
      ended := false;
      match e {
        case Flow(o, send) => ended := Take(o, send);
        case Tick => Flush();
        case Stop => ended := true;
      }
    }

    /** One flow read from the input. */
    method Take(o: Observed, send: Send) returns (stop: bool)
      requires Valid()
      modifies this
      ensures Valid() && seen == old(seen) + [o] && out == old(out)
      ensures stop <==> FateOf(config, o).Infra? && send == CancelledFirst
      ensures abandoned == old(abandoned) + (if stop then 1 else 0)
      ensures old(health) <= health
    {
      TotalsStep(config, seen, View(), o);
      CountsStep(config, seen, View(), o);
      FlowsStep(config, seen, out, buckets, o);
      InfraStep(config, seen, o);
      ReportedNext(config, seen, health, o);
      stop := Place(o, send);
      seen := seen + [o];
    }
  }

  /**
   Flow conservation: flows read = ignored by reason + ignored by protocol + noise + infrastructure +
   tracked + bucketed, and the flows-seen counter is infrastructure + bucketed.
   */
  lemma Conservation(c: Config, seen: seq<Observed>, v: Counters)
    requires TotalsOk(c, seen, v)
    ensures var t := TallyOf(c, seen);
            && |seen| == SumValues(v.byReason) + SumValues(v.byProto) + t.noise + SumValues(v.infra) + v.tracked + t.bucketed
            && v.flowsSeen == SumValues(v.infra) + t.bucketed
  {
    TallyIsAll(c, seen);
  }

  lemma InfraStep(c: Config, seen: seq<Observed>, o: Observed)
    ensures TallyOf(c, seen + [o]).infra == TallyOf(c, seen).infra + (if FateOf(c, o).Infra? then 1 else 0)
  {
    assert (seen + [o])[..|seen|] == seen;
  }

  // ---- The health report ------------------------------------------------------------------------

  datatype HealthEntry = HealthEntry(class': DropClass, count: nat, byNode: map<string, nat>, byWorkload: map<string, nat>)

  function NodeKey(e: DropEvent): string { if e.node == "" then UNKNOWN_LABEL else e.node }

  function WorkloadKey(e: DropEvent): string
  {
    (if e.namespace == "" then UNKNOWN_LABEL else e.namespace) + "/" + (if e.workload == "" then UNKNOWN_LABEL else e.workload)
  }

  /** How many of the events satisfy a description. */
  function CountEvents(events: seq<DropEvent>, p: DropEvent -> bool): nat
  {
    if events == [] then 0 else CountEvents(events[..|events| - 1], p) + (if p(events[|events| - 1]) then 1 else 0)
  }

  function OfReason(r: int): DropEvent -> bool { (e: DropEvent) => e.reason == r }

  function OfNode(r: int, node: string): DropEvent -> bool { (e: DropEvent) => e.reason == r && NodeKey(e) == node }

  function OfWorkload(r: int, w: string): DropEvent -> bool { (e: DropEvent) => e.reason == r && WorkloadKey(e) == w }

  ghost predicate SomeOfClass(events: seq<DropEvent>, r: int, class': DropClass)
  {
    exists e :: e in events && e.reason == r && e.class' == class'
  }

  /** One entry against the events of its reason. */
  ghost predicate EntryOk(r: int, h: HealthEntry, events: seq<DropEvent>)
  {
    && (h.count > 0 ==> SomeOfClass(events, r, h.class'))
    && h.count == CountEvents(events, OfReason(r))
    && h.count == SumValues(h.byNode) && h.count == SumValues(h.byWorkload)
    && (forall n :: At(h.byNode, n) == CountEvents(events, OfNode(r, n)))
    && (forall w :: At(h.byWorkload, w) == CountEvents(events, OfWorkload(r, w)))
  }

  function EntryFor(drops: map<int, HealthEntry>, r: int, class': DropClass): HealthEntry
  {
    if r in drops then drops[r] else HealthEntry(class', 0, map[], map[])
  }

  function WithEvent(h: HealthEntry, e: DropEvent): HealthEntry
  {
    HealthEntry(h.class', h.count + 1, Bump(h.byNode, NodeKey(e)), Bump(h.byWorkload, WorkloadKey(e)))
  }

  lemma CountEventsNext(events: seq<DropEvent>, e: DropEvent, p: DropEvent -> bool)
    ensures CountEvents(events + [e], p) == CountEvents(events, p) + (if p(e) then 1 else 0)
  {
    assert (events + [e])[..|events|] == events;
  }

  lemma ClassNext(r: int, h: HealthEntry, events: seq<DropEvent>, e: DropEvent)
    requires h.count > 0 ==> SomeOfClass(events, r, h.class')
    requires h.count == 0 && e.reason == r ==> h.class' == e.class'
    ensures h.count > 0 || e.reason == r ==> SomeOfClass(events + [e], r, h.class')
  {
    var more := events + [e];
    assert e in more;
    if h.count > 0 {
      var x :| x in events && x.reason == r && x.class' == h.class';
      assert x in more;
    }
  }

  lemma EntryNext(r: int, h: HealthEntry, events: seq<DropEvent>, e: DropEvent)
    requires EntryOk(r, h, events) && (h.count == 0 && e.reason == r ==> h.class' == e.class')
    ensures EntryOk(r, if e.reason == r then WithEvent(h, e) else h, events + [e])
  {
    ClassNext(r, h, events, e);
    CountEventsNext(events, e, OfReason(r));
    if e.reason == r {
      SumBump(h.byNode, NodeKey(e));
      SumBump(h.byWorkload, WorkloadKey(e));
    }
    var k := if e.reason == r then WithEvent(h, e) else h;
    forall n ensures At(k.byNode, n) == CountEvents(events + [e], OfNode(r, n)) { CountEventsNext(events, e, OfNode(r, n)); }
    forall w ensures At(k.byWorkload, w) == CountEvents(events + [e], OfWorkload(r, w)) { CountEventsNext(events, e, OfWorkload(r, w)); }
  }

  function Counts(drops: map<int, HealthEntry>): map<int, nat> { map r: int | r in drops :: drops[r].count }

  /** Every reason's entry is right and the counts add up to the events. */
  ghost predicate ReportOk(drops: map<int, HealthEntry>, events: seq<DropEvent>)
  {
    && (forall r: int :: EntryOk(r, EntryFor(drops, r, UnknownDrop), events))
    && (forall r: int :: r in drops ==> drops[r].count > 0)
    && SumValues(Counts(drops)) == |events|
  }

  lemma {:induction false} NoEventsYet(r: int)
    ensures EntryOk(r, HealthEntry(UnknownDrop, 0, map[], map[]), [])
  {
  }

  class HealthWriter {
    var drops: map<int, HealthEntry>
    var cached: Option<map<int, HealthEntry>>
    ghost var events: seq<DropEvent>

    ghost predicate Valid()
      reads this
    {
      ReportOk(drops, events)
    }

    constructor ()
      ensures Valid() && events == [] && cached == None && drops == map[]
    {
      drops, cached, events := map[], None, [];
      forall r: int ensures EntryOk(r, EntryFor(map[], r, UnknownDrop), []) { NoEventsYet(r); }
    }

    /** Fold one event into the entry of its reason. */
    method Accumulate(e: DropEvent)
      requires Valid()
      modifies `drops, `events
      ensures Valid() && events == old(events) + [e]
    {
      AccumulateStep(drops, events, e);
      var entry := HealthEntry(e.class', 0, map[], map[]);
      if e.reason in drops {
        entry := drops[e.reason];
      }
      entry := entry.(count := entry.count + 1);
      var node := e.node;
      if node == "" {
        node := UNKNOWN_LABEL;
      }
      entry := entry.(byNode := Bump(entry.byNode, node));
      var workload := e.workload;
      if workload == "" {
        workload := UNKNOWN_LABEL;
      }
      var wkey := e.namespace + "/" + workload;
      if e.namespace == "" {
        wkey := UNKNOWN_LABEL + "/" + workload;
      }
      entry := entry.(byWorkload := Bump(entry.byWorkload, wkey));
      drops := drops[e.reason := entry];
      events := events + [e];
    }

    /** The first call fixes what every call returns. */
    method Snapshot() returns (snap: map<int, HealthEntry>)
      modifies `cached
      ensures snap == (if old(cached).Some? then old(cached).value else drops)
      ensures cached == Some(snap)
    {
      if cached.None? {
        cached := Some(drops);
      }
      return cached.value;
    }
  }

  function Accumulated(drops: map<int, HealthEntry>, e: DropEvent): map<int, HealthEntry>
  {
    drops[e.reason := WithEvent(EntryFor(drops, e.reason, e.class'), e)]
  }

  lemma AccumulateStep(drops: map<int, HealthEntry>, events: seq<DropEvent>, e: DropEvent)
    requires ReportOk(drops, events)
    ensures ReportOk(Accumulated(drops, e), events + [e])
  {
    var after := Accumulated(drops, e);
    forall r: int ensures EntryOk(r, EntryFor(after, r, UnknownDrop), events + [e]) {
      assert EntryOk(r, EntryFor(drops, r, UnknownDrop), events);
      EntryNext(r, EntryFor(drops, r, if r == e.reason then e.class' else UnknownDrop), events, e);
    }
    CountsStep'(drops, e);
  }

  lemma CountsStep'(drops: map<int, HealthEntry>, e: DropEvent)
    ensures SumValues(Counts(Accumulated(drops, e))) == SumValues(Counts(drops)) + 1
  {
    assert Counts(Accumulated(drops, e)) == Bump(Counts(drops), e.reason);
    SumBump(Counts(drops), e.reason);
  }

  /**
   The health report of a run: when the drainer has accumulated every report the aggregator sent, the
   entries' counts plus the reports dropped on a full channel are the infrastructure drops, but for at
   most one lost to cancellation.
   */
  lemma HealthAccounts(agg: Aggregator, drops: map<int, HealthEntry>)
    requires agg.Valid() && agg.abandoned <= 1 && ReportOk(drops, agg.health)
    ensures SumValues(Counts(drops)) + agg.healthChDrops <= SumValues(agg.infraDrops) <= SumValues(Counts(drops)) + agg.healthChDrops + 1
    ensures agg.abandoned == 0 ==> SumValues(Counts(drops)) + agg.healthChDrops == SumValues(agg.infraDrops)
  {
  }

  /** Every entry of the report carries the class of its reason in the static table. */
  lemma EntryClass(agg: Aggregator, drops: map<int, HealthEntry>, r: int)
    requires agg.Valid() && ReportOk(drops, agg.health) && r in drops
    ensures drops[r].class' == agg.config.classify(r)
  {
    assert EntryOk(r, EntryFor(drops, r, UnknownDrop), agg.health);
    var e :| e in agg.health && e.reason == r && e.class' == drops[r].class';
    assert SomeDrop(agg.config, agg.seen, e);
  }
}
