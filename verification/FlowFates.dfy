/** Where the aggregator files a flow (pkg/hubble/aggregator.go), told by the flow's own fields. */
module FlowFates {
  import opened PolicyTypes
  import opened Builder
  import opened Aggregation

  /** The workload a flow was dropped at, its destination, or from, its source, in a known namespace. */
  predicate BelongsTo(o: Observed, key: Name)
  {
    && key.workload == o.workload && key.namespace != ""
    && match o.flow.dir
       case In => o.flow.destination.Some? && o.flow.destination.value.namespace == key.namespace
       case Out => o.flow.source.Some? && o.flow.source.value.namespace == key.namespace
       case Unset => false
  }

  predicate ReasonIgnored(c: Config, o: Observed)
  {
    c.reasonName(o.reason) != "" && c.reasonName(o.reason) in c.ignoreReasons
  }

  predicate ProtoIgnored(c: Config, o: Observed)
  {
    o.proto != "" && o.proto in c.ignoreProtos
  }

  /** A drop, or in audit mode a would-be drop, for a known reason of one of these classes. */
  predicate DroppedAs(c: Config, o: Observed, classes: set<DropClass>)
  {
    && (o.verdict == Dropped || (o.verdict == Audit && c.includeAudit))
    && o.reason != 0 && c.classify(o.reason) in classes
  }

  /** No filter and no class of drops keeps the flow from being bucketed. */
  predicate Passes(c: Config, o: Observed)
  {
    !ReasonIgnored(c, o) && !ProtoIgnored(c, o) && !DroppedAs(c, o, {InfraDrop, TransientDrop, NoiseDrop})
  }

  /** Each fate, by the fields of the flow. */
  lemma FateExactly(c: Config, o: Observed, fate: Fate)
    ensures FateOf(c, o) == fate <==>
            match fate
            case ByReason(name) => ReasonIgnored(c, o) && name == c.reasonName(o.reason)
            case ByProto(name) => !ReasonIgnored(c, o) && ProtoIgnored(c, o) && name == o.proto
            case Noise => !ReasonIgnored(c, o) && !ProtoIgnored(c, o) && DroppedAs(c, o, {NoiseDrop})
            case Infra(r) => !ReasonIgnored(c, o) && !ProtoIgnored(c, o) && DroppedAs(c, o, {InfraDrop, TransientDrop}) && r == o.reason
            case Bucketed(key) => Passes(c, o) && BelongsTo(o, key)
            case Tracked => Passes(c, o) && forall key :: !BelongsTo(o, key)
  {
    KnownTarget(o);
  }

  lemma KnownTarget(o: Observed)
    ensures var t := PolicyTarget(o.flow);
            t.Some? && t.value.namespace != "" ==> BelongsTo(o, Name(t.value.namespace, o.workload))
  {
  }

  ghost predicate SomeFiled(c: Config, seen: seq<Observed>, key: Name, f: Flow)
  {
    exists o :: o in seen && o.flow == f && Passes(c, o) && BelongsTo(o, key)
  }

  /** The flows filed under a workload are those dropped at or from it that no filter took. */
  lemma {:induction false} FiledExactly(c: Config, seen: seq<Observed>, key: Name, f: Flow)
    ensures f in FlowsFor(c, seen, key) <==> SomeFiled(c, seen, key, f)
  {
    if seen != [] {
      var front, o := seen[..|seen| - 1], seen[|seen| - 1];
      FiledExactly(c, front, key, f);
      FateExactly(c, o, Bucketed(key));
      assert seen == front + [o];
      assert forall x :: x in seen <==> x in front || x == o;
    }
  }

  /** A reported drop names the workload it belongs to, as far as it is known. */
  lemma ReportNames(o: Observed, class': DropClass)
    ensures var e := BuildDropEvent(o, class');
            && e.reason == o.reason && e.class' == class'
            && e.node == (if o.node == "" then "_unknown" else o.node)
            && (forall key :: BelongsTo(o, key) ==> e.namespace == key.namespace && (o.labelled ==> e.workload == key.workload))
            && ((forall key :: !BelongsTo(o, key)) ==> e.namespace == "_unknown")
  {
    KnownTarget(o);
  }

  /** The report counts a drop under its workload as "namespace/workload", as far as each is known. */
  lemma ReportLabel(o: Observed, class': DropClass, key: Name)
    requires BelongsTo(o, key) && o.labelled && key.workload != ""
    ensures WorkloadKey(BuildDropEvent(o, class')) == key.namespace + "/" + key.workload
    ensures NodeKey(BuildDropEvent(o, class')) == if o.node == "" then "_unknown" else o.node
  {
    ReportNames(o, class');
  }
}
