/**
 What a built policy says: exactly what its flows say one by one. From this and the merge theorems,
 how flows are cut into flush windows does not change the meaning of the file.
 */
module BuilderMeaning {
  import opened PolicyTypes
  import opened Merge
  import opened MergeMeaning
  import opened CompanionDNS
  import opened Builder

  // ---- Port numbers --------------------------------------------------------------------------

  function Numeral(s: string): int
  {
    if s == "" then 0 else 10 * Numeral(s[..|s| - 1]) + (s[|s| - 1] as int - '0' as int)
  }

  lemma {:induction false} DecimalReadsBack(n: nat)
    ensures Numeral(Decimal(n)) == n
  {
    if n >= 10 {
      DecimalReadsBack(n / 10);
      var s := Decimal(n);
      assert s[..|s| - 1] == Decimal(n / 10);
    } else {
      assert Decimal(n)[..0] == "";
    }
  }

  /** A port's dedup key determines the protocol record it came from. */
  lemma KeyInjective(a: FlowProto, b: FlowProto)
    requires KeyOf(a) == KeyOf(b) && Derived(a) && Derived(b)
    ensures a == b
  {
    DecimalReadsBack(a.port);
    DecimalReadsBack(b.port);
  }

  predicate Derived(fp: FlowProto)
  {
    fp.icmp == (fp.proto == ICMP_PROTO || fp.proto == ICMP6_PROTO)
  }

  // ---- One bucket ----------------------------------------------------------------------------

  predicate AccSays(a: Acc, fact: Fact)
  {
    match fact
    case OnPort(pp) => pp in a.ports
    case OnHTTP(pp, h) => pp in a.ports && h in HTTPAt(a.http, pp)
    case OnICMP(f) => f in a.icmps
    case _ => false
  }

  /** What a flow says about whichever peer it is filed under. */
  predicate FlowFact(f: Flow, dir: Dir, l7Enabled: bool, fact: Fact)
  {
    var fp := ExtractProto(f.l4);
    && fp.Some?
    && KindOf(f, dir, l7Enabled) != L7DNS
    && match fact
       case OnPort(pp) => !fp.value.icmp && pp == KeyOf(fp.value)
       case OnHTTP(pp, h) => !fp.value.icmp && pp == KeyOf(fp.value)
                             && KindOf(f, dir, l7Enabled) == L7HTTP && h == HTTPRuleOf(f)
       case OnICMP(field) => fp.value.icmp && field == FieldOf(fp.value)
       case _ => false
  }

  /** A flow of a bucket: filed under its key. */
  predicate FiledUnder(f: Flow, dir: Dir, policyNS: string, k: BucketKey)
  {
    var t := Target(f, dir, policyNS);
    t.Some? && t.value.0 == k
  }

  ghost predicate FiledFact(flows: seq<Flow>, dir: Dir, policyNS: string, l7Enabled: bool, k: BucketKey, fact: Fact)
  {
    exists f :: f in flows && FiledUnder(f, dir, policyNS, k) && FlowFact(f, dir, l7Enabled, fact)
  }

  /** What the seen set of a bucket records. */
  ghost predicate SeenIs(a: Acc, fps: set<FlowProto>)
  {
    && (forall fp :: fp in fps ==> Derived(fp))
    && a.seen == (set fp | fp in fps :: KeyOf(fp))
    && (forall fp :: fp in fps ==> if fp.icmp then FieldOf(fp) in a.icmps else KeyOf(fp) in a.ports)
    && (forall pp :: pp in a.ports ==> exists fp :: fp in fps && !fp.icmp && KeyOf(fp) == pp)
  }

  lemma WithFlowSays(a: Acc, fp: FlowProto, fps: set<FlowProto>, fact: Fact)
    requires SeenIs(a, fps) && Derived(fp)
    ensures SeenIs(WithFlow(a, fp), fps + {fp})
    ensures fact.OnPort? ==> (AccSays(WithFlow(a, fp), fact) <==> AccSays(a, fact) || (!fp.icmp && fact.pp == KeyOf(fp)))
    ensures fact.OnICMP? ==> (AccSays(WithFlow(a, fp), fact) <==> AccSays(a, fact) || (fp.icmp && fact.field == FieldOf(fp)))
    ensures WithFlow(a, fp).http == a.http
  {
    if KeyOf(fp) in a.seen {
      var other :| other in fps && KeyOf(other) == KeyOf(fp);
      KeyInjective(fp, other);
      assert fps + {fp} == fps;
    } else {
      var b := WithFlow(a, fp);
      assert b.seen == (set x | x in fps + {fp} :: KeyOf(x));
      forall pp | pp in b.ports ensures exists x :: x in fps + {fp} && !x.icmp && KeyOf(x) == pp {
        if pp in a.ports {
          var x :| x in fps && !x.icmp && KeyOf(x) == pp;
          assert x in fps + {fp};
        } else {
          assert fp in fps + {fp} && !fp.icmp && KeyOf(fp) == pp;
        }
      }
    }
  }

  lemma WithHTTPSays(a: Acc, key: PortProto, h: HTTPRule, pp: PortProto, q: HTTPRule)
    ensures q in HTTPAt(WithHTTP(a, key, [h]).http, pp) <==> q in HTTPAt(a.http, pp) || (pp == key && q == h)
  {
    AppendNewMembers(if key in a.http then a.http[key] else [], [h]);
  }

  /** The protocols of the flows of a bucket that reach its port and ICMP lists. */
  ghost function ProtosOf(flows: seq<Flow>, dir: Dir, policyNS: string, l7Enabled: bool, k: BucketKey): set<FlowProto>
  {
    set f | f in flows && FiledUnder(f, dir, policyNS, k) && KindOf(f, dir, l7Enabled) != L7DNS :: ExtractProto(f.l4).value
  }

  /** HTTP recorded for a port whether or not the port is a port rule. */
  ghost predicate FiledHTTP(flows: seq<Flow>, dir: Dir, policyNS: string, l7Enabled: bool, k: BucketKey, pp: PortProto, h: HTTPRule)
  {
    exists f :: f in flows && FiledUnder(f, dir, policyNS, k) && HTTPFact(f, dir, l7Enabled, pp, h)
  }

  predicate HTTPFact(f: Flow, dir: Dir, l7Enabled: bool, pp: PortProto, h: HTTPRule)
  {
    KindOf(f, dir, l7Enabled) == L7HTTP && ExtractProto(f.l4).Some? && pp == KeyOf(ExtractProto(f.l4).value) && h == HTTPRuleOf(f)
  }

  function AccOf(g: Grouping, k: BucketKey): Acc
  {
    if k in g.accs then g.accs[k] else EMPTY_ACC
  }

  /** The effect of one more flow on bucket k. */
  lemma OneMoreFlow(front: seq<Flow>, f: Flow, dir: Dir, policyNS: string, l7Enabled: bool, k: BucketKey)
    ensures var before := AccOf(GroupAll(front, dir, policyNS, l7Enabled), k);
            AccOf(GroupAll(front + [f], dir, policyNS, l7Enabled), k)
            == if FiledUnder(f, dir, policyNS, k) then AddTo(before, f, ExtractProto(f.l4).value, dir, l7Enabled) else before
  {
    assert (front + [f])[..|front|] == front;
  }

  lemma FiledFactStep(front: seq<Flow>, f: Flow, dir: Dir, policyNS: string, l7Enabled: bool, k: BucketKey, fact: Fact)
    ensures FiledFact(front + [f], dir, policyNS, l7Enabled, k, fact) <==>
            FiledFact(front, dir, policyNS, l7Enabled, k, fact)
            || (FiledUnder(f, dir, policyNS, k) && FlowFact(f, dir, l7Enabled, fact))
  {
    assert forall x :: x in front + [f] <==> x in front || x == f;
  }

  lemma FiledHTTPStep(front: seq<Flow>, f: Flow, dir: Dir, policyNS: string, l7Enabled: bool, k: BucketKey, pp: PortProto, h: HTTPRule)
    ensures FiledHTTP(front + [f], dir, policyNS, l7Enabled, k, pp, h) <==>
            FiledHTTP(front, dir, policyNS, l7Enabled, k, pp, h)
            || (FiledUnder(f, dir, policyNS, k) && HTTPFact(f, dir, l7Enabled, pp, h))
  {
    assert forall x :: x in front + [f] <==> x in front || x == f;
  }

  lemma ProtosStep(front: seq<Flow>, f: Flow, dir: Dir, policyNS: string, l7Enabled: bool, k: BucketKey)
    ensures ProtosOf(front + [f], dir, policyNS, l7Enabled, k)
         == ProtosOf(front, dir, policyNS, l7Enabled, k)
            + (if FiledUnder(f, dir, policyNS, k) && KindOf(f, dir, l7Enabled) != L7DNS then {ExtractProto(f.l4).value} else {})
  {
    assert forall x :: x in front + [f] <==> x in front || x == f;
  }

  /** One flow added to a bucket: what the bucket says grows by what the flow says. */
  lemma AddToSays(a: Acc, f: Flow, dir: Dir, l7Enabled: bool, fps: set<FlowProto>, fact: Fact)
    requires SeenIs(a, fps) && ExtractProto(f.l4).Some? && (fact.OnPort? || fact.OnICMP?)
    ensures var fp := ExtractProto(f.l4).value; var b := AddTo(a, f, fp, dir, l7Enabled);
            && SeenIs(b, fps + (if KindOf(f, dir, l7Enabled) != L7DNS then {fp} else {}))
            && (AccSays(b, fact) <==> AccSays(a, fact) || FlowFact(f, dir, l7Enabled, fact))
  {
    var fp := ExtractProto(f.l4).value;
    match KindOf(f, dir, l7Enabled)
    case L7None => WithFlowSays(a, fp, fps, fact);
    case L7HTTP =>
      var mid := WithHTTP(a, KeyOf(fp), [HTTPRuleOf(f)]);
      assert SeenIs(mid, fps) && (AccSays(mid, fact) <==> AccSays(a, fact));
      WithFlowSays(mid, fp, fps, fact);
    case L7DNS =>
      assert fps + {} == fps;
  }

  /** Bucket k of a grouping against the flows filed under k. */
  lemma {:induction false} BucketFacts(flows: seq<Flow>, dir: Dir, policyNS: string, l7Enabled: bool, k: BucketKey, fact: Fact)
    requires fact.OnPort? || fact.OnICMP?
    ensures var a := AccOf(GroupAll(flows, dir, policyNS, l7Enabled), k);
            && SeenIs(a, ProtosOf(flows, dir, policyNS, l7Enabled, k))
            && (AccSays(a, fact) <==> FiledFact(flows, dir, policyNS, l7Enabled, k, fact))
  {
    if flows != [] {
      var front, f := flows[..|flows| - 1], flows[|flows| - 1];
      assert flows == front + [f];
      BucketFacts(front, dir, policyNS, l7Enabled, k, fact);
      OneMoreFlow(front, f, dir, policyNS, l7Enabled, k);
      FiledFactStep(front, f, dir, policyNS, l7Enabled, k, fact);
      ProtosStep(front, f, dir, policyNS, l7Enabled, k);
      if FiledUnder(f, dir, policyNS, k) {
        AddToSays(AccOf(GroupAll(front, dir, policyNS, l7Enabled), k), f, dir, l7Enabled,
                  ProtosOf(front, dir, policyNS, l7Enabled, k), fact);
      }
    }
  }

  lemma {:induction false} BucketHTTPFacts(flows: seq<Flow>, dir: Dir, policyNS: string, l7Enabled: bool, k: BucketKey, pp: PortProto, h: HTTPRule)
    ensures h in HTTPAt(AccOf(GroupAll(flows, dir, policyNS, l7Enabled), k).http, pp) <==>
            FiledHTTP(flows, dir, policyNS, l7Enabled, k, pp, h)
  {
    if flows != [] {
      var front, f := flows[..|flows| - 1], flows[|flows| - 1];
      assert flows == front + [f];
      BucketHTTPFacts(front, dir, policyNS, l7Enabled, k, pp, h);
      OneMoreFlow(front, f, dir, policyNS, l7Enabled, k);
      FiledHTTPStep(front, f, dir, policyNS, l7Enabled, k, pp, h);
      if FiledUnder(f, dir, policyNS, k) {
        AddToHTTP(AccOf(GroupAll(front, dir, policyNS, l7Enabled), k), f, dir, l7Enabled, pp, h);
      }
    }
  }

  lemma AddToHTTP(a: Acc, f: Flow, dir: Dir, l7Enabled: bool, pp: PortProto, h: HTTPRule)
    requires ExtractProto(f.l4).Some?
    ensures h in HTTPAt(AddTo(a, f, ExtractProto(f.l4).value, dir, l7Enabled).http, pp) <==>
            h in HTTPAt(a.http, pp) || HTTPFact(f, dir, l7Enabled, pp, h)
  {
    if KindOf(f, dir, l7Enabled) == L7HTTP {
      WithHTTPSays(a, KeyOf(ExtractProto(f.l4).value), HTTPRuleOf(f), pp, h);
    }
  }

  /** A bucket says exactly what the flows filed under its key say. */
  lemma BucketExact(flows: seq<Flow>, dir: Dir, policyNS: string, l7Enabled: bool, k: BucketKey, fact: Fact)
    ensures AccSays(AccOf(GroupAll(flows, dir, policyNS, l7Enabled), k), fact) <==>
            FiledFact(flows, dir, policyNS, l7Enabled, k, fact)
  {
    match fact
    case OnPort(_) => BucketFacts(flows, dir, policyNS, l7Enabled, k, fact);
    case OnICMP(_) => BucketFacts(flows, dir, policyNS, l7Enabled, k, fact);
    case OnHTTP(pp, h) =>
      BucketFacts(flows, dir, policyNS, l7Enabled, k, OnPort(pp));
      BucketHTTPFacts(flows, dir, policyNS, l7Enabled, k, pp, h);
      if FiledHTTP(flows, dir, policyNS, l7Enabled, k, pp, h) && FiledFact(flows, dir, policyNS, l7Enabled, k, OnPort(pp)) {
        var f :| f in flows && FiledUnder(f, dir, policyNS, k) && HTTPFact(f, dir, l7Enabled, pp, h);
        var q :| q in flows && FiledUnder(q, dir, policyNS, k) && FlowFact(q, dir, l7Enabled, OnPort(pp));
        KeyInjective(ExtractProto(f.l4).value, ExtractProto(q.l4).value);
        assert FlowFact(f, dir, l7Enabled, fact);
      }
      if FiledFact(flows, dir, policyNS, l7Enabled, k, fact) {
        var f :| f in flows && FiledUnder(f, dir, policyNS, k) && FlowFact(f, dir, l7Enabled, fact);
        assert HTTPFact(f, dir, l7Enabled, pp, h) && FlowFact(f, dir, l7Enabled, OnPort(pp));
      }
    case _ =>
  }

  // ---- Emission ------------------------------------------------------------------------------

  lemma PortRulesExact(ports: seq<PortProto>, http: map<PortProto, seq<HTTPRule>>, fact: Fact)
    ensures PortRulesSay(PortRules(ports, http), fact) <==>
            match fact
            case OnPort(pp) => pp in ports
            case OnHTTP(pp, h) => pp in ports && h in HTTPAt(http, pp)
            case _ => false
  {
    var prs := PortRules(ports, http);
    if forall i :: 0 <= i < |ports| ==> HTTPAt(http, ports[i]) == [] {
      OnePortRuleSays(PortRule(ports, None), fact);
    } else {
      forall i | 0 <= i < |ports| ensures prs[i] in prs && prs[i] == PortRuleFor(ports[i], http) {}
      if fact.OnPort? || fact.OnHTTP? {
        var pp := fact.pp;
        if pp in ports {
          var i :| 0 <= i < |ports| && ports[i] == pp;
          assert prs[i] in prs && pp in prs[i].ports;
        }
      }
    }
  }

  lemma BucketRulesSay(peer: Peer, a: Acc, q: Peer, fact: Fact)
    ensures RulesSay(RulesFrom(peer, a), q, fact) <==> q == peer && AccSays(a, fact)
  {
    var x := if a.ports == [] then [] else [Rule(peer, [], PortRules(a.ports, a.http), [])];
    var y := if a.icmps == [] then [] else [Rule(peer, [], [], [a.icmps])];
    RulesAppend(x, y, q, fact);
    PortRulesExact(a.ports, a.http, fact);
    if a.ports != [] { OneRuleSays(x[0], q, fact); }
    if a.icmps != [] {
      OneRuleSays(y[0], q, fact);
      assert a.icmps in [a.icmps];
    }
  }

  ghost predicate BucketsSayIn(order: seq<BucketKey>, g: Grouping, q: Peer, fact: Fact)
    requires forall k :: k in order ==> k in g.accs && k in g.index.peers
  {
    exists k :: k in order && g.index.peers[k] == q && AccSays(g.accs[k], fact)
  }

  lemma {:induction false} EmitBucketsSay(order: seq<BucketKey>, g: Grouping, q: Peer, fact: Fact)
    requires forall k :: k in order ==> k in g.accs && k in g.index.peers
    ensures RulesSay(EmitBuckets(order, g), q, fact) <==> BucketsSayIn(order, g, q, fact)
  {
    if order != [] {
      var front, k := order[..|order| - 1], order[|order| - 1];
      assert order == front + [k];
      EmitBucketsSay(front, g, q, fact);
      RulesAppend(EmitBuckets(front, g), RulesFrom(g.index.peers[k], g.accs[k]), q, fact);
      BucketRulesSay(g.index.peers[k], g.accs[k], q, fact);
      assert forall x :: x in order <==> x in front || x == k;
    }
  }

  ghost predicate GroupingSays(g: Grouping, q: Peer, fact: Fact)
    requires Listed(g)
  {
    exists k :: k in g.accs && g.index.peers[k] == q && AccSays(g.accs[k], fact)
  }

  lemma DirectionSays(g: Grouping, q: Peer, fact: Fact)
    requires Listed(g)
    ensures RulesSay(DirectionRules(g), q, fact) <==> GroupingSays(g, q, fact)
  {
    var a, b, c := EmitBuckets(g.index.entities, g), EmitBuckets(g.index.cidrs, g), EmitBuckets(g.index.endpoints, g);
    EmitBucketsSay(g.index.entities, g, q, fact);
    EmitBucketsSay(g.index.cidrs, g, q, fact);
    EmitBucketsSay(g.index.endpoints, g, q, fact);
    RulesAppend(a, b, q, fact);
    RulesAppend(a + b, c, q, fact);
  }

  // ---- Flows without DNS ---------------------------------------------------------------------

  /** No flow is consumed by a toFQDNs rule. */
  ghost predicate NoDNS(flows: seq<Flow>, l7Enabled: bool)
  {
    forall f :: f in flows ==> KindOf(f, Egress, l7Enabled) != L7DNS
  }

  lemma {:induction false} TowardsMembers(flows: seq<Flow>, dir: Dir)
    ensures forall f :: f in Towards(flows, dir) <==>
              f in flows && f.l4.Some? && f.dir == (if dir == Ingress then In else Out)
  {
    if flows != [] {
      var front, f := flows[..|flows| - 1], flows[|flows| - 1];
      assert flows == front + [f];
      TowardsMembers(front, dir);
    }
  }

  lemma {:induction false} NoDNSNames(flows: seq<Flow>, dir: Dir, policyNS: string, l7Enabled: bool)
    requires dir == Egress ==> NoDNS(flows, l7Enabled)
    ensures forall k :: k in GroupAll(flows, dir, policyNS, l7Enabled).accs ==>
              GroupAll(flows, dir, policyNS, l7Enabled).accs[k].dns == []
  {
    if flows != [] {
      var front, f := flows[..|flows| - 1], flows[|flows| - 1];
      assert flows == front + [f];
      NoDNSNames(front, dir, policyNS, l7Enabled);
    }
  }

  lemma {:induction false} NoNamesNoFqdnRules(order: seq<BucketKey>, g: Grouping)
    requires forall k :: k in order ==> k in g.accs && g.accs[k].dns == []
    ensures FqdnRules(order, g) == []
  {
    if order != [] { NoNamesNoFqdnRules(order[..|order| - 1], g); }
  }

  lemma {:induction false} EmittedRulesPlain(order: seq<BucketKey>, g: Grouping)
    requires forall k :: k in order ==> k in g.accs && k in g.index.peers
    ensures NoFqdns(EmitBuckets(order, g))
  {
    if order != [] { EmittedRulesPlain(order[..|order| - 1], g); }
  }

  lemma DirectionPlain(g: Grouping)
    requires Listed(g)
    ensures NoFqdns(DirectionRules(g))
  {
    EmittedRulesPlain(g.index.entities, g);
    EmittedRulesPlain(g.index.cidrs, g);
    EmittedRulesPlain(g.index.endpoints, g);
  }

  lemma HasMember<T>(s: seq<T>)
    ensures s == [] || exists x :: x in s
  {
    if s != [] { assert s[0] in s; }
  }

  /** Without DNS names there are no FQDN rules and no companion. */
  lemma EgressPlain(g: Grouping, dnsSelector: map<string, string>)
    requires Listed(g) && forall k :: k in g.accs ==> g.accs[k].dns == []
    ensures WithCompanion(EgressRules(g), dnsSelector) == DirectionRules(g)
  {
    NoNamesNoFqdnRules(g.index.entities, g);
    NoNamesNoFqdnRules(g.index.cidrs, g);
    NoNamesNoFqdnRules(g.index.endpoints, g);
    assert EgressRules(g) == DirectionRules(g);
    DirectionPlain(g);
    CollectedMembers(DirectionRules(g));
    HasMember(CollectedNames(DirectionRules(g)));
  }

  /** A built policy without DNS is the plain rules of its two groupings. */
  lemma BuildPlain(namespace: string, workload: string, flows: seq<Flow>, l7Enabled: bool, dnsSelector: map<string, string>)
    requires NoDNS(flows, l7Enabled)
    ensures var p := Build(namespace, workload, flows, l7Enabled, dnsSelector);
            && p.spec.Some?
            && p.spec.value.ingress == DirectionRules(GroupingOf(flows, Ingress, namespace, l7Enabled))
            && p.spec.value.egress == DirectionRules(GroupingOf(flows, Egress, namespace, l7Enabled))
            && PolicyNoFqdns(p)
  {
    TowardsMembers(flows, Egress);
    NoDNSNames(Towards(flows, Egress), Egress, namespace, l7Enabled);
    EgressPlain(GroupingOf(flows, Egress, namespace, l7Enabled), dnsSelector);
    DirectionPlain(GroupingOf(flows, Ingress, namespace, l7Enabled));
    DirectionPlain(GroupingOf(flows, Egress, namespace, l7Enabled));
  }

  // ---- Exactness -----------------------------------------------------------------------------

  predicate Counts(f: Flow, dir: Dir)
  {
    f.l4.Some? && f.dir == (if dir == Ingress then In else Out)
  }

  /** The entry a single flow stands for. */
  predicate FlowSays(f: Flow, namespace: string, l7Enabled: bool, e: Entry)
  {
    var t := Target(f, e.dir, namespace);
    Counts(f, e.dir) && t.Some? && t.value.1 == e.peer && FlowFact(f, e.dir, l7Enabled, e.fact)
  }

  ghost predicate SomeFlowSays(flows: seq<Flow>, namespace: string, l7Enabled: bool, e: Entry)
  {
    exists f :: f in flows && FlowSays(f, namespace, l7Enabled, e)
  }

  /** Two flows of one direction that would share a bucket but name different peers. */
  predicate Clash(f: Flow, g: Flow, dir: Dir, namespace: string)
  {
    var s, t := Target(f, dir, namespace), Target(g, dir, namespace);
    Counts(f, dir) && Counts(g, dir) && s.Some? && t.Some? && s.value.0 == t.value.0 && s.value.1 != t.value.1
  }

  /** Flows with equal selected labels agree on the namespace the peer selector is scoped to. */
  ghost predicate SameScope(flows: seq<Flow>, namespace: string)
  {
    forall f, g, dir :: f in flows && g in flows ==> !Clash(f, g, dir, namespace)
  }

  /** Exactly when two endpoints clash: equal selected labels, differently scoped namespaces. */
  lemma ClashIsNamespace(f: Flow, g: Flow, dir: Dir, namespace: string)
    requires forall h :: h == f || h == g ==> (PeerEnd(h, dir).Some? ==> NS_KEY !in PeerEnd(h, dir).value.selected)
    ensures Clash(f, g, dir, namespace) <==>
            && Counts(f, dir) && Counts(g, dir)
            && Target(f, dir, namespace).Some? && Target(f, dir, namespace).value.0.PeerKey?
            && Target(g, dir, namespace).Some? && Target(g, dir, namespace).value.0.PeerKey?
            && PeerEnd(f, dir).value.selected == PeerEnd(g, dir).value.selected
            && PeerEnd(f, dir).value.namespace != PeerEnd(g, dir).value.namespace
  {
    var s, t := Target(f, dir, namespace), Target(g, dir, namespace);
    if s.Some? && t.Some? && s.value.0.PeerKey? && s.value.0 == t.value.0 {
      var a, b := PeerEnd(f, dir).value, PeerEnd(g, dir).value;
      ScopedSelector(a, namespace);
      ScopedSelector(b, namespace);
      assert s.value.1 == t.value.1 ==> PeerSelector(a, namespace) == PeerSelector(b, namespace) by {
        assert s.value.1.endpoints[0] == PeerSelector(a, namespace);
        assert t.value.1.endpoints[0] == PeerSelector(b, namespace);
      }
    }
  }

  lemma ScopedSelector(ep: Endpoint, namespace: string)
    requires NS_KEY !in ep.selected
    ensures ep.namespace == namespace <==> NS_KEY !in PeerSelector(ep, namespace).labels
    ensures ep.namespace != namespace ==> PeerSelector(ep, namespace).labels[NS_KEY] == ep.namespace
    ensures PeerSelector(ep, namespace).labels - {NS_KEY} == ep.selected
  {
  }

  ghost predicate SomeFiled(flows: seq<Flow>, dir: Dir, policyNS: string, k: BucketKey)
  {
    exists f :: f in flows && FiledUnder(f, dir, policyNS, k)
  }

  /** The peer of bucket k is the one some flow of the bucket names. */
  ghost predicate PeerNamed(flows: seq<Flow>, dir: Dir, policyNS: string, k: BucketKey, peer: Peer)
  {
    exists f :: f in flows && Target(f, dir, policyNS) == Some((k, peer))
  }

  lemma GroupOnePeer(g: Grouping, f: Flow, dir: Dir, policyNS: string, l7Enabled: bool, k: BucketKey)
    requires g.index.peers.Keys == g.accs.Keys
    ensures var h := GroupOne(g, f, dir, policyNS, l7Enabled);
            && h.index.peers.Keys == h.accs.Keys
            && (k in h.accs <==> k in g.accs || FiledUnder(f, dir, policyNS, k))
            && (k in g.accs ==> h.index.peers[k] == g.index.peers[k])
            && (k in h.accs && k !in g.accs ==> Target(f, dir, policyNS) == Some((k, h.index.peers[k])))
  {
  }

  lemma FiledStep(front: seq<Flow>, f: Flow, dir: Dir, policyNS: string, k: BucketKey, peer: Peer)
    ensures SomeFiled(front + [f], dir, policyNS, k) <==> SomeFiled(front, dir, policyNS, k) || FiledUnder(f, dir, policyNS, k)
    ensures PeerNamed(front + [f], dir, policyNS, k, peer) <==>
            PeerNamed(front, dir, policyNS, k, peer) || Target(f, dir, policyNS) == Some((k, peer))
  {
    assert forall x :: x in front + [f] <==> x in front || x == f;
  }

  lemma {:induction false} BucketPeer(flows: seq<Flow>, dir: Dir, policyNS: string, l7Enabled: bool, k: BucketKey)
    ensures var g := GroupAll(flows, dir, policyNS, l7Enabled);
            && g.index.peers.Keys == g.accs.Keys
            && (k in g.accs <==> SomeFiled(flows, dir, policyNS, k))
            && (k in g.accs ==> PeerNamed(flows, dir, policyNS, k, g.index.peers[k]))
  {
    if flows != [] {
      var front, f := flows[..|flows| - 1], flows[|flows| - 1];
      assert flows == front + [f];
      BucketPeer(front, dir, policyNS, l7Enabled, k);
      var g := GroupAll(flows, dir, policyNS, l7Enabled);
      GroupOnePeer(GroupAll(front, dir, policyNS, l7Enabled), f, dir, policyNS, l7Enabled, k);
      FiledStep(front, f, dir, policyNS, k, if k in g.accs then g.index.peers[k] else Peer([], [], []));
    }
  }

  /** Under one scope per label set, each direction says exactly what its flows say. */
  lemma GroupingExact(flows: seq<Flow>, namespace: string, l7Enabled: bool, e: Entry)
    requires SameScope(flows, namespace)
    ensures GroupingSays(GroupingOf(flows, e.dir, namespace, l7Enabled), e.peer, e.fact) <==>
            SomeFlowSays(flows, namespace, l7Enabled, e)
  {
    var dir, part := e.dir, Towards(flows, e.dir);
    var g := GroupAll(part, dir, namespace, l7Enabled);
    TowardsMembers(flows, dir);
    GroupAllListed(part, dir, namespace, l7Enabled);
    if GroupingSays(g, e.peer, e.fact) {
      var k :| k in g.accs && g.index.peers[k] == e.peer && AccSays(g.accs[k], e.fact);
      BucketExact(part, dir, namespace, l7Enabled, k, e.fact);
      var f :| f in part && FiledUnder(f, dir, namespace, k) && FlowFact(f, dir, l7Enabled, e.fact);
      OnePeerPerBucket(flows, namespace, l7Enabled, f, dir);
      assert FlowSays(f, namespace, l7Enabled, e);
    }
    if SomeFlowSays(flows, namespace, l7Enabled, e) {
      var f :| f in flows && FlowSays(f, namespace, l7Enabled, e);
      var k := Target(f, dir, namespace).value.0;
      OnePeerPerBucket(flows, namespace, l7Enabled, f, dir);
      BucketExact(part, dir, namespace, l7Enabled, k, e.fact);
      assert FiledUnder(f, dir, namespace, k);
    }
  }

  /** Under one scope per label set, the peer of a bucket is the peer of each of its flows. */
  lemma OnePeerPerBucket(flows: seq<Flow>, namespace: string, l7Enabled: bool, f: Flow, dir: Dir)
    requires SameScope(flows, namespace)
    requires f in Towards(flows, dir) && Target(f, dir, namespace).Some?
    ensures var g := GroupAll(Towards(flows, dir), dir, namespace, l7Enabled); var t := Target(f, dir, namespace).value;
            t.0 in g.accs && t.0 in g.index.peers && g.index.peers[t.0] == t.1
  {
    var part, k := Towards(flows, dir), Target(f, dir, namespace).value.0;
    var g := GroupAll(part, dir, namespace, l7Enabled);
    TowardsMembers(flows, dir);
    assert FiledUnder(f, dir, namespace, k);
    assert SomeFiled(part, dir, namespace, k);
    BucketPeer(part, dir, namespace, l7Enabled, k);
    assert PeerNamed(part, dir, namespace, k, g.index.peers[k]);
    var q :| q in part && Target(q, dir, namespace) == Some((k, g.index.peers[k]));
    assert !Clash(f, q, dir, namespace);
  }

  /** A built policy says exactly what its flows say one by one. */
  lemma BuildExact(namespace: string, workload: string, flows: seq<Flow>, l7Enabled: bool, dnsSelector: map<string, string>, e: Entry)
    requires SameScope(flows, namespace) && NoDNS(flows, l7Enabled)
    ensures Says(Build(namespace, workload, flows, l7Enabled, dnsSelector), e) <==> SomeFlowSays(flows, namespace, l7Enabled, e)
  {
    BuildPlain(namespace, workload, flows, l7Enabled, dnsSelector);
    DirectionSays(GroupingOf(flows, e.dir, namespace, l7Enabled), e.peer, e.fact);
    GroupingExact(flows, namespace, l7Enabled, e);
  }
}
