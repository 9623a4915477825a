/** Observed DNS names, their toFQDNs rules and the DNS companion, over whole builds (builder.go, companion_dns.go). */
module DNSClosure {
  import opened PolicyTypes
  import opened Merge
  import opened CompanionDNS
  import opened Builder
  import opened BuilderMeaning
  import opened Sorting
  import MergeMeaning
  import Text

  /** The flow's query is filed under bucket k. */
  predicate AsksFor(f: Flow, namespace: string, k: BucketKey, name: string)
  {
    FiledUnder(f, Egress, namespace, k) && KindOf(f, Egress, true) == L7DNS && f.l7.query == name
  }

  ghost predicate SomeAsksFor(flows: seq<Flow>, namespace: string, k: BucketKey, name: string)
  {
    exists f :: f in flows && AsksFor(f, namespace, k, name)
  }

  /** The flow's query reaches some bucket. */
  predicate Asks(f: Flow, namespace: string, name: string)
  {
    var t := Target(f, Egress, namespace);
    t.Some? && KindOf(f, Egress, true) == L7DNS && f.l7.query == name
  }

  ghost predicate SomeAsks(flows: seq<Flow>, namespace: string, name: string)
  {
    exists f :: f in flows && Asks(f, namespace, name)
  }

  lemma AddToNames(a: Acc, f: Flow, name: string)
    requires ExtractProto(f.l4).Some?
    ensures name in AddTo(a, f, ExtractProto(f.l4).value, Egress, true).dns <==>
            name in a.dns || (KindOf(f, Egress, true) == L7DNS && f.l7.query == name)
  {
  }

  lemma {:induction false} BucketNames(flows: seq<Flow>, namespace: string, k: BucketKey, name: string)
    ensures name in AccOf(GroupAll(flows, Egress, namespace, true), k).dns <==> SomeAsksFor(flows, namespace, k, name)
  {
    if flows != [] {
      var front, f := flows[..|flows| - 1], flows[|flows| - 1];
      assert flows == front + [f];
      BucketNames(front, namespace, k, name);
      OneMoreFlow(front, f, Egress, namespace, true, k);
      if FiledUnder(f, Egress, namespace, k) {
        AddToNames(AccOf(GroupAll(front, Egress, namespace, true), k), f, name);
      }
      AsksStep(front, f, namespace, k, name);
    }
  }

  lemma AsksStep(front: seq<Flow>, f: Flow, namespace: string, k: BucketKey, name: string)
    ensures SomeAsksFor(front + [f], namespace, k, name) <==> SomeAsksFor(front, namespace, k, name) || AsksFor(f, namespace, k, name)
  {
    assert forall x :: x in front + [f] <==> x in front || x == f;
  }

  ghost predicate NamedIn(order: seq<BucketKey>, g: Grouping, name: string)
    requires forall k :: k in order ==> k in g.accs
  {
    exists k :: k in order && name in g.accs[k].dns
  }

  lemma FqdnAppend(a: seq<Rule>, b: seq<Rule>, name: string)
    ensures FqdnIn(a + b, name) <==> FqdnIn(a, name) || FqdnIn(b, name)
  {
    assert forall r :: r in a + b <==> r in a || r in b;
  }

  lemma FqdnRuleNames(dns: seq<string>, name: string)
    ensures FqdnIn([FqdnRule(dns)], name) <==> name in dns
  {
    var r, names := FqdnRule(dns), Sort(dns, Text.LexLe);
    SortPermutes(dns, Text.LexLe);
    if name in dns {
      var i :| 0 <= i < |names| && names[i] == name;
      assert r in [r] && r.fqdns[i] == DNSRule(name, "") && r.fqdns[i] in r.fqdns;
    }
    if FqdnIn([r], name) {
      var d :| d in r.fqdns && d.matchName == name;
      var i :| 0 <= i < |r.fqdns| && r.fqdns[i] == d;
      assert names[i] == name;
    }
  }

  lemma {:induction false} FqdnRulesNames(order: seq<BucketKey>, g: Grouping, name: string)
    requires forall k :: k in order ==> k in g.accs
    ensures FqdnIn(FqdnRules(order, g), name) <==> NamedIn(order, g, name)
  {
    if order != [] {
      var front, k := order[..|order| - 1], order[|order| - 1];
      assert order == front + [k];
      FqdnRulesNames(front, g, name);
      var tail := if g.accs[k].dns == [] then [] else [FqdnRule(g.accs[k].dns)];
      FqdnAppend(FqdnRules(front, g), tail, name);
      FqdnRuleNames(g.accs[k].dns, name);
      assert forall x :: x in order <==> x in front || x == k;
    }
  }

  lemma EgressNames(g: Grouping, name: string)
    requires Listed(g)
    ensures FqdnIn(EgressRules(g), name) <==> exists k :: k in g.accs && name in g.accs[k].dns
  {
    DirectionPlain(g);
    FqdnRulesNames(g.index.entities, g, name);
    FqdnRulesNames(g.index.cidrs, g, name);
    FqdnRulesNames(g.index.endpoints, g, name);
    var a, b, c := FqdnRules(g.index.entities, g), FqdnRules(g.index.cidrs, g), FqdnRules(g.index.endpoints, g);
    FqdnAppend(a, b, name);
    FqdnAppend(a + b, c, name);
    FqdnAppend(DirectionRules(g), a + b + c, name);
    PlainHasNoNames(DirectionRules(g), name);
  }

  lemma PlainHasNoNames(rules: seq<Rule>, name: string)
    requires MergeMeaning.NoFqdns(rules)
    ensures !FqdnIn(rules, name)
  {
  }

  /** The names a build puts in toFQDNs are exactly the names its egress flows asked for. */
  lemma ObservedNamesExact(flows: seq<Flow>, namespace: string, name: string)
    ensures FqdnIn(EgressRules(GroupingOf(flows, Egress, namespace, true)), name) <==>
            SomeAsks(Towards(flows, Egress), namespace, name)
  {
    var part, g := Towards(flows, Egress), GroupingOf(flows, Egress, namespace, true);
    EgressNames(g, name);
    if SomeAsks(part, namespace, name) {
      var f :| f in part && Asks(f, namespace, name);
      var k := Target(f, Egress, namespace).value.0;
      assert AsksFor(f, namespace, k, name) && FiledUnder(f, Egress, namespace, k);
      assert SomeFiled(part, Egress, namespace, k);
      BucketPeer(part, Egress, namespace, true, k);
      BucketNames(part, namespace, k, name);
    }
    if k :| k in g.accs && name in g.accs[k].dns {
      BucketNames(part, namespace, k, name);
      var f :| f in part && AsksFor(f, namespace, k, name);
      assert Asks(f, namespace, name);
    }
  }

  /**
   DNS closure of a build: its toFQDNs names are exactly the observed names; as soon as there is one, the
   policy has a companion, detected or fallback; the other egress rules are an unchanged prefix; and the
   injector applied again changes nothing.
   */
  lemma BuildHasCompanion(namespace: string, workload: string, flows: seq<Flow>, dnsSelector: map<string, string>)
    requires Recognised(dnsSelector)
    ensures var p := Build(namespace, workload, flows, true, dnsSelector);
            && p.spec.Some?
            && (forall n :: FqdnIn(p.spec.value.egress, n) <==> SomeAsks(Towards(flows, Egress), namespace, n))
            && ((exists n :: n != "" && SomeAsks(Towards(flows, Egress), namespace, n)) ==> HasCompanion(p.spec.value.egress, dnsSelector))
            && EgressRules(GroupingOf(flows, Egress, namespace, true)) <= p.spec.value.egress
            && WithCompanion(p.spec.value.egress, dnsSelector) == p.spec.value.egress
  {
    var egress := EgressRules(GroupingOf(flows, Egress, namespace, true));
    CompanionClosure(egress, dnsSelector);
    forall n ensures FqdnIn(WithCompanion(egress, dnsSelector), n) <==> SomeAsks(Towards(flows, Egress), namespace, n) {
      ObservedNamesExact(flows, namespace, n);
    }
    if n :| n != "" && SomeAsks(Towards(flows, Egress), namespace, n) {
      assert FqdnIn(WithCompanion(egress, dnsSelector), n);
    }
  }
}
