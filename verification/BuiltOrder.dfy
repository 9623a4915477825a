/** A build without L7 records, in any other order of its rules and ports, is found equivalent (dedup.go, builder.go). */
module BuiltOrder {
  import opened PolicyTypes
  import opened Merge
  import opened MergeMeaning
  import opened CompanionDNS
  import opened Builder
  import opened BuilderMeaning
  import opened FlowFields
  import opened Dedup
  import opened DedupOrder
  import opened DedupKeys
  import opened Windows

  /** No flow leaves an HTTP rule or a DNS name. */
  ghost predicate NoRecords(flows: seq<Flow>, l7Enabled: bool)
  {
    forall f :: f in flows ==> !RecordsHTTP(f, l7Enabled) && !RecordsName(f, Egress, l7Enabled)
  }

  /** A bucket as the flows left it: simple peer, ports and types written by a build, no HTTP. */
  ghost predicate PlainBucket(peer: Peer, a: Acc)
  {
    && SimplePeer(peer)
    && (forall pp :: HTTPAt(a.http, pp) == [])
    && (forall p :: p in a.ports ==> p.proto in {"TCP", "UDP"} && exists n: nat :: p.port == Decimal(n))
    && (forall f :: f in a.icmps ==> f.family in {"IPv4", "IPv6"} && f.typ.Some?)
  }

  lemma FlowPort(f: Flow, pp: PortProto)
    requires NamesPort(f.l4, pp)
    ensures pp.proto in {"TCP", "UDP"} && exists n: nat :: pp.port == Decimal(n)
  {
    match f.l4
    case Some(TCP(port)) => NumeralIsDecimal(pp.port, port);
    case Some(UDP(port)) => NumeralIsDecimal(pp.port, port);
  }

  lemma BucketPlain(flows: seq<Flow>, dir: Dir, policyNS: string, l7Enabled: bool, k: BucketKey)
    requires NoRecords(flows, l7Enabled)
    ensures var g := GroupAll(flows, dir, policyNS, l7Enabled);
            k in g.accs ==> k in g.index.peers && PlainBucket(g.index.peers[k], g.accs[k])
  {
    var g := GroupAll(flows, dir, policyNS, l7Enabled);
    BucketPeer(flows, dir, policyNS, l7Enabled, k);
    if k in g.accs {
      var a := g.accs[k];
      forall pp ensures HTTPAt(a.http, pp) == [] {
        if HTTPAt(a.http, pp) != [] {
          var h := HTTPAt(a.http, pp)[0];
          BucketHTTPFacts(flows, dir, policyNS, l7Enabled, k, pp, h);
          var f :| f in flows && FiledUnder(f, dir, policyNS, k) && HTTPFact(f, dir, l7Enabled, pp, h);
          KindExactly(f, dir, l7Enabled);
        }
      }
      forall p | p in a.ports ensures p.proto in {"TCP", "UDP"} && exists n: nat :: p.port == Decimal(n) {
        BucketExact(flows, dir, policyNS, l7Enabled, k, OnPort(p));
        var f :| f in flows && FiledUnder(f, dir, policyNS, k) && FlowFact(f, dir, l7Enabled, OnPort(p));
        PortNamed(f.l4, p);
        FlowPort(f, p);
      }
      forall t | t in a.icmps ensures t.family in {"IPv4", "IPv6"} && t.typ.Some? {
        BucketExact(flows, dir, policyNS, l7Enabled, k, OnICMP(t));
        var f :| f in flows && FiledUnder(f, dir, policyNS, k) && FlowFact(f, dir, l7Enabled, OnICMP(t));
        TypeNamed(f.l4, t);
      }
      var f :| f in flows && Target(f, dir, policyNS) == Option.Some((k, g.index.peers[k]));
    }
  }

  ghost predicate PlainBuckets(g: Grouping)
  {
    && PeersDistinct(g)
    && forall k :: k in g.accs ==> PlainBucket(g.index.peers[k], g.accs[k])
  }

  ghost predicate WrittenList(rules: seq<Rule>)
  {
    PlainList(rules) && forall r :: r in rules ==> WrittenTraffic(r)
  }

  lemma BucketRulesWritten(peer: Peer, a: Acc)
    requires PlainBucket(peer, a)
    ensures WrittenList(RulesFrom(peer, a)) && forall r :: r in RulesFrom(peer, a) ==> r.peer == peer
  {
    var rules := RulesFrom(peer, a);
    if a.ports != [] { PlainPorts(Rule(peer, [], PortRules(a.ports, a.http), [])); }
    if a.icmps != [] { PlainPorts(Rule(peer, [], [], [a.icmps])); }
  }

  lemma WrittenAppend(a: seq<Rule>, b: seq<Rule>)
    requires WrittenList(a) && WrittenList(b) && forall x, y :: x in a && y in b ==> x.peer != y.peer
    ensures WrittenList(a + b)
  {
    var c := a + b;
    forall i, j | 0 <= i < j < |c| && c[i].peer == c[j].peer ensures (c[i].icmps == []) != (c[j].icmps == []) {
      if i < |a| <= j { assert c[i] in a && c[j] in b; }
      else if j < |a| { assert a[i] == c[i] && a[j] == c[j]; }
      else { assert b[i - |a|] == c[i] && b[j - |a|] == c[j]; }
    }
  }

  lemma {:induction false} EmitWritten(order: seq<BucketKey>, g: Grouping)
    requires PlainBuckets(g) && Distinct(order) && forall k :: k in order ==> k in g.accs
    ensures WrittenList(EmitBuckets(order, g))
    ensures forall r :: r in EmitBuckets(order, g) ==> exists k :: k in order && g.index.peers[k] == r.peer
  {
    if order != [] {
      var front, k := order[..|order| - 1], order[|order| - 1];
      assert order == front + [k];
      EmitWritten(front, g);
      BucketRulesWritten(g.index.peers[k], g.accs[k]);
      forall x, y | x in EmitBuckets(front, g) && y in RulesFrom(g.index.peers[k], g.accs[k]) ensures x.peer != y.peer {
        var m :| m in front && g.index.peers[m] == x.peer;
        assert m != k;
      }
      WrittenAppend(EmitBuckets(front, g), RulesFrom(g.index.peers[k], g.accs[k]));
      assert k in order;
    }
  }

  lemma DirectionWritten(g: Grouping)
    requires PlainBuckets(g) && Listed(g)
    ensures WrittenList(DirectionRules(g))
  {
    var a, b, c := EmitBuckets(g.index.entities, g), EmitBuckets(g.index.cidrs, g), EmitBuckets(g.index.endpoints, g);
    EmitWritten(g.index.entities, g);
    EmitWritten(g.index.cidrs, g);
    EmitWritten(g.index.endpoints, g);
    WrittenAppend(a, b);
    WrittenAppend(a + b, c);
  }

  lemma BuiltDirection(namespace: string, flows: seq<Flow>, l7Enabled: bool, dir: Dir)
    requires CleanLabels(flows) && NoRecords(flows, l7Enabled)
    ensures WrittenList(DirectionRules(GroupingOf(flows, dir, namespace, l7Enabled)))
  {
    var part, g := Towards(flows, dir), GroupingOf(flows, dir, namespace, l7Enabled);
    TowardsMembers(flows, dir);
    GroupPeersDistinct(part, dir, namespace, l7Enabled);
    forall k | k in g.accs ensures PlainBucket(g.index.peers[k], g.accs[k]) { BucketPlain(part, dir, namespace, l7Enabled, k); }
    DirectionWritten(g);
  }

  lemma BuiltWritten(namespace: string, workload: string, flows: seq<Flow>, l7Enabled: bool, dnsSelector: map<string, string>)
    requires CleanLabels(flows) && NoRecords(flows, l7Enabled)
    ensures var p := Build(namespace, workload, flows, l7Enabled, dnsSelector);
            p.spec.Some? && WrittenList(p.spec.value.ingress) && WrittenList(p.spec.value.egress)
  {
    forall f | f in flows ensures KindOf(f, Egress, l7Enabled) != L7DNS { KindExactly(f, Egress, l7Enabled); }
    BuildPlain(namespace, workload, flows, l7Enabled, dnsSelector);
    BuiltDirection(namespace, flows, l7Enabled, Ingress);
    BuiltDirection(namespace, flows, l7Enabled, Egress);
  }

  /**
   A policy built from flows without L7 records is found equivalent to itself in any other order of its
   rules, port rules and ports.
   */
  lemma BuiltOrderForgotten(namespace: string, workload: string, flows: seq<Flow>, l7Enabled: bool, dnsSelector: map<string, string>,
                            b: Policy, text: LabelText)
    requires CleanLabels(flows) && NoRecords(flows, l7Enabled)
    requires var p := Build(namespace, workload, flows, l7Enabled, dnsSelector);
             p.spec.Some? && PeersReadable(p.spec.value.ingress, text) && PeersReadable(p.spec.value.egress, text) && Rearranged(p, b)
    ensures Equivalent(Build(namespace, workload, flows, l7Enabled, dnsSelector), b, text)
  {
    var p := Build(namespace, workload, flows, l7Enabled, dnsSelector);
    BuiltWritten(namespace, workload, flows, l7Enabled, dnsSelector);
    PlainOrderForgotten(p, b, text);
  }
}
