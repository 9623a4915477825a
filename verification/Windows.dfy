/**
 Consequences for whole runs without collapse: when a built policy is exact, how it splits into
 flush windows, and that it is in the regular form replace-mode merging relies on.
 */
module Windows {
  import opened PolicyTypes
  import opened Merge
  import opened MergeMeaning
  import opened CompanionDNS
  import opened Builder
  import opened BuilderMeaning
  import Sorting
  import Text

  // ---- When a built policy is exact ----------------------------------------------------------

  /** Selected labels never hold the pod namespace key: it is on the label deny list. */
  ghost predicate CleanLabels(flows: seq<Flow>)
  {
    forall f, dir :: f in flows && PeerEnd(f, dir).Some? ==> NS_KEY !in PeerEnd(f, dir).value.selected
  }

  /** With clean labels a peer determines its bucket. */
  lemma PeerDeterminesKey(f: Flow, g: Flow, dir: Dir, namespace: string)
    requires CleanLabels([f, g])
    requires Target(f, dir, namespace).Some? && Target(g, dir, namespace).Some?
    requires Target(f, dir, namespace).value.1 == Target(g, dir, namespace).value.1
    ensures Target(f, dir, namespace).value.0 == Target(g, dir, namespace).value.0
  {
    assert f in [f, g] && g in [f, g];
    var k, m := Target(f, dir, namespace).value.0, Target(g, dir, namespace).value.0;
    var p := Target(f, dir, namespace).value.1;
    if k.PeerKey? && m.PeerKey? {
      var a, b := PeerEnd(f, dir).value, PeerEnd(g, dir).value;
      ScopedSelector(a, namespace);
      ScopedSelector(b, namespace);
      assert p.endpoints[0] == PeerSelector(a, namespace);
      assert p.endpoints[0] == PeerSelector(b, namespace);
    } else if k.EntityKey? && m.EntityKey? {
      assert p.entities[0] == k.entity;
    } else if k.CIDRKey? && m.CIDRKey? {
      assert p.cidrs[0] == k.cidr;
    }
  }

  ghost predicate Exact(namespace: string, workload: string, flows: seq<Flow>, l7Enabled: bool, dnsSelector: map<string, string>)
  {
    forall e :: Says(Build(namespace, workload, flows, l7Enabled, dnsSelector), e) <==> SomeFlowSays(flows, namespace, l7Enabled, e)
  }

  /** A built policy is exact exactly when equal labels come with one namespace scope. */
  lemma ExactIffSameScope(namespace: string, workload: string, flows: seq<Flow>, l7Enabled: bool, dnsSelector: map<string, string>)
    requires NoDNS(flows, l7Enabled) && CleanLabels(flows)
    ensures Exact(namespace, workload, flows, l7Enabled, dnsSelector) <==> SameScope(flows, namespace)
  {
    if SameScope(flows, namespace) {
      forall e ensures Says(Build(namespace, workload, flows, l7Enabled, dnsSelector), e) <==> SomeFlowSays(flows, namespace, l7Enabled, e) {
        BuildExact(namespace, workload, flows, l7Enabled, dnsSelector, e);
      }
    } else {
      var f, g, dir :| f in flows && g in flows && Clash(f, g, dir, namespace);
      ClashLosesEntry(namespace, workload, flows, l7Enabled, dnsSelector, f, g, dir);
    }
  }

  /** An L4 fact every flow with a known protocol states. */
  function BaseFact(f: Flow): Fact
    requires ExtractProto(f.l4).Some?
  {
    var fp := ExtractProto(f.l4).value;
    if fp.icmp then OnICMP(FieldOf(fp)) else OnPort(KeyOf(fp))
  }

  /** A flow whose peer is not the one its bucket was opened with is not represented. */
  lemma OtherPeerUnsaid(part: seq<Flow>, namespace: string, dir: Dir, l7Enabled: bool, lost: Flow, fact: Fact)
    requires CleanLabels(part) && lost in part && Target(lost, dir, namespace).Some?
    requires var g := GroupAll(part, dir, namespace, l7Enabled); var t := Target(lost, dir, namespace).value;
             t.0 in g.index.peers && g.index.peers[t.0] != t.1
    ensures Listed(GroupAll(part, dir, namespace, l7Enabled))
    ensures !GroupingSays(GroupAll(part, dir, namespace, l7Enabled), Target(lost, dir, namespace).value.1, fact)
  {
    GroupAllListed(part, dir, namespace, l7Enabled);
    var g, peer := GroupAll(part, dir, namespace, l7Enabled), Target(lost, dir, namespace).value.1;
    forall m | m in g.accs ensures g.index.peers[m] != peer {
      BucketPeer(part, dir, namespace, l7Enabled, m);
      var q :| q in part && Target(q, dir, namespace) == Some((m, g.index.peers[m]));
      if g.index.peers[m] == peer {
        PeerDeterminesKey(lost, q, dir, namespace);
      }
    }
  }

  /** Of two clashing flows, one names a peer its bucket does not have. */
  lemma ClashLost(flows: seq<Flow>, namespace: string, l7Enabled: bool, f: Flow, g: Flow, dir: Dir) returns (lost: Flow)
    requires f in flows && g in flows && Clash(f, g, dir, namespace)
    ensures lost == f || lost == g
    ensures lost in Towards(flows, dir) && Counts(lost, dir) && Target(lost, dir, namespace).Some?
    ensures var t := Target(lost, dir, namespace).value; var r := GroupAll(Towards(flows, dir), dir, namespace, l7Enabled);
            t.0 in r.index.peers && r.index.peers[t.0] != t.1
  {
    var part, k := Towards(flows, dir), Target(f, dir, namespace).value.0;
    TowardsMembers(flows, dir);
    assert FiledUnder(f, dir, namespace, k);
    assert SomeFiled(part, dir, namespace, k);
    BucketPeer(part, dir, namespace, l7Enabled, k);
    lost := if Target(f, dir, namespace).value.1 == GroupAll(part, dir, namespace, l7Enabled).index.peers[k] then g else f;
  }

  /** The entry of a clashing flow that the built policy does not make. */
  lemma ClashLosesEntry(namespace: string, workload: string, flows: seq<Flow>, l7Enabled: bool, dnsSelector: map<string, string>,
                        f: Flow, g: Flow, dir: Dir)
    requires NoDNS(flows, l7Enabled) && CleanLabels(flows)
    requires f in flows && g in flows && Clash(f, g, dir, namespace)
    ensures !Exact(namespace, workload, flows, l7Enabled, dnsSelector)
  {
    var lost := ClashLost(flows, namespace, l7Enabled, f, g, dir);
    var e := Entry(dir, Target(lost, dir, namespace).value.1, BaseFact(lost));
    assert SomeFlowSays(flows, namespace, l7Enabled, e) by {
      assert KindOf(lost, Egress, l7Enabled) != L7DNS;
      assert FlowSays(lost, namespace, l7Enabled, e);
    }
    assert !Says(Build(namespace, workload, flows, l7Enabled, dnsSelector), e) by {
      TowardsMembers(flows, dir);
      OtherPeerUnsaid(Towards(flows, dir), namespace, dir, l7Enabled, lost, e.fact);
      BuildPlain(namespace, workload, flows, l7Enabled, dnsSelector);
      DirectionSays(GroupingOf(flows, dir, namespace, l7Enabled), e.peer, e.fact);
    }
  }

  // ---- Cutting a flow list into windows -------------------------------------------------------

  function Concat(windows: seq<seq<Flow>>): seq<Flow>
  {
    if windows == [] then [] else Concat(windows[..|windows| - 1]) + windows[|windows| - 1]
  }

  /** The file after flushing the windows in order, in union mode. */
  function FileAfter(namespace: string, workload: string, windows: seq<seq<Flow>>, l7Enabled: bool, dnsSelector: map<string, string>): Policy
    requires |windows| >= 1
  {
    var n := |windows|;
    var incoming := Build(namespace, workload, windows[n - 1], l7Enabled, dnsSelector);
    if n == 1 then incoming
    else Merged(FileAfter(namespace, workload, windows[..n - 1], l7Enabled, dnsSelector), incoming, false)
  }

  lemma {:induction false} FileSaysFlows(namespace: string, workload: string, windows: seq<seq<Flow>>, l7Enabled: bool,
                                         dnsSelector: map<string, string>, e: Entry)
    requires |windows| >= 1 && SameScope(Concat(windows), namespace) && NoDNS(Concat(windows), l7Enabled)
    ensures Says(FileAfter(namespace, workload, windows, l7Enabled, dnsSelector), e) <==>
            SomeFlowSays(Concat(windows), namespace, l7Enabled, e)
  {
    var front, last := windows[..|windows| - 1], windows[|windows| - 1];
    assert forall f :: f in Concat(windows) <==> f in Concat(front) || f in last;
    BuildExact(namespace, workload, last, l7Enabled, dnsSelector, e);
    if front == [] {
      assert Concat(front) == [];
    } else {
      FileSaysFlows(namespace, workload, front, l7Enabled, dnsSelector, e);
      BuildPlain(namespace, workload, last, l7Enabled, dnsSelector);
      MergeIsUnion(FileAfter(namespace, workload, front, l7Enabled, dnsSelector),
                   Build(namespace, workload, last, l7Enabled, dnsSelector), e);
    }
  }

  /** Window-split independence: however a flow list is cut, the file means what one big window builds. */
  lemma {:induction false} WindowSplitIndependence(namespace: string, workload: string, windows: seq<seq<Flow>>, l7Enabled: bool, dnsSelector: map<string, string>)
    requires |windows| >= 1 && SameScope(Concat(windows), namespace) && NoDNS(Concat(windows), l7Enabled)
    ensures SameMeaning(FileAfter(namespace, workload, windows, l7Enabled, dnsSelector),
                        Build(namespace, workload, Concat(windows), l7Enabled, dnsSelector))
  {
    forall e ensures Says(FileAfter(namespace, workload, windows, l7Enabled, dnsSelector), e)
                <==> Says(Build(namespace, workload, Concat(windows), l7Enabled, dnsSelector), e)
    {
      FileSaysFlows(namespace, workload, windows, l7Enabled, dnsSelector, e);
      BuildExact(namespace, workload, Concat(windows), l7Enabled, dnsSelector, e);
    }
  }

  // ---- Regular form ---------------------------------------------------------------------------

  predicate PortsOnce(a: Acc)
  {
    && (forall i :: 0 <= i < |a.ports| ==> a.ports[i] in a.seen)
    && (forall i, j :: 0 <= i < j < |a.ports| ==> a.ports[i] != a.ports[j])
  }

  lemma WithFlowPortsOnce(a: Acc, fp: FlowProto)
    requires PortsOnce(a)
    ensures PortsOnce(WithFlow(a, fp))
  {
  }

  lemma AddToPortsOnce(a: Acc, f: Flow, fp: FlowProto, dir: Dir, l7Enabled: bool)
    requires PortsOnce(a) && ExtractProto(f.l4).Some?
    ensures PortsOnce(AddTo(a, f, fp, dir, l7Enabled))
  {
    match KindOf(f, dir, l7Enabled)
    case L7None => WithFlowPortsOnce(a, fp);
    case L7HTTP => WithFlowPortsOnce(WithHTTP(a, KeyOf(fp), [HTTPRuleOf(f)]), fp);
    case L7DNS =>
  }

  lemma {:induction false} GroupPortsOnce(flows: seq<Flow>, dir: Dir, policyNS: string, l7Enabled: bool, k: BucketKey)
    ensures PortsOnce(AccOf(GroupAll(flows, dir, policyNS, l7Enabled), k))
  {
    if flows != [] {
      var front, f := flows[..|flows| - 1], flows[|flows| - 1];
      assert flows == front + [f];
      GroupPortsOnce(front, dir, policyNS, l7Enabled, k);
      OneMoreFlow(front, f, dir, policyNS, l7Enabled, k);
      if FiledUnder(f, dir, policyNS, k) {
        AddToPortsOnce(AccOf(GroupAll(front, dir, policyNS, l7Enabled), k), f, ExtractProto(f.l4).value, dir, l7Enabled);
      }
    }
  }

  lemma RulesFromRegular(peer: Peer, a: Acc)
    requires PortsOnce(a)
    ensures Regular(RulesFrom(peer, a))
  {
    var prs := PortRules(a.ports, a.http);
    assert HTTPOnce(prs);
  }

  lemma RegularAppend(a: seq<Rule>, b: seq<Rule>)
    requires Regular(a) && Regular(b)
    requires forall x, y :: x in a && y in b && RulesMatch(x, y) ==> NoHTTPRule(y)
    ensures Regular(a + b)
  {
    var c := a + b;
    forall i, j | 0 <= i < j < |c| && RulesMatch(c[i], c[j]) ensures NoHTTPRule(c[j]) {
      if i < |a| <= j { assert c[i] in a && c[j] in b; }
      else if j < |a| { assert a[i] == c[i] && a[j] == c[j]; }
      else { assert b[i - |a|] == c[i] && b[j - |a|] == c[j]; }
    }
  }

  ghost predicate PeersDistinct(g: Grouping)
  {
    && g.index.peers.Keys == g.accs.Keys
    && (forall k, m :: k in g.accs && m in g.accs && g.index.peers[k] == g.index.peers[m] ==> k == m)
    && (forall k :: k in g.accs ==> PortsOnce(g.accs[k]))
  }

  lemma {:induction false} EmitRegular(order: seq<BucketKey>, g: Grouping)
    requires PeersDistinct(g) && Distinct(order) && forall k :: k in order ==> k in g.accs
    ensures Regular(EmitBuckets(order, g))
    ensures forall r :: r in EmitBuckets(order, g) ==> exists k :: k in order && g.index.peers[k] == r.peer
  {
    if order != [] {
      var front, k := order[..|order| - 1], order[|order| - 1];
      assert order == front + [k];
      EmitRegular(front, g);
      RulesFromRegular(g.index.peers[k], g.accs[k]);
      forall x, y | x in EmitBuckets(front, g) && y in RulesFrom(g.index.peers[k], g.accs[k]) ensures !RulesMatch(x, y) {
        var m :| m in front && g.index.peers[m] == x.peer;
        assert m != k;
      }
      RegularAppend(EmitBuckets(front, g), RulesFrom(g.index.peers[k], g.accs[k]));
      assert k in order;
    }
  }

  lemma DirectionRegular(g: Grouping)
    requires PeersDistinct(g) && Listed(g)
    ensures Regular(DirectionRules(g))
  {
    var a, b, c := EmitBuckets(g.index.entities, g), EmitBuckets(g.index.cidrs, g), EmitBuckets(g.index.endpoints, g);
    EmitRegular(g.index.entities, g);
    EmitRegular(g.index.cidrs, g);
    EmitRegular(g.index.endpoints, g);
    RegularAppend(a, b);
    RegularAppend(a + b, c);
  }

  /** Rules without HTTP may follow any regular list. */
  lemma RegularTail(a: seq<Rule>, b: seq<Rule>)
    requires Regular(a) && forall r :: r in b ==> RegularRule(r) && NoHTTPRule(r)
    ensures Regular(a + b)
  {
    assert Regular(b);
    RegularAppend(a, b);
  }

  lemma DNS53Plain(names: seq<string>, r: Rule)
    requires r.toPorts == [DNS53(names)] && r.icmps == []
    ensures RegularRule(r) && NoHTTPRule(r)
  {
  }

  lemma {:induction false} FqdnRulesPlain(order: seq<BucketKey>, g: Grouping)
    requires forall k :: k in order ==> k in g.accs
    ensures forall r :: r in FqdnRules(order, g) ==> RegularRule(r) && NoHTTPRule(r)
  {
    if order != [] {
      FqdnRulesPlain(order[..|order| - 1], g);
      var a := g.accs[order[|order| - 1]];
      if a.dns != [] { DNS53Plain(Sorting.Sort(a.dns, Text.LexLe), FqdnRule(a.dns)); }
    }
  }

  lemma EgressRegular(g: Grouping, dnsSelector: map<string, string>)
    requires PeersDistinct(g) && Listed(g)
    ensures Regular(WithCompanion(EgressRules(g), dnsSelector))
  {
    DirectionRegular(g);
    FqdnRulesPlain(g.index.entities, g);
    FqdnRulesPlain(g.index.cidrs, g);
    FqdnRulesPlain(g.index.endpoints, g);
    RegularTail(DirectionRules(g), FqdnRules(g.index.entities, g) + FqdnRules(g.index.cidrs, g) + FqdnRules(g.index.endpoints, g));
    var names := CollectedNames(EgressRules(g));
    var c := Companion(names, dnsSelector);
    DNS53Plain(names, c);
    RegularTail(EgressRules(g), [c]);
  }

  lemma GroupPeersDistinct(flows: seq<Flow>, dir: Dir, policyNS: string, l7Enabled: bool)
    requires CleanLabels(flows)
    ensures PeersDistinct(GroupAll(flows, dir, policyNS, l7Enabled))
  {
    var g := GroupAll(flows, dir, policyNS, l7Enabled);
    BucketPeer(flows, dir, policyNS, l7Enabled, EntityKey(""));
    forall k, m | k in g.accs && m in g.accs && g.index.peers[k] == g.index.peers[m] ensures k == m {
      BucketPeer(flows, dir, policyNS, l7Enabled, k);
      BucketPeer(flows, dir, policyNS, l7Enabled, m);
      var f :| f in flows && Target(f, dir, policyNS) == Some((k, g.index.peers[k]));
      var q :| q in flows && Target(q, dir, policyNS) == Some((m, g.index.peers[m]));
      PeerDeterminesKey(f, q, dir, policyNS);
    }
    forall k | k in g.accs ensures PortsOnce(g.accs[k]) {
      GroupPortsOnce(flows, dir, policyNS, l7Enabled, k);
    }
  }

  /** Every built policy is regular, with or without DNS flows. */
  lemma BuildRegular(namespace: string, workload: string, flows: seq<Flow>, l7Enabled: bool, dnsSelector: map<string, string>)
    requires CleanLabels(flows)
    ensures RegularPolicy(Build(namespace, workload, flows, l7Enabled, dnsSelector))
  {
    TowardsMembers(flows, Ingress);
    TowardsMembers(flows, Egress);
    GroupPeersDistinct(Towards(flows, Ingress), Ingress, namespace, l7Enabled);
    GroupPeersDistinct(Towards(flows, Egress), Egress, namespace, l7Enabled);
    DirectionRegular(GroupingOf(flows, Ingress, namespace, l7Enabled));
    EgressRegular(GroupingOf(flows, Egress, namespace, l7Enabled), dnsSelector);
  }
}
