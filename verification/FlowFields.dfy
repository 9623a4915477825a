/**
 What a built policy says (pkg/policy/builder.go), told by the raw fields of its flows: which endpoint
 becomes the peer, and how ports, ICMP types, HTTP requests and DNS queries are written.
 */
module FlowFields {
  import opened PolicyTypes
  import opened Merge
  import opened MergeMeaning
  import opened CompanionDNS
  import opened Builder
  import opened BuilderMeaning
  import opened Sorting
  import DNSClosure
  import Regex
  import Text

  // ---- Numbers ----------------------------------------------------------------------------------

  /** The decimal text of n: digits only, no leading zero, and worth n. */
  ghost predicate IsNumeral(s: string, n: nat)
  {
    && s != "" && (forall c :: c in s ==> c in "0123456789")
    && (|s| > 1 ==> s[0] != '0')
    && Numeral(s) == n
  }

  lemma DigitWorth(c: char)
    requires c in "0123456789"
    ensures 0 <= c as int - '0' as int < 10
  {
  }

  lemma {:induction false} NumeralPositive(s: string)
    requires s != "" && (forall c :: c in s ==> c in "0123456789")
    ensures Numeral(s) >= 0 && (s[0] != '0' ==> Numeral(s) >= 1)
  {
    assert s[|s| - 1] in s;
    DigitWorth(s[|s| - 1]);
    if |s| > 1 {
      var front := s[..|s| - 1];
      assert forall c :: c in front ==> c in s;
      NumeralPositive(front);
    } else {
      assert s[..0] == "";
    }
  }

  /** A number has one decimal text. */
  lemma {:induction false} NumeralUnique(s: string, t: string, n: nat)
    requires IsNumeral(s, n) && IsNumeral(t, n)
    ensures s == t
    decreases |s| + |t|
  {
    var a, b := s[..|s| - 1], t[..|t| - 1];
    assert s[|s| - 1] in s && t[|t| - 1] in t;
    DigitWorth(s[|s| - 1]);
    DigitWorth(t[|t| - 1]);
    assert (forall c :: c in a ==> c in s) && (forall c :: c in b ==> c in t);
    if |s| > 1 { NumeralPositive(a); }
    if |t| > 1 { NumeralPositive(b); }
    assert Numeral("") == 0;
    assert Numeral(a) == Numeral(b);
    if |s| > 1 && |t| > 1 { NumeralUnique(a, b, Numeral(a)); }
    assert s == a + [s[|s| - 1]] && t == b + [t[|t| - 1]];
  }

  lemma OneDigitWorth(s: string)
    requires |s| == 1
    ensures Numeral(s) == s[0] as int - '0' as int
  {
    assert s[..|s| - 1] == "";
    assert Numeral("") == 0;
  }

  lemma {:induction false} DecimalIsNumeral(n: nat)
    ensures IsNumeral(Decimal(n), n)
  {
    DecimalReadsBack(n);
    if n >= 10 {
      DecimalIsNumeral(n / 10);
      var front := Decimal(n / 10);
      if |front| == 1 { OneDigitWorth(front); }
      assert Decimal(n)[0] == front[0];
    }
  }

  lemma NumeralIsDecimal(s: string, n: nat)
    ensures IsNumeral(s, n) <==> s == Decimal(n)
  {
    DecimalIsNumeral(n);
    if IsNumeral(s, n) { NumeralUnique(s, Decimal(n), n); }
  }

  // ---- The raw fields of a flow -----------------------------------------------------------------

  /** The port the flow's L4 layer names. */
  ghost predicate NamesPort(l4: Option<L4>, pp: PortProto)
  {
    match l4
    case Some(TCP(port)) => pp.proto == "TCP" && IsNumeral(pp.port, port)
    case Some(UDP(port)) => pp.proto == "UDP" && IsNumeral(pp.port, port)
    case _ => false
  }

  /** n as a signed 32-bit number. */
  predicate Signed32(v: int, n: int)
  {
    -0x8000_0000 <= v < 0x8000_0000 && (v == n || v == n - 0x1_0000_0000)
  }

  ghost predicate NamesType(l4: Option<L4>, field: ICMPField)
  {
    match l4
    case Some(ICMPv4(typ)) => field.family == "IPv4" && field.typ.Some? && Signed32(field.typ.value, typ)
    case Some(ICMPv6(typ)) => field.family == "IPv6" && field.typ.Some? && Signed32(field.typ.value, typ)
    case _ => false
  }

  predicate HasProto(l4: Option<L4>)
  {
    match l4
    case Some(OtherL4) => false
    case Some(_) => true
    case None => false
  }

  /** The selected labels, and the namespace when it is not the policy's own. */
  ghost predicate Selects(s: Selector, ep: Endpoint, namespace: string)
  {
    var scope := if ep.namespace != namespace then {"io.kubernetes.pod.namespace"} else {};
    && s.exprs == [] && s.labels.Keys == ep.selected.Keys + scope
    && forall k :: k in s.labels ==> s.labels[k] == if k in scope then ep.namespace else ep.selected[k]
  }

  /** A reserved entity goes by its name, the world by its address, any other endpoint by its labels. */
  ghost predicate IsPeer(ep: Endpoint, ip: string, namespace: string, peer: Peer)
  {
    if ep.entity != "" then peer == Peer([], [ep.entity], [])
    else if ep.world then ip != "" && peer == Peer([], [], [ip + "/32"])
    else |peer.endpoints| == 1 && peer.entities == [] && peer.cidrs == [] && Selects(peer.endpoints[0], ep, namespace)
  }

  /** The other end of the flow: its source for ingress, its destination for egress. */
  ghost predicate OtherEnd(f: Flow, dir: Dir, namespace: string, peer: Peer)
  {
    match dir
    case Ingress => f.dir == In && f.source.Some? && IsPeer(f.source.value, f.sourceIP, namespace, peer)
    case Egress => f.dir == Out && f.destination.Some? && IsPeer(f.destination.value, f.destinationIP, namespace, peer)
  }

  predicate RecordsHTTP(f: Flow, l7Enabled: bool) { l7Enabled && f.l7.HTTPRecord? && f.l7.verb != "" }

  predicate RecordsName(f: Flow, dir: Dir, l7Enabled: bool) { l7Enabled && dir == Egress && f.l7.DNSRecord? && f.l7.query != "" }

  /** The entry one flow stands for, unless it is a DNS query. */
  ghost predicate RawSays(f: Flow, namespace: string, l7Enabled: bool, e: Entry)
  {
    && OtherEnd(f, e.dir, namespace, e.peer) && !RecordsName(f, e.dir, l7Enabled)
    && match e.fact
       case OnPort(pp) => NamesPort(f.l4, pp)
       case OnHTTP(pp, h) => NamesPort(f.l4, pp) && RecordsHTTP(f, l7Enabled) && h.verb == f.l7.verb
                             && h.path == if f.l7.path == "" then "^/$" else "^" + Regex.QuoteMeta(f.l7.path) + "$"
       case OnICMP(field) => NamesType(f.l4, field)
       case _ => false
  }

  // ---- They are what the build goes by ----------------------------------------------------------

  lemma PortNamed(l4: Option<L4>, pp: PortProto)
    ensures NamesPort(l4, pp) <==> ExtractProto(l4).Some? && !ExtractProto(l4).value.icmp && pp == KeyOf(ExtractProto(l4).value)
  {
    match l4
    case Some(TCP(port)) => NumeralIsDecimal(pp.port, port);
    case Some(UDP(port)) => NumeralIsDecimal(pp.port, port);
    case _ =>
  }

  lemma TypeNamed(l4: Option<L4>, field: ICMPField)
    ensures NamesType(l4, field) <==> ExtractProto(l4).Some? && ExtractProto(l4).value.icmp && field == FieldOf(ExtractProto(l4).value)
  {
    assert ICMP_PROTO != ICMP6_PROTO by { assert |ICMP_PROTO| != |ICMP6_PROTO|; }
  }

  lemma SelectsExactly(s: Selector, ep: Endpoint, namespace: string)
    ensures Selects(s, ep, namespace) <==> s == PeerSelector(ep, namespace)
  {
    var own := PeerSelector(ep, namespace).labels;
    if Selects(s, ep, namespace) { assert s.labels == own; }
  }

  lemma PeerExactly(ep: Endpoint, ip: string, namespace: string, peer: Peer)
    ensures IsPeer(ep, ip, namespace, peer) <==>
            if ep.entity != "" then peer == Peer([], [ep.entity], [])
            else if ep.world then ip != "" && peer == Peer([], [], [ip + "/32"])
            else peer == Peer([PeerSelector(ep, namespace)], [], [])
  {
    if |peer.endpoints| == 1 { SelectsExactly(peer.endpoints[0], ep, namespace); }
  }

  lemma TargetExactly(f: Flow, dir: Dir, namespace: string, peer: Peer)
    ensures OtherEnd(f, dir, namespace, peer) && HasProto(f.l4) <==>
            && Counts(f, dir) && Target(f, dir, namespace).Some? && Target(f, dir, namespace).value.1 == peer
  {
    match dir
    case Ingress => if f.source.Some? { PeerExactly(f.source.value, f.sourceIP, namespace, peer); }
    case Egress => if f.destination.Some? { PeerExactly(f.destination.value, f.destinationIP, namespace, peer); }
  }

  lemma KindExactly(f: Flow, dir: Dir, l7Enabled: bool)
    ensures KindOf(f, dir, l7Enabled) == L7HTTP <==> RecordsHTTP(f, l7Enabled)
    ensures KindOf(f, dir, l7Enabled) == L7DNS <==> RecordsName(f, dir, l7Enabled)
  {
  }

  lemma RawExactly(f: Flow, namespace: string, l7Enabled: bool, e: Entry)
    ensures RawSays(f, namespace, l7Enabled, e) <==> FlowSays(f, namespace, l7Enabled, e)
  {
    TargetExactly(f, e.dir, namespace, e.peer);
    KindExactly(f, e.dir, l7Enabled);
    match e.fact
    case OnPort(pp) => PortNamed(f.l4, pp);
    case OnHTTP(pp, h) => PortNamed(f.l4, pp);
    case OnICMP(field) => TypeNamed(f.l4, field);
    case _ =>
  }

  ghost predicate SomeRawSays(flows: seq<Flow>, namespace: string, l7Enabled: bool, e: Entry)
  {
    exists f :: f in flows && RawSays(f, namespace, l7Enabled, e)
  }

  lemma SomeRawExactly(flows: seq<Flow>, namespace: string, l7Enabled: bool, e: Entry)
    ensures SomeRawSays(flows, namespace, l7Enabled, e) <==> SomeFlowSays(flows, namespace, l7Enabled, e)
  {
    forall f | f in flows ensures RawSays(f, namespace, l7Enabled, e) <==> FlowSays(f, namespace, l7Enabled, e) {
      RawExactly(f, namespace, l7Enabled, e);
    }
  }

  // ---- One scope per label set ------------------------------------------------------------------

  /** The endpoint a direction's peers are taken from, when it goes by its labels. */
  predicate PlainEnd(f: Flow, dir: Dir, ep: Endpoint)
  {
    && HasProto(f.l4) && ep.entity == "" && !ep.world
    && match dir
       case Ingress => f.dir == In && f.source == Option.Some(ep)
       case Egress => f.dir == Out && f.destination == Option.Some(ep)
  }

  /** Two flows of one direction with the same selected labels, whose peers differ. */
  ghost predicate ScopesDiffer(f: Flow, g: Flow, dir: Dir, namespace: string)
  {
    exists a, b, p, q :: PlainEnd(f, dir, a) && PlainEnd(g, dir, b) && a.selected == b.selected
                         && OtherEnd(f, dir, namespace, p) && OtherEnd(g, dir, namespace, q) && p != q
  }

  ghost predicate OneScope(flows: seq<Flow>, namespace: string)
  {
    forall f, g, dir :: f in flows && g in flows ==> !ScopesDiffer(f, g, dir, namespace)
  }

  lemma ClashExactly(f: Flow, g: Flow, dir: Dir, namespace: string)
    ensures Clash(f, g, dir, namespace) <==> ScopesDiffer(f, g, dir, namespace)
  {
    var s, t := Target(f, dir, namespace), Target(g, dir, namespace);
    forall p ensures OtherEnd(f, dir, namespace, p) && HasProto(f.l4) <==> Counts(f, dir) && s.Some? && s.value.1 == p {
      TargetExactly(f, dir, namespace, p);
    }
    forall p ensures OtherEnd(g, dir, namespace, p) && HasProto(g.l4) <==> Counts(g, dir) && t.Some? && t.value.1 == p {
      TargetExactly(g, dir, namespace, p);
    }
    if Clash(f, g, dir, namespace) {
      assert s.value.0.PeerKey?;
      var a, b := PeerEnd(f, dir).value, PeerEnd(g, dir).value;
      assert PlainEnd(f, dir, a) && PlainEnd(g, dir, b);
      assert OtherEnd(f, dir, namespace, s.value.1) && OtherEnd(g, dir, namespace, t.value.1);
    }
  }

  lemma ScopeExactly(flows: seq<Flow>, namespace: string)
    ensures OneScope(flows, namespace) <==> SameScope(flows, namespace)
  {
    forall f, g, dir ensures Clash(f, g, dir, namespace) <==> ScopesDiffer(f, g, dir, namespace) {
      ClashExactly(f, g, dir, namespace);
    }
  }

  // ---- Whole builds, DNS queries included -------------------------------------------------------

  /** Some egress flow to a known peer asked for the name. */
  ghost predicate Asked(flows: seq<Flow>, namespace: string, l7Enabled: bool, name: string)
  {
    exists f, peer :: f in flows && OtherEnd(f, Egress, namespace, peer) && HasProto(f.l4)
                      && RecordsName(f, Egress, l7Enabled) && f.l7.query == name
  }

  /** DNS queries for the names, over UDP and TCP port 53, and nothing else. */
  ghost predicate QueriesSay(flows: seq<Flow>, namespace: string, l7Enabled: bool, fact: Fact)
  {
    match fact
    case OnPort(pp) => pp.port == "53" && pp.proto in {"UDP", "TCP"} && exists n :: Asked(flows, namespace, l7Enabled, n)
    case OnDNS(pp, d) => pp.port == "53" && pp.proto in {"UDP", "TCP"} && d.matchPattern == ""
                         && Asked(flows, namespace, l7Enabled, d.matchName)
    case _ => false
  }

  /** The toFQDNs rules name every name asked for, and let it be asked. */
  ghost predicate NamesSay(flows: seq<Flow>, namespace: string, l7Enabled: bool, e: Entry)
  {
    && e.dir == Egress && e.peer == Peer([], [], [])
    && match e.fact
       case OnFQDN(d) => d.matchPattern == "" && Asked(flows, namespace, l7Enabled, d.matchName)
       case _ => QueriesSay(flows, namespace, l7Enabled, e.fact)
  }

  /** The pods that serve DNS: those detected, within kube-system, or else the well-known ones. */
  ghost predicate DNSPods(peer: Peer, dnsSelector: map<string, string>)
  {
    peer == Peer([if dnsSelector != map[] then Selector(dnsSelector["io.kubernetes.pod.namespace" := "kube-system"], [])
                  else Selector(map["io.kubernetes.pod.namespace" := "kube-system"],
                                [Requirement("k8s-app", "In", ["kube-dns", "coredns"])])], [], [])
  }

  lemma AskedExactly(flows: seq<Flow>, namespace: string, name: string)
    ensures Asked(flows, namespace, true, name) <==> DNSClosure.SomeAsks(Towards(flows, Egress), namespace, name)
  {
    var part := Towards(flows, Egress);
    TowardsMembers(flows, Egress);
    if f, peer :| f in flows && OtherEnd(f, Egress, namespace, peer) && HasProto(f.l4) && RecordsName(f, Egress, true) && f.l7.query == name {
      TargetExactly(f, Egress, namespace, peer);
      assert f in part && DNSClosure.Asks(f, namespace, name);
    }
    if f :| f in part && DNSClosure.Asks(f, namespace, name) {
      TargetExactly(f, Egress, namespace, Target(f, Egress, namespace).value.1);
    }
  }

  /** What one list of names says, under any peer. */
  lemma DNS53Says(names: seq<string>, fact: Fact)
    ensures PortRulesSay([DNS53(names)], fact) <==>
            match fact
            case OnPort(pp) => pp.port == "53" && pp.proto in {"UDP", "TCP"}
            case OnDNS(pp, d) => pp.port == "53" && pp.proto in {"UDP", "TCP"} && d.matchPattern == "" && d.matchName in names
            case _ => false
  {
    var r := DNS53(names);
    assert r in [r];
    forall pp: PortProto ensures pp in r.ports <==> pp.port == "53" && pp.proto in {"UDP", "TCP"} {
      assert r.ports == [PortProto("53", "UDP"), PortProto("53", "TCP")];
      assert pp.port == "53" && pp.proto == "UDP" ==> pp == r.ports[0];
      assert pp.port == "53" && pp.proto == "TCP" ==> pp == r.ports[1];
    }
    forall d: DNSRule ensures d in r.rules.value.dns <==> d.matchPattern == "" && d.matchName in names {
      if d.matchPattern == "" && d.matchName in names {
        var i :| 0 <= i < |names| && names[i] == d.matchName;
        assert r.rules.value.dns[i] == d;
      }
    }
  }

  /** What a list of names adds to a policy. */
  predicate ListSays(names: seq<string>, fact: Fact)
  {
    match fact
    case OnFQDN(d) => d.matchPattern == "" && d.matchName in names
    case OnPort(pp) => names != [] && pp.port == "53" && pp.proto in {"UDP", "TCP"}
    case OnDNS(pp, d) => pp.port == "53" && pp.proto in {"UDP", "TCP"} && d.matchPattern == "" && d.matchName in names
    case _ => false
  }

  lemma FqdnRuleSays(dns: seq<string>, q: Peer, fact: Fact)
    requires dns != []
    ensures RulesSay([FqdnRule(dns)], q, fact) <==> q == Peer([], [], []) && ListSays(dns, fact)
  {
    var r, names := FqdnRule(dns), Sort(dns, Text.LexLe);
    SortPermutes(dns, Text.LexLe);
    OneRuleSays(r, q, fact);
    DNS53Says(names, fact);
    forall d: DNSRule ensures d in r.fqdns <==> d.matchPattern == "" && d.matchName in dns {
      if d.matchPattern == "" && d.matchName in dns {
        var i :| 0 <= i < |names| && names[i] == d.matchName;
        assert r.fqdns[i] == d;
      }
    }
  }

  ghost predicate SomeListSays(order: seq<BucketKey>, g: Grouping, fact: Fact)
    requires forall k :: k in order ==> k in g.accs
  {
    exists k :: k in order && ListSays(g.accs[k].dns, fact)
  }

  lemma {:induction false} FqdnRulesSay(order: seq<BucketKey>, g: Grouping, q: Peer, fact: Fact)
    requires forall k :: k in order ==> k in g.accs
    ensures RulesSay(FqdnRules(order, g), q, fact) <==> q == Peer([], [], []) && SomeListSays(order, g, fact)
  {
    if order != [] {
      var front, k := order[..|order| - 1], order[|order| - 1];
      assert order == front + [k];
      FqdnRulesSay(front, g, q, fact);
      var dns := g.accs[k].dns;
      RulesAppend(FqdnRules(front, g), if dns == [] then [] else [FqdnRule(dns)], q, fact);
      if dns != [] { FqdnRuleSays(dns, q, fact); }
      assert forall x :: x in order <==> x in front || x == k;
    }
  }

  ghost predicate GroupsList(g: Grouping, fact: Fact)
  {
    exists k :: k in g.accs && ListSays(g.accs[k].dns, fact)
  }

  lemma EgressRulesSay(g: Grouping, q: Peer, fact: Fact)
    requires Listed(g)
    ensures RulesSay(EgressRules(g), q, fact) <==>
            GroupingSays(g, q, fact) || (q == Peer([], [], []) && GroupsList(g, fact))
  {
    var a, b, c := FqdnRules(g.index.entities, g), FqdnRules(g.index.cidrs, g), FqdnRules(g.index.endpoints, g);
    DirectionSays(g, q, fact);
    FqdnRulesSay(g.index.entities, g, q, fact);
    FqdnRulesSay(g.index.cidrs, g, q, fact);
    FqdnRulesSay(g.index.endpoints, g, q, fact);
    RulesAppend(a, b, q, fact);
    RulesAppend(a + b, c, q, fact);
    RulesAppend(DirectionRules(g), a + b + c, q, fact);
  }

  /** The buckets' names are the names asked for. */
  lemma GroupsListNames(flows: seq<Flow>, namespace: string, name: string)
    ensures var g := GroupingOf(flows, Egress, namespace, true);
            (exists k :: k in g.accs && name in g.accs[k].dns) <==> Asked(flows, namespace, true, name)
  {
    DNSClosure.EgressNames(GroupingOf(flows, Egress, namespace, true), name);
    DNSClosure.ObservedNamesExact(flows, namespace, name);
    AskedExactly(flows, namespace, name);
  }

  lemma GroupsListExactly(flows: seq<Flow>, namespace: string, fact: Fact)
    ensures GroupsList(GroupingOf(flows, Egress, namespace, true), fact) <==>
            NamesSay(flows, namespace, true, Entry(Egress, Peer([], [], []), fact))
  {
    var g := GroupingOf(flows, Egress, namespace, true);
    forall n ensures (exists k :: k in g.accs && n in g.accs[k].dns) <==> Asked(flows, namespace, true, n) {
      GroupsListNames(flows, namespace, n);
    }
    if k :| k in g.accs && g.accs[k].dns != [] {
      assert g.accs[k].dns[0] in g.accs[k].dns;
      assert Asked(flows, namespace, true, g.accs[k].dns[0]);
    }
  }

  lemma CompanionSays(names: seq<string>, dnsSelector: map<string, string>, q: Peer, fact: Fact)
    requires names != []
    ensures RulesSay([Companion(names, dnsSelector)], q, fact) <==>
            DNSPods(q, dnsSelector) && !fact.OnFQDN? && ListSays(names, fact)
  {
    OneRuleSays(Companion(names, dnsSelector), q, fact);
    DNS53Says(names, fact);
  }

  /** The injector had something to add: names were asked for and no rule was found that lets them be asked. */
  ghost predicate NeedsCompanion(flows: seq<Flow>, namespace: string, l7Enabled: bool, dnsSelector: map<string, string>)
  {
    && (exists n :: Asked(flows, namespace, l7Enabled, n))
    && !HasCompanion(EgressRules(GroupingOf(flows, Egress, namespace, l7Enabled)), dnsSelector)
  }

  lemma InjectedSays(flows: seq<Flow>, namespace: string, dnsSelector: map<string, string>, q: Peer, fact: Fact)
    ensures var egress := EgressRules(GroupingOf(flows, Egress, namespace, true));
            RulesSay(WithCompanion(egress, dnsSelector), q, fact) <==>
            RulesSay(egress, q, fact)
            || (NeedsCompanion(flows, namespace, true, dnsSelector) && DNSPods(q, dnsSelector) && QueriesSay(flows, namespace, true, fact))
  {
    var egress := EgressRules(GroupingOf(flows, Egress, namespace, true));
    var names := CollectedNames(egress);
    CollectedMembers(egress);
    forall n ensures n in names <==> Asked(flows, namespace, true, n) {
      DNSClosure.ObservedNamesExact(flows, namespace, n);
      AskedExactly(flows, namespace, n);
    }
    HasMember(names);
    if names != [] {
      CompanionSays(names, dnsSelector, q, fact);
      RulesAppend(egress, [Companion(names, dnsSelector)], q, fact);
    }
  }

  /**
   A build says exactly what the raw fields of its flows say one by one, the names its egress flows
   asked for, and the DNS queries for them to the DNS pods when nothing else allowed them.
   */
  lemma BuildSaysRaw(namespace: string, workload: string, flows: seq<Flow>, l7Enabled: bool, dnsSelector: map<string, string>, e: Entry)
    requires OneScope(flows, namespace)
    ensures Says(Build(namespace, workload, flows, l7Enabled, dnsSelector), e) <==>
            || SomeRawSays(flows, namespace, l7Enabled, e)
            || NamesSay(flows, namespace, l7Enabled, e)
            || (e.dir == Egress && NeedsCompanion(flows, namespace, l7Enabled, dnsSelector) && DNSPods(e.peer, dnsSelector)
                && QueriesSay(flows, namespace, l7Enabled, e.fact))
  {
    ScopeExactly(flows, namespace);
    SomeRawExactly(flows, namespace, l7Enabled, e);
    GroupingExact(flows, namespace, l7Enabled, e);
    if !l7Enabled {
      BuildExact(namespace, workload, flows, l7Enabled, dnsSelector, e);
    } else if e.dir == Ingress {
      DirectionSays(GroupingOf(flows, Ingress, namespace, true), e.peer, e.fact);
    } else {
      EgressRulesSay(GroupingOf(flows, Egress, namespace, true), e.peer, e.fact);
      GroupsListExactly(flows, namespace, e.fact);
      InjectedSays(flows, namespace, dnsSelector, e.peer, e.fact);
    }
  }
}
