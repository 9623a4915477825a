/**
 What merging does to the toFQDNs names of built policies, over a whole run. Every FQDN rule a build
 emits has the same empty peer, so they all match one another.
 */
module FqdnMerge {
  import opened PolicyTypes
  import opened Merge
  import opened NameMerge
  import opened MergeMeaning
  import opened CompanionDNS
  import opened Builder
  import opened BuilderMeaning
  import opened DNSClosure
  import opened Windows
  import Sorting
  import Text

  // ---- Policies ---------------------------------------------------------------------------------

  /** So the union law holds for an entry on a name exactly when the name is on file or some opening rule brings it. */
  lemma UnionOfNamesIff(existing: Policy, incoming: Policy, replaceHTTP: bool, e: Entry)
    requires existing.spec.Some? && incoming.spec.Some? && e.fact.OnFQDN?
    ensures (Says(Merged(existing, incoming, replaceHTTP), e) <==> Says(existing, e) || Says(incoming, e))
       <==> (Says(incoming, e) ==> Says(existing, e) || Brings(RulesOf(existing, e.dir), RulesOf(incoming, e.dir), e.peer, e.fact.name))
  {
    var ex, inc := RulesOf(existing, e.dir), RulesOf(incoming, e.dir);
    MergedNamesExact(ex, inc, replaceHTTP, e.peer, e.fact.name);
    if Brings(ex, inc, e.peer, e.fact.name) {
      var k: nat :| k < |inc| && Opens(ex, inc, k) && inc[k].peer == e.peer && e.fact.name in inc[k].fqdns;
      assert inc[k] in inc && RuleSays(inc[k], e.fact);
    }
  }

  // ---- Built policies ---------------------------------------------------------------------------

  const NOBODY := Peer([], [], [])

  /** FQDN rules, and only they, have the empty peer; none carries ICMP. */
  ghost predicate PeerlessAreNames(rules: seq<Rule>)
  {
    forall r :: r in rules ==> (r.fqdns != [] <==> r.peer == NOBODY) && (r.fqdns != [] ==> r.icmps == [])
  }

  lemma PeerlessAppend(a: seq<Rule>, b: seq<Rule>)
    requires PeerlessAreNames(a) && PeerlessAreNames(b)
    ensures PeerlessAreNames(a + b)
  {
    assert forall r :: r in a + b <==> r in a || r in b;
  }

  ghost predicate PeersNamed(g: Grouping)
  {
    forall k :: k in g.index.peers ==> g.index.peers[k] != NOBODY
  }

  lemma {:induction false} EmittedApart(order: seq<BucketKey>, g: Grouping)
    requires (forall k :: k in order ==> k in g.accs && k in g.index.peers) && PeersNamed(g)
    ensures PeerlessAreNames(EmitBuckets(order, g))
  {
    if order != [] {
      var front, k := order[..|order| - 1], order[|order| - 1];
      assert order == front + [k];
      EmittedApart(front, g);
      var rules := RulesFrom(g.index.peers[k], g.accs[k]);
      assert PeerlessAreNames(rules);
      PeerlessAppend(EmitBuckets(front, g), rules);
    }
  }

  lemma OneFqdnRule(dns: seq<string>)
    requires dns != []
    ensures PeerlessAreNames([FqdnRule(dns)])
  {
    SortLength(dns);
  }

  lemma SortLength(dns: seq<string>)
    ensures |FqdnRule(dns).fqdns| == |dns|
  {
    Sorting.SortPermutes(dns, Text.LexLe);
  }

  lemma {:induction false} FqdnsApart(order: seq<BucketKey>, g: Grouping)
    requires forall k :: k in order ==> k in g.accs
    ensures PeerlessAreNames(FqdnRules(order, g))
  {
    if order != [] {
      var front, k := order[..|order| - 1], order[|order| - 1];
      assert order == front + [k];
      FqdnsApart(front, g);
      var dns := g.accs[k].dns;
      if dns != [] {
        OneFqdnRule(dns);
        PeerlessAppend(FqdnRules(front, g), [FqdnRule(dns)]);
      }
    }
  }

  lemma GroupPeersNamed(flows: seq<Flow>, dir: Dir, namespace: string, l7Enabled: bool)
    ensures PeersNamed(GroupAll(flows, dir, namespace, l7Enabled))
  {
    var g := GroupAll(flows, dir, namespace, l7Enabled);
    forall k | k in g.index.peers ensures g.index.peers[k] != NOBODY {
      BucketPeer(flows, dir, namespace, l7Enabled, k);
      var f :| f in flows && Target(f, dir, namespace) == Some((k, g.index.peers[k]));
    }
  }

  function BuiltEgress(namespace: string, workload: string, flows: seq<Flow>, dnsSelector: map<string, string>): seq<Rule>
  {
    Build(namespace, workload, flows, true, dnsSelector).spec.value.egress
  }

  lemma BuiltApart(namespace: string, workload: string, flows: seq<Flow>, dnsSelector: map<string, string>)
    ensures PeerlessAreNames(BuiltEgress(namespace, workload, flows, dnsSelector))
  {
    var g := GroupingOf(flows, Egress, namespace, true);
    GroupPeersNamed(Towards(flows, Egress), Egress, namespace, true);
    EmittedApart(g.index.entities, g);
    EmittedApart(g.index.cidrs, g);
    EmittedApart(g.index.endpoints, g);
    FqdnsApart(g.index.entities, g);
    FqdnsApart(g.index.cidrs, g);
    FqdnsApart(g.index.endpoints, g);
    EgressApart(g);
    var egress := EgressRules(g);
    PeerlessAppend(egress, [Companion(CollectedNames(egress), dnsSelector)]);
  }

  lemma EgressApart(g: Grouping)
    requires Listed(g)
    requires PeerlessAreNames(EmitBuckets(g.index.entities, g)) && PeerlessAreNames(EmitBuckets(g.index.cidrs, g)) && PeerlessAreNames(EmitBuckets(g.index.endpoints, g))
    requires PeerlessAreNames(FqdnRules(g.index.entities, g)) && PeerlessAreNames(FqdnRules(g.index.cidrs, g)) && PeerlessAreNames(FqdnRules(g.index.endpoints, g))
    ensures PeerlessAreNames(EgressRules(g))
  {
    var a, b, c := EmitBuckets(g.index.entities, g), EmitBuckets(g.index.cidrs, g), EmitBuckets(g.index.endpoints, g);
    PeerlessAppend(a, b);
    PeerlessAppend(a + b, c);
    var x, y, z := FqdnRules(g.index.entities, g), FqdnRules(g.index.cidrs, g), FqdnRules(g.index.endpoints, g);
    PeerlessAppend(x, y);
    PeerlessAppend(x + y, z);
    PeerlessAppend(a + b + c, x + y + z);
  }

  // ---- The second window of a run ---------------------------------------------------------------

  ghost predicate AsksAny(flows: seq<Flow>, namespace: string)
  {
    exists n :: SomeAsks(Towards(flows, Egress), namespace, n)
  }

  /** The k-th rule is the first with toFQDNs, and lists the name. */
  ghost predicate FirstLists(rules: seq<Rule>, name: string)
  {
    exists k: nat :: k < |rules| && (forall j :: 0 <= j < k ==> rules[j].fqdns == []) && FqdnIn([rules[k]], name)
  }

  lemma SayIsIn(rules: seq<Rule>, name: string)
    requires PeerlessAreNames(rules)
    ensures FqdnIn(rules, name) <==> exists d: DNSRule :: d.matchName == name && RulesSay(rules, NOBODY, OnFQDN(d))
  {
    if FqdnIn(rules, name) {
      var r, d :| r in rules && d in r.fqdns && d.matchName == name;
      assert r.peer == NOBODY && RuleSays(r, OnFQDN(d));
      assert RulesSay(rules, NOBODY, OnFQDN(d));
    }
  }

  /** With rules kept apart like this, names come in only where no name is on file, and then with the first rule. */
  lemma BringsFirst(existing: seq<Rule>, incoming: seq<Rule>, n: DNSRule)
    requires PeerlessAreNames(existing) && PeerlessAreNames(incoming)
    ensures Brings(existing, incoming, NOBODY, n) <==>
            (forall r :: r in existing ==> r.fqdns == [])
            && exists k: nat :: k < |incoming| && (forall j :: 0 <= j < k ==> incoming[j].fqdns == []) && n in incoming[k].fqdns
  {
    forall k: nat | k < |incoming| && incoming[k].fqdns != []
      ensures Opens(existing, incoming, k) <==>
              (forall r :: r in existing ==> r.fqdns == []) && forall j :: 0 <= j < k ==> incoming[j].fqdns == []
    {
      OpensFirst(existing, incoming, k);
    }
    if k: nat :| k < |incoming| && Opens(existing, incoming, k) && incoming[k].peer == NOBODY && n in incoming[k].fqdns {
      assert incoming[k].fqdns != [];
    }
    if k: nat :| k < |incoming| && (forall j :: 0 <= j < k ==> incoming[j].fqdns == []) && n in incoming[k].fqdns {
      assert incoming[k].fqdns != [] && incoming[k] in incoming;
    }
  }

  lemma OpensFirst(existing: seq<Rule>, incoming: seq<Rule>, k: nat)
    requires PeerlessAreNames(existing) && PeerlessAreNames(incoming) && k < |incoming| && incoming[k].fqdns != []
    ensures Opens(existing, incoming, k) <==>
            (forall r :: r in existing ==> r.fqdns == []) && forall j :: 0 <= j < k ==> incoming[j].fqdns == []
  {
    var x := incoming[k];
    assert x in incoming && x.peer == NOBODY && x.icmps == [];
    forall r | r in existing && r.fqdns != [] ensures RulesMatch(r, x) {}
    forall j | 0 <= j < k && incoming[j].fqdns != [] ensures Matched(incoming[..k], x) {
      assert incoming[j] in incoming && RulesMatch(incoming[j], x);
      assert incoming[..k][j] == incoming[j];
    }
    if r :| r in existing && RulesMatch(r, x) { assert r.fqdns != []; }
    if r :| r in incoming[..k] && RulesMatch(r, x) {
      var j :| 0 <= j < k && incoming[j] == r;
      assert r in incoming && r.fqdns != [];
    }
  }

  /**
   Two windows of a run: after the second is merged, the names on file are those the first asked for,
   if it asked for any; else the ones of the second's first FQDN rule. Names of later windows are lost.
   */
  lemma SecondWindowNames(namespace: string, workload: string, first: seq<Flow>, second: seq<Flow>,
                          dnsSelector: map<string, string>, replaceHTTP: bool, name: string)
    ensures var p := BuiltEgress(namespace, workload, first, dnsSelector);
            var q := BuiltEgress(namespace, workload, second, dnsSelector);
            FqdnIn(MergeAll(p, q, replaceHTTP), name) <==>
            if AsksAny(first, namespace) then SomeAsks(Towards(first, Egress), namespace, name) else FirstLists(q, name)
  {
    var p := BuiltEgress(namespace, workload, first, dnsSelector);
    var q := BuiltEgress(namespace, workload, second, dnsSelector);
    BuiltApart(namespace, workload, first, dnsSelector);
    BuiltApart(namespace, workload, second, dnsSelector);
    NamesOnFile(p, q, replaceHTTP, name);
    forall n ensures FqdnIn(p, n) <==> SomeAsks(Towards(first, Egress), namespace, n) { BuiltNames(namespace, workload, first, dnsSelector, n); }
    if AsksAny(first, namespace) {
      var n :| SomeAsks(Towards(first, Egress), namespace, n);
      var r, d :| r in p && d in r.fqdns && d.matchName == n;
      assert !(forall x :: x in p ==> x.fqdns == []);
    } else {
      forall r | r in p ensures r.fqdns == [] {
        if r.fqdns != [] { assert r.fqdns[0] in r.fqdns; assert FqdnIn(p, r.fqdns[0].matchName); }
      }
    }
  }

  lemma BuiltNames(namespace: string, workload: string, flows: seq<Flow>, dnsSelector: map<string, string>, n: string)
    ensures FqdnIn(BuiltEgress(namespace, workload, flows, dnsSelector), n) <==> SomeAsks(Towards(flows, Egress), namespace, n)
  {
    var egress := EgressRules(GroupingOf(flows, Egress, namespace, true));
    ObservedNamesExact(flows, namespace, n);
    FqdnAppend(egress, [Companion(CollectedNames(egress), dnsSelector)], n);
  }

  lemma {:induction false} MergedApart(existing: seq<Rule>, incoming: seq<Rule>, replaceHTTP: bool)
    requires PeerlessAreNames(existing) && PeerlessAreNames(incoming)
    ensures PeerlessAreNames(MergeAll(existing, incoming, replaceHTTP))
  {
    if incoming != [] {
      var front, y := incoming[..|incoming| - 1], incoming[|incoming| - 1];
      assert incoming == front + [y];
      MergedApart(existing, front, replaceHTTP);
      IntoApart(MergeAll(existing, front, replaceHTTP), y, replaceHTTP);
    }
  }

  lemma {:induction false} IntoApart(rules: seq<Rule>, y: Rule, replaceHTTP: bool)
    requires PeerlessAreNames(rules) && PeerlessAreNames([y])
    ensures PeerlessAreNames(MergeInto(rules, y, replaceHTTP))
  {
    if rules != [] {
      var r, rest := rules[0], rules[1..];
      assert rules == [r] + rest && r in rules && y in [y];
      if RulesMatch(r, y) {
        PeerlessAppend([MergedRule(r, y, replaceHTTP)], rest);
      } else {
        IntoApart(rest, y, replaceHTTP);
        PeerlessAppend([r], MergeInto(rest, y, replaceHTTP));
      }
    }
  }

  lemma NamesOnFile(p: seq<Rule>, q: seq<Rule>, replaceHTTP: bool, name: string)
    requires PeerlessAreNames(p) && PeerlessAreNames(q)
    ensures FqdnIn(MergeAll(p, q, replaceHTTP), name) <==>
            FqdnIn(p, name) || ((forall r :: r in p ==> r.fqdns == []) && FirstLists(q, name))
  {
    MergedApart(p, q, replaceHTTP);
    SayIsIn(MergeAll(p, q, replaceHTTP), name);
    SayIsIn(p, name);
    forall d: DNSRule
      ensures RulesSay(MergeAll(p, q, replaceHTTP), NOBODY, OnFQDN(d)) <==>
              RulesSay(p, NOBODY, OnFQDN(d)) || Brings(p, q, NOBODY, d)
    {
      MergedNamesExact(p, q, replaceHTTP, NOBODY, d);
    }
    forall d: DNSRule | d.matchName == name ensures Brings(p, q, NOBODY, d) ==> (forall r :: r in p ==> r.fqdns == []) && FirstLists(q, name) {
      BringsFirst(p, q, d);
      if Brings(p, q, NOBODY, d) { FirstListsBy(q, d); }
    }
    if (forall r :: r in p ==> r.fqdns == []) && FirstLists(q, name) {
      var k: nat :| k < |q| && (forall j :: 0 <= j < k ==> q[j].fqdns == []) && FqdnIn([q[k]], name);
      var d :| d in q[k].fqdns && d.matchName == name;
      BringsFirst(p, q, d);
      assert RulesSay(MergeAll(p, q, replaceHTTP), NOBODY, OnFQDN(d));
    }
  }

  lemma FirstListsBy(q: seq<Rule>, d: DNSRule)
    requires exists k: nat :: k < |q| && (forall j :: 0 <= j < k ==> q[j].fqdns == []) && d in q[k].fqdns
    ensures FirstLists(q, d.matchName)
  {
    var k: nat :| k < |q| && (forall j :: 0 <= j < k ==> q[j].fqdns == []) && d in q[k].fqdns;
    assert q[k] in [q[k]] && FqdnIn([q[k]], d.matchName);
  }

  // ---- Any number of windows --------------------------------------------------------------------

  /** No window before the i-th asked for a name; the i-th brings this one. */
  ghost predicate BroughtBy(namespace: string, workload: string, windows: seq<seq<Flow>>, dnsSelector: map<string, string>, i: nat, name: string)
    requires i < |windows|
  {
    && (forall j :: 0 <= j < i ==> !AsksAny(windows[j], namespace))
    && (if i == 0 then SomeAsks(Towards(windows[0], Egress), namespace, name)
        else FirstLists(BuiltEgress(namespace, workload, windows[i], dnsSelector), name))
  }

  ghost predicate Brought(namespace: string, workload: string, windows: seq<seq<Flow>>, dnsSelector: map<string, string>, name: string)
  {
    exists i: nat :: i < |windows| && BroughtBy(namespace, workload, windows, dnsSelector, i, name)
  }

  function FileEgress(namespace: string, workload: string, windows: seq<seq<Flow>>, dnsSelector: map<string, string>): seq<Rule>
    requires |windows| >= 1
  {
    RulesOf(FileAfter(namespace, workload, windows, true, dnsSelector), Egress)
  }

  lemma {:induction false} FileStep(namespace: string, workload: string, windows: seq<seq<Flow>>, dnsSelector: map<string, string>)
    requires |windows| >= 1
    ensures FileAfter(namespace, workload, windows, true, dnsSelector).spec.Some?
    ensures FileEgress(namespace, workload, windows, dnsSelector) ==
            var last := BuiltEgress(namespace, workload, windows[|windows| - 1], dnsSelector);
            if |windows| == 1 then last else MergeAll(FileEgress(namespace, workload, windows[..|windows| - 1], dnsSelector), last, false)
  {
    if |windows| > 1 { FileStep(namespace, workload, windows[..|windows| - 1], dnsSelector); }
  }

  lemma {:induction false} FileApart(namespace: string, workload: string, windows: seq<seq<Flow>>, dnsSelector: map<string, string>)
    requires |windows| >= 1
    ensures PeerlessAreNames(FileEgress(namespace, workload, windows, dnsSelector))
  {
    var last := windows[|windows| - 1];
    FileStep(namespace, workload, windows, dnsSelector);
    BuiltApart(namespace, workload, last, dnsSelector);
    if |windows| > 1 {
      FileApart(namespace, workload, windows[..|windows| - 1], dnsSelector);
      MergedApart(FileEgress(namespace, workload, windows[..|windows| - 1], dnsSelector), BuiltEgress(namespace, workload, last, dnsSelector), false);
    }
  }

  lemma NoneListed(rules: seq<Rule>)
    ensures (forall r :: r in rules ==> r.fqdns == []) <==> forall n :: !FqdnIn(rules, n)
  {
    forall r | r in rules && r.fqdns != [] ensures FqdnIn(rules, r.fqdns[0].matchName) { assert r.fqdns[0] in r.fqdns; }
  }

  /** An asking window always has a first FQDN rule with a name in it. */
  lemma FirstOfAsking(namespace: string, workload: string, flows: seq<Flow>, dnsSelector: map<string, string>)
    ensures AsksAny(flows, namespace) <==> exists n :: FirstLists(BuiltEgress(namespace, workload, flows, dnsSelector), n)
  {
    var q := BuiltEgress(namespace, workload, flows, dnsSelector);
    if AsksAny(flows, namespace) {
      var n :| SomeAsks(Towards(flows, Egress), namespace, n);
      BuiltNames(namespace, workload, flows, dnsSelector, n);
      var r, d :| r in q && d in r.fqdns && d.matchName == n;
      var i :| 0 <= i < |q| && q[i] == r;
      var k := FirstNamed(q, i);
      FirstListsBy(q, q[k].fqdns[0]);
    }
    if n :| FirstLists(q, n) {
      var k: nat :| k < |q| && (forall j :: 0 <= j < k ==> q[j].fqdns == []) && FqdnIn([q[k]], n);
      assert q[k] in q;
      assert FqdnIn(q, n);
      BuiltNames(namespace, workload, flows, dnsSelector, n);
    }
  }

  lemma {:induction false} FirstNamed(q: seq<Rule>, i: nat) returns (k: nat)
    requires i < |q| && q[i].fqdns != []
    ensures k < |q| && q[k].fqdns != [] && q[k].fqdns[0] in q[k].fqdns && forall j :: 0 <= j < k ==> q[j].fqdns == []
  {
    k := 0;
    while q[k].fqdns == []
      invariant k <= i && forall j :: 0 <= j < k ==> q[j].fqdns == []
      decreases i - k
    {
      k := k + 1;
    }
  }

  lemma BroughtEarlier(namespace: string, workload: string, windows: seq<seq<Flow>>, dnsSelector: map<string, string>, i: nat, name: string)
    requires i < |windows| - 1
    ensures BroughtBy(namespace, workload, windows, dnsSelector, i, name) <==>
            BroughtBy(namespace, workload, windows[..|windows| - 1], dnsSelector, i, name)
  {
    var front := windows[..|windows| - 1];
    assert front[i] == windows[i] && front[0] == windows[0];
    assert forall j :: 0 <= j < i ==> front[j] == windows[j];
  }

  lemma BroughtForth(namespace: string, workload: string, windows: seq<seq<Flow>>, dnsSelector: map<string, string>, i: nat, name: string)
    requires i < |windows| - 1 && BroughtBy(namespace, workload, windows[..|windows| - 1], dnsSelector, i, name)
    ensures Brought(namespace, workload, windows, dnsSelector, name)
  {
    BroughtEarlier(namespace, workload, windows, dnsSelector, i, name);
  }

  lemma BroughtBack(namespace: string, workload: string, windows: seq<seq<Flow>>, dnsSelector: map<string, string>, i: nat, name: string)
    requires i < |windows| - 1 && BroughtBy(namespace, workload, windows, dnsSelector, i, name)
    ensures Brought(namespace, workload, windows[..|windows| - 1], dnsSelector, name)
  {
    BroughtEarlier(namespace, workload, windows, dnsSelector, i, name);
    var front := windows[..|windows| - 1];
    assert BroughtBy(namespace, workload, front, dnsSelector, i, name);
  }

  lemma BroughtMore(namespace: string, workload: string, windows: seq<seq<Flow>>, dnsSelector: map<string, string>, name: string)
    requires |windows| > 1 && Brought(namespace, workload, windows[..|windows| - 1], dnsSelector, name)
    ensures Brought(namespace, workload, windows, dnsSelector, name)
  {
    var front := windows[..|windows| - 1];
    var i: nat :| i < |front| && BroughtBy(namespace, workload, front, dnsSelector, i, name);
    BroughtForth(namespace, workload, windows, dnsSelector, i, name);
  }

  lemma BroughtLast(namespace: string, workload: string, windows: seq<seq<Flow>>, dnsSelector: map<string, string>, name: string)
    requires |windows| > 1 && Brought(namespace, workload, windows, dnsSelector, name)
    requires !BroughtBy(namespace, workload, windows, dnsSelector, |windows| - 1, name)
    ensures Brought(namespace, workload, windows[..|windows| - 1], dnsSelector, name)
  {
    var i: nat :| i < |windows| && BroughtBy(namespace, workload, windows, dnsSelector, i, name);
    BroughtBack(namespace, workload, windows, dnsSelector, i, name);
  }

  lemma BroughtNow(namespace: string, workload: string, windows: seq<seq<Flow>>, dnsSelector: map<string, string>, name: string)
    requires |windows| >= 1 && BroughtBy(namespace, workload, windows, dnsSelector, |windows| - 1, name)
    ensures Brought(namespace, workload, windows, dnsSelector, name)
  {
  }

  /** Names are on file as soon as some window asked for one. */
  lemma {:induction false} SomeBrought(namespace: string, workload: string, windows: seq<seq<Flow>>, dnsSelector: map<string, string>)
    requires |windows| >= 1
    ensures (exists name :: Brought(namespace, workload, windows, dnsSelector, name)) <==>
            exists j :: 0 <= j < |windows| && AsksAny(windows[j], namespace)
  {
    if j :| 0 <= j < |windows| && AsksAny(windows[j], namespace) {
      var i := FirstAsking(windows, namespace, j);
      if i == 0 {
        var n :| SomeAsks(Towards(windows[0], Egress), namespace, n);
        assert BroughtBy(namespace, workload, windows, dnsSelector, 0, n);
        assert Brought(namespace, workload, windows, dnsSelector, n);
      } else {
        FirstOfAsking(namespace, workload, windows[i], dnsSelector);
        var n :| FirstLists(BuiltEgress(namespace, workload, windows[i], dnsSelector), n);
        assert BroughtBy(namespace, workload, windows, dnsSelector, i, n);
        assert Brought(namespace, workload, windows, dnsSelector, n);
      }
    }
    if name :| Brought(namespace, workload, windows, dnsSelector, name) {
      var i: nat :| i < |windows| && BroughtBy(namespace, workload, windows, dnsSelector, i, name);
      FirstOfAsking(namespace, workload, windows[i], dnsSelector);
      assert AsksAny(windows[i], namespace);
    }
  }

  lemma {:induction false} FirstAsking(windows: seq<seq<Flow>>, namespace: string, j: nat) returns (i: nat)
    requires j < |windows| && AsksAny(windows[j], namespace)
    ensures i <= j && AsksAny(windows[i], namespace) && forall k :: 0 <= k < i ==> !AsksAny(windows[k], namespace)
  {
    i := 0;
    while !AsksAny(windows[i], namespace)
      invariant i <= j && forall k :: 0 <= k < i ==> !AsksAny(windows[k], namespace)
      decreases j - i
    {
      i := i + 1;
    }
  }

  /**
   Over any run of windows a name is on file exactly when the first window that asked for names brings it:
   all its names if it is the first write, else those of its first FQDN rule. Every name first asked for in
   a later window is lost.
   */
  lemma {:induction false} RunNamesExact(namespace: string, workload: string, windows: seq<seq<Flow>>, dnsSelector: map<string, string>, name: string)
    requires |windows| >= 1
    ensures FqdnIn(FileEgress(namespace, workload, windows, dnsSelector), name) <==> Brought(namespace, workload, windows, dnsSelector, name)
    decreases |windows|, 1
  {
    var n := |windows| - 1;
    FileStep(namespace, workload, windows, dnsSelector);
    if n == 0 {
      BuiltNames(namespace, workload, windows[0], dnsSelector, name);
      assert BroughtBy(namespace, workload, windows, dnsSelector, 0, name) <==> SomeAsks(Towards(windows[0], Egress), namespace, name);
    } else {
      var front := windows[..n];
      var p, q := FileEgress(namespace, workload, front, dnsSelector), BuiltEgress(namespace, workload, windows[n], dnsSelector);
      FileApart(namespace, workload, front, dnsSelector);
      BuiltApart(namespace, workload, windows[n], dnsSelector);
      NamesOnFile(p, q, false, name);
      RunNamesExact(namespace, workload, front, dnsSelector, name);
      EarlierAsked(namespace, workload, windows, dnsSelector);
      if BroughtBy(namespace, workload, windows, dnsSelector, n, name) {
        BroughtNow(namespace, workload, windows, dnsSelector, name);
      } else if Brought(namespace, workload, front, dnsSelector, name) {
        BroughtMore(namespace, workload, windows, dnsSelector, name);
      } else if Brought(namespace, workload, windows, dnsSelector, name) {
        BroughtLast(namespace, workload, windows, dnsSelector, name);
      }
    }
  }

  lemma {:induction false} EarlierAsked(namespace: string, workload: string, windows: seq<seq<Flow>>, dnsSelector: map<string, string>)
    requires |windows| > 1
    ensures (forall r :: r in FileEgress(namespace, workload, windows[..|windows| - 1], dnsSelector) ==> r.fqdns == [])
       <==> forall j :: 0 <= j < |windows| - 1 ==> !AsksAny(windows[j], namespace)
    decreases |windows|, 0
  {
    var n := |windows| - 1;
    var front := windows[..n];
    NoneListed(FileEgress(namespace, workload, front, dnsSelector));
    forall x ensures FqdnIn(FileEgress(namespace, workload, front, dnsSelector), x) <==> Brought(namespace, workload, front, dnsSelector, x) {
      RunNamesExact(namespace, workload, front, dnsSelector, x);
    }
    SomeBrought(namespace, workload, front, dnsSelector);
    assert forall j :: 0 <= j < n ==> front[j] == windows[j];
  }

  // ---- Two windows of one query -----------------------------------------------------------------

  /** A name asked for in the second window but not in the first is lost whenever the first asked for any. */
  lemma LaterNameLost(namespace: string, workload: string, first: seq<Flow>, second: seq<Flow>,
                      dnsSelector: map<string, string>, replaceHTTP: bool, name: string)
    requires AsksAny(first, namespace) && !SomeAsks(Towards(first, Egress), namespace, name)
    requires SomeAsks(Towards(second, Egress), namespace, name)
    ensures var p := BuiltEgress(namespace, workload, first, dnsSelector);
            var q := BuiltEgress(namespace, workload, second, dnsSelector);
            FqdnIn(q, name) && !FqdnIn(MergeAll(p, q, replaceHTTP), name)
  {
    SecondWindowNames(namespace, workload, first, second, dnsSelector, replaceHTTP, name);
    BuiltNames(namespace, workload, second, dnsSelector, name);
  }

  /** A DNS query to the world. */
  function Query(name: string): Flow
  {
    Flow(Out, Some(UDP(53)), None, Some(Endpoint(map[], "world", true, "")), "", "192.0.2.1", DNSRecord(name))
  }

  /** Two windows of one query each. */
  lemma MergeDropsFqdn(dnsSelector: map<string, string>, replaceHTTP: bool)
    ensures var p := BuiltEgress("ns", "app", [Query("a.example")], dnsSelector);
            var q := BuiltEgress("ns", "app", [Query("b.example")], dnsSelector);
            FqdnIn(q, "b.example") && !FqdnIn(MergeAll(p, q, replaceHTTP), "b.example")
  {
    QueryAsks("a.example", "a.example");
    QueryAsks("a.example", "b.example");
    QueryAsks("b.example", "b.example");
    assert "a.example"[0] != "b.example"[0];
    LaterNameLost("ns", "app", [Query("a.example")], [Query("b.example")], dnsSelector, replaceHTTP, "b.example");
  }

  lemma QueryAsks(asked: string, name: string)
    requires asked != ""
    ensures SomeAsks(Towards([Query(asked)], Egress), "ns", name) <==> name == asked
  {
    var f := Query(asked);
    assert [f][..0] == [] && Towards([], Egress) == [];
    assert Towards([f], Egress) == [f];
    assert f in [f] && Asks(f, "ns", name) == (name == asked);
  }
}
