/** What a merged policy says, in union and in replace mode. */
module MergeMeaning {
  import opened PolicyTypes
  import opened Merge
  import opened NameMerge

  // ---- Buckets ----------------------------------------------------------------------------

  ghost predicate BucketsSay(b: Buckets, fact: Fact)
  {
    match fact
    case OnPort(pp) => pp in b.rules
    case OnHTTP(pp, h) => pp in b.rules && h in HTTPOf(b.rules[pp])
    case OnDNS(pp, d) => pp in b.rules && d in DNSOf(b.rules[pp])
    case _ => false
  }

  /** What one port with its L7 rules says. */
  ghost predicate PortSays(pp: PortProto, rules: Option<L7Rules>, fact: Fact)
  {
    match fact
    case OnPort(q) => q == pp
    case OnHTTP(q, h) => q == pp && h in HTTPOf(rules)
    case OnDNS(q, d) => q == pp && d in DNSOf(rules)
    case _ => false
  }

  lemma ConsumePortSays(b: Buckets, pp: PortProto, rules: Option<L7Rules>, replaceHTTP: bool, fact: Fact)
    requires !replaceHTTP || !IsHTTP(fact)
    ensures BucketsSay(ConsumePort(b, pp, rules, replaceHTTP), fact) <==> BucketsSay(b, fact) || PortSays(pp, rules, fact)
  {
    MergedL7Members(if pp in b.rules then b.rules[pp] else None, rules, replaceHTTP);
  }

  lemma {:induction false} ConsumePortsSay(b: Buckets, ports: seq<PortProto>, rules: Option<L7Rules>, replaceHTTP: bool, fact: Fact)
    requires !replaceHTTP || !IsHTTP(fact)
    ensures BucketsSay(ConsumePorts(b, ports, rules, replaceHTTP), fact) <==>
            BucketsSay(b, fact) || PortRulesSay([PortRule(ports, rules)], fact)
  {
    var pr := PortRule(ports, rules);
    OnePortRuleSays(pr, fact);
    if ports != [] {
      var front, last := ports[..|ports| - 1], ports[|ports| - 1];
      assert ports == front + [last];
      ConsumePortsSay(b, front, rules, replaceHTTP, fact);
      OnePortRuleSays(PortRule(front, rules), fact);
      ConsumePortSays(ConsumePorts(b, front, rules, replaceHTTP), last, rules, replaceHTTP, fact);
    }
  }

  lemma OnePortRuleSays(pr: PortRule, fact: Fact)
    ensures PortRulesSay([pr], fact) <==> exists pp :: pp in pr.ports && PortSays(pp, pr.rules, fact)
  {
    assert pr in [pr];
    if PortRulesSay([pr], fact) {
      var pp := match fact case OnPort(q) => q case OnHTTP(q, _) => q case OnDNS(q, _) => q;
      assert pp in pr.ports && PortSays(pp, pr.rules, fact);
    }
    if pp :| pp in pr.ports && PortSays(pp, pr.rules, fact) {
      assert PortRulesSay([pr], fact);
    }
  }

  lemma PortRulesAppend(a: seq<PortRule>, b: seq<PortRule>, fact: Fact)
    ensures PortRulesSay(a + b, fact) <==> PortRulesSay(a, fact) || PortRulesSay(b, fact)
  {
    assert forall pr :: pr in a + b <==> pr in a || pr in b;
  }

  lemma {:induction false} ConsumeSays(b: Buckets, prs: seq<PortRule>, replaceHTTP: bool, fact: Fact)
    requires !replaceHTTP || !IsHTTP(fact)
    ensures BucketsSay(Consume(b, prs, replaceHTTP), fact) <==> BucketsSay(b, fact) || PortRulesSay(prs, fact)
  {
    if prs != [] {
      var front, last := prs[..|prs| - 1], prs[|prs| - 1];
      assert prs == front + [last];
      ConsumeSays(b, front, replaceHTTP, fact);
      ConsumePortsSay(Consume(b, front, replaceHTTP), last.ports, last.rules, replaceHTTP, fact);
      PortRulesAppend(front, [last], fact);
    }
  }

  lemma ListBucketsSay(b: Buckets, fact: Fact)
    requires Ordered(b)
    ensures PortRulesSay(ListBuckets(b), fact) <==> BucketsSay(b, fact)
  {
    var prs := ListBuckets(b);
    if fact.OnPort? || fact.OnHTTP? || fact.OnDNS? {
      var pp := match fact case OnPort(q) => q case OnHTTP(q, _) => q case OnDNS(q, _) => q;
      if pp in b.rules {
        var i :| 0 <= i < |b.order| && b.order[i] == pp;
        assert prs[i] in prs && pp in prs[i].ports;
      }
      forall pr | pr in prs && pp in pr.ports ensures pp in b.rules && pr.rules == b.rules[pp] {
        var i :| 0 <= i < |prs| && prs[i] == pr;
        assert b.order[i] in b.order;
      }
    }
  }

  lemma {:induction false} AllPortsMembers(prs: seq<PortRule>)
    ensures forall pp :: pp in AllPorts(prs) <==> PortsSay(prs, pp)
  {
    if prs != [] {
      var front, last := prs[..|prs| - 1], prs[|prs| - 1];
      assert prs == front + [last];
      AllPortsMembers(front);
      forall pp ensures pp in AllPorts(prs) <==> PortsSay(prs, pp) {
        PortRulesAppend(front, [last], OnPort(pp));
        OnePortRuleSays(last, OnPort(pp));
      }
    }
  }

  lemma NoL7NoFacts(prs: seq<PortRule>, fact: Fact)
    requires !CarriesL7(prs) && !fact.OnPort?
    ensures !PortRulesSay(prs, fact)
  {
    forall pr | pr in prs ensures pr.rules.None? {
      var i :| 0 <= i < |prs| && prs[i] == pr;
    }
  }

  /** Merging port rules keeps exactly what both sides say (HTTP aside in replace mode). */
  lemma MergedPortsSay(existing: seq<PortRule>, incoming: seq<PortRule>, replaceHTTP: bool, fact: Fact)
    requires !replaceHTTP || !IsHTTP(fact)
    ensures PortRulesSay(MergedPorts(existing, incoming, replaceHTTP), fact) <==>
            PortRulesSay(existing, fact) || PortRulesSay(incoming, fact)
  {
    if existing == [] || incoming == [] {
    } else if !CarriesL7(existing) && !CarriesL7(incoming) {
      var ports := AppendNew(AppendNew([], AllPorts(existing)), AllPorts(incoming));
      OnePortRuleSays(PortRule(ports, None), fact);
      if fact.OnPort? {
        AppendNewMembers([], AllPorts(existing));
        AppendNewMembers(AppendNew([], AllPorts(existing)), AllPorts(incoming));
        AllPortsMembers(existing);
        AllPortsMembers(incoming);
      } else {
        NoL7NoFacts(existing, fact);
        NoL7NoFacts(incoming, fact);
      }
    } else {
      ConsumeSays(NO_BUCKETS, existing, replaceHTTP, fact);
      ConsumeSays(Consume(NO_BUCKETS, existing, replaceHTTP), incoming, replaceHTTP, fact);
      ListBucketsSay(MergedBuckets(existing, incoming, replaceHTTP), fact);
    }
  }

  lemma {:induction false} AllFieldsMembers(icmps: seq<seq<ICMPField>>)
    ensures forall f :: f in AllFields(icmps) <==> ICMPSays(icmps, f)
  {
    if icmps != [] {
      var front, last := icmps[..|icmps| - 1], icmps[|icmps| - 1];
      AllFieldsMembers(front);
      assert icmps == front + [last];
      assert forall fs :: fs in icmps <==> fs in front || fs == last;
    }
  }

  lemma MergedICMPSays(existing: seq<seq<ICMPField>>, incoming: seq<seq<ICMPField>>, f: ICMPField)
    ensures ICMPSays(MergedICMP(existing, incoming), f) <==> ICMPSays(existing, f) || ICMPSays(incoming, f)
  {
    if existing != [] && incoming != [] {
      AppendNewMembers([], AllFields(existing));
      AppendNewMembers(AppendNew([], AllFields(existing)), AllFields(incoming));
      AllFieldsMembers(existing);
      AllFieldsMembers(incoming);
      var all := AppendNew(AppendNew([], AllFields(existing)), AllFields(incoming));
      assert all in [all];
    }
  }

  // ---- Rules, union mode -------------------------------------------------------------------

  lemma MergedRuleSays(ex: Rule, inRule: Rule, replaceHTTP: bool, fact: Fact)
    requires !replaceHTTP || !IsHTTP(fact)
    requires fact.OnFQDN? ==> inRule.fqdns == []
    ensures RuleSays(MergedRule(ex, inRule, replaceHTTP), fact) <==> RuleSays(ex, fact) || RuleSays(inRule, fact)
  {
    match fact
    case OnICMP(f) => MergedICMPSays(ex.icmps, inRule.icmps, f);
    case OnFQDN(_) =>
    case _ => MergedPortsSay(ex.toPorts, inRule.toPorts, replaceHTTP, fact);
  }

  lemma RulesAppend(a: seq<Rule>, b: seq<Rule>, peer: Peer, fact: Fact)
    ensures RulesSay(a + b, peer, fact) <==> RulesSay(a, peer, fact) || RulesSay(b, peer, fact)
  {
    assert forall r :: r in a + b <==> r in a || r in b;
  }

  lemma OneRuleSays(r: Rule, peer: Peer, fact: Fact)
    ensures RulesSay([r], peer, fact) <==> r.peer == peer && RuleSays(r, fact)
  {
    assert r in [r];
  }

  lemma {:induction false} MergeIntoSays(rules: seq<Rule>, inRule: Rule, replaceHTTP: bool, peer: Peer, fact: Fact)
    requires !replaceHTTP || !IsHTTP(fact)
    requires fact.OnFQDN? ==> inRule.fqdns == []
    ensures RulesSay(MergeInto(rules, inRule, replaceHTTP), peer, fact) <==>
            RulesSay(rules, peer, fact) || (inRule.peer == peer && RuleSays(inRule, fact))
  {
    OneRuleSays(inRule, peer, fact);
    if rules != [] {
      var first, rest := rules[0], rules[1..];
      assert rules == [first] + rest;
      RulesAppend([first], rest, peer, fact);
      OneRuleSays(first, peer, fact);
      if RulesMatch(first, inRule) {
        var m := MergedRule(first, inRule, replaceHTTP);
        MergedRuleSays(first, inRule, replaceHTTP, fact);
        RulesAppend([m], rest, peer, fact);
        OneRuleSays(m, peer, fact);
      } else {
        MergeIntoSays(rest, inRule, replaceHTTP, peer, fact);
        RulesAppend([first], MergeInto(rest, inRule, replaceHTTP), peer, fact);
      }
    }
  }

  ghost predicate NoFqdns(rules: seq<Rule>)
  {
    forall r :: r in rules ==> r.fqdns == []
  }

  lemma {:induction false} MergeAllSays(existing: seq<Rule>, incoming: seq<Rule>, replaceHTTP: bool, peer: Peer, fact: Fact)
    requires !replaceHTTP || !IsHTTP(fact)
    requires fact.OnFQDN? ==> NoFqdns(incoming)
    ensures RulesSay(MergeAll(existing, incoming, replaceHTTP), peer, fact) <==>
            RulesSay(existing, peer, fact) || RulesSay(incoming, peer, fact)
  {
    if incoming != [] {
      var front, last := incoming[..|incoming| - 1], incoming[|incoming| - 1];
      assert incoming == front + [last];
      MergeAllSays(existing, front, replaceHTTP, peer, fact);
      MergeIntoSays(MergeAll(existing, front, replaceHTTP), last, replaceHTTP, peer, fact);
      RulesAppend(front, [last], peer, fact);
      OneRuleSays(last, peer, fact);
    }
  }

  ghost predicate PolicyNoFqdns(p: Policy)
  {
    p.spec.Some? ==> NoFqdns(p.spec.value.ingress) && NoFqdns(p.spec.value.egress)
  }

  /** Union mode: the merged policy says exactly what either side says. */
  lemma MergeIsUnion(existing: Policy, incoming: Policy, e: Entry)
    requires e.fact.OnFQDN? ==> PolicyNoFqdns(incoming)
    ensures Says(Merged(existing, incoming, false), e) <==> Says(existing, e) || Says(incoming, e)
  {
    if existing.spec.Some? && incoming.spec.Some? {
      if e.dir == Ingress {
        MergeAllSays(existing.spec.value.ingress, incoming.spec.value.ingress, false, e.peer, e.fact);
      } else {
        MergeAllSays(existing.spec.value.egress, incoming.spec.value.egress, false, e.peer, e.fact);
      }
    }
  }

  // ---- Replace mode ------------------------------------------------------------------------

  /** The HTTP list in force for pp after a run of port rules that replace one another. */
  function LastHTTP(prs: seq<PortRule>, pp: PortProto, start: seq<HTTPRule>): seq<HTTPRule>
  {
    if prs == [] then start
    else
      var last := prs[|prs| - 1];
      if pp in last.ports && HTTPOf(last.rules) != [] then HTTPOf(last.rules)
      else LastHTTP(prs[..|prs| - 1], pp, start)
  }

  function BucketHTTP(b: Buckets, pp: PortProto): seq<HTTPRule>
  {
    if pp in b.rules then HTTPOf(b.rules[pp]) else []
  }

  lemma {:induction false} ConsumePortsReplaces(b: Buckets, ports: seq<PortProto>, rules: Option<L7Rules>, pp: PortProto)
    ensures BucketHTTP(ConsumePorts(b, ports, rules, true), pp)
         == if pp in ports && HTTPOf(rules) != [] then HTTPOf(rules) else BucketHTTP(b, pp)
  {
    if ports != [] {
      var front, last := ports[..|ports| - 1], ports[|ports| - 1];
      assert ports == front + [last];
      ConsumePortsReplaces(b, front, rules, pp);
      var c := ConsumePorts(b, front, rules, true);
      MergedL7Members(if last in c.rules then c.rules[last] else None, rules, true);
    }
  }

  lemma {:induction false} ConsumeReplaces(b: Buckets, prs: seq<PortRule>, pp: PortProto)
    ensures BucketHTTP(Consume(b, prs, true), pp) == LastHTTP(prs, pp, BucketHTTP(b, pp))
  {
    if prs != [] {
      var front, last := prs[..|prs| - 1], prs[|prs| - 1];
      ConsumeReplaces(b, front, pp);
      ConsumePortsReplaces(Consume(b, front, true), last.ports, last.rules, pp);
    }
  }

  /** No port carries HTTP rules in two places. */
  ghost predicate HTTPOnce(prs: seq<PortRule>)
  {
    forall i, j, pp :: 0 <= i < j < |prs| && pp in prs[i].ports && pp in prs[j].ports ==>
      HTTPOf(prs[i].rules) == [] || HTTPOf(prs[j].rules) == []
  }

  ghost predicate AnyHTTP(prs: seq<PortRule>, pp: PortProto)
  {
    exists h :: HTTPSays(prs, pp, h)
  }

  lemma {:induction false} LastHTTPIsTheOne(prs: seq<PortRule>, pp: PortProto, start: seq<HTTPRule>)
    requires HTTPOnce(prs)
    ensures AnyHTTP(prs, pp) ==> forall h :: h in LastHTTP(prs, pp, start) <==> HTTPSays(prs, pp, h)
    ensures !AnyHTTP(prs, pp) ==> LastHTTP(prs, pp, start) == start
  {
    if prs != [] {
      var front, last := prs[..|prs| - 1], prs[|prs| - 1];
      assert prs == front + [last];
      LastHTTPIsTheOne(front, pp, start);
      forall h ensures HTTPSays(prs, pp, h) <==> HTTPSays(front, pp, h) || (pp in last.ports && h in HTTPOf(last.rules)) {
        PortRulesAppend(front, [last], OnHTTP(pp, h));
        OnePortRuleSays(last, OnHTTP(pp, h));
      }
      if pp in last.ports && HTTPOf(last.rules) != [] {
        assert HTTPSays(prs, pp, HTTPOf(last.rules)[0]);
        forall h ensures !HTTPSays(front, pp, h) {
          forall pr | pr in front && pp in pr.ports ensures HTTPOf(pr.rules) == [] {
            var i :| 0 <= i < |front| && front[i] == pr;
            assert prs[i] == pr && prs[|prs| - 1] == last;
          }
        }
      }
    }
  }

  lemma ReplacedPortsSay(existing: seq<PortRule>, incoming: seq<PortRule>, pp: PortProto, h: HTTPRule)
    requires HTTPOnce(existing) && HTTPOnce(incoming)
    ensures HTTPSays(MergedPorts(existing, incoming, true), pp, h) <==>
            if AnyHTTP(incoming, pp) then HTTPSays(incoming, pp, h) else HTTPSays(existing, pp, h)
  {
    if existing == [] || incoming == [] {
    } else if !CarriesL7(existing) && !CarriesL7(incoming) {
      NoL7NoFacts(existing, OnHTTP(pp, h));
      forall k ensures !HTTPSays(incoming, pp, k) { NoL7NoFacts(incoming, OnHTTP(pp, k)); }
      var ports := AppendNew(AppendNew([], AllPorts(existing)), AllPorts(incoming));
      OnePortRuleSays(PortRule(ports, None), OnHTTP(pp, h));
    } else {
      var b := Consume(NO_BUCKETS, existing, true);
      ConsumeReplaces(NO_BUCKETS, existing, pp);
      ConsumeReplaces(b, incoming, pp);
      LastHTTPIsTheOne(existing, pp, []);
      LastHTTPIsTheOne(incoming, pp, BucketHTTP(b, pp));
      ListBucketsSay(MergedBuckets(existing, incoming, true), OnHTTP(pp, h));
    }
  }

  lemma MergedPortsHTTPOnce(existing: seq<PortRule>, incoming: seq<PortRule>, replaceHTTP: bool)
    requires HTTPOnce(existing) && HTTPOnce(incoming)
    ensures HTTPOnce(MergedPorts(existing, incoming, replaceHTTP))
  {
  }

  /**
   What replace mode relies on, and builder and merge keep: HTTP rules sit in the first rule of their
   peer and type, once per port, and ICMP rules carry no ports.
   */
  ghost predicate Regular(rules: seq<Rule>)
  {
    && (forall i, j :: 0 <= i < j < |rules| && RulesMatch(rules[i], rules[j]) ==> NoHTTPRule(rules[j]))
    && (forall r :: r in rules ==> RegularRule(r))
  }

  ghost predicate RegularRule(r: Rule)
  {
    (r.icmps != [] ==> r.toPorts == []) && HTTPOnce(r.toPorts)
  }

  ghost predicate NoHTTPRule(r: Rule)
  {
    forall pp, h :: !HTTPSays(r.toPorts, pp, h)
  }

  lemma RegularCons(first: Rule, rest: seq<Rule>)
    requires RegularRule(first) && Regular(rest)
    requires forall x :: x in rest && RulesMatch(first, x) ==> NoHTTPRule(x)
    ensures Regular([first] + rest)
  {
  }

  lemma RegularSplit(rules: seq<Rule>)
    requires Regular(rules) && rules != []
    ensures RegularRule(rules[0]) && Regular(rules[1..])
    ensures forall x :: x in rules[1..] && RulesMatch(rules[0], x) ==> NoHTTPRule(x)
  {
    forall x | x in rules[1..] && RulesMatch(rules[0], x) ensures NoHTTPRule(x) {
      var k :| 0 <= k < |rules[1..]| && rules[1..][k] == x;
      assert rules[k + 1] == x;
    }
    assert rules[0] in rules;
  }

  lemma {:induction false} MergeIntoRegular(rules: seq<Rule>, inRule: Rule, replaceHTTP: bool)
    requires Regular(rules) && RegularRule(inRule)
    ensures Regular(MergeInto(rules, inRule, replaceHTTP))
  {
    if rules != [] {
      var first, rest := rules[0], rules[1..];
      RegularSplit(rules);
      if RulesMatch(first, inRule) {
        MergedPortsHTTPOnce(first.toPorts, inRule.toPorts, replaceHTTP);
        RegularCons(MergedRule(first, inRule, replaceHTTP), rest);
      } else {
        MergeIntoRegular(rest, inRule, replaceHTTP);
        forall x | x in MergeInto(rest, inRule, replaceHTTP) && RulesMatch(first, x) ensures NoHTTPRule(x) {
          UntouchedByMerge(rest, inRule, replaceHTTP, x);
        }
        RegularCons(first, MergeInto(rest, inRule, replaceHTTP));
      }
    }
  }

  /** A merge only touches rules that match the incoming one. */
  lemma {:induction false} UntouchedByMerge(rules: seq<Rule>, inRule: Rule, replaceHTTP: bool, r: Rule)
    requires r in MergeInto(rules, inRule, replaceHTTP) && !RulesMatch(r, inRule)
    ensures r in rules
  {
    if rules != [] {
      assert rules == [rules[0]] + rules[1..];
      if !RulesMatch(rules[0], inRule) && r != rules[0] {
        UntouchedByMerge(rules[1..], inRule, replaceHTTP, r);
      }
    }
  }

  /** Merging regular rules gives regular rules. */
  lemma {:induction false} MergeAllRegular(existing: seq<Rule>, incoming: seq<Rule>, replaceHTTP: bool)
    requires Regular(existing) && forall r :: r in incoming ==> RegularRule(r)
    ensures Regular(MergeAll(existing, incoming, replaceHTTP))
  {
    if incoming != [] {
      MergeAllRegular(existing, incoming[..|incoming| - 1], replaceHTTP);
      MergeIntoRegular(MergeAll(existing, incoming[..|incoming| - 1], replaceHTTP), incoming[|incoming| - 1], replaceHTTP);
    }
  }

  /** Some HTTP entry for this peer and port. */
  ghost predicate RulesHTTP(rules: seq<Rule>, peer: Peer, pp: PortProto)
  {
    exists h :: RulesSay(rules, peer, OnHTTP(pp, h))
  }

  lemma {:induction false} MergeIntoReplaces(rules: seq<Rule>, inRule: Rule, peer: Peer, pp: PortProto, h: HTTPRule)
    requires Regular(rules) && RegularRule(inRule)
    ensures RulesSay(MergeInto(rules, inRule, true), peer, OnHTTP(pp, h)) <==>
            if inRule.peer == peer && AnyHTTP(inRule.toPorts, pp) then HTTPSays(inRule.toPorts, pp, h)
            else RulesSay(rules, peer, OnHTTP(pp, h))
  {
    OneRuleSays(inRule, peer, OnHTTP(pp, h));
    if rules != [] {
      var fact := OnHTTP(pp, h);
      var first, rest := rules[0], rules[1..];
      assert rules == [first] + rest;
      RegularSplit(rules);
      RulesAppend([first], rest, peer, fact);
      OneRuleSays(first, peer, fact);
      if RulesMatch(first, inRule) {
        var m := MergedRule(first, inRule, true);
        ReplacedPortsSay(first.toPorts, inRule.toPorts, pp, h);
        RulesAppend([m], rest, peer, fact);
        OneRuleSays(m, peer, fact);
        OnlyFirstSaysHTTP(first, rest, peer, pp, h);
      } else {
        MergeIntoReplaces(rest, inRule, peer, pp, h);
        RulesAppend([first], MergeInto(rest, inRule, true), peer, fact);
        if first.peer == peer && inRule.peer == peer {
          assert first.icmps != [] ==> first.toPorts == [];
          assert inRule.icmps != [] ==> inRule.toPorts == [];
          assert first.icmps != [] || inRule.icmps != [];
        }
      }
    }
  }

  /** Behind the first port rule of a peer, no rule says HTTP for that peer. */
  lemma OnlyFirstSaysHTTP(first: Rule, rest: seq<Rule>, peer: Peer, pp: PortProto, h: HTTPRule)
    requires RegularRule(first) && Regular(rest)
    requires forall x :: x in rest && RulesMatch(first, x) ==> NoHTTPRule(x)
    ensures first.peer == peer && first.icmps == [] ==> !RulesSay(rest, peer, OnHTTP(pp, h))
  {
    forall q | q in rest && q.peer == first.peer && first.icmps == [] ensures !HTTPSays(q.toPorts, pp, h) {
      assert RegularRule(q);
    }
  }

  /** Replace mode: a peer's HTTP list for a port is the incoming one when there is one. */
  lemma {:induction false} MergeAllReplaces(existing: seq<Rule>, incoming: seq<Rule>, peer: Peer, pp: PortProto, h: HTTPRule)
    requires Regular(existing) && Regular(incoming)
    ensures RulesSay(MergeAll(existing, incoming, true), peer, OnHTTP(pp, h)) <==>
            if RulesHTTP(incoming, peer, pp) then RulesSay(incoming, peer, OnHTTP(pp, h))
            else RulesSay(existing, peer, OnHTTP(pp, h))
  {
    if incoming == [] {
      assert !RulesHTTP(incoming, peer, pp);
    } else {
      var front, last := incoming[..|incoming| - 1], incoming[|incoming| - 1];
      assert incoming == front + [last];
      assert last in incoming && Regular(front);
      MergeAllRegular(existing, front, true);
      MergeAllReplaces(existing, front, peer, pp, h);
      MergeIntoReplaces(MergeAll(existing, front, true), last, peer, pp, h);
      LastRuleHTTP(front, last, peer, pp);
    }
  }

  /** The HTTP entries of a regular list, by its last rule. */
  lemma LastRuleHTTP(front: seq<Rule>, last: Rule, peer: Peer, pp: PortProto)
    requires Regular(front + [last]) && RegularRule(last)
    ensures RulesHTTP(front + [last], peer, pp) <==> RulesHTTP(front, peer, pp) || (last.peer == peer && AnyHTTP(last.toPorts, pp))
    ensures forall k :: RulesSay(front + [last], peer, OnHTTP(pp, k)) <==>
              if last.peer == peer && AnyHTTP(last.toPorts, pp) then HTTPSays(last.toPorts, pp, k)
              else RulesSay(front, peer, OnHTTP(pp, k))
  {
    forall k ensures RulesSay(front + [last], peer, OnHTTP(pp, k)) <==>
                     RulesSay(front, peer, OnHTTP(pp, k)) || (last.peer == peer && HTTPSays(last.toPorts, pp, k)) {
      RulesAppend(front, [last], peer, OnHTTP(pp, k));
      OneRuleSays(last, peer, OnHTTP(pp, k));
    }
    if last.peer == peer && AnyHTTP(last.toPorts, pp) {
      forall k ensures !RulesSay(front, peer, OnHTTP(pp, k)) {
        LastSaysAlone(front, last, peer, pp, k);
      }
    }
  }

  /** When the last rule of a regular list says HTTP, no earlier rule of that peer does. */
  lemma LastSaysAlone(front: seq<Rule>, last: Rule, peer: Peer, pp: PortProto, k: HTTPRule)
    requires Regular(front + [last]) && last.peer == peer && last.icmps == [] && AnyHTTP(last.toPorts, pp)
    ensures !RulesSay(front, peer, OnHTTP(pp, k))
  {
    var all := front + [last];
    forall q | q in front && q.peer == peer ensures !HTTPSays(q.toPorts, pp, k) {
      var i :| 0 <= i < |front| && front[i] == q;
      assert all[i] == q && all[|front|] == last && q in all;
      assert RegularRule(q);
      assert q.icmps == [] ==> RulesMatch(all[i], all[|front|]);
      assert !NoHTTPRule(last);
    }
  }

  ghost predicate RegularPolicy(p: Policy)
  {
    p.spec.Some? && Regular(p.spec.value.ingress) && Regular(p.spec.value.egress)
  }

  function RulesOf(p: Policy, dir: Dir): seq<Rule>
  {
    if p.spec.None? then [] else if dir == Ingress then p.spec.value.ingress else p.spec.value.egress
  }

  lemma MergeKeepsRegular(existing: Policy, incoming: Policy, replaceHTTP: bool)
    requires RegularPolicy(existing) && RegularPolicy(incoming)
    ensures RegularPolicy(Merged(existing, incoming, replaceHTTP))
  {
    MergeAllRegular(existing.spec.value.ingress, incoming.spec.value.ingress, replaceHTTP);
    MergeAllRegular(existing.spec.value.egress, incoming.spec.value.egress, replaceHTTP);
  }

  /** What replace mode leaves: incoming HTTP lists win per peer and port, everything else unions. */
  ghost predicate ReplacedSays(existing: Policy, incoming: Policy, e: Entry)
  {
    if IsHTTP(e.fact) && RulesHTTP(RulesOf(incoming, e.dir), e.peer, e.fact.pp) then Says(incoming, e)
    else Says(existing, e) || Says(incoming, e)
  }

  lemma MergeReplaceExact(existing: Policy, incoming: Policy, e: Entry)
    requires RegularPolicy(existing) && RegularPolicy(incoming)
    requires e.fact.OnFQDN? ==> PolicyNoFqdns(incoming)
    ensures Says(Merged(existing, incoming, true), e) <==> ReplacedSays(existing, incoming, e)
  {
    var ex, inc := RulesOf(existing, e.dir), RulesOf(incoming, e.dir);
    match e.fact
    case OnHTTP(pp, h) => MergeAllReplaces(ex, inc, e.peer, pp, h);
    case _ => MergeAllSays(ex, inc, true, e.peer, e.fact);
  }

  /** Merging the same event a second time changes no entry, in either mode. */
  lemma MergeIdempotent(existing: Policy, incoming: Policy, replaceHTTP: bool)
    requires replaceHTTP ==> RegularPolicy(existing) && RegularPolicy(incoming)
    ensures SameMeaning(Merged(Merged(existing, incoming, replaceHTTP), incoming, replaceHTTP),
                        Merged(existing, incoming, replaceHTTP))
  {
    var once := Merged(existing, incoming, replaceHTTP);
    forall e ensures Says(Merged(once, incoming, replaceHTTP), e) <==> Says(once, e) {
      if e.fact.OnFQDN? {
        NamesTwice(existing, incoming, replaceHTTP, e);
      } else if replaceHTTP {
        MergeKeepsRegular(existing, incoming, true);
        MergeReplaceExact(existing, incoming, e);
        MergeReplaceExact(once, incoming, e);
      } else {
        MergeIsUnion(existing, incoming, e);
        MergeIsUnion(once, incoming, e);
      }
    }
  }

  lemma NamesTwice(existing: Policy, incoming: Policy, replaceHTTP: bool, e: Entry)
    requires e.fact.OnFQDN?
    ensures Says(Merged(Merged(existing, incoming, replaceHTTP), incoming, replaceHTTP), e) <==> Says(Merged(existing, incoming, replaceHTTP), e)
  {
    var ex, inc := RulesOf(existing, e.dir), RulesOf(incoming, e.dir);
    if incoming.spec.Some? && existing.spec.Some? {
      MergedNamesTwice(ex, inc, replaceHTTP, e.peer, e.fact.name);
    } else if incoming.spec.Some? {
      MergedNamesOnItself(inc, replaceHTTP, e.peer, e.fact.name);
    }
  }

  // ---- Positions ---------------------------------------------------------------------------

  ghost predicate SamePlace(a: Rule, b: Rule)
  {
    RulesMatch(a, b) && a.fqdns == b.fqdns
  }

  lemma {:induction false} MergeIntoKeepsPlaces(rules: seq<Rule>, inRule: Rule, replaceHTTP: bool)
    ensures var r := MergeInto(rules, inRule, replaceHTTP);
            |rules| <= |r| <= |rules| + 1 && forall i :: 0 <= i < |rules| ==> SamePlace(r[i], rules[i])
  {
    if rules != [] && !RulesMatch(rules[0], inRule) {
      MergeIntoKeepsPlaces(rules[1..], inRule, replaceHTTP);
    }
  }

  /** Every rule on file keeps its position, peer, type and toFQDNs; new rules come after. */
  lemma {:induction false} MergeKeepsPlaces(existing: seq<Rule>, incoming: seq<Rule>, replaceHTTP: bool)
    ensures var r := MergeAll(existing, incoming, replaceHTTP);
            |existing| <= |r| <= |existing| + |incoming|
            && forall i :: 0 <= i < |existing| ==> SamePlace(r[i], existing[i])
  {
    if incoming != [] {
      var front := incoming[..|incoming| - 1];
      MergeKeepsPlaces(existing, front, replaceHTTP);
      var mid := MergeAll(existing, front, replaceHTTP);
      MergeIntoKeepsPlaces(mid, incoming[|incoming| - 1], replaceHTTP);
      forall i | 0 <= i < |existing| ensures SamePlace(MergeAll(existing, incoming, replaceHTTP)[i], existing[i]) {
        assert SamePlace(mid[i], existing[i]);
      }
    }
  }
}
