/**
 When the comparison of pkg/policy/dedup.go forgets order and when it does not. Stable sorting keeps
 tied elements in their order, the keys leave match expressions out, DNS entries are sorted by name
 alone and the list of port rules is not sorted at all: each of these can make two policies that
 differ in order only compare as different.
 */
module DedupOrder {
  import opened PolicyTypes
  import opened Sorting
  import opened Text
  import opened CollapseEngine
  import opened Dedup

  lemma DNSOrder()
    ensures TotalPreorder(DNSLe)
  {
    LexOrder();
  }

  lemma NameTies(a: DNSRule, b: DNSRule)
    ensures DNSLe(a, b) && DNSLe(b, a) <==> a.matchName == b.matchName
  {
    LexTotal(a.matchName, b.matchName);
  }

  lemma KeyTies(r: Rule, q: Rule, text: LabelText)
    ensures ByKey(text)(r, q) && ByKey(text)(q, r) <==> RuleKey(r, text) == RuleKey(q, text)
  {
    LexTotal(RuleKey(r, text), RuleKey(q, text));
  }

  // ---- Equal normal forms -----------------------------------------------------------------------

  /** The same ports and HTTP rules in any order, and for each name the same DNS entries in the same order. */
  ghost predicate PortsAlike(a: PortRule, b: PortRule)
  {
    && multiset(a.ports) == multiset(b.ports)
    && (a.rules.Some? <==> b.rules.Some?)
    && (a.rules.Some? ==>
          && multiset(a.rules.value.http) == multiset(b.rules.value.http)
          && SameTies(a.rules.value.dns, b.rules.value.dns, DNSLe))
  }

  lemma SamePorts(a: seq<PortProto>, b: seq<PortProto>)
    ensures Sort(a, PortLe) == Sort(b, PortLe) <==> multiset(a) == multiset(b)
  {
    PortOrder();
    SameSortBags(a, b, PortLe);
  }

  lemma SameHTTP(a: seq<HTTPRule>, b: seq<HTTPRule>)
    ensures Sort(a, RuleLe) == Sort(b, RuleLe) <==> multiset(a) == multiset(b)
  {
    RuleOrder();
    forall x, y | RuleLe(x, y) && RuleLe(y, x) ensures x == y {
      LexTotal(x.verb, y.verb);
      LexTotal(x.path, y.path);
    }
    SameSortBags(a, b, RuleLe);
  }

  lemma NormalPortExactly(a: PortRule, b: PortRule)
    ensures NormalPort(a) == NormalPort(b) <==> PortsAlike(a, b)
  {
    SamePorts(a.ports, b.ports);
    if a.rules.Some? && b.rules.Some? {
      SameHTTP(a.rules.value.http, b.rules.value.http);
      DNSOrder();
      SameSortExactly(a.rules.value.dns, b.rules.value.dns, DNSLe);
    }
  }

  /** Port rules are compared place by place. */
  ghost predicate RulesAlike(r: Rule, q: Rule)
  {
    && r.peer == q.peer && r.fqdns == q.fqdns && r.icmps == q.icmps && |r.toPorts| == |q.toPorts|
    && forall i :: 0 <= i < |r.toPorts| ==> PortsAlike(r.toPorts[i], q.toPorts[i])
  }

  lemma NormalRuleExactly(r: Rule, q: Rule)
    ensures NormalRule(r) == NormalRule(q) <==> RulesAlike(r, q)
  {
    var x, y := NormalRule(r).toPorts, NormalRule(q).toPorts;
    if |x| == |y| {
      forall i | 0 <= i < |x| ensures x[i] == y[i] <==> PortsAlike(r.toPorts[i], q.toPorts[i]) {
        NormalPortExactly(r.toPorts[i], q.toPorts[i]);
      }
      if RulesAlike(r, q) { assert x == y; }
    }
  }

  /**
   Two policies are found equivalent exactly when they select the same pods and, direction by
   direction and key by key, have the same normalized rules in the same order.
   */
  lemma EquivalentExactly(a: Policy, b: Policy, text: LabelText)
    ensures Equivalent(a, b, text) <==>
            && (a.spec.Some? <==> b.spec.Some?)
            && (a.spec.Some? ==>
                  && a.spec.value.subject == b.spec.value.subject
                  && SameTies(NormalEach(a.spec.value.ingress), NormalEach(b.spec.value.ingress), ByKey(text))
                  && SameTies(NormalEach(a.spec.value.egress), NormalEach(b.spec.value.egress), ByKey(text)))
  {
    if a.spec.Some? && b.spec.Some? {
      KeyOrder(text);
      SameSortExactly(NormalEach(a.spec.value.ingress), NormalEach(b.spec.value.ingress), ByKey(text));
      SameSortExactly(NormalEach(a.spec.value.egress), NormalEach(b.spec.value.egress), ByKey(text));
    }
  }

  // ---- Rearrangements ---------------------------------------------------------------------------

  ghost predicate PortRearranged(p: PortRule, q: PortRule)
  {
    && multiset(p.ports) == multiset(q.ports)
    && (p.rules.Some? <==> q.rules.Some?)
    && (p.rules.Some? ==> multiset(p.rules.value.http) == multiset(q.rules.value.http)
                          && multiset(p.rules.value.dns) == multiset(q.rules.value.dns))
  }

  ghost predicate EachPort(x: seq<PortRule>, z: seq<PortRule>)
  {
    |x| == |z| && forall i :: 0 <= i < |x| ==> PortRearranged(x[i], z[i])
  }

  ghost predicate PortsRearranged(x: seq<PortRule>, y: seq<PortRule>)
  {
    exists z :: EachPort(x, z) && multiset(z) == multiset(y)
  }

  /** The same rule up to the order of its port rules and, inside each, of ports and L7 entries. */
  ghost predicate RuleRearranged(r: Rule, q: Rule)
  {
    r.peer == q.peer && r.fqdns == q.fqdns && r.icmps == q.icmps && PortsRearranged(r.toPorts, q.toPorts)
  }

  ghost predicate EachRule(x: seq<Rule>, z: seq<Rule>)
  {
    |x| == |z| && forall i :: 0 <= i < |x| ==> RuleRearranged(x[i], z[i])
  }

  ghost predicate RulesRearranged(x: seq<Rule>, y: seq<Rule>)
  {
    exists z :: EachRule(x, z) && multiset(z) == multiset(y)
  }

  /** b is a in another order: of its rules, their port rules, and the ports and L7 entries of those. */
  ghost predicate Rearranged(a: Policy, b: Policy)
  {
    && a.spec.Some? && b.spec.Some? && a.spec.value.subject == b.spec.value.subject
    && RulesRearranged(a.spec.value.ingress, b.spec.value.ingress)
    && RulesRearranged(a.spec.value.egress, b.spec.value.egress)
  }

  lemma SamePortsRearranged(x: seq<PortRule>)
    ensures PortsRearranged(x, x)
  {
    assert EachPort(x, x);
  }

  lemma SameRulesRearranged(x: seq<Rule>)
    ensures RulesRearranged(x, x)
  {
    forall i | 0 <= i < |x| ensures RuleRearranged(x[i], x[i]) { SamePortsRearranged(x[i].toPorts); }
    assert EachRule(x, x);
  }

  lemma SameMembers<T>(s: seq<T>, t: seq<T>)
    requires multiset(s) == multiset(t)
    ensures |s| == |t| && forall x :: x in s <==> x in t
  {
    assert |s| == |multiset(s)| == |multiset(t)| == |t|;
    forall x ensures x in s <==> x in t { assert x in s <==> x in multiset(s); assert x in t <==> x in multiset(t); }
  }

  // ---- Rearranging changes no entry -------------------------------------------------------------

  lemma PortRearrangedSays(p: PortRule, q: PortRule, fact: Fact)
    requires PortRearranged(p, q)
    ensures PortRulesSay([p], fact) <==> PortRulesSay([q], fact)
  {
    SameMembers(p.ports, q.ports);
    if p.rules.Some? {
      SameMembers(p.rules.value.http, q.rules.value.http);
      SameMembers(p.rules.value.dns, q.rules.value.dns);
    }
    assert p in [p] && q in [q];
  }

  lemma PortsRearrangedSay(x: seq<PortRule>, y: seq<PortRule>, fact: Fact)
    requires PortsRearranged(x, y)
    ensures PortRulesSay(x, fact) <==> PortRulesSay(y, fact)
  {
    var z :| EachPort(x, z) && multiset(z) == multiset(y);
    SameMembers(z, y);
    SomePortRule(x, fact);
    SomePortRule(y, fact);
    if i :| 0 <= i < |x| && PortRulesSay([x[i]], fact) {
      PortRearrangedSays(x[i], z[i], fact);
      assert z[i] in y;
      var j :| 0 <= j < |y| && y[j] == z[i];
    }
    if j :| 0 <= j < |y| && PortRulesSay([y[j]], fact) {
      assert y[j] in z;
      var i :| 0 <= i < |z| && z[i] == y[j];
      PortRearrangedSays(x[i], z[i], fact);
    }
  }

  lemma RuleRearrangedSays(r: Rule, q: Rule, fact: Fact)
    requires RuleRearranged(r, q)
    ensures RuleSays(r, fact) <==> RuleSays(q, fact)
  {
    PortsRearrangedSay(r.toPorts, q.toPorts, fact);
  }

  lemma RulesRearrangedSay(x: seq<Rule>, y: seq<Rule>, peer: Peer, fact: Fact)
    requires RulesRearranged(x, y)
    ensures RulesSay(x, peer, fact) <==> RulesSay(y, peer, fact)
  {
    var z :| EachRule(x, z) && multiset(z) == multiset(y);
    SameMembers(z, y);
    if RulesSay(x, peer, fact) {
      var r :| r in x && r.peer == peer && RuleSays(r, fact);
      var i :| 0 <= i < |x| && x[i] == r;
      RuleRearrangedSays(x[i], z[i], fact);
      assert z[i] in y;
    }
    if RulesSay(y, peer, fact) {
      var q :| q in y && q.peer == peer && RuleSays(q, fact);
      var i :| 0 <= i < |z| && z[i] == q;
      RuleRearrangedSays(x[i], z[i], fact);
      assert x[i] in x;
    }
  }

  /** A rearranged policy has the same entries. */
  lemma RearrangedSameMeaning(a: Policy, b: Policy)
    requires Rearranged(a, b)
    ensures SameMeaning(a, b)
  {
    forall e ensures Says(a, e) <==> Says(b, e) {
      RulesRearrangedSay(a.spec.value.ingress, b.spec.value.ingress, e.peer, e.fact);
      RulesRearrangedSay(a.spec.value.egress, b.spec.value.egress, e.peer, e.fact);
    }
  }

  // ---- When no rearrangement is told apart ------------------------------------------------------

  /** Different DNS entries of the port rule have different names. */
  predicate NamesApart(p: PortRule)
  {
    p.rules.Some? ==>
      forall d, e :: d in p.rules.value.dns && e in p.rules.value.dns && d.matchName == e.matchName ==> d == e
  }

  /** All port rules of the rule are alike, so their order cannot be seen, and names tell DNS entries apart. */
  ghost predicate PortsFree(r: Rule)
  {
    && (forall p :: p in r.toPorts ==> NamesApart(p))
    && (forall p, q :: p in r.toPorts && q in r.toPorts ==> PortsAlike(p, q))
  }

  /** Rules with the same key are the same rule. */
  ghost predicate KeysSeparate(rules: seq<Rule>, text: LabelText)
  {
    forall i, j :: 0 <= i < j < |rules| && RuleKey(rules[i], text) == RuleKey(rules[j], text) ==> rules[i] == rules[j]
  }

  ghost predicate OrderFree(rules: seq<Rule>, text: LabelText)
  {
    (forall r :: r in rules ==> PortsFree(r)) && KeysSeparate(NormalEach(rules), text)
  }

  lemma PortRearrangedNormal(p: PortRule, q: PortRule)
    requires PortRearranged(p, q) && NamesApart(p)
    ensures NormalPort(p) == NormalPort(q)
  {
    SamePorts(p.ports, q.ports);
    if p.rules.Some? {
      SameHTTP(p.rules.value.http, q.rules.value.http);
      DNSOrder();
      forall d, e | d in p.rules.value.dns && e in p.rules.value.dns && DNSLe(d, e) && DNSLe(e, d) ensures d == e { NameTies(d, e); }
      SameSortBags(p.rules.value.dns, q.rules.value.dns, DNSLe);
    }
  }

  lemma PortPlaceFree(r: Rule, z: seq<PortRule>, p: PortRule, own: PortRule)
    requires EachPort(r.toPorts, z) && p in z && own in r.toPorts && PortsFree(r)
    ensures PortsAlike(own, p)
  {
    var m :| 0 <= m < |z| && z[m] == p;
    var x := r.toPorts[m];
    assert x in r.toPorts;
    PortRearrangedNormal(x, p);
    NormalPortExactly(x, own);
    NormalPortExactly(own, p);
  }

  lemma RuleRearrangedNormal(r: Rule, q: Rule)
    requires RuleRearranged(r, q) && PortsFree(r)
    ensures NormalRule(r) == NormalRule(q)
  {
    var z :| EachPort(r.toPorts, z) && multiset(z) == multiset(q.toPorts);
    SameMembers(z, q.toPorts);
    forall k | 0 <= k < |q.toPorts| ensures PortsAlike(r.toPorts[k], q.toPorts[k]) {
      PortPlaceFree(r, z, q.toPorts[k], r.toPorts[k]);
    }
    NormalRuleExactly(r, q);
  }

  lemma DropBag<T>(s: seq<T>, j: nat)
    requires j < |s|
    ensures multiset(s[..j] + s[j + 1..]) == multiset(s) - multiset{s[j]}
  {
    assert s == s[..j] + [s[j]] + s[j + 1..];
  }

  lemma AddBag<T>(u: seq<T>, i: nat, v: seq<T>, j: nat)
    requires i < |u| && j < |v| && u[i] == v[j]
    requires multiset(u[..i] + u[i + 1..]) == multiset(v[..j] + v[j + 1..])
    ensures multiset(u) == multiset(v)
  {
    DropBag(u, i);
    DropBag(v, j);
    assert u[i] in u && v[j] in v;
    assert u[i] in multiset(u) && v[j] in multiset(v);
    assert multiset(u) == multiset(u) - multiset{u[i]} + multiset{u[i]};
    assert multiset(v) == multiset(v) - multiset{v[j]} + multiset{v[j]};
  }

  lemma NormalEachDrop(x: seq<Rule>, j: nat)
    requires j < |x|
    ensures NormalEach(x[..j] + x[j + 1..]) == NormalEach(x)[..j] + NormalEach(x)[j + 1..]
  {
  }

  lemma {:induction false} NormalEachBag(x: seq<Rule>, y: seq<Rule>)
    requires multiset(x) == multiset(y)
    ensures multiset(NormalEach(x)) == multiset(NormalEach(y))
    decreases |x|
  {
    SameMembers(x, y);
    if x != [] {
      var n := |x| - 1;
      assert x[n] in y;
      var j :| 0 <= j < |y| && y[j] == x[n];
      var front, rest := x[..n] + x[n + 1..], y[..j] + y[j + 1..];
      DropBag(x, n);
      DropBag(y, j);
      NormalEachBag(front, rest);
      NormalEachDrop(x, n);
      NormalEachDrop(y, j);
      AddBag(NormalEach(x), n, NormalEach(y), j);
    }
  }

  lemma SeparateTies(n: seq<Rule>, text: LabelText)
    requires KeysSeparate(n, text)
    ensures forall r, q :: r in n && q in n && ByKey(text)(r, q) && ByKey(text)(q, r) ==> r == q
  {
    forall r, q | r in n && q in n && ByKey(text)(r, q) && ByKey(text)(q, r) ensures r == q {
      KeyTies(r, q, text);
      var i :| 0 <= i < |n| && n[i] == r;
      var j :| 0 <= j < |n| && n[j] == q;
      if i < j { assert RuleKey(n[i], text) == RuleKey(n[j], text); }
      if j < i { assert RuleKey(n[j], text) == RuleKey(n[i], text); }
    }
  }

  lemma EachRuleNormal(x: seq<Rule>, z: seq<Rule>)
    requires EachRule(x, z) && forall r :: r in x ==> PortsFree(r)
    ensures NormalEach(x) == NormalEach(z)
  {
    forall i | 0 <= i < |x| ensures NormalRule(x[i]) == NormalRule(z[i]) { RuleRearrangedNormal(x[i], z[i]); }
  }

  lemma RulesRearrangedNormal(x: seq<Rule>, y: seq<Rule>, text: LabelText)
    requires RulesRearranged(x, y) && OrderFree(x, text)
    ensures NormalRules(x, text) == NormalRules(y, text)
  {
    var z :| EachRule(x, z) && multiset(z) == multiset(y);
    EachRuleNormal(x, z);
    NormalEachBag(z, y);
    KeyOrder(text);
    SeparateTies(NormalEach(x), text);
    SameSortBags(NormalEach(x), NormalEach(y), ByKey(text));
  }

  // ---- When one is ------------------------------------------------------------------------------

  lemma SwapBag<T>(s: seq<T>, i: nat, j: nat)
    requires i < j < |s|
    ensures multiset(s[i := s[j]][j := s[i]]) == multiset(s)
  {
  }

  /** Changing the normal form of one rule is seen. */
  lemma OneChanged(rules: seq<Rule>, i: nat, q: Rule, text: LabelText)
    requires i < |rules| && RuleRearranged(rules[i], q) && NormalRule(q) != NormalRule(rules[i])
    ensures RulesRearranged(rules, rules[i := q]) && NormalRules(rules, text) != NormalRules(rules[i := q], text)
  {
    OneRuleRearranged(rules, i, q);
    var x, y := NormalEach(rules), NormalEach(rules[i := q]);
    assert y == x[i := NormalRule(q)];
    OtherBag(x, i, NormalRule(q));
    SortPermutes(x, ByKey(text));
    SortPermutes(y, ByKey(text));
  }

  lemma OneRuleRearranged(rules: seq<Rule>, i: nat, q: Rule)
    requires i < |rules| && RuleRearranged(rules[i], q)
    ensures RulesRearranged(rules, rules[i := q])
  {
    forall k | 0 <= k < |rules| ensures RuleRearranged(rules[k], rules[k]) { SamePortsRearranged(rules[k].toPorts); }
    assert EachRule(rules, rules[i := q]);
  }

  lemma OtherBag<T>(s: seq<T>, i: nat, y: T)
    requires i < |s| && y != s[i]
    ensures multiset(s[i := y]) != multiset(s)
  {
    assert multiset(s[i := y])[s[i]] == multiset(s)[s[i]] - 1;
  }

  lemma SwappedRearranged(rules: seq<Rule>, i: nat, j: nat)
    requires i < j < |rules|
    ensures RulesRearranged(rules, rules[i := rules[j]][j := rules[i]])
  {
    SwapBag(rules, i, j);
    forall k | 0 <= k < |rules| ensures RuleRearranged(rules[k], rules[k]) { SamePortsRearranged(rules[k].toPorts); }
    assert EachRule(rules, rules);
  }

  /** Two different rules with the same key are seen when they change places. */
  lemma TiedSeen(rules: seq<Rule>, i: nat, j: nat, text: LabelText)
    requires i < j < |rules|
    requires var n := NormalEach(rules); RuleKey(n[i], text) == RuleKey(n[j], text) && n[i] != n[j]
    ensures NormalRules(rules, text) != NormalRules(rules[i := rules[j]][j := rules[i]], text)
  {
    var n := NormalEach(rules);
    KeyOrder(text);
    KeyTies(n[i], n[j], text);
    assert NormalEach(rules[i := rules[j]][j := rules[i]]) == n[i := n[j]][j := n[i]];
    SwappedTies(n, i, j, ByKey(text));
  }

  /** A rule two of whose port rules differ, or two of whose DNS entries share a name. */
  lemma PortsSeen(r: Rule) returns (q: Rule)
    requires !PortsFree(r)
    ensures RuleRearranged(r, q) && NormalRule(q) != NormalRule(r)
  {
    if p :| p in r.toPorts && !NamesApart(p) {
      var u :| 0 <= u < |r.toPorts| && r.toPorts[u] == p;
      var s := DNSSeen(p);
      var prs := r.toPorts[u := s];
      q := r.(toPorts := prs);
      assert forall i :: 0 <= i < |prs| ==> PortRearranged(r.toPorts[i], prs[i]);
      assert EachPort(r.toPorts, prs);
      assert NormalRule(q).toPorts[u] == NormalPort(s) && NormalRule(r).toPorts[u] == NormalPort(p);
    } else {
      var a, b :| a in r.toPorts && b in r.toPorts && !PortsAlike(a, b);
      NormalPortExactly(a, b);
      var u, v :| 0 <= u < |r.toPorts| && 0 <= v < |r.toPorts| && r.toPorts[u] == a && r.toPorts[v] == b;
      var i, j := if u < v then u else v, if u < v then v else u;
      var prs := r.toPorts[i := r.toPorts[j]][j := r.toPorts[i]];
      SwapBag(r.toPorts, i, j);
      q := r.(toPorts := prs);
      assert EachPort(r.toPorts, r.toPorts);
      assert NormalRule(q).toPorts[i] == NormalPort(r.toPorts[j]) && NormalRule(r).toPorts[i] == NormalPort(r.toPorts[i]);
    }
  }

  lemma DNSSeen(p: PortRule) returns (q: PortRule)
    requires !NamesApart(p)
    ensures PortRearranged(p, q) && NormalPort(q) != NormalPort(p)
  {
    var dns := p.rules.value.dns;
    var d, e :| d in dns && e in dns && d.matchName == e.matchName && d != e;
    var u, v :| 0 <= u < |dns| && 0 <= v < |dns| && dns[u] == d && dns[v] == e;
    var i, j := if u < v then u else v, if u < v then v else u;
    DNSOrder();
    NameTies(d, e);
    SwappedTies(dns, i, j, DNSLe);
    q := p.(rules := Some(L7Rules(p.rules.value.http, dns[i := dns[j]][j := dns[i]])));
  }

  /** Where order can be seen at all, some rearrangement shows it. */
  lemma OrderSeen(rules: seq<Rule>, text: LabelText) returns (y: seq<Rule>)
    requires !OrderFree(rules, text)
    ensures RulesRearranged(rules, y) && NormalRules(rules, text) != NormalRules(y, text)
  {
    if r :| r in rules && !PortsFree(r) {
      var i :| 0 <= i < |rules| && rules[i] == r;
      var q := PortsSeen(r);
      OneChanged(rules, i, q, text);
      y := rules[i := q];
    } else {
      var n := NormalEach(rules);
      var i, j :| 0 <= i < j < |n| && RuleKey(n[i], text) == RuleKey(n[j], text) && n[i] != n[j];
      y := rules[i := rules[j]][j := rules[i]];
      SwappedRearranged(rules, i, j);
      TiedSeen(rules, i, j, text);
    }
  }

  /**
   Every rearrangement of a policy is found equivalent to it exactly when, in both directions, rules
   whose normalized forms share a key are the same, all port rules of a rule are alike, and
   different DNS entries of a port rule have different names.
   */
  lemma OrderForgottenIff(a: Policy, text: LabelText)
    requires a.spec.Some?
    ensures (forall b :: Rearranged(a, b) ==> Equivalent(a, b, text))
       <==> OrderFree(a.spec.value.ingress, text) && OrderFree(a.spec.value.egress, text)
  {
    var s := a.spec.value;
    if OrderFree(s.ingress, text) && OrderFree(s.egress, text) {
      forall b | Rearranged(a, b) ensures Equivalent(a, b, text) {
        RulesRearrangedNormal(s.ingress, b.spec.value.ingress, text);
        RulesRearrangedNormal(s.egress, b.spec.value.egress, text);
      }
    } else if !OrderFree(s.ingress, text) {
      var y := OrderSeen(s.ingress, text);
      SameRulesRearranged(s.egress);
      var b := a.(spec := Some(s.(ingress := y)));
      assert Rearranged(a, b) && !Equivalent(a, b, text);
    } else {
      var y := OrderSeen(s.egress, text);
      SameRulesRearranged(s.ingress);
      var b := a.(spec := Some(s.(egress := y)));
      assert Rearranged(a, b) && !Equivalent(a, b, text);
    }
  }

  // ---- Three inputs -----------------------------------------------------------------------------

  function WithEgress(rules: seq<Rule>): Policy { Policy("p", "n", Some(Spec(map[], [], rules))) }

  /** The two policies have the same entries, differ in order only, and are not found equivalent. */
  ghost predicate ToldApart(x: seq<Rule>, y: seq<Rule>, text: LabelText)
  {
    var a, b := WithEgress(x), WithEgress(y);
    Rearranged(a, b) && SameMeaning(a, b) && !Equivalent(a, b, text)
  }

  lemma EgressToldApart(x: seq<Rule>, y: seq<Rule>, text: LabelText)
    requires RulesRearranged(x, y) && NormalRules(x, text) != NormalRules(y, text)
    ensures ToldApart(x, y, text)
  {
    SameRulesRearranged([]);
    RearrangedSameMeaning(WithEgress(x), WithEgress(y));
  }

  lemma OneToldApart(r: Rule, q: Rule, text: LabelText)
    requires RuleRearranged(r, q) && NormalRule(r) != NormalRule(q)
    ensures ToldApart([r], [q], text)
  {
    assert [r][0 := q] == [q];
    OneChanged([r], 0, q, text);
    EgressToldApart([r], [q], text);
  }

  function HTTPOn(port: string): PortRule { PortRule([PortProto(port, "TCP")], Some(L7Rules([HTTPRule("GET", "^/$")], []))) }

  function ToWorld(prs: seq<PortRule>): Rule { Rule(Peer([], ["world"], []), [], prs, []) }

  /** The port rules of a rule are compared in their order: two ports with HTTP lists, as a build emits them. */
  lemma PortRulesKeepOrder(text: LabelText)
    ensures ToldApart([ToWorld([HTTPOn("80"), HTTPOn("81")])], [ToWorld([HTTPOn("81"), HTTPOn("80")])], text)
  {
    var a, b := HTTPOn("80"), HTTPOn("81");
    DifferentPorts();
    SwappedPorts(a, b, text);
  }

  lemma DifferentPorts()
    ensures !PortsAlike(HTTPOn("80"), HTTPOn("81"))
  {
    var p := PortProto("80", "TCP");
    assert "80"[1] != "81"[1];
    assert multiset([p])[p] == 1 && multiset([PortProto("81", "TCP")])[p] == 0;
  }

  lemma SwappedPorts(a: PortRule, b: PortRule, text: LabelText)
    requires !PortsAlike(a, b)
    ensures ToldApart([ToWorld([a, b])], [ToWorld([b, a])], text)
  {
    var r, q := ToWorld([a, b]), ToWorld([b, a]);
    assert EachPort([a, b], [a, b]) && multiset([a, b]) == multiset([b, a]);
    assert r.toPorts[0] == a && q.toPorts[0] == b;
    NormalRuleExactly(r, q);
    OneToldApart(r, q, text);
  }

  function DNSTo(dns: seq<DNSRule>): Rule
  {
    Rule(Peer([], [], []), [], [PortRule([PortProto("53", "UDP")], Some(L7Rules([], dns)))], [])
  }

  /** DNS entries are sorted by name alone: two patterns keep the order they came in. */
  lemma PatternsKeepOrder(text: LabelText)
    ensures ToldApart([DNSTo([DNSRule("", "*.a"), DNSRule("", "*.b")])], [DNSTo([DNSRule("", "*.b"), DNSRule("", "*.a")])], text)
  {
    var d, e := DNSRule("", "*.a"), DNSRule("", "*.b");
    assert d != e by { assert d.matchPattern[2] != e.matchPattern[2]; }
    SwappedDNS(d, e, text);
  }

  lemma SwappedDNS(d: DNSRule, e: DNSRule, text: LabelText)
    requires d != e && d.matchName == e.matchName
    ensures ToldApart([DNSTo([d, e])], [DNSTo([e, d])], text)
  {
    var r, q := DNSTo([d, e]), DNSTo([e, d]);
    var x, y := r.toPorts[0], q.toPorts[0];
    SwappedDNSSeen(d, e, x, y);
    assert EachPort(r.toPorts, q.toPorts);
    assert NormalRule(r).toPorts[0] == NormalPort(x) && NormalRule(q).toPorts[0] == NormalPort(y);
    OneToldApart(r, q, text);
  }

  lemma SwappedDNSSeen(d: DNSRule, e: DNSRule, x: PortRule, y: PortRule)
    requires d != e && d.matchName == e.matchName
    requires x.ports == y.ports && x.rules == Some(L7Rules([], [d, e])) && y.rules == Some(L7Rules([], [e, d]))
    ensures PortRearranged(x, y) && NormalPort(x) != NormalPort(y)
  {
    DNSOrder();
    NameTies(d, e);
    var dns := [d, e];
    assert dns[0 := dns[1]][1 := dns[0]] == [e, d];
    SwappedTies(dns, 0, 1, DNSLe);
  }

  function ToPods(exprs: seq<Requirement>): Rule { Rule(Peer([Selector(map[], exprs)], [], []), [], [], []) }

  /**
   Keys leave match expressions out, so two rules that differ only there keep their input order and
   the same two rules in the other order are not found equivalent.
   */
  lemma TiedKeysKeepOrder(text: LabelText)
    ensures var r, q := ToPods([Requirement("app", "In", [])]), ToPods([]); ToldApart([r, q], [q, r], text)
  {
    var r, q := ToPods([Requirement("app", "In", [])]), ToPods([]);
    assert r != q by { assert r.peer.endpoints[0].exprs != q.peer.endpoints[0].exprs; }
    assert RuleKey(r, text) == RuleKey(q, text) by {
      assert Each(r.peer.endpoints, (s: Selector) => "ep:" + text(s.labels)) == Each(q.peer.endpoints, (s: Selector) => "ep:" + text(s.labels));
      assert KeyParts(r, text) == KeyParts(q, text);
    }
    assert NormalRule(r) == r && NormalRule(q) == q;
    SwappedRules(r, q, text);
  }

  lemma SwappedRules(r: Rule, q: Rule, text: LabelText)
    requires NormalRule(r) == r && NormalRule(q) == q && r != q && RuleKey(r, text) == RuleKey(q, text)
    ensures ToldApart([r, q], [q, r], text)
  {
    var rules := [r, q];
    Swapped(rules, r, q);
    SwappedRearranged(rules, 0, 1);
    TiedSeen(rules, 0, 1, text);
    EgressToldApart([r, q], [q, r], text);
  }

  lemma Swapped(rules: seq<Rule>, r: Rule, q: Rule)
    requires rules == [r, q] && NormalRule(r) == r && NormalRule(q) == q
    ensures rules[0 := rules[1]][1 := rules[0]] == [q, r] && NormalEach(rules) == rules
  {
  }
}
