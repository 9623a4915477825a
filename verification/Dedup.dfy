/**
 Comparing two policies up to order (pkg/policy/dedup.go): ports, L7 lists and rules are sorted and
 the results compared. Serialization is modelled as an injective function, so comparing text is
 comparing the normalized specs.
 */
module Dedup {
  import opened PolicyTypes
  import opened Sorting
  import opened Text
  import Merge
  import opened MergeMeaning
  import opened CollapseEngine
  import Builder

  // ---- Sort orders ----------------------------------------------------------------------------

  predicate PortLe(a: PortProto, b: PortProto)
  {
    if a.port != b.port then LexLe(a.port, b.port) else LexLe(a.proto, b.proto)
  }

  predicate DNSLe(a: DNSRule, b: DNSRule) { LexLe(a.matchName, b.matchName) }

  lemma PortOrder()
    ensures TotalPreorder(PortLe)
    ensures forall a, b :: PortLe(a, b) && PortLe(b, a) ==> a == b
  {
    forall x, y ensures (PortLe(x, y) || PortLe(y, x)) && (PortLe(x, y) && PortLe(y, x) ==> x == y) {
      LexTotal(x.port, y.port);
      LexTotal(x.proto, y.proto);
    }
    forall x, y, z | PortLe(x, y) && PortLe(y, z) ensures PortLe(x, z) {
      if x.port == y.port == z.port {
        LexTransitive(x.proto, y.proto, z.proto);
      } else if x.port != y.port && y.port != z.port {
        LexTransitive(x.port, y.port, z.port);
        LexTotal(x.port, y.port);
      }
    }
  }

  // ---- Rule keys ------------------------------------------------------------------------------

  /** The text of a selector's match labels within a key; match expressions are not part of it. */
  type LabelText = map<string, string> -> string

  function Number(n: int): string
  {
    if n < 0 then "-" + Builder.Decimal(-n) else Builder.Decimal(n)
  }

  function FieldKey(f: ICMPField): string
  {
    f.family + "/" + (if f.typ.Some? then Number(f.typ.value) else "*")
  }

  function Each<T>(s: seq<T>, text: T -> string): (r: seq<string>)
    ensures |r| == |s|
  {
    seq(|s|, i requires 0 <= i < |s| => text(s[i]))
  }

  function L7Parts(rules: Option<L7Rules>): seq<string>
  {
    if rules.None? then []
    else
      Each(rules.value.http, (h: HTTPRule) => "http:" + h.verb + "|" + h.path + "|||")
      + Each(rules.value.dns, (d: DNSRule) => "dns:" + d.matchName + "|" + d.matchPattern)
  }

  function PortParts(prs: seq<PortRule>): seq<string>
  {
    if prs == [] then []
    else
      var pr := prs[|prs| - 1];
      PortParts(prs[..|prs| - 1]) + Each(pr.ports, (p: PortProto) => "port:" + p.port + "/" + p.proto) + L7Parts(pr.rules)
  }

  function ICMPParts(icmps: seq<seq<ICMPField>>): seq<string>
  {
    if icmps == [] then []
    else ICMPParts(icmps[..|icmps| - 1]) + Each(icmps[|icmps| - 1], (f: ICMPField) => "icmp:" + FieldKey(f))
  }

  function KeyParts(r: Rule, text: LabelText): seq<string>
  {
    Each(r.peer.endpoints, (s: Selector) => "ep:" + text(s.labels))
    + Each(r.peer.cidrs, (c: string) => "cidr:" + c)
    + Each(r.peer.entities, (e: string) => "entity:" + e)
    + Each(r.fqdns, (d: DNSRule) => "fqdn:" + d.matchName + "|" + d.matchPattern)
    + PortParts(r.toPorts) + ICMPParts(r.icmps)
  }

  function RuleKey(r: Rule, text: LabelText): string
  {
    var parts := Sort(KeyParts(r, text), LexLe);
    if parts == [] then "[]" else "[" + Join(parts, ' ') + "]"
  }

  function ByKey(text: LabelText): (Rule, Rule) -> bool
  {
    (a: Rule, b: Rule) => LexLe(RuleKey(a, text), RuleKey(b, text))
  }

  lemma KeyOrder(text: LabelText)
    ensures TotalPreorder(ByKey(text))
  {
    LexOrder();
  }

  // ---- Normal form ----------------------------------------------------------------------------

  function NormalL7(r: L7Rules): L7Rules
  {
    L7Rules(Sort(r.http, RuleLe), Sort(r.dns, DNSLe))
  }

  function NormalPort(pr: PortRule): PortRule
  {
    PortRule(Sort(pr.ports, PortLe), if pr.rules.None? then None else Some(NormalL7(pr.rules.value)))
  }

  function NormalRule(r: Rule): Rule
  {
    r.(toPorts := seq(|r.toPorts|, i requires 0 <= i < |r.toPorts| => NormalPort(r.toPorts[i])))
  }

  function NormalEach(rules: seq<Rule>): (r: seq<Rule>)
    ensures |r| == |rules|
  {
    seq(|rules|, i requires 0 <= i < |rules| => NormalRule(rules[i]))
  }

  function NormalRules(rules: seq<Rule>, text: LabelText): seq<Rule>
  {
    Sort(NormalEach(rules), ByKey(text))
  }

  function NormalSpec(s: Spec, text: LabelText): Spec
  {
    s.(ingress := NormalRules(s.ingress, text), egress := NormalRules(s.egress, text))
  }

  predicate Equivalent(a: Policy, b: Policy, text: LabelText)
  {
    if a.spec.None? || b.spec.None? then a.spec.None? && b.spec.None?
    else NormalSpec(a.spec.value, text) == NormalSpec(b.spec.value, text)
  }

  method SortL7Rules(rules: Option<L7Rules>) returns (r: Option<L7Rules>)
    ensures r == if rules.None? then None else Some(NormalL7(rules.value))
  {
    if rules.None? { return None; }
    r := rules;
    ShortSorted(rules.value.http, RuleLe);
    ShortSorted(rules.value.dns, DNSLe);
    if |rules.value.http| > 1 {
      r := Some(r.value.(http := Sort(r.value.http, RuleLe)));
    }
    if |rules.value.dns| > 1 {
      r := Some(r.value.(dns := Sort(r.value.dns, DNSLe)));
    }
  }

  lemma ShortSorted<T>(s: seq<T>, le: (T, T) -> bool)
    ensures |s| <= 1 ==> Sort(s, le) == s
  {
    if |s| == 1 { assert s[..0] == []; }
  }

  method SortPortRules(rules: seq<Rule>) returns (out: seq<Rule>)
    ensures out == NormalEach(rules)
  {
    out := rules;
    for i := 0 to |rules|
      invariant |out| == |rules|
      invariant forall k :: 0 <= k < |rules| ==> out[k] == if k < i then NormalRule(rules[k]) else rules[k]
    {
      var prs := rules[i].toPorts;
      for j := 0 to |prs|
        invariant |prs| == |rules[i].toPorts|
        invariant forall k :: 0 <= k < |prs| ==> prs[k] == if k < j then NormalPort(rules[i].toPorts[k]) else rules[i].toPorts[k]
      {
        var l7 := SortL7Rules(prs[j].rules);
        prs := prs[j := PortRule(Sort(prs[j].ports, PortLe), l7)];
      }
      out := out[i := out[i].(toPorts := prs)];
    }
  }

  method NormalizeRule(s: Spec, text: LabelText) returns (r: Spec)
    ensures r == NormalSpec(s, text)
  {
    var ingress := SortPortRules(s.ingress);
    var egress := SortPortRules(s.egress);
    ingress := Sort(ingress, ByKey(text));
    egress := Sort(egress, ByKey(text));
    return s.(ingress := ingress, egress := egress);
  }

  method PoliciesEquivalent(a: Policy, b: Policy, text: LabelText) returns (same: bool)
    ensures same == Equivalent(a, b, text)
  {
    if a.spec.None? && b.spec.None? { return true; }
    if a.spec.None? || b.spec.None? { return false; }
    var x := NormalizeRule(a.spec.value, text);
    var y := NormalizeRule(b.spec.value, text);
    return x == y;
  }

  // ---- Soundness ------------------------------------------------------------------------------

  lemma NormalPortSays(pr: PortRule, fact: Fact)
    ensures PortRulesSay([NormalPort(pr)], fact) <==> PortRulesSay([pr], fact)
  {
    OnePortRuleSays(pr, fact);
    OnePortRuleSays(NormalPort(pr), fact);
    SortPermutes(pr.ports, PortLe);
    if pr.rules.Some? {
      SortPermutes(pr.rules.value.http, RuleLe);
      SortPermutes(pr.rules.value.dns, DNSLe);
    }
    forall pp ensures PortSays(pp, NormalPort(pr).rules, fact) <==> PortSays(pp, pr.rules, fact) {}
  }

  lemma SomePortRule(prs: seq<PortRule>, fact: Fact)
    ensures PortRulesSay(prs, fact) <==> exists i :: 0 <= i < |prs| && PortRulesSay([prs[i]], fact)
  {
    if PortRulesSay(prs, fact) {
      var pr := AskedRule(prs, fact);
      var i :| 0 <= i < |prs| && prs[i] == pr;
      assert PortRulesSay([prs[i]], fact);
    }
    forall i | 0 <= i < |prs| && PortRulesSay([prs[i]], fact) ensures PortRulesSay(prs, fact) {
      assert [prs[i]][0] in prs;
    }
  }

  /** The port rule behind a fact. */
  lemma AskedRule(prs: seq<PortRule>, fact: Fact) returns (pr: PortRule)
    requires PortRulesSay(prs, fact)
    ensures pr in prs && PortRulesSay([pr], fact)
  {
    match fact
    case OnPort(pp) => pr :| pr in prs && pp in pr.ports; assert pr in [pr];
    case OnHTTP(pp, h) => pr :| pr in prs && pp in pr.ports && pr.rules.Some? && h in pr.rules.value.http; assert pr in [pr];
    case OnDNS(pp, d) => pr :| pr in prs && pp in pr.ports && pr.rules.Some? && d in pr.rules.value.dns; assert pr in [pr];
  }

  lemma NormalRuleSays(r: Rule, fact: Fact)
    ensures RuleSays(NormalRule(r), fact) <==> RuleSays(r, fact)
  {
    if fact.OnPort? || fact.OnHTTP? || fact.OnDNS? {
      var prs, qs := r.toPorts, NormalRule(r).toPorts;
      SomePortRule(prs, fact);
      SomePortRule(qs, fact);
      forall i | 0 <= i < |prs| ensures PortRulesSay([qs[i]], fact) <==> PortRulesSay([prs[i]], fact) {
        NormalPortSays(prs[i], fact);
      }
    }
  }

  lemma NormalRulesSay(rules: seq<Rule>, text: LabelText, peer: Peer, fact: Fact)
    ensures RulesSay(NormalRules(rules, text), peer, fact) <==> RulesSay(rules, peer, fact)
  {
    var each := NormalEach(rules);
    SortPermutes(each, ByKey(text));
    if RulesSay(rules, peer, fact) {
      var r :| r in rules && r.peer == peer && RuleSays(r, fact);
      var i :| 0 <= i < |rules| && rules[i] == r;
      NormalRuleSays(r, fact);
      assert each[i] in each;
    }
    if RulesSay(each, peer, fact) {
      var q :| q in each && q.peer == peer && RuleSays(q, fact);
      var i :| 0 <= i < |each| && each[i] == q;
      NormalRuleSays(rules[i], fact);
      assert rules[i] in rules;
    }
  }

  /** Policies found equivalent say the same, whatever the label text. */
  lemma EquivalentSameMeaning(a: Policy, b: Policy, text: LabelText)
    requires Equivalent(a, b, text)
    ensures SameMeaning(a, b)
    ensures a.spec.Some? <==> b.spec.Some?
  {
    if a.spec.Some? && b.spec.Some? {
      forall e ensures Says(a, e) <==> Says(b, e) {
        var s, t := a.spec.value, b.spec.value;
        if e.dir == Ingress {
          NormalRulesSay(s.ingress, text, e.peer, e.fact);
          NormalRulesSay(t.ingress, text, e.peer, e.fact);
        } else {
          NormalRulesSay(s.egress, text, e.peer, e.fact);
          NormalRulesSay(t.egress, text, e.peer, e.fact);
        }
      }
    }
  }
}
