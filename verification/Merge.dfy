/**
 Merging an incoming policy into the one on file (pkg/policy/merge.go): the loops of the code, the
 folds they compute, and what the merged policy says.
 */
module Merge {
  import opened PolicyTypes

  // ---- Lists without repetition -----------------------------------------------------------

  /** a followed by the elements of b not seen before, first observation first. */
  function AppendNew<T(==)>(a: seq<T>, b: seq<T>): seq<T>
  {
    if b == [] then a
    else
      var r := AppendNew(a, b[..|b| - 1]);
      var x := b[|b| - 1];
      if x in r then r else r + [x]
  }

  lemma {:induction false} AppendNewMembers<T>(a: seq<T>, b: seq<T>)
    ensures forall x :: x in AppendNew(a, b) <==> x in a || x in b
    ensures a <= AppendNew(a, b)
  {
    if b != [] {
      AppendNewMembers(a, b[..|b| - 1]);
      assert b == b[..|b| - 1] + [b[|b| - 1]];
    }
  }

  method AppendUnseen<T(==)>(a: seq<T>, b: seq<T>) returns (r: seq<T>)
    ensures r == AppendNew(a, b)
  {
    r := a;
    var seen := set x | x in a;
    for i := 0 to |b|
      invariant r == AppendNew(a, b[..i])
      invariant seen == set x | x in r
    {
      assert b[..i + 1][..i] == b[..i];
      if b[i] !in seen {
        seen := seen + {b[i]};
        r := r + [b[i]];
      }
    }
    assert b[..|b|] == b;
  }

  // ---- L7 rules of one port ---------------------------------------------------------------

  function MergedL7(a: Option<L7Rules>, b: Option<L7Rules>, replaceHTTP: bool): Option<L7Rules>
  {
    if a.None? then b
    else if b.None? then a
    else
      var http :=
        if b.value.http == [] then a.value.http
        else if replaceHTTP then b.value.http
        else AppendNew(a.value.http, b.value.http);
      Some(L7Rules(http, AppendNew(a.value.dns, b.value.dns)))
  }

  method MergeL7Rules(a: Option<L7Rules>, b: Option<L7Rules>, replaceHTTP: bool) returns (r: Option<L7Rules>)
    ensures r == MergedL7(a, b, replaceHTTP)
  {
    if a.None? { return b; }
    if b.None? { return a; }
    var out := a.value;
    if |b.value.http| > 0 {
      if replaceHTTP {
        out := out.(http := b.value.http);
      } else {
        var http := AppendUnseen(out.http, b.value.http);
        out := out.(http := http);
      }
    }
    if |b.value.dns| > 0 {
      var dns := AppendUnseen(out.dns, b.value.dns);
      out := out.(dns := dns);
    }
    return Some(out);
  }

  function HTTPOf(r: Option<L7Rules>): seq<HTTPRule> { if r.None? then [] else r.value.http }

  function DNSOf(r: Option<L7Rules>): seq<DNSRule> { if r.None? then [] else r.value.dns }

  lemma MergedL7Members(a: Option<L7Rules>, b: Option<L7Rules>, replaceHTTP: bool)
    ensures var r := MergedL7(a, b, replaceHTTP);
            && (forall d :: d in DNSOf(r) <==> d in DNSOf(a) || d in DNSOf(b))
            && (!replaceHTTP ==> forall h :: h in HTTPOf(r) <==> h in HTTPOf(a) || h in HTTPOf(b))
            && (replaceHTTP ==> HTTPOf(r) == if HTTPOf(b) == [] then HTTPOf(a) else HTTPOf(b))
  {
    AppendNewMembers(DNSOf(a), DNSOf(b));
    AppendNewMembers(HTTPOf(a), HTTPOf(b));
  }

  // ---- Port rules -------------------------------------------------------------------------

  /** The (port, protocol) buckets of a merge and the order they were first seen in. */
  datatype Buckets = Buckets(rules: map<PortProto, Option<L7Rules>>, order: seq<PortProto>)

  function ConsumePort(b: Buckets, pp: PortProto, rules: Option<L7Rules>, replaceHTTP: bool): Buckets
  {
    var base := if pp in b.rules then b else Buckets(b.rules[pp := None], b.order + [pp]);
    if rules.None? then base
    else Buckets(base.rules[pp := MergedL7(base.rules[pp], rules, replaceHTTP)], base.order)
  }

  function ConsumePorts(b: Buckets, ports: seq<PortProto>, rules: Option<L7Rules>, replaceHTTP: bool): Buckets
  {
    if ports == [] then b
    else ConsumePort(ConsumePorts(b, ports[..|ports| - 1], rules, replaceHTTP), ports[|ports| - 1], rules, replaceHTTP)
  }

  function Consume(b: Buckets, prs: seq<PortRule>, replaceHTTP: bool): Buckets
  {
    if prs == [] then b
    else
      var last := prs[|prs| - 1];
      ConsumePorts(Consume(b, prs[..|prs| - 1], replaceHTTP), last.ports, last.rules, replaceHTTP)
  }

  ghost predicate Ordered(b: Buckets)
  {
    && (forall pp :: pp in b.order <==> pp in b.rules)
    && (forall i, j :: 0 <= i < j < |b.order| ==> b.order[i] != b.order[j])
  }

  function ListBuckets(b: Buckets): (r: seq<PortRule>)
    requires forall pp :: pp in b.order ==> pp in b.rules
    ensures |r| == |b.order|
  {
    seq(|b.order|, i requires 0 <= i < |b.order| => PortRule([b.order[i]], b.rules[b.order[i]]))
  }

  predicate CarriesL7(prs: seq<PortRule>)
  {
    exists i :: 0 <= i < |prs| && prs[i].rules.Some?
  }

  function AllPorts(prs: seq<PortRule>): seq<PortProto>
  {
    if prs == [] then [] else AllPorts(prs[..|prs| - 1]) + prs[|prs| - 1].ports
  }

  const NO_BUCKETS := Buckets(map[], [])

  lemma {:induction false} ConsumePortsOrdered(b: Buckets, ports: seq<PortProto>, rules: Option<L7Rules>, replaceHTTP: bool)
    requires Ordered(b)
    ensures Ordered(ConsumePorts(b, ports, rules, replaceHTTP))
  {
    if ports != [] {
      ConsumePortsOrdered(b, ports[..|ports| - 1], rules, replaceHTTP);
      ConsumePortOrdered(ConsumePorts(b, ports[..|ports| - 1], rules, replaceHTTP), ports[|ports| - 1], rules, replaceHTTP);
    }
  }

  lemma ConsumePortOrdered(b: Buckets, pp: PortProto, rules: Option<L7Rules>, replaceHTTP: bool)
    requires Ordered(b)
    ensures Ordered(ConsumePort(b, pp, rules, replaceHTTP))
  {
    if pp !in b.rules {
      assert forall q :: q in b.order + [pp] <==> q in b.order || q == pp;
      assert pp !in b.order;
    }
  }

  lemma {:induction false} ConsumeOrdered(b: Buckets, prs: seq<PortRule>, replaceHTTP: bool)
    requires Ordered(b)
    ensures Ordered(Consume(b, prs, replaceHTTP))
  {
    if prs != [] {
      ConsumeOrdered(b, prs[..|prs| - 1], replaceHTTP);
      var last := prs[|prs| - 1];
      ConsumePortsOrdered(Consume(b, prs[..|prs| - 1], replaceHTTP), last.ports, last.rules, replaceHTTP);
    }
  }

  function MergedBuckets(existing: seq<PortRule>, incoming: seq<PortRule>, replaceHTTP: bool): (b: Buckets)
    ensures Ordered(b)
  {
    ConsumeOrdered(NO_BUCKETS, existing, replaceHTTP);
    ConsumeOrdered(Consume(NO_BUCKETS, existing, replaceHTTP), incoming, replaceHTTP);
    Consume(Consume(NO_BUCKETS, existing, replaceHTTP), incoming, replaceHTTP)
  }

  function MergedPorts(existing: seq<PortRule>, incoming: seq<PortRule>, replaceHTTP: bool): seq<PortRule>
  {
    if existing == [] then incoming
    else if incoming == [] then existing
    else if !CarriesL7(existing) && !CarriesL7(incoming) then
      [PortRule(AppendNew(AppendNew([], AllPorts(existing)), AllPorts(incoming)), None)]
    else
      ListBuckets(MergedBuckets(existing, incoming, replaceHTTP))
  }

  method ConsumeRules(b: Buckets, prs: seq<PortRule>, replaceHTTP: bool) returns (r: Buckets)
    ensures r == Consume(b, prs, replaceHTTP)
  {
    r := b;
    for i := 0 to |prs|
      invariant r == Consume(b, prs[..i], replaceHTTP)
    {
      assert prs[..i + 1][..i] == prs[..i];
      var pr, start := prs[i], r;
      for j := 0 to |pr.ports|
        invariant r == ConsumePorts(start, pr.ports[..j], pr.rules, replaceHTTP)
      {
        assert pr.ports[..j + 1][..j] == pr.ports[..j];
        var p := pr.ports[j];
        if p !in r.rules {
          r := Buckets(r.rules[p := None], r.order + [p]);
        }
        if pr.rules.Some? {
          var merged := MergeL7Rules(r.rules[p], pr.rules, replaceHTTP);
          r := r.(rules := r.rules[p := merged]);
        }
      }
      assert pr.ports[..|pr.ports|] == pr.ports;
    }
    assert prs[..|prs|] == prs;
  }

  lemma {:induction false} AppendNewTwice<T>(a: seq<T>, b: seq<T>, c: seq<T>)
    ensures AppendNew(AppendNew(a, b), c) == AppendNew(a, b + c)
  {
    if c == [] {
      assert b + c == b;
    } else {
      AppendNewTwice(a, b, c[..|c| - 1]);
      assert (b + c)[..|b + c| - 1] == b + c[..|c| - 1];
    }
  }

  /** The L4-only path: one port rule listing every port once. */
  method MergePortLists(existing: seq<PortRule>, incoming: seq<PortRule>) returns (ports: seq<PortProto>)
    ensures ports == AppendNew(AppendNew([], AllPorts(existing)), AllPorts(incoming))
  {
    ports := [];
    for i := 0 to |existing|
      invariant ports == AppendNew([], AllPorts(existing[..i]))
    {
      assert existing[..i + 1][..i] == existing[..i];
      AppendNewTwice([], AllPorts(existing[..i]), existing[i].ports);
      ports := AppendUnseen(ports, existing[i].ports);
    }
    assert existing[..|existing|] == existing;
    var base := ports;
    for i := 0 to |incoming|
      invariant ports == AppendNew(base, AllPorts(incoming[..i]))
    {
      assert incoming[..i + 1][..i] == incoming[..i];
      AppendNewTwice(base, AllPorts(incoming[..i]), incoming[i].ports);
      ports := AppendUnseen(ports, incoming[i].ports);
    }
    assert incoming[..|incoming|] == incoming;
  }

  method MergePortRules(existing: seq<PortRule>, incoming: seq<PortRule>, replaceHTTP: bool) returns (r: seq<PortRule>)
    ensures r == MergedPorts(existing, incoming, replaceHTTP)
  {
    if |existing| == 0 { return incoming; }
    if |incoming| == 0 { return existing; }
    if !CarriesL7(existing) && !CarriesL7(incoming) {
      var ports := MergePortLists(existing, incoming);
      return [PortRule(ports, None)];
    }
    var b := ConsumeRules(NO_BUCKETS, existing, replaceHTTP);
    b := ConsumeRules(b, incoming, replaceHTTP);
    r := [];
    ghost var whole := MergedBuckets(existing, incoming, replaceHTTP);
    for i := 0 to |b.order|
      invariant |r| == i && forall j :: 0 <= j < i ==> r[j] == PortRule([b.order[j]], b.rules[b.order[j]])
    {
      assert b.order[i] in b.order;
      r := r + [PortRule([b.order[i]], b.rules[b.order[i]])];
    }
  }

  // ---- ICMP rules -------------------------------------------------------------------------

  function AllFields(icmps: seq<seq<ICMPField>>): seq<ICMPField>
  {
    if icmps == [] then [] else AllFields(icmps[..|icmps| - 1]) + icmps[|icmps| - 1]
  }

  function MergedICMP(existing: seq<seq<ICMPField>>, incoming: seq<seq<ICMPField>>): seq<seq<ICMPField>>
  {
    if existing == [] then incoming
    else if incoming == [] then existing
    else [AppendNew(AppendNew([], AllFields(existing)), AllFields(incoming))]
  }

  method MergeICMPRules(existing: seq<seq<ICMPField>>, incoming: seq<seq<ICMPField>>) returns (r: seq<seq<ICMPField>>)
    ensures r == MergedICMP(existing, incoming)
  {
    if |existing| == 0 { return incoming; }
    if |incoming| == 0 { return existing; }
    var fields: seq<ICMPField> := [];
    for i := 0 to |existing|
      invariant fields == AppendNew([], AllFields(existing[..i]))
    {
      assert existing[..i + 1][..i] == existing[..i];
      AppendNewTwice([], AllFields(existing[..i]), existing[i]);
      fields := AppendUnseen(fields, existing[i]);
    }
    assert existing[..|existing|] == existing;
    var base := fields;
    for i := 0 to |incoming|
      invariant fields == AppendNew(base, AllFields(incoming[..i]))
    {
      assert incoming[..i + 1][..i] == incoming[..i];
      AppendNewTwice(base, AllFields(incoming[..i]), incoming[i]);
      fields := AppendUnseen(fields, incoming[i]);
    }
    assert incoming[..|incoming|] == incoming;
    return [fields];
  }

  // ---- Rules and policies -----------------------------------------------------------------

  /** Same peer and same rule type; toFQDNs is not compared. */
  predicate RulesMatch(a: Rule, b: Rule)
  {
    a.peer == b.peer && ((|a.icmps| > 0) == (|b.icmps| > 0))
  }

  function MergedRule(ex: Rule, inRule: Rule, replaceHTTP: bool): Rule
  {
    ex.(toPorts := MergedPorts(ex.toPorts, inRule.toPorts, replaceHTTP), icmps := MergedICMP(ex.icmps, inRule.icmps))
  }

  /** Merge into the first matching rule, else append. */
  function MergeInto(rules: seq<Rule>, inRule: Rule, replaceHTTP: bool): seq<Rule>
  {
    if rules == [] then [inRule]
    else if RulesMatch(rules[0], inRule) then [MergedRule(rules[0], inRule, replaceHTTP)] + rules[1..]
    else [rules[0]] + MergeInto(rules[1..], inRule, replaceHTTP)
  }

  function MergeAll(existing: seq<Rule>, incoming: seq<Rule>, replaceHTTP: bool): seq<Rule>
  {
    if incoming == [] then existing
    else MergeInto(MergeAll(existing, incoming[..|incoming| - 1], replaceHTTP), incoming[|incoming| - 1], replaceHTTP)
  }

  function Merged(existing: Policy, incoming: Policy, replaceHTTP: bool): Policy
  {
    if incoming.spec.None? then existing
    else if existing.spec.None? then existing.(spec := incoming.spec)
    else
      var ex, inc := existing.spec.value, incoming.spec.value;
      existing.(spec := Some(ex.(
        ingress := MergeAll(ex.ingress, inc.ingress, replaceHTTP),
        egress := MergeAll(ex.egress, inc.egress, replaceHTTP))))
  }

  /** The file a write leaves: the event merged into what is there, or the event itself. */
  function FileWith(files: map<Name, Policy>, name: Name, p: Policy, replaceHTTP: bool): Policy
  {
    if name in files then Merged(files[name], p, replaceHTTP) else p
  }

  lemma {:induction false} MergeIntoAt(rules: seq<Rule>, inRule: Rule, replaceHTTP: bool, i: nat)
    requires i <= |rules| && forall j :: 0 <= j < i ==> !RulesMatch(rules[j], inRule)
    ensures i == |rules| ==> MergeInto(rules, inRule, replaceHTTP) == rules + [inRule]
    ensures i < |rules| && RulesMatch(rules[i], inRule) ==>
              MergeInto(rules, inRule, replaceHTTP) == rules[i := MergedRule(rules[i], inRule, replaceHTTP)]
  {
    if rules != [] && i > 0 {
      assert forall j :: 0 <= j < i - 1 ==> rules[1..][j] == rules[j + 1];
      MergeIntoAt(rules[1..], inRule, replaceHTTP, i - 1);
      assert rules == [rules[0]] + rules[1..];
    }
  }

  method MergeDirection(existing: seq<Rule>, incoming: seq<Rule>, replaceHTTP: bool) returns (result: seq<Rule>)
    ensures result == MergeAll(existing, incoming, replaceHTTP)
  {
    result := existing;
    for k := 0 to |incoming|
      invariant result == MergeAll(existing, incoming[..k], replaceHTTP)
    {
      assert incoming[..k + 1][..k] == incoming[..k];
      var inRule, merged, i := incoming[k], false, 0;
      ghost var before := result;
      while i < |result|
        invariant 0 <= i <= |result| && !merged && result == before
        invariant forall j :: 0 <= j < i ==> !RulesMatch(result[j], inRule)
      {
        if RulesMatch(result[i], inRule) {
          MergeIntoAt(result, inRule, replaceHTTP, i);
          var ports := MergePortRules(result[i].toPorts, inRule.toPorts, replaceHTTP);
          var icmps := MergeICMPRules(result[i].icmps, inRule.icmps);
          result := result[i := result[i].(toPorts := ports, icmps := icmps)];
          merged := true;
          break;
        }
        i := i + 1;
      }
      if !merged {
        MergeIntoAt(result, inRule, replaceHTTP, i);
        result := result + [inRule];
      }
    }
    assert incoming[..|incoming|] == incoming;
  }

  method MergePolicyWithOptions(existing: Policy, incoming: Policy, replaceHTTP: bool) returns (result: Policy)
    ensures result == Merged(existing, incoming, replaceHTTP)
  {
    result := existing;
    if incoming.spec.None? { return; }
    if result.spec.None? {
      result := result.(spec := incoming.spec);
      return;
    }
    var ingress := MergeDirection(result.spec.value.ingress, incoming.spec.value.ingress, replaceHTTP);
    var egress := MergeDirection(result.spec.value.egress, incoming.spec.value.egress, replaceHTTP);
    result := result.(spec := Some(result.spec.value.(ingress := ingress, egress := egress)));
  }
}
