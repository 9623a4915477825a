/** The DNS companion rule that accompanies toFQDNs rules (pkg/policy/companion_dns.go). */
module CompanionDNS {
  import opened Text
  import opened Sorting
  import opened PolicyTypes
  import opened Merge

  const APP_KEY := "k8s-app"
  const NS_KEY := "io.kubernetes.pod.namespace"
  const NS_VALUE := "kube-system"
  const FALLBACK_APPS: seq<string> := ["kube-dns", "coredns"]
  const OP_IN := "In"
  const UDP_PROTO := "UDP"
  const TCP_PROTO := "TCP"
  const ANY_PROTO := "ANY"

  /** Drop a leading "any:" or "k8s:" label source. */
  function StripSource(k: string): string
  {
    if |k| > 4 && (k[..4] == "any:" || k[..4] == "k8s:") then k[4..] else k
  }

  /** Some label whose source-free key is key has this value. */
  predicate HasLabel(labels: map<string, string>, key: string, value: string)
  {
    exists k :: k in labels && StripSource(k) == key && labels[k] == value
  }

  predicate ContainsLabels(have: map<string, string>, want: map<string, string>)
  {
    forall k :: k in want ==> HasLabel(have, k, want[k])
  }

  predicate SelectsKubeDNS(s: Selector, dnsSelector: map<string, string>)
  {
    && HasLabel(s.labels, NS_KEY, NS_VALUE)
    && (
      || (dnsSelector != map[] && ContainsLabels(s.labels, dnsSelector))
      || (exists i :: 0 <= i < |FALLBACK_APPS| && HasLabel(s.labels, APP_KEY, FALLBACK_APPS[i]))
      || (exists i :: 0 <= i < |s.exprs| && StripSource(s.exprs[i].key) == APP_KEY && s.exprs[i].op == OP_IN
            && exists j :: 0 <= j < |s.exprs[i].values| && s.exprs[i].values[j] in FALLBACK_APPS))
  }

  predicate RuleSelectsKubeDNS(r: Rule, dnsSelector: map<string, string>)
  {
    exists i :: 0 <= i < |r.peer.endpoints| && SelectsKubeDNS(r.peer.endpoints[i], dnsSelector)
  }

  /** The rule opens port 53 for the protocol, by name or by ANY. */
  predicate Opens53(prs: seq<PortRule>, proto: string)
  {
    exists i, j :: 0 <= i < |prs| && 0 <= j < |prs[i].ports| && prs[i].ports[j].port == "53"
      && (prs[i].ports[j].proto == proto || prs[i].ports[j].proto == ANY_PROTO)
  }

  predicate IsCompanion(r: Rule, dnsSelector: map<string, string>)
  {
    RuleSelectsKubeDNS(r, dnsSelector) && Opens53(r.toPorts, UDP_PROTO) && Opens53(r.toPorts, TCP_PROTO)
  }

  predicate HasCompanion(egress: seq<Rule>, dnsSelector: map<string, string>)
  {
    exists i :: 0 <= i < |egress| && IsCompanion(egress[i], dnsSelector)
  }

  method HasKubeDNSCompanion(egress: seq<Rule>, dnsSelector: map<string, string>) returns (found: bool)
    ensures found == HasCompanion(egress, dnsSelector)
  {
    for i := 0 to |egress|
      invariant !HasCompanion(egress[..i], dnsSelector)
    {
      assert egress[..i + 1] == egress[..i] + [egress[i]];
      if !RuleSelectsKubeDNS(egress[i], dnsSelector) {
        continue;
      }
      var udp, tcp := ScanPorts(egress[i].toPorts);
      if udp && tcp {
        assert IsCompanion(egress[i], dnsSelector);
        return true;
      }
    }
    assert egress[..|egress|] == egress;
    return false;
  }

  method ScanPorts(prs: seq<PortRule>) returns (hasUDP: bool, hasTCP: bool)
    ensures hasUDP == Opens53(prs, UDP_PROTO) && hasTCP == Opens53(prs, TCP_PROTO)
  {
    hasUDP, hasTCP := false, false;
    for i := 0 to |prs|
      invariant hasUDP == Opens53(prs[..i], UDP_PROTO) && hasTCP == Opens53(prs[..i], TCP_PROTO)
    {
      var ports := prs[i].ports;
      var u, t := false, false;
      for j := 0 to |ports|
        invariant u == Opens53([PortRule(ports[..j], None)], UDP_PROTO)
        invariant t == Opens53([PortRule(ports[..j], None)], TCP_PROTO)
      {
        OpensOneMore(ports, j, UDP_PROTO);
        OpensOneMore(ports, j, TCP_PROTO);
        if ports[j].port == "53" {
          if ports[j].proto == UDP_PROTO {
            u := true;
          } else if ports[j].proto == TCP_PROTO {
            t := true;
          } else if ports[j].proto == ANY_PROTO {
            u, t := true, true;
          }
        }
      }
      assert ports[..|ports|] == ports;
      OpensAppend(prs, i, UDP_PROTO);
      OpensAppend(prs, i, TCP_PROTO);
      hasUDP, hasTCP := hasUDP || u, hasTCP || t;
    }
    assert prs[..|prs|] == prs;
  }

  lemma OpensOneMore(ports: seq<PortProto>, j: nat, proto: string)
    requires j < |ports|
    ensures Opens53([PortRule(ports[..j + 1], None)], proto) <==>
            Opens53([PortRule(ports[..j], None)], proto)
            || (ports[j].port == "53" && (ports[j].proto == proto || ports[j].proto == ANY_PROTO))
  {
    var a, b := [PortRule(ports[..j], None)], [PortRule(ports[..j + 1], None)];
    assert forall k :: 0 <= k < j ==> b[0].ports[k] == a[0].ports[k];
    assert b[0].ports[j] == ports[j];
  }

  lemma OpensAppend(prs: seq<PortRule>, i: nat, proto: string)
    requires i < |prs|
    ensures Opens53(prs[..i + 1], proto) <==> Opens53(prs[..i], proto) || Opens53([PortRule(prs[i].ports, None)], proto)
  {
    var a, b, c := prs[..i], prs[..i + 1], [PortRule(prs[i].ports, None)];
    assert forall k :: 0 <= k < i ==> b[k] == a[k];
    assert b[i].ports == c[0].ports;
  }

  // ---- The names a policy's toFQDNs use ----------------------------------------------------

  /** The matchNames of a run of rules, in order. */
  function NamesOf(fqdns: seq<DNSRule>): seq<string>
  {
    if fqdns == [] then []
    else
      var last := fqdns[|fqdns| - 1];
      NamesOf(fqdns[..|fqdns| - 1]) + (if last.matchName == "" then [] else [last.matchName])
  }

  function AllNames(egress: seq<Rule>): seq<string>
  {
    if egress == [] then [] else AllNames(egress[..|egress| - 1]) + NamesOf(egress[|egress| - 1].fqdns)
  }

  function CollectedNames(egress: seq<Rule>): seq<string>
  {
    Sort(AppendNew([], AllNames(egress)), LexLe)
  }

  lemma {:induction false} NamesOfMembers(fqdns: seq<DNSRule>)
    ensures forall n :: n in NamesOf(fqdns) <==> n != "" && exists d :: d in fqdns && d.matchName == n
  {
    if fqdns != [] {
      var front, last := fqdns[..|fqdns| - 1], fqdns[|fqdns| - 1];
      assert fqdns == front + [last];
      NamesOfMembers(front);
      forall n ensures n in NamesOf(fqdns) <==> n != "" && exists d :: d in fqdns && d.matchName == n {
        assert last in fqdns;
        assert forall d :: d in fqdns <==> d in front || d == last;
      }
    }
  }

  ghost predicate FqdnIn(egress: seq<Rule>, n: string)
  {
    exists r, d :: r in egress && d in r.fqdns && d.matchName == n
  }

  lemma {:induction false} AllNamesMembers(egress: seq<Rule>)
    ensures forall n :: n in AllNames(egress) <==> n != "" && FqdnIn(egress, n)
  {
    if egress != [] {
      var front, last := egress[..|egress| - 1], egress[|egress| - 1];
      assert egress == front + [last];
      AllNamesMembers(front);
      NamesOfMembers(last.fqdns);
      forall n ensures FqdnIn(egress, n) <==> FqdnIn(front, n) || exists d :: d in last.fqdns && d.matchName == n {
        assert last in egress;
        assert forall r :: r in egress <==> r in front || r == last;
      }
    }
  }

  lemma CollectedMembers(egress: seq<Rule>)
    ensures forall n :: n in CollectedNames(egress) <==> n != "" && FqdnIn(egress, n)
  {
    AllNamesMembers(egress);
    AppendNewMembers([], AllNames(egress));
    SortPermutes(AppendNew([], AllNames(egress)), LexLe);
  }

  method CollectFQDNMatchNames(egress: seq<Rule>) returns (names: seq<string>)
    ensures names == CollectedNames(egress)
  {
    var uniq: seq<string> := [];
    for i := 0 to |egress|
      invariant uniq == AppendNew([], AllNames(egress[..i]))
    {
      assert egress[..i + 1][..i] == egress[..i];
      var fq := egress[i].fqdns;
      ghost var base := AllNames(egress[..i]);
      assert base + [] == base;
      for j := 0 to |fq|
        invariant uniq == AppendNew([], base + NamesOf(fq[..j]))
      {
        assert fq[..j + 1][..j] == fq[..j];
        if fq[j].matchName != "" {
          var name := fq[j].matchName;
          ghost var before := base + NamesOf(fq[..j]);
          assert base + NamesOf(fq[..j + 1]) == before + [name];
          assert (before + [name])[..|before|] == before;
          if name !in uniq {
            uniq := uniq + [name];
          }
        } else {
          assert NamesOf(fq[..j]) + [] == NamesOf(fq[..j]);
        }
      }
      assert fq[..|fq|] == fq;
    }
    assert egress[..|egress|] == egress;
    return Sort(uniq, LexLe);
  }

  // ---- The injector -------------------------------------------------------------------------

  function CompanionSelector(dnsSelector: map<string, string>): Selector
  {
    if dnsSelector != map[] then Selector(dnsSelector[NS_KEY := NS_VALUE], [])
    else Selector(map[NS_KEY := NS_VALUE], [Requirement(APP_KEY, OP_IN, FALLBACK_APPS)])
  }

  function DNS53(names: seq<string>): PortRule
  {
    PortRule([PortProto("53", UDP_PROTO), PortProto("53", TCP_PROTO)],
             Some(L7Rules([], seq(|names|, i requires 0 <= i < |names| => DNSRule(names[i], "")))))
  }

  function Companion(names: seq<string>, dnsSelector: map<string, string>): Rule
  {
    Rule(Peer([CompanionSelector(dnsSelector)], [], []), [], [DNS53(names)], [])
  }

  function WithCompanion(egress: seq<Rule>, dnsSelector: map<string, string>): (r: seq<Rule>)
    ensures egress <= r
  {
    var observed := CollectedNames(egress);
    if observed == [] || HasCompanion(egress, dnsSelector) then egress
    else egress + [Companion(observed, dnsSelector)]
  }

  method EnsureKubeDNSCompanion(policy: Policy, dnsSelector: map<string, string>) returns (r: Policy)
    ensures policy.spec.None? ==> r == policy
    ensures policy.spec.Some? ==>
              r == policy.(spec := Some(policy.spec.value.(egress := WithCompanion(policy.spec.value.egress, dnsSelector))))
  {
    r := policy;
    if policy.spec.None? { return; }
    var egress := policy.spec.value.egress;
    var observed := CollectFQDNMatchNames(egress);
    if |observed| == 0 { return; }
    var has := HasKubeDNSCompanion(egress, dnsSelector);
    if has { return; }
    r := r.(spec := Some(policy.spec.value.(egress := egress + [Companion(observed, dnsSelector)])));
  }

  /** The companion built from a selector is found again by the check for one. */
  predicate Recognised(sel: map<string, string>)
  {
    || sel == map[]
    || ContainsLabels(sel[NS_KEY := NS_VALUE], sel)
    || exists i :: 0 <= i < |FALLBACK_APPS| && HasLabel(sel[NS_KEY := NS_VALUE], APP_KEY, FALLBACK_APPS[i])
  }

  lemma PlainKeys()
    ensures StripSource(NS_KEY) == NS_KEY && StripSource(APP_KEY) == APP_KEY
  {
    assert NS_KEY[..4] == "io.k" && NS_KEY[0] != 'a' && NS_KEY[0] != 'k';
    assert APP_KEY[3] == '-' && APP_KEY[..4][3] == '-';
  }

  lemma CompanionFoundIff(names: seq<string>, sel: map<string, string>)
    ensures IsCompanion(Companion(names, sel), sel) <==> Recognised(sel)
  {
    PlainKeys();
    var c, s := Companion(names, sel), CompanionSelector(sel);
    assert NS_KEY in s.labels && s.labels[NS_KEY] == NS_VALUE;
    assert HasLabel(s.labels, NS_KEY, NS_VALUE);
    assert c.peer.endpoints[0] == s;
    assert c.toPorts[0].ports[0] == PortProto("53", UDP_PROTO);
    assert c.toPorts[0].ports[1] == PortProto("53", TCP_PROTO);
    if sel == map[] { assert s.exprs[0].values[0] in FALLBACK_APPS; }
  }

  /**
   Closure: a policy that uses a toFQDNs name has a companion afterwards, the rules it had are an
   unchanged prefix, no toFQDNs name is added or lost, and a second application changes nothing.
   */
  lemma CompanionClosure(egress: seq<Rule>, dnsSelector: map<string, string>)
    requires Recognised(dnsSelector)
    ensures var r := WithCompanion(egress, dnsSelector);
            && egress <= r && |r| <= |egress| + 1
            && ((exists n :: n != "" && FqdnIn(r, n)) ==> HasCompanion(r, dnsSelector))
            && (forall n :: FqdnIn(r, n) <==> FqdnIn(egress, n))
            && WithCompanion(r, dnsSelector) == r
            && (|r| > |egress| ==> forall d: DNSRule :: d in r[|egress|].toPorts[0].rules.value.dns <==>
                  d.matchPattern == "" && d.matchName != "" && FqdnIn(egress, d.matchName))
  {
    CollectedMembers(egress);
    var names := CollectedNames(egress);
    var c := Companion(names, dnsSelector);
    CompanionFoundIff(names, dnsSelector);
    var r := WithCompanion(egress, dnsSelector);
    forall n ensures FqdnIn(r, n) <==> FqdnIn(egress, n) {
      if r != egress {
        assert forall x :: x in r <==> x in egress || x == c;
      }
    }
    if r != egress {
      assert r[|egress|] == c;
      forall d: DNSRule ensures d in DNS53(names).rules.value.dns <==> d.matchPattern == "" && d.matchName in names {
        if d.matchPattern == "" && d.matchName in names {
          var i :| 0 <= i < |names| && names[i] == d.matchName;
          assert DNS53(names).rules.value.dns[i] == d;
        }
      }
    }
    if n :| n != "" && FqdnIn(r, n) {
      assert n in names;
    }
  }

  lemma SameNames(egress: seq<Rule>, r: Rule)
    requires r.fqdns == []
    ensures CollectedNames(egress + [r]) == CollectedNames(egress)
  {
    assert (egress + [r])[..|egress|] == egress;
    assert AllNames(egress) + [] == AllNames(egress);
  }

  /** The injector is a no-op the second time exactly when it had nothing to add or its companion is recognised. */
  lemma IdempotentIff(egress: seq<Rule>, sel: map<string, string>)
    ensures WithCompanion(WithCompanion(egress, sel), sel) == WithCompanion(egress, sel) <==>
            CollectedNames(egress) == [] || HasCompanion(egress, sel) || Recognised(sel)
  {
    var names := CollectedNames(egress);
    if names != [] && !HasCompanion(egress, sel) {
      var c := Companion(names, sel);
      SameNames(egress, c);
      CompanionFoundIff(names, sel);
      assert HasCompanion(egress + [c], sel) <==> IsCompanion(c, sel) by {
        assert forall i :: 0 <= i < |egress| ==> (egress + [c])[i] == egress[i];
        assert (egress + [c])[|egress|] == c;
      }
      assert |(egress + [c]) + [c]| != |egress + [c]|;
    }
  }

  /** No key carries a label source: what a Kubernetes selector can hold. */
  ghost predicate PlainKeysOnly(sel: map<string, string>)
  {
    forall k :: k in sel ==> StripSource(k) == k
  }

  /**
   For such selectors the companion is recognised exactly when the selector does not ask for another
   namespace than the DNS one, or names one of the well-known DNS apps.
   */
  lemma PlainRecognisedIff(sel: map<string, string>)
    requires PlainKeysOnly(sel)
    ensures Recognised(sel) <==>
            (NS_KEY in sel ==> sel[NS_KEY] == NS_VALUE) || (APP_KEY in sel && sel[APP_KEY] in FALLBACK_APPS)
  {
    PlainKeys();
    var labels := sel[NS_KEY := NS_VALUE];
    assert NS_KEY != APP_KEY by { assert |NS_KEY| != |APP_KEY|; }
    forall k, v ensures HasLabel(labels, k, v) <==> k in labels && labels[k] == v {
      if k in labels && labels[k] == v { assert StripSource(k) == k; }
    }
    if NS_KEY in sel ==> sel[NS_KEY] == NS_VALUE {
      assert forall k :: k in sel ==> k in labels && labels[k] == sel[k];
    } else {
      assert !HasLabel(labels, NS_KEY, sel[NS_KEY]);
    }
  }

  /** A selector that asks for another namespace: each application of the injector adds one more companion. */
  lemma OtherNamespaceRepeats()
    ensures var sel := map[NS_KEY := "x"];
            var egress := [Rule(Peer([], [], []), [DNSRule("a.example", "")], [], [])];
            WithCompanion(WithCompanion(egress, sel), sel) != WithCompanion(egress, sel)
  {
    var sel := map[NS_KEY := "x"];
    OtherNamespace(sel);
    NameRepeats(DNSRule("a.example", ""), sel);
  }

  lemma OtherNamespace(sel: map<string, string>)
    requires sel == map[NS_KEY := "x"]
    ensures !Recognised(sel)
  {
    PlainKeys();
    PlainRecognisedIff(sel);
    assert |"x"| != |NS_VALUE|;
    assert |NS_KEY| != |APP_KEY|;
  }

  lemma NameRepeats(d: DNSRule, sel: map<string, string>)
    requires d.matchName != "" && !Recognised(sel)
    ensures var egress := [Rule(Peer([], [], []), [d], [], [])];
            WithCompanion(WithCompanion(egress, sel), sel) != WithCompanion(egress, sel)
  {
    var r := Rule(Peer([], [], []), [d], [], []);
    var egress := [r];
    CollectedMembers(egress);
    assert r in egress && d in r.fqdns && FqdnIn(egress, d.matchName);
    assert !HasCompanion(egress, sel) by { assert egress[0] == r; }
    IdempotentIff(egress, sel);
  }
}
