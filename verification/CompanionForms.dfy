/** What counts as a DNS companion (pkg/policy/companion_dns.go), with the keys, values and ports written out. */
module CompanionForms {
  import opened PolicyTypes
  import opened CompanionDNS

  /** The label, with or without one of the two label sources in front of its key. */
  predicate Labelled(labels: map<string, string>, key: string, value: string)
  {
    || (key in labels && labels[key] == value)
    || ("any:" + key in labels && labels["any:" + key] == value)
    || ("k8s:" + key in labels && labels["k8s:" + key] == value)
  }

  predicate IsAppKey(key: string) { key in {"k8s-app", "any:k8s-app", "k8s:k8s-app"} }

  /** Pods of the DNS namespace with the detected labels, or of one of the two well-known apps. */
  ghost predicate SelectsDNSPods(s: Selector, dnsSelector: map<string, string>)
  {
    && Labelled(s.labels, "io.kubernetes.pod.namespace", "kube-system")
    && (|| (dnsSelector != map[] && forall k :: k in dnsSelector ==> Labelled(s.labels, k, dnsSelector[k]))
        || Labelled(s.labels, "k8s-app", "kube-dns") || Labelled(s.labels, "k8s-app", "coredns")
        || exists e, v :: e in s.exprs && IsAppKey(e.key) && e.op == "In" && v in e.values && v in {"kube-dns", "coredns"})
  }

  ghost predicate OpensDNS(prs: seq<PortRule>, proto: string)
  {
    exists pr, pp :: pr in prs && pp in pr.ports && pp.port == "53" && pp.proto in {proto, "ANY"}
  }

  lemma SourceForms(k: string, key: string)
    requires key != "" && StripSource(key) == key
    ensures StripSource(k) == key <==> k in {key, "any:" + key, "k8s:" + key}
  {
    var a, b := "any:" + key, "k8s:" + key;
    assert a[..4] == "any:" && a[4..] == key && b[..4] == "k8s:" && b[4..] == key;
    if |k| > 4 { assert k == k[..4] + k[4..]; }
  }

  lemma LabelForms(labels: map<string, string>, key: string, value: string)
    requires key != "" && StripSource(key) == key
    ensures HasLabel(labels, key, value) <==> Labelled(labels, key, value)
  {
    forall k ensures StripSource(k) == key <==> k in {key, "any:" + key, "k8s:" + key} { SourceForms(k, key); }
    if Labelled(labels, key, value) {
      var a, b := "any:" + key, "k8s:" + key;
      assert StripSource(a) == key && StripSource(b) == key;
    }
  }

  lemma OpensForms(prs: seq<PortRule>, proto: string)
    ensures Opens53(prs, proto) <==> OpensDNS(prs, proto)
  {
    if Opens53(prs, proto) {
      var i, j :| 0 <= i < |prs| && 0 <= j < |prs[i].ports| && prs[i].ports[j].port == "53"
        && (prs[i].ports[j].proto == proto || prs[i].ports[j].proto == ANY_PROTO);
      assert prs[i] in prs && prs[i].ports[j] in prs[i].ports;
    }
    if OpensDNS(prs, proto) {
      var pr, pp :| pr in prs && pp in pr.ports && pp.port == "53" && pp.proto in {proto, "ANY"};
      var i :| 0 <= i < |prs| && prs[i] == pr;
      var j :| 0 <= j < |pr.ports| && pr.ports[j] == pp;
      assert prs[i].ports[j].port == "53";
    }
  }

  predicate AppExpr(e: Requirement)
  {
    StripSource(e.key) == APP_KEY && e.op == OP_IN && exists j :: 0 <= j < |e.values| && e.values[j] in FALLBACK_APPS
  }

  lemma ExprForms(exprs: seq<Requirement>)
    ensures (exists i :: 0 <= i < |exprs| && AppExpr(exprs[i])) <==>
            exists e, v :: e in exprs && IsAppKey(e.key) && e.op == "In" && v in e.values && v in {"kube-dns", "coredns"}
  {
    PlainKeys();
    forall k ensures StripSource(k) == APP_KEY <==> IsAppKey(k) {
      SourceForms(k, APP_KEY);
      assert "any:" + APP_KEY == "any:k8s-app" && "k8s:" + APP_KEY == "k8s:k8s-app";
    }
    if i :| 0 <= i < |exprs| && AppExpr(exprs[i]) {
      var j :| 0 <= j < |exprs[i].values| && exprs[i].values[j] in FALLBACK_APPS;
      assert exprs[i] in exprs && exprs[i].values[j] in exprs[i].values;
    }
    if e, v :| e in exprs && IsAppKey(e.key) && e.op == "In" && v in e.values && v in {"kube-dns", "coredns"} {
      var i :| 0 <= i < |exprs| && exprs[i] == e;
      var j :| 0 <= j < |e.values| && e.values[j] == v;
      assert e.values[j] in FALLBACK_APPS;
      assert AppExpr(exprs[i]);
    }
  }

  lemma SelectorForms(s: Selector, dnsSelector: map<string, string>)
    requires PlainKeysOnly(dnsSelector) && "" !in dnsSelector
    ensures SelectsKubeDNS(s, dnsSelector) <==> SelectsDNSPods(s, dnsSelector)
  {
    PlainKeys();
    LabelForms(s.labels, NS_KEY, NS_VALUE);
    LabelForms(s.labels, APP_KEY, "kube-dns");
    LabelForms(s.labels, APP_KEY, "coredns");
    forall k | k in dnsSelector ensures HasLabel(s.labels, k, dnsSelector[k]) <==> Labelled(s.labels, k, dnsSelector[k]) {
      LabelForms(s.labels, k, dnsSelector[k]);
    }
    ExprForms(s.exprs);
    assert FALLBACK_APPS[0] == "kube-dns" && FALLBACK_APPS[1] == "coredns" && |FALLBACK_APPS| == 2;
    assert (exists i :: 0 <= i < |FALLBACK_APPS| && HasLabel(s.labels, APP_KEY, FALLBACK_APPS[i]))
           <==> HasLabel(s.labels, APP_KEY, "kube-dns") || HasLabel(s.labels, APP_KEY, "coredns");
  }

  /**
   A rule is found to be the companion exactly when one of its peers selects the DNS pods and it opens
   port 53 for UDP and for TCP, each by its name or by ANY.
   */
  lemma CompanionExactly(r: Rule, dnsSelector: map<string, string>)
    requires PlainKeysOnly(dnsSelector) && "" !in dnsSelector
    ensures IsCompanion(r, dnsSelector) <==>
            && (exists s :: s in r.peer.endpoints && SelectsDNSPods(s, dnsSelector))
            && OpensDNS(r.toPorts, "UDP") && OpensDNS(r.toPorts, "TCP")
  {
    OpensForms(r.toPorts, UDP_PROTO);
    OpensForms(r.toPorts, TCP_PROTO);
    forall i | 0 <= i < |r.peer.endpoints|
      ensures SelectsKubeDNS(r.peer.endpoints[i], dnsSelector) <==> SelectsDNSPods(r.peer.endpoints[i], dnsSelector)
      ensures r.peer.endpoints[i] in r.peer.endpoints
    {
      SelectorForms(r.peer.endpoints[i], dnsSelector);
    }
  }
}
