/**
 The parts of a CiliumNetworkPolicy that generated policies use, and what a policy says: the set of
 its explicit entries. Selectors are values whose label keys are already in Cilium's serialized form.
 */
module PolicyTypes {

  datatype Option<T> = None | Some(value: T)

  datatype PortProto = PortProto(port: string, proto: string)

  datatype HTTPRule = HTTPRule(verb: string, path: string)

  /** Also the form of a toFQDNs selector. */
  datatype DNSRule = DNSRule(matchName: string, matchPattern: string)

  datatype L7Rules = L7Rules(http: seq<HTTPRule>, dns: seq<DNSRule>)

  datatype PortRule = PortRule(ports: seq<PortProto>, rules: Option<L7Rules>)

  datatype ICMPField = ICMPField(family: string, typ: Option<int>)

  datatype Requirement = Requirement(key: string, op: string, values: seq<string>)

  datatype Selector = Selector(labels: map<string, string>, exprs: seq<Requirement>)

  datatype Peer = Peer(endpoints: seq<Selector>, entities: seq<string>, cidrs: seq<string>)

  datatype Rule = Rule(peer: Peer, fqdns: seq<DNSRule>, toPorts: seq<PortRule>, icmps: seq<seq<ICMPField>>)

  datatype Spec = Spec(subject: map<string, string>, ingress: seq<Rule>, egress: seq<Rule>)

  datatype Policy = Policy(name: string, namespace: string, spec: Option<Spec>)

  datatype Dir = Ingress | Egress

  /** A workload and, one to one, its policy file. */
  datatype Name = Name(namespace: string, workload: string)

  // ---- Explicit entries -------------------------------------------------------------------

  datatype Fact =
    | OnPort(pp: PortProto)
    | OnHTTP(pp: PortProto, h: HTTPRule)
    | OnDNS(pp: PortProto, d: DNSRule)
    | OnICMP(field: ICMPField)
    | OnFQDN(name: DNSRule)

  /** One explicit entry of a policy. */
  datatype Entry = Entry(dir: Dir, peer: Peer, fact: Fact)

  ghost predicate PortsSay(prs: seq<PortRule>, pp: PortProto)
  {
    exists pr :: pr in prs && pp in pr.ports
  }

  ghost predicate HTTPSays(prs: seq<PortRule>, pp: PortProto, h: HTTPRule)
  {
    exists pr :: pr in prs && pp in pr.ports && pr.rules.Some? && h in pr.rules.value.http
  }

  ghost predicate DNSSays(prs: seq<PortRule>, pp: PortProto, d: DNSRule)
  {
    exists pr :: pr in prs && pp in pr.ports && pr.rules.Some? && d in pr.rules.value.dns
  }

  ghost predicate ICMPSays(icmps: seq<seq<ICMPField>>, f: ICMPField)
  {
    exists fs :: fs in icmps && f in fs
  }

  /** What a list of port rules says. */
  ghost predicate PortRulesSay(prs: seq<PortRule>, fact: Fact)
  {
    match fact
    case OnPort(pp) => PortsSay(prs, pp)
    case OnHTTP(pp, h) => HTTPSays(prs, pp, h)
    case OnDNS(pp, d) => DNSSays(prs, pp, d)
    case _ => false
  }

  ghost predicate RuleSays(r: Rule, fact: Fact)
  {
    match fact
    case OnICMP(f) => ICMPSays(r.icmps, f)
    case OnFQDN(n) => n in r.fqdns
    case _ => PortRulesSay(r.toPorts, fact)
  }

  /** Some rule for exactly this peer says it. */
  ghost predicate RulesSay(rules: seq<Rule>, peer: Peer, fact: Fact)
  {
    exists r :: r in rules && r.peer == peer && RuleSays(r, fact)
  }

  ghost predicate Says(p: Policy, e: Entry)
  {
    p.spec.Some? && RulesSay(if e.dir == Ingress then p.spec.value.ingress else p.spec.value.egress, e.peer, e.fact)
  }

  ghost predicate SameMeaning(p: Policy, q: Policy)
  {
    forall e :: Says(p, e) <==> Says(q, e)
  }

  /** An entry a merge can only add to; HTTP entries are the ones replace mode may drop. */
  predicate IsHTTP(fact: Fact) { fact.OnHTTP? }
}
