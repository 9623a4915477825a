/**
 Building a policy from dropped flows (pkg/policy/builder.go): flows are grouped by peer into
 mutable buckets, and each bucket is emitted as port, ICMP and FQDN rules.
 */
module Builder {
  import opened PolicyTypes
  import opened Merge
  import opened CompanionDNS
  import opened Sorting
  import opened Collapse
  import opened CollapseState
  import opened CollapseEngine
  import Text
  import Segments

  // ---- Flows --------------------------------------------------------------------------------

  const U32_LIMIT: int := 0x1_0000_0000

  type U32 = n: int | 0 <= n < U32_LIMIT

  datatype L4 = TCP(port: U32) | UDP(port: U32) | ICMPv4(typ: U32) | ICMPv6(typ: U32) | OtherL4

  /**
   The L7 record with its strings already normalised: the method upper-cased, the URL's path in
   decoded and in wire form, the DNS query without its trailing dot.
   */
  datatype L7 = NoL7 | HTTPRecord(verb: string, path: string, rawPath: string) | DNSRecord(query: string)

  /** selected: the labels a selector uses; entity: the reserved entity of the identity, or "". */
  datatype Endpoint = Endpoint(selected: map<string, string>, entity: string, world: bool, namespace: string)

  datatype TrafficDir = In | Out | Unset

  datatype Flow = Flow(dir: TrafficDir, l4: Option<L4>, source: Option<Endpoint>, destination: Option<Endpoint>,
                       sourceIP: string, destinationIP: string, l7: L7)

  datatype FlowProto = FlowProto(port: U32, proto: string, icmp: bool)

  const ICMP_PROTO := "ICMP"
  const ICMP6_PROTO := "ICMPv6"

  function ExtractProto(l4: Option<L4>): Option<FlowProto>
  {
    match l4
    case Some(TCP(p)) => Some(FlowProto(p, TCP_PROTO, false))
    case Some(UDP(p)) => Some(FlowProto(p, UDP_PROTO, false))
    case Some(ICMPv4(t)) => Some(FlowProto(t, ICMP_PROTO, true))
    case Some(ICMPv6(t)) => Some(FlowProto(t, ICMP6_PROTO, true))
    case _ => None
  }

  function Digit(d: int): char
    requires 0 <= d < 10
  {
    ['0', '1', '2', '3', '4', '5', '6', '7', '8', '9'][d]
  }

  function Decimal(n: nat): string
  {
    if n < 10 then [Digit(n)] else Decimal(n / 10) + [Digit(n % 10)]
  }

  /** Conversion of a uint32 to an int32. */
  function Int32(n: U32): int
  {
    if n < 0x8000_0000 then n else n - U32_LIMIT
  }

  function KeyOf(fp: FlowProto): PortProto { PortProto(Decimal(fp.port), fp.proto) }

  function FieldOf(fp: FlowProto): ICMPField
  {
    ICMPField(if fp.proto == ICMP6_PROTO then "IPv6" else "IPv4", Some(Int32(fp.port)))
  }

  // ---- One bucket ---------------------------------------------------------------------------

  /** The contents of a peer bucket as a value. */
  datatype Acc = Acc(ports: seq<PortProto>, icmps: seq<ICMPField>, seen: set<PortProto>,
                     http: map<PortProto, seq<HTTPRule>>, dns: seq<string>)

  const EMPTY_ACC := Acc([], [], {}, map[], [])

  function WithFlow(a: Acc, fp: FlowProto): Acc
  {
    var key := KeyOf(fp);
    if key in a.seen then a
    else if fp.icmp then a.(seen := a.seen + {key}, icmps := a.icmps + [FieldOf(fp)])
    else a.(seen := a.seen + {key}, ports := a.ports + [key])
  }

  function WithHTTP(a: Acc, key: PortProto, rules: seq<HTTPRule>): Acc
  {
    if rules == [] then a
    else a.(http := a.http[key := AppendNew(if key in a.http then a.http[key] else [], rules)])
  }

  function WithDNS(a: Acc, name: string): Acc
  {
    if name == "" || name in a.dns then a else a.(dns := a.dns + [name])
  }

  lemma AppendNewNext(start: seq<HTTPRule>, rules: seq<HTTPRule>, i: nat)
    requires i < |rules|
    ensures AppendNew(start, rules[..i + 1]) == AppendNew(AppendNew(start, rules[..i]), [rules[i]])
  {
    assert rules[..i + 1] == rules[..i] + [rules[i]];
    AppendNewTwice(start, rules[..i], [rules[i]]);
  }

  class PeerRules {
    var ports: seq<PortProto>
    var icmpFields: seq<ICMPField>
    var seen: set<PortProto>
    var httpRules: map<PortProto, seq<HTTPRule>>
    var httpSeen: map<PortProto, set<HTTPRule>>
    var dnsNames: set<string>
    var dnsOrder: seq<string>

    function View(): Acc
      reads this
    {
      Acc(ports, icmpFields, seen, httpRules, dnsOrder)
    }

    ghost predicate Valid()
      reads this
    {
      && httpSeen.Keys == httpRules.Keys
      && (forall k :: k in httpRules ==> httpSeen[k] == set h | h in httpRules[k])
      && dnsNames == set n | n in dnsOrder
    }

    constructor ()
      ensures Valid() && View() == EMPTY_ACC
    {
      ports, icmpFields, seen, httpRules, httpSeen, dnsNames, dnsOrder := [], [], {}, map[], map[], {}, [];
    }

    method AddFlow(fp: FlowProto)
      requires Valid()
      modifies this
      ensures Valid() && View() == WithFlow(old(View()), fp)
    {
      var key := PortProto(Decimal(fp.port), fp.proto);
      if key in seen { return; }
      seen := seen + {key};
      if fp.icmp {
        icmpFields := icmpFields + [FieldOf(fp)];
        return;
      }
      ports := ports + [key];
    }

    /** Add one HTTP rule under a key that is already open. */
    method AddHTTPRule(key: PortProto, h: HTTPRule)
      requires Valid() && key in httpRules
      modifies `httpSeen, `httpRules
      ensures Valid() && httpRules == old(httpRules)[key := AppendNew(old(httpRules)[key], [h])]
    {
      assert [h][..0] == [];
      if h in httpSeen[key] { return; }
      httpSeen := httpSeen[key := httpSeen[key] + {h}];
      httpRules := httpRules[key := httpRules[key] + [h]];
    }

    method AddHTTPRules(key: PortProto, rules: seq<HTTPRule>)
      requires Valid()
      modifies `httpSeen, `httpRules
      ensures Valid() && View() == WithHTTP(old(View()), key, rules)
    {
      if |rules| == 0 { return; }
      ghost var before := httpRules;
      ghost var start := if key in httpRules then httpRules[key] else [];
      if key !in httpSeen {
        httpSeen := httpSeen[key := {}];
        httpRules := httpRules[key := []];
      }
      for i := 0 to |rules|
        invariant Valid() && key in httpRules
        invariant httpRules == before[key := AppendNew(start, rules[..i])]
      {
        AppendNewNext(start, rules, i);
        AddHTTPRule(key, rules[i]);
      }
      assert rules[..|rules|] == rules;
    }

    method AddDNSName(name: string)
      requires Valid()
      modifies this
      ensures Valid() && View() == WithDNS(old(View()), name)
    {
      if name == "" || name in dnsNames { return; }
      dnsNames := dnsNames + {name};
      dnsOrder := dnsOrder + [name];
    }
  }

  // ---- Grouping flows by peer ---------------------------------------------------------------

  datatype BucketKey = EntityKey(entity: string) | CIDRKey(cidr: string) | PeerKey(labels: map<string, string>)

  datatype L7Kind = L7None | L7HTTP | L7DNS

  function PeerSelector(ep: Endpoint, policyNS: string): Selector
  {
    Selector(if ep.namespace != policyNS then ep.selected[NS_KEY := ep.namespace] else ep.selected, [])
  }

  function PeerEnd(f: Flow, dir: Dir): Option<Endpoint>
  {
    if dir == Ingress then f.source else f.destination
  }

  function PeerIP(f: Flow, dir: Dir): string
  {
    if dir == Ingress then f.sourceIP else f.destinationIP
  }

  /** The bucket a flow belongs to and the peer of that bucket; None for a flow that is only tracked. */
  function Target(f: Flow, dir: Dir, policyNS: string): Option<(BucketKey, Peer)>
  {
    match PeerEnd(f, dir)
    case None => None
    case Some(ep) =>
      if ExtractProto(f.l4).None? then None
      else if ep.entity != "" then Some((EntityKey(ep.entity), Peer([], [ep.entity], [])))
      else if ep.world then
        var ip := PeerIP(f, dir);
        if ip == "" then None else Some((CIDRKey(ip + "/32"), Peer([], [], [ip + "/32"])))
      else Some((PeerKey(ep.selected), Peer([PeerSelector(ep, policyNS)], [], [])))
  }

  function KindOf(f: Flow, dir: Dir, l7Enabled: bool): L7Kind
  {
    if !l7Enabled then L7None
    else match f.l7
      case HTTPRecord(verb, _, _) => if verb == "" then L7None else L7HTTP
      case DNSRecord(query) => if dir == Egress && query != "" then L7DNS else L7None
      case NoL7 => L7None
  }

  function HTTPRuleOf(f: Flow): HTTPRule
    requires f.l7.HTTPRecord?
  {
    HTTPRule(f.l7.verb, Segments.LiteralRule(f.l7.path))
  }

  /** What one flow adds to its bucket. */
  function AddTo(a: Acc, f: Flow, fp: FlowProto, dir: Dir, l7Enabled: bool): Acc
  {
    match KindOf(f, dir, l7Enabled)
    case L7None => WithFlow(a, fp)
    case L7HTTP => WithFlow(WithHTTP(a, KeyOf(fp), [HTTPRuleOf(f)]), fp)
    case L7DNS => WithDNS(a, f.l7.query)
  }

  /** The peer of every bucket and the orders the buckets of each kind were opened in. */
  datatype Index = Index(peers: map<BucketKey, Peer>, entities: seq<BucketKey>, cidrs: seq<BucketKey>, endpoints: seq<BucketKey>)

  datatype Grouping = Grouping(accs: map<BucketKey, Acc>, index: Index)

  const NO_GROUPS := Grouping(map[], Index(map[], [], [], []))

  function Register(x: Index, k: BucketKey, peer: Peer): Index
  {
    var y := x.(peers := x.peers[k := peer]);
    match k
    case EntityKey(_) => y.(entities := y.entities + [k])
    case CIDRKey(_) => y.(cidrs := y.cidrs + [k])
    case PeerKey(_) => y.(endpoints := y.endpoints + [k])
  }

  function Open(g: Grouping, k: BucketKey, peer: Peer): Grouping
  {
    if k in g.accs then g else Grouping(g.accs[k := EMPTY_ACC], Register(g.index, k, peer))
  }

  function GroupOne(g: Grouping, f: Flow, dir: Dir, policyNS: string, l7Enabled: bool): Grouping
  {
    match Target(f, dir, policyNS)
    case None => g
    case Some((k, peer)) =>
      var h := Open(g, k, peer);
      h.(accs := h.accs[k := AddTo(h.accs[k], f, ExtractProto(f.l4).value, dir, l7Enabled)])
  }

  function GroupAll(flows: seq<Flow>, dir: Dir, policyNS: string, l7Enabled: bool): Grouping
  {
    if flows == [] then NO_GROUPS
    else GroupOne(GroupAll(flows[..|flows| - 1], dir, policyNS, l7Enabled), flows[|flows| - 1], dir, policyNS, l7Enabled)
  }

  // ---- Observed paths -----------------------------------------------------------------------

  /** One collapse group: direction, peer and port. It names neither workload nor namespace. */
  datatype ObsKey = ObsKey(dir: Dir, bucket: BucketKey, pp: PortProto)

  type Observations = map<ObsKey, PathSet>

  function ObserveOne(c: Observations, f: Flow, dir: Dir, policyNS: string, l7Enabled: bool): Observations
  {
    match Target(f, dir, policyNS)
    case None => c
    case Some((k, _)) =>
      if KindOf(f, dir, l7Enabled) == L7HTTP
      then WithPath(c, ObsKey(dir, k, KeyOf(ExtractProto(f.l4).value)), f.l7.verb, f.l7.rawPath) else c
  }

  function ObserveAll(c: Observations, flows: seq<Flow>, dir: Dir, policyNS: string, l7Enabled: bool): Observations
  {
    if flows == [] then c
    else ObserveOne(ObserveAll(c, flows[..|flows| - 1], dir, policyNS, l7Enabled), flows[|flows| - 1], dir, policyNS, l7Enabled)
  }

  method ObserveFlow(collapse: L7CollapseState?<ObsKey>, k: BucketKey, f: Flow, fp: FlowProto, dir: Dir, l7Enabled: bool)
    modifies collapse
    ensures collapse != null ==> collapse.retained == old(collapse.retained)
    ensures collapse != null ==>
              collapse.collected == if KindOf(f, dir, l7Enabled) == L7HTTP
                                    then WithPath(old(collapse.collected), ObsKey(dir, k, KeyOf(fp)), f.l7.verb, f.l7.rawPath)
                                    else old(collapse.collected)
  {
    if collapse != null && KindOf(f, dir, l7Enabled) == L7HTTP {
      collapse.Observe(ObsKey(dir, k, KeyOf(fp)), f.l7.verb, f.l7.rawPath);
    }
  }

  /** The live buckets hold the values of the grouping, one object per key. */
  ghost predicate Holds(buckets: map<BucketKey, PeerRules>, accs: map<BucketKey, Acc>)
    reads buckets.Values
  {
    && buckets.Keys == accs.Keys
    && (forall k :: k in buckets ==> buckets[k].Valid() && buckets[k].View() == accs[k])
    && (forall k, m :: k in buckets && m in buckets && k != m ==> buckets[k] != buckets[m])
  }

  method RecordL7(pr: PeerRules, f: Flow, fp: FlowProto, dir: Dir, l7Enabled: bool) returns (kind: L7Kind)
    requires pr.Valid()
    modifies pr
    ensures pr.Valid() && kind == KindOf(f, dir, l7Enabled)
    ensures pr.View() == match kind
                         case L7None => old(pr.View())
                         case L7HTTP => WithHTTP(old(pr.View()), KeyOf(fp), [HTTPRuleOf(f)])
                         case L7DNS => WithDNS(old(pr.View()), f.l7.query)
  {
    if !l7Enabled { return L7None; }
    if f.l7.HTTPRecord? {
      if f.l7.verb == "" { return L7None; }
      pr.AddHTTPRules(KeyOf(fp), [HTTPRuleOf(f)]);
      return L7HTTP;
    }
    if dir == Egress && f.l7.DNSRecord? {
      if f.l7.query == "" { return L7None; }
      pr.AddDNSName(f.l7.query);
      return L7DNS;
    }
    return L7None;
  }

  method OpenBucket(buckets: map<BucketKey, PeerRules>, k: BucketKey, ghost accs: map<BucketKey, Acc>)
    returns (more: map<BucketKey, PeerRules>)
    requires Holds(buckets, accs)
    ensures Holds(more, if k in accs then accs else accs[k := EMPTY_ACC])
    ensures k in more && fresh(more.Values - buckets.Values)
  {
    more := buckets;
    if k !in buckets {
      var pr := new PeerRules();
      more := buckets[k := pr];
    }
  }

  /** What one flow does to its bucket: its L7 record, then its port unless DNS covers it. */
  method AddFlowTo(pr: PeerRules, f: Flow, fp: FlowProto, dir: Dir, l7Enabled: bool)
    requires pr.Valid()
    modifies pr
    ensures pr.Valid() && pr.View() == AddTo(old(pr.View()), f, fp, dir, l7Enabled)
  {
    var kind := RecordL7(pr, f, fp, dir, l7Enabled);
    if kind != L7DNS {
      pr.AddFlow(fp);
    }
  }

  method AddToBucket(buckets: map<BucketKey, PeerRules>, k: BucketKey, f: Flow, fp: FlowProto, dir: Dir, l7Enabled: bool,
                     ghost accs: map<BucketKey, Acc>)
    requires Holds(buckets, accs) && k in buckets
    modifies buckets[k]
    ensures Holds(buckets, accs[k := AddTo(accs[k], f, fp, dir, l7Enabled)])
  {
    AddFlowTo(buckets[k], f, fp, dir, l7Enabled);
  }

  /** Put one flow into its bucket, opening the bucket first if need be. */
  method FileFlow(buckets: map<BucketKey, PeerRules>, k: BucketKey, peer: Peer, f: Flow, dir: Dir, policyNS: string, l7Enabled: bool,
                  ghost g: Grouping)
    returns (more: map<BucketKey, PeerRules>)
    requires Holds(buckets, g.accs) && Target(f, dir, policyNS) == Some((k, peer))
    modifies buckets.Values
    ensures Holds(more, GroupOne(g, f, dir, policyNS, l7Enabled).accs)
    ensures fresh(more.Values - buckets.Values)
  {
    ghost var opened' := Open(g, k, peer);
    more := OpenBucket(buckets, k, g.accs);
    AddToBucket(more, k, f, ExtractProto(f.l4).value, dir, l7Enabled, opened'.accs);
  }

  method GroupFlow(buckets: map<BucketKey, PeerRules>, index: Index, f: Flow, dir: Dir, policyNS: string, l7Enabled: bool,
                   collapse: L7CollapseState?<ObsKey>, ghost g: Grouping)
    returns (buckets': map<BucketKey, PeerRules>, index': Index)
    requires Holds(buckets, g.accs) && index == g.index
    modifies buckets.Values, collapse
    ensures var h := GroupOne(g, f, dir, policyNS, l7Enabled); Holds(buckets', h.accs) && index' == h.index
    ensures fresh(buckets'.Values - buckets.Values)
    ensures collapse != null ==> collapse.retained == old(collapse.retained)
    ensures collapse != null ==> collapse.collected == ObserveOne(old(collapse.collected), f, dir, policyNS, l7Enabled)
  {
    buckets', index' := buckets, index;
    var target := Target(f, dir, policyNS);
    if target.None? { return; }
    var (k, peer) := target.value;
    ObserveFlow(collapse, k, f, ExtractProto(f.l4).value, dir, l7Enabled);
    if k !in buckets {
      index' := Register(index, k, peer);
    }
    buckets' := FileFlow(buckets, k, peer, f, dir, policyNS, l7Enabled, g);
  }

  method GroupFlows(flows: seq<Flow>, dir: Dir, policyNS: string, l7Enabled: bool, collapse: L7CollapseState?<ObsKey>)
    returns (buckets: map<BucketKey, PeerRules>, index: Index)
    modifies collapse
    ensures var g := GroupAll(flows, dir, policyNS, l7Enabled); Holds(buckets, g.accs) && index == g.index
    ensures fresh(buckets.Values)
    ensures collapse != null ==> collapse.retained == old(collapse.retained)
    ensures collapse != null ==> collapse.collected == ObserveAll(old(collapse.collected), flows, dir, policyNS, l7Enabled)
  {
    buckets, index := map[], NO_GROUPS.index;
    ghost var g := NO_GROUPS;
    for i := 0 to |flows|
      invariant g == GroupAll(flows[..i], dir, policyNS, l7Enabled)
      invariant Holds(buckets, g.accs) && index == g.index && fresh(buckets.Values)
      invariant collapse != null ==> collapse.retained == old(collapse.retained)
      invariant collapse != null ==> collapse.collected == ObserveAll(old(collapse.collected), flows[..i], dir, policyNS, l7Enabled)
    {
      assert flows[..i + 1][..i] == flows[..i];
      buckets, index := GroupFlow(buckets, index, flows[i], dir, policyNS, l7Enabled, collapse, g);
      g := GroupOne(g, flows[i], dir, policyNS, l7Enabled);
    }
    assert flows[..|flows|] == flows;
  }

  // ---- Collapse of the HTTP lists -----------------------------------------------------------

  /** Each HTTP list holds exactly the collapsed rules of everything observed for its group so far. */
  ghost predicate CollapsedLists(before: map<PortProto, seq<HTTPRule>>, after: map<PortProto, seq<HTTPRule>>,
                                 retained: Observations, collected: Observations, dir: Dir, k: BucketKey, minFlows: int)
  {
    && after.Keys == before.Keys
    && (forall pp :: pp in after ==> CollapsedList(after[pp], retained, collected, ObsKey(dir, k, pp), minFlows))
  }

  ghost predicate CollapsedList(rules: seq<HTTPRule>, retained: Observations, collected: Observations, key: ObsKey, minFlows: int)
  {
    exists effective :: IsUnion(effective, SetAt(retained, key), SetAt(collected, key))
                        && Elems(rules) == CollapsedRules(effective, ResolveMinFlows(minFlows))
  }

  method ApplyL7Collapse(pr: PeerRules, k: BucketKey, dir: Dir, collapse: L7CollapseState<ObsKey>, minFlows: int)
    modifies pr`httpRules
    ensures CollapsedLists(old(pr.httpRules), pr.httpRules, collapse.retained, collapse.collected, dir, k, minFlows)
  {
    var todo := pr.httpRules.Keys;
    while todo != {}
      invariant todo <= pr.httpRules.Keys == old(pr.httpRules.Keys)
      invariant forall pp :: pp in pr.httpRules && pp !in todo ==>
                  CollapsedList(pr.httpRules[pp], collapse.retained, collapse.collected, ObsKey(dir, k, pp), minFlows)
      decreases todo
    {
      var pp :| pp in todo;
      var rules := CollapseGroup(collapse, ObsKey(dir, k, pp), minFlows);
      pr.httpRules := pr.httpRules[pp := rules];
      todo := todo - {pp};
    }
  }

  method CollapseGroup(collapse: L7CollapseState<ObsKey>, key: ObsKey, minFlows: int) returns (rules: seq<HTTPRule>)
    ensures CollapsedList(rules, collapse.retained, collapse.collected, key, minFlows)
  {
    var effective := MergeL7PathSets(SetAt(collapse.retained, key), SetAt(collapse.collected, key));
    var out, _ := CollapseHTTPPaths(effective, ResolveMinFlows(minFlows));
    return out;
  }

  /** h is g with its HTTP lists collapsed. */
  ghost predicate CollapsedGrouping(g: Grouping, h: Grouping, retained: Observations, collected: Observations, dir: Dir, minFlows: int)
  {
    && h.index == g.index && h.accs.Keys == g.accs.Keys
    && forall k :: k in g.accs ==> CollapsedAcc(g.accs[k], h.accs[k], retained, collected, dir, k, minFlows)
  }

  ghost predicate CollapsedAcc(a: Acc, b: Acc, retained: Observations, collected: Observations, dir: Dir, k: BucketKey, minFlows: int)
  {
    b.(http := a.http) == a && CollapsedLists(a.http, b.http, retained, collected, dir, k, minFlows)
  }

  /** Without a collapse state the buckets are read out as they are, with one collapsed first. */
  ghost predicate ReadOut(g: Grouping, h: Grouping, l7Enabled: bool, collapse: L7CollapseState?<ObsKey>, dir: Dir, minFlows: int)
    reads collapse
  {
    if collapse == null || !l7Enabled then h == g
    else CollapsedGrouping(g, h, collapse.retained, collapse.collected, dir, minFlows)
  }

  method ReadBuckets(buckets: map<BucketKey, PeerRules>, index: Index, ghost accs: map<BucketKey, Acc>, l7Enabled: bool,
                     collapse: L7CollapseState?<ObsKey>, dir: Dir, minFlows: int)
    returns (h: Grouping)
    requires Holds(buckets, accs)
    modifies buckets.Values
    ensures ReadOut(Grouping(accs, index), h, l7Enabled, collapse, dir, minFlows)
  {
    if collapse == null || !l7Enabled {
      return Grouping(map k | k in buckets :: buckets[k].View(), index);
    }
    var live: map<BucketKey, Acc> := map[];
    var todo := buckets.Keys;
    while todo != {}
      invariant todo <= buckets.Keys && live.Keys == buckets.Keys - todo
      invariant forall k :: k in todo ==> buckets[k].View() == accs[k]
      invariant forall k :: k in live ==> CollapsedAcc(accs[k], live[k], collapse.retained, collapse.collected, dir, k, minFlows)
      decreases todo
    {
      var k :| k in todo;
      ApplyL7Collapse(buckets[k], k, dir, collapse, minFlows);
      live := live[k := buckets[k].View()];
      todo := todo - {k};
    }
    return Grouping(live, index);
  }

  // ---- Emission -----------------------------------------------------------------------------

  function HTTPAt(http: map<PortProto, seq<HTTPRule>>, pp: PortProto): seq<HTTPRule>
  {
    if pp in http then http[pp] else []
  }

  function PortRuleFor(pp: PortProto, http: map<PortProto, seq<HTTPRule>>): PortRule
  {
    PortRule([pp], if HTTPAt(http, pp) == [] then None else Some(L7Rules(HTTPAt(http, pp), [])))
  }

  function PortRules(ports: seq<PortProto>, http: map<PortProto, seq<HTTPRule>>): seq<PortRule>
  {
    if forall i :: 0 <= i < |ports| ==> HTTPAt(http, ports[i]) == [] then [PortRule(ports, None)]
    else seq(|ports|, i requires 0 <= i < |ports| => PortRuleFor(ports[i], http))
  }

  method PortRulesFor(ports: seq<PortProto>, http: map<PortProto, seq<HTTPRule>>) returns (out: seq<PortRule>)
    ensures out == PortRules(ports, http)
  {
    var hasAnyL7 := false;
    for i := 0 to |ports|
      invariant hasAnyL7 <==> exists j :: 0 <= j < i && HTTPAt(http, ports[j]) != []
    {
      if |HTTPAt(http, ports[i])| > 0 {
        hasAnyL7 := true;
        break;
      }
    }
    if !hasAnyL7 { return [PortRule(ports, None)]; }
    out := [];
    for i := 0 to |ports|
      invariant |out| == i && forall j :: 0 <= j < i ==> out[j] == PortRuleFor(ports[j], http)
    {
      var pr := PortRule([ports[i]], None);
      var rules := HTTPAt(http, ports[i]);
      if |rules| > 0 {
        pr := pr.(rules := Some(L7Rules(rules, [])));
      }
      out := out + [pr];
    }
  }

  function RulesFrom(peer: Peer, a: Acc): seq<Rule>
  {
    (if a.ports == [] then [] else [Rule(peer, [], PortRules(a.ports, a.http), [])])
    + (if a.icmps == [] then [] else [Rule(peer, [], [], [a.icmps])])
  }

  function EmitBuckets(order: seq<BucketKey>, g: Grouping): seq<Rule>
    requires forall k :: k in order ==> k in g.accs && k in g.index.peers
  {
    if order == [] then []
    else
      var k := order[|order| - 1];
      EmitBuckets(order[..|order| - 1], g) + RulesFrom(g.index.peers[k], g.accs[k])
  }

  ghost predicate Listed(g: Grouping)
  {
    && g.index.peers.Keys == g.accs.Keys
    && (forall k :: k in g.accs <==> k in g.index.entities || k in g.index.cidrs || k in g.index.endpoints)
    && (forall k :: k in g.index.entities ==> k.EntityKey?)
    && (forall k :: k in g.index.cidrs ==> k.CIDRKey?)
    && (forall k :: k in g.index.endpoints ==> k.PeerKey?)
    && Distinct(g.index.entities) && Distinct(g.index.cidrs) && Distinct(g.index.endpoints)
  }

  ghost predicate Distinct(s: seq<BucketKey>)
  {
    forall i, j :: 0 <= i < j < |s| ==> s[i] != s[j]
  }

  lemma {:induction false} GroupAllListed(flows: seq<Flow>, dir: Dir, policyNS: string, l7Enabled: bool)
    ensures Listed(GroupAll(flows, dir, policyNS, l7Enabled))
  {
    if flows != [] {
      var front, f := flows[..|flows| - 1], flows[|flows| - 1];
      GroupAllListed(front, dir, policyNS, l7Enabled);
      var g, t := GroupAll(front, dir, policyNS, l7Enabled), Target(f, dir, policyNS);
      if t.Some? { OpenListed(g, t.value.0, t.value.1); }
    }
  }

  lemma OpenListed(g: Grouping, k: BucketKey, peer: Peer)
    requires Listed(g)
    ensures Listed(Open(g, k, peer))
  {
    if k !in g.accs {
      var x := g.index;
      assert forall m :: m in x.entities + [k] <==> m in x.entities || m == k;
      assert forall m :: m in x.cidrs + [k] <==> m in x.cidrs || m == k;
      assert forall m :: m in x.endpoints + [k] <==> m in x.endpoints || m == k;
    }
  }

  function DirectionRules(g: Grouping): seq<Rule>
    requires Listed(g)
  {
    EmitBuckets(g.index.entities, g) + EmitBuckets(g.index.cidrs, g) + EmitBuckets(g.index.endpoints, g)
  }

  function FqdnRule(dns: seq<string>): Rule
  {
    var names := Sort(dns, Text.LexLe);
    Rule(Peer([], [], []), seq(|names|, i requires 0 <= i < |names| => DNSRule(names[i], "")), [DNS53(names)], [])
  }

  function FqdnRules(order: seq<BucketKey>, g: Grouping): seq<Rule>
    requires forall k :: k in order ==> k in g.accs
  {
    if order == [] then []
    else
      var a := g.accs[order[|order| - 1]];
      FqdnRules(order[..|order| - 1], g) + (if a.dns == [] then [] else [FqdnRule(a.dns)])
  }

  function EgressRules(g: Grouping): seq<Rule>
    requires Listed(g)
  {
    DirectionRules(g) + (FqdnRules(g.index.entities, g) + FqdnRules(g.index.cidrs, g) + FqdnRules(g.index.endpoints, g))
  }

  /** Flows with an L4 layer, of one direction. */
  function Towards(flows: seq<Flow>, dir: Dir): seq<Flow>
  {
    if flows == [] then []
    else
      var f := flows[|flows| - 1];
      Towards(flows[..|flows| - 1], dir)
      + (if f.l4.Some? && f.dir == (if dir == Ingress then In else Out) then [f] else [])
  }

  /** The endpoint labels of the first flow whose policy-target endpoint is known. */
  function Subject(flows: seq<Flow>): map<string, string>
  {
    if flows == [] then map[]
    else if flows[0].dir == In && flows[0].destination.Some? then flows[0].destination.value.selected
    else if flows[0].dir == Out && flows[0].source.Some? then flows[0].source.value.selected
    else Subject(flows[1..])
  }

  function GroupingOf(flows: seq<Flow>, dir: Dir, namespace: string, l7Enabled: bool): (g: Grouping)
    ensures Listed(g)
  {
    GroupAllListed(Towards(flows, dir), dir, namespace, l7Enabled);
    GroupAll(Towards(flows, dir), dir, namespace, l7Enabled)
  }

  /** The policy emitted from two groupings. */
  function Assemble(namespace: string, workload: string, subject: map<string, string>, ingress: Grouping, egress: Grouping,
                    dnsSelector: map<string, string>): Policy
    requires Listed(ingress) && Listed(egress)
  {
    Policy("cpg-" + workload, namespace,
           Some(Spec(subject, DirectionRules(ingress), WithCompanion(EgressRules(egress), dnsSelector))))
  }

  function Build(namespace: string, workload: string, flows: seq<Flow>, l7Enabled: bool, dnsSelector: map<string, string>): Policy
  {
    Assemble(namespace, workload, Subject(flows), GroupingOf(flows, Ingress, namespace, l7Enabled),
             GroupingOf(flows, Egress, namespace, l7Enabled), dnsSelector)
  }

  method EmitInOrder(order: seq<BucketKey>, g: Grouping) returns (rules: seq<Rule>)
    requires forall k :: k in order ==> k in g.accs && k in g.index.peers
    ensures rules == EmitBuckets(order, g)
  {
    rules := [];
    for i := 0 to |order|
      invariant rules == EmitBuckets(order[..i], g)
    {
      assert order[..i + 1][..i] == order[..i];
      var k := order[i];
      assert k in order;
      var a, peer := g.accs[k], g.index.peers[k];
      if |a.ports| > 0 {
        var prs := PortRulesFor(a.ports, a.http);
        rules := rules + [Rule(peer, [], prs, [])];
      }
      if |a.icmps| > 0 {
        rules := rules + [Rule(peer, [], [], [a.icmps])];
      }
      assert rules == EmitBuckets(order[..i], g) + RulesFrom(peer, a);
    }
    assert order[..|order|] == order;
  }

  method FqdnEgressRulesFrom(order: seq<BucketKey>, g: Grouping) returns (rules: seq<Rule>)
    requires forall k :: k in order ==> k in g.accs
    ensures rules == FqdnRules(order, g)
  {
    rules := [];
    for i := 0 to |order|
      invariant rules == FqdnRules(order[..i], g)
    {
      assert order[..i + 1][..i] == order[..i];
      assert order[i] in order;
      var a := g.accs[order[i]];
      if |a.dns| == 0 {
        assert rules + [] == rules;
        continue;
      }
      rules := rules + [FqdnRule(a.dns)];
    }
    assert order[..|order|] == order;
  }

  method BuildDirectionRules(g: Grouping) returns (rules: seq<Rule>)
    requires Listed(g)
    ensures rules == DirectionRules(g)
  {
    var a := EmitInOrder(g.index.entities, g);
    var b := EmitInOrder(g.index.cidrs, g);
    var c := EmitInOrder(g.index.endpoints, g);
    rules := a + b + c;
  }

  method SplitByDirection(flows: seq<Flow>) returns (ingress: seq<Flow>, egress: seq<Flow>)
    ensures ingress == Towards(flows, Ingress) && egress == Towards(flows, Egress)
  {
    ingress, egress := [], [];
    for i := 0 to |flows|
      invariant ingress == Towards(flows[..i], Ingress) && egress == Towards(flows[..i], Egress)
    {
      assert flows[..i + 1][..i] == flows[..i];
      var f := flows[i];
      if f.l4.None? { continue; }
      match f.dir {
        case In => ingress := ingress + [f];
        case Out => egress := egress + [f];
        case Unset =>
      }
    }
    assert flows[..|flows|] == flows;
  }

  method BuildEgressRules(g: Grouping) returns (rules: seq<Rule>)
    requires Listed(g)
    ensures rules == EgressRules(g)
  {
    rules := BuildDirectionRules(g);
    var fqdnE := FqdnEgressRulesFrom(g.index.entities, g);
    var fqdnC := FqdnEgressRulesFrom(g.index.cidrs, g);
    var fqdnP := FqdnEgressRulesFrom(g.index.endpoints, g);
    rules := rules + (fqdnE + fqdnC + fqdnP);
  }

  /** The groups of one direction, observed and collapsed when there is a collapse state. */
  method GroupDirection(flows: seq<Flow>, dir: Dir, namespace: string, l7Enabled: bool, collapse: L7CollapseState?<ObsKey>, minFlows: int)
    returns (h: Grouping)
    modifies collapse
    ensures Listed(h) && ReadOut(GroupAll(flows, dir, namespace, l7Enabled), h, l7Enabled, collapse, dir, minFlows)
    ensures collapse != null ==> collapse.retained == old(collapse.retained)
    ensures collapse != null ==> collapse.collected == ObserveAll(old(collapse.collected), flows, dir, namespace, l7Enabled)
  {
    ghost var g := GroupAll(flows, dir, namespace, l7Enabled);
    var buckets, index := GroupFlows(flows, dir, namespace, l7Enabled, collapse);
    h := ReadBuckets(buckets, index, g.accs, l7Enabled, collapse, dir, minFlows);
    GroupAllListed(flows, dir, namespace, l7Enabled);
  }

  /** What a call leaves in the window: the flows of both directions, ingress first. */
  function ObservedBy(c: Observations, flows: seq<Flow>, namespace: string, l7Enabled: bool): Observations
  {
    ObserveAll(ObserveAll(c, Towards(flows, Ingress), Ingress, namespace, l7Enabled), Towards(flows, Egress), Egress, namespace, l7Enabled)
  }

  /** Ingress lists are collapsed before egress flows are observed, egress lists after. */
  ghost predicate BuiltCollapsed(p: Policy, namespace: string, workload: string, flows: seq<Flow>, dnsSelector: map<string, string>,
                                 retained: Observations, collected: Observations, minFlows: int)
  {
    exists gi, ge :: BuiltFrom(p, namespace, workload, flows, dnsSelector, retained, collected, minFlows, gi, ge)
  }

  ghost predicate BuiltFrom(p: Policy, namespace: string, workload: string, flows: seq<Flow>, dnsSelector: map<string, string>,
                            retained: Observations, collected: Observations, minFlows: int, gi: Grouping, ge: Grouping)
  {
    && Listed(gi) && Listed(ge)
    && CollapsedGrouping(GroupingOf(flows, Ingress, namespace, true), gi, retained,
                         ObserveAll(collected, Towards(flows, Ingress), Ingress, namespace, true), Ingress, minFlows)
    && CollapsedGrouping(GroupingOf(flows, Egress, namespace, true), ge, retained,
                         ObservedBy(collected, flows, namespace, true), Egress, minFlows)
    && p == Assemble(namespace, workload, Subject(flows), gi, ge, dnsSelector)
  }

  method BuildPolicy(namespace: string, workload: string, flows: seq<Flow>, l7Enabled: bool, dnsSelector: map<string, string>,
                     collapse: L7CollapseState?<ObsKey>, minFlows: int)
    returns (cnp: Policy)
    modifies collapse
    ensures collapse == null || !l7Enabled ==> cnp == Build(namespace, workload, flows, l7Enabled, dnsSelector)
    ensures collapse != null && l7Enabled ==>
              BuiltCollapsed(cnp, namespace, workload, flows, dnsSelector, old(collapse.retained), old(collapse.collected), minFlows)
    ensures collapse != null ==>
              collapse.retained == old(collapse.retained)
              && collapse.collected == ObservedBy(old(collapse.collected), flows, namespace, l7Enabled)
  {
    var ingressFlows, egressFlows := SplitByDirection(flows);
    var subject := PickSelectorLabels(flows);
    var gi := GroupDirection(ingressFlows, Ingress, namespace, l7Enabled, collapse, minFlows);
    var ge := GroupDirection(egressFlows, Egress, namespace, l7Enabled, collapse, minFlows);
    var ingress := BuildDirectionRules(gi);
    var egress := BuildEgressRules(ge);
    cnp := Policy("cpg-" + workload, namespace, Some(Spec(subject, ingress, egress)));
    cnp := EnsureKubeDNSCompanion(cnp, dnsSelector);
    assert collapse != null && l7Enabled ==>
      BuiltFrom(cnp, namespace, workload, flows, dnsSelector, old(collapse.retained), old(collapse.collected), minFlows, gi, ge);
  }

  method PickSelectorLabels(flows: seq<Flow>) returns (subject: map<string, string>)
    ensures subject == Subject(flows)
  {
    for i := 0 to |flows|
      invariant Subject(flows[i..]) == Subject(flows)
    {
      assert flows[i..][1..] == flows[i + 1..];
      var f := flows[i];
      if f.dir == In && f.destination.Some? { return f.destination.value.selected; }
      if f.dir == Out && f.source.Some? { return f.source.value.selected; }
    }
    return map[];
  }
}
