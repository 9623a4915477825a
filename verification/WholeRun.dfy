/**
 Whole runs with path collapse on: flush after flush, with write failures and skipped events, the
 file of a workload keeps matching every raw path delivered to it so far. Rests on the observation
 store keeping the full history (l7_collapse.go), the lists BuildPolicy collapses from it
 (builder.go) and replace-mode merging installing the newest list (merge.go).
 */
module WholeRun {
  import opened PolicyTypes
  import opened Merge
  import opened MergeMeaning
  import opened CompanionDNS
  import opened Builder
  import opened BuilderMeaning
  import opened Windows
  import opened Segments
  import opened Collapse
  import opened CollapseState
  import opened CollapseEngine
  import Regex

  // ---- Sightings ------------------------------------------------------------------------------

  /** An HTTP observation, under the peer its bucket was filed with. */
  datatype Sighting = Sighting(dir: Dir, peer: Peer, pp: PortProto, verb: string, path: string)

  /** With clean labels the peer of a rule gives back the bucket it came from. */
  function KeyOfPeer(peer: Peer): BucketKey
  {
    if peer.entities != [] then EntityKey(peer.entities[0])
    else if peer.cidrs != [] then CIDRKey(peer.cidrs[0])
    else if peer.endpoints != [] then PeerKey(peer.endpoints[0].labels - {NS_KEY})
    else EntityKey("")
  }

  lemma KeyOfTarget(f: Flow, dir: Dir, namespace: string)
    requires CleanLabels([f]) && Target(f, dir, namespace).Some?
    ensures KeyOfPeer(Target(f, dir, namespace).value.1) == Target(f, dir, namespace).value.0
  {
    assert f in [f];
    var t := Target(f, dir, namespace).value;
    if t.0.PeerKey? { ScopedSelector(PeerEnd(f, dir).value, namespace); }
  }

  function KeyOfSighting(x: Sighting): ObsKey { ObsKey(x.dir, KeyOfPeer(x.peer), x.pp) }

  /** Flow f is observed under this key, method and path. */
  predicate ObservedAs(f: Flow, namespace: string, key: ObsKey, verb: string, path: string)
  {
    && FiledUnder(f, key.dir, namespace, key.bucket)
    && KindOf(f, key.dir, true) == L7HTTP
    && KeyOf(ExtractProto(f.l4).value) == key.pp && f.l7.verb == verb && f.l7.rawPath == path
  }

  ghost predicate SomeObserved(flows: seq<Flow>, namespace: string, key: ObsKey, verb: string, path: string)
  {
    exists f :: f in flows && ObservedAs(f, namespace, key, verb, path)
  }

  /** A TCP or UDP flow of the batch is filed with this peer and shows this path. */
  ghost predicate Sighted(flows: seq<Flow>, namespace: string, x: Sighting)
  {
    exists f :: f in Towards(flows, x.dir) && SightedIn(f, flows, namespace, x)
  }

  ghost predicate SightedIn(f: Flow, flows: seq<Flow>, namespace: string, x: Sighting)
  {
    var peers := GroupAll(Towards(flows, x.dir), x.dir, namespace, true).index.peers;
    var t := Target(f, x.dir, namespace);
    && t.Some? && t.value.0 in peers && peers[t.value.0] == x.peer
    && !ExtractProto(f.l4).value.icmp && ObservedAs(f, namespace, ObsKey(x.dir, t.value.0, x.pp), x.verb, x.path)
  }

  /** Where labels determine the scope, a sighting is filed under the flow's own peer. */
  lemma FlowIsSighted(flows: seq<Flow>, namespace: string, f: Flow, dir: Dir)
    requires SameScope(flows, namespace) && f in Towards(flows, dir) && KindOf(f, dir, true) == L7HTTP
    requires Target(f, dir, namespace).Some? && !ExtractProto(f.l4).value.icmp
    ensures Sighted(flows, namespace, Sighting(dir, Target(f, dir, namespace).value.1,
                                               KeyOf(ExtractProto(f.l4).value), f.l7.verb, f.l7.rawPath))
  {
    OnePeerPerBucket(flows, namespace, true, f, dir);
    var x := Sighting(dir, Target(f, dir, namespace).value.1, KeyOf(ExtractProto(f.l4).value), f.l7.verb, f.l7.rawPath);
    assert SightedIn(f, flows, namespace, x);
  }

  lemma ObserveOneAt(c: Observations, f: Flow, dir: Dir, namespace: string, key: ObsKey, verb: string)
    ensures PathsIn(ObserveOne(c, f, dir, namespace, true), key, verb)
         == PathsIn(c, key, verb) + (if dir == key.dir && f.l7.HTTPRecord? && ObservedAs(f, namespace, key, verb, f.l7.rawPath)
                                     then {f.l7.rawPath} else {})
  {
  }

  lemma {:induction false} ObserveAllMembers(c: Observations, flows: seq<Flow>, dir: Dir, namespace: string, key: ObsKey, verb: string, path: string)
    ensures path in PathsIn(ObserveAll(c, flows, dir, namespace, true), key, verb) <==>
            path in PathsIn(c, key, verb) || (dir == key.dir && SomeObserved(flows, namespace, key, verb, path))
  {
    if flows != [] {
      var front, f := flows[..|flows| - 1], flows[|flows| - 1];
      assert flows == front + [f];
      ObserveAllMembers(c, front, dir, namespace, key, verb, path);
      ObserveOneAt(ObserveAll(c, front, dir, namespace, true), f, dir, namespace, key, verb);
      assert forall x :: x in flows <==> x in front || x == f;
    }
  }

  /** A call adds what its flows of the key's direction show, and nothing else. */
  lemma {:induction false} ObservedByMembers(c: Observations, flows: seq<Flow>, namespace: string, key: ObsKey, verb: string, path: string)
    ensures path in PathsIn(ObservedBy(c, flows, namespace, true), key, verb) <==>
            path in PathsIn(c, key, verb) || SomeObserved(Towards(flows, key.dir), namespace, key, verb, path)
  {
    var mid := ObserveAll(c, Towards(flows, Ingress), Ingress, namespace, true);
    ObserveAllMembers(c, Towards(flows, Ingress), Ingress, namespace, key, verb, path);
    ObserveAllMembers(mid, Towards(flows, Egress), Egress, namespace, key, verb, path);
  }

  // ---- What a collapsed policy says -----------------------------------------------------------

  ghost predicate CleanFlows(flows: seq<Flow>)
  {
    CleanLabels(flows) && forall f :: f in flows && f.l7.HTTPRecord? ==> NUL !in f.l7.rawPath
  }

  /** The HTTP list of one bucket after collapse. */
  ghost predicate WholeList(p: Policy, x: Sighting, retained: Observations, collected: Observations, minFlows: int)
  {
    exists effective ::
      && IsUnion(effective, SetAt(retained, KeyOfSighting(x)), SetAt(collected, KeyOfSighting(x)))
      && (forall h :: Says(p, Entry(x.dir, x.peer, OnHTTP(x.pp, h))) <==> h in CollapsedRules(effective, ResolveMinFlows(minFlows)))
  }

  ghost predicate HasHTTP(p: Policy, x: Sighting)
  {
    RulesHTTP(RulesOf(p, x.dir), x.peer, x.pp)
  }

  lemma PlainRulesSayNoHTTP(rules: seq<Rule>, peer: Peer, pp: PortProto, h: HTTPRule)
    requires forall r :: r in rules ==> NoHTTPRule(r)
    ensures !RulesSay(rules, peer, OnHTTP(pp, h))
  {
  }

  /** FQDN rules and the companion carry no HTTP, so a direction's HTTP entries are its buckets'. */
  lemma EgressSaysHTTP(g: Grouping, dnsSelector: map<string, string>, peer: Peer, pp: PortProto, h: HTTPRule)
    requires Listed(g)
    ensures RulesSay(WithCompanion(EgressRules(g), dnsSelector), peer, OnHTTP(pp, h)) <==>
            GroupingSays(g, peer, OnHTTP(pp, h))
  {
    var fact := OnHTTP(pp, h);
    DirectionSays(g, peer, fact);
    FqdnRulesPlain(g.index.entities, g);
    FqdnRulesPlain(g.index.cidrs, g);
    FqdnRulesPlain(g.index.endpoints, g);
    var more := FqdnRules(g.index.entities, g) + FqdnRules(g.index.cidrs, g) + FqdnRules(g.index.endpoints, g);
    RulesAppend(DirectionRules(g), more, peer, fact);
    PlainRulesSayNoHTTP(more, peer, pp, h);
    var names := CollectedNames(EgressRules(g));
    var c := Companion(names, dnsSelector);
    DNS53Plain(names, c);
    RulesAppend(EgressRules(g), [c], peer, fact);
    PlainRulesSayNoHTTP([c], peer, pp, h);
  }

  function GroupingFor(dir: Dir, gi: Grouping, ge: Grouping): Grouping { if dir == Ingress then gi else ge }

  /** A built policy, seen one direction at a time, with the window as it is after the call. */
  lemma BuiltDirection(p: Policy, namespace: string, workload: string, flows: seq<Flow>, dnsSelector: map<string, string>,
                       retained: Observations, collected: Observations, minFlows: int, gi: Grouping, ge: Grouping, x: Sighting)
    requires BuiltFrom(p, namespace, workload, flows, dnsSelector, retained, collected, minFlows, gi, ge)
    ensures var g := GroupingFor(x.dir, gi, ge);
            && Listed(g) && forall h :: Says(p, Entry(x.dir, x.peer, OnHTTP(x.pp, h))) <==> GroupingSays(g, x.peer, OnHTTP(x.pp, h))
  {
    var g := GroupingFor(x.dir, gi, ge);
    forall h ensures Says(p, Entry(x.dir, x.peer, OnHTTP(x.pp, h))) <==> GroupingSays(g, x.peer, OnHTTP(x.pp, h)) {
      if x.dir == Ingress { DirectionSays(gi, x.peer, OnHTTP(x.pp, h)); }
      else { EgressSaysHTTP(ge, dnsSelector, x.peer, x.pp, h); }
    }
  }

  /** Ingress paths are all observed when ingress lists are collapsed. */
  lemma WindowOfDirection(c: Observations, flows: seq<Flow>, namespace: string, key: ObsKey, verb: string)
    ensures key.dir == Ingress ==>
            PathsIn(ObserveAll(c, Towards(flows, Ingress), Ingress, namespace, true), key, verb)
            == PathsIn(ObservedBy(c, flows, namespace, true), key, verb)
  {
    if key.dir == Ingress {
      var mid := ObserveAll(c, Towards(flows, Ingress), Ingress, namespace, true);
      forall path ensures path in PathsIn(mid, key, verb) <==> path in PathsIn(ObservedBy(c, flows, namespace, true), key, verb) {
        ObserveAllMembers(mid, Towards(flows, Egress), Egress, namespace, key, verb, path);
      }
    }
  }

  ghost predicate PeersAreKeys(g: Grouping)
  {
    forall k :: k in g.accs && k in g.index.peers ==> KeyOfPeer(g.index.peers[k]) == k
  }

  lemma GroupPeersAreKeys(flows: seq<Flow>, dir: Dir, namespace: string)
    requires CleanLabels(flows)
    ensures PeersAreKeys(GroupingOf(flows, dir, namespace, true))
  {
    var part := Towards(flows, dir);
    var g := GroupingOf(flows, dir, namespace, true);
    TowardsMembers(flows, dir);
    forall k | k in g.accs && k in g.index.peers ensures KeyOfPeer(g.index.peers[k]) == k {
      BucketPeer(part, dir, namespace, true, k);
      assert PeerNamed(part, dir, namespace, k, g.index.peers[k]);
      var f :| f in part && Target(f, dir, namespace) == Some((k, g.index.peers[k]));
      KeyOfTarget(f, dir, namespace);
    }
  }

  ghost predicate GroupWhole(g: Grouping, x: Sighting, retained: Observations, collected: Observations, minFlows: int)
    requires Listed(g)
  {
    exists effective ::
      && IsUnion(effective, SetAt(retained, KeyOfSighting(x)), SetAt(collected, KeyOfSighting(x)))
      && forall h :: GroupingSays(g, x.peer, OnHTTP(x.pp, h)) <==> h in CollapsedRules(effective, ResolveMinFlows(minFlows))
  }

  /** Where one bucket of a collapsed grouping says HTTP for a port, its list is the collapsed history. */
  lemma BucketIsWhole(g: Grouping, x: Sighting, retained: Observations, collected: Observations, minFlows: int, k: BucketKey)
    requires Listed(g) && PeersAreKeys(g) && k in g.accs && g.index.peers[k] == x.peer && x.pp in g.accs[k].ports
    requires x.pp in g.accs[k].http && CollapsedList(g.accs[k].http[x.pp], retained, collected, ObsKey(x.dir, k, x.pp), minFlows)
    ensures GroupWhole(g, x, retained, collected, minFlows)
  {
    var rules := g.accs[k].http[x.pp];
    var effective :| IsUnion(effective, SetAt(retained, ObsKey(x.dir, k, x.pp)), SetAt(collected, ObsKey(x.dir, k, x.pp)))
                     && Elems(rules) == CollapsedRules(effective, ResolveMinFlows(minFlows));
    forall h ensures GroupingSays(g, x.peer, OnHTTP(x.pp, h)) <==> h in CollapsedRules(effective, ResolveMinFlows(minFlows)) {
      assert h in rules <==> h in Elems(rules);
      assert AccSays(g.accs[k], OnHTTP(x.pp, h)) <==> h in rules;
      forall m | m in g.accs && g.index.peers[m] == x.peer ensures m == k { }
    }
  }

  /** The same through the buckets the collapse started from, and with the window after the call. */
  lemma CollapsedBucketIsWhole(g: Grouping, x: Sighting, retained: Observations, collected: Observations, minFlows: int,
                               flows: seq<Flow>, namespace: string, k: BucketKey)
    requires CleanLabels(flows) && Listed(g)
    requires CollapsedGrouping(GroupingOf(flows, x.dir, namespace, true), g, retained,
                               WindowFor(x.dir, collected, flows, namespace), x.dir, minFlows)
    requires k in g.accs && g.index.peers[k] == x.peer && x.pp in g.accs[k].ports && x.pp in g.accs[k].http
    ensures GroupWhole(g, x, retained, ObservedBy(collected, flows, namespace, true), minFlows)
  {
    var window := WindowFor(x.dir, collected, flows, namespace);
    GroupPeersAreKeys(flows, x.dir, namespace);
    assert CollapsedAcc(GroupingOf(flows, x.dir, namespace, true).accs[k], g.accs[k], retained, window, x.dir, k, minFlows);
    BucketIsWhole(g, x, retained, window, minFlows, k);
    WindowGrown(g, x, retained, collected, minFlows, flows, namespace);
  }

  lemma WindowGrown(g: Grouping, x: Sighting, retained: Observations, collected: Observations, minFlows: int, flows: seq<Flow>, namespace: string)
    requires Listed(g) && GroupWhole(g, x, retained, WindowFor(x.dir, collected, flows, namespace), minFlows)
    ensures GroupWhole(g, x, retained, ObservedBy(collected, flows, namespace, true), minFlows)
  {
    var effective :|
      IsUnion(effective, SetAt(retained, KeyOfSighting(x)), SetAt(WindowFor(x.dir, collected, flows, namespace), KeyOfSighting(x)))
      && forall h :: GroupingSays(g, x.peer, OnHTTP(x.pp, h)) <==> h in CollapsedRules(effective, ResolveMinFlows(minFlows));
    UnionOfDirection(effective, retained, collected, flows, namespace, KeyOfSighting(x));
  }

  /** The window a direction is collapsed with. */
  function WindowFor(dir: Dir, c: Observations, flows: seq<Flow>, namespace: string): Observations
  {
    if dir == Ingress then ObserveAll(c, Towards(flows, Ingress), Ingress, namespace, true) else ObservedBy(c, flows, namespace, true)
  }

  lemma UnionOfDirection(effective: PathSet, retained: Observations, c: Observations, flows: seq<Flow>, namespace: string, key: ObsKey)
    ensures IsUnion(effective, SetAt(retained, key), SetAt(WindowFor(key.dir, c, flows, namespace), key)) <==>
            IsUnion(effective, SetAt(retained, key), SetAt(ObservedBy(c, flows, namespace, true), key))
  {
    forall verb ensures PathsAt(SetAt(WindowFor(key.dir, c, flows, namespace), key), verb)
                     == PathsAt(SetAt(ObservedBy(c, flows, namespace, true), key), verb) {
      WindowOfDirection(c, flows, namespace, key, verb);
    }
  }

  /** The collapsed grouping behind one direction of a built policy. */
  lemma BuiltGrouping(p: Policy, namespace: string, workload: string, flows: seq<Flow>, dnsSelector: map<string, string>,
                      retained: Observations, collected: Observations, minFlows: int, x: Sighting) returns (g: Grouping)
    requires BuiltCollapsed(p, namespace, workload, flows, dnsSelector, retained, collected, minFlows)
    ensures Listed(g)
    ensures CollapsedGrouping(GroupingOf(flows, x.dir, namespace, true), g, retained,
                              WindowFor(x.dir, collected, flows, namespace), x.dir, minFlows)
    ensures forall h :: Says(p, Entry(x.dir, x.peer, OnHTTP(x.pp, h))) <==> GroupingSays(g, x.peer, OnHTTP(x.pp, h))
  {
    var gi, ge :| BuiltFrom(p, namespace, workload, flows, dnsSelector, retained, collected, minFlows, gi, ge);
    BuiltDirection(p, namespace, workload, flows, dnsSelector, retained, collected, minFlows, gi, ge, x);
    g := GroupingFor(x.dir, gi, ge);
  }

  ghost predicate GroupHTTP(g: Grouping, x: Sighting)
    requires Listed(g)
  {
    exists h :: GroupingSays(g, x.peer, OnHTTP(x.pp, h))
  }

  lemma HasHTTPByGroup(p: Policy, g: Grouping, x: Sighting)
    requires p.spec.Some? && Listed(g)
    requires forall h :: Says(p, Entry(x.dir, x.peer, OnHTTP(x.pp, h))) <==> GroupingSays(g, x.peer, OnHTTP(x.pp, h))
    ensures HasHTTP(p, x) <==> GroupHTTP(g, x)
  {
    if HasHTTP(p, x) {
      var h :| RulesSay(RulesOf(p, x.dir), x.peer, OnHTTP(x.pp, h));
      assert Says(p, Entry(x.dir, x.peer, OnHTTP(x.pp, h)));
    }
    if GroupHTTP(g, x) {
      var h :| GroupingSays(g, x.peer, OnHTTP(x.pp, h));
      assert Says(p, Entry(x.dir, x.peer, OnHTTP(x.pp, h)));
    }
  }

  lemma GroupHTTPIsWhole(g: Grouping, x: Sighting, retained: Observations, collected: Observations, minFlows: int,
                         flows: seq<Flow>, namespace: string)
    requires CleanLabels(flows) && Listed(g) && GroupHTTP(g, x)
    requires CollapsedGrouping(GroupingOf(flows, x.dir, namespace, true), g, retained,
                               WindowFor(x.dir, collected, flows, namespace), x.dir, minFlows)
    ensures GroupWhole(g, x, retained, ObservedBy(collected, flows, namespace, true), minFlows)
  {
    var h0 :| GroupingSays(g, x.peer, OnHTTP(x.pp, h0));
    var k :| k in g.accs && g.index.peers[k] == x.peer && AccSays(g.accs[k], OnHTTP(x.pp, h0));
    CollapsedBucketIsWhole(g, x, retained, collected, minFlows, flows, namespace, k);
  }

  lemma WholeByGroup(p: Policy, g: Grouping, x: Sighting, retained: Observations, collected: Observations, minFlows: int)
    requires Listed(g) && GroupWhole(g, x, retained, collected, minFlows)
    requires forall h :: Says(p, Entry(x.dir, x.peer, OnHTTP(x.pp, h))) <==> GroupingSays(g, x.peer, OnHTTP(x.pp, h))
    ensures WholeList(p, x, retained, collected, minFlows)
  {
  }

  /** An HTTP list a built policy carries is the collapsed whole-run history of its group. */
  lemma BuiltWhole(p: Policy, namespace: string, workload: string, flows: seq<Flow>, dnsSelector: map<string, string>,
                   retained: Observations, collected: Observations, minFlows: int, x: Sighting)
    requires BuiltCollapsed(p, namespace, workload, flows, dnsSelector, retained, collected, minFlows)
    requires CleanLabels(flows) && HasHTTP(p, x)
    ensures WholeList(p, x, retained, ObservedBy(collected, flows, namespace, true), minFlows)
  {
    var g := BuiltGrouping(p, namespace, workload, flows, dnsSelector, retained, collected, minFlows, x);
    HasHTTPByGroup(p, g, x);
    GroupHTTPIsWhole(g, x, retained, collected, minFlows, flows, namespace);
    WholeByGroup(p, g, x, retained, ObservedBy(collected, flows, namespace, true), minFlows);
  }

  /** The bucket of a sighting lists its port and has an HTTP list for it. */
  lemma SightedBucket(flows: seq<Flow>, namespace: string, x: Sighting) returns (k: BucketKey)
    requires Sighted(flows, namespace, x)
    ensures var g := GroupingOf(flows, x.dir, namespace, true);
            k in g.accs && g.index.peers[k] == x.peer && x.pp in g.accs[k].ports && x.pp in g.accs[k].http
    ensures SomeObserved(Towards(flows, x.dir), namespace, ObsKey(x.dir, k, x.pp), x.verb, x.path)
  {
    var part := Towards(flows, x.dir);
    var f :| f in part && SightedIn(f, flows, namespace, x);
    k := Target(f, x.dir, namespace).value.0;
    assert FiledUnder(f, x.dir, namespace, k);
    assert SomeFiled(part, x.dir, namespace, k);
    BucketPeer(part, x.dir, namespace, true, k);
    assert FlowFact(f, x.dir, true, OnPort(x.pp));
    assert FiledFact(part, x.dir, namespace, true, k, OnPort(x.pp));
    BucketExact(part, x.dir, namespace, true, k, OnPort(x.pp));
    assert HTTPFact(f, x.dir, true, x.pp, HTTPRuleOf(f));
    assert FiledHTTP(part, x.dir, namespace, true, k, x.pp, HTTPRuleOf(f));
    BucketHTTPFacts(part, x.dir, namespace, true, k, x.pp, HTTPRuleOf(f));
  }

  /** A sighting of the batch is in the history its list is collapsed from. */
  lemma SightedIsObserved(flows: seq<Flow>, namespace: string, retained: Observations, collected: Observations, x: Sighting)
    requires Sighted(flows, namespace, x) && CleanFlows(flows)
    ensures x.path in PathsIn(ObservedBy(collected, flows, namespace, true), KeyOfSighting(x), x.verb)
  {
    var k := SightedBucket(flows, namespace, x);
    GroupPeersAreKeys(flows, x.dir, namespace);
    ObservedByMembers(collected, flows, namespace, KeyOfSighting(x), x.verb, x.path);
  }

  /** A sighting of the batch makes the built policy carry an HTTP list for its peer and port. */
  lemma SightedHasHTTP(p: Policy, namespace: string, workload: string, flows: seq<Flow>, dnsSelector: map<string, string>,
                       retained: Observations, collected: Observations, minFlows: int, x: Sighting)
    requires BuiltCollapsed(p, namespace, workload, flows, dnsSelector, retained, collected, minFlows)
    requires CleanFlows(flows) && Sighted(flows, namespace, x)
    ensures HasHTTP(p, x)
  {
    var g := BuiltGrouping(p, namespace, workload, flows, dnsSelector, retained, collected, minFlows, x);
    SightedGroupIsWhole(g, x, retained, collected, minFlows, flows, namespace);
    SightedIsObserved(flows, namespace, retained, collected, x);
    var h := SomeRule(g, x, retained, ObservedBy(collected, flows, namespace, true), minFlows);
    assert Says(p, Entry(x.dir, x.peer, OnHTTP(x.pp, h)));
  }

  lemma SightedGroupIsWhole(g: Grouping, x: Sighting, retained: Observations, collected: Observations, minFlows: int,
                            flows: seq<Flow>, namespace: string)
    requires CleanLabels(flows) && Listed(g) && Sighted(flows, namespace, x)
    requires CollapsedGrouping(GroupingOf(flows, x.dir, namespace, true), g, retained,
                               WindowFor(x.dir, collected, flows, namespace), x.dir, minFlows)
    ensures GroupWhole(g, x, retained, ObservedBy(collected, flows, namespace, true), minFlows)
  {
    var k := SightedBucket(flows, namespace, x);
    assert CollapsedAcc(GroupingOf(flows, x.dir, namespace, true).accs[k], g.accs[k], retained,
                        WindowFor(x.dir, collected, flows, namespace), x.dir, k, minFlows);
    CollapsedBucketIsWhole(g, x, retained, collected, minFlows, flows, namespace, k);
  }

  /** A group with an observed path has a rule. */
  lemma SomeRule(g: Grouping, x: Sighting, retained: Observations, collected: Observations, minFlows: int) returns (h: HTTPRule)
    requires Listed(g) && GroupWhole(g, x, retained, collected, minFlows)
    requires x.path in PathsIn(collected, KeyOfSighting(x), x.verb)
    ensures GroupingSays(g, x.peer, OnHTTP(x.pp, h))
  {
    var effective :|
      IsUnion(effective, SetAt(retained, KeyOfSighting(x)), SetAt(collected, KeyOfSighting(x)))
      && forall h :: GroupingSays(g, x.peer, OnHTTP(x.pp, h)) <==> h in CollapsedRules(effective, ResolveMinFlows(minFlows));
    assert x.path in PathsAt(effective, x.verb);
    h := HTTPRule(x.verb, RuleFor(effective[x.verb], x.path, ResolveMinFlows(minFlows)));
    assert h in CollapsedRules(effective, ResolveMinFlows(minFlows));
  }

  // ---- Runs ------------------------------------------------------------------------------------

  /**
   One bucket of a flush, in the order the policies were built; accepted once its policy has reached the file, or was
   skipped as unchanged since the last write.
   */
  datatype Event = Event(name: Name, flows: seq<Flow>, policy: Policy, accepted: bool)

  /** log: the events built; the first delivered ones have reached the writer, the others are under way to it. */
  datatype Run = Run(retained: Observations, collected: Observations, files: map<Name, Policy>, written: map<Name, Policy>,
                     log: seq<Event>, delivered: nat)

  datatype Outcome = Written | Skipped | Failed

  ghost predicate Started(s: Run)
  {
    s.retained == map[] && s.collected == map[] && s.written == map[] && s.log == [] && s.delivered == 0
    && forall n :: n in s.files ==> RegularPolicy(s.files[n])
  }

  /** The aggregator builds one bucket of a flush with collapse and sends it off. */
  ghost predicate BuildStep(s: Run, t: Run, name: Name, flows: seq<Flow>, dnsSelector: map<string, string>, minFlows: int, p: Policy)
  {
    && BuiltCollapsed(p, name.namespace, name.workload, flows, dnsSelector, s.retained, s.collected, minFlows)
    && t == s.(collected := ObservedBy(s.collected, flows, name.namespace, true), log := s.log + [Event(name, flows, p, false)])
  }

  /** The writer takes the next event and writes it, skips it or fails to write it. */
  ghost predicate DeliverStep(s: Run, t: Run, outcome: Outcome)
  {
    && s.delivered < |s.log|
    && var e := s.log[s.delivered];
       && t.retained == s.retained && t.collected == s.collected && t.delivered == s.delivered + 1
       && t.log == s.log[s.delivered := e.(accepted := outcome != Failed)]
       && match outcome
          case Written => t.files == s.files[e.name := FileWith(s.files, e.name, e.policy, true)] && t.written == s.written[e.name := e.policy]
          case Skipped => t.files == s.files && t.written == s.written && e.name in s.written && SameMeaning(s.written[e.name], e.policy)
          case Failed => t.files == s.files && t.written == s.written
  }

  /** The end of a flush. */
  ghost predicate AbsorbStep(s: Run, t: Run)
  {
    && t == s.(retained := t.retained, collected := map[])
    && forall k :: IsUnion(SetAt(t.retained, k), SetAt(s.retained, k), SetAt(s.collected, k))
  }

  /** The aggregator and the writer move in any interleaving. */
  ghost predicate Next(s: Run, t: Run, dnsSelector: map<string, string>, minFlows: int)
  {
    || AbsorbStep(s, t)
    || (exists outcome :: DeliverStep(s, t, outcome))
    || (exists name, flows, p :: CleanFlows(flows) && BuildStep(s, t, name, flows, dnsSelector, minFlows, p))
  }

  function HistoryOf(s: Run, key: ObsKey, verb: string): set<string>
  {
    PathsIn(s.retained, key, verb) + PathsIn(s.collected, key, verb)
  }

  /** Some HTTP entry on file for the sighting's peer, port and method matches its path. */
  ghost predicate Covered(p: Policy, x: Sighting)
  {
    exists path :: Says(p, Entry(x.dir, x.peer, OnHTTP(x.pp, HTTPRule(x.verb, path)))) && Regex.PatternMatches(path, Wire(x.path))
  }

  /** Every HTTP list of p is the one on file. */
  ghost predicate ListsOnFile(p: Policy, file: Policy)
  {
    forall x: Sighting :: HasHTTP(p, x) ==> SameList(p, file, x)
  }

  ghost predicate SameList(p: Policy, file: Policy, x: Sighting)
  {
    forall h :: Says(file, Entry(x.dir, x.peer, OnHTTP(x.pp, h))) <==> Says(p, Entry(x.dir, x.peer, OnHTTP(x.pp, h)))
  }

  ghost predicate HistoryKept(s: Run)
  {
    && (forall d, x :: d in s.log && Sighted(d.flows, d.name.namespace, x) ==> x.path in HistoryOf(s, KeyOfSighting(x), x.verb))
    && (forall key, verb, path :: path in HistoryOf(s, key, verb) ==> NUL !in path)
  }

  ghost predicate FilesRegular(s: Run)
  {
    && (forall n :: n in s.files ==> RegularPolicy(s.files[n]))
    && (forall n :: n in s.written ==> n in s.files && RegularPolicy(s.written[n]) && ListsOnFile(s.written[n], s.files[n]))
  }

  /** The flows show HTTP for the peer and port of x, whatever the method and path. */
  ghost predicate SightsGroup(flows: seq<Flow>, namespace: string, x: Sighting)
  {
    exists y :: Sighted(flows, namespace, y) && y.dir == x.dir && y.peer == x.peer && y.pp == x.pp
  }

  /** x was seen in event i, and event j, the same or a later one, was accepted with HTTP for x's peer and port. */
  ghost predicate Settled(s: Run, i: nat, j: nat, x: Sighting)
  {
    && i <= j < s.delivered <= |s.log| && s.log[j].accepted
    && Sighted(s.log[i].flows, s.log[i].name.namespace, x) && SightsGroup(s.log[j].flows, s.log[j].name.namespace, x)
  }

  /**
   The promise: once an event of a workload is accepted, its file matches every rooted path seen so far for the
   peers and ports of that event, in this event or an earlier one, whether or not that one was accepted.
   */
  ghost predicate AllCovered(s: Run)
  {
    forall i: nat, j: nat, x :: Settled(s, i, j, x) && Rooted(x.path) ==>
      s.log[j].name in s.files && Covered(s.files[s.log[j].name], x)
  }

  /** The event's policy lists HTTP for the groups it saw, and its lists match whatever was seen up to it. */
  ghost predicate EventCovers(log: seq<Event>, j: nat)
    requires j < |log|
  {
    && RegularPolicy(log[j].policy)
    && (forall x :: SightsGroup(log[j].flows, log[j].name.namespace, x) ==> HasHTTP(log[j].policy, x))
    && (forall i: nat, x :: i <= j && Sighted(log[i].flows, log[i].name.namespace, x) && Rooted(x.path) && HasHTTP(log[j].policy, x) ==>
          Covered(log[j].policy, x))
  }

  ghost predicate LogCovers(s: Run)
  {
    s.delivered <= |s.log| && forall j: nat :: j < |s.log| ==> EventCovers(s.log, j)
  }

  ghost predicate Inv(s: Run) { HistoryKept(s) && FilesRegular(s) && LogCovers(s) && AllCovered(s) }

  lemma AbsorbKeepsHistory(s: Run, t: Run, key: ObsKey, verb: string)
    requires AbsorbStep(s, t)
    ensures HistoryOf(t, key, verb) == HistoryOf(s, key, verb)
  {
    assert IsUnion(SetAt(t.retained, key), SetAt(s.retained, key), SetAt(s.collected, key));
  }

  lemma AbsorbInv(s: Run, t: Run)
    requires Inv(s) && AbsorbStep(s, t)
    ensures Inv(t)
  {
    forall key, verb ensures HistoryOf(t, key, verb) == HistoryOf(s, key, verb) { AbsorbKeepsHistory(s, t, key, verb); }
    assert t.log == s.log && t.files == s.files && t.delivered == s.delivered;
    forall i: nat, j: nat, x | Settled(t, i, j, x) && Rooted(x.path) ensures t.log[j].name in t.files && Covered(t.files[t.log[j].name], x) {
      assert Settled(s, i, j, x);
    }
  }

  /** The window after an event: what it held, and what the event's flows show. */
  lemma HistoryGrows(s: Run, t: Run, flows: seq<Flow>, namespace: string, key: ObsKey, verb: string, path: string)
    requires CleanFlows(flows) && t.retained == s.retained && t.collected == ObservedBy(s.collected, flows, namespace, true)
    ensures path in HistoryOf(s, key, verb) ==> path in HistoryOf(t, key, verb)
    ensures path in HistoryOf(t, key, verb) ==> path in HistoryOf(s, key, verb) || NUL !in path
  {
    ObservedByMembers(s.collected, flows, namespace, key, verb, path);
    if path in HistoryOf(t, key, verb) && path !in HistoryOf(s, key, verb) {
      var f :| f in Towards(flows, key.dir) && ObservedAs(f, namespace, key, verb, path);
      TowardsMembers(flows, key.dir);
    }
  }

  lemma EventKeepsHistory(s: Run, t: Run, name: Name, flows: seq<Flow>)
    requires HistoryKept(s) && CleanFlows(flows)
    requires t.retained == s.retained && t.collected == ObservedBy(s.collected, flows, name.namespace, true)
    requires |t.log| > 0 && t.log == s.log + [t.log[|t.log| - 1]]
    requires t.log[|t.log| - 1].name == name && t.log[|t.log| - 1].flows == flows
    ensures HistoryKept(t)
    ensures forall x :: Sighted(flows, name.namespace, x) ==> x.path in HistoryOf(t, KeyOfSighting(x), x.verb)
  {
    forall key, verb, path | path in HistoryOf(t, key, verb) ensures NUL !in path {
      HistoryGrows(s, t, flows, name.namespace, key, verb, path);
    }
    forall x | Sighted(flows, name.namespace, x) ensures x.path in HistoryOf(t, KeyOfSighting(x), x.verb) {
      SightedIsObserved(flows, name.namespace, s.retained, s.collected, x);
    }
    forall d, x | d in s.log && Sighted(d.flows, d.name.namespace, x) ensures x.path in HistoryOf(t, KeyOfSighting(x), x.verb) {
      HistoryGrows(s, t, flows, name.namespace, KeyOfSighting(x), x.verb, x.path);
    }
  }

  /** A list collapsed from a history matches every rooted path of that history. */
  lemma WholeListCovers(p: Policy, t: Run, minFlows: int, x: Sighting)
    requires HistoryKept(t) && WholeList(p, x, t.retained, t.collected, minFlows)
    requires x.path in HistoryOf(t, KeyOfSighting(x), x.verb) && Rooted(x.path)
    ensures Covered(p, x)
  {
    var key, n := KeyOfSighting(x), ResolveMinFlows(minFlows);
    var effective :| IsUnion(effective, SetAt(t.retained, key), SetAt(t.collected, key))
                     && forall h :: Says(p, Entry(x.dir, x.peer, OnHTTP(x.pp, h))) <==> h in CollapsedRules(effective, n);
    assert PathsAt(effective, x.verb) == HistoryOf(t, key, x.verb);
    CoverageExact(effective[x.verb], x.path, n);
    var path := RuleFor(effective[x.verb], x.path, n);
    assert HTTPRule(x.verb, path) in CollapsedRules(effective, n);
    assert Says(p, Entry(x.dir, x.peer, OnHTTP(x.pp, HTTPRule(x.verb, path))));
  }

  /** After a write the file has the new HTTP list where the event has one, and the old list elsewhere. */
  lemma WriteLists(file: Policy, p: Policy, x: Sighting)
    requires RegularPolicy(file) && RegularPolicy(p)
    ensures SameList(if HasHTTP(p, x) then p else file, Merged(file, p, true), x)
  {
    forall h ensures Says(Merged(file, p, true), Entry(x.dir, x.peer, OnHTTP(x.pp, h))) <==>
                     Says(if HasHTTP(p, x) then p else file, Entry(x.dir, x.peer, OnHTTP(x.pp, h))) {
      MergeReplaceExact(file, p, Entry(x.dir, x.peer, OnHTTP(x.pp, h)));
      if Says(p, Entry(x.dir, x.peer, OnHTTP(x.pp, h))) { assert HasHTTP(p, x); }
    }
  }

  lemma SameListCovers(p: Policy, file: Policy, x: Sighting)
    requires SameList(p, file, x) && Covered(p, x)
    ensures Covered(file, x)
  {
    var path :| Says(p, Entry(x.dir, x.peer, OnHTTP(x.pp, HTTPRule(x.verb, path)))) && Regex.PatternMatches(path, Wire(x.path));
    assert Says(file, Entry(x.dir, x.peer, OnHTTP(x.pp, HTTPRule(x.verb, path))));
  }

  lemma CollapsedPeersDistinct(g: Grouping, h: Grouping, retained: Observations, collected: Observations, dir: Dir, minFlows: int)
    requires PeersDistinct(g) && CollapsedGrouping(g, h, retained, collected, dir, minFlows)
    ensures PeersDistinct(h)
  {
    forall k | k in h.accs ensures PortsOnce(h.accs[k]) {
      assert CollapsedAcc(g.accs[k], h.accs[k], retained, collected, dir, k, minFlows);
      assert PortsOnce(g.accs[k]);
    }
  }

  lemma DirectionPeersDistinct(flows: seq<Flow>, dir: Dir, namespace: string, g: Grouping, retained: Observations, window: Observations, minFlows: int)
    requires CleanLabels(flows)
    requires CollapsedGrouping(GroupingOf(flows, dir, namespace, true), g, retained, window, dir, minFlows)
    ensures PeersDistinct(g)
  {
    TowardsMembers(flows, dir);
    GroupPeersDistinct(Towards(flows, dir), dir, namespace, true);
    CollapsedPeersDistinct(GroupingOf(flows, dir, namespace, true), g, retained, window, dir, minFlows);
  }

  /** A collapsed policy is in the regular form too. */
  lemma BuiltRegular(p: Policy, namespace: string, workload: string, flows: seq<Flow>, dnsSelector: map<string, string>,
                     retained: Observations, collected: Observations, minFlows: int)
    requires BuiltCollapsed(p, namespace, workload, flows, dnsSelector, retained, collected, minFlows) && CleanLabels(flows)
    ensures RegularPolicy(p)
  {
    var gi, ge :| BuiltFrom(p, namespace, workload, flows, dnsSelector, retained, collected, minFlows, gi, ge);
    DirectionPeersDistinct(flows, Ingress, namespace, gi, retained, WindowFor(Ingress, collected, flows, namespace), minFlows);
    DirectionPeersDistinct(flows, Egress, namespace, ge, retained, WindowFor(Egress, collected, flows, namespace), minFlows);
    DirectionRegular(gi);
    EgressRegular(ge, dnsSelector);
  }

  lemma SameMeaningLists(p: Policy, q: Policy, x: Sighting)
    requires SameMeaning(p, q) && p.spec.Some? && q.spec.Some?
    ensures SameList(p, q, x) && (HasHTTP(p, x) <==> HasHTTP(q, x))
  {
    forall h ensures RulesSay(RulesOf(p, x.dir), x.peer, OnHTTP(x.pp, h)) <==> RulesSay(RulesOf(q, x.dir), x.peer, OnHTTP(x.pp, h)) {
      var e := Entry(x.dir, x.peer, OnHTTP(x.pp, h));
      assert Says(p, e) <==> Says(q, e);
    }
  }

  // ---- Building ---------------------------------------------------------------------------------

  lemma NewEventCovers(s: Run, t: Run, name: Name, flows: seq<Flow>, dnsSelector: map<string, string>, minFlows: int, p: Policy)
    requires HistoryKept(t) && CleanFlows(flows) && BuildStep(s, t, name, flows, dnsSelector, minFlows, p)
    ensures EventCovers(t.log, |s.log|)
  {
    BuiltRegular(p, name.namespace, name.workload, flows, dnsSelector, s.retained, s.collected, minFlows);
    forall x | SightsGroup(flows, name.namespace, x) ensures HasHTTP(p, x) {
      var y :| Sighted(flows, name.namespace, y) && y.dir == x.dir && y.peer == x.peer && y.pp == x.pp;
      SightedHasHTTP(p, name.namespace, name.workload, flows, dnsSelector, s.retained, s.collected, minFlows, y);
    }
    forall i: nat, x | i <= |s.log| && Sighted(t.log[i].flows, t.log[i].name.namespace, x) && Rooted(x.path) && HasHTTP(p, x)
      ensures Covered(p, x)
    {
      assert t.log[i] in t.log;
      BuiltWhole(p, name.namespace, name.workload, flows, dnsSelector, s.retained, s.collected, minFlows, x);
      WholeListCovers(p, t, minFlows, x);
    }
  }

  lemma OldEventCovers(log: seq<Event>, more: seq<Event>, j: nat)
    requires j < |log| && log <= more && EventCovers(log, j)
    ensures EventCovers(more, j)
  {
    assert forall i :: 0 <= i <= j ==> more[i] == log[i];
  }

  lemma BuildInv(s: Run, t: Run, name: Name, flows: seq<Flow>, dnsSelector: map<string, string>, minFlows: int, p: Policy)
    requires Inv(s) && CleanFlows(flows) && BuildStep(s, t, name, flows, dnsSelector, minFlows, p)
    ensures Inv(t)
  {
    EventKeepsHistory(s, t, name, flows);
    forall j: nat | j < |t.log| ensures EventCovers(t.log, j) {
      if j < |s.log| { OldEventCovers(s.log, t.log, j); } else { NewEventCovers(s, t, name, flows, dnsSelector, minFlows, p); }
    }
    forall i: nat, j: nat, x | Settled(t, i, j, x) && Rooted(x.path) ensures t.log[j].name in t.files && Covered(t.files[t.log[j].name], x) {
      assert Settled(s, i, j, x);
    }
  }

  // ---- Delivering -------------------------------------------------------------------------------

  /** After an accepted event the file carries the event's own HTTP lists. */
  lemma AcceptedOnFile(s: Run, t: Run, outcome: Outcome, x: Sighting)
    requires FilesRegular(s) && LogCovers(s) && DeliverStep(s, t, outcome) && outcome != Failed
    requires HasHTTP(s.log[s.delivered].policy, x)
    ensures var e := s.log[s.delivered]; e.name in t.files && SameList(e.policy, t.files[e.name], x)
  {
    var e := s.log[s.delivered];
    assert EventCovers(s.log, s.delivered);
    match outcome
    case Written =>
      if e.name in s.files { WriteLists(s.files[e.name], e.policy, x); }
    case Skipped =>
      var w := s.written[e.name];
      SameMeaningLists(w, e.policy, x);
      assert HasHTTP(w, x) ==> SameList(w, s.files[e.name], x);
  }

  lemma WrittenOnFile(s: Run, t: Run, outcome: Outcome)
    requires FilesRegular(s) && LogCovers(s) && DeliverStep(s, t, outcome)
    ensures FilesRegular(t)
  {
    var e := s.log[s.delivered];
    assert EventCovers(s.log, s.delivered);
    if outcome == Written {
      assert RegularPolicy(t.files[e.name]) by {
        if e.name in s.files { MergeKeepsRegular(s.files[e.name], e.policy, true); }
      }
      assert ListsOnFile(e.policy, t.files[e.name]) by {
        forall x: Sighting | HasHTTP(e.policy, x) ensures SameList(e.policy, t.files[e.name], x) {
          if e.name in s.files { WriteLists(s.files[e.name], e.policy, x); }
        }
      }
    }
  }

  /** What was covered stays covered: its list is untouched or replaced by one that covers it. */
  lemma OldStaysCovered(s: Run, t: Run, outcome: Outcome, n: Name, x: Sighting)
    requires FilesRegular(s) && LogCovers(s) && DeliverStep(s, t, outcome) && n in s.files && Covered(s.files[n], x)
    requires HasHTTP(s.log[s.delivered].policy, x) ==> Covered(s.log[s.delivered].policy, x)
    ensures n in t.files && Covered(t.files[n], x)
  {
    var e := s.log[s.delivered];
    assert EventCovers(s.log, s.delivered);
    if n == e.name && outcome == Written {
      WriteLists(s.files[n], e.policy, x);
      SameListCovers(if HasHTTP(e.policy, x) then e.policy else s.files[n], t.files[n], x);
    }
  }

  lemma SettledCovered(s: Run, t: Run, outcome: Outcome, i: nat, j: nat, x: Sighting)
    requires FilesRegular(s) && LogCovers(s) && AllCovered(s) && DeliverStep(s, t, outcome)
    requires Settled(t, i, j, x) && Rooted(x.path)
    ensures t.log[j].name in t.files && Covered(t.files[t.log[j].name], x)
  {
    var d := s.delivered;
    var e := s.log[d];
    assert EventCovers(s.log, d);
    assert forall k :: 0 <= k < |s.log| ==> t.log[k].flows == s.log[k].flows && t.log[k].name == s.log[k].name;
    if j < d {
      assert t.log[j] == s.log[j] && Settled(s, i, j, x);
      OldStaysCovered(s, t, outcome, s.log[j].name, x);
    } else {
      AcceptedOnFile(s, t, outcome, x);
      SameListCovers(e.policy, t.files[e.name], x);
    }
  }

  lemma SameEventCovers(log: seq<Event>, k: nat, accepted: bool, j: nat)
    requires k < |log| && j < |log| && EventCovers(log, j)
    ensures EventCovers(log[k := log[k].(accepted := accepted)], j)
  {
    var more := log[k := log[k].(accepted := accepted)];
    assert forall i :: 0 <= i < |log| ==> more[i].flows == log[i].flows && more[i].name == log[i].name && more[i].policy == log[i].policy;
  }

  lemma DeliverInv(s: Run, t: Run, outcome: Outcome)
    requires Inv(s) && DeliverStep(s, t, outcome)
    ensures Inv(t)
  {
    WrittenOnFile(s, t, outcome);
    SameHistory(s, t, outcome);
    forall j: nat | j < |t.log| ensures EventCovers(t.log, j) { SameEventCovers(s.log, s.delivered, outcome != Failed, j); }
    forall i: nat, j: nat, x | Settled(t, i, j, x) && Rooted(x.path) ensures t.log[j].name in t.files && Covered(t.files[t.log[j].name], x) {
      SettledCovered(s, t, outcome, i, j, x);
    }
  }

  lemma SameHistory(s: Run, t: Run, outcome: Outcome)
    requires HistoryKept(s) && DeliverStep(s, t, outcome)
    ensures HistoryKept(t)
  {
    forall d, x | d in t.log && Sighted(d.flows, d.name.namespace, x) ensures x.path in HistoryOf(t, KeyOfSighting(x), x.verb) {
      var k :| 0 <= k < |t.log| && t.log[k] == d;
      assert s.log[k] in s.log && s.log[k].flows == d.flows && s.log[k].name == d.name;
      assert HistoryOf(t, KeyOfSighting(x), x.verb) == HistoryOf(s, KeyOfSighting(x), x.verb);
    }
    forall key, verb, path | path in HistoryOf(t, key, verb) ensures NUL !in path {
      assert path in HistoryOf(s, key, verb);
    }
  }

  // ---- Every run --------------------------------------------------------------------------------

  lemma NextInv(s: Run, t: Run, dnsSelector: map<string, string>, minFlows: int)
    requires Inv(s) && Next(s, t, dnsSelector, minFlows)
    ensures Inv(t)
  {
    if AbsorbStep(s, t) {
      AbsorbInv(s, t);
    } else if outcome :| DeliverStep(s, t, outcome) {
      DeliverInv(s, t, outcome);
    } else {
      var name, flows, p :| CleanFlows(flows) && BuildStep(s, t, name, flows, dnsSelector, minFlows, p);
      BuildInv(s, t, name, flows, dnsSelector, minFlows, p);
    }
  }

  ghost predicate IsRun(states: seq<Run>, dnsSelector: map<string, string>, minFlows: int)
  {
    && |states| > 0 && Started(states[0])
    && forall i :: 0 < i < |states| ==> Next(states[i - 1], states[i], dnsSelector, minFlows)
  }

  lemma {:induction false} RunsKeepInv(states: seq<Run>, dnsSelector: map<string, string>, minFlows: int)
    requires IsRun(states, dnsSelector, minFlows)
    ensures Inv(states[|states| - 1])
  {
    var last := |states| - 1;
    if last > 0 {
      var front := states[..last];
      assert forall i :: 0 <= i < |front| ==> front[i] == states[i];
      RunsKeepInv(front, dnsSelector, minFlows);
      NextInv(states[last - 1], states[last], dnsSelector, minFlows);
    }
  }

  /**
   Whole-run coverage: at every point of every run, however far the aggregator builds ahead of the writer, the file of
   a workload matches every rooted raw path seen up to the last accepted event with HTTP for its peer and port, under
   the peer, port and method it was seen with.
   */
  lemma WholeRunCoverage(states: seq<Run>, dnsSelector: map<string, string>, minFlows: int, i: nat, j: nat, x: Sighting)
    requires IsRun(states, dnsSelector, minFlows)
    requires Settled(states[|states| - 1], i, j, x) && Rooted(x.path)
    ensures var s := states[|states| - 1]; s.log[j].name in s.files && Covered(s.files[s.log[j].name], x)
  {
    RunsKeepInv(states, dnsSelector, minFlows);
  }

  /** In particular, whatever an accepted event itself saw is matched by its workload's file from then on. */
  lemma DeliveredIsCovered(states: seq<Run>, dnsSelector: map<string, string>, minFlows: int, j: nat, x: Sighting)
    requires IsRun(states, dnsSelector, minFlows)
    requires var s := states[|states| - 1];
             j < s.delivered <= |s.log| && s.log[j].accepted && Sighted(s.log[j].flows, s.log[j].name.namespace, x) && Rooted(x.path)
    ensures var s := states[|states| - 1]; s.log[j].name in s.files && Covered(s.files[s.log[j].name], x)
  {
    var s := states[|states| - 1];
    assert SightsGroup(s.log[j].flows, s.log[j].name.namespace, x);
    WholeRunCoverage(states, dnsSelector, minFlows, j, j, x);
  }
}
