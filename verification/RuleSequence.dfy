/** The order a build lists its rules in (pkg/policy/builder.go). */
module RuleSequence {
  import opened PolicyTypes
  import opened CompanionDNS
  import opened Builder
  import opened BuilderMeaning
  import opened FlowFields
  import opened Windows
  import Sorting
  import Text

  /** Entities come first, then CIDRs, then selected endpoints. */
  function Rank(p: Peer): nat { if p.entities != [] then 0 else if p.cidrs != [] then 1 else 2 }

  ghost predicate Ranked(rules: seq<Rule>)
  {
    forall i, j :: 0 <= i < j < |rules| ==> Rank(rules[i].peer) <= Rank(rules[j].peer)
  }

  function KeyRank(k: BucketKey): nat { match k case EntityKey(_) => 0 case CIDRKey(_) => 1 case PeerKey(_) => 2 }

  ghost predicate PeersRanked(g: Grouping)
  {
    g.index.peers.Keys == g.accs.Keys && forall k :: k in g.accs ==> Rank(g.index.peers[k]) == KeyRank(k)
  }

  lemma GroupRanked(flows: seq<Flow>, dir: Dir, policyNS: string, l7Enabled: bool)
    ensures PeersRanked(GroupAll(flows, dir, policyNS, l7Enabled))
  {
    var g := GroupAll(flows, dir, policyNS, l7Enabled);
    BucketPeer(flows, dir, policyNS, l7Enabled, EntityKey(""));
    forall k | k in g.accs ensures Rank(g.index.peers[k]) == KeyRank(k) {
      BucketPeer(flows, dir, policyNS, l7Enabled, k);
      var f :| f in flows && Target(f, dir, policyNS) == Option.Some((k, g.index.peers[k]));
    }
  }

  lemma {:induction false} EmitRanked(order: seq<BucketKey>, g: Grouping, rank: nat)
    requires PeersRanked(g) && forall k :: k in order ==> k in g.accs && KeyRank(k) == rank
    ensures forall r :: r in EmitBuckets(order, g) ==> Rank(r.peer) == rank
  {
    if order != [] {
      var front, k := order[..|order| - 1], order[|order| - 1];
      assert order == front + [k] && k in order;
      EmitRanked(front, g, rank);
    }
  }

  lemma DirectionRanked(g: Grouping)
    requires PeersRanked(g) && Listed(g)
    ensures Ranked(DirectionRules(g))
  {
    var a, b, c := EmitBuckets(g.index.entities, g), EmitBuckets(g.index.cidrs, g), EmitBuckets(g.index.endpoints, g);
    EmitRanked(g.index.entities, g, 0);
    EmitRanked(g.index.cidrs, g, 1);
    EmitRanked(g.index.endpoints, g, 2);
    var all := a + b + c;
    forall i | 0 <= i < |all|
      ensures Rank(all[i].peer) == if i < |a| then 0 else if i < |a| + |b| then 1 else 2
    {
      if i < |a| { assert all[i] in a; }
      else if i < |a| + |b| { assert all[i] in b; }
      else { assert all[i] in c; }
    }
  }

  lemma {:induction false} FqdnRulesName(order: seq<BucketKey>, g: Grouping)
    requires forall k :: k in order ==> k in g.accs
    ensures forall r :: r in FqdnRules(order, g) ==> r.fqdns != []
  {
    if order != [] {
      FqdnRulesName(order[..|order| - 1], g);
      var dns := g.accs[order[|order| - 1]].dns;
      Sorting.SortPermutes(dns, Text.LexLe);
    }
  }

  /** The rules for peers in rank order, then the rules that name hosts, and at most one companion behind them. */
  ghost predicate EgressOrder(rules: seq<Rule>, n: nat, dnsSelector: map<string, string>)
  {
    && n <= |rules| && Ranked(rules[..n])
    && forall i :: n <= i < |rules| ==> rules[i].fqdns != [] || (i == |rules| - 1 && DNSPods(rules[i].peer, dnsSelector))
  }

  lemma NamesLast(plain: seq<Rule>, names: seq<Rule>, dnsSelector: map<string, string>)
    requires Ranked(plain) && forall r :: r in names ==> r.fqdns != []
    ensures EgressOrder(WithCompanion(plain + names, dnsSelector), |plain|, dnsSelector)
  {
    var egress := WithCompanion(plain + names, dnsSelector);
    assert egress[..|plain|] == plain;
    forall i | |plain| <= i < |egress| ensures egress[i].fqdns != [] || (i == |egress| - 1 && DNSPods(egress[i].peer, dnsSelector)) {
      if i < |plain| + |names| { assert egress[i] == names[i - |plain|] && names[i - |plain|] in names; }
    }
  }

  lemma EgressRanked(g: Grouping, dnsSelector: map<string, string>)
    requires PeersRanked(g) && Listed(g)
    ensures EgressOrder(WithCompanion(EgressRules(g), dnsSelector), |DirectionRules(g)|, dnsSelector)
  {
    DirectionRanked(g);
    FqdnRulesName(g.index.entities, g);
    FqdnRulesName(g.index.cidrs, g);
    FqdnRulesName(g.index.endpoints, g);
    NamesLast(DirectionRules(g), FqdnRules(g.index.entities, g) + FqdnRules(g.index.cidrs, g) + FqdnRules(g.index.endpoints, g), dnsSelector);
  }

  /** A build lists the rules for entities first, then those for CIDRs, then those for endpoints, and names last. */
  lemma BuildOrder(namespace: string, workload: string, flows: seq<Flow>, l7Enabled: bool, dnsSelector: map<string, string>)
    ensures var p := Build(namespace, workload, flows, l7Enabled, dnsSelector);
            p.spec.Some? && Ranked(p.spec.value.ingress) && exists n :: EgressOrder(p.spec.value.egress, n, dnsSelector)
  {
    GroupRanked(Towards(flows, Ingress), Ingress, namespace, l7Enabled);
    GroupRanked(Towards(flows, Egress), Egress, namespace, l7Enabled);
    DirectionRanked(GroupingOf(flows, Ingress, namespace, l7Enabled));
    EgressRanked(GroupingOf(flows, Egress, namespace, l7Enabled), dnsSelector);
  }

  // ---- Peers of one kind, first seen first ------------------------------------------------------

  /** A flow of bucket k comes before every flow of bucket m. */
  ghost predicate SeenBefore(flows: seq<Flow>, dir: Dir, policyNS: string, k: BucketKey, m: BucketKey)
  {
    exists n :: 0 <= n < |flows| && FiledUnder(flows[n], dir, policyNS, k)
                && forall i :: 0 <= i <= n ==> !FiledUnder(flows[i], dir, policyNS, m)
  }

  ghost predicate FirstSeen(order: seq<BucketKey>, flows: seq<Flow>, dir: Dir, policyNS: string)
  {
    forall a, b :: 0 <= a < b < |order| ==> SeenBefore(flows, dir, policyNS, order[a], order[b])
  }

  lemma SeenBeforeGrows(front: seq<Flow>, f: Flow, dir: Dir, policyNS: string, k: BucketKey, m: BucketKey)
    requires SeenBefore(front, dir, policyNS, k, m)
    ensures SeenBefore(front + [f], dir, policyNS, k, m)
  {
    var n :| 0 <= n < |front| && FiledUnder(front[n], dir, policyNS, k) && forall i :: 0 <= i <= n ==> !FiledUnder(front[i], dir, policyNS, m);
    assert forall i :: 0 <= i <= n ==> (front + [f])[i] == front[i];
  }

  lemma SeenBeforeNew(front: seq<Flow>, f: Flow, dir: Dir, policyNS: string, k: BucketKey, m: BucketKey)
    requires SomeFiled(front, dir, policyNS, k) && !SomeFiled(front, dir, policyNS, m)
    ensures SeenBefore(front + [f], dir, policyNS, k, m)
  {
    var q :| q in front && FiledUnder(q, dir, policyNS, k);
    var n :| 0 <= n < |front| && front[n] == q;
    var more := front + [f];
    assert more[n] == front[n];
    forall i | 0 <= i <= n ensures !FiledUnder(more[i], dir, policyNS, m) { assert more[i] == front[i] && front[i] in front; }
  }

  /** One more key at the end of an order. */
  lemma OrderGrows(order: seq<BucketKey>, k: BucketKey, isNew: bool, front: seq<Flow>, f: Flow, dir: Dir, policyNS: string)
    requires FirstSeen(order, front, dir, policyNS)
    requires isNew ==> !SomeFiled(front, dir, policyNS, k) && forall m :: m in order ==> SomeFiled(front, dir, policyNS, m)
    ensures FirstSeen(if isNew then order + [k] else order, front + [f], dir, policyNS)
  {
    var more := if isNew then order + [k] else order;
    forall a, b | 0 <= a < b < |more| ensures SeenBefore(front + [f], dir, policyNS, more[a], more[b]) {
      if b < |order| { SeenBeforeGrows(front, f, dir, policyNS, order[a], order[b]); }
      else { assert order[a] in order; SeenBeforeNew(front, f, dir, policyNS, order[a], k); }
    }
  }

  lemma {:induction false} GroupFirstSeen(flows: seq<Flow>, dir: Dir, policyNS: string, l7Enabled: bool)
    ensures var x := GroupAll(flows, dir, policyNS, l7Enabled).index;
            FirstSeen(x.entities, flows, dir, policyNS) && FirstSeen(x.cidrs, flows, dir, policyNS) && FirstSeen(x.endpoints, flows, dir, policyNS)
  {
    if flows != [] {
      var front, f := flows[..|flows| - 1], flows[|flows| - 1];
      assert flows == front + [f];
      GroupFirstSeen(front, dir, policyNS, l7Enabled);
      var g, t := GroupAll(front, dir, policyNS, l7Enabled), Target(f, dir, policyNS);
      GroupAllListed(front, dir, policyNS, l7Enabled);
      forall k ensures k in g.accs <==> SomeFiled(front, dir, policyNS, k) { BucketPeer(front, dir, policyNS, l7Enabled, k); }
      var k := if t.Some? then t.value.0 else EntityKey("");
      var isNew := t.Some? && k !in g.accs;
      OrderGrows(g.index.entities, k, isNew && k.EntityKey?, front, f, dir, policyNS);
      OrderGrows(g.index.cidrs, k, isNew && k.CIDRKey?, front, f, dir, policyNS);
      OrderGrows(g.index.endpoints, k, isNew && k.PeerKey?, front, f, dir, policyNS);
    }
  }

  lemma EmittedFor(order: seq<BucketKey>, g: Grouping, i: nat) returns (a: nat)
    requires (forall k :: k in order ==> k in g.accs && k in g.index.peers) && i < |EmitBuckets(order, g)|
    ensures a < |order| && EmitBuckets(order, g)[i].peer == g.index.peers[order[a]]
  {
    var n := |order| - 1;
    if i < |EmitBuckets(order[..n], g)| { a := EmittedFor(order[..n], g, i); }
    else { a := n; }
  }

  /** Two emitted rules come from two places of the order, or from one place: ports, then ICMP types. */
  lemma {:induction false} EmittedPair(order: seq<BucketKey>, g: Grouping, i: nat, j: nat) returns (a: nat, b: nat)
    requires (forall k :: k in order ==> k in g.accs && k in g.index.peers) && i < j < |EmitBuckets(order, g)|
    ensures a <= b < |order|
    ensures var rules := EmitBuckets(order, g);
            && rules[i].peer == g.index.peers[order[a]] && rules[j].peer == g.index.peers[order[b]]
            && (a == b ==> rules[i].icmps == [] && rules[j].icmps != [])
  {
    var n := |order| - 1;
    var front := order[..n];
    if j < |EmitBuckets(front, g)| {
      a, b := EmittedPair(front, g, i, j);
    } else {
      b := n;
      if i < |EmitBuckets(front, g)| { a := EmittedFor(front, g, i); } else { a := n; }
    }
  }

  /** Some flow to or from peer p comes before every one to or from peer q. */
  ghost predicate PeerSeenBefore(flows: seq<Flow>, dir: Dir, namespace: string, p: Peer, q: Peer)
  {
    exists n :: 0 <= n < |flows| && OtherEnd(flows[n], dir, namespace, p) && HasProto(flows[n].l4)
                && forall i :: 0 <= i <= n ==> !(OtherEnd(flows[i], dir, namespace, q) && HasProto(flows[i].l4))
  }

  /** Read for the list of all flows of the direction. */
  lemma SeenBeforeIsPeers(part: seq<Flow>, dir: Dir, namespace: string, k: BucketKey, m: BucketKey, p: Peer, q: Peer)
    requires SeenBefore(part, dir, namespace, k, m)
    requires forall f :: f in part ==> Counts(f, dir)
    requires forall f :: f in part && FiledUnder(f, dir, namespace, k) ==> Target(f, dir, namespace) == Option.Some((k, p))
    requires forall f :: f in part && Target(f, dir, namespace).Some? && Target(f, dir, namespace).value.1 == q ==> FiledUnder(f, dir, namespace, m)
    ensures PeerSeenBefore(part, dir, namespace, p, q)
  {
    var n :| 0 <= n < |part| && FiledUnder(part[n], dir, namespace, k) && forall i :: 0 <= i <= n ==> !FiledUnder(part[i], dir, namespace, m);
    assert part[n] in part;
    TargetExactly(part[n], dir, namespace, p);
    forall i | 0 <= i <= n ensures !(OtherEnd(part[i], dir, namespace, q) && HasProto(part[i].l4)) {
      assert part[i] in part;
      TargetExactly(part[i], dir, namespace, q);
    }
  }

  lemma PeerSeenGrows(front: seq<Flow>, f: Flow, dir: Dir, namespace: string, p: Peer, q: Peer)
    requires PeerSeenBefore(front, dir, namespace, p, q)
    ensures PeerSeenBefore(front + [f], dir, namespace, p, q)
  {
    var n :| 0 <= n < |front| && OtherEnd(front[n], dir, namespace, p) && HasProto(front[n].l4)
             && forall i :: 0 <= i <= n ==> !(OtherEnd(front[i], dir, namespace, q) && HasProto(front[i].l4));
    assert forall i :: 0 <= i <= n ==> (front + [f])[i] == front[i];
  }

  /** The flows of the other direction do not matter. */
  lemma {:induction false} AmongAll(flows: seq<Flow>, dir: Dir, namespace: string, p: Peer, q: Peer)
    requires PeerSeenBefore(Towards(flows, dir), dir, namespace, p, q)
    ensures PeerSeenBefore(flows, dir, namespace, p, q)
  {
    var part := Towards(flows, dir);
    var front, f := flows[..|flows| - 1], flows[|flows| - 1];
    assert flows == front + [f];
    var n :| 0 <= n < |part| && OtherEnd(part[n], dir, namespace, p) && HasProto(part[n].l4)
             && forall i :: 0 <= i <= n ==> !(OtherEnd(part[i], dir, namespace, q) && HasProto(part[i].l4));
    var before := Towards(front, dir);
    if n < |before| {
      assert forall i :: 0 <= i <= n ==> before[i] == part[i];
      assert PeerSeenBefore(before, dir, namespace, p, q);
      AmongAll(front, dir, namespace, p, q);
      PeerSeenGrows(front, f, dir, namespace, p, q);
    } else {
      assert part[n] == f;
      TowardsMembers(front, dir);
      forall x | x in before ensures !(OtherEnd(x, dir, namespace, q) && HasProto(x.l4)) {
        var m :| 0 <= m < |before| && before[m] == x;
        assert part[m] == x;
      }
      forall i | 0 <= i < |flows| ensures !(OtherEnd(flows[i], dir, namespace, q) && HasProto(flows[i].l4)) {
        if i < |front| { assert front[i] in front && (Counts(front[i], dir) ==> front[i] in before); }
      }
    }
  }

  lemma FiledTarget(flows: seq<Flow>, namespace: string, l7Enabled: bool, dir: Dir, k: BucketKey, f: Flow)
    requires SameScope(flows, namespace) && f in Towards(flows, dir) && FiledUnder(f, dir, namespace, k)
    ensures var g := GroupAll(Towards(flows, dir), dir, namespace, l7Enabled);
            k in g.index.peers && Target(f, dir, namespace) == Option.Some((k, g.index.peers[k]))
  {
    OnePeerPerBucket(flows, namespace, l7Enabled, f, dir);
  }

  /** Keys in first-seen order have peers in first-seen order. */
  lemma KeysToPeers(flows: seq<Flow>, namespace: string, l7Enabled: bool, dir: Dir, k: BucketKey, m: BucketKey)
    requires SameScope(flows, namespace) && CleanLabels(flows)
    requires SeenBefore(Towards(flows, dir), dir, namespace, k, m)
    requires var g := GroupAll(Towards(flows, dir), dir, namespace, l7Enabled); k in g.accs && m in g.accs
    ensures var x := GroupAll(Towards(flows, dir), dir, namespace, l7Enabled).index;
            k in x.peers && m in x.peers && PeerSeenBefore(flows, dir, namespace, x.peers[k], x.peers[m])
  {
    var part := Towards(flows, dir);
    var g := GroupAll(part, dir, namespace, l7Enabled);
    TowardsMembers(flows, dir);
    BucketPeer(part, dir, namespace, l7Enabled, k);
    BucketPeer(part, dir, namespace, l7Enabled, m);
    forall f | f in part && FiledUnder(f, dir, namespace, k) ensures Target(f, dir, namespace) == Option.Some((k, g.index.peers[k])) {
      FiledTarget(flows, namespace, l7Enabled, dir, k, f);
    }
    forall f | f in part && Target(f, dir, namespace).Some? && Target(f, dir, namespace).value.1 == g.index.peers[m]
      ensures FiledUnder(f, dir, namespace, m)
    {
      var h :| h in part && Target(h, dir, namespace) == Option.Some((m, g.index.peers[m]));
      PeerDeterminesKey(f, h, dir, namespace);
    }
    SeenBeforeIsPeers(part, dir, namespace, k, m, g.index.peers[k], g.index.peers[m]);
    AmongAll(flows, dir, namespace, g.index.peers[k], g.index.peers[m]);
  }

  ghost predicate InSequence(rules: seq<Rule>, flows: seq<Flow>, dir: Dir, namespace: string)
  {
    forall i, j :: 0 <= i < j < |rules| && Rank(rules[i].peer) == Rank(rules[j].peer) ==>
      if rules[i].peer == rules[j].peer then rules[i].icmps == [] && rules[j].icmps != []
      else PeerSeenBefore(flows, dir, namespace, rules[i].peer, rules[j].peer)
  }

  lemma ListInSequence(order: seq<BucketKey>, flows: seq<Flow>, namespace: string, l7Enabled: bool, dir: Dir)
    requires SameScope(flows, namespace) && CleanLabels(flows)
    requires forall k :: k in order ==> k in GroupAll(Towards(flows, dir), dir, namespace, l7Enabled).accs
    requires FirstSeen(order, Towards(flows, dir), dir, namespace)
    ensures forall k :: k in order ==> k in GroupAll(Towards(flows, dir), dir, namespace, l7Enabled).index.peers
    ensures InSequence(EmitBuckets(order, GroupAll(Towards(flows, dir), dir, namespace, l7Enabled)), flows, dir, namespace)
  {
    var part := Towards(flows, dir);
    var g := GroupAll(part, dir, namespace, l7Enabled);
    TowardsMembers(flows, dir);
    GroupPeersDistinct(part, dir, namespace, l7Enabled);
    var rules := EmitBuckets(order, g);
    forall i, j | 0 <= i < j < |rules| && Rank(rules[i].peer) == Rank(rules[j].peer)
      ensures if rules[i].peer == rules[j].peer then rules[i].icmps == [] && rules[j].icmps != []
              else PeerSeenBefore(flows, dir, namespace, rules[i].peer, rules[j].peer)
    {
      var a, b := EmittedPair(order, g, i, j);
      if a < b {
        assert order[a] in order && order[b] in order;
        KeysToPeers(flows, namespace, l7Enabled, dir, order[a], order[b]);
        assert order[a] != order[b] by { SeenBeforeDiffer(part, dir, namespace, order[a], order[b]); }
      }
    }
  }

  lemma SeenBeforeDiffer(flows: seq<Flow>, dir: Dir, policyNS: string, k: BucketKey, m: BucketKey)
    requires SeenBefore(flows, dir, policyNS, k, m)
    ensures k != m
  {
  }

  /**
   Under one scope per label set, a direction lists the peers of each kind in the order their flows were
   first seen, and for one peer its ports before its ICMP types.
   */
  lemma FirstSeenFirst(namespace: string, flows: seq<Flow>, l7Enabled: bool, dir: Dir)
    requires OneScope(flows, namespace) && CleanLabels(flows)
    ensures InSequence(DirectionRules(GroupingOf(flows, dir, namespace, l7Enabled)), flows, dir, namespace)
  {
    var part, g := Towards(flows, dir), GroupingOf(flows, dir, namespace, l7Enabled);
    ScopeExactly(flows, namespace);
    GroupFirstSeen(part, dir, namespace, l7Enabled);
    ListInSequence(g.index.entities, flows, namespace, l7Enabled, dir);
    ListInSequence(g.index.cidrs, flows, namespace, l7Enabled, dir);
    ListInSequence(g.index.endpoints, flows, namespace, l7Enabled, dir);
    GroupRanked(part, dir, namespace, l7Enabled);
    EmitRanked(g.index.entities, g, 0);
    EmitRanked(g.index.cidrs, g, 1);
    EmitRanked(g.index.endpoints, g, 2);
    ThreeInSequence(EmitBuckets(g.index.entities, g), EmitBuckets(g.index.cidrs, g), EmitBuckets(g.index.endpoints, g), flows, dir, namespace);
  }

  lemma ThreeInSequence(a: seq<Rule>, b: seq<Rule>, c: seq<Rule>, flows: seq<Flow>, dir: Dir, namespace: string)
    requires InSequence(a, flows, dir, namespace) && InSequence(b, flows, dir, namespace) && InSequence(c, flows, dir, namespace)
    requires (forall r :: r in a ==> Rank(r.peer) == 0) && (forall r :: r in b ==> Rank(r.peer) == 1) && (forall r :: r in c ==> Rank(r.peer) == 2)
    ensures InSequence(a + b + c, flows, dir, namespace)
  {
    var all := a + b + c;
    forall i | 0 <= i < |all|
      ensures Rank(all[i].peer) == if i < |a| then 0 else if i < |a| + |b| then 1 else 2
    {
      if i < |a| { assert all[i] in a; }
      else if i < |a| + |b| { assert all[i] in b; }
      else { assert all[i] in c; }
    }
    forall i, j | 0 <= i < j < |all| && Rank(all[i].peer) == Rank(all[j].peer)
      ensures if all[i].peer == all[j].peer then all[i].icmps == [] && all[j].icmps != []
              else PeerSeenBefore(flows, dir, namespace, all[i].peer, all[j].peer)
    {
      if j < |a| { assert all[i] == a[i] && all[j] == a[j]; }
      else if j < |a| + |b| { assert all[i] == b[i - |a|] && all[j] == b[j - |a|]; }
      else { assert all[i] == c[i - |a| - |b|] && all[j] == c[j - |a| - |b|]; }
    }
  }
}
