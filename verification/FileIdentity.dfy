/**
 Whose file it is: a merge keeps the name, the namespace and the selected pods of the policy on file
 (pkg/policy/merge.go), and the first window decides them by the endpoints of its flows
 (pkg/policy/builder.go).
 */
module FileIdentity {
  import opened PolicyTypes
  import opened Merge
  import opened Builder
  import opened Windows
  import opened Writer

  /** The same name and namespace, and the same pods selected. */
  ghost predicate SameIdentity(p: Policy, q: Policy)
  {
    && p.name == q.name && p.namespace == q.namespace
    && p.spec.Some? && q.spec.Some? && p.spec.value.subject == q.spec.value.subject
  }

  /** A merge, in either mode, changes rules only; a file without a spec takes the incoming one. */
  lemma MergeKeepsIdentity(existing: Policy, incoming: Policy, replaceHTTP: bool)
    ensures var r := Merged(existing, incoming, replaceHTTP);
            && r.name == existing.name && r.namespace == existing.namespace
            && (existing.spec.Some? ==> SameIdentity(r, existing))
            && (existing.spec.None? ==> r.spec == incoming.spec)
            && (incoming.spec.None? ==> r == existing)
  {
  }

  // ---- The pods a built policy selects ----------------------------------------------------------

  /** The endpoint a flow was dropped at or from: its destination for ingress, its source for egress. */
  predicate OwnEnd(f: Flow, ep: Endpoint)
  {
    (f.dir == In && f.destination == Option.Some(ep)) || (f.dir == Out && f.source == Option.Some(ep))
  }

  ghost predicate HasOwnEnd(f: Flow) { exists ep :: OwnEnd(f, ep) }

  ghost predicate FirstOwn(flows: seq<Flow>, i: nat, ep: Endpoint)
  {
    i < |flows| && OwnEnd(flows[i], ep) && forall j :: 0 <= j < i ==> !HasOwnEnd(flows[j])
  }

  /** The labels are those of the first flow whose own endpoint is known, if there is one. */
  ghost predicate LabelsOfFirst(flows: seq<Flow>, labels: map<string, string>)
  {
    || (exists i, ep :: FirstOwn(flows, i, ep) && labels == ep.selected)
    || ((forall j :: 0 <= j < |flows| ==> !HasOwnEnd(flows[j])) && labels == map[])
  }

  lemma {:induction false} SubjectIsFirst(flows: seq<Flow>)
    ensures LabelsOfFirst(flows, Subject(flows))
  {
    if flows != [] {
      if HasOwnEnd(flows[0]) {
        var ep :| OwnEnd(flows[0], ep);
        assert FirstOwn(flows, 0, ep);
      } else {
        assert forall ep :: !OwnEnd(flows[0], ep);
        if flows[0].destination.Some? { assert !OwnEnd(flows[0], flows[0].destination.value); }
        if flows[0].source.Some? { assert !OwnEnd(flows[0], flows[0].source.value); }
        SubjectIsFirst(flows[1..]);
        if i: nat, ep :| FirstOwn(flows[1..], i, ep) && Subject(flows[1..]) == ep.selected {
          assert forall j :: 0 < j < i + 1 ==> flows[j] == flows[1..][j - 1];
          assert FirstOwn(flows, i + 1, ep);
        } else {
          assert forall j :: 0 < j < |flows| ==> flows[j] == flows[1..][j - 1];
        }
      }
    }
  }

  /** A built policy is named after its workload and selects the pods its flows were dropped at or from. */
  ghost predicate BuiltIdentity(p: Policy, namespace: string, workload: string, flows: seq<Flow>)
  {
    p.name == "cpg-" + workload && p.namespace == namespace && p.spec.Some? && LabelsOfFirst(flows, p.spec.value.subject)
  }

  lemma BuildIdentity(namespace: string, workload: string, flows: seq<Flow>, l7Enabled: bool, dnsSelector: map<string, string>)
    ensures BuiltIdentity(Build(namespace, workload, flows, l7Enabled, dnsSelector), namespace, workload, flows)
  {
    SubjectIsFirst(flows);
  }

  /** The same with collapse. */
  lemma CollapsedIdentity(p: Policy, namespace: string, workload: string, flows: seq<Flow>, dnsSelector: map<string, string>,
                          retained: Observations, collected: Observations, minFlows: int)
    requires BuiltCollapsed(p, namespace, workload, flows, dnsSelector, retained, collected, minFlows)
    ensures BuiltIdentity(p, namespace, workload, flows)
  {
    SubjectIsFirst(flows);
  }

  /** However many windows follow, the file keeps the identity the first one gave it. */
  lemma {:induction false} FileKeepsFirst(namespace: string, workload: string, windows: seq<seq<Flow>>, l7Enabled: bool, dnsSelector: map<string, string>)
    requires |windows| >= 1
    ensures BuiltIdentity(FileAfter(namespace, workload, windows, l7Enabled, dnsSelector), namespace, workload, windows[0])
  {
    var n := |windows|;
    if n == 1 {
      BuildIdentity(namespace, workload, windows[0], l7Enabled, dnsSelector);
    } else {
      FileKeepsFirst(namespace, workload, windows[..n - 1], l7Enabled, dnsSelector);
      MergeKeepsIdentity(FileAfter(namespace, workload, windows[..n - 1], l7Enabled, dnsSelector),
                         Build(namespace, workload, windows[n - 1], l7Enabled, dnsSelector), false);
    }
  }

  // ---- Over every run of the writer -------------------------------------------------------------

  ghost predicate BroughtBy(events: seq<Event>, n: Name, p: Policy)
  {
    exists k :: 0 <= k < |events| && events[k].name == n && SameIdentity(p, events[k].policy)
  }

  /**
   In every run of the writer a file keeps its name, namespace and selected pods, and a file that is new has
   those of an event for its workload.
   */
  lemma {:induction false} RunKeepsIdentity(c: Config, s: State, events: seq<Event>, oks: seq<bool>, n: Name)
    requires |events| == |oks| && forall e :: e in events ==> e.policy.spec.Some?
    ensures var t := HandleAll(c, s, events, oks);
            && (n in s.files ==> n in t.files)
            && (n in s.files && s.files[n].spec.Some? ==> SameIdentity(t.files[n], s.files[n]))
            && (n in t.files && n !in s.files ==> BroughtBy(events, n, t.files[n]))
  {
    if events != [] {
      var k := |events| - 1;
      RunKeepsIdentity(c, s, events[..k], oks[..k], n);
      var before, e := HandleAll(c, s, events[..k], oks[..k]), events[k];
      assert e in events;
      if n in before.files { MergeKeepsIdentity(before.files[n], e.policy, e.replaceHTTP); }
      var t := HandleAll(c, s, events, oks);
      if n in t.files && n !in s.files {
        if n in before.files {
          var j :| 0 <= j < k && events[..k][j].name == n && SameIdentity(before.files[n], events[..k][j].policy);
          assert events[j].name == n && SameIdentity(t.files[n], events[j].policy);
        } else {
          assert SameIdentity(t.files[n], events[k].policy);
        }
      }
    }
  }
}
