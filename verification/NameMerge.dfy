/**
 What merging does to toFQDNs names (pkg/policy/merge.go). The match functions do not compare
 toFQDNs and the merged rule keeps the list on file, so an incoming name is kept only where its rule
 opens a place of its own.
 */
module NameMerge {
  import opened PolicyTypes
  import opened Merge

  ghost predicate Matched(rules: seq<Rule>, x: Rule)
  {
    exists r :: r in rules && RulesMatch(r, x)
  }

  /** The k-th incoming rule matches no rule on file and none that came in before it. */
  ghost predicate Opens(existing: seq<Rule>, incoming: seq<Rule>, k: nat)
    requires k < |incoming|
  {
    !Matched(existing, incoming[k]) && !Matched(incoming[..k], incoming[k])
  }

  /** Some incoming rule that opens a place lists the name for the peer. */
  ghost predicate Brings(existing: seq<Rule>, incoming: seq<Rule>, peer: Peer, n: DNSRule)
  {
    exists k: nat :: k < |incoming| && Opens(existing, incoming, k) && incoming[k].peer == peer && n in incoming[k].fqdns
  }

  lemma MatchSplit(a: seq<Rule>, b: seq<Rule>, x: Rule)
    ensures Matched(a + b, x) <==> Matched(a, x) || Matched(b, x)
  {
    assert forall r :: r in a + b <==> r in a || r in b;
  }

  lemma MatchOne(r: Rule, x: Rule)
    ensures Matched([r], x) <==> RulesMatch(r, x)
  {
    assert r in [r];
  }

  /** Merging changes neither the peer nor the type of the rule on file. */
  lemma MergedMatches(ex: Rule, y: Rule, replaceHTTP: bool)
    requires RulesMatch(ex, y)
    ensures var m := MergedRule(ex, y, replaceHTTP); m.peer == ex.peer && m.fqdns == ex.fqdns && RulesMatch(ex, m)
  {
  }

  lemma {:induction false} IntoMatches(rules: seq<Rule>, y: Rule, replaceHTTP: bool, x: Rule)
    ensures Matched(MergeInto(rules, y, replaceHTTP), x) <==> Matched(rules, x) || RulesMatch(y, x)
  {
    if rules == [] {
      MatchOne(y, x);
    } else {
      var r, rest := rules[0], rules[1..];
      assert rules == [r] + rest;
      MatchSplit([r], rest, x);
      MatchOne(r, x);
      if RulesMatch(r, y) {
        var m := MergedRule(r, y, replaceHTTP);
        MergedMatches(r, y, replaceHTTP);
        MatchSplit([m], rest, x);
        MatchOne(m, x);
      } else {
        IntoMatches(rest, y, replaceHTTP, x);
        MatchSplit([r], MergeInto(rest, y, replaceHTTP), x);
      }
    }
  }

  lemma {:induction false} AllMatches(existing: seq<Rule>, incoming: seq<Rule>, replaceHTTP: bool, x: Rule)
    ensures Matched(MergeAll(existing, incoming, replaceHTTP), x) <==> Matched(existing, x) || Matched(incoming, x)
  {
    if incoming != [] {
      var front, y := incoming[..|incoming| - 1], incoming[|incoming| - 1];
      assert incoming == front + [y];
      AllMatches(existing, front, replaceHTTP, x);
      IntoMatches(MergeAll(existing, front, replaceHTTP), y, replaceHTTP, x);
      MatchSplit(front, [y], x);
      MatchOne(y, x);
    }
  }

  lemma NamesSplit(a: seq<Rule>, b: seq<Rule>, peer: Peer, n: DNSRule)
    ensures RulesSay(a + b, peer, OnFQDN(n)) <==> RulesSay(a, peer, OnFQDN(n)) || RulesSay(b, peer, OnFQDN(n))
  {
    assert forall r :: r in a + b <==> r in a || r in b;
  }

  lemma NamesOne(r: Rule, peer: Peer, n: DNSRule)
    ensures RulesSay([r], peer, OnFQDN(n)) <==> r.peer == peer && n in r.fqdns
  {
    assert r in [r];
  }

  lemma {:induction false} IntoNames(rules: seq<Rule>, y: Rule, replaceHTTP: bool, peer: Peer, n: DNSRule)
    ensures RulesSay(MergeInto(rules, y, replaceHTTP), peer, OnFQDN(n)) <==>
            RulesSay(rules, peer, OnFQDN(n)) || (!Matched(rules, y) && y.peer == peer && n in y.fqdns)
  {
    if rules == [] {
      NamesOne(y, peer, n);
    } else {
      var r, rest := rules[0], rules[1..];
      assert rules == [r] + rest;
      MatchSplit([r], rest, y);
      MatchOne(r, y);
      NamesSplit([r], rest, peer, n);
      NamesOne(r, peer, n);
      if RulesMatch(r, y) {
        var m := MergedRule(r, y, replaceHTTP);
        NamesSplit([m], rest, peer, n);
        NamesOne(m, peer, n);
      } else {
        IntoNames(rest, y, replaceHTTP, peer, n);
        NamesSplit([r], MergeInto(rest, y, replaceHTTP), peer, n);
      }
    }
  }

  lemma BringsStep(existing: seq<Rule>, front: seq<Rule>, y: Rule, peer: Peer, n: DNSRule)
    ensures Brings(existing, front + [y], peer, n) <==>
            Brings(existing, front, peer, n) || (!Matched(existing, y) && !Matched(front, y) && y.peer == peer && n in y.fqdns)
  {
    var all := front + [y];
    assert all[..|front|] == front && all[|front|] == y;
    forall k: nat | k < |front| ensures Opens(existing, all, k) <==> Opens(existing, front, k) { assert all[..k] == front[..k]; }
    if k: nat :| k < |front| && Opens(existing, front, k) && front[k].peer == peer && n in front[k].fqdns {
      assert Opens(existing, all, k) && all[k].peer == peer && n in all[k].fqdns;
    }
    if !Matched(existing, y) && !Matched(front, y) && y.peer == peer && n in y.fqdns {
      assert Opens(existing, all, |front|) && all[|front|].peer == peer && n in all[|front|].fqdns;
    }
  }

  /**
   For all rules on file and incoming, in either mode: after the merge a name is listed for a peer
   exactly when it was on file, or an incoming rule lists it that matches no rule on file and none
   that came in before it.
   */
  lemma {:induction false} MergedNamesExact(existing: seq<Rule>, incoming: seq<Rule>, replaceHTTP: bool, peer: Peer, n: DNSRule)
    ensures RulesSay(MergeAll(existing, incoming, replaceHTTP), peer, OnFQDN(n)) <==>
            RulesSay(existing, peer, OnFQDN(n)) || Brings(existing, incoming, peer, n)
  {
    if incoming != [] {
      var front, y := incoming[..|incoming| - 1], incoming[|incoming| - 1];
      assert incoming == front + [y];
      MergedNamesExact(existing, front, replaceHTTP, peer, n);
      IntoNames(MergeAll(existing, front, replaceHTTP), y, replaceHTTP, peer, n);
      AllMatches(existing, front, replaceHTTP, y);
      BringsStep(existing, front, y, peer, n);
    }
  }

  /** Merging the same rules again brings no name: every incoming rule now matches one on file. */
  lemma MergedNamesTwice(existing: seq<Rule>, incoming: seq<Rule>, replaceHTTP: bool, peer: Peer, n: DNSRule)
    ensures var once := MergeAll(existing, incoming, replaceHTTP);
            RulesSay(MergeAll(once, incoming, replaceHTTP), peer, OnFQDN(n)) <==> RulesSay(once, peer, OnFQDN(n))
  {
    var once := MergeAll(existing, incoming, replaceHTTP);
    MergedNamesExact(once, incoming, replaceHTTP, peer, n);
    forall k: nat | k < |incoming| ensures !Opens(once, incoming, k) {
      AllMatches(existing, incoming, replaceHTTP, incoming[k]);
      assert incoming[k] in incoming && RulesMatch(incoming[k], incoming[k]);
    }
  }

  lemma MergedNamesOnItself(rules: seq<Rule>, replaceHTTP: bool, peer: Peer, n: DNSRule)
    ensures RulesSay(MergeAll(rules, rules, replaceHTTP), peer, OnFQDN(n)) <==> RulesSay(rules, peer, OnFQDN(n))
  {
    MergedNamesExact(rules, rules, replaceHTTP, peer, n);
    forall k: nat | k < |rules| ensures !Opens(rules, rules, k) {
      assert rules[k] in rules && RulesMatch(rules[k], rules[k]);
    }
  }
}
