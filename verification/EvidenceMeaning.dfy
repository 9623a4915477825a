/**
 What an evidence document holds after any sequence of merges: for every rule key the newest samples
 of everything ever given for it, summed counts and widest times; and the newest sessions ever seen.
 */
module EvidenceMeaning {
  import opened PolicyTypes
  import opened Sorting
  import opened Merge
  import opened Text
  import opened Evidence
  import opened CollapseEngine

  // ---- Streaming top-k --------------------------------------------------------------------------

  function InsertAll<T>(s: seq<T>, b: seq<T>, le: (T, T) -> bool): seq<T>
  {
    if b == [] then s else Insert(InsertAll(s, b[..|b| - 1], le), b[|b| - 1], le)
  }

  lemma {:induction false} SortConcat<T>(a: seq<T>, b: seq<T>, le: (T, T) -> bool)
    ensures Sort(a + b, le) == InsertAll(Sort(a, le), b, le)
  {
    if b == [] {
      assert a + b == a;
    } else {
      assert (a + b)[..|a + b| - 1] == a + b[..|b| - 1];
      SortConcat(a, b[..|b| - 1], le);
    }
  }

  /** An insertion is felt among the last k elements only through them. */
  lemma {:induction false} InsertSuffix<T>(s: seq<T>, x: T, k: nat, le: (T, T) -> bool)
    ensures Suffix(Insert(s, x, le), k) == Suffix(Insert(Suffix(s, k), x, le), k)
  {
    if k == 0 || |s| <= k {
    } else if le(s[|s| - 1], x) {
      assert Suffix(s, k)[k - 1] == s[|s| - 1];
    } else {
      assert s == s[..|s| - 1] + [s[|s| - 1]];
      InsertSuffix(s[..|s| - 1], x, k - 1, le);
      InsertSuffixStep(s[..|s| - 1], s[|s| - 1], x, k, le);
    }
  }

  lemma InsertSuffixStep<T>(front: seq<T>, last: T, x: T, k: nat, le: (T, T) -> bool)
    requires k > 0 && !le(last, x)
    requires Suffix(Insert(front, x, le), k - 1) == Suffix(Insert(Suffix(front, k - 1), x, le), k - 1)
    ensures Suffix(Insert(front + [last], x, le), k) == Suffix(Insert(Suffix(front + [last], k), x, le), k)
  {
    var short := Suffix(front, k - 1);
    calc {
      Suffix(Insert(front + [last], x, le), k);
      { InsertBeforeLast(front, last, x, le); }
      Suffix(Insert(front, x, le) + [last], k);
      { SuffixAppend(Insert(front, x, le), last, k); }
      Suffix(Insert(short, x, le), k - 1) + [last];
      { SuffixAppend(Insert(short, x, le), last, k); }
      Suffix(Insert(short, x, le) + [last], k);
      { InsertBeforeLast(short, last, x, le); }
      Suffix(Insert(short + [last], x, le), k);
      { SuffixAppend(front, last, k); }
      Suffix(Insert(Suffix(front + [last], k), x, le), k);
    }
  }

  lemma InsertBeforeLast<T>(front: seq<T>, last: T, x: T, le: (T, T) -> bool)
    requires !le(last, x)
    ensures Insert(front + [last], x, le) == Insert(front, x, le) + [last]
  {
    assert (front + [last])[..|front|] == front;
  }

  lemma SuffixAppend<T>(s: seq<T>, x: T, k: nat)
    requires k > 0
    ensures Suffix(s + [x], k) == Suffix(s, k - 1) + [x]
  {
  }

  lemma {:induction false} InsertAllSuffix<T>(s: seq<T>, b: seq<T>, k: nat, le: (T, T) -> bool)
    ensures Suffix(InsertAll(s, b, le), k) == Suffix(InsertAll(Suffix(s, k), b, le), k)
  {
    if b == [] {
    } else {
      var front, x := b[..|b| - 1], b[|b| - 1];
      InsertAllSuffix(s, front, k, le);
      InsertSuffix(InsertAll(s, front, le), x, k, le);
      InsertSuffix(InsertAll(Suffix(s, k), front, le), x, k, le);
    }
  }

  lemma {:induction false} SortedIsFixed<T>(s: seq<T>, le: (T, T) -> bool)
    requires Sorted(s, le)
    ensures Sort(s, le) == s
  {
    if s != [] {
      var front, last := s[..|s| - 1], s[|s| - 1];
      SortedIsFixed(front, le);
      assert front == [] || le(front[|front| - 1], last);
      assert s == front + [last];
    }
  }

  lemma TimeOrder()
    ensures TotalPreorder(Earlier)
  {
  }

  /** What is kept of a list of samples is in order of time, as many as the cap allows, and nothing dropped is newer. */
  lemma SamplesAreNewest(s: seq<Sample>, maxSamples: int) returns (dropped: seq<Sample>)
    ensures var kept := CapSamples(s, maxSamples);
            && multiset(dropped) + multiset(kept) == multiset(s)
            && |kept| == (if 0 < maxSamples < |s| then maxSamples else |s|)
            && (forall i, j :: 0 <= i < j < |kept| ==> kept[i].time <= kept[j].time)
            && (forall x, d :: x in kept && d in dropped ==> d.time <= x.time)
  {
    var sorted := Sort(s, Earlier);
    TimeOrder();
    SortSorts(s, Earlier);
    SortPermutes(s, Earlier);
    var n := if 0 < maxSamples < |s| then |s| - maxSamples else 0;
    dropped := sorted[..n];
    KeptIsSuffix(sorted, maxSamples, n);
    InTimeOrder(sorted, n);
    BagSplit(sorted, n);
  }

  lemma KeptIsSuffix(sorted: seq<Sample>, maxSamples: int, n: nat)
    requires n == if 0 < maxSamples < |sorted| then |sorted| - maxSamples else 0
    ensures n <= |sorted| && (if maxSamples > 0 then Suffix(sorted, maxSamples) else sorted) == sorted[n..]
  {
  }

  lemma BagSplit<T>(s: seq<T>, n: nat)
    requires n <= |s|
    ensures multiset(s[..n]) + multiset(s[n..]) == multiset(s)
  {
    assert s == s[..n] + s[n..];
  }

  lemma InTimeOrder(sorted: seq<Sample>, n: nat)
    requires Sorted(sorted, Earlier) && n <= |sorted|
    ensures forall i, j :: n <= i < j < |sorted| ==> sorted[i].time <= sorted[j].time
    ensures forall x, d :: x in sorted[n..] && d in sorted[..n] ==> d.time <= x.time
  {
    forall i, j | 0 <= i < j < |sorted| ensures sorted[i].time <= sorted[j].time { assert Earlier(sorted[i], sorted[j]); }
    forall x, d | x in sorted[n..] && d in sorted[..n] ensures d.time <= x.time {
      var i :| 0 <= i < n && sorted[..n][i] == d;
      var j :| 0 <= j < |sorted| - n && sorted[n..][j] == x;
      assert sorted[i] == d && sorted[n + j] == x;
    }
  }

  /** Capping early loses nothing: the newest k of a capped list and more are the newest k of it all. */
  lemma CapAbsorbs(a: seq<Sample>, b: seq<Sample>, maxSamples: int)
    ensures CapSamples(CapSamples(a, maxSamples) + b, maxSamples) == CapSamples(a + b, maxSamples)
  {
    TimeOrder();
    SortSorts(a, Earlier);
    var capped := CapSamples(a, maxSamples);
    assert Sorted(capped, Earlier);
    SortedIsFixed(capped, Earlier);
    SortConcat(capped, b, Earlier);
    SortConcat(a, b, Earlier);
    if maxSamples > 0 {
      InsertAllSuffix(Sort(a, Earlier), b, maxSamples, Earlier);
    }
  }

  // ---- All that was given for one key -----------------------------------------------------------

  function GivenFor(rules: seq<RuleEvidence>, key: string): seq<RuleEvidence>
  {
    if rules == [] then []
    else GivenFor(rules[..|rules| - 1], key) + (if rules[|rules| - 1].key == key then [rules[|rules| - 1]] else [])
  }

  function AllSamples(given: seq<RuleEvidence>): seq<Sample>
  {
    if given == [] then [] else AllSamples(given[..|given| - 1]) + given[|given| - 1].samples
  }

  function AllSessions(given: seq<RuleEvidence>): seq<string>
  {
    if given == [] then [] else AllSessions(given[..|given| - 1]) + given[|given| - 1].sessions
  }

  function CountSum(given: seq<RuleEvidence>): int
  {
    if given == [] then 0 else CountSum(given[..|given| - 1]) + given[|given| - 1].flowCount
  }

  /** The least time that is not the zero time, or the zero time when there is none. */
  ghost predicate IsFirst(t: Time, given: seq<RuleEvidence>)
  {
    if t == ZERO_TIME then forall r :: r in given ==> r.firstSeen == ZERO_TIME
    else (exists r :: r in given && r.firstSeen == t) && forall r :: r in given ==> r.firstSeen == ZERO_TIME || t <= r.firstSeen
  }

  ghost predicate IsLast(t: Time, given: seq<RuleEvidence>)
  {
    (exists r :: r in given && r.lastSeen == t) && forall r :: r in given ==> r.lastSeen <= t
  }

  /** What the document must hold for a key that was given these rules. */
  ghost predicate Summarises(r: RuleEvidence, given: seq<RuleEvidence>, maxSamples: int)
  {
    && given != [] && r.key == given[0].key && r.direction == given[0].direction && r.detail == given[0].detail
    && r.flowCount == CountSum(given)
    && r.samples == CapSamples(AllSamples(given), maxSamples)
    && IsFirst(r.firstSeen, given) && IsLast(r.lastSeen, given)
    && r.sessions == (if |given| == 1 then given[0].sessions else AppendNew([], AllSessions(given)))
  }

  lemma OneGiven(nr: RuleEvidence, maxSamples: int)
    ensures Summarises(nr.(samples := CapSamples(nr.samples, maxSamples)), [nr], maxSamples)
  {
    assert [nr][..0] == [] && nr in [nr];
    assert [] + nr.samples == nr.samples;
  }

  lemma {:induction false} AppendNewIdem(a: seq<string>)
    ensures AppendNew([], AppendNew([], a)) == AppendNew([], a)
    ensures forall x :: x in AppendNew([], a) <==> x in a
  {
    AppendNewMembers([], a);
    if a != [] {
      var front, x := a[..|a| - 1], a[|a| - 1];
      AppendNewIdem(front);
      var r := AppendNew([], front);
      if x !in r { assert (r + [x])[..|r|] == r; }
    }
  }

  /** One more rule for the key. */
  lemma OneMoreGiven(r: RuleEvidence, given: seq<RuleEvidence>, nr: RuleEvidence, maxSamples: int)
    requires Summarises(r, given, maxSamples) && nr.key == r.key
    ensures Summarises(MergedRuleEvidence(r, nr, maxSamples), given + [nr], maxSamples)
  {
    var all := given + [nr];
    assert all[..|given|] == given && all[0] == given[0];
    assert forall x :: x in all <==> x in given || x == nr;
    CapAbsorbs(AllSamples(given), nr.samples, maxSamples);
    MergedSessions(r, given, nr);
    MergedTimes(r, given, nr, maxSamples);
  }

  /** The rule's own session list, once deduplicated, is everything given for the key, deduplicated. */
  lemma {:induction false} SessionsSoFar(r: RuleEvidence, given: seq<RuleEvidence>)
    requires given != [] && r.sessions == (if |given| == 1 then given[0].sessions else AppendNew([], AllSessions(given)))
    ensures AppendNew([], r.sessions) == AppendNew([], AllSessions(given))
  {
    if |given| == 1 {
      assert given[..0] == [];
      assert AllSessions(given) == given[0].sessions;
    } else {
      AppendNewIdem(AllSessions(given));
    }
  }

  lemma {:induction false} MergedSessions(r: RuleEvidence, given: seq<RuleEvidence>, nr: RuleEvidence)
    requires given != [] && r.sessions == (if |given| == 1 then given[0].sessions else AppendNew([], AllSessions(given)))
    ensures AppendNew(AppendNew([], r.sessions), nr.sessions) == AppendNew([], AllSessions(given + [nr]))
  {
    assert (given + [nr])[..|given|] == given;
    SessionsSoFar(r, given);
    AppendNewTwice([], AllSessions(given), nr.sessions);
  }

  lemma MergedTimes(r: RuleEvidence, given: seq<RuleEvidence>, nr: RuleEvidence, maxSamples: int)
    requires IsFirst(r.firstSeen, given) && IsLast(r.lastSeen, given)
    ensures var m := MergedRuleEvidence(r, nr, maxSamples); IsFirst(m.firstSeen, given + [nr]) && IsLast(m.lastSeen, given + [nr])
  {
    var all := given + [nr];
    assert forall x :: x in all <==> x in given || x == nr;
    assert nr in all;
    var m := MergedRuleEvidence(r, nr, maxSamples);
    var q :| q in given && q.lastSeen == r.lastSeen;
    assert q in all;
    if r.firstSeen != ZERO_TIME {
      var p :| p in given && p.firstSeen == r.firstSeen;
      assert p in all;
    }
  }

  // ---- Rules of a document ----------------------------------------------------------------------

  ghost predicate KeysUnique(rules: seq<RuleEvidence>)
  {
    forall i, j :: 0 <= i < j < |rules| ==> rules[i].key != rules[j].key
  }

  /** Each key given anything has exactly one rule, and it summarises what was given. */
  ghost predicate Holds(rules: seq<RuleEvidence>, given: seq<RuleEvidence>, maxSamples: int)
  {
    && KeysUnique(rules)
    && (forall r :: r in rules ==> Accurate(r, given, maxSamples))
    && Covers(rules, given)
  }

  ghost predicate Accurate(r: RuleEvidence, given: seq<RuleEvidence>, maxSamples: int)
  {
    Summarises(r, GivenFor(given, r.key), maxSamples)
  }

  ghost predicate Covers(rules: seq<RuleEvidence>, given: seq<RuleEvidence>)
  {
    forall r :: r in given ==> HasKey(rules, r.key)
  }

  ghost predicate HasKey(rules: seq<RuleEvidence>, key: string)
  {
    exists r :: r in rules && r.key == key
  }

  lemma {:induction false} GivenForAppend(given: seq<RuleEvidence>, nr: RuleEvidence, key: string)
    ensures GivenFor(given + [nr], key) == GivenFor(given, key) + (if nr.key == key then [nr] else [])
  {
    assert (given + [nr])[..|given|] == given;
  }

  lemma {:induction false} NothingGiven(given: seq<RuleEvidence>, key: string)
    requires forall r :: r in given ==> r.key != key
    ensures GivenFor(given, key) == []
  {
    if given != [] { NothingGiven(given[..|given| - 1], key); }
  }

  /** Rules of other keys do not notice. */
  lemma OthersAccurate(r: RuleEvidence, given: seq<RuleEvidence>, nr: RuleEvidence, maxSamples: int)
    requires Accurate(r, given, maxSamples) && r.key != nr.key
    ensures Accurate(r, given + [nr], maxSamples)
  {
    GivenForAppend(given, nr, r.key);
    assert GivenFor(given, r.key) + [] == GivenFor(given, r.key);
  }

  lemma MatchAccurate(r: RuleEvidence, given: seq<RuleEvidence>, nr: RuleEvidence, maxSamples: int)
    requires Accurate(r, given, maxSamples) && r.key == nr.key
    ensures Accurate(MergedRuleEvidence(r, nr, maxSamples), given + [nr], maxSamples)
  {
    OneMoreGiven(r, GivenFor(given, nr.key), nr, maxSamples);
    GivenForAppend(given, nr, nr.key);
  }

  lemma OneReplaced(rules: seq<RuleEvidence>, given: seq<RuleEvidence>, nr: RuleEvidence, maxSamples: int, i: nat, m: RuleEvidence)
    requires i < |rules| && rules[i].key == nr.key && KeysUnique(rules) && Accurate(m, given + [nr], maxSamples)
    requires forall r :: r in rules ==> Accurate(r, given, maxSamples)
    ensures forall r :: r in rules[i := m] ==> Accurate(r, given + [nr], maxSamples)
  {
    var out := rules[i := m];
    forall j | 0 <= j < |out| && j != i ensures Accurate(out[j], given + [nr], maxSamples) {
      assert rules[j] in rules && rules[j].key != rules[i].key;
      OthersAccurate(rules[j], given, nr, maxSamples);
    }
  }

  lemma ReplaceHolds(rules: seq<RuleEvidence>, given: seq<RuleEvidence>, nr: RuleEvidence, maxSamples: int, i: nat, m: RuleEvidence)
    requires Holds(rules, given, maxSamples) && i < |rules| && rules[i].key == nr.key == m.key
    requires Accurate(m, given + [nr], maxSamples)
    ensures Holds(rules[i := m], given + [nr], maxSamples)
  {
    OneReplaced(rules, given, nr, maxSamples, i, m);
    KeptKeys(rules, rules[i := m]);
    assert rules[i := m][i].key == nr.key;
    KeysGiven(rules[i := m], given, nr);
  }

  lemma MergeKnown(rules: seq<RuleEvidence>, given: seq<RuleEvidence>, nr: RuleEvidence, maxSamples: int, i: nat)
    requires Holds(rules, given, maxSamples) && i < |rules| && rules[i].key == nr.key
    ensures Holds(rules[i := MergedRuleEvidence(rules[i], nr, maxSamples)], given + [nr], maxSamples)
  {
    assert rules[i] in rules;
    MatchAccurate(rules[i], given, nr, maxSamples);
    ReplaceHolds(rules, given, nr, maxSamples, i, MergedRuleEvidence(rules[i], nr, maxSamples));
  }

  lemma MergeUnknown(rules: seq<RuleEvidence>, given: seq<RuleEvidence>, nr: RuleEvidence, maxSamples: int)
    requires Holds(rules, given, maxSamples) && forall i :: 0 <= i < |rules| ==> rules[i].key != nr.key
    ensures Holds(rules + [nr.(samples := CapSamples(nr.samples, maxSamples))], given + [nr], maxSamples)
  {
    var m := nr.(samples := CapSamples(nr.samples, maxSamples));
    var out := rules + [m];
    assert Accurate(m, given + [nr], maxSamples) by {
      forall q | q in given ensures q.key != nr.key { assert HasKey(rules, q.key); }
      NothingGiven(given, nr.key);
      OneGiven(nr, maxSamples);
      GivenForAppend(given, nr, nr.key);
      assert [] + [nr] == [nr];
    }
    forall r | r in rules ensures Accurate(r, given + [nr], maxSamples) { OthersAccurate(r, given, nr, maxSamples); }
    KeptKeys(rules, out);
    assert out[|rules|].key == nr.key;
    KeysGiven(out, given, nr);
  }

  lemma MergeOneHolds(rules: seq<RuleEvidence>, given: seq<RuleEvidence>, nr: RuleEvidence, maxSamples: int)
    requires Holds(rules, given, maxSamples)
    ensures Holds(MergeOne(rules, nr, maxSamples), given + [nr], maxSamples)
  {
    match FindKey(rules, nr.key)
    case Some(i) => MergeKnown(rules, given, nr, maxSamples, i);
    case None => MergeUnknown(rules, given, nr, maxSamples);
  }

  lemma KeptKeys(rules: seq<RuleEvidence>, out: seq<RuleEvidence>)
    requires |rules| <= |out| && forall i :: 0 <= i < |rules| ==> out[i].key == rules[i].key
    ensures forall key :: HasKey(rules, key) ==> HasKey(out, key)
  {
    forall key | HasKey(rules, key) ensures HasKey(out, key) {
      var r :| r in rules && r.key == key;
      var i :| 0 <= i < |rules| && rules[i] == r;
      assert out[i] in out;
    }
  }

  lemma KeysGiven(out: seq<RuleEvidence>, given: seq<RuleEvidence>, nr: RuleEvidence)
    requires Covers(out, given)
    requires exists i :: 0 <= i < |out| && out[i].key == nr.key
    ensures Covers(out, given + [nr])
  {
    var i :| 0 <= i < |out| && out[i].key == nr.key;
    assert out[i] in out;
  }

  lemma {:induction false} MergeNewHolds(rules: seq<RuleEvidence>, given: seq<RuleEvidence>, newRules: seq<RuleEvidence>, maxSamples: int)
    requires Holds(rules, given, maxSamples)
    ensures Holds(MergeNew(rules, newRules, maxSamples), given + newRules, maxSamples)
  {
    if newRules == [] {
      assert given + newRules == given;
    } else {
      MergeNewHolds(rules, given, newRules[..|newRules| - 1], maxSamples);
      LastHolds(rules, given, newRules, maxSamples);
    }
  }

  lemma LastHolds(rules: seq<RuleEvidence>, given: seq<RuleEvidence>, newRules: seq<RuleEvidence>, maxSamples: int)
    requires newRules != []
    requires var front := newRules[..|newRules| - 1]; Holds(MergeNew(rules, front, maxSamples), given + front, maxSamples)
    ensures Holds(MergeNew(rules, newRules, maxSamples), given + newRules, maxSamples)
  {
    var front, last := newRules[..|newRules| - 1], newRules[|newRules| - 1];
    assert newRules == front + [last];
    AppendAssoc(given, front, last);
    MergeOneHolds(MergeNew(rules, front, maxSamples), given + front, last, maxSamples);
  }

  lemma AppendAssoc(given: seq<RuleEvidence>, front: seq<RuleEvidence>, last: RuleEvidence)
    ensures given + (front + [last]) == (given + front) + [last]
  {
  }

  lemma RuleBeforeOrder()
    ensures TotalPreorder(RuleBefore)
  {
    forall x, y ensures RuleBefore(x, y) || RuleBefore(y, x) {
      LexTotal(x.direction, y.direction);
      LexTotal(x.key, y.key);
    }
    forall x, y, z | RuleBefore(x, y) && RuleBefore(y, z) ensures RuleBefore(x, z) {
      if x.direction == y.direction == z.direction {
        LexTransitive(x.key, y.key, z.key);
      } else if x.direction != y.direction && y.direction != z.direction {
        LexTransitive(x.direction, y.direction, z.direction);
        LexTotal(x.direction, y.direction);
      }
    }
  }

  function Keys(rules: seq<RuleEvidence>): (r: seq<string>)
    ensures |r| == |rules|
  {
    seq(|rules|, i requires 0 <= i < |rules| => rules[i].key)
  }

  /** Sorting moves rules, it does not change what the document holds. */
  lemma SortHolds(rules: seq<RuleEvidence>, given: seq<RuleEvidence>, maxSamples: int)
    requires Holds(rules, given, maxSamples)
    ensures Holds(Sort(rules, RuleBefore), given, maxSamples)
  {
    var out := Sort(rules, RuleBefore);
    SortPermutes(rules, RuleBefore);
    UniqueKeysPermute(rules, out);
    forall r | r in given ensures HasKey(out, r.key) {
      var q :| q in rules && q.key == r.key;
      assert q in out;
    }
  }

  lemma UniqueKeysPermute(rules: seq<RuleEvidence>, out: seq<RuleEvidence>)
    requires KeysUnique(rules) && multiset(rules) == multiset(out) && forall x :: x in out <==> x in rules
    ensures KeysUnique(out)
  {
    assert NoDup(rules);
    CardNoDup(rules, out);
    forall i, j | 0 <= i < j < |out| ensures out[i].key != out[j].key {
      assert out[i] in rules && out[j] in rules;
      var a :| 0 <= a < |rules| && rules[a] == out[i];
      var b :| 0 <= b < |rules| && rules[b] == out[j];
      assert a != b;
    }
  }

  // ---- Any sequence of merges -------------------------------------------------------------------

  datatype Batch = Batch(session: SessionInfo, rules: seq<RuleEvidence>)

  function RulesAfter(batches: seq<Batch>, caps: Caps): seq<RuleEvidence>
  {
    if batches == [] then []
    else MergedRules(RulesAfter(batches[..|batches| - 1], caps), batches[|batches| - 1].rules, caps.maxSamples)
  }

  function AllGiven(batches: seq<Batch>): seq<RuleEvidence>
  {
    if batches == [] then [] else AllGiven(batches[..|batches| - 1]) + batches[|batches| - 1].rules
  }

  /**
   After any sequence of merges, rules have distinct keys, stand sorted, and the rule of each key is the
   summary of everything ever given for it: count sum, widest times, and the newest samples of all.
   */
  lemma {:induction false} EvidenceAccumulates(batches: seq<Batch>, caps: Caps)
    ensures Holds(RulesAfter(batches, caps), AllGiven(batches), caps.maxSamples)
    ensures Sorted(RulesAfter(batches, caps), RuleBefore)
  {
    if batches != [] {
      var front, last := batches[..|batches| - 1], batches[|batches| - 1];
      EvidenceAccumulates(front, caps);
      MergeNewHolds(RulesAfter(front, caps), AllGiven(front), last.rules, caps.maxSamples);
      RuleBeforeOrder();
      var merged := MergeNew(RulesAfter(front, caps), last.rules, caps.maxSamples);
      SortHolds(merged, AllGiven(batches), caps.maxSamples);
      SortSorts(merged, RuleBefore);
    }
  }

  // ---- Sessions ---------------------------------------------------------------------------------

  function SessionsAfter(batches: seq<Batch>, caps: Caps): seq<SessionInfo>
  {
    if batches == [] then []
    else CapSessions(Upserted(SessionsAfter(batches[..|batches| - 1], caps), batches[|batches| - 1].session), caps.maxSessions)
  }

  /** The latest payload given for each session ID. */
  function SeenSessions(batches: seq<Batch>): map<string, SessionInfo>
  {
    if batches == [] then map[]
    else SeenSessions(batches[..|batches| - 1])[batches[|batches| - 1].session.id := batches[|batches| - 1].session]
  }

  /** A session keeps its start time when it is written again, and no two sessions share one. */
  ghost predicate DistinctStarts(batches: seq<Batch>)
  {
    forall a, b :: a in batches && b in batches ==> (a.session.id == b.session.id <==> a.session.startedAt == b.session.startedAt)
  }

  /** list holds the newest of what was seen, at most max of them. */
  ghost predicate NewestOf(list: seq<SessionInfo>, seen: map<string, SessionInfo>, max: int)
  {
    && IdsUnique(list)
    && (forall s :: s in list ==> s.id in seen && seen[s.id] == s)
    && (max > 0 ==> |list| <= max)
    && (forall id :: id in seen ==> Lists(list, id) || Beyond(list, seen[id].startedAt, max))
  }

  /** The list is full of sessions started later. */
  ghost predicate Beyond(list: seq<SessionInfo>, startedAt: Time, max: int)
  {
    max > 0 && |list| == max && forall s :: s in list ==> startedAt < s.startedAt
  }

  ghost predicate IdsUnique(list: seq<SessionInfo>)
  {
    forall i, j :: 0 <= i < j < |list| ==> list[i].id != list[j].id
  }

  ghost predicate Lists(list: seq<SessionInfo>, id: string)
  {
    exists s :: s in list && s.id == id
  }

  ghost predicate StartsFit(seen: map<string, SessionInfo>, s: SessionInfo)
  {
    && (s.id in seen ==> seen[s.id].startedAt == s.startedAt)
    && (forall id :: id in seen && id != s.id ==> seen[id].startedAt != s.startedAt)
    && (forall p, q :: p in seen && q in seen && seen[p].startedAt == seen[q].startedAt ==> p == q)
    && (forall id :: id in seen ==> seen[id].id == id)
  }

  lemma UpsertKnown(list: seq<SessionInfo>, seen: map<string, SessionInfo>, s: SessionInfo, max: int)
    requires NewestOf(list, seen, max) && StartsFit(seen, s) && Lists(list, s.id)
    ensures NewestOf(Upserted(list, s), seen[s.id := s], max) && |Upserted(list, s)| == |list|
  {
    var i := FindSession(list, s.id);
    var q :| q in list && q.id == s.id;
    var j :| 0 <= j < |list| && list[j] == q;
    assert i <= j;
    var out, now := list[i := s], seen[s.id := s];
    forall x | x in out ensures x.id in now && now[x.id] == x && HasStart(list, x.startedAt) {
      var k :| 0 <= k < |out| && out[k] == x;
      assert list[k] in list && list[k].startedAt == x.startedAt;
      if k != i { assert list[k].id != list[i].id; }
    }
    KeptIds(list, out);
    forall id | id in now ensures Lists(out, id) || Beyond(out, now[id].startedAt, max) {
      if id != s.id && !Lists(list, id) { assert Beyond(list, seen[id].startedAt, max); }
    }
  }

  ghost predicate HasStart(list: seq<SessionInfo>, t: Time)
  {
    exists y :: y in list && y.startedAt == t
  }

  lemma KeptIds(list: seq<SessionInfo>, out: seq<SessionInfo>)
    requires |list| <= |out| && forall i :: 0 <= i < |list| ==> out[i].id == list[i].id
    ensures forall id :: Lists(list, id) ==> Lists(out, id)
  {
    forall id | Lists(list, id) ensures Lists(out, id) {
      var x :| x in list && x.id == id;
      var k :| 0 <= k < |list| && list[k] == x;
      assert out[k] in out && out[k].id == id;
    }
  }

  /** A session not listed is appended, and when the list is full the oldest of all drops out. */
  lemma UpsertUnknown(list: seq<SessionInfo>, seen: map<string, SessionInfo>, s: SessionInfo, max: int)
    requires NewestOf(list, seen, max) && StartsFit(seen, s) && !Lists(list, s.id)
    ensures NewestOf(CapSessions(list + [s], max), seen[s.id := s], max)
  {
    var out, now := list + [s], seen[s.id := s];
    assert IdsUnique(out) by {
      forall i | 0 <= i < |list| ensures list[i].id != s.id { assert list[i] in list; }
    }
    assert forall x :: x in out ==> x.id in now && now[x.id] == x;
    KeptIds(list, out);
    if max > 0 && |out| > max {
      DropOldest(list, seen, s, max);
    } else {
      assert out[|list|] in out;
      assert forall id :: id in now ==> id == s.id || id in seen;
    }
  }

  /** Sorting by start and dropping one keeps the later-started ones. */
  lemma SplitOldest(all: seq<SessionInfo>, max: int) returns (oldest: SessionInfo, kept: seq<SessionInfo>)
    requires |all| == max + 1 && max > 0 && IdsUnique(all)
    requires forall x, y :: x in all && y in all && x.startedAt == y.startedAt ==> x.id == y.id
    ensures kept == Suffix(Sort(all, StartedBefore), max) && IdsUnique(kept) && |kept| == max
    ensures forall x :: x in all <==> x == oldest || x in kept
    ensures forall x :: x in kept ==> oldest.startedAt < x.startedAt
  {
    var sorted := Sort(all, StartedBefore);
    StartOrder();
    SortPermutes(all, StartedBefore);
    SortSorts(all, StartedBefore);
    UniqueIdsPermute(all, sorted);
    oldest, kept := sorted[0], sorted[1..];
    assert sorted == [oldest] + kept;
    forall k | 0 <= k < |kept| ensures oldest.startedAt < kept[k].startedAt {
      assert sorted[k + 1] == kept[k] && sorted[0].id != sorted[k + 1].id;
      assert StartedBefore(sorted[0], sorted[k + 1]);
      assert sorted[0] in all && sorted[k + 1] in all;
    }
  }

  lemma {:induction false} DropOldest(list: seq<SessionInfo>, seen: map<string, SessionInfo>, s: SessionInfo, max: int)
    requires NewestOf(list, seen, max) && StartsFit(seen, s) && !Lists(list, s.id) && max > 0 && |list| == max
    requires IdsUnique(list + [s]) && forall x :: x in list + [s] ==> x.id in seen[s.id := s] && seen[s.id := s][x.id] == x
    ensures NewestOf(Suffix(Sort(list + [s], StartedBefore), max), seen[s.id := s], max)
  {
    var all, now := list + [s], seen[s.id := s];
    forall x, y | x in all && y in all && x.startedAt == y.startedAt ensures x.id == y.id {
      assert now[x.id] == x && now[y.id] == y;
    }
    var oldest, kept := SplitOldest(all, max);
    assert oldest in all;
    StillNewest(list, seen, s, max, oldest, kept);
  }

  lemma StillNewest(list: seq<SessionInfo>, seen: map<string, SessionInfo>, s: SessionInfo, max: int, oldest: SessionInfo, kept: seq<SessionInfo>)
    requires NewestOf(list, seen, max) && |kept| == max && max > 0 && IdsUnique(kept)
    requires forall x :: x in list + [s] <==> x == oldest || x in kept
    requires forall x :: x in kept ==> oldest.startedAt < x.startedAt
    requires forall x :: x in list + [s] ==> x.id in seen[s.id := s] && seen[s.id := s][x.id] == x
    ensures NewestOf(kept, seen[s.id := s], max)
  {
    var now := seen[s.id := s];
    assert oldest in list + [s];
    forall id | id in now ensures Lists(kept, id) || Beyond(kept, now[id].startedAt, max) {
      DroppedIsBeyond(list, seen, s, max, oldest, kept, id);
    }
  }

  lemma DroppedIsBeyond(list: seq<SessionInfo>, seen: map<string, SessionInfo>, s: SessionInfo, max: int,
                        oldest: SessionInfo, kept: seq<SessionInfo>, id: string)
    requires NewestOf(list, seen, max) && |kept| == max && max > 0 && id in seen[s.id := s]
    requires forall x :: x in list + [s] <==> x == oldest || x in kept
    requires forall x :: x in kept ==> oldest.startedAt < x.startedAt
    requires oldest.id in seen[s.id := s] && seen[s.id := s][oldest.id] == oldest
    ensures Lists(kept, id) || Beyond(kept, seen[s.id := s][id].startedAt, max)
  {
    if !Lists(kept, id) && id != oldest.id {
      NotListedBefore(list, s, kept, oldest, id);
      assert Beyond(list, seen[id].startedAt, max);
      OlderThanKept(list, s, kept, oldest, seen[id].startedAt);
    }
  }

  lemma OlderThanKept(list: seq<SessionInfo>, s: SessionInfo, kept: seq<SessionInfo>, oldest: SessionInfo, t: Time)
    requires forall x :: x in list ==> t < x.startedAt
    requires forall x :: x in kept ==> x in list + [s] && oldest.startedAt < x.startedAt
    requires oldest in list || oldest == s
    ensures forall x :: x in kept ==> t < x.startedAt
  {
  }

  /** What is not kept is the oldest, or was not listed before either. */
  lemma NotListedBefore(list: seq<SessionInfo>, s: SessionInfo, kept: seq<SessionInfo>, oldest: SessionInfo, id: string)
    requires forall x :: x in list + [s] <==> x == oldest || x in kept
    requires !Lists(kept, id) && id != oldest.id
    ensures !Lists(list, id) && id != s.id
  {
    assert s in list + [s];
    assert forall x :: x in list ==> x in list + [s];
  }

  lemma StartOrder()
    ensures TotalPreorder(StartedBefore)
  {
  }

  lemma UniqueIdsPermute(list: seq<SessionInfo>, out: seq<SessionInfo>)
    requires IdsUnique(list) && multiset(list) == multiset(out) && forall x :: x in out <==> x in list
    ensures IdsUnique(out)
  {
    assert NoDup(list);
    CardNoDup(list, out);
    forall i, j | 0 <= i < j < |out| ensures out[i].id != out[j].id {
      assert out[i] in list && out[j] in list;
      var a :| 0 <= a < |list| && list[a] == out[i];
      var b :| 0 <= b < |list| && list[b] == out[j];
      assert a != b;
    }
  }

  lemma UpsertKeepsNewest(list: seq<SessionInfo>, seen: map<string, SessionInfo>, s: SessionInfo, max: int)
    requires NewestOf(list, seen, max) && StartsFit(seen, s)
    ensures NewestOf(CapSessions(Upserted(list, s), max), seen[s.id := s], max)
  {
    if Lists(list, s.id) {
      UpsertKnown(list, seen, s, max);
    } else {
      forall i | 0 <= i < |list| ensures list[i].id != s.id { assert list[i] in list; }
      assert Upserted(list, s) == list + [s];
      UpsertUnknown(list, seen, s, max);
    }
  }

  lemma {:induction false} SeenIsGiven(batches: seq<Batch>, id: string)
    ensures id in SeenSessions(batches) ==> SeenSessions(batches)[id].id == id && exists b :: b in batches && b.session == SeenSessions(batches)[id]
    ensures forall b :: b in batches ==> b.session.id in SeenSessions(batches)
  {
    if batches != [] {
      var front, last := batches[..|batches| - 1], batches[|batches| - 1];
      SeenIsGiven(front, id);
      assert batches == front + [last];
      assert last in batches;
      if id != last.session.id && id in SeenSessions(batches) {
        var b :| b in front && b.session == SeenSessions(front)[id];
        assert b in batches;
      }
    }
  }

  lemma StartsFitNext(front: seq<Batch>, last: Batch)
    requires DistinctStarts(front + [last])
    ensures StartsFit(SeenSessions(front), last.session)
  {
    var seen, all := SeenSessions(front), front + [last];
    assert last in all && forall b :: b in front ==> b in all;
    forall id | id in seen
      ensures seen[id].id == id && (seen[id].startedAt == last.session.startedAt <==> id == last.session.id)
    {
      SeenIsGiven(front, id);
      var b :| b in front && b.session == seen[id];
    }
    forall p, q | p in seen && q in seen && seen[p].startedAt == seen[q].startedAt ensures p == q {
      SeenIsGiven(front, p);
      SeenIsGiven(front, q);
      var a :| a in front && a.session == seen[p];
      var b :| b in front && b.session == seen[q];
    }
  }

  /**
   After any sequence of writes the list has one entry per ID and holds exactly the newest sessions
   ever seen, each with its latest payload, an evicted session written again included.
   */
  lemma {:induction false} SessionsAreNewest(batches: seq<Batch>, caps: Caps)
    requires DistinctStarts(batches)
    ensures NewestOf(SessionsAfter(batches, caps), SeenSessions(batches), caps.maxSessions)
  {
    if batches != [] {
      var front, last := batches[..|batches| - 1], batches[|batches| - 1];
      assert batches == front + [last];
      SessionsAreNewest(front, caps);
      StartsFitNext(front, last);
      UpsertKeepsNewest(SessionsAfter(front, caps), SeenSessions(front), last.session, caps.maxSessions);
    }
  }
}
