/**
 Evidence documents (pkg/evidence/merge.go): sessions upserted and capped to the newest, rules merged
 by key with their samples capped to the newest. Times are integers; the zero time is a value of its
 own.
 */
module Evidence {
  import opened PolicyTypes
  import opened Sorting
  import opened Merge
  import opened Text
  import CollapseEngine

  type Time = int

  const ZERO_TIME: Time := 0

  datatype Sample = Sample(time: Time, text: string)

  datatype SessionInfo = SessionInfo(id: string, startedAt: Time, payload: string)

  /** detail: peer, port, protocol and L7 reference, which a merge never changes. */
  datatype RuleEvidence = RuleEvidence(
    key: string, direction: string, detail: string, flowCount: int, firstSeen: Time, lastSeen: Time,
    sessions: seq<string>, samples: seq<Sample>)

  datatype Caps = Caps(maxSamples: int, maxSessions: int)

  // ---- Newest of a list -------------------------------------------------------------------------

  function Suffix<T>(s: seq<T>, k: nat): seq<T>
  {
    if |s| > k then s[|s| - k..] else s
  }

  predicate Earlier(a: Sample, b: Sample) { a.time <= b.time }

  function CapSamples(s: seq<Sample>, maxSamples: int): seq<Sample>
  {
    if maxSamples > 0 then Suffix(Sort(s, Earlier), maxSamples) else Sort(s, Earlier)
  }

  method CapSamplesInPlace(s: seq<Sample>, maxSamples: int) returns (r: seq<Sample>)
    ensures r == CapSamples(s, maxSamples)
  {
    r := Sort(s, Earlier);
    if maxSamples > 0 && |r| > maxSamples {
      r := r[|r| - maxSamples..];
    }
  }

  // ---- Sessions ---------------------------------------------------------------------------------

  predicate StartedBefore(a: SessionInfo, b: SessionInfo) { a.startedAt <= b.startedAt }

  function FindSession(sessions: seq<SessionInfo>, id: string): (i: nat)
    ensures i <= |sessions|
    ensures i < |sessions| ==> sessions[i].id == id
    ensures forall j :: 0 <= j < i ==> sessions[j].id != id
  {
    if sessions == [] then 0
    else if sessions[0].id == id then 0
    else FindSession(sessions[1..], id) + 1
  }

  function Upserted(sessions: seq<SessionInfo>, s: SessionInfo): seq<SessionInfo>
  {
    var i := FindSession(sessions, s.id);
    if i < |sessions| then sessions[i := s] else sessions + [s]
  }

  function CapSessions(sessions: seq<SessionInfo>, maxSessions: int): seq<SessionInfo>
  {
    if maxSessions > 0 && |sessions| > maxSessions then Suffix(Sort(sessions, StartedBefore), maxSessions) else sessions
  }

  lemma SortedLength(list: seq<SessionInfo>, sorted: seq<SessionInfo>)
    requires sorted == Sort(list, StartedBefore)
    ensures |sorted| == |list|
  {
    SortPermutes(list, StartedBefore);
  }

  // ---- Rules ------------------------------------------------------------------------------------

  function MergedFirst(a: Time, b: Time): Time
  {
    if b != ZERO_TIME && (a == ZERO_TIME || b < a) then b else a
  }

  function MergedRuleEvidence(a: RuleEvidence, b: RuleEvidence, maxSamples: int): RuleEvidence
  {
    a.(flowCount := a.flowCount + b.flowCount,
       firstSeen := MergedFirst(a.firstSeen, b.firstSeen),
       lastSeen := if b.lastSeen > a.lastSeen then b.lastSeen else a.lastSeen,
       sessions := AppendNew(AppendNew([], a.sessions), b.sessions),
       samples := CapSamples(a.samples + b.samples, maxSamples))
  }

  /** The index the last rule with this key has, if any. */
  function FindKey(rules: seq<RuleEvidence>, key: string): (r: Option<nat>)
    ensures r.Some? ==> r.value < |rules| && rules[r.value].key == key
    ensures r.None? ==> forall i :: 0 <= i < |rules| ==> rules[i].key != key
  {
    if rules == [] then None
    else if rules[|rules| - 1].key == key then Some(|rules| - 1)
    else FindKey(rules[..|rules| - 1], key)
  }

  function MergeOne(rules: seq<RuleEvidence>, nr: RuleEvidence, maxSamples: int): seq<RuleEvidence>
  {
    match FindKey(rules, nr.key)
    case Some(i) => rules[i := MergedRuleEvidence(rules[i], nr, maxSamples)]
    case None => rules + [nr.(samples := CapSamples(nr.samples, maxSamples))]
  }

  function MergeNew(rules: seq<RuleEvidence>, newRules: seq<RuleEvidence>, maxSamples: int): seq<RuleEvidence>
  {
    if newRules == [] then rules
    else MergeOne(MergeNew(rules, newRules[..|newRules| - 1], maxSamples), newRules[|newRules| - 1], maxSamples)
  }

  predicate RuleBefore(a: RuleEvidence, b: RuleEvidence)
  {
    if a.direction != b.direction then LexLe(a.direction, b.direction) else LexLe(a.key, b.key)
  }

  function MergedRules(rules: seq<RuleEvidence>, newRules: seq<RuleEvidence>, maxSamples: int): seq<RuleEvidence>
  {
    Sort(MergeNew(rules, newRules, maxSamples), RuleBefore)
  }

  method MergeSessionIDs(a: seq<string>, b: seq<string>) returns (merged: seq<string>)
    ensures merged == AppendNew(AppendNew([], a), b)
  {
    merged := AppendUnseen([], a);
    merged := AppendUnseen(merged, b);
  }

  method MergeRuleEvidence(a: RuleEvidence, b: RuleEvidence, maxSamples: int) returns (out: RuleEvidence)
    ensures out == MergedRuleEvidence(a, b, maxSamples)
  {
    out := a.(flowCount := a.flowCount + b.flowCount);
    if b.firstSeen != ZERO_TIME && (out.firstSeen == ZERO_TIME || b.firstSeen < out.firstSeen) {
      out := out.(firstSeen := b.firstSeen);
    }
    if b.lastSeen > out.lastSeen {
      out := out.(lastSeen := b.lastSeen);
    }
    var ids := MergeSessionIDs(a.sessions, b.sessions);
    var samples := CapSamplesInPlace(a.samples + b.samples, maxSamples);
    out := out.(sessions := ids, samples := samples);
  }

  lemma {:induction false} FindKeyAppend(rules: seq<RuleEvidence>, r: RuleEvidence, key: string)
    ensures FindKey(rules + [r], key) == if r.key == key then Some(|rules|) else FindKey(rules, key)
  {
    assert (rules + [r])[..|rules|] == rules;
  }

  lemma {:induction false} FindKeyUpdate(rules: seq<RuleEvidence>, i: nat, r: RuleEvidence, key: string)
    requires i < |rules| && r.key == rules[i].key
    ensures FindKey(rules[i := r], key) == FindKey(rules, key)
  {
    var n := |rules| - 1;
    if rules[n].key != key {
      if i < n {
        assert rules[i := r][..n] == rules[..n][i := r];
        FindKeyUpdate(rules[..n], i, r, key);
      } else {
        assert rules[i := r][..n] == rules[..n];
      }
    }
  }

  /** byKey gives the index of the last rule of every key. */
  ghost predicate Indexes(byKey: map<string, nat>, rules: seq<RuleEvidence>)
  {
    forall k :: FindKey(rules, k) == if k in byKey then Some(byKey[k]) else None
  }

  lemma IndexesAppend(byKey: map<string, nat>, rules: seq<RuleEvidence>, r: RuleEvidence)
    requires Indexes(byKey, rules)
    ensures Indexes(byKey[r.key := |rules|], rules + [r])
  {
    forall k ensures FindKey(rules + [r], k) == if k in byKey[r.key := |rules|] then Some(byKey[r.key := |rules|][k]) else None {
      FindKeyAppend(rules, r, k);
      assert FindKey(rules, k) == if k in byKey then Some(byKey[k]) else None;
    }
  }

  lemma IndexesUpdate(byKey: map<string, nat>, rules: seq<RuleEvidence>, i: nat, r: RuleEvidence)
    requires Indexes(byKey, rules) && i < |rules| && r.key == rules[i].key
    ensures Indexes(byKey, rules[i := r])
  {
    forall k ensures FindKey(rules[i := r], k) == if k in byKey then Some(byKey[k]) else None {
      FindKeyUpdate(rules, i, r, k);
      assert FindKey(rules, k) == if k in byKey then Some(byKey[k]) else None;
    }
  }

  method IndexKeys(rules: seq<RuleEvidence>) returns (byKey: map<string, nat>)
    ensures Indexes(byKey, rules)
  {
    byKey := map[];
    for i := 0 to |rules|
      invariant Indexes(byKey, rules[..i])
    {
      assert rules[..i + 1] == rules[..i] + [rules[i]];
      IndexesAppend(byKey, rules[..i], rules[i]);
      byKey := byKey[rules[i].key := i];
    }
    assert rules[..|rules|] == rules;
  }

  class PolicyEvidence {
    var sessions: seq<SessionInfo>
    var rules: seq<RuleEvidence>

    constructor ()
      ensures sessions == [] && rules == []
    {
      sessions, rules := [], [];
    }

    /** Replace the session with this ID, or add it. */
    method ReplaceSession(session: SessionInfo)
      modifies `sessions
      ensures sessions == Upserted(old(sessions), session)
    {
      var i := 0;
      while i < |sessions|
        invariant 0 <= i <= |sessions| && sessions == old(sessions)
        invariant forall j :: 0 <= j < i ==> sessions[j].id != session.id
      {
        if sessions[i].id == session.id {
          sessions := sessions[i := session];
          return;
        }
        i := i + 1;
      }
      sessions := sessions + [session];
    }

    method UpsertSession(session: SessionInfo, maxSessions: int)
      modifies `sessions
      ensures sessions == CapSessions(Upserted(old(sessions), session), maxSessions)
    {
      ReplaceSession(session);
      if maxSessions > 0 && |sessions| > maxSessions {
        var sorted := Sort(sessions, StartedBefore);
        SortedLength(sessions, sorted);
        sessions := sorted;
        sessions := sessions[|sessions| - maxSessions..];
      }
    }

    method MergeRules(newRules: seq<RuleEvidence>, maxSamples: int)
      modifies `rules
      ensures rules == MergedRules(old(rules), newRules, maxSamples)
    {
      var byKey := IndexKeys(rules);
      for j := 0 to |newRules|
        invariant rules == MergeNew(old(rules), newRules[..j], maxSamples)
        invariant Indexes(byKey, rules)
      {
        assert newRules[..j + 1][..j] == newRules[..j];
        byKey := MergeRule(newRules[j], byKey, maxSamples);
      }
      assert newRules[..|newRules|] == newRules;
      rules := Sort(rules, RuleBefore);
    }

    /** Fold one rule into the rule of its key, or add it. */
    method MergeRule(nr: RuleEvidence, byKey: map<string, nat>, maxSamples: int) returns (byKey': map<string, nat>)
      requires Indexes(byKey, rules)
      modifies `rules
      ensures rules == MergeOne(old(rules), nr, maxSamples) && Indexes(byKey', rules)
    {
      byKey' := byKey;
      if nr.key in byKey {
        var idx := byKey[nr.key];
        assert FindKey(rules, nr.key) == Some(idx);
        var merged := MergeRuleEvidence(rules[idx], nr, maxSamples);
        IndexesUpdate(byKey, rules, idx, merged);
        rules := rules[idx := merged];
        return;
      }
      assert FindKey(rules, nr.key) == None;
      var samples := CapSamplesInPlace(nr.samples, maxSamples);
      IndexesAppend(byKey, rules, nr.(samples := samples));
      rules := rules + [nr.(samples := samples)];
      byKey' := byKey[nr.key := |rules| - 1];
    }

    method Merge(session: SessionInfo, newRules: seq<RuleEvidence>, caps: Caps)
      modifies this
      ensures sessions == CapSessions(Upserted(old(sessions), session), caps.maxSessions)
      ensures rules == MergedRules(old(rules), newRules, caps.maxSamples)
    {
      UpsertSession(session, caps.maxSessions);
      MergeRules(newRules, caps.maxSamples);
    }
  }
}
