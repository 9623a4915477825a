/**
 The policy writer (pkg/hubble/writer.go): events equivalent to the last version written for their
 workload are skipped. Files are the abstract policies on disk; whether a write succeeds is a free
 choice of the environment.
 */
module Writer {
  import opened PolicyTypes
  import opened Merge
  import opened NameMerge
  import opened MergeMeaning
  import opened Dedup
  import opened Sorting
  import WholeRun
  import Windows

  datatype Event = Event(name: Name, policy: Policy, replaceHTTP: bool)

  datatype Stats = Stats(written: nat, failed: nat, skipped: nat, wouldWrite: nat, wouldSkip: nat)

  const NO_STATS := Stats(0, 0, 0, 0, 0)

  function Total(s: Stats): nat { s.written + s.failed + s.skipped + s.wouldWrite + s.wouldSkip }

  datatype Config = Config(cluster: Option<map<string, Policy>>, dryRun: bool, text: LabelText)

  datatype State = State(files: map<Name, Policy>, written: map<Name, Policy>, stats: Stats)

  function PolicyName(workload: string): string { "cpg-" + workload }

  predicate InCluster(c: Config, e: Event)
  {
    c.cluster.Some? && PolicyName(e.name.workload) in c.cluster.value
    && Equivalent(c.cluster.value[PolicyName(e.name.workload)], e.policy, c.text)
  }

  predicate Unchanged(c: Config, s: State, e: Event)
  {
    e.name in s.written && Equivalent(s.written[e.name], e.policy, c.text)
  }

  function WithSkip(c: Config, s: Stats): Stats
  {
    if c.dryRun then s.(wouldSkip := s.wouldSkip + 1) else s.(skipped := s.skipped + 1)
  }

  function Handled(c: Config, s: State, e: Event, writeOk: bool): State
  {
    if InCluster(c, e) || Unchanged(c, s, e) then s.(stats := WithSkip(c, s.stats))
    else if c.dryRun then
      s.(written := s.written[e.name := e.policy], stats := s.stats.(wouldWrite := s.stats.wouldWrite + 1))
    else if !writeOk then
      s.(stats := s.stats.(failed := s.stats.failed + 1))
    else
      State(s.files[e.name := FileWith(s.files, e.name, e.policy, e.replaceHTTP)], s.written[e.name := e.policy],
            s.stats.(written := s.stats.written + 1))
  }

  class PolicyWriter {
    const config: Config
    var files: map<Name, Policy>
    var written: map<Name, Policy>
    var stats: Stats

    function View(): State
      reads this
    {
      State(files, written, stats)
    }

    constructor (config: Config, files: map<Name, Policy>)
      ensures this.config == config && View() == State(files, map[], NO_STATS)
    {
      this.config, this.files, written, stats := config, files, map[], NO_STATS;
    }

    method BumpSkip()
      modifies `stats
      ensures stats == WithSkip(config, old(stats))
    {
      if config.dryRun {
        stats := stats.(wouldSkip := stats.wouldSkip + 1);
      } else {
        stats := stats.(skipped := stats.skipped + 1);
      }
    }

    method SkipForClusterMatch(e: Event) returns (skip: bool)
      ensures skip == InCluster(config, e)
    {
      if config.cluster.None? { return false; }
      if PolicyName(e.name.workload) !in config.cluster.value { return false; }
      skip := PoliciesEquivalent(config.cluster.value[PolicyName(e.name.workload)], e.policy, config.text);
    }

    method SkipForCrossFlushMatch(e: Event) returns (skip: bool)
      ensures skip == Unchanged(config, View(), e)
    {
      if e.name !in written { return false; }
      skip := PoliciesEquivalent(written[e.name], e.policy, config.text);
    }

    method Write(e: Event, writeOk: bool)
      modifies `files
      ensures files == if writeOk then old(files)[e.name := FileWith(old(files), e.name, e.policy, e.replaceHTTP)] else old(files)
    {
      if writeOk {
        var p := e.policy;
        if e.name in files {
          p := MergePolicyWithOptions(files[e.name], e.policy, e.replaceHTTP);
        }
        files := files[e.name := p];
      }
    }

    method Handle(e: Event, writeOk: bool)
      modifies this
      ensures View() == Handled(config, old(View()), e, writeOk)
    {
      var skip := SkipForClusterMatch(e);
      if skip { BumpSkip(); return; }
      skip := SkipForCrossFlushMatch(e);
      if skip { BumpSkip(); return; }
      if config.dryRun {
        stats := stats.(wouldWrite := stats.wouldWrite + 1);
        written := written[e.name := e.policy];
        return;
      }
      Write(e, writeOk);
      if !writeOk {
        stats := stats.(failed := stats.failed + 1);
        return;
      }
      stats := stats.(written := stats.written + 1);
      written := written[e.name := e.policy];
    }
  }

  // ---- Runs -------------------------------------------------------------------------------------

  function HandleAll(c: Config, s: State, events: seq<Event>, oks: seq<bool>): State
    requires |events| == |oks|
  {
    if events == [] then s
    else
      var n := |events| - 1;
      Handled(c, HandleAll(c, s, events[..n], oks[..n]), events[n], oks[n])
  }

  /** The reference: no skipping; every event that is not a failed write is merged. */
  function MergeEvery(c: Config, s: State, events: seq<Event>, oks: seq<bool>): map<Name, Policy>
    requires |events| == |oks|
  {
    if events == [] then s.files
    else
      var n := |events| - 1;
      var files, before := MergeEvery(c, s, events[..n], oks[..n]), HandleAll(c, s, events[..n], oks[..n]);
      if Unchanged(c, before, events[n]) || oks[n]
      then files[events[n].name := FileWith(files, events[n].name, events[n].policy, events[n].replaceHTTP)]
      else files
  }

  /** Every event is accounted for exactly once, and a dry run touches no file. */
  lemma {:induction false} EventsAccounted(c: Config, s: State, events: seq<Event>, oks: seq<bool>)
    requires |events| == |oks|
    ensures Total(HandleAll(c, s, events, oks).stats) == Total(s.stats) + |events|
    ensures c.dryRun ==> HandleAll(c, s, events, oks).files == s.files
    ensures c.dryRun ==> HandleAll(c, s, events, oks).stats.written == s.stats.written
  {
    if events != [] {
      EventsAccounted(c, s, events[..|events| - 1], oks[..|events| - 1]);
    }
  }

  /** The event right after an equivalent one that was taken is skipped: no write, no change on record. */
  lemma RepeatIsSkipped(c: Config, s: State, e: Event, again: Event, ok: bool)
    requires c.cluster.None? && again.name == e.name && Equivalent(e.policy, again.policy, c.text)
    requires e.name !in s.written
    ensures var t := Handled(c, s, e, true); var u := Handled(c, t, again, ok);
            && u.files == t.files && u.written == t.written && t.written == s.written[e.name := e.policy]
            && u.stats == if c.dryRun then t.stats.(wouldSkip := t.stats.wouldSkip + 1) else t.stats.(skipped := t.stats.skipped + 1)
  {
  }

  /** What the cluster already holds under the workload's policy name is skipped; so is nothing else of a first event. */
  lemma ClusterDecidesFirst(c: Config, s: State, e: Event, ok: bool)
    requires e.name !in s.written && !c.dryRun
    ensures var t := Handled(c, s, e, ok); var known := "cpg-" + e.name.workload;
            if c.cluster.Some? && known in c.cluster.value && Equivalent(c.cluster.value[known], e.policy, c.text)
            then t.files == s.files && t.written == s.written && t.stats == s.stats.(skipped := s.stats.skipped + 1)
            else if !ok then t.files == s.files && t.written == s.written && t.stats == s.stats.(failed := s.stats.failed + 1)
            else && t.files.Keys == s.files.Keys + {e.name} && t.written == s.written[e.name := e.policy]
                 && (e.name !in s.files ==> t.files[e.name] == e.policy)
                 && t.stats == s.stats.(written := s.stats.written + 1)
  {
  }

  // ---- Agreement --------------------------------------------------------------------------------

  /** The same entries, toFQDNs entries aside: what a merge does to those depends on which rules there are. */
  ghost predicate Agree(a: Policy, b: Policy)
  {
    forall e: Entry :: !e.fact.OnFQDN? ==> (Says(a, e) <==> Says(b, e))
  }

  /** The same toFQDNs entries, and rules for the same peers and types. */
  ghost predicate NamesAgree(a: Policy, b: Policy)
  {
    && (forall e: Entry :: e.fact.OnFQDN? ==> (Says(a, e) <==> Says(b, e)))
    && (forall dir, x :: Matched(RulesOf(a, dir), x) <==> Matched(RulesOf(b, dir), x))
  }

  /** Every rule of p matches one on file. */
  ghost predicate Covers(file: Policy, p: Policy)
  {
    forall dir, x :: x in RulesOf(p, dir) ==> Matched(RulesOf(file, dir), x)
  }

  lemma MergedNames(file: Policy, p: Policy, replaceHTTP: bool, dir: Dir, peer: Peer, n: DNSRule)
    requires file.spec.Some? && p.spec.Some?
    ensures Says(Merged(file, p, replaceHTTP), Entry(dir, peer, OnFQDN(n))) <==>
            Says(file, Entry(dir, peer, OnFQDN(n))) || Brings(RulesOf(file, dir), RulesOf(p, dir), peer, n)
  {
    MergedNamesExact(RulesOf(file, dir), RulesOf(p, dir), replaceHTTP, peer, n);
  }

  lemma MergedMatched(file: Policy, p: Policy, replaceHTTP: bool, dir: Dir, x: Rule)
    requires file.spec.Some? && p.spec.Some?
    ensures Matched(RulesOf(Merged(file, p, replaceHTTP), dir), x) <==> Matched(RulesOf(file, dir), x) || Matched(RulesOf(p, dir), x)
  {
    AllMatches(RulesOf(file, dir), RulesOf(p, dir), replaceHTTP, x);
  }

  /** Merging one policy into two files that agree on names leaves two that do. */
  lemma MergeNamesAgree(a: Policy, b: Policy, p: Policy, replaceHTTP: bool)
    requires a.spec.Some? && b.spec.Some? && p.spec.Some? && NamesAgree(a, b)
    ensures NamesAgree(Merged(a, p, replaceHTTP), Merged(b, p, replaceHTTP))
  {
    forall e: Entry | e.fact.OnFQDN? ensures Says(Merged(a, p, replaceHTTP), e) <==> Says(Merged(b, p, replaceHTTP), e) {
      MergedNames(a, p, replaceHTTP, e.dir, e.peer, e.fact.name);
      MergedNames(b, p, replaceHTTP, e.dir, e.peer, e.fact.name);
      assert Says(a, e) <==> Says(b, e);
      SameBrings(RulesOf(a, e.dir), RulesOf(b, e.dir), RulesOf(p, e.dir), e.peer, e.fact.name);
    }
    forall dir, x ensures Matched(RulesOf(Merged(a, p, replaceHTTP), dir), x) <==> Matched(RulesOf(Merged(b, p, replaceHTTP), dir), x) {
      MergedMatched(a, p, replaceHTTP, dir, x);
      MergedMatched(b, p, replaceHTTP, dir, x);
    }
  }

  lemma SameBrings(a: seq<Rule>, b: seq<Rule>, incoming: seq<Rule>, peer: Peer, n: DNSRule)
    requires forall x :: Matched(a, x) <==> Matched(b, x)
    ensures Brings(a, incoming, peer, n) <==> Brings(b, incoming, peer, n)
  {
    forall k: nat | k < |incoming| ensures Opens(a, incoming, k) <==> Opens(b, incoming, k) {}
  }

  /** A policy whose rules all match rules on file brings no name and no new rule. */
  lemma CoveredNamesStay(file: Policy, p: Policy, replaceHTTP: bool)
    requires file.spec.Some? && p.spec.Some? && Covers(file, p)
    ensures NamesAgree(Merged(file, p, replaceHTTP), file)
  {
    forall e: Entry | e.fact.OnFQDN? ensures Says(Merged(file, p, replaceHTTP), e) <==> Says(file, e) {
      MergedNames(file, p, replaceHTTP, e.dir, e.peer, e.fact.name);
      var inc := RulesOf(p, e.dir);
      forall k: nat | k < |inc| ensures !Opens(RulesOf(file, e.dir), inc, k) { assert inc[k] in inc; }
    }
    forall dir, x ensures Matched(RulesOf(Merged(file, p, replaceHTTP), dir), x) <==> Matched(RulesOf(file, dir), x) {
      MergedMatched(file, p, replaceHTTP, dir, x);
      if Matched(RulesOf(p, dir), x) { CoveredMatch(file, p, dir, x); }
    }
  }

  lemma CoveredMatch(file: Policy, p: Policy, dir: Dir, x: Rule)
    requires Covers(file, p) && Matched(RulesOf(p, dir), x)
    ensures Matched(RulesOf(file, dir), x)
  {
    var r :| r in RulesOf(p, dir) && RulesMatch(r, x);
    assert Matched(RulesOf(file, dir), r);
    var q :| q in RulesOf(file, dir) && RulesMatch(q, r);
    assert RulesMatch(q, x);
  }

  lemma MergedCovers(file: Policy, p: Policy, replaceHTTP: bool)
    requires file.spec.Some? && p.spec.Some?
    ensures Covers(Merged(file, p, replaceHTTP), p)
  {
    forall dir, x | x in RulesOf(p, dir) ensures Matched(RulesOf(Merged(file, p, replaceHTTP), dir), x) {
      MergedMatched(file, p, replaceHTTP, dir, x);
      assert RulesMatch(x, x);
    }
  }

  /** Equivalent policies have rules for the same peers and types. */
  lemma EquivalentCovers(file: Policy, w: Policy, p: Policy, text: LabelText)
    requires Covers(file, w) && Equivalent(w, p, text) && w.spec.Some? && p.spec.Some?
    ensures Covers(file, p)
  {
    forall dir, x | x in RulesOf(p, dir) ensures Matched(RulesOf(file, dir), x) {
      var y := EquivalentRule(RulesOf(w, dir), RulesOf(p, dir), x, text);
      assert Matched(RulesOf(file, dir), y);
      var q :| q in RulesOf(file, dir) && RulesMatch(q, y);
      assert RulesMatch(q, x);
    }
  }

  lemma EquivalentRule(a: seq<Rule>, b: seq<Rule>, x: Rule, text: LabelText) returns (y: Rule)
    requires NormalRules(a, text) == NormalRules(b, text) && x in b
    ensures y in a && RulesMatch(y, x)
  {
    SortPermutes(NormalEach(a), ByKey(text));
    SortPermutes(NormalEach(b), ByKey(text));
    var i :| 0 <= i < |b| && b[i] == x;
    assert NormalEach(b)[i] in NormalEach(b);
    var j :| 0 <= j < |a| && NormalEach(a)[j] == NormalRule(x);
    y := a[j];
  }

  /** What one merge mode needs of the policies it is given. */
  ghost predicate Mergeable(p: Policy, replaceHTTP: bool)
  {
    && p.spec.Some?
    && (replaceHTTP ==> RegularPolicy(p))
  }

  ghost predicate OnFile(p: Policy, replaceHTTP: bool)
  {
    p.spec.Some? && (replaceHTTP ==> RegularPolicy(p))
  }

  lemma AgreeLists(a: Policy, b: Policy, dir: Dir, peer: Peer, pp: PortProto)
    requires Agree(a, b) && a.spec.Some? && b.spec.Some?
    ensures RulesHTTP(RulesOf(a, dir), peer, pp) <==> RulesHTTP(RulesOf(b, dir), peer, pp)
  {
    forall h ensures RulesSay(RulesOf(a, dir), peer, OnHTTP(pp, h)) <==> RulesSay(RulesOf(b, dir), peer, OnHTTP(pp, h)) {
      var e := Entry(dir, peer, OnHTTP(pp, h));
      assert Says(a, e) <==> Says(b, e);
    }
  }

  /** Merging depends only on what the two policies say. */
  lemma MergeRespects(a: Policy, b: Policy, p: Policy, q: Policy, replaceHTTP: bool)
    requires Agree(a, b) && Agree(p, q)
    requires OnFile(a, replaceHTTP) && OnFile(b, replaceHTTP) && Mergeable(p, replaceHTTP) && Mergeable(q, replaceHTTP)
    ensures Agree(Merged(a, p, replaceHTTP), Merged(b, q, replaceHTTP))
  {
    forall e: Entry | !e.fact.OnFQDN? ensures Says(Merged(a, p, replaceHTTP), e) <==> Says(Merged(b, q, replaceHTTP), e) {
      assert (Says(a, e) <==> Says(b, e)) && (Says(p, e) <==> Says(q, e));
      if replaceHTTP {
        MergeReplaceExact(a, p, e);
        MergeReplaceExact(b, q, e);
        if IsHTTP(e.fact) { AgreeLists(p, q, e.dir, e.peer, e.fact.pp); }
      } else {
        MergeIsUnion(a, p, e);
        MergeIsUnion(b, q, e);
      }
    }
  }

  /** The event is on file already: merging it again adds nothing. */
  ghost predicate Settled(file: Policy, p: Policy, replaceHTTP: bool)
  {
    Agree(Merged(file, p, replaceHTTP), file)
  }

  /** A policy just merged is settled. */
  lemma JustMerged(file: Policy, p: Policy, replaceHTTP: bool)
    requires OnFile(file, replaceHTTP) && Mergeable(p, replaceHTTP)
    ensures OnFile(Merged(file, p, replaceHTTP), replaceHTTP)
    ensures Settled(Merged(file, p, replaceHTTP), p, replaceHTTP)
  {
    var once := Merged(file, p, replaceHTTP);
    if replaceHTTP { MergeKeepsRegular(file, p, true); }
    forall e: Entry | !e.fact.OnFQDN? ensures Says(Merged(once, p, replaceHTTP), e) <==> Says(once, e) {
      if replaceHTTP {
        MergeReplaceExact(file, p, e);
        MergeReplaceExact(once, p, e);
      } else {
        MergeIsUnion(file, p, e);
        MergeIsUnion(once, p, e);
      }
    }
  }

  lemma FirstWrite(p: Policy, replaceHTTP: bool)
    requires Mergeable(p, replaceHTTP)
    ensures Settled(p, p, replaceHTTP)
  {
    forall e: Entry | !e.fact.OnFQDN? ensures Says(Merged(p, p, replaceHTTP), e) <==> Says(p, e) {
      if replaceHTTP { MergeReplaceExact(p, p, e); } else { MergeIsUnion(p, p, e); }
    }
  }

  ghost predicate Tracking(s: State, files: map<Name, Policy>, replaceHTTP: bool)
  {
    && s.files.Keys == files.Keys && s.written.Keys <= files.Keys
    && (forall n :: n in files ==> Twins(s.files[n], files[n], replaceHTTP))
    && (forall n :: n in s.written ==> Landed(s.files[n], s.written[n], replaceHTTP))
  }

  /** A file and its reference. */
  ghost predicate Twins(a: Policy, b: Policy, replaceHTTP: bool)
  {
    OnFile(a, replaceHTTP) && OnFile(b, replaceHTTP) && Agree(a, b) && NamesAgree(a, b)
  }

  /** A file and the last event written to it. */
  ghost predicate Landed(file: Policy, p: Policy, replaceHTTP: bool)
  {
    Mergeable(p, replaceHTTP) && Settled(file, p, replaceHTTP) && Covers(file, p)
  }

  lemma SkipTracks(c: Config, s: State, files: map<Name, Policy>, e: Event)
    requires Tracking(s, files, e.replaceHTTP) && Mergeable(e.policy, e.replaceHTTP) && Unchanged(c, s, e)
    ensures Twins(s.files[e.name], Merged(files[e.name], e.policy, e.replaceHTTP), e.replaceHTTP)
  {
    var w, n := s.written[e.name], e.name;
    assert Twins(s.files[n], files[n], e.replaceHTTP) && Landed(s.files[n], w, e.replaceHTTP);
    EquivalentSameMeaning(w, e.policy, c.text);
    JustMerged(files[n], e.policy, e.replaceHTTP);
    MergeRespects(s.files[n], files[n], w, e.policy, e.replaceHTTP);
    AgreeChain(s.files[n], Merged(s.files[n], w, e.replaceHTTP), Merged(files[n], e.policy, e.replaceHTTP));
    SkipNames(c, s.files[n], files[n], w, e.policy, e.replaceHTTP);
  }

  /** Names of a skipped event: its rules match rules on file, in the file and in its reference. */
  lemma SkipNames(c: Config, a: Policy, b: Policy, w: Policy, p: Policy, replaceHTTP: bool)
    requires a.spec.Some? && b.spec.Some? && w.spec.Some? && p.spec.Some?
    requires NamesAgree(a, b) && Covers(a, w) && Equivalent(w, p, c.text)
    ensures NamesAgree(a, Merged(b, p, replaceHTTP))
  {
    EquivalentCovers(a, w, p, c.text);
    assert Covers(b, p);
    CoveredNamesStay(b, p, replaceHTTP);
    forall e: Entry | e.fact.OnFQDN? ensures Says(a, e) <==> Says(Merged(b, p, replaceHTTP), e) {
      assert (Says(a, e) <==> Says(b, e)) && (Says(Merged(b, p, replaceHTTP), e) <==> Says(b, e));
    }
  }

  lemma AgreeChain(a: Policy, b: Policy, c: Policy)
    requires Agree(b, a) && Agree(b, c)
    ensures Agree(a, c)
  {
    forall e: Entry | !e.fact.OnFQDN? ensures Says(a, e) <==> Says(c, e) {
      assert (Says(b, e) <==> Says(a, e)) && (Says(b, e) <==> Says(c, e));
    }
  }

  lemma WriteTracks(s: State, files: map<Name, Policy>, e: Event)
    requires Tracking(s, files, e.replaceHTTP) && Mergeable(e.policy, e.replaceHTTP)
    ensures var a := FileWith(s.files, e.name, e.policy, e.replaceHTTP);
            var b := FileWith(files, e.name, e.policy, e.replaceHTTP);
            Twins(a, b, e.replaceHTTP) && Landed(a, e.policy, e.replaceHTTP)
  {
    if e.name in files {
      assert Twins(s.files[e.name], files[e.name], e.replaceHTTP);
      JustMerged(s.files[e.name], e.policy, e.replaceHTTP);
      JustMerged(files[e.name], e.policy, e.replaceHTTP);
      MergeRespects(s.files[e.name], files[e.name], e.policy, e.policy, e.replaceHTTP);
      MergeNamesAgree(s.files[e.name], files[e.name], e.policy, e.replaceHTTP);
      MergedCovers(s.files[e.name], e.policy, e.replaceHTTP);
    } else {
      FirstWrite(e.policy, e.replaceHTTP);
      OwnCover(e.policy);
    }
  }

  lemma OwnCover(p: Policy)
    ensures Covers(p, p)
  {
    forall dir, x | x in RulesOf(p, dir) ensures Matched(RulesOf(p, dir), x) { assert RulesMatch(x, x); }
  }

  lemma StepTracks(c: Config, s: State, files: map<Name, Policy>, e: Event, ok: bool)
    requires c.cluster.None? && !c.dryRun
    requires Tracking(s, files, e.replaceHTTP) && Mergeable(e.policy, e.replaceHTTP)
    ensures Tracking(Handled(c, s, e, ok),
                     if Unchanged(c, s, e) || ok then files[e.name := FileWith(files, e.name, e.policy, e.replaceHTTP)] else files,
                     e.replaceHTTP)
  {
    if Unchanged(c, s, e) {
      SkipTracks(c, s, files, e);
      ReferenceMoves(s, files, e.name, Merged(files[e.name], e.policy, e.replaceHTTP), Handled(c, s, e, ok), e.replaceHTTP);
    } else if ok {
      WriteTracks(s, files, e);
      OneNameMoves(s, files, e.name, FileWith(s.files, e.name, e.policy, e.replaceHTTP),
                   FileWith(files, e.name, e.policy, e.replaceHTTP), e.policy, Handled(c, s, e, ok), e.replaceHTTP);
    }
  }

  /** Only the reference file is rewritten, to one that says the same. */
  lemma ReferenceMoves(s: State, files: map<Name, Policy>, n: Name, b: Policy, t: State, replaceHTTP: bool)
    requires Tracking(s, files, replaceHTTP) && n in s.files && Twins(s.files[n], b, replaceHTTP)
    requires t.files == s.files && t.written == s.written
    ensures Tracking(t, files[n := b], replaceHTTP)
  {
    forall m | m in files[n := b] ensures Twins(t.files[m], files[n := b][m], replaceHTTP) {
      if m != n { assert Twins(s.files[m], files[m], replaceHTTP); }
    }
  }

  /** Writing one name leaves the tracking of the others alone. */
  lemma OneNameMoves(s: State, files: map<Name, Policy>, n: Name, a: Policy, b: Policy, p: Policy, t: State, replaceHTTP: bool)
    requires Tracking(s, files, replaceHTTP) && Twins(a, b, replaceHTTP) && Landed(a, p, replaceHTTP)
    requires t.files == s.files[n := a] && t.written == s.written[n := p]
    ensures Tracking(t, files[n := b], replaceHTTP)
  {
    forall m | m in files[n := b] ensures Twins(t.files[m], files[n := b][m], replaceHTTP) {
      if m != n { assert Twins(s.files[m], files[m], replaceHTTP); }
    }
    forall m | m in t.written ensures Landed(t.files[m], t.written[m], replaceHTTP) {
      if m != n { assert Landed(s.files[m], s.written[m], replaceHTTP); }
    }
  }

  ghost predicate EventsFit(events: seq<Event>, replaceHTTP: bool)
  {
    forall e :: e in events ==> e.replaceHTTP == replaceHTTP && Mergeable(e.policy, replaceHTTP)
  }

  /**
   Write-skip refinement: with no cluster snapshot and whatever writes fail, the files reached with
   the "unchanged since last flush" skip say what the files reached by merging every event say.
   */
  lemma {:induction false} SkipRefinesMergeEvery(c: Config, s: State, events: seq<Event>, oks: seq<bool>, replaceHTTP: bool)
    requires |events| == |oks| && c.cluster.None? && !c.dryRun
    requires s.written == map[] && forall n :: n in s.files ==> OnFile(s.files[n], replaceHTTP)
    requires EventsFit(events, replaceHTTP)
    ensures Tracking(HandleAll(c, s, events, oks), MergeEvery(c, s, events, oks), replaceHTTP)
  {
    if events != [] {
      var n := |events| - 1;
      SkipRefinesMergeEvery(c, s, events[..n], oks[..n], replaceHTTP);
      assert events[n] in events;
      StepTracks(c, HandleAll(c, s, events[..n], oks[..n]), MergeEvery(c, s, events[..n], oks[..n]), events[n], oks[n]);
    }
  }

  /** Read for one entry of one workload's file. */
  lemma SameFiles(c: Config, s: State, events: seq<Event>, oks: seq<bool>, replaceHTTP: bool, n: Name, e: Entry)
    requires |events| == |oks| && c.cluster.None? && !c.dryRun
    requires s.written == map[] && forall n :: n in s.files ==> OnFile(s.files[n], replaceHTTP)
    requires EventsFit(events, replaceHTTP)
    ensures n in HandleAll(c, s, events, oks).files <==> n in MergeEvery(c, s, events, oks)
    ensures n in MergeEvery(c, s, events, oks) ==>
              (Says(HandleAll(c, s, events, oks).files[n], e) <==> Says(MergeEvery(c, s, events, oks)[n], e))
  {
    SkipRefinesMergeEvery(c, s, events, oks, replaceHTTP);
    if n in MergeEvery(c, s, events, oks) {
      assert Twins(HandleAll(c, s, events, oks).files[n], MergeEvery(c, s, events, oks)[n], replaceHTTP);
    }
  }

  /** A handled event of a collapse run is one of the outcomes the whole-run theorem ranges over. */
  lemma HandledIsOutcome(c: Config, s: State, e: Event, ok: bool) returns (outcome: WholeRun.Outcome)
    requires c.cluster.None? && !c.dryRun && e.replaceHTTP
    ensures var t := Handled(c, s, e, ok);
            match outcome
            case Written => t.files == s.files[e.name := FileWith(s.files, e.name, e.policy, true)]
                            && t.written == s.written[e.name := e.policy]
            case Skipped => t.files == s.files && t.written == s.written && e.name in s.written
                            && SameMeaning(s.written[e.name], e.policy)
            case Failed => t.files == s.files && t.written == s.written && !ok
  {
    if Unchanged(c, s, e) {
      EquivalentSameMeaning(s.written[e.name], e.policy, c.text);
      outcome := WholeRun.Skipped;
    } else {
      outcome := if ok then WholeRun.Written else WholeRun.Failed;
    }
  }
}
