# Verified model of cpg

cpg watches network flows and writes CiliumNetworkPolicy files that allow what it saw. This project
models the parts of it that carry state or algebra and proves what they are for:

- **What observed traffic turns into.** `Collapse` turns sets of HTTP paths into anchored regular
  expressions; `Regex` and `Segments` give those expressions a matching semantics (quoted literals,
  bracket classes, `+`, `{n}`: the fragment of section 9.4 of IEEE Std 1003.1-2017, Base
  Definitions). `Builder`, `Merge` and `Dedup` are the policy compiler; `BuilderMeaning`,
  `MergeMeaning` and `Windows` read a policy as the set of its explicit entries and prove what each
  operation does to that set. `WholeRun` puts collapse, build and merge together over a whole run.
  `SegmentClasses`, `FlowFields`, `RuleSequence`, `FileIdentity` and `CompanionForms` say the same from
  the outside: by the characters of paths, the raw fields of flows, and keys and values written out.
  `CollapseGrowth`, `DedupOrder`, `NameMerge` and `FqdnMerge` hold the laws that fail for some input,
  with the exact condition under which they hold.
- **The lifecycles keep their invariants in every interleaving.** `SessionManager` (with
  `SessionProof`, `SessionOwnership`, `SessionSummary` and `SessionCancel`) and `AuditWindow` (with
  `AuditOpening` and `AuditProgress`) split each method at its lock boundaries
  into steps and let the steps of any number of callers interleave; a bounded wait is a free choice
  between done and expired. `Pipeline` with `PipelineBatches` does the same for the streaming stages over bounded channels.
- **Fast and incremental forms equal their simple specifications.** `Writer` (the skip of unchanged
  policies, with `DedupKeys`, `BuiltOrder` and `LabelListing` on what its comparison tells apart),
  `Aggregation` with `FlowFates` (counters, buckets, health report), `Evidence` and `EvidenceMeaning`
  (streaming top-k), `Pagination` (cursors over a changing list), `EditDistance` (the two-row table)
  and `CompanionDNS` with `DNSClosure`.

Code that updates state in place is a class or a method with loops, proved against a function on
values; the properties are then proved about that function. `Text` and `Sorting` hold the shared
string and sorting lemmas, `PolicyTypes` the policy and flow datatypes and the meaning of a policy.

`dafny verify dfyconfig.toml` checks the whole project.

## Reading the main results

- A policy's meaning is the set of its explicit entries: direction and peer with a port and protocol,
  an HTTP rule on a port, a DNS rule on a port, an FQDN name, or an ICMP family and type. It is not
  what Cilium would allow: a bare port merged with an HTTP list on the same port keeps both entries.
- Statements that fail for some input come with the exact condition and an input:
  - A build is exact if and only if flows with equal selected labels share a namespace, because a bucket
    keeps the peer of its first flow (`Windows.ExactIffSameScope`).
  - An observed path is accepted if and only if its cluster stayed literal, or it starts with a slash and
    agrees with some template's head at every fixed position (`CollapseGrowth.CoverageOfAnyPath`,
    `UnrootedMissed`, `NulLoses`); without NUL its own head will do (`Collapse.CoverageExact`).
  - One more observed path keeps the accepted language if and only if it disturbs no template of its segment
    count (`CollapseGrowth.KeepsAllIffSmall`); `OneWordIsEnough` is a pair of observation sets where it does not.
  - The comment at pkg/policy/dedup.go:67-69 says that order does not matter where keys tie.
    `DedupOrder.OrderForgottenIff` says when that is so; `TiedKeysKeepOrder`, `PortRulesKeepOrder` and
    `PatternsKeepOrder` are three pairs that differ in order only and are told apart. Keys tie exactly for rules
    with the same content (`DedupKeys.KeyExactly`), so built policies without L7 records are found equivalent in
    any order of rules and ports (`BuiltOrder.BuiltOrderForgotten`). Soundness (`Dedup.EquivalentSameMeaning`) needs no condition.
  - The match functions do not compare toFQDNs, so a merge keeps an incoming name if and only if it is on file
    or its rule matches nothing before it (`NameMerge.MergedNamesExact`). Over a run this freezes the names of
    a file with the first window that asked for any (`FqdnMerge.RunNamesExact`): names first asked for later
    are lost.
  - pkg/auditwindow/manager.go:424-425 says that no endpoint can escape the sweep because the watcher is
    drained first. The wait for it is bounded: `AuditWindow.ExpiredDrainMisses` is a Shutdown that gave up
    on it. Nothing escapes if and only if no flip is possible when the snapshot is taken
    (`NothingEscapesIff`).
  - pkg/session/manager.go:454-456 says that a second Stop returns the identical summary. A summary is put
    together from the stop time, the pipeline's error and counters, and the tmpdir, each stored by another
    goroutine in its own time. From a given point on all Stops return the same summary if and only if none of
    these can still be stored (`SessionSummary.StopsAgreeIff`). `ExpiredWaitDiffers`, `LateErrorDiffers`,
    `SetupStopDiffers` and `SummariesDiffer` are runs in which counters, error, tmpdir and stop time differ.
    Stop times are told apart by the write they come from, not by the duration shown, which is rounded.
  - A second application of the DNS companion injector is a no-op if and only if the first added nothing or
    the selector's own companion is recognised (`CompanionDNS.IdempotentIff`, `PlainRecognisedIff`,
    `OtherNamespaceRepeats`).
- In replace mode each side lists a port with HTTP at most once per peer (`RegularPolicy`), which every
  built policy satisfies (`Windows.BuildRegular`) and every merge keeps (`MergeMeaning.MergeKeepsRegular`).
- Strings on the policy side are sequences of bytes, one character per byte, as in the source; in
  `EditDistance` they are sequences of runes.

## Model

| member | source | states |
|---|---|---|
| `Regex.ParseQuoted` | pkg/policy/l7_collapse.go:222-227 | A quoted string parses to exactly the literal atoms of its characters, whatever follows it |
| `Regex.PathMatchesSegmentwise` | pkg/policy/l7_collapse.go:216-218 | A path of slash-separated pieces matches a text exactly when the text has as many segments and each one matches |
| `Segments.FragmentMatches` | pkg/policy/l7_collapse.go:90-103 | The text of a class fragment, read as a regular expression, accepts exactly the segments the class description accepts |
| `Segments.ClassAccepts` | pkg/policy/l7_collapse.go:56-73 | A segment is accepted by the pattern of its own class; only hex runs are widened |
| `SegmentClasses.ClassifyExactly` | pkg/policy/l7_collapse.go:56-73 | The class of a segment, by its characters alone and without an order of tests: digits; 0x and hex digits; 8-4-4-4-12 hex digits with dashes; six or more hex digits, some decimal and some not; v and digits; anything else a word |
| `Segments.TemplateMatches` | pkg/policy/l7_collapse.go:384-393 | A template string accepts exactly the paths with its segment count that agree at fixed slots and lie in the class at class slots |
| `Segments.LiteralRuleMatches` | pkg/policy/l7_collapse.go:222-227 | A literal rule accepts the path it was written for and nothing else; the empty path stands for the root |
| `Collapse.ResolveMinFlows` | pkg/policy/l7_collapse.go:185-190 | A setting below one becomes the default of five, so the gate is never below one; any other is kept |
| `Collapse.ClusterSharesShape` | pkg/policy/l7_collapse.go:384-401 | Without NUL in paths, equal cluster keys mean equal values at every literal position |
| `Collapse.RuleLanguage` | pkg/policy/l7_collapse.go:320-418 | The language of the rule an observed path ends up with: its cluster's template, or the path alone |
| `Collapse.CoverageExact` | pkg/policy/l7_collapse.go:320-418 | Without NUL in paths, an observed path is accepted by some emitted rule exactly when it is empty or rooted, or its cluster stayed literal |
| `Collapse.TemplatePrecision` | pkg/policy/l7_collapse.go:320-418 | A template accepts a path exactly when segment count and fixed positions agree and class positions hold class members; gate and length cap hold, and every path behind it is accepted |
| `Collapse.SameClusterSameRule` | pkg/policy/l7_collapse.go:404-416 | All paths of a cluster share its head and the decision between template and literals |
| `Collapse.OddValuePins` | pkg/policy/l7_collapse.go:335-361 | A value of another class at a position pins every rule of that segment count to its own segment there |
| `SegmentClasses.RuleExactly` | pkg/policy/l7_collapse.go:320-418 | The rule of an observed path by the characters of the paths alone: when it is a template, its text, and exactly which texts it accepts |
| `SegmentClasses.WordsStayLiteral` | pkg/policy/l7_collapse.go:62-71 | A segment of letters only, a version, or one shorter than six that is neither a number nor 0x-prefixed hex: the path's rule accepts no text with another segment there |
| `SegmentClasses.WordPathStaysLiteral` | pkg/policy/l7_collapse.go:222-230 | A path of such segments keeps its own literal rule |
| `SegmentClasses.EnoughValuesCollapse` | pkg/policy/l7_collapse.go:400-411 | Two or more rooted paths, enough for the gate, that differ at one place only and have a number, 0x-prefixed hex, a UUID or a mixed hex run there: their rules accept exactly the texts with such a value there and the same segments elsewhere |
| `SegmentClasses.ShortPathFits` | pkg/policy/l7_collapse.go:192-195 | Such paths of up to ninety characters stay below the cap on the pattern's length |
| `CollapseGrowth.CoverageOfAnyPath` | pkg/policy/l7_collapse.go:320-418 | For any paths, NUL and unrooted ones included: accepted exactly when the cluster stayed literal, or the path is rooted and agrees with some template's head at every fixed position |
| `CollapseGrowth.UnrootedMissed` | pkg/policy/l7_collapse.go:384-393 | An unrooted number path, observed with another one, that no rule accepts |
| `CollapseGrowth.CollisionLoses` | pkg/policy/l7_collapse.go:394 | Of two rooted paths whose cluster keys collide on a NUL one is accepted by no rule |
| `CollapseGrowth.NulLoses` | pkg/policy/l7_collapse.go:394 | Such a pair of paths |
| `CollapseGrowth.UndisturbedKeeps` | pkg/policy/l7_collapse.go:320-418 | One more path keeps every accepted text when all templates of its segment count keep class positions, gate and length cap and no unrooted literal becomes a template |
| `CollapseGrowth.KeepsAllIff` | pkg/policy/l7_collapse.go:320-418 | And only then, given that some UUID was not observed |
| `CollapseGrowth.KeepsAllIffSmall` | pkg/policy/l7_collapse.go:320-418 | For observation sets of less than a trillion paths the condition is exact without that premise |
| `CollapseGrowth.FreeUuid` | pkg/policy/l7_collapse.go:56-73 | Among the first UUIDs of a trillion, one more than there are paths, one was not observed at the position |
| `CollapseGrowth.RoomAt` | pkg/policy/l7_collapse.go:90-103 | Numbers and hex values always leave a class member that was not observed |
| `CollapseGrowth.WordTakesNumbers` | pkg/policy/l7_collapse.go:335-361 | After enough number paths every number is accepted; one word at the same place takes every unobserved number away |
| `CollapseGrowth.OneWordIsEnough` | pkg/policy/l7_collapse.go:335-361 | The language is not monotone: two number paths accept a third, which one word path takes away |
| `CollapseEngine.DecidePosition` | pkg/policy/l7_collapse.go:335-361 | The position loop finds exactly the class positions: two or more values, all of one generalizable class |
| `CollapseEngine.GatherClusters` | pkg/policy/l7_collapse.go:378-404 | The cluster map and order hold every path under its signature, in first-come order, with the pattern of its first path |
| `CollapseEngine.CollapseSegmentCountGroup` | pkg/policy/l7_collapse.go:320-418 | The group's output is one rule for each emitter (literal path or cluster head) and no other |
| `CollapseEngine.CollapseMethodPaths` | pkg/policy/l7_collapse.go:294-315 | Over all segment counts, exactly the emitters of the method's path set emit, once each |
| `CollapseEngine.CollapseHTTPPaths` | pkg/policy/l7_collapse.go:273-290 | The result is sorted by method and path, has one rule per emitter, and its rules are exactly the rules of the observed paths |
| `CollapseEngine.NeverEmpty` | pkg/policy/l7_collapse.go:254-272 | A non-empty observation set never yields an empty rule list |
| `CollapseState.L7CollapseState.Observe` | pkg/policy/l7_collapse.go:133-145 | One path is added to the window under its key and method, nothing else changes |
| `CollapseState.L7CollapseState.Absorb` | pkg/policy/l7_collapse.go:150-169 | The window is emptied into the retained set and the history under every key and method stays what it was |
| `CollapseState.MergeL7PathSets` | pkg/policy/builder.go:567-582 | The merged set holds, for each method, the paths of both sets |
| `Builder.PeerRules.AddFlow` | pkg/policy/builder.go:310-329 | A new port or ICMP type is appended once, a repeated one changes nothing |
| `Builder.PeerRules.AddHTTPRules` | pkg/policy/builder.go:264-281 | New rules are appended under the port key in order, repeated ones dropped |
| `Builder.PeerRules.AddDNSName` | pkg/policy/builder.go:250-259 | A new name is appended, a repeated or empty one changes nothing |
| `Builder.RecordL7` | pkg/policy/builder.go:500-548 | The L7 record of a flow goes where its kind says and the kind tells whether the port is still needed |
| `Builder.GroupFlows` | pkg/policy/builder.go:375-472 | The live buckets hold the fold of the flows, one object per key, and the collapse window every HTTP path seen |
| `Builder.ApplyL7Collapse` | pkg/policy/builder.go:555-564 | Each HTTP list of a bucket becomes the collapsed rules of retained and collected paths of its group |
| `Builder.PortRulesFor` | pkg/policy/builder.go:740-761 | One rule for all ports when none carries HTTP, else one rule per port with its own HTTP list |
| `Builder.FqdnEgressRulesFrom` | pkg/policy/builder.go:663-707 | One FQDN rule for each bucket with names, in bucket order |
| `Builder.SplitByDirection` | pkg/policy/builder.go:113-128 | Flows with an L4 layer are split by direction in order, others dropped |
| `Builder.BuildPolicy` | pkg/policy/builder.go:99-152 | Without collapse the built policy is the fold of the flows; with it, lists are collapsed from retained and window paths, and the window gains what the flows show |
| `BuilderMeaning.KeyInjective` | pkg/policy/builder.go:310-313 | The text key of a port or ICMP type determines it, so deduplication by key loses nothing |
| `BuilderMeaning.BucketExact` | pkg/policy/builder.go:375-472 | A bucket holds a fact exactly when a flow filed under its key states it |
| `BuilderMeaning.DirectionSays` | pkg/policy/builder.go:584-655 | The emitted rules of a direction say exactly what its buckets hold, under the buckets' peers |
| `BuilderMeaning.ClashIsNamespace` | pkg/policy/builder.go:448-457 | Two flows share a bucket under different peers exactly when their selected labels agree and their namespaces do not |
| `BuilderMeaning.BuildExact` | pkg/policy/builder.go:99-152 | A built policy has exactly the entries its flows state one by one, under one scope per label set |
| `FlowFields.RawExactly` | pkg/policy/builder.go:375-490 | The entry of one flow by its raw fields: the other end as peer (source of ingress, destination of egress) by entity, address or labels with the namespace when it is another one; TCP or UDP and the decimal port; IPv4 or IPv6 and the type; method and quoted path |
| `FlowFields.ScopeExactly` | pkg/policy/builder.go:166-181 | One scope per label set, by the raw fields: no two flows of a direction with the same selected labels have different peers |
| `FlowFields.BuildSaysRaw` | pkg/policy/builder.go:99-152 | A build, DNS queries included, says exactly the raw entries of its flows, the names asked for with port 53, and the queries to the DNS pods when no other rule allows them |
| `RuleSequence.BuildOrder` | pkg/policy/builder.go:584-661 | Rules for entities come first, then CIDRs, then endpoints, then names, and one companion at most at the end |
| `RuleSequence.FirstSeenFirst` | pkg/policy/builder.go:375-460 | Under one scope per label set, the peers of each kind come in the order their flows were first seen, and for one peer ports before ICMP types |
| `Windows.ExactIffSameScope` | pkg/policy/builder.go:448-457 | A build is exact if and only if equal selected labels come with one namespace |
| `Windows.WindowSplitIndependence` | pkg/policy/builder.go:99-152 | However a flow list is cut into windows, the merged file has the entries of one build over all flows |
| `FileIdentity.BuildIdentity` | pkg/policy/builder.go:99-164 | A built policy has its workload's name and namespace and selects the labels of the first flow whose own end (destination of ingress, source of egress) is known |
| `FileIdentity.CollapsedIdentity` | pkg/policy/builder.go:99-164 | The same with collapse |
| `FileIdentity.FileKeepsFirst` | pkg/policy/builder.go:99-164 | However many windows follow, the file keeps the identity the first window gave it |
| `FileIdentity.RunKeepsIdentity` | pkg/hubble/writer.go:51-81 | In every run of the writer a file keeps name, namespace and selected pods, and a new file has those of an event for its workload |
| `Windows.BuildRegular` | pkg/policy/builder.go:709-761 | Built policies list HTTP once per port and peer, the form replace-mode merging needs |
| `Merge.MergeL7Rules` | pkg/policy/merge.go:324-378 | HTTP is unioned or replaced by a non-empty incoming list, DNS always unioned, first observation first |
| `Merge.MergePortRules` | pkg/policy/merge.go:230-302 | The merged port rules are the fold of both sides into buckets in first-seen order, or one deduplicated list without L7 |
| `Merge.MergeICMPRules` | pkg/policy/merge.go:408-443 | All fields of all rules of both sides, each once, in one rule |
| `Merge.MergePolicyWithOptions` | pkg/policy/merge.go:33-82 | Each incoming rule is merged into the first rule that matches it or appended; a missing spec takes the other side's |
| `FileIdentity.MergeKeepsIdentity` | pkg/policy/merge.go:33-50 | In both modes a merge keeps name, namespace and selected pods of the policy on file; a file without a spec takes the incoming one |
| `MergeMeaning.MergedPortsSay` | pkg/policy/merge.go:230-302 | Merged port rules say exactly what either side says, HTTP in replace mode aside |
| `MergeMeaning.ReplacedPortsSay` | pkg/policy/merge.go:267-302 | In replace mode a port's HTTP is the incoming list when there is one, else the existing one |
| `MergeMeaning.MergeIsUnion` | pkg/policy/merge.go:33-82 | Union mode: the merged policy has exactly the entries of both sides |
| `MergeMeaning.MergeReplaceExact` | pkg/policy/merge.go:33-82 | Replace mode: HTTP entries of a peer and port are the incoming ones if any, all else is the union |
| `MergeMeaning.MergeIdempotent` | pkg/policy/merge.go:33-82 | Merging the same event twice changes no entry, in either mode, names included |
| `MergeMeaning.MergeKeepsRegular` | pkg/policy/merge.go:33-82 | Merging keeps the once-per-port form |
| `MergeMeaning.MergeKeepsPlaces` | pkg/policy/merge.go:43-77 | Existing rules keep position, peer and type; new rules come after |
| `NameMerge.MergedNamesExact` | pkg/policy/merge.go:59-77 | For all rules: after a merge a name is listed for a peer exactly when it was on file or an incoming rule lists it that matches no rule on file and none that came in before it |
| `FqdnMerge.UnionOfNamesIff` | pkg/policy/merge.go:101-112 | The union law holds for a name exactly when an incoming name is on file or brought by such a rule |
| `FqdnMerge.RunNamesExact` | pkg/policy/builder.go:663-707 | Over any run of windows a name is on file exactly when the first window that asked for names brings it: all its names on the first write, else those of its first FQDN rule |
| `FqdnMerge.SecondWindowNames` | pkg/policy/merge.go:59-77 | The same for two windows, in either mode |
| `FqdnMerge.LaterNameLost` | pkg/policy/merge.go:59-77 | A name first asked for in the second window is lost whenever the first asked for any |
| `FqdnMerge.MergeDropsFqdn` | pkg/policy/merge.go:101-112 | Two windows of one DNS query each, the second of which is lost |
| `WholeRun.BuiltWhole` | pkg/policy/builder.go:555-564 | An HTTP list a collapse-mode policy carries is exactly the collapsed whole-run history of its group |
| `WholeRun.SightedHasHTTP` | pkg/policy/builder.go:500-564 | Every HTTP flow of a batch makes the policy carry a list for its peer and port |
| `WholeRun.FlowIsSighted` | pkg/policy/builder.go:448-466 | Under one scope per label set a flow is covered under its own peer |
| `WholeRun.WholeRunCoverage` | pkg/hubble/aggregator.go:618-649 | In every run, with failed and skipped writes and the aggregator building ahead of the writer, once an event is accepted its workload's file matches every rooted raw path seen up to then for that event's peers, ports and methods, also those of failed events |
| `WholeRun.DeliveredIsCovered` | pkg/hubble/aggregator.go:618-649 | In particular an accepted event's own rooted paths are matched from then on |
| `Dedup.PoliciesEquivalent` | pkg/policy/dedup.go:18-46 | Two policies are equivalent when both lack a spec or their normalized specs are equal |
| `Dedup.NormalizeRule` | pkg/policy/dedup.go:49-76 | Ports, L7 lists and rules are each sorted by their order |
| `Dedup.EquivalentSameMeaning` | pkg/policy/dedup.go:18-76 | Policies found equivalent have the same entries |
| `DedupOrder.EquivalentExactly` | pkg/policy/dedup.go:18-76 | For all policies: equivalent exactly when both lack a spec, or they select the same pods and, key by key, have the same normalized rules in the same order |
| `DedupOrder.NormalRuleExactly` | pkg/policy/dedup.go:49-65 | Two rules normalize alike exactly when peer, names and ICMP agree and port rules agree place by place: ports and HTTP in any order, DNS entries of one name in the same order |
| `DedupOrder.RearrangedSameMeaning` | pkg/policy/dedup.go:49-76 | Reordering rules, port rules, ports and L7 entries changes no entry |
| `DedupOrder.OrderForgottenIff` | pkg/policy/dedup.go:67-76 | Every such reordering is found equivalent exactly when tied normalized rules are the same, all port rules of a rule are alike, and different DNS entries of a port have different names |
| `DedupOrder.PortRulesKeepOrder` | pkg/policy/dedup.go:49-65 | Two port rules in the other order are told apart |
| `DedupOrder.PatternsKeepOrder` | pkg/policy/dedup.go:123-127 | Two DNS patterns in the other order are told apart |
| `DedupOrder.TiedKeysKeepOrder` | pkg/policy/dedup.go:141-160 | Two rules that differ only in match expressions tie, and in the other order are told apart |
| `DedupKeys.KeyExactly` | pkg/policy/dedup.go:78-189 | Two rules have the same sort key exactly when they have the same peer labels, CIDRs, entities, names, ports, L7 entries and ICMP types in some order |
| `DedupKeys.OrderForgottenByContent` | pkg/policy/dedup.go:67-113 | So every rearrangement is found equivalent exactly when port rules of a rule are alike, DNS entries of a port differ in name, and rules with the same content are alike |
| `DedupKeys.PlainOrderForgotten` | pkg/policy/dedup.go:78-113 | Simple rules, one per peer or one with ports and one with ICMP types, are found equivalent in any order |
| `BuiltOrder.BuiltOrderForgotten` | pkg/policy/dedup.go:18-47 | A policy built from flows without L7 records is found equivalent to itself in any other order of rules, port rules and ports |
| `LabelListing.ListingTellsApart` | pkg/policy/dedup.go:144-151 | The bracketed list of key=value pairs differs for different labels |
| `LabelListing.ListingQuiet` | pkg/policy/dedup.go:144-151 | And its words are not taken for other parts of a key |
| `Writer.PolicyWriter.Handle` | pkg/hubble/writer.go:51-81 | An event is skipped, counted as would-write, counted as failed, or merged into its file and remembered |
| `Writer.EventsAccounted` | pkg/hubble/writer.go:51-90 | Every event moves exactly one counter by one, and a dry run touches no file |
| `Writer.RepeatIsSkipped` | pkg/hubble/writer.go:147-171 | The event right after an equivalent one that was taken is skipped, and counted so, with and without dry run |
| `Writer.ClusterDecidesFirst` | pkg/hubble/writer.go:51-81 | A workload's first event is skipped exactly when the cluster holds an equivalent policy under its name, and else written, or counted as failed without effect |
| `Writer.SkipRefinesMergeEvery` | pkg/hubble/writer.go:147-175 | Whatever writes fail, the files reached with the skip say what the files reached by merging every event say, names included |
| `Writer.SameFiles` | pkg/hubble/writer.go:51-81 | The same, for one entry of one workload's file |
| `Writer.HandledIsOutcome` | pkg/hubble/writer.go:51-81 | A handled collapse-mode event is one of the written, skipped or failed outcomes of the whole-run theorem |
| `CompanionDNS.HasKubeDNSCompanion` | pkg/policy/companion_dns.go:118-143 | The scan finds a rule that selects the DNS pods and opens 53 for both protocols, if there is one |
| `CompanionForms.CompanionExactly` | pkg/policy/companion_dns.go:118-208 | A rule is the companion exactly when a peer selects kube-system pods of the detected labels or of kube-dns or coredns, by label or expression, and it opens port 53 for UDP and for TCP, by name or by ANY |
| `CompanionDNS.CollectFQDNMatchNames` | pkg/policy/companion_dns.go:94-113 | The distinct toFQDNs names, sorted |
| `CompanionDNS.EnsureKubeDNSCompanion` | pkg/policy/companion_dns.go:57-88 | One companion is appended when there are names and no companion, otherwise nothing changes |
| `CompanionDNS.CompanionClosure` | pkg/policy/companion_dns.go:41-88 | With a recognised selector a policy with toFQDNs has a companion afterwards, its rules are an unchanged prefix, names neither added nor lost, a second call is a no-op |
| `CompanionDNS.IdempotentIff` | pkg/policy/companion_dns.go:57-88 | The second call is a no-op exactly when nothing was added or the selector's companion is recognised |
| `CompanionDNS.PlainRecognisedIff` | pkg/policy/companion_dns.go:161-183 | A selector with plain keys is recognised exactly when it asks for no other namespace, or names a well-known DNS app |
| `CompanionDNS.OtherNamespaceRepeats` | pkg/policy/companion_dns.go:57-88 | A selector that asks for another namespace gets a second companion on the second call |
| `DNSClosure.ObservedNamesExact` | pkg/policy/builder.go:532-545 | The toFQDNs names of the egress rules are exactly the names egress flows asked for |
| `DNSClosure.BuildHasCompanion` | pkg/policy/builder.go:136-139 | Over a whole build with a recognised selector: names exact, companion present as soon as there is a name, other egress rules an unchanged prefix, injector a no-op |
| `SessionOwnership.OneOwner` | pkg/session/manager.go:113-286 | In every interleaving a tmpdir is there exactly while one Start, the slot's session or one Shutdown owns it, never two |
| `SessionOwnership.NothingLeft` | pkg/session/manager.go:519-557 | An empty slot with nothing in flight leaves no tmpdir unremoved |
| `SessionOwnership.ForwardsCloseOnce` | pkg/session/manager.go:170-214 | Every port-forward is closed at most once, exactly once when its session has ended |
| `SessionOwnership.OneActive` | pkg/session/manager.go:114-148 | At most one session is neither stopped, exited, shut down nor failed, and it is the capturing one in the slot |
| `SessionOwnership.ClaimsAreSeparated` | pkg/session/manager.go:114-148 | When a Start claims the slot, every earlier session has already ended, and stays ended |
| `SessionOwnership.NeverBack` | pkg/session/manager.go:210-276 | Stopped, cancelled, first-stop-seen and fate are never taken back |
| `SessionOwnership.ExactlyOneFirst` | pkg/session/manager.go:457-511 | Once a Stop of a session has returned, exactly one Stop of it has been told that it was not already stopped |
| `SessionOwnership.OneLivePipeline` | pkg/session/manager.go:210-276 | Of two pipelines running at once, one is cancelled or about to be by a Shutdown |
| `SessionOwnership.SendNeverBlocks` | pkg/session/manager.go:273-276 | The goroutine's result is sent at most once and there is always room for it |
| `SessionOwnership.WaitersCanWait` | pkg/session/manager.go:483-495 | While one Stop holds the teardown, that Stop can always move on |
| `SessionSummary.StopsAgreeIff` | pkg/session/session.go:262-308 | From a state on, all Stops of a stopped session return the same summary exactly when the session has lost the slot or nothing of its summary can still be stored: no second stop time, counters, error or tmpdir |
| `SessionSummary.SummariesAgree` | pkg/session/manager.go:457-511 | In every run any two Stops called after that point return one summary |
| `SessionSummary.StopTimesAgree` | pkg/session/manager.go:457-511 | Two returned Stops report one stop time, unless the session exited on its own and a Stop tore it down as well |
| `SessionSummary.ExpiredWaitDiffers` | pkg/session/manager.go:485-496 | A run in which the bounded wait expires, the first Stop returns zero counters and the second the ones stored after it |
| `SessionSummary.LateErrorDiffers` | pkg/session/manager.go:249-252 | A run in which the pipeline's error is stored after the first Stop has returned |
| `SessionSummary.SetupStopDiffers` | pkg/session/manager.go:205-224 | A run in which the first Stop comes during setup and its summary names no tmpdir |
| `SessionSummary.SummariesDiffer` | pkg/session/manager.go:258-265 | A run with two Stops that report different stop times |
| `SessionCancel.CancelledNeverFails` | pkg/session/manager.go:229-247 | A session cancelled before its goroutine looks at the context is never marked as exited by itself and never gets an error |
| `SessionCancel.ExitIsSeen` | pkg/session/manager.go:248-268 | A pipeline that ends by itself is noticed: its error is stored, and while it holds the slot the session is no longer capturing |
| `AuditWindow.OursIsEnabled` | pkg/auditwindow/manager.go:298-336 | Once no flip is in flight the window's record is exactly the endpoints it switched on |
| `AuditOpening.OpenAccounts` | pkg/auditwindow/manager.go:188-195 | Once Open has returned, every endpoint it listed was recorded, was in audit mode when read, or its read or enable failed |
| `AuditOpening.OpenSwitchesOn` | pkg/auditwindow/manager.go:298-336 | Without such a failure the endpoint is in audit mode until a revert turns it off, and recorded exactly when it had appeared with audit mode off |
| `AuditOpening.WatchAccounts` | pkg/auditwindow/manager.go:260-280 | The same accounting for an endpoint the watcher hears of |
| `AuditOpening.OpenFlipsOne` | pkg/auditwindow/manager.go:193-195 | A run of Open over a list of one endpoint, which is switched on and recorded |
| `AuditWindow.OneDisableEach` | pkg/auditwindow/manager.go:365-409 | However many callers race, no endpoint is sent a second disable and none that is not recorded |
| `AuditWindow.SafeSweepAccounts` | pkg/auditwindow/manager.go:365-450 | A sweep after the watcher was drained sends one disable to every endpoint switched on, to no other, and reports each |
| `AuditWindow.ClusterRestored` | pkg/auditwindow/manager.go:365-450 | After it, an endpoint is in audit mode exactly when it appeared so or its disable failed |
| `AuditWindow.AlreadyOnUntouched` | pkg/auditwindow/manager.go:318-324 | Endpoints that appeared in audit mode are left in it while lookups name their own endpoint |
| `AuditWindow.TimeoutNamesAll` | pkg/auditwindow/manager.go:466-485 | A drained Shutdown that times out names every endpoint the window switched on |
| `AuditWindow.ReturnedMeansOver` | pkg/auditwindow/manager.go:365-409 | Whoever returns, returns after the one sweep is over |
| `AuditProgress.NobodyStuck` | pkg/auditwindow/manager.go:365-445 | From every reachable state every Close and every Shutdown can be carried on until it has returned |
| `AuditWindow.CloseAloneMisses` | pkg/auditwindow/manager.go:365-375 | A run in which an explicit Close with a live watcher leaves an endpoint switched on |
| `AuditWindow.MissedForever` | pkg/auditwindow/manager.go:365-375 | An endpoint switched on that the snapshot left out is never switched off, however a run goes on |
| `AuditWindow.NothingEscapesIff` | pkg/auditwindow/manager.go:365-445 | Once the snapshot is taken, every continuation has all endpoints ever switched on under revert exactly when they are now and no flip is possible any more |
| `AuditWindow.ExpiredDrainMisses` | pkg/auditwindow/manager.go:438-444 | A run in which a Shutdown gives up on the watcher, returns, and leaves an endpoint switched on and unreported |
| `Pipeline.NeverPanics` | pkg/hubble/pipeline.go:305-350 | In no schedule does a stage send on or close a closed channel |
| `Pipeline.AllDelivered` | pkg/hubble/pipeline.go:305-350 | When all stages have ended both writers got every event in order once, and the drainer every report |
| `PipelineBatches.BucketsAccounted` | pkg/hubble/aggregator.go:450-574 | At every point the flows read and left make up the input, and every bucket opened is open, waiting to be sent, or sent |
| `PipelineBatches.BucketsDelivered` | pkg/hubble/aggregator.go:618-649 | When all stages have ended both writers got the events of every flush in order, one for each bucket ever opened |
| `Pipeline.AlwaysPrefix` | pkg/hubble/pipeline.go:312-319 | At every point a consumer holds a prefix of what was sent |
| `Pipeline.EveryStepDecreases` | pkg/hubble/pipeline.go:296-350 | Every step of every stage lowers the measure of what is left |
| `Pipeline.SomeStageMoves` | pkg/hubble/pipeline.go:296-350 | Until all stages have ended some stage can move: no deadlock over the bounded buffers |
| `Pipeline.CancelledCanLeave` | pkg/hubble/aggregator.go:567-570 | Once cancelled the stages can end without reading another flow |
| `Pipeline.SchedulesEnd` | pkg/hubble/pipeline.go:296-350 | No schedule is longer than the measure of its first state |
| `Aggregation.Aggregator.Take` | pkg/hubble/aggregator.go:458-563 | One flow moves exactly the counter or bucket of its fate, keeping every conservation law |
| `Aggregation.Aggregator.Flush` | pkg/hubble/aggregator.go:618-649 | Every bucket is handed over once, non-empty, and cleared; no flow of a key is lost, repeated or reordered |
| `Aggregation.Aggregator.Run` | pkg/hubble/aggregator.go:450-571 | At return every bucketed flow has been handed over in order, and reports sent, dropped and abandoned add up to the infrastructure drops |
| `Aggregation.Aggregator.InfraDropTotal` | pkg/hubble/aggregator.go:283-289 | The loop returns the sum of the per-reason counters |
| `Aggregation.Conservation` | pkg/hubble/aggregator.go:438-449 | Flows read = ignored by reason + by protocol + noise + infrastructure + tracked + bucketed; flows seen = infrastructure + bucketed |
| `FlowFates.FateExactly` | pkg/hubble/aggregator.go:450-616 | Each fate of a flow by its own fields: filters first, then drop classes, else the bucket of its destination's (ingress) or source's (egress) namespace and workload, or none |
| `FlowFates.FiledExactly` | pkg/hubble/aggregator.go:576-616 | The flows filed under a workload are exactly those dropped at or from it that no filter took |
| `Aggregation.HealthWriter.Accumulate` | pkg/hubble/health_writer.go:55-84 | The entry of a reason counts its events, by node and by workload, and all counts add up to the events |
| `Aggregation.HealthWriter.Snapshot` | pkg/hubble/health_writer.go:193-226 | The first call fixes what every call returns |
| `Aggregation.AccumulateStep` | pkg/hubble/health_writer.go:55-84 | One event keeps count = sum by node = sum by workload for every reason, and the grand total |
| `Aggregation.HealthAccounts` | pkg/hubble/aggregator.go:521-541 | Report counts plus drops on a full channel are the infrastructure drops, but for one at cancellation |
| `FlowFates.ReportNames` | pkg/hubble/aggregator.go:309-329 | A reported drop names the namespace and workload it belongs to, and _unknown where they are not known |
| `FlowFates.ReportLabel` | pkg/hubble/health_writer.go:68-82 | The report counts it under namespace/workload |
| `Aggregation.EntryClass` | pkg/hubble/health_writer.go:55-65 | Every entry of the report has the class of its reason in the static table |
| `Evidence.PolicyEvidence.Merge` | pkg/evidence/merge.go:16-61 | Sessions become the capped upsert and rules the sorted fold of the new rules |
| `Evidence.MergeRuleEvidence` | pkg/evidence/merge.go:63-78 | One rule folded into another: counts added, times widened, sessions deduplicated, samples capped |
| `EvidenceMeaning.CapAbsorbs` | pkg/evidence/merge.go:99-107 | Capping early loses nothing: newest of (capped + more) is newest of all |
| `EvidenceMeaning.SamplesAreNewest` | pkg/evidence/merge.go:99-107 | What a cap keeps is in order of time, as many as it allows, and nothing dropped is newer |
| `EvidenceMeaning.EvidenceAccumulates` | pkg/evidence/merge.go:16-78 | After any merges keys are unique, rules sorted, and each rule sums up everything ever given for its key, newest samples of all included |
| `EvidenceMeaning.SessionsAreNewest` | pkg/evidence/merge.go:19-36 | After any writes the list holds exactly the newest sessions ever seen, one per ID, each with its latest payload |
| `Pagination.CompareIsOrder` | cmd/cpg/mcp_query_pagination.go:80-101 | The key comparison is a strict total order |
| `Pagination.ClampLimit` | cmd/cpg/mcp_query_pagination.go:141-150 | A non-positive limit gives the default, one above the maximum the maximum, any other itself |
| `Pagination.PagesIncrease` | cmd/cpg/mcp_query_pagination.go:152-198 | However the set changes, the pages give strictly increasing keys |
| `Pagination.PagesAreSeen` | cmd/cpg/mcp_query_pagination.go:169-198 | Nothing is returned that some call did not see |
| `Pagination.Paginate` | cmd/cpg/mcp_query_pagination.go:169-198 | The page starts at the first item behind the cursor and ends at the limit, with cursor and flag for more |
| `Pagination.PaginationUnderChange` | cmd/cpg/mcp_query_pagination.go:152-198 | Following cursors over changing sets returns each key present throughout exactly once, whatever it carries at each call |
| `Pagination.FixedSet` | cmd/cpg/mcp_query_pagination.go:169-198 | On a fixed set the pages concatenate to the list in as many calls as needed |
| `Pagination.CallsAreCeil` | cmd/cpg/mcp_query_pagination.go:169-198 | That many calls is the quotient rounded up |
| `Pagination.BuildCombinedItems` | cmd/cpg/mcp_query_flows.go:465-497 | Rows are sorted by namespace, workload and kind and indexed within their group |
| `Pagination.CombinedItemsFit` | cmd/cpg/mcp_query_flows.go:465-497 | The combined keys strictly increase and its rows are a stable rearrangement of the given ones |
| `Pagination.CombinedInOrder` | cmd/cpg/mcp_query_flows.go:465-497 | Items of one workload are numbered from zero without gaps, samples before aggregates |
| `Pagination.CombinedPagination` | cmd/cpg/mcp_query_flows.go:465-497 | Paginating the combined lists of each moment gives increasing keys and each key present throughout exactly once |
| `EditDistance.Levenshtein` | cmd/cpg/commonflags.go:133-160 | The two-row table returns the distance |
| `EditDistance.DistIsLeast` | cmd/cpg/commonflags.go:129-160 | The distance is the length of a shortest script of insertions, deletions and substitutions |
| `EditDistance.DistSymmetric` | cmd/cpg/commonflags.go:133-160 | The distance is symmetric |
| `EditDistance.DistZero` | cmd/cpg/commonflags.go:133-160 | The distance is zero exactly on equal sequences |
| `EditDistance.TriangleInequality` | cmd/cpg/commonflags.go:133-160 | Going through a third sequence is never shorter |
| `EditDistance.SuggestClosest` | cmd/cpg/commonflags.go:165-196 | The suggestions are the first n names of the ranking |
| `EditDistance.SuggestionsAreClosest` | cmd/cpg/commonflags.go:165-196 | The ranking holds exactly the candidates within the threshold, by distance then name |
| `EditDistance.SuggestedAreBest` | cmd/cpg/commonflags.go:165-195 | Suggestions are candidates within ten edits and half the input and two, best first, and no candidate left out is better |
| `Sorting.SortIsStable` | cmd/cpg/mcp_query_flows.go:474-482 | Elements that compare equal keep their relative order |
| `Sorting.SameSortExactly` | pkg/policy/dedup.go:67-76 | Two sequences sort to the same one exactly when tied elements come in the same order in both |

## Left out

Weaker than the code in a named member:

- Collapse.ClusterSharesShape: paths contain no NUL character, because clusters are keyed on a NUL-joined list and `CollapseGrowth.NulLoses` is a collision; coverage without the condition is `CollapseGrowth.CoverageOfAnyPath`.
- Collapse.TemplatePrecision: paths contain no NUL character; the language of any rule by its cluster's head is `Collapse.RuleLanguage`.
- Collapse.OddValuePins: paths contain no NUL character.
- SegmentClasses.RuleExactly: paths contain no NUL character; `Collapse.RuleLanguage` needs no such condition.
- SegmentClasses.WordsStayLiteral: paths contain no NUL character.
- SegmentClasses.WordPathStaysLiteral: paths contain no NUL character.
- SegmentClasses.EnoughValuesCollapse: paths contain no NUL character; the pattern is within the cap, which `SegmentClasses.ShortPathFits` derives from the path's length.
- CollapseGrowth.UndisturbedKeeps: paths contain no NUL character.
- CollapseGrowth.KeepsAllIff: paths contain no NUL character; the way back assumes a UUID that was not observed at the position, which `CollapseGrowth.KeepsAllIffSmall` derives from the number of paths.
- CollapseGrowth.KeepsAllIffSmall: less than a trillion observed paths.
- WholeRun.WholeRunCoverage: covers paths that start with a slash and contain no NUL, once an event for their peer and port is accepted; a workload's selected labels contain no namespace key.
- Builder.RecordL7: attribution samples are not modelled.
- Builder.GroupFlows: attribution samples and tracker calls are not modelled.
- Builder.BuildPolicy: attribution samples and tracker calls are not modelled.
- BuilderMeaning.BuildExact: excludes flows with DNS names; `FlowFields.BuildSaysRaw` includes them.
- FlowFields.BuildSaysRaw: one scope per label set, without which `Windows.ExactIffSameScope` shows a build is not exact.
- Windows.WindowSplitIndependence: excludes flows with DNS names, for which it is false (`FqdnMerge.RunNamesExact` says what holds), and flow lists in which equal selected labels come from different namespaces, where `Windows.ExactIffSameScope` shows a build is not exact.
- Windows.ExactIffSameScope: excludes flows with DNS names and selected labels with a namespace key.
- RuleSequence.FirstSeenFirst: one scope per label set, and selected labels without a namespace key.
- MergeMeaning.ReplacedPortsSay: each side lists HTTP for a port at most once, as all built and merged policies do.
- MergeMeaning.MergeReplaceExact: each side lists HTTP for a port and peer at most once, as all built and merged policies do.
- CompanionForms.CompanionExactly: the detected labels have plain, non-empty keys, as a Kubernetes selector's have.
- DedupKeys.KeyExactly: texts inside the parts of a key do not hold the separators of the key, and no word inside a part starts like another part; `LabelListing` and `BuiltOrder` derive this for label listings and built rules.
- DedupKeys.OrderForgottenByContent: the same.
- DedupKeys.PlainOrderForgotten: the same for labels, addresses and entities.
- BuiltOrder.BuiltOrderForgotten: flows without HTTP and DNS records, for which `DedupOrder.PortRulesKeepOrder` shows that order can be seen; selected labels contain no namespace key; the order of ICMP types within a rule is kept.
- LabelListing.ListingQuiet: label keys and values hold no blank, keys no equals sign, and no pair starts like a part of a key.
- LabelListing.ListingTellsApart: the same.
- Writer.ClusterDecidesFirst: the first event of a workload, without dry run.
- AuditOpening.OpenSwitchesOn: while endpoint lookups name the endpoint they were asked for.
- CompanionDNS.CompanionClosure: the DNS selector is one whose companion is recognised, without which it is false (`CompanionDNS.IdempotentIff`).
- Writer.SkipRefinesMergeEvery: runs without a cluster snapshot and without dry run; the cluster snapshot's own decision is `Writer.ClusterDecidesFirst`.
- DNSClosure.BuildHasCompanion: the DNS selector is one whose companion is recognised, without which it is false (`CompanionDNS.IdempotentIff`).
- EvidenceMeaning.SessionsAreNewest: one start time per session ID and different start times for different IDs.
- Evidence.MergeRuleEvidence: a rule's list of contributing sessions is made distinct only from its second merge on, as in the code.
- AuditWindow.AlreadyOnUntouched: while endpoint lookups name the endpoint they were asked for.
- AuditWindow.SafeSweepAccounts: an enable call that returned an error is taken not to have switched the endpoint on.
- Pagination.CombinedPagination: composed with the combined flow list only; the policy listing is ordered by file names, not by its keys.

Taken as values or as given:

- Labels and selectors are already normalised values with serialised keys; label parsing is taken to be injective. Where two labels become the same key when their source is stripped, any of the two counts as carried.
- YAML and JSON encoding are injective: a file is the policy or evidence it holds, and equality of files is equality of values. The pagination cursor is the key it encodes.
- URL parsing is not modelled: a flow carries the raw path.
- HTTP rules carry a method and a path; hosts and headers, which cpg never writes, are not modelled.
- Compound text keys for observations, buckets and workloads are tuples, except for the ports, ICMP types and sort keys whose text matters.
- Counters and times are unbounded integers; the conversion of ICMP types to 32 bits is modelled.
- Unstable sorts are modelled as stable ones; where the code sorts unstably, tied elements are equal or the statement does not depend on their order.
- Session, AuditWindow and Pipeline are step systems on values, not locks, goroutines and channels; timeouts, I/O failures and cancellation are free choices. An aggregator tick with nothing to flush is not a step.
- Endpoint numbers in the audit window are modelled by the endpoint a lookup yields.

Not modelled:

- gRPC, Kubernetes clients, exec transports, port-forward and namespace watching, MCP and command-line wiring, rendering, logging and the drop-reason table (classification is an arbitrary function).
- File writing and comment annotation.
- Attribution samples and reasons collected while building, the unhandled-flow tracker's details, first-seen namespaces and the L7 and audit diagnostic counters.
- The pipeline's stream-error watcher and lost-event monitor, and the session status summary.
- Loading the cluster snapshot, and hand-edited policies with emptied port lists.
- Dropped-flow aggregation, the query filters and small top-k helpers.
