/**
 What the sort keys of rules tell apart (pkg/policy/dedup.go): two rules have the same key exactly when
 they have the same peers, ports, L7 entries and ICMP types in some order. So a policy without L7 rules
 is found equivalent to itself in any other order.
 */
module DedupKeys {
  import opened PolicyTypes
  import opened Text
  import opened Sorting
  import opened Merge
  import opened CollapseEngine
  import opened Builder
  import opened BuilderMeaning
  import opened FlowFields
  import opened Dedup
  import opened DedupOrder
  import Windows

  // ---- Reading a key back -----------------------------------------------------------------------

  /** One more character in front of a split text. */
  function Prepended(c: char, words: seq<string>, sep: char): seq<string>
    requires words != []
  {
    if c == sep then [""] + words else [[c] + words[0]] + words[1..]
  }

  lemma SplitCons(c: char, rest: string, sep: char)
    ensures Split([c] + rest, sep) == Prepended(c, Split(rest, sep), sep)
  {
    assert ([c] + rest)[1..] == rest;
  }

  lemma PrependedAppend(c: char, s: seq<string>, t: seq<string>, sep: char)
    requires s != []
    ensures Prepended(c, s + t, sep) == Prepended(c, s, sep) + t
  {
    assert (s + t)[0] == s[0] && (s + t)[1..] == s[1..] + t;
  }

  lemma {:induction false} SplitAppend(x: string, y: string, sep: char)
    ensures Split(x + [sep] + y, sep) == Split(x, sep) + Split(y, sep)
    decreases |x|, 1
  {
    if x == "" {
      SplitCons(sep, y, sep);
      assert x + [sep] + y == [sep] + y;
    } else {
      FirstChar(x[0], x[1..], y, sep);
      assert x == [x[0]] + x[1..];
    }
  }

  lemma {:induction false} FirstChar(c: char, rest: string, y: string, sep: char)
    ensures Split([c] + rest + [sep] + y, sep) == Split([c] + rest, sep) + Split(y, sep)
    decreases |rest| + 1, 0
  {
    SplitAppend(rest, y, sep);
    SplitCons(c, rest, sep);
    SplitCons(c, rest + [sep] + y, sep);
    PrependedAppend(c, Split(rest, sep), Split(y, sep), sep);
    assert [c] + rest + [sep] + y == [c] + (rest + [sep] + y);
  }

  /** The words of all parts, in order. */
  function Words(parts: seq<string>): seq<string>
  {
    if parts == [] then [] else Split(parts[0], ' ') + Words(parts[1..])
  }

  lemma {:induction false} JoinedWords(parts: seq<string>)
    requires parts != []
    ensures Split(Join(parts, ' '), ' ') == Words(parts)
  {
    if |parts| == 1 {
      assert Words(parts[1..]) == [];
    } else {
      JoinedWords(parts[1..]);
      SplitAppend(parts[0], Join(parts[1..], ' '), ' ');
    }
  }

  const PREFIXES: seq<string> := ["ep:", "cidr:", "entity:", "fqdn:", "port:", "http:", "dns:", "icmp:"]

  /** The word can start a part. */
  predicate Opener(word: string)
  {
    exists i :: 0 <= i < |PREFIXES| && PREFIXES[i] <= word
  }

  /** The part starts with a prefix, and no word inside it looks like the start of another part. */
  ghost predicate Quiet(part: string)
  {
    var words := Split(part, ' ');
    Opener(words[0]) && forall i :: 0 < i < |words| ==> !Opener(words[i])
  }

  ghost predicate AllQuiet(parts: seq<string>) { forall p :: p in parts ==> Quiet(p) }

  /** The first part ends where the next word can start one. */
  lemma FirstPart(parts: seq<string>)
    requires parts != [] && AllQuiet(parts)
    ensures var n, words := |Split(parts[0], ' ')|, Words(parts);
            && n <= |words| && words[..n] == Split(parts[0], ' ') && words[n..] == Words(parts[1..])
            && Opener(words[0]) && (forall i :: 0 < i < n ==> !Opener(words[i])) && (n < |words| ==> Opener(words[n]))
  {
    assert parts[0] in parts;
    var own, rest := Split(parts[0], ' '), Words(parts[1..]);
    assert Words(parts) == own + rest;
    assert forall i :: 0 <= i < |own| ==> Words(parts)[i] == own[i];
    if |parts| > 1 {
      assert parts[1] in parts;
      assert rest[0] == Split(parts[1], ' ')[0];
    }
  }

  lemma {:induction false} QuietReadsBack(a: seq<string>, b: seq<string>)
    requires AllQuiet(a) && AllQuiet(b) && Words(a) == Words(b)
    ensures a == b
  {
    if a != [] && b != [] {
      FirstPart(a);
      FirstPart(b);
      var n := |Split(a[0], ' ')|;
      assert |Split(b[0], ' ')| == n;
      JoinSplit(a[0], ' ');
      JoinSplit(b[0], ' ');
      assert AllQuiet(a[1..]) && AllQuiet(b[1..]);
      QuietReadsBack(a[1..], b[1..]);
      assert a == [a[0]] + a[1..] && b == [b[0]] + b[1..];
    }
  }

  function Bracketed(parts: seq<string>): string
  {
    if parts == [] then "[]" else "[" + Join(parts, ' ') + "]"
  }

  lemma BracketedReadsBack(a: seq<string>, b: seq<string>)
    requires AllQuiet(a) && AllQuiet(b) && Bracketed(a) == Bracketed(b)
    ensures a == b
  {
    assert Bracketed(a) == "[" + Join(a, ' ') + "]" && Bracketed(b) == "[" + Join(b, ' ') + "]";
    assert Join(a, ' ') == Bracketed(a)[1..|Bracketed(a)| - 1];
    assert Join(b, ' ') == Bracketed(b)[1..|Bracketed(b)| - 1];
    assert Split("", ' ') == [""];
    NoOpener();
    if a != [] { JoinedWords(a); FirstPart(a); }
    if b != [] { JoinedWords(b); FirstPart(b); }
    if a != [] && b != [] { QuietReadsBack(a, b); }
  }

  lemma NoOpener()
    ensures !Opener("")
  {
  }

  /** Two lists of quiet parts give one key exactly when they are the same parts in some order. */
  lemma SortedKey(a: seq<string>, b: seq<string>)
    requires AllQuiet(a) && AllQuiet(b)
    ensures Bracketed(Sort(a, LexLe)) == Bracketed(Sort(b, LexLe)) <==> multiset(a) == multiset(b)
  {
    SameParts(a, b);
    SortPermutes(a, LexLe);
    SortPermutes(b, LexLe);
    if Bracketed(Sort(a, LexLe)) == Bracketed(Sort(b, LexLe)) {
      BracketedReadsBack(Sort(a, LexLe), Sort(b, LexLe));
    }
  }

  lemma SameParts(a: seq<string>, b: seq<string>)
    ensures Sort(a, LexLe) == Sort(b, LexLe) <==> multiset(a) == multiset(b)
  {
    LexOrder();
    forall x, y | x in a && y in a && LexLe(x, y) && LexLe(y, x) ensures x == y { LexTotal(x, y); }
    SameSortBags(a, b, LexLe);
  }

  // ---- Bags of parts ----------------------------------------------------------------------------

  lemma EachDrop<T>(s: seq<T>, j: nat, f: T -> string)
    requires j < |s|
    ensures Each(s[..j] + s[j + 1..], f) == Each(s, f)[..j] + Each(s, f)[j + 1..]
  {
  }

  /** Rearranged elements have rearranged texts, and where texts tell elements apart, only they have. */
  lemma {:induction false} EachBag<T>(s: seq<T>, t: seq<T>, f: T -> string)
    requires multiset(s) == multiset(t)
    ensures multiset(Each(s, f)) == multiset(Each(t, f))
    decreases |s|
  {
    SameMembers(s, t);
    if s != [] {
      var n := |s| - 1;
      assert s[n] in t;
      var j :| 0 <= j < |t| && t[j] == s[n];
      DropBag(s, n);
      DropBag(t, j);
      EachBag(s[..n] + s[n + 1..], t[..j] + t[j + 1..], f);
      EachDrop(s, n, f);
      EachDrop(t, j, f);
      AddBag(Each(s, f), n, Each(t, f), j);
    }
  }

  ghost predicate TellsApart<T(!new)>(f: T -> string, s: seq<T>, t: seq<T>)
  {
    forall x, y :: x in s && y in t && f(x) == f(y) ==> x == y
  }

  lemma {:induction false} EachBagBack<T(!new)>(s: seq<T>, t: seq<T>, f: T -> string)
    requires multiset(Each(s, f)) == multiset(Each(t, f)) && TellsApart(f, s, t)
    ensures multiset(s) == multiset(t)
    decreases |s|
  {
    SameMembers(Each(s, f), Each(t, f));
    if s != [] {
      var n := |s| - 1;
      assert Each(s, f)[n] in Each(t, f);
      var j :| 0 <= j < |t| && Each(t, f)[j] == Each(s, f)[n];
      assert s[n] in s && t[j] in t;
      DropBag(Each(s, f), n);
      DropBag(Each(t, f), j);
      EachDrop(s, n, f);
      EachDrop(t, j, f);
      var a, b := s[..n] + s[n + 1..], t[..j] + t[j + 1..];
      assert (forall x :: x in a ==> x in s) && (forall x :: x in b ==> x in t);
      EachBagBack(a, b, f);
      AddBag(s, n, t, j);
    }
  }

  // ---- What a rule is about ---------------------------------------------------------------------

  function LabelsOf(endpoints: seq<Selector>): (r: seq<map<string, string>>)
    ensures |r| == |endpoints|
  {
    seq(|endpoints|, i requires 0 <= i < |endpoints| => endpoints[i].labels)
  }

  function AllHTTP(prs: seq<PortRule>): seq<HTTPRule>
  {
    if prs == [] then [] else AllHTTP(prs[..|prs| - 1]) + HTTPOf(prs[|prs| - 1].rules)
  }

  function AllDNS(prs: seq<PortRule>): seq<DNSRule>
  {
    if prs == [] then [] else AllDNS(prs[..|prs| - 1]) + DNSOf(prs[|prs| - 1].rules)
  }

  /** The same peers, names, ports, L7 entries and ICMP types, in some order; match expressions aside. */
  ghost predicate SameContent(r: Rule, q: Rule)
  {
    && multiset(LabelsOf(r.peer.endpoints)) == multiset(LabelsOf(q.peer.endpoints))
    && multiset(r.peer.cidrs) == multiset(q.peer.cidrs)
    && multiset(r.peer.entities) == multiset(q.peer.entities)
    && multiset(r.fqdns) == multiset(q.fqdns)
    && multiset(AllPorts(r.toPorts)) == multiset(AllPorts(q.toPorts))
    && multiset(AllHTTP(r.toPorts)) == multiset(AllHTTP(q.toPorts))
    && multiset(AllDNS(r.toPorts)) == multiset(AllDNS(q.toPorts))
    && multiset(AllFields(r.icmps)) == multiset(AllFields(q.icmps))
  }

  // ---- The parts of a key -----------------------------------------------------------------------

  function LabelPart(text: LabelText): map<string, string> -> string
  {
    (labels: map<string, string>) => "ep:" + text(labels)
  }

  function CIDRPart(c: string): string { "cidr:" + c }
  function EntityPart(e: string): string { "entity:" + e }
  function NamePart(d: DNSRule): string { "fqdn:" + d.matchName + "|" + d.matchPattern }
  function PortPart(p: PortProto): string { "port:" + p.port + "/" + p.proto }
  function HTTPPart(h: HTTPRule): string { "http:" + h.verb + "|" + h.path + "|||" }
  function QueryPart(d: DNSRule): string { "dns:" + d.matchName + "|" + d.matchPattern }
  function FieldPart(f: ICMPField): string { "icmp:" + FieldKey(f) }

  lemma EachAppend<T>(s: seq<T>, t: seq<T>, f: T -> string)
    ensures Each(s + t, f) == Each(s, f) + Each(t, f)
  {
  }

  lemma L7PartsAre(rules: Option<L7Rules>)
    ensures L7Parts(rules) == Each(HTTPOf(rules), HTTPPart) + Each(DNSOf(rules), QueryPart)
  {
    if rules.Some? {
      assert Each(rules.value.http, (h: HTTPRule) => "http:" + h.verb + "|" + h.path + "|||") == Each(rules.value.http, HTTPPart);
      assert Each(rules.value.dns, (d: DNSRule) => "dns:" + d.matchName + "|" + d.matchPattern) == Each(rules.value.dns, QueryPart);
    }
  }

  lemma {:induction false} PortPartsBag(prs: seq<PortRule>)
    ensures multiset(PortParts(prs))
         == multiset(Each(AllPorts(prs), PortPart)) + multiset(Each(AllHTTP(prs), HTTPPart)) + multiset(Each(AllDNS(prs), QueryPart))
  {
    if prs != [] {
      var front, pr := prs[..|prs| - 1], prs[|prs| - 1];
      PortPartsBag(front);
      L7PartsAre(pr.rules);
      EachAppend(AllPorts(front), pr.ports, PortPart);
      EachAppend(AllHTTP(front), HTTPOf(pr.rules), HTTPPart);
      EachAppend(AllDNS(front), DNSOf(pr.rules), QueryPart);
      assert Each(pr.ports, (p: PortProto) => "port:" + p.port + "/" + p.proto) == Each(pr.ports, PortPart);
      assert PortParts(prs) == PortParts(front) + Each(pr.ports, PortPart) + (Each(HTTPOf(pr.rules), HTTPPart) + Each(DNSOf(pr.rules), QueryPart));
    }
  }

  lemma {:induction false} ICMPPartsAre(icmps: seq<seq<ICMPField>>)
    ensures ICMPParts(icmps) == Each(AllFields(icmps), FieldPart)
  {
    if icmps != [] {
      var front, last := icmps[..|icmps| - 1], icmps[|icmps| - 1];
      ICMPPartsAre(front);
      EachAppend(AllFields(front), last, FieldPart);
      assert Each(last, (f: ICMPField) => "icmp:" + FieldKey(f)) == Each(last, FieldPart);
    }
  }

  /** The parts of a key, kind by kind. */
  datatype Parts = Parts(labels: seq<string>, cidrs: seq<string>, entities: seq<string>, names: seq<string>,
                         ports: seq<string>, http: seq<string>, queries: seq<string>, fields: seq<string>)

  function PartsOf(r: Rule, text: LabelText): Parts
  {
    Parts(Each(LabelsOf(r.peer.endpoints), LabelPart(text)), Each(r.peer.cidrs, CIDRPart), Each(r.peer.entities, EntityPart),
          Each(r.fqdns, NamePart), Each(AllPorts(r.toPorts), PortPart), Each(AllHTTP(r.toPorts), HTTPPart),
          Each(AllDNS(r.toPorts), QueryPart), Each(AllFields(r.icmps), FieldPart))
  }

  function Bag(p: Parts): multiset<string>
  {
    multiset(p.labels) + multiset(p.cidrs) + multiset(p.entities) + multiset(p.names)
    + multiset(p.ports) + multiset(p.http) + multiset(p.queries) + multiset(p.fields)
  }

  lemma KeyPartsBag(r: Rule, text: LabelText)
    ensures multiset(KeyParts(r, text)) == Bag(PartsOf(r, text))
  {
    PortPartsBag(r.toPorts);
    ICMPPartsAre(r.icmps);
    assert Each(r.peer.endpoints, (s: Selector) => "ep:" + text(s.labels)) == Each(LabelsOf(r.peer.endpoints), LabelPart(text));
    assert Each(r.peer.cidrs, (c: string) => "cidr:" + c) == Each(r.peer.cidrs, CIDRPart);
    assert Each(r.peer.entities, (e: string) => "entity:" + e) == Each(r.peer.entities, EntityPart);
    assert Each(r.fqdns, (d: DNSRule) => "fqdn:" + d.matchName + "|" + d.matchPattern) == Each(r.fqdns, NamePart);
  }

  // ---- Kinds do not mix -------------------------------------------------------------------------

  predicate Headed(x: string, head: string) { |x| >= 2 && x[..2] == head }

  ghost predicate AllHeaded(s: seq<string>, head: string) { forall x :: x in s ==> Headed(x, head) }

  ghost predicate Kinds(p: Parts)
  {
    && AllHeaded(p.labels, "ep") && AllHeaded(p.cidrs, "ci") && AllHeaded(p.entities, "en") && AllHeaded(p.names, "fq")
    && AllHeaded(p.ports, "po") && AllHeaded(p.http, "ht") && AllHeaded(p.queries, "dn") && AllHeaded(p.fields, "ic")
  }

  lemma EachHeaded<T(!new)>(s: seq<T>, f: T -> string, head: string)
    requires forall x :: x in s ==> Headed(f(x), head)
    ensures AllHeaded(Each(s, f), head)
  {
    forall y | y in Each(s, f) ensures Headed(y, head) {
      var i :| 0 <= i < |s| && Each(s, f)[i] == y;
      assert s[i] in s;
    }
  }

  lemma HeadsOf(a: string, b: string, head: string)
    requires Headed(a, head)
    ensures Headed(a + b, head)
  {
    assert (a + b)[..2] == a[..2];
  }

  lemma PartKinds(r: Rule, text: LabelText)
    ensures Kinds(PartsOf(r, text))
  {
    forall m: map<string, string> ensures Headed(LabelPart(text)(m), "ep") { HeadsOf("ep:", text(m), "ep"); }
    forall c: string ensures Headed(CIDRPart(c), "ci") && Headed(EntityPart(c), "en") {
      HeadsOf("cidr:", c, "ci");
      HeadsOf("entity:", c, "en");
    }
    forall d: DNSRule ensures Headed(NamePart(d), "fq") && Headed(QueryPart(d), "dn") {
      assert NamePart(d)[..2] == "fq" && QueryPart(d)[..2] == "dn";
    }
    forall p: PortProto ensures Headed(PortPart(p), "po") { assert PortPart(p)[..2] == "po"; }
    forall h: HTTPRule ensures Headed(HTTPPart(h), "ht") { assert HTTPPart(h)[..2] == "ht"; }
    forall g: ICMPField ensures Headed(FieldPart(g), "ic") { HeadsOf("icmp:", FieldKey(g), "ic"); }
    EachHeaded(LabelsOf(r.peer.endpoints), LabelPart(text), "ep");
    EachHeaded(r.peer.cidrs, CIDRPart, "ci");
    EachHeaded(r.peer.entities, EntityPart, "en");
    EachHeaded(r.fqdns, NamePart, "fq");
    EachHeaded(AllPorts(r.toPorts), PortPart, "po");
    EachHeaded(AllHTTP(r.toPorts), HTTPPart, "ht");
    EachHeaded(AllDNS(r.toPorts), QueryPart, "dn");
    EachHeaded(AllFields(r.icmps), FieldPart, "ic");
  }

  lemma CountAbsent(s: seq<string>, x: string, head: string)
    requires AllHeaded(s, head) && !Headed(x, head)
    ensures multiset(s)[x] == 0
  {
    assert x in multiset(s) ==> x in s;
  }

  /** A text is counted among the parts of its own kind only. */
  lemma CountByKind(p: Parts, x: string)
    requires Kinds(p)
    ensures Headed(x, "ep") ==> Bag(p)[x] == multiset(p.labels)[x]
    ensures Headed(x, "ci") ==> Bag(p)[x] == multiset(p.cidrs)[x]
    ensures Headed(x, "en") ==> Bag(p)[x] == multiset(p.entities)[x]
    ensures Headed(x, "fq") ==> Bag(p)[x] == multiset(p.names)[x]
    ensures Headed(x, "po") ==> Bag(p)[x] == multiset(p.ports)[x]
    ensures Headed(x, "ht") ==> Bag(p)[x] == multiset(p.http)[x]
    ensures Headed(x, "dn") ==> Bag(p)[x] == multiset(p.queries)[x]
    ensures Headed(x, "ic") ==> Bag(p)[x] == multiset(p.fields)[x]
  {
    if !Headed(x, "ep") { CountAbsent(p.labels, x, "ep"); }
    if !Headed(x, "ci") { CountAbsent(p.cidrs, x, "ci"); }
    if !Headed(x, "en") { CountAbsent(p.entities, x, "en"); }
    if !Headed(x, "fq") { CountAbsent(p.names, x, "fq"); }
    if !Headed(x, "po") { CountAbsent(p.ports, x, "po"); }
    if !Headed(x, "ht") { CountAbsent(p.http, x, "ht"); }
    if !Headed(x, "dn") { CountAbsent(p.queries, x, "dn"); }
    if !Headed(x, "ic") { CountAbsent(p.fields, x, "ic"); }
  }

  lemma SameKind(a: seq<string>, b: seq<string>, head: string)
    requires AllHeaded(a, head) && AllHeaded(b, head)
    requires forall x :: Headed(x, head) ==> multiset(a)[x] == multiset(b)[x]
    ensures multiset(a) == multiset(b)
  {
    forall x ensures multiset(a)[x] == multiset(b)[x] {
      if !Headed(x, head) { CountAbsent(a, x, head); CountAbsent(b, x, head); }
    }
  }

  ghost predicate SameBags(p: Parts, q: Parts)
  {
    && multiset(p.labels) == multiset(q.labels) && multiset(p.cidrs) == multiset(q.cidrs)
    && multiset(p.entities) == multiset(q.entities) && multiset(p.names) == multiset(q.names)
    && multiset(p.ports) == multiset(q.ports) && multiset(p.http) == multiset(q.http)
    && multiset(p.queries) == multiset(q.queries) && multiset(p.fields) == multiset(q.fields)
  }

  lemma BagIsKinds(p: Parts, q: Parts)
    requires Kinds(p) && Kinds(q)
    ensures Bag(p) == Bag(q) <==> SameBags(p, q)
  {
    if Bag(p) == Bag(q) {
      forall x
        ensures Headed(x, "ep") ==> multiset(p.labels)[x] == multiset(q.labels)[x]
        ensures Headed(x, "ci") ==> multiset(p.cidrs)[x] == multiset(q.cidrs)[x]
        ensures Headed(x, "en") ==> multiset(p.entities)[x] == multiset(q.entities)[x]
        ensures Headed(x, "fq") ==> multiset(p.names)[x] == multiset(q.names)[x]
        ensures Headed(x, "po") ==> multiset(p.ports)[x] == multiset(q.ports)[x]
        ensures Headed(x, "ht") ==> multiset(p.http)[x] == multiset(q.http)[x]
        ensures Headed(x, "dn") ==> multiset(p.queries)[x] == multiset(q.queries)[x]
        ensures Headed(x, "ic") ==> multiset(p.fields)[x] == multiset(q.fields)[x]
      {
        CountByKind(p, x);
        CountByKind(q, x);
        assert Bag(p)[x] == Bag(q)[x];
      }
      SameKind(p.labels, q.labels, "ep");
      SameKind(p.cidrs, q.cidrs, "ci");
      SameKind(p.entities, q.entities, "en");
      SameKind(p.names, q.names, "fq");
      SameKind(p.ports, q.ports, "po");
      SameKind(p.http, q.http, "ht");
      SameKind(p.queries, q.queries, "dn");
      SameKind(p.fields, q.fields, "ic");
    }
  }

  // ---- Texts determine what they are of ---------------------------------------------------------

  lemma Cut(a: string, b: string, c: string, d: string, sep: char)
    requires sep !in a && sep !in c && a + [sep] + b == c + [sep] + d
    ensures a == c && b == d
  {
    SplitAtSeparator(a, b, sep);
    SplitAtSeparator(c, d, sep);
    assert Split(a + [sep] + b, sep)[0] == a && Split(c + [sep] + d, sep)[0] == c;
    assert (a + [sep] + b)[|a| + 1..] == b && (c + [sep] + d)[|c| + 1..] == d;
  }

  lemma Behind(head: string, a: string, b: string)
    requires head + a == head + b
    ensures a == b
  {
    assert (head + a)[|head|..] == a && (head + b)[|head|..] == b;
  }

  /** Behind a common head: two texts joined by a separator the first does not hold. */
  lemma CutBehind(head: string, a: string, b: string, c: string, d: string, sep: char)
    requires sep !in a && sep !in c && head + a + [sep] + b == head + c + [sep] + d
    ensures a == c && b == d
  {
    assert head + a + [sep] + b == head + (a + [sep] + b) && head + c + [sep] + d == head + (c + [sep] + d);
    Behind(head, a + [sep] + b, c + [sep] + d);
    Cut(a, b, c, d, sep);
  }

  lemma DecimalTellsApart(n: nat, m: nat)
    requires Decimal(n) == Decimal(m)
    ensures n == m
  {
    DecimalReadsBack(n);
    DecimalReadsBack(m);
  }

  lemma NumberTellsApart(n: int, m: int)
    requires Number(n) == Number(m)
    ensures n == m
  {
    NumberStarts(n);
    NumberStarts(m);
    if n < 0 {
      Behind("-", Decimal(-n), Decimal(-m));
      DecimalTellsApart(-n, -m);
    } else {
      DecimalTellsApart(n, m);
    }
  }

  lemma NumberStarts(n: int)
    ensures Number(n) != "" && (n < 0 <==> Number(n)[0] == '-') && Number(n)[0] != '*'
  {
    var d := Decimal(if n < 0 then -n else n);
    DecimalIsNumeral(if n < 0 then -n else n);
    assert d[0] in d;
  }

  lemma FieldTellsApart(f: ICMPField, g: ICMPField)
    requires '/' !in f.family && '/' !in g.family && FieldPart(f) == FieldPart(g)
    ensures f == g
  {
    Behind("icmp:", FieldKey(f), FieldKey(g));
    var a, b := if f.typ.Some? then Number(f.typ.value) else "*", if g.typ.Some? then Number(g.typ.value) else "*";
    assert FieldKey(f) == f.family + ['/'] + a && FieldKey(g) == g.family + ['/'] + b;
    Cut(f.family, a, g.family, b, '/');
    if f.typ.Some? { NumberStarts(f.typ.value); }
    if g.typ.Some? { NumberStarts(g.typ.value); }
    if f.typ.Some? && g.typ.Some? { NumberTellsApart(f.typ.value, g.typ.value); }
  }

  lemma PortTellsApart(p: PortProto, q: PortProto)
    requires '/' !in p.port && '/' !in q.port && PortPart(p) == PortPart(q)
    ensures p == q
  {
    CutBehind("port:", p.port, p.proto, q.port, q.proto, '/');
  }

  lemma HTTPTellsApart(h: HTTPRule, g: HTTPRule)
    requires '|' !in h.verb && '|' !in g.verb && HTTPPart(h) == HTTPPart(g)
    ensures h == g
  {
    var a, b := h.path + "|||", g.path + "|||";
    assert HTTPPart(h) == "http:" + h.verb + ['|'] + a && HTTPPart(g) == "http:" + g.verb + ['|'] + b;
    CutBehind("http:", h.verb, a, g.verb, b, '|');
    assert |h.path| == |g.path|;
    assert h.path == a[..|h.path|] && g.path == b[..|g.path|];
  }

  lemma NameTellsApart(d: DNSRule, e: DNSRule)
    requires '|' !in d.matchName && '|' !in e.matchName && (NamePart(d) == NamePart(e) || QueryPart(d) == QueryPart(e))
    ensures d == e
  {
    if NamePart(d) == NamePart(e) { CutBehind("fqdn:", d.matchName, d.matchPattern, e.matchName, e.matchPattern, '|'); }
    else { CutBehind("dns:", d.matchName, d.matchPattern, e.matchName, e.matchPattern, '|'); }
  }

  // ---- Keys, exactly ----------------------------------------------------------------------------

  /** The separators inside the parts of a key stay out of the texts they separate. */
  ghost predicate PlainTexts(r: Rule)
  {
    && (forall p :: p in AllPorts(r.toPorts) ==> '/' !in p.port)
    && (forall h :: h in AllHTTP(r.toPorts) ==> '|' !in h.verb)
    && (forall d :: d in AllDNS(r.toPorts) || d in r.fqdns ==> '|' !in d.matchName)
    && (forall f :: f in AllFields(r.icmps) ==> '/' !in f.family)
  }

  ghost predicate Legible(r: Rule, text: LabelText)
  {
    PlainTexts(r) && AllQuiet(KeyParts(r, text))
  }

  lemma SameContentSameBags(r: Rule, q: Rule, text: LabelText)
    requires SameContent(r, q)
    ensures SameBags(PartsOf(r, text), PartsOf(q, text))
  {
    EachBag(LabelsOf(r.peer.endpoints), LabelsOf(q.peer.endpoints), LabelPart(text));
    EachBag(r.peer.cidrs, q.peer.cidrs, CIDRPart);
    EachBag(r.peer.entities, q.peer.entities, EntityPart);
    EachBag(r.fqdns, q.fqdns, NamePart);
    EachBag(AllPorts(r.toPorts), AllPorts(q.toPorts), PortPart);
    EachBag(AllHTTP(r.toPorts), AllHTTP(q.toPorts), HTTPPart);
    EachBag(AllDNS(r.toPorts), AllDNS(q.toPorts), QueryPart);
    EachBag(AllFields(r.icmps), AllFields(q.icmps), FieldPart);
  }

  lemma SamePeers(r: Rule, q: Rule, text: LabelText)
    requires SameBags(PartsOf(r, text), PartsOf(q, text))
    requires TellsApart(text, LabelsOf(r.peer.endpoints), LabelsOf(q.peer.endpoints))
    ensures multiset(LabelsOf(r.peer.endpoints)) == multiset(LabelsOf(q.peer.endpoints))
    ensures multiset(r.peer.cidrs) == multiset(q.peer.cidrs) && multiset(r.peer.entities) == multiset(q.peer.entities)
  {
    var a, b := LabelsOf(r.peer.endpoints), LabelsOf(q.peer.endpoints);
    forall x, y | x in a && y in b && LabelPart(text)(x) == LabelPart(text)(y) ensures x == y { Behind("ep:", text(x), text(y)); }
    EachBagBack(a, b, LabelPart(text));
    forall x, y | CIDRPart(x) == CIDRPart(y) ensures x == y { Behind("cidr:", x, y); }
    EachBagBack(r.peer.cidrs, q.peer.cidrs, CIDRPart);
    forall x, y | EntityPart(x) == EntityPart(y) ensures x == y { Behind("entity:", x, y); }
    EachBagBack(r.peer.entities, q.peer.entities, EntityPart);
  }

  lemma SameTraffic(r: Rule, q: Rule, text: LabelText)
    requires SameBags(PartsOf(r, text), PartsOf(q, text)) && PlainTexts(r) && PlainTexts(q)
    ensures multiset(AllPorts(r.toPorts)) == multiset(AllPorts(q.toPorts))
    ensures multiset(AllFields(r.icmps)) == multiset(AllFields(q.icmps))
  {
    forall x, y | x in AllPorts(r.toPorts) && y in AllPorts(q.toPorts) && PortPart(x) == PortPart(y) ensures x == y { PortTellsApart(x, y); }
    EachBagBack(AllPorts(r.toPorts), AllPorts(q.toPorts), PortPart);
    forall x, y | x in AllFields(r.icmps) && y in AllFields(q.icmps) && FieldPart(x) == FieldPart(y) ensures x == y { FieldTellsApart(x, y); }
    EachBagBack(AllFields(r.icmps), AllFields(q.icmps), FieldPart);
  }

  lemma SameL7(r: Rule, q: Rule, text: LabelText)
    requires SameBags(PartsOf(r, text), PartsOf(q, text)) && PlainTexts(r) && PlainTexts(q)
    ensures multiset(r.fqdns) == multiset(q.fqdns)
    ensures multiset(AllHTTP(r.toPorts)) == multiset(AllHTTP(q.toPorts)) && multiset(AllDNS(r.toPorts)) == multiset(AllDNS(q.toPorts))
  {
    forall x, y | x in AllHTTP(r.toPorts) && y in AllHTTP(q.toPorts) && HTTPPart(x) == HTTPPart(y) ensures x == y { HTTPTellsApart(x, y); }
    EachBagBack(AllHTTP(r.toPorts), AllHTTP(q.toPorts), HTTPPart);
    forall x, y | x in AllDNS(r.toPorts) && y in AllDNS(q.toPorts) && QueryPart(x) == QueryPart(y) ensures x == y { NameTellsApart(x, y); }
    EachBagBack(AllDNS(r.toPorts), AllDNS(q.toPorts), QueryPart);
    forall x, y | x in r.fqdns && y in q.fqdns && NamePart(x) == NamePart(y) ensures x == y { NameTellsApart(x, y); }
    EachBagBack(r.fqdns, q.fqdns, NamePart);
  }

  /**
   Two rules have the same sort key exactly when they have the same peer labels, CIDRs, entities, names,
   ports, L7 entries and ICMP types in some order: what differs in any of these is never left to the
   order it was read in.
   */
  lemma KeyExactly(r: Rule, q: Rule, text: LabelText)
    requires Legible(r, text) && Legible(q, text)
    requires TellsApart(text, LabelsOf(r.peer.endpoints), LabelsOf(q.peer.endpoints))
    ensures RuleKey(r, text) == RuleKey(q, text) <==> SameContent(r, q)
  {
    var a, b := PartsOf(r, text), PartsOf(q, text);
    SortedKey(KeyParts(r, text), KeyParts(q, text));
    KeyIsBracketed(r, text);
    KeyIsBracketed(q, text);
    KeyPartsBag(r, text);
    KeyPartsBag(q, text);
    PartKinds(r, text);
    PartKinds(q, text);
    BagIsKinds(a, b);
    if SameContent(r, q) { SameContentSameBags(r, q, text); }
    if SameBags(a, b) {
      SamePeers(r, q, text);
      SameTraffic(r, q, text);
      SameL7(r, q, text);
    }
  }

  lemma KeyIsBracketed(r: Rule, text: LabelText)
    ensures RuleKey(r, text) == Bracketed(Sort(KeyParts(r, text), LexLe))
  {
  }

  // ---- Order forgotten, without keys ------------------------------------------------------------

  lemma BagAdd<T>(a: seq<T>, b: seq<T>, x: seq<T>, y: seq<T>)
    requires multiset(a) == multiset(b) && multiset(x) == multiset(y)
    ensures multiset(a + x) == multiset(b + y)
  {
  }

  lemma NormalPortBags(pr: PortRule)
    ensures multiset(NormalPort(pr).ports) == multiset(pr.ports)
    ensures multiset(HTTPOf(NormalPort(pr).rules)) == multiset(HTTPOf(pr.rules))
    ensures multiset(DNSOf(NormalPort(pr).rules)) == multiset(DNSOf(pr.rules))
  {
    SortPermutes(pr.ports, PortLe);
    if pr.rules.Some? {
      SortPermutes(pr.rules.value.http, RuleLe);
      SortPermutes(pr.rules.value.dns, DNSLe);
    }
  }

  lemma {:induction false} NormalBags(prs: seq<PortRule>, qs: seq<PortRule>)
    requires |prs| == |qs| && forall i :: 0 <= i < |prs| ==> qs[i] == NormalPort(prs[i])
    ensures multiset(AllPorts(qs)) == multiset(AllPorts(prs))
    ensures multiset(AllHTTP(qs)) == multiset(AllHTTP(prs)) && multiset(AllDNS(qs)) == multiset(AllDNS(prs))
  {
    if prs != [] {
      var n := |prs| - 1;
      NormalBags(prs[..n], qs[..n]);
      NormalPortBags(prs[n]);
      BagAdd(AllPorts(qs[..n]), AllPorts(prs[..n]), qs[n].ports, prs[n].ports);
      BagAdd(AllHTTP(qs[..n]), AllHTTP(prs[..n]), HTTPOf(qs[n].rules), HTTPOf(prs[n].rules));
      BagAdd(AllDNS(qs[..n]), AllDNS(prs[..n]), DNSOf(qs[n].rules), DNSOf(prs[n].rules));
    }
  }

  lemma NormalContent(r: Rule)
    ensures SameContent(NormalRule(r), r)
  {
    NormalBags(r.toPorts, NormalRule(r).toPorts);
  }

  lemma NormalLegible(r: Rule, text: LabelText)
    requires Legible(r, text)
    ensures Legible(NormalRule(r), text)
  {
    var n := NormalRule(r);
    NormalContent(r);
    SameContentSameBags(n, r, text);
    KeyPartsBag(n, text);
    KeyPartsBag(r, text);
    SameMembers(KeyParts(n, text), KeyParts(r, text));
    SameMembers(AllPorts(n.toPorts), AllPorts(r.toPorts));
    SameMembers(AllHTTP(n.toPorts), AllHTTP(r.toPorts));
    SameMembers(AllDNS(n.toPorts), AllDNS(r.toPorts));
  }

  /** The texts of the rules can be told apart where they are joined. */
  ghost predicate Readable(rules: seq<Rule>, text: LabelText)
  {
    && (forall r :: r in rules ==> Legible(r, text))
    && (forall r, q :: r in rules && q in rules ==> TellsApart(text, LabelsOf(r.peer.endpoints), LabelsOf(q.peer.endpoints)))
  }

  /** Rules with the same content are the same up to the order of ports and L7 entries. */
  ghost predicate ContentsApart(rules: seq<Rule>)
  {
    forall i, j :: 0 <= i < j < |rules| && SameContent(rules[i], rules[j]) ==> RulesAlike(rules[i], rules[j])
  }

  lemma NormalKeyExactly(r: Rule, q: Rule, text: LabelText)
    requires Legible(r, text) && Legible(q, text)
    requires TellsApart(text, LabelsOf(r.peer.endpoints), LabelsOf(q.peer.endpoints))
    ensures RuleKey(NormalRule(r), text) == RuleKey(NormalRule(q), text) <==> SameContent(r, q)
  {
    NormalLegible(r, text);
    NormalLegible(q, text);
    NormalContent(r);
    NormalContent(q);
    KeyExactly(NormalRule(r), NormalRule(q), text);
  }

  lemma SeparateExactly(rules: seq<Rule>, text: LabelText)
    requires Readable(rules, text)
    ensures KeysSeparate(NormalEach(rules), text) <==> ContentsApart(rules)
  {
    var each := NormalEach(rules);
    forall i, j | 0 <= i < j < |rules|
      ensures RuleKey(each[i], text) == RuleKey(each[j], text) <==> SameContent(rules[i], rules[j])
      ensures each[i] == each[j] <==> RulesAlike(rules[i], rules[j])
    {
      assert rules[i] in rules && rules[j] in rules;
      NormalKeyExactly(rules[i], rules[j], text);
      NormalRuleExactly(rules[i], rules[j]);
    }
  }

  ghost predicate ContentFree(rules: seq<Rule>)
  {
    (forall r :: r in rules ==> PortsFree(r)) && ContentsApart(rules)
  }

  /**
   Every rearrangement of a policy is found equivalent to it exactly when the port rules of each rule are
   alike, DNS entries of a port have different names, and no two different rules have the same content.
   */
  lemma OrderForgottenByContent(a: Policy, text: LabelText)
    requires a.spec.Some? && Readable(a.spec.value.ingress, text) && Readable(a.spec.value.egress, text)
    ensures (forall b :: Rearranged(a, b) ==> Equivalent(a, b, text)) <==>
            ContentFree(a.spec.value.ingress) && ContentFree(a.spec.value.egress)
  {
    OrderForgottenIff(a, text);
    SeparateExactly(a.spec.value.ingress, text);
    SeparateExactly(a.spec.value.egress, text);
  }

  // ---- Policies without L7 rules ----------------------------------------------------------------

  /** At most one label set, CIDR and entity, and no match expressions. */
  predicate SimplePeer(p: Peer)
  {
    && |p.endpoints| <= 1 && |p.cidrs| <= 1 && |p.entities| <= 1
    && forall i :: 0 <= i < |p.endpoints| ==> p.endpoints[i].exprs == []
  }

  /** One list of ports, or one list of ICMP types, for a simple peer. */
  predicate PlainRule(r: Rule)
  {
    && SimplePeer(r.peer) && r.fqdns == []
    && if r.icmps == [] then |r.toPorts| == 1 && r.toPorts[0].rules == Option.None && r.toPorts[0].ports != []
       else r.toPorts == [] && |r.icmps| == 1 && r.icmps[0] != []
  }

  /** No two rules for one peer, but for one with ports and one with ICMP types. */
  ghost predicate PlainList(rules: seq<Rule>)
  {
    && (forall r :: r in rules ==> PlainRule(r))
    && (forall i, j :: 0 <= i < j < |rules| && rules[i].peer == rules[j].peer ==> (rules[i].icmps == []) != (rules[j].icmps == []))
  }

  lemma SingleBag<T>(s: seq<T>, t: seq<T>)
    requires multiset(s) == multiset(t) && |s| <= 1 && |t| <= 1
    ensures s == t
  {
    SameMembers(s, t);
    if |s| == 1 { assert s[0] in t; }
  }

  lemma SimplePeerSame(p: Peer, q: Peer)
    requires SimplePeer(p) && SimplePeer(q)
    requires multiset(LabelsOf(p.endpoints)) == multiset(LabelsOf(q.endpoints))
    requires multiset(p.cidrs) == multiset(q.cidrs) && multiset(p.entities) == multiset(q.entities)
    ensures p == q
  {
    SingleBag(LabelsOf(p.endpoints), LabelsOf(q.endpoints));
    SingleBag(p.cidrs, q.cidrs);
    SingleBag(p.entities, q.entities);
    if |p.endpoints| == 1 {
      assert LabelsOf(p.endpoints)[0] == LabelsOf(q.endpoints)[0];
      assert p.endpoints[0] == q.endpoints[0];
    }
  }

  lemma PlainPorts(r: Rule)
    requires PlainRule(r)
    ensures r.icmps == [] ==> AllPorts(r.toPorts) == r.toPorts[0].ports && AllFields(r.icmps) == []
    ensures r.icmps != [] ==> AllPorts(r.toPorts) == [] && AllFields(r.icmps) == r.icmps[0]
    ensures AllHTTP(r.toPorts) == [] && AllDNS(r.toPorts) == []
  {
    if r.icmps == [] {
      assert r.toPorts[..0] == [];
      assert AllPorts([]) == [];
    } else {
      assert r.icmps[..0] == [];
      assert AllFields([]) == [];
    }
  }

  lemma PlainFree(rules: seq<Rule>)
    requires PlainList(rules)
    ensures ContentFree(rules)
  {
    forall i, j | 0 <= i < j < |rules| ensures !SameContent(rules[i], rules[j]) {
      assert rules[i] in rules && rules[j] in rules;
      if SameContent(rules[i], rules[j]) {
        PlainPorts(rules[i]);
        PlainPorts(rules[j]);
        SameMembers(AllPorts(rules[i].toPorts), AllPorts(rules[j].toPorts));
        SimplePeerSame(rules[i].peer, rules[j].peer);
      }
    }
    forall r | r in rules ensures PortsFree(r) {}
  }

  /** The labels of the peers are told apart by their text, and addresses and entities hold no blank. */
  ghost predicate PeersReadable(rules: seq<Rule>, text: LabelText)
  {
    && (forall r, s :: r in rules && s in r.peer.endpoints ==> Quiet("ep:" + text(s.labels)))
    && (forall r, q :: r in rules && q in rules ==> TellsApart(text, LabelsOf(r.peer.endpoints), LabelsOf(q.peer.endpoints)))
    && (forall r, x :: r in rules && (x in r.peer.cidrs || x in r.peer.entities) ==> ' ' !in x)
  }

  lemma BlankFreeQuiet(part: string)
    requires ' ' !in part && Opener(part)
    ensures Quiet(part)
  {
    SplitAtSeparator(part, "", ' ');
  }

  /** Ports and ICMP types as a build writes them. */
  ghost predicate WrittenTraffic(r: Rule)
  {
    && (forall p :: p in AllPorts(r.toPorts) ==> p.proto in {"TCP", "UDP"} && exists n: nat :: p.port == Decimal(n))
    && (forall f :: f in AllFields(r.icmps) ==> f.family in {"IPv4", "IPv6"} && f.typ.Some?)
  }

  lemma DecimalPlain(n: nat)
    ensures ' ' !in Decimal(n) && '/' !in Decimal(n)
  {
    DecimalIsNumeral(n);
  }

  lemma PortQuiet(p: PortProto)
    requires p.proto in {"TCP", "UDP"} && exists n: nat :: p.port == Decimal(n)
    ensures '/' !in p.port && Quiet(PortPart(p))
  {
    var n: nat :| p.port == Decimal(n);
    DecimalPlain(n);
    assert PREFIXES[4] <= PortPart(p);
    BlankFreeQuiet(PortPart(p));
  }

  lemma FieldQuiet(f: ICMPField)
    requires f.family in {"IPv4", "IPv6"} && f.typ.Some?
    ensures '/' !in f.family && Quiet(FieldPart(f))
  {
    DecimalPlain(if f.typ.value < 0 then -f.typ.value else f.typ.value);
    assert PREFIXES[7] <= FieldPart(f);
    BlankFreeQuiet(FieldPart(f));
  }

  lemma PeerPartQuiet(x: string)
    requires ' ' !in x
    ensures Quiet(CIDRPart(x)) && Quiet(EntityPart(x))
  {
    assert PREFIXES[1] <= CIDRPart(x) && PREFIXES[2] <= EntityPart(x);
    BlankFreeQuiet(CIDRPart(x));
    BlankFreeQuiet(EntityPart(x));
  }

  lemma EachQuiet<T(!new)>(s: seq<T>, f: T -> string)
    requires forall x :: x in s ==> Quiet(f(x))
    ensures AllQuiet(Each(s, f))
  {
    forall y | y in Each(s, f) ensures Quiet(y) {
      var i :| 0 <= i < |s| && Each(s, f)[i] == y;
      assert s[i] in s;
    }
  }

  lemma BagQuiet(p: Parts, parts: seq<string>)
    requires multiset(parts) == Bag(p)
    requires AllQuiet(p.labels) && AllQuiet(p.cidrs) && AllQuiet(p.entities) && AllQuiet(p.names)
    requires AllQuiet(p.ports) && AllQuiet(p.http) && AllQuiet(p.queries) && AllQuiet(p.fields)
    ensures AllQuiet(parts)
  {
    forall x | x in parts ensures Quiet(x) {
      assert x in multiset(parts);
      assert x in Bag(p);
    }
  }

  lemma PlainLegible(r: Rule, rules: seq<Rule>, text: LabelText)
    requires PlainRule(r) && WrittenTraffic(r) && r in rules && PeersReadable(rules, text)
    ensures Legible(r, text)
  {
    PlainPorts(r);
    var p := PartsOf(r, text);
    forall m | m in LabelsOf(r.peer.endpoints) ensures Quiet(LabelPart(text)(m)) {
      var i :| 0 <= i < |r.peer.endpoints| && LabelsOf(r.peer.endpoints)[i] == m;
      assert r.peer.endpoints[i] in r.peer.endpoints;
    }
    EachQuiet(LabelsOf(r.peer.endpoints), LabelPart(text));
    forall x | x in r.peer.cidrs || x in r.peer.entities ensures Quiet(CIDRPart(x)) && Quiet(EntityPart(x)) { PeerPartQuiet(x); }
    EachQuiet(r.peer.cidrs, CIDRPart);
    EachQuiet(r.peer.entities, EntityPart);
    forall q | q in AllPorts(r.toPorts) ensures '/' !in q.port && Quiet(PortPart(q)) { PortQuiet(q); }
    EachQuiet(AllPorts(r.toPorts), PortPart);
    forall f | f in AllFields(r.icmps) ensures '/' !in f.family && Quiet(FieldPart(f)) { FieldQuiet(f); }
    EachQuiet(AllFields(r.icmps), FieldPart);
    KeyPartsBag(r, text);
    BagQuiet(p, KeyParts(r, text));
  }

  lemma PlainReadable(rules: seq<Rule>, text: LabelText)
    requires PlainList(rules) && PeersReadable(rules, text) && forall r :: r in rules ==> WrittenTraffic(r)
    ensures Readable(rules, text)
  {
    forall r | r in rules ensures Legible(r, text) { PlainLegible(r, rules, text); }
  }

  /** Simple rules, one per peer, or one with ports and one with ICMP types: their order is never seen. */
  lemma PlainOrderForgotten(a: Policy, b: Policy, text: LabelText)
    requires Rearranged(a, b)
    requires forall rules :: rules == a.spec.value.ingress || rules == a.spec.value.egress ==>
               PlainList(rules) && PeersReadable(rules, text) && forall r :: r in rules ==> WrittenTraffic(r)
    ensures Equivalent(a, b, text)
  {
    PlainReadable(a.spec.value.ingress, text);
    PlainReadable(a.spec.value.egress, text);
    PlainFree(a.spec.value.ingress);
    PlainFree(a.spec.value.egress);
    OrderForgottenByContent(a, text);
  }
}
