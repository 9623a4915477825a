/**
 The collapse algorithm of pkg/policy/l7_collapse.go in its own form: position analysis over the
 sorted group, clusters keyed by a joined signature in first-seen order, and the emission loop. It
 is proved to emit one rule for each path that RuleFor makes a literal and one for the head of
 each template cluster, and nothing else.
 */
module CollapseEngine {
  import opened Text
  import opened Sorting
  import opened Segments
  import opened Regex
  import opened Collapse
  import opened PolicyTypes

  ghost predicate NoDup<T>(s: seq<T>)
  {
    forall i, j :: 0 <= i < j < |s| ==> s[i] != s[j]
  }

  ghost function Elems<T>(s: seq<T>): set<T>
  {
    set x | x in s
  }

  /** The paths that emit a rule: every literal one, and the head of every template cluster. */
  ghost predicate IsEmitter(g: set<string>, p: string, minDistinct: int)
  {
    p in g && (IsTemplate(g, p, minDistinct) ==> p == Head(g, p))
  }

  lemma {:induction false} NoDupCard<T>(s: seq<T>)
    requires NoDup(s)
    ensures |Elems(s)| == |s|
  {
    if s != [] {
      var front, last := s[..|s| - 1], s[|s| - 1];
      NoDupCard(front);
      assert Elems(s) == Elems(front) + {last};
      assert last !in front;
    }
  }

  lemma ElemsAppend<T>(s: seq<T>, x: T)
    ensures Elems(s + [x]) == Elems(s) + {x}
  {
  }

  lemma {:induction false} CardNoDup<T>(s: seq<T>, t: seq<T>)
    requires NoDup(s) && multiset(s) == multiset(t)
    ensures NoDup(t)
  {
    forall i, j | 0 <= i < j < |t| ensures t[i] != t[j] {
      if t[i] == t[j] {
        assert t == t[..i] + [t[i]] + t[i + 1..j] + [t[j]] + t[j + 1..];
        assert multiset(t)[t[i]] >= 2;
        NoDupCount(s, t[i]);
      }
    }
  }

  lemma {:induction false} NoDupCount<T>(s: seq<T>, x: T)
    requires NoDup(s)
    ensures multiset(s)[x] <= 1
  {
    if s != [] {
      var front, last := s[..|s| - 1], s[|s| - 1];
      NoDupCount(front, x);
      assert s == front + [last];
      assert last !in front;
      assert last !in multiset(front);
    }
  }

  /** The members of a sorted path list that carry a signature. */
  ghost function WithSignature(g: set<string>, paths: seq<string>, sig: string): seq<string>
  {
    if paths == [] then []
    else
      var last := paths[|paths| - 1];
      WithSignature(g, paths[..|paths| - 1], sig) + (if Signature(g, last) == sig then [last] else [])
  }

  lemma {:induction false} WithSignatureMembers(g: set<string>, paths: seq<string>, sig: string)
    ensures forall x :: x in WithSignature(g, paths, sig) <==> x in paths && Signature(g, x) == sig
    ensures NoDup(paths) ==> NoDup(WithSignature(g, paths, sig))
    ensures Sorted(paths, LexLe) ==> Sorted(WithSignature(g, paths, sig), LexLe)
  {
    if paths != [] {
      var front, last := paths[..|paths| - 1], paths[|paths| - 1];
      WithSignatureMembers(g, front, sig);
      assert paths == front + [last];
      var r := WithSignature(g, front, sig);
      assert forall i :: 0 <= i < |r| ==> r[i] in front;
      if Signature(g, last) == sig {
        LastAppended(r, front, last);
      }
    }
  }

  /** Appending the last element to a sub-run of the front. */
  lemma LastAppended(r: seq<string>, front: seq<string>, last: string)
    requires forall x :: x in r ==> x in front
    ensures NoDup(front + [last]) && NoDup(r) ==> NoDup(r + [last])
    ensures Sorted(front + [last], LexLe) && Sorted(r, LexLe) ==> Sorted(r + [last], LexLe)
  {
    var all := front + [last];
    forall i | 0 <= i < |r|
      ensures (NoDup(all) ==> r[i] != last) && (Sorted(all, LexLe) ==> LexLe(r[i], last))
    {
      assert r[i] in front;
      var j :| 0 <= j < |front| && front[j] == r[i];
      assert all[j] == r[i] && all[|front|] == last;
    }
  }

  lemma LexOrder()
    ensures TotalPreorder(LexLe)
  {
    forall x, y ensures LexLe(x, y) || LexLe(y, x) { LexTotal(x, y); }
    forall x, y, z | LexLe(x, y) && LexLe(y, z) ensures LexLe(x, z) { LexTransitive(x, y, z); }
  }

  /** A first-come cluster is the spec's cluster, and its first path is the head. */
  lemma ClusterIsCollected(g: set<string>, paths: seq<string>, p: string)
    requires NoDup(paths) && Elems(paths) == g && Sorted(paths, LexLe) && p in g
    ensures var ms := WithSignature(g, paths, Signature(g, p));
            && Elems(ms) == Cluster(g, p) && NoDup(ms) && |ms| == |Cluster(g, p)|
            && |ms| > 0 && ms[0] == Head(g, p)
  {
    var ms := WithSignature(g, paths, Signature(g, p));
    WithSignatureMembers(g, paths, Signature(g, p));
    NoDupCard(ms);
    assert Elems(ms) == Cluster(g, p);
    assert p in Elems(ms);
    forall y | y in Cluster(g, p) ensures LexLe(ms[0], y) {
      var k :| 0 <= k < |ms| && ms[k] == y;
      LexTotal(y, y);
    }
    assert IsLeast(Cluster(g, p), ms[0]);
    LeastUnique(Cluster(g, p), ms[0], Head(g, p));
  }

  /** The rules in out are exactly the rules of the emitters, one each, in some order. */
  ghost predicate Emits(out: seq<HTTPRule>, emitters: seq<string>, verb: string, g: set<string>, minDistinct: int)
  {
    && |out| == |emitters|
    && (forall i :: 0 <= i < |out| ==> emitters[i] in g && out[i] == HTTPRule(verb, RuleIn(g, emitters[i], minDistinct)))
  }

  datatype ClusterRec = ClusterRec(pattern: string, paths: seq<string>)

  lemma TwoValues(values: set<string>, g: set<string>, pos: nat, first: string)
    requires first in g && (forall p :: p in g ==> pos < |SegsOf(p)|)
    requires values == (set p | p in g :: SegsOf(p)[pos])
    ensures |values| >= 2 <==> exists p, q :: p in g && q in g && Differ(p, q, pos)
  {
    var v := SegsOf(first)[pos];
    assert v in values;
    if |values| >= 2 {
      assert |values - {v}| >= 1;
      var w :| w in values - {v};
      var q :| q in g && SegsOf(q)[pos] == w;
      assert Differ(first, q, pos);
    }
    if exists p, q :: p in g && q in g && Differ(p, q, pos) {
      var p, q :| p in g && q in g && Differ(p, q, pos);
      var two := {SegsOf(p)[pos], SegsOf(q)[pos]};
      assert two <= values;
      SubsetCard(two, values);
    }
  }

  lemma {:induction false} SubsetCard<T>(a: set<T>, b: set<T>)
    requires a <= b
    ensures |a| <= |b|
  {
    assert b == a + (b - a);
  }

  /** Whether a position generalizes, decided from its distinct values and their classes. */
  method DecidePosition(paths: seq<string>, segs: seq<seq<string>>, pos: nat, ghost g: set<string>)
    returns (isClass: bool)
    requires |paths| >= 1 && Elems(paths) == g
    requires |segs| == |paths| && forall i :: 0 <= i < |paths| ==> segs[i] == SegsOf(paths[i])
    requires forall i :: 0 <= i < |paths| ==> pos < |SegsOf(paths[i])|
    ensures isClass == ClassPosition(g, pos, Classify(SegsOf(paths[0])[pos]))
  {
    var values := DistinctValues(paths, segs, pos);
    ValuesOfGroup(paths, pos, g, values);
    TwoValues(values, g, pos, paths[0]);
    if |values| < 2 {
      return false;
    }
    var cls := Classify(segs[0][pos]);
    if !Generalizable(cls) {
      return false;
    }
    isClass := forall v :: v in values ==> Classify(v) == cls;
    HomogeneousValues(g, pos, values, cls);
  }

  lemma HomogeneousValues(g: set<string>, pos: nat, values: set<string>, cls: SegmentClass)
    requires forall p :: p in g ==> pos < |SegsOf(p)|
    requires values == set p | p in g :: SegsOf(p)[pos]
    requires Generalizable(cls) && exists p, q :: p in g && q in g && Differ(p, q, pos)
    ensures (forall v :: v in values ==> Classify(v) == cls) <==> ClassPosition(g, pos, cls)
  {
    if forall v :: v in values ==> Classify(v) == cls {
      assert forall p :: p in g ==> SegsOf(p)[pos] in values;
    }
  }

  method DistinctValues(paths: seq<string>, segs: seq<seq<string>>, pos: nat) returns (values: set<string>)
    requires |segs| == |paths| && forall i :: 0 <= i < |paths| ==> segs[i] == SegsOf(paths[i])
    requires forall i :: 0 <= i < |paths| ==> pos < |SegsOf(paths[i])|
    ensures values == set i | 0 <= i < |paths| :: SegsOf(paths[i])[pos]
  {
    values := {};
    for k := 0 to |segs|
      invariant values == set i | 0 <= i < k :: SegsOf(paths[i])[pos]
    {
      values := values + {segs[k][pos]};
    }
  }

  lemma ValuesOfGroup(paths: seq<string>, pos: nat, g: set<string>, values: set<string>)
    requires Elems(paths) == g && |paths| >= 1
    requires forall i :: 0 <= i < |paths| ==> pos < |SegsOf(paths[i])|
    requires values == set i | 0 <= i < |paths| :: SegsOf(paths[i])[pos]
    ensures paths[0] in g && (forall p :: p in g ==> pos < |SegsOf(p)|)
    ensures values == set p | p in g :: SegsOf(p)[pos]
  {
    forall i | 0 <= i < |paths| ensures paths[i] in g {}
    forall p | p in g ensures pos < |SegsOf(p)| && SegsOf(p)[pos] in values {
      var i :| 0 <= i < |paths| && paths[i] == p;
    }
  }

  /** Position analysis: one class flag and fragment per segment position. */
  method AnalysePositions(paths: seq<string>, segs: seq<seq<string>>, ghost g: set<string>)
    returns (classAt: array<bool>, classFrag: array<string>)
    requires |paths| >= 1 && Elems(paths) == g && Uniform(g)
    requires |segs| == |paths| && forall i :: 0 <= i < |paths| ==> segs[i] == SegsOf(paths[i])
    ensures fresh(classAt) && fresh(classFrag)
    ensures classAt.Length == classFrag.Length == |SegsOf(paths[0])|
    ensures forall j :: 0 <= j < classAt.Length ==>
              var c := Classify(SegsOf(paths[0])[j]);
              && classAt[j] == ClassPosition(g, j, c)
              && (classAt[j] ==> classFrag[j] == Fragment(c))
  {
    var numSegs := |segs[0]|;
    classAt := new bool[numSegs](_ => false);
    classFrag := new string[numSegs](_ => "");
    forall i | 0 <= i < |paths| ensures |SegsOf(paths[i])| == numSegs {
      assert paths[i] in g && paths[0] in g;
    }
    for pos := 0 to numSegs
      invariant forall j :: 0 <= j < pos ==>
                  var c := Classify(SegsOf(paths[0])[j]);
                  && classAt[j] == ClassPosition(g, j, c)
                  && (classAt[j] ==> classFrag[j] == Fragment(c))
    {
      var isClass := DecidePosition(paths, segs, pos, g);
      classAt[pos] := isClass;
      if isClass {
        classFrag[pos] := Fragment(Classify(segs[0][pos]));
      }
    }
  }

  ghost predicate RecordOf(rec: ClusterRec, g: set<string>, done: seq<string>, sig: string)
  {
    && rec.paths == WithSignature(g, done, sig) && rec.paths != []
    && rec.pattern == TemplateText(Shape(g, rec.paths[0]))
  }

  /** The clusters gathered so far: first-come order, each with the members seen so far. */
  ghost predicate Clustered(clusters: map<string, ClusterRec>, order: seq<string>, g: set<string>, done: seq<string>)
  {
    && NoDup(order)
    && (forall sig :: sig in order <==> sig in clusters)
    && (forall sig :: sig in clusters ==> RecordOf(clusters[sig], g, done, sig))
    && (forall p :: p in done ==> Signature(g, p) in clusters)
  }

  lemma {:induction false} WithSignatureAbsent(g: set<string>, done: seq<string>, sig: string)
    requires forall p :: p in done ==> Signature(g, p) != sig
    ensures WithSignature(g, done, sig) == []
  {
    if done != [] { WithSignatureAbsent(g, done[..|done| - 1], sig); }
  }

  lemma ClusteredStep(clusters: map<string, ClusterRec>, order: seq<string>, g: set<string>,
                      done: seq<string>, p: string, clusters': map<string, ClusterRec>, order': seq<string>)
    requires Clustered(clusters, order, g, done)
    requires var sig := Signature(g, p);
             if sig in clusters
             then clusters' == clusters[sig := clusters[sig].(paths := clusters[sig].paths + [p])] && order' == order
             else clusters' == clusters[sig := ClusterRec(TemplateText(Shape(g, p)), [p])] && order' == order + [sig]
    ensures Clustered(clusters', order', g, done + [p])
  {
    var sig := Signature(g, p);
    var done' := done + [p];
    if sig !in clusters {
      WithSignatureAbsent(g, done, sig);
      assert forall x :: x in order' <==> x in order || x == sig;
    }
    forall x | x in clusters' ensures RecordOf(clusters'[x], g, done', x) {
      OneMoreSigned(g, done, p, x);
      if x != sig { assert RecordOf(clusters[x], g, done, x); }
    }
    forall q | q in done' ensures Signature(g, q) in clusters' {
      if q != p { assert q in done; }
    }
  }

  lemma OneMoreSigned(g: set<string>, done: seq<string>, p: string, x: string)
    ensures WithSignature(g, done + [p], x) == WithSignature(g, done, x) + (if Signature(g, p) == x then [p] else [])
  {
    assert (done + [p])[..|done|] == done;
  }

  method GatherClusters(paths: seq<string>, segs: seq<seq<string>>, classAt: array<bool>, classFrag: array<string>, ghost g: set<string>)
    returns (clusters: map<string, ClusterRec>, order: seq<string>)
    requires |paths| >= 1 && Elems(paths) == g && Uniform(g)
    requires |segs| == |paths| && forall i :: 0 <= i < |paths| ==> segs[i] == SegsOf(paths[i])
    requires classAt.Length == classFrag.Length == |SegsOf(paths[0])|
    requires forall j :: 0 <= j < classAt.Length ==>
               var c := Classify(SegsOf(paths[0])[j]);
               && classAt[j] == ClassPosition(g, j, c)
               && (classAt[j] ==> classFrag[j] == Fragment(c))
    ensures Clustered(clusters, order, g, paths)
  {
    clusters, order := map[], [];
    var flags, frags := classAt[..], classFrag[..];
    for i := 0 to |paths|
      invariant Clustered(clusters, order, g, paths[..i])
    {
      assert paths[0] in g && paths[i] in g;
      var litSegs := seq(|flags|, pos requires 0 <= pos < |flags| =>
        if flags[pos] then frags[pos] else QuoteMeta(segs[i][pos]));
      LitSegsAreTexts(g, paths[0], paths[i], litSegs, flags, frags);
      clusters, order := PlacePath(clusters, order, litSegs, paths[i], g, paths[..i]);
      assert paths[..i + 1] == paths[..i] + [paths[i]];
    }
    assert paths[..|paths|] == paths;
  }

  /** Add a path to the cluster of its signature, opening the cluster on the first member. */
  method PlacePath(clusters: map<string, ClusterRec>, order: seq<string>, litSegs: seq<string>, p: string,
                   ghost g: set<string>, ghost done: seq<string>)
    returns (clusters': map<string, ClusterRec>, order': seq<string>)
    requires Clustered(clusters, order, g, done) && litSegs == Texts(Shape(g, p))
    ensures Clustered(clusters', order', g, done + [p])
  {
    var pattern := "^/" + Join(litSegs, '/') + "$";
    var sig := Join(litSegs, NUL);
    clusters', order' := clusters, order;
    if sig !in clusters' {
      clusters' := clusters'[sig := ClusterRec(pattern, [])];
      order' := order' + [sig];
      assert [] + [p] == [p];
    }
    clusters' := clusters'[sig := clusters'[sig].(paths := clusters'[sig].paths + [p])];
    ClusteredStep(clusters, order, g, done, p, clusters', order');
  }

  /** The quoted and generalized segments of a path are the texts of its shape. */
  lemma LitSegsAreTexts(g: set<string>, first: string, p: string, litSegs: seq<string>, classAt: seq<bool>, classFrag: seq<string>)
    requires Uniform(g) && first in g && p in g
    requires |classAt| == |classFrag| == |litSegs| == |SegsOf(first)|
    requires forall j :: 0 <= j < |classAt| ==>
               var c := Classify(SegsOf(first)[j]);
               classAt[j] == ClassPosition(g, j, c) && (classAt[j] ==> classFrag[j] == Fragment(c))
    requires forall j :: 0 <= j < |classAt| ==>
               litSegs[j] == if classAt[j] then classFrag[j] else QuoteMeta(SegsOf(p)[j])
    ensures litSegs == Texts(Shape(g, p))
  {
    forall j | 0 <= j < |litSegs| ensures litSegs[j] == SlotText(SlotAt(g, p, j)) {
      var c, d := Classify(SegsOf(first)[j]), Classify(SegsOf(p)[j]);
      if ClassPosition(g, j, c) || ClassPosition(g, j, d) { assert c == d; }
    }
  }

  /** The emitters with a signature among the first k of order. */
  ghost predicate EmittedSoFar(emitters: seq<string>, order: seq<string>, k: nat, g: set<string>, minDistinct: int)
    requires k <= |order|
  {
    && NoDup(emitters)
    && forall x :: x in emitters <==> (x in g && IsEmitter(g, x, minDistinct) && Signature(g, x) in order[..k])
  }

  /** Emitting one cluster adds its emitters and their rules. */
  lemma EmitCluster(emitters: seq<string>, more: seq<string>, order: seq<string>, k: nat, g: set<string>, minDistinct: int)
    requires k < |order| && NoDup(order) && EmittedSoFar(emitters, order, k, g, minDistinct)
    requires NoDup(more)
    requires forall x :: x in more <==> (x in g && IsEmitter(g, x, minDistinct) && Signature(g, x) == order[k])
    ensures EmittedSoFar(emitters + more, order, k + 1, g, minDistinct)
  {
    assert order[..k + 1] == order[..k] + [order[k]];
    assert order[k] !in order[..k];
    var all := emitters + more;
    forall i, j | 0 <= i < j < |all| ensures all[i] != all[j] {
      if i < |emitters| <= j {
        assert all[i] in emitters && all[j] in more;
      }
    }
  }

  lemma EmitsAppend(out: seq<HTTPRule>, emitters: seq<string>, add: seq<HTTPRule>, more: seq<string>, verb: string, g: set<string>, minDistinct: int)
    requires Emits(out, emitters, verb, g, minDistinct) && Emits(add, more, verb, g, minDistinct)
    ensures Emits(out + add, emitters + more, verb, g, minDistinct)
  {
  }

  /** All members of a template cluster share the decision; its only emitter is the head. */
  lemma ClusterEmitters(g: set<string>, ms: seq<string>, p: string, minDistinct: int)
    requires Uniform(g) && p in g && Elems(ms) == Cluster(g, p) && |ms| > 0 && ms[0] == Head(g, p)
    ensures IsTemplate(g, p, minDistinct) ==>
              IsEmitter(g, ms[0], minDistinct)
              && (forall x :: x in ms && x != ms[0] ==> !IsEmitter(g, x, minDistinct))
              && RuleIn(g, ms[0], minDistinct) == ClusterPattern(g, p)
    ensures !IsTemplate(g, p, minDistinct) ==>
              forall x :: x in ms ==> IsEmitter(g, x, minDistinct) && RuleIn(g, x, minDistinct) == LiteralRule(x)
  {
    forall x | x in ms
      ensures x in g && (IsTemplate(g, x, minDistinct) <==> IsTemplate(g, p, minDistinct)) && Head(g, x) == ms[0]
    {
      assert x in Elems(ms);
      SameClusterSameRule(g, p, x, minDistinct);
    }
    assert ms[0] in ms;
  }

  lemma TemplateEmits(verb: string, ms: seq<string>, g: set<string>, p: string, minDistinct: int)
    requires Uniform(g) && p in g && IsTemplate(g, p, minDistinct)
    requires Elems(ms) == Cluster(g, p) && |ms| > 0 && ms[0] == Head(g, p)
    ensures Emits([HTTPRule(verb, ClusterPattern(g, p))], [ms[0]], verb, g, minDistinct)
    ensures forall x :: x in [ms[0]] <==> x in Cluster(g, p) && IsEmitter(g, x, minDistinct)
  {
    ClusterEmitters(g, ms, p, minDistinct);
    assert ms[0] in ms;
    assert forall x :: x in Cluster(g, p) <==> x in Elems(ms);
  }

  lemma LiteralsEmit(verb: string, ms: seq<string>, add: seq<HTTPRule>, g: set<string>, p: string, minDistinct: int)
    requires Uniform(g) && p in g && !IsTemplate(g, p, minDistinct)
    requires Elems(ms) == Cluster(g, p) && |ms| > 0 && ms[0] == Head(g, p)
    requires |add| == |ms| && forall j :: 0 <= j < |ms| ==> add[j] == HTTPRule(verb, LiteralRule(ms[j]))
    ensures Emits(add, ms, verb, g, minDistinct)
    ensures forall x :: x in ms <==> x in Cluster(g, p) && IsEmitter(g, x, minDistinct)
  {
    ClusterEmitters(g, ms, p, minDistinct);
    assert forall x :: x in Cluster(g, p) <==> x in Elems(ms);
    assert forall i :: 0 <= i < |add| ==> ms[i] in ms;
  }

  method EmitLiterals(verb: string, paths: seq<string>) returns (add: seq<HTTPRule>)
    ensures |add| == |paths| && forall j :: 0 <= j < |paths| ==> add[j] == HTTPRule(verb, LiteralRule(paths[j]))
  {
    add := [];
    for i := 0 to |paths|
      invariant |add| == i && forall j :: 0 <= j < i ==> add[j] == HTTPRule(verb, LiteralRule(paths[j]))
    {
      add := add + [HTTPRule(verb, LiteralRule(paths[i]))];
    }
  }

  /** One emission step: the template of a cluster that passes the gate, else its literal rules. */
  method EmitOne(verb: string, rec: ClusterRec, minDistinct: int, ghost g: set<string>, ghost p: string)
    returns (add: seq<HTTPRule>, ghost more: seq<string>)
    requires Uniform(g) && p in g && HasClass(g, p)
    requires Elems(rec.paths) == Cluster(g, p) && NoDup(rec.paths) && |rec.paths| == |Cluster(g, p)|
    requires |rec.paths| > 0 && rec.paths[0] == Head(g, p) && rec.pattern == ClusterPattern(g, p)
    ensures Emits(add, more, verb, g, minDistinct) && NoDup(more)
    ensures forall x :: x in more <==> x in Cluster(g, p) && IsEmitter(g, x, minDistinct)
  {
    if |rec.paths| >= minDistinct && |rec.pattern| <= MAX_PATTERN_LEN {
      TemplateEmits(verb, rec.paths, g, p, minDistinct);
      return [HTTPRule(verb, rec.pattern)], [rec.paths[0]];
    }
    add := EmitLiterals(verb, rec.paths);
    more := rec.paths;
    LiteralsEmit(verb, rec.paths, add, g, p, minDistinct);
  }

  method EmitClusters(verb: string, clusters: map<string, ClusterRec>, order: seq<string>, minDistinct: int,
                      ghost g: set<string>, ghost paths: seq<string>)
    returns (out: seq<HTTPRule>, ghost emitters: seq<string>)
    requires Clustered(clusters, order, g, paths)
    requires NoDup(paths) && Elems(paths) == g && Sorted(paths, LexLe) && Uniform(g)
    requires forall p :: p in g ==> HasClass(g, p)
    ensures Emits(out, emitters, verb, g, minDistinct) && NoDup(emitters)
    ensures forall x :: x in emitters <==> IsEmitter(g, x, minDistinct)
  {
    out, emitters := [], [];
    for k := 0 to |order|
      invariant Emits(out, emitters, verb, g, minDistinct)
      invariant EmittedSoFar(emitters, order, k, g, minDistinct)
    {
      var rec := clusters[order[k]];
      ghost var p := rec.paths[0];
      WithSignatureMembers(g, paths, order[k]);
      assert p in paths && p in g && Signature(g, p) == order[k];
      ClusterIsCollected(g, paths, p);
      ghost var h := rec.paths[0];
      var add, more := EmitOne(verb, rec, minDistinct, g, p);
      EmitCluster(emitters, more, order, k, g, minDistinct);
      EmitsAppend(out, emitters, add, more, verb, g, minDistinct);
      out, emitters := out + add, emitters + more;
    }
    forall x | IsEmitter(g, x, minDistinct) ensures x in emitters {
      assert x in paths;
      assert order[..|order|] == order;
    }
  }

  method CollapseSegmentCountGroup(verb: string, groupPaths: seq<string>, minDistinct: int)
    returns (out: seq<HTTPRule>, ghost emitters: seq<string>)
    requires |groupPaths| >= 1 && NoDup(groupPaths) && Uniform(Elems(groupPaths))
    ensures Emits(out, emitters, verb, Elems(groupPaths), minDistinct) && NoDup(emitters)
    ensures forall x :: x in emitters <==> IsEmitter(Elems(groupPaths), x, minDistinct)
  {
    var paths := Sort(groupPaths, LexLe);
    ghost var g := Elems(groupPaths);
    SortPermutes(groupPaths, LexLe);
    LexOrder();
    SortSorts(groupPaths, LexLe);
    CardNoDup(groupPaths, paths);
    assert Elems(paths) == g;
    var segs := seq(|paths|, i requires 0 <= i < |paths| => SegsOf(paths[i]));
    var classAt, classFrag := AnalysePositions(paths, segs, g);
    var hasClassPos := exists pos :: 0 <= pos < classAt.Length && classAt[pos];
    assert paths[0] in g;
    HasClassFromFlags(g, paths[0], classAt[..]);
    if !hasClassPos {
      out := seq(|paths|, i requires 0 <= i < |paths| => HTTPRule(verb, LiteralRule(paths[i])));
      emitters := paths;
      assert forall p :: p in g ==> !HasClass(g, p);
      return;
    }
    var clusters, order := GatherClusters(paths, segs, classAt, classFrag, g);
    out, emitters := EmitClusters(verb, clusters, order, minDistinct, g, paths);
  }

  lemma HasClassFromFlags(g: set<string>, first: string, classAt: seq<bool>)
    requires Uniform(g) && first in g && |classAt| == |SegsOf(first)|
    requires forall j :: 0 <= j < |classAt| ==> classAt[j] == ClassPosition(g, j, Classify(SegsOf(first)[j]))
    ensures forall p :: p in g ==> (HasClass(g, p) <==> exists pos :: 0 <= pos < |classAt| && classAt[pos])
  {
    forall p | p in g ensures HasClass(g, p) <==> exists pos :: 0 <= pos < |classAt| && classAt[pos] {
      if pos :| 0 <= pos < |classAt| && classAt[pos] {
        assert SlotAt(g, p, pos).Class?;
      }
      if HasClass(g, p) {
        var pos :| 0 <= pos < |SegsOf(p)| && SlotAt(g, p, pos).Class?;
        assert Classify(SegsOf(first)[pos]) == Classify(SegsOf(p)[pos]);
        assert classAt[pos];
      }
    }
  }

  // ---- One method, then all methods -------------------------------------------------------

  ghost predicate IsEmitterOf(s: set<string>, p: string, minDistinct: int)
  {
    p in s && IsEmitter(Group(s, |SegsOf(p)|), p, minDistinct)
  }

  ghost predicate MethodEmits(out: seq<HTTPRule>, emitters: seq<string>, verb: string, s: set<string>, minDistinct: int)
  {
    && |out| == |emitters|
    && (forall i :: 0 <= i < |out| ==> emitters[i] in s && out[i] == HTTPRule(verb, RuleFor(s, emitters[i], minDistinct)))
  }

  /** Paths gathered by segment count; counts lists the keys once each. */
  ghost predicate Grouped(groups: map<int, seq<string>>, counts: seq<int>, s: set<string>)
  {
    && NoDup(counts)
    && (forall n :: n in counts <==> n in groups)
    && (forall n: int :: n in groups ==> n >= 0 && groups[n] != [] && NoDup(groups[n]) && Elems(groups[n]) == Group(s, n))
    && (forall p :: p in s ==> |SegsOf(p)| in groups)
  }

  method GroupBySegmentCount(pathSet: set<string>) returns (groups: map<int, seq<string>>, counts: seq<int>)
    ensures Grouped(groups, counts, pathSet)
  {
    groups, counts := map[], [];
    var todo := pathSet;
    while todo != {}
      invariant todo <= pathSet && Grouped(groups, counts, pathSet - todo)
      decreases todo
    {
      var p :| p in todo;
      ghost var done := pathSet - todo;
      var n := |SegsOf(p)|;
      ghost var before := groups;
      if n !in groups {
        groups := groups[n := []];
        counts := counts + [n];
      }
      groups := groups[n := groups[n] + [p]];
      GroupedStep(before, counts, done, p, groups);
      todo := todo - {p};
      assert pathSet - todo == done + {p};
    }
    assert pathSet - {} == pathSet;
  }

  lemma GroupedStep(groups: map<int, seq<string>>, counts: seq<int>, done: set<string>, p: string, groups': map<int, seq<string>>)
    requires p !in done && NoDup(counts)
    requires forall n :: n in counts <==> n in groups || n == |SegsOf(p)|
    requires forall n: int :: n in groups ==> n >= 0 && groups[n] != [] && NoDup(groups[n]) && Elems(groups[n]) == Group(done, n)
    requires forall q :: q in done ==> |SegsOf(q)| in groups
    requires var n := |SegsOf(p)|;
             var prior := if n in groups then groups[n] else [];
             groups' == groups[n := prior + [p]]
    ensures Grouped(groups', counts, done + {p})
  {
    var n := |SegsOf(p)|;
    forall m | m in groups' ensures m >= 0 && groups'[m] != [] && NoDup(groups'[m]) && Elems(groups'[m]) == Group(done + {p}, m) {
      if m == n {
        var ps := if n in groups then groups[n] else [];
        assert n !in groups ==> Group(done, n) == {};
        assert p !in Elems(ps);
        ElemsAppend(ps, p);
        assert Group(done + {p}, n) == Group(done, n) + {p};
      } else {
        assert Group(done + {p}, m) == Group(done, m);
      }
    }
  }

  function IntLe(a: int, b: int): bool { a <= b }

  lemma GroupAt(groups: map<int, seq<string>>, counts: seq<int>, s: set<string>, n: int)
    requires Grouped(groups, counts, s) && n in groups
    ensures n >= 0 && |groups[n]| >= 1 && NoDup(groups[n]) && Elems(groups[n]) == Group(s, n) && Uniform(Elems(groups[n]))
  {
    assert groups[n] != [];
  }

  method CollapseGroupAt(verb: string, groups: map<int, seq<string>>, ghost counts: seq<int>, n: int, minDistinct: int, ghost s: set<string>)
    returns (add: seq<HTTPRule>, ghost more: seq<string>)
    requires Grouped(groups, counts, s) && n in groups
    ensures n >= 0 && Emits(add, more, verb, Group(s, n), minDistinct) && NoDup(more)
    ensures forall x :: x in more <==> IsEmitter(Group(s, n), x, minDistinct)
  {
    GroupAt(groups, counts, s, n);
    add, more := CollapseSegmentCountGroup(verb, groups[n], minDistinct);
  }

  method CollapseMethodPaths(verb: string, pathSet: set<string>, minDistinct: int)
    returns (out: seq<HTTPRule>, ghost emitters: seq<string>)
    ensures MethodEmits(out, emitters, verb, pathSet, minDistinct) && NoDup(emitters)
    ensures forall x :: x in emitters <==> IsEmitterOf(pathSet, x, minDistinct)
    ensures forall x :: x in pathSet ==> HTTPRule(verb, RuleFor(pathSet, x, minDistinct)) in out
  {
    var groups, counts := GroupBySegmentCount(pathSet);
    var segCounts := SortedCounts(counts);
    out, emitters := [], [];
    for k := 0 to |segCounts|
      invariant MethodSoFar(out, emitters, verb, pathSet, segCounts[..k], minDistinct)
    {
      var n := segCounts[k];
      NextCount(groups, counts, pathSet, segCounts, k, n);
      var add, more := CollapseGroupAt(verb, groups, counts, n, minDistinct, pathSet);
      GroupAdded(out, emitters, add, more, verb, pathSet, n, segCounts[..k], minDistinct);
      out, emitters := out + add, emitters + more;
    }
    AllCounts(groups, counts, pathSet, segCounts);
    AllGroupsDone(out, emitters, verb, pathSet, segCounts, minDistinct);
    EveryRuleEmitted(out, emitters, verb, pathSet, minDistinct);
  }

  /** Emitting for the emitters alone leaves no path without its rule. */
  lemma EveryRuleEmitted(out: seq<HTTPRule>, emitters: seq<string>, verb: string, s: set<string>, minDistinct: int)
    requires MethodEmits(out, emitters, verb, s, minDistinct)
    requires forall x :: x in emitters <==> IsEmitterOf(s, x, minDistinct)
    ensures forall x :: x in s ==> HTTPRule(verb, RuleFor(s, x, minDistinct)) in out
  {
    forall x | x in s ensures HTTPRule(verb, RuleFor(s, x, minDistinct)) in out {
      var h := EmitterOfRule(s, x, minDistinct);
      var i :| 0 <= i < |emitters| && emitters[i] == h;
      assert out[i] == HTTPRule(verb, RuleFor(s, x, minDistinct));
    }
  }

  lemma NextCount(groups: map<int, seq<string>>, counts: seq<int>, s: set<string>, segCounts: seq<int>, k: nat, n: int)
    requires Grouped(groups, counts, s) && NoDup(segCounts) && k < |segCounts| && n == segCounts[k]
    requires forall m :: m in segCounts <==> m in counts
    ensures n in groups && n !in segCounts[..k] && segCounts[..k + 1] == segCounts[..k] + [n]
  {
    assert n in segCounts;
  }

  lemma AllCounts(groups: map<int, seq<string>>, counts: seq<int>, s: set<string>, segCounts: seq<int>)
    requires Grouped(groups, counts, s) && forall n :: n in segCounts <==> n in counts
    ensures segCounts[..|segCounts|] == segCounts
    ensures forall x :: x in s ==> |SegsOf(x)| in segCounts
  {
  }

  lemma AllGroupsDone(out: seq<HTTPRule>, emitters: seq<string>, verb: string, s: set<string>, counts: seq<int>, minDistinct: int)
    requires MethodSoFar(out, emitters, verb, s, counts, minDistinct)
    requires forall x :: x in s ==> |SegsOf(x)| in counts
    ensures forall x :: x in emitters <==> IsEmitterOf(s, x, minDistinct)
  {
  }

  /** The rules emitted for the groups of the given segment counts. */
  ghost predicate MethodSoFar(out: seq<HTTPRule>, emitters: seq<string>, verb: string, s: set<string>, counts: seq<int>, minDistinct: int)
  {
    && MethodEmits(out, emitters, verb, s, minDistinct) && NoDup(emitters)
    && (forall x :: x in emitters <==> IsEmitterOf(s, x, minDistinct) && |SegsOf(x)| in counts)
  }

  function SortedCounts(counts: seq<int>): (r: seq<int>)
    requires NoDup(counts)
    ensures NoDup(r) && forall n :: n in r <==> n in counts
  {
    SortPermutes(counts, IntLe);
    CardNoDup(counts, Sort(counts, IntLe));
    Sort(counts, IntLe)
  }

  /** The rules of one segment-count group are rules of the whole set. */
  lemma GroupRules(s: set<string>, n: nat, x: string, minDistinct: int)
    requires x in Group(s, n)
    ensures RuleIn(Group(s, n), x, minDistinct) == RuleFor(s, x, minDistinct)
    ensures IsEmitter(Group(s, n), x, minDistinct) <==> IsEmitterOf(s, x, minDistinct)
  {
  }

  lemma GroupEmits(add: seq<HTTPRule>, more: seq<string>, verb: string, s: set<string>, n: nat, minDistinct: int)
    requires Emits(add, more, verb, Group(s, n), minDistinct)
    ensures MethodEmits(add, more, verb, s, minDistinct)
  {
    forall i | 0 <= i < |add| ensures more[i] in s && add[i] == HTTPRule(verb, RuleFor(s, more[i], minDistinct)) {
      GroupRules(s, n, more[i], minDistinct);
    }
  }

  lemma MethodEmitsAppend(out: seq<HTTPRule>, emitters: seq<string>, add: seq<HTTPRule>, more: seq<string>, verb: string,
                          s: set<string>, minDistinct: int)
    requires MethodEmits(out, emitters, verb, s, minDistinct) && MethodEmits(add, more, verb, s, minDistinct)
    ensures MethodEmits(out + add, emitters + more, verb, s, minDistinct)
  {
    var o, e := out + add, emitters + more;
    forall i | 0 <= i < |o| ensures e[i] in s && o[i] == HTTPRule(verb, RuleFor(s, e[i], minDistinct)) {
      if i >= |out| { assert o[i] == add[i - |out|] && e[i] == more[i - |out|]; }
      else { assert o[i] == out[i] && e[i] == emitters[i]; }
    }
  }

  /** Two disjoint runs of emitters, told apart by their segment counts. */
  lemma EmittersAdded(emitters: seq<string>, more: seq<string>, s: set<string>, n: nat, counts: seq<int>, minDistinct: int)
    requires NoDup(emitters) && NoDup(more) && n !in counts
    requires forall x :: x in emitters <==> IsEmitterOf(s, x, minDistinct) && |SegsOf(x)| in counts
    requires forall x :: x in more <==> IsEmitterOf(s, x, minDistinct) && |SegsOf(x)| == n
    ensures NoDup(emitters + more)
    ensures forall x :: x in emitters + more <==> IsEmitterOf(s, x, minDistinct) && |SegsOf(x)| in counts + [n]
  {
    NoDupConcat(emitters, more);
    assert forall k :: k in counts + [n] <==> k in counts || k == n;
    forall x ensures x in emitters + more <==> IsEmitterOf(s, x, minDistinct) && |SegsOf(x)| in counts + [n] {
      assert x in emitters + more <==> x in emitters || x in more;
    }
  }

  lemma GroupAdded(out: seq<HTTPRule>, emitters: seq<string>, add: seq<HTTPRule>, more: seq<string>, verb: string,
                   s: set<string>, n: nat, counts: seq<int>, minDistinct: int)
    requires MethodSoFar(out, emitters, verb, s, counts, minDistinct) && n !in counts
    requires Emits(add, more, verb, Group(s, n), minDistinct) && NoDup(more)
    requires forall x :: x in more <==> IsEmitter(Group(s, n), x, minDistinct)
    ensures MethodSoFar(out + add, emitters + more, verb, s, counts + [n], minDistinct)
  {
    forall x ensures x in more <==> IsEmitterOf(s, x, minDistinct) && |SegsOf(x)| == n {
      if x in Group(s, n) { GroupRules(s, n, x, minDistinct); }
    }
    GroupEmits(add, more, verb, s, n, minDistinct);
    MethodEmitsAppend(out, emitters, add, more, verb, s, minDistinct);
    EmittersAdded(emitters, more, s, n, counts, minDistinct);
  }

  lemma NoDupConcat<T>(a: seq<T>, b: seq<T>)
    requires NoDup(a) && NoDup(b) && forall x :: x in a ==> x !in b
    ensures NoDup(a + b)
  {
    forall i, j | 0 <= i < j < |a + b| ensures (a + b)[i] != (a + b)[j] {
      if i < |a| <= j { assert (a + b)[i] in a && (a + b)[j] in b; }
    }
  }

  /** Output order: method, then path. */
  predicate RuleLe(a: HTTPRule, b: HTTPRule)
  {
    if a.verb != b.verb then LexLe(a.verb, b.verb) else LexLe(a.path, b.path)
  }

  lemma RuleOrder()
    ensures TotalPreorder(RuleLe)
  {
    forall x, y ensures RuleLe(x, y) || RuleLe(y, x) {
      LexTotal(x.verb, y.verb);
      LexTotal(x.path, y.path);
    }
    forall x, y, z | RuleLe(x, y) && RuleLe(y, z) ensures RuleLe(x, z) {
      if x.verb == y.verb == z.verb {
        LexTransitive(x.path, y.path, z.path);
      } else if x.verb != y.verb && y.verb != z.verb {
        LexTransitive(x.verb, y.verb, z.verb);
        LexTotal(x.verb, y.verb);
      }
    }
  }

  /** The rules an observation set (method to raw paths) stands for. */
  ghost function CollapsedRules(paths: map<string, set<string>>, minDistinct: int): set<HTTPRule>
  {
    set m, p | m in paths && p in paths[m] :: HTTPRule(m, RuleFor(paths[m], p, minDistinct))
  }

  /** The rule of every path is emitted by some emitter. */
  lemma EmitterOfRule(s: set<string>, p: string, minDistinct: int) returns (h: string)
    requires p in s
    ensures IsEmitterOf(s, h, minDistinct) && RuleFor(s, h, minDistinct) == RuleFor(s, p, minDistinct)
  {
    var g := Group(s, |SegsOf(p)|);
    GroupUniform(s, |SegsOf(p)|);
    if IsTemplate(g, p, minDistinct) {
      h := Head(g, p);
      SameClusterSameRule(g, p, h, minDistinct);
    } else {
      h := p;
    }
  }

  ghost function PairRule(paths: map<string, set<string>>, e: (string, string), minDistinct: int): HTTPRule
  {
    HTTPRule(e.0, if e.0 in paths && e.1 in paths[e.0] then RuleFor(paths[e.0], e.1, minDistinct) else "")
  }

  /** The rules of the given (method, path) pairs, in their order. */
  ghost function Emitted(paths: map<string, set<string>>, emitters: seq<(string, string)>, minDistinct: int): (r: seq<HTTPRule>)
    ensures |r| == |emitters|
  {
    seq(|emitters|, i requires 0 <= i < |emitters| => PairRule(paths, emitters[i], minDistinct))
  }

  ghost predicate IsEmitterPair(paths: map<string, set<string>>, e: (string, string), minDistinct: int)
  {
    e.0 in paths && IsEmitterOf(paths[e.0], e.1, minDistinct)
  }

  /**
   The collapsed rules of an observation set: sorted by method and path, one rule for each emitter
   and no other, which is the set CollapsedRules describes path by path.
   */
  method CollapseHTTPPaths(paths: map<string, set<string>>, minDistinct: int)
    returns (out: seq<HTTPRule>, ghost emitters: seq<(string, string)>)
    ensures Sorted(out, RuleLe)
    ensures NoDup(emitters) && forall e :: e in emitters <==> IsEmitterPair(paths, e, minDistinct)
    ensures multiset(out) == multiset(Emitted(paths, emitters, minDistinct))
    ensures Elems(out) == CollapsedRules(paths, minDistinct)
  {
    var methods := SetToSorted(paths.Keys);
    out, emitters := [], [];
    for k := 0 to |methods|
      invariant NoDup(emitters)
      invariant forall e :: e in emitters <==> IsEmitterPair(paths, e, minDistinct) && e.0 in methods[..k]
      invariant out == Emitted(paths, emitters, minDistinct)
    {
      var verb := methods[k];
      assert verb in methods;
      var add, more := CollapseMethodPaths(verb, paths[verb], minDistinct);
      ghost var pairs := seq(|more|, i requires 0 <= i < |more| => (verb, more[i]));
      assert methods[..k + 1] == methods[..k] + [verb];
      MethodAdded(paths, emitters, add, more, pairs, verb, methods[..k], minDistinct);
      out, emitters := out + add, emitters + pairs;
    }
    assert methods[..|methods|] == methods;
    RuleOrder();
    SortPermutes(out, RuleLe);
    SortSorts(out, RuleLe);
    EmittedIsCollapsed(paths, emitters, minDistinct);
    assert Elems(Sort(out, RuleLe)) == Elems(out);
    out := Sort(out, RuleLe);
  }

  lemma MethodAdded(paths: map<string, set<string>>, emitters: seq<(string, string)>, add: seq<HTTPRule>, more: seq<string>,
                    pairs: seq<(string, string)>, verb: string, done: seq<string>, minDistinct: int)
    requires verb in paths && verb !in done && NoDup(emitters) && NoDup(more)
    requires forall e :: e in emitters <==> IsEmitterPair(paths, e, minDistinct) && e.0 in done
    requires MethodEmits(add, more, verb, paths[verb], minDistinct)
    requires forall x :: x in more <==> IsEmitterOf(paths[verb], x, minDistinct)
    requires |pairs| == |more| && forall i :: 0 <= i < |more| ==> pairs[i] == (verb, more[i])
    ensures NoDup(emitters + pairs)
    ensures forall e :: e in emitters + pairs <==> IsEmitterPair(paths, e, minDistinct) && e.0 in done + [verb]
    ensures Emitted(paths, emitters + pairs, minDistinct) == Emitted(paths, emitters, minDistinct) + add
  {
    PairsMembers(more, pairs, verb);
    forall e ensures e in pairs <==> IsEmitterPair(paths, e, minDistinct) && e.0 == verb {
      assert e in pairs <==> e.0 == verb && e.1 in more;
    }
    NoDupConcat(emitters, pairs);
    forall e ensures e in emitters + pairs <==> IsEmitterPair(paths, e, minDistinct) && e.0 in done + [verb] {
      assert e.0 in done + [verb] <==> e.0 in done || e.0 == verb;
      assert e in emitters + pairs <==> e in emitters || e in pairs;
    }
    PairsEmit(paths, add, more, pairs, verb, minDistinct);
    var all := Emitted(paths, emitters + pairs, minDistinct);
    assert all == Emitted(paths, emitters, minDistinct) + Emitted(paths, pairs, minDistinct);
  }

  lemma PairsMembers(more: seq<string>, pairs: seq<(string, string)>, verb: string)
    requires |pairs| == |more| && forall i :: 0 <= i < |more| ==> pairs[i] == (verb, more[i])
    ensures forall e :: e in pairs <==> e.0 == verb && e.1 in more
    ensures NoDup(more) ==> NoDup(pairs)
  {
    forall e ensures e in pairs <==> e.0 == verb && e.1 in more {
      if e.0 == verb && e.1 in more {
        var i :| 0 <= i < |more| && more[i] == e.1;
        assert pairs[i] == e;
      }
    }
  }

  lemma PairsEmit(paths: map<string, set<string>>, add: seq<HTTPRule>, more: seq<string>, pairs: seq<(string, string)>,
                  verb: string, minDistinct: int)
    requires verb in paths && MethodEmits(add, more, verb, paths[verb], minDistinct)
    requires |pairs| == |more| && forall i :: 0 <= i < |more| ==> pairs[i] == (verb, more[i])
    ensures Emitted(paths, pairs, minDistinct) == add
  {
    forall i | 0 <= i < |add| ensures PairRule(paths, pairs[i], minDistinct) == add[i] {
      assert more[i] in paths[verb];
    }
  }

  lemma EmittedIsCollapsed(paths: map<string, set<string>>, emitters: seq<(string, string)>, minDistinct: int)
    requires forall e :: e in emitters <==> IsEmitterPair(paths, e, minDistinct)
    ensures Elems(Emitted(paths, emitters, minDistinct)) == CollapsedRules(paths, minDistinct)
  {
    var out := Emitted(paths, emitters, minDistinct);
    forall r | r in out ensures r in CollapsedRules(paths, minDistinct) {
      var i :| 0 <= i < |out| && out[i] == r;
      assert emitters[i] in emitters;
    }
    forall r | r in CollapsedRules(paths, minDistinct) ensures r in out {
      var m, p :| m in paths && p in paths[m] && r == HTTPRule(m, RuleFor(paths[m], p, minDistinct));
      var h := EmitterOfRule(paths[m], p, minDistinct);
      assert IsEmitterPair(paths, (m, h), minDistinct);
      var i :| 0 <= i < |emitters| && emitters[i] == (m, h);
      assert out[i] == r;
    }
  }

  method SetToSorted(s: set<string>) returns (r: seq<string>)
    ensures NoDup(r) && Elems(r) == s && Sorted(r, LexLe)
  {
    r := [];
    var todo := s;
    while todo != {}
      invariant todo <= s && NoDup(r) && Elems(r) == s - todo
      decreases todo
    {
      var x :| x in todo;
      assert x !in Elems(r);
      ElemsAppend(r, x);
      r := r + [x];
      todo := todo - {x};
    }
    SortPermutes(r, LexLe);
    LexOrder();
    SortSorts(r, LexLe);
    CardNoDup(r, Sort(r, LexLe));
    assert Elems(Sort(r, LexLe)) == Elems(r);
    r := Sort(r, LexLe);
  }

  /** A non-empty observation set never yields an empty rule list, and an empty one yields none. */
  lemma NeverEmpty(paths: map<string, set<string>>, minDistinct: int)
    ensures CollapsedRules(paths, minDistinct) != {} <==> exists m :: m in paths && paths[m] != {}
  {
    if m :| m in paths && paths[m] != {} {
      var p :| p in paths[m];
      assert HTTPRule(m, RuleFor(paths[m], p, minDistinct)) in CollapsedRules(paths, minDistinct);
    }
    if CollapsedRules(paths, minDistinct) != {} {
      var r :| r in CollapsedRules(paths, minDistinct);
    }
  }
}
