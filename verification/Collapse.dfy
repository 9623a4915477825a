/**
 L7 path collapse (pkg/policy/l7_collapse.go): the rule each observed path ends up with, what the
 emitted rules accept, and the clustering algorithm that computes them.
 */
module Collapse {
  import opened Text
  import opened Segments
  import opened Regex

  const NUL: char := '\0'

  const DEFAULT_MIN_FLOWS := 5

  /** The cap counts bytes; a string here is a sequence of bytes, as in the source. */
  const MAX_PATTERN_LEN := 256

  /** The gate fails closed: it is never below one. */
  function ResolveMinFlows(n: int): (r: int)
    ensures r >= 1
    ensures n >= 1 ==> r == n
    ensures n < 1 ==> r == DEFAULT_MIN_FLOWS
  {
    if n < 1 then DEFAULT_MIN_FLOWS else n
  }

  function TrimSlash(p: string): string
  {
    if p != "" && p[0] == '/' then p[1..] else p
  }

  function SegsOf(p: string): (r: seq<string>)
    ensures |r| >= 1
  {
    Split(TrimSlash(p), '/')
  }

  // ---- The rule of a path within its group ------------------------------------------------

  /** The paths of s with n segments. */
  ghost function Group(s: set<string>, n: nat): set<string>
  {
    set p | p in s && |SegsOf(p)| == n
  }

  ghost predicate Uniform(g: set<string>)
  {
    forall p, q :: p in g && q in g ==> |SegsOf(p)| == |SegsOf(q)|
  }

  ghost predicate Differ(p: string, q: string, pos: nat)
  {
    pos < |SegsOf(p)| && pos < |SegsOf(q)| && SegsOf(p)[pos] != SegsOf(q)[pos]
  }

  /** Every value at pos has generalizable class c and there are at least two values. */
  ghost predicate ClassPosition(g: set<string>, pos: nat, c: SegmentClass)
  {
    && Generalizable(c)
    && (forall p :: p in g ==> pos < |SegsOf(p)| && Classify(SegsOf(p)[pos]) == c)
    && (exists p, q :: p in g && q in g && Differ(p, q, pos))
  }

  ghost function SlotAt(g: set<string>, p: string, pos: nat): Slot
    requires pos < |SegsOf(p)|
  {
    var seg := SegsOf(p)[pos];
    if ClassPosition(g, pos, Classify(seg)) then Class(Classify(seg)) else Fixed(seg)
  }

  ghost function Shape(g: set<string>, p: string): (r: seq<Slot>)
    ensures |r| == |SegsOf(p)|
  {
    seq(|SegsOf(p)|, pos requires 0 <= pos < |SegsOf(p)| => SlotAt(g, p, pos))
  }

  ghost function Signature(g: set<string>, p: string): string
  {
    Join(Texts(Shape(g, p)), NUL)
  }

  ghost function Cluster(g: set<string>, p: string): set<string>
  {
    set q | q in g && Signature(g, q) == Signature(g, p)
  }

  ghost predicate IsLeast(c: set<string>, x: string)
  {
    x in c && forall y :: y in c ==> LexLe(x, y)
  }

  lemma {:induction false} LeastExists(c: set<string>)
    requires c != {}
    ensures exists x :: IsLeast(c, x)
    decreases |c|
  {
    var x :| x in c;
    LexTotal(x, x);
    if c - {x} == {} {
      assert c == {x} + (c - {x});
      assert IsLeast(c, x);
    } else {
      LeastExists(c - {x});
      var y :| IsLeast(c - {x}, y);
      LexTotal(x, y);
      if LexLe(y, x) {
        assert IsLeast(c, y);
      } else {
        forall z | z in c ensures LexLe(x, z) {
          if z != x { LexTransitive(x, y, z); }
        }
        assert IsLeast(c, x);
      }
    }
  }

  /** The path whose segments a cluster's pattern is written from. */
  ghost function Head(g: set<string>, p: string): (h: string)
    requires p in g
    ensures IsLeast(Cluster(g, p), h)
  {
    assert p in Cluster(g, p);
    LeastExists(Cluster(g, p));
    var h :| IsLeast(Cluster(g, p), h);
    h
  }

  ghost predicate HasClass(g: set<string>, p: string)
  {
    exists pos :: 0 <= pos < |SegsOf(p)| && SlotAt(g, p, pos).Class?
  }

  ghost function ClusterPattern(g: set<string>, p: string): string
    requires p in g
  {
    TemplateText(Shape(g, Head(g, p)))
  }

  /** The gate: a class position, enough distinct paths, and a short enough pattern. */
  ghost predicate IsTemplate(g: set<string>, p: string, minDistinct: int)
    requires p in g
  {
    && HasClass(g, p)
    && |Cluster(g, p)| >= minDistinct
    && |ClusterPattern(g, p)| <= MAX_PATTERN_LEN
  }

  ghost function RuleIn(g: set<string>, p: string, minDistinct: int): string
    requires p in g
  {
    if IsTemplate(g, p, minDistinct) then ClusterPattern(g, p) else LiteralRule(p)
  }

  /** The rule the observation set s gives to its path p. */
  ghost function RuleFor(s: set<string>, p: string, minDistinct: int): string
    requires p in s
  {
    RuleIn(Group(s, |SegsOf(p)|), p, minDistinct)
  }

  // ---- What the rules accept --------------------------------------------------------------

  lemma ShapeWellFormed(g: set<string>, p: string)
    ensures WellFormed(Shape(g, p))
  {
    SplitPiecesAreFree(TrimSlash(p), '/');
  }

  lemma {:induction false} QuoteFree(s: string, c: char)
    requires c !in s && c != '\\'
    ensures c !in QuoteMeta(s)
  {
    if s != "" {
      QuoteFree(s[1..], c);
    }
  }

  ghost predicate NulFree(g: set<string>)
  {
    forall p :: p in g ==> NUL !in p
  }

  lemma TextsNulFree(g: set<string>, p: string)
    requires NUL !in p
    ensures AllFree(Texts(Shape(g, p)), NUL)
  {
    var parts := SegsOf(p);
    forall i | 0 <= i < |parts| ensures NUL !in SlotText(SlotAt(g, p, i)) {
      SegmentWithin(TrimSlash(p), '/', i);
      QuoteFree(parts[i], NUL);
      FragmentNulFree(Classify(parts[i]));
    }
  }

  lemma FragmentNulFree(c: SegmentClass)
    ensures NUL !in Fragment(c)
  {
    assert NUL !in HEX && NUL !in DIGITS;
  }

  /** A piece of s holds only characters of s. */
  lemma {:induction false} SegmentWithin(s: string, sep: char, i: nat)
    requires i < |Split(s, sep)|
    ensures forall c :: c in Split(s, sep)[i] ==> c in s
  {
    if s != "" {
      if i > 0 {
        SegmentWithin(s[1..], sep, if s[0] == sep then i - 1 else i);
      } else if s[0] != sep {
        SegmentWithin(s[1..], sep, 0);
      }
    }
  }

  lemma {:induction false} QuoteInjective(a: string, b: string)
    requires QuoteMeta(a) == QuoteMeta(b)
    ensures a == b
  {
    assert QuoteMeta(a) + "" == QuoteMeta(b) + "";
    ParseQuoted(a, "");
    ParseQuoted(b, "");
    assert Literal(a) + [] == Literal(a) && Literal(b) + [] == Literal(b);
    LiteralMatches(a, a);
    LiteralMatches(b, a);
  }

  /** Paths without NUL share a cluster only when they agree at every fixed position. */
  lemma ClusterSharesShape(g: set<string>, p: string, q: string)
    requires Uniform(g) && p in g && q in Cluster(g, p) && NUL !in p && NUL !in q
    ensures Shape(g, q) == Shape(g, p)
  {
    TextsNulFree(g, p);
    TextsNulFree(g, q);
    JoinInjective(Texts(Shape(g, p)), Texts(Shape(g, q)), NUL);
    forall i | 0 <= i < |SegsOf(p)| ensures Shape(g, q)[i] == Shape(g, p)[i] {
      assert Texts(Shape(g, p))[i] == Texts(Shape(g, q))[i];
      var a, b := SlotAt(g, p, i), SlotAt(g, q, i);
      if a.Class? || b.Class? {
        assert Classify(SegsOf(p)[i]) == Classify(SegsOf(q)[i]);
      } else {
        QuoteInjective(a.seg, b.seg);
      }
    }
  }

  ghost predicate Rooted(p: string) { p == "" || p[0] == '/' }

  /** A rooted path fits the shape it contributes to. */
  lemma PathFitsOwnShape(g: set<string>, p: string)
    requires p in g && p != "" && p[0] == '/'
    ensures ShapeFits(Shape(g, p), p)
  {
    var parts := SegsOf(p);
    forall i | 0 <= i < |parts| ensures SlotFits(SlotAt(g, p, i), parts[i]) {
      if SlotAt(g, p, i).Class? { ClassAccepts(parts[i], Classify(parts[i])); }
    }
  }

  lemma EmptyPathIsLiteral(g: set<string>, p: string)
    requires p in g && HasClass(g, p)
    ensures p != ""
  {
    assert SegsOf("") == [""];
    assert Classify("") == Word;
  }

  lemma GroupUniform(s: set<string>, n: nat)
    ensures Uniform(Group(s, n))
  {
  }

  /** The language of the rule of an observed path. */
  lemma RuleLanguage(s: set<string>, p: string, minDistinct: int, w: string)
    requires p in s
    ensures var g := Group(s, |SegsOf(p)|);
            PatternMatches(RuleFor(s, p, minDistinct), w) <==>
            (if IsTemplate(g, p, minDistinct) then ShapeFits(Shape(g, Head(g, p)), w) else w == Wire(p))
  {
    var g := Group(s, |SegsOf(p)|);
    if IsTemplate(g, p, minDistinct) {
      ShapeWellFormed(g, Head(g, p));
      TemplateMatches(Shape(g, Head(g, p)), w);
    } else {
      LiteralRuleMatches(p, w);
    }
  }

  /**
   Coverage: an observed path is accepted by some emitted rule exactly when it is empty or starts
   with a slash, or its cluster stayed on literal rules.
   */
  lemma CoverageExact(s: set<string>, p: string, minDistinct: int)
    requires p in s && NulFree(s)
    ensures (exists q :: q in s && PatternMatches(RuleFor(s, q, minDistinct), Wire(p)))
       <==> (Rooted(p) || !IsTemplate(Group(s, |SegsOf(p)|), p, minDistinct))
    ensures (Rooted(p) || !IsTemplate(Group(s, |SegsOf(p)|), p, minDistinct)) ==>
            PatternMatches(RuleFor(s, p, minDistinct), Wire(p))
  {
    var g := Group(s, |SegsOf(p)|);
    GroupUniform(s, |SegsOf(p)|);
    RuleLanguage(s, p, minDistinct, Wire(p));
    if IsTemplate(g, p, minDistinct) {
      if Rooted(p) {
        EmptyPathIsLiteral(g, p);
        ClusterSharesShape(g, p, Head(g, p));
        PathFitsOwnShape(g, p);
      } else {
        forall q | q in s ensures !PatternMatches(RuleFor(s, q, minDistinct), Wire(p)) {
          RuleLanguage(s, q, minDistinct, Wire(p));
          if Wire(q) == Wire(p) { assert q == p; }
        }
      }
    }
  }

  /**
   Precision: whatever a template accepts has the segment count of its cluster, the cluster's own
   segment at every fixed position, and a segment of the class fragment at every class position,
   where at least two observed values of that class were seen. The gate and the length cap hold,
   and the template accepts each of the paths behind it.
   */
  lemma TemplatePrecision(s: set<string>, p: string, minDistinct: int, w: string)
    requires p in s && NulFree(s)
    requires IsTemplate(Group(s, |SegsOf(p)|), p, minDistinct)
    ensures |RuleFor(s, p, minDistinct)| <= MAX_PATTERN_LEN
    ensures |Cluster(Group(s, |SegsOf(p)|), p)| >= minDistinct
    ensures forall q :: q in Cluster(Group(s, |SegsOf(p)|), p) && Rooted(q) ==>
              RuleFor(s, q, minDistinct) == RuleFor(s, p, minDistinct)
              && PatternMatches(RuleFor(s, p, minDistinct), q)
    ensures var parts := SegsOf(w); var own := SegsOf(p); var g := Group(s, |SegsOf(p)|);
            PatternMatches(RuleFor(s, p, minDistinct), w) <==>
            && w != "" && w[0] == '/' && |parts| == |own|
            && forall i :: 0 <= i < |own| ==>
                 if ClassPosition(g, i, Classify(own[i])) then Accepts(Classify(own[i]), parts[i]) else parts[i] == own[i]
  {
    var g := Group(s, |SegsOf(p)|);
    GroupUniform(s, |SegsOf(p)|);
    var h := Head(g, p);
    ClusterSharesShape(g, p, h);
    RuleLanguage(s, p, minDistinct, w);
    var parts, own := SegsOf(w), SegsOf(p);
    assert forall i :: 0 <= i < |own| ==> Shape(g, p)[i] == SlotAt(g, p, i);
    forall q | q in Cluster(g, p) && Rooted(q)
      ensures RuleFor(s, q, minDistinct) == RuleFor(s, p, minDistinct)
              && PatternMatches(RuleFor(s, p, minDistinct), q)
    {
      SameClusterSameRule(g, p, q, minDistinct);
      EmptyPathIsLiteral(g, q);
      CoverageExact(s, q, minDistinct);
      assert Group(s, |SegsOf(q)|) == g;
    }
  }

  lemma SameClusterSameRule(g: set<string>, p: string, q: string, minDistinct: int)
    requires Uniform(g) && p in g && q in Cluster(g, p)
    ensures Cluster(g, q) == Cluster(g, p) && Head(g, q) == Head(g, p)
    ensures HasClass(g, p) <==> HasClass(g, q)
    ensures IsTemplate(g, p, minDistinct) <==> IsTemplate(g, q, minDistinct)
  {
    LeastUnique(Cluster(g, p), Head(g, p), Head(g, q));
    if HasClass(g, p) { HasClassShared(g, p, q); }
    if HasClass(g, q) { HasClassShared(g, q, p); }
  }

  lemma HasClassShared(g: set<string>, p: string, q: string)
    requires Uniform(g) && p in g && q in g && HasClass(g, p)
    ensures HasClass(g, q)
  {
    var pos :| 0 <= pos < |SegsOf(p)| && SlotAt(g, p, pos).Class?;
    assert SlotAt(g, q, pos).Class?;
  }

  lemma LeastUnique(c: set<string>, x: string, y: string)
    requires IsLeast(c, x) && IsLeast(c, y)
    ensures x == y
  {
    LexTotal(x, y);
  }

  /**
   The allowed language is not monotone: once a path with a value of another class at a position is seen,
   every rule of that segment count is pinned to its own segment there, so a template over that position
   gives way to patterns that accept only observed values of it.
   */
  lemma OddValuePins(s: set<string>, odd: string, p: string, pos: nat, minDistinct: int, w: string)
    requires p in s && odd in s && NulFree(s) && |SegsOf(odd)| == |SegsOf(p)| && pos < |SegsOf(p)|
    requires Classify(SegsOf(odd)[pos]) != Classify(SegsOf(p)[pos])
    requires PatternMatches(RuleFor(s, p, minDistinct), w)
    ensures |SegsOf(w)| == |SegsOf(p)| && SegsOf(w)[pos] == SegsOf(p)[pos]
  {
    var g := Group(s, |SegsOf(p)|);
    assert odd in g && p in g;
    if IsTemplate(g, p, minDistinct) {
      TemplatePrecision(s, p, minDistinct, w);
      assert !ClassPosition(g, pos, Classify(SegsOf(p)[pos]));
    } else {
      RuleLanguage(s, p, minDistinct, w);
      assert SegsOf("/") == SegsOf("");
    }
  }
}
