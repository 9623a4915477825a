/**
 What one more observed path does to the language the collapsed rules accept (pkg/policy/l7_collapse.go).
 A path whose value at a class position has another class turns the templates of its segment count
 back into narrower rules, so the language can shrink. Here is when it does not.
 */
module CollapseGrowth {
  import opened Text
  import opened Segments
  import opened Regex
  import opened Collapse

  /** Some rule emitted for the observation set accepts w. */
  ghost predicate Accepted(s: set<string>, w: string, minDistinct: int)
  {
    exists p :: p in s && PatternMatches(RuleFor(s, p, minDistinct), w)
  }

  /** Observing x as well takes no text away. */
  ghost predicate KeepsAll(s: set<string>, x: string, minDistinct: int)
  {
    forall w :: Accepted(s, w, minDistinct) ==> Accepted(s + {x}, w, minDistinct)
  }

  ghost function GroupOf(s: set<string>, x: string): set<string> { Group(s, |SegsOf(x)|) }

  /** x has a value of the same class at every class position of p. */
  ghost predicate Joins(g: set<string>, x: string, p: string)
  {
    && |SegsOf(x)| == |SegsOf(p)|
    && forall pos :: 0 <= pos < |SegsOf(p)| && SlotAt(g, p, pos).Class? ==> Classify(SegsOf(x)[pos]) == Classify(SegsOf(p)[pos])
  }

  /**
   What x must leave alone at p: a template keeps its class positions and still passes the gate and
   the length cap; a literal stays one, unless its path starts at the root.
   */
  ghost predicate Undisturbed(g: set<string>, x: string, p: string, minDistinct: int)
    requires p in g
  {
    if IsTemplate(g, p, minDistinct) then Joins(g, x, p) && IsTemplate(g + {x}, p, minDistinct)
    else Rooted(p) || !IsTemplate(g + {x}, p, minDistinct)
  }

  // ---- Groups and slots with one more path ------------------------------------------------------

  lemma GroupGrows(s: set<string>, x: string, n: nat)
    ensures Group(s + {x}, n) == if n == |SegsOf(x)| then Group(s, n) + {x} else Group(s, n)
  {
  }

  lemma SlotGrows(g: set<string>, x: string, p: string, pos: nat)
    requires Uniform(g + {x}) && p in g && pos < |SegsOf(p)| && SlotAt(g, p, pos).Class?
    ensures SlotAt(g + {x}, p, pos).Class? <==> Classify(SegsOf(x)[pos]) == Classify(SegsOf(p)[pos])
    ensures SlotAt(g + {x}, p, pos).Class? ==> SlotAt(g + {x}, p, pos) == SlotAt(g, p, pos)
  {
    var h, c := g + {x}, Classify(SegsOf(p)[pos]);
    assert x in h && p in h;
    var a, b :| a in g && b in g && Differ(a, b, pos);
    assert a in h && b in h && Differ(a, b, pos);
    if Classify(SegsOf(x)[pos]) == c { assert ClassPosition(h, pos, c); }
  }

  /** Where x joins the class positions of p, the new shape of p fits whatever the old one fitted. */
  lemma ShapeWidens(g: set<string>, x: string, p: string, w: string)
    requires Uniform(g + {x}) && p in g && Joins(g, x, p) && ShapeFits(Shape(g, p), w)
    ensures ShapeFits(Shape(g + {x}, p), w)
  {
    var parts, own := Split(w[1..], '/'), SegsOf(p);
    forall i | 0 <= i < |own| ensures SlotFits(SlotAt(g + {x}, p, i), parts[i]) {
      assert SlotFits(Shape(g, p)[i], parts[i]);
      if SlotAt(g, p, i).Class? { SlotGrows(g, x, p, i); }
      else if SlotAt(g + {x}, p, i).Class? { ClassAccepts(own[i], Classify(own[i])); }
    }
  }

  /** The language of a path's rule, by its own shape. */
  lemma OwnLanguage(s: set<string>, p: string, minDistinct: int, w: string)
    requires p in s && NulFree(s)
    ensures var g := GroupOf(s, p);
            PatternMatches(RuleFor(s, p, minDistinct), w) <==>
            if IsTemplate(g, p, minDistinct) then ShapeFits(Shape(g, p), w) else w == Wire(p)
  {
    var g := GroupOf(s, p);
    RuleLanguage(s, p, minDistinct, w);
    if IsTemplate(g, p, minDistinct) {
      GroupUniform(s, |SegsOf(p)|);
      ClusterSharesShape(g, p, Head(g, p));
    }
  }

  // ---- Nothing is lost when nothing is disturbed ------------------------------------------------

  lemma PathKept(s: set<string>, x: string, p: string, minDistinct: int, w: string)
    requires NulFree(s + {x}) && p in s && PatternMatches(RuleFor(s, p, minDistinct), w)
    requires p in GroupOf(s, x) ==> Undisturbed(GroupOf(s, x), x, p, minDistinct)
    ensures Accepted(s + {x}, w, minDistinct)
  {
    var t := s + {x};
    GroupGrows(s, x, |SegsOf(p)|);
    OwnLanguage(s, p, minDistinct, w);
    OwnLanguage(t, p, minDistinct, w);
    assert p in t;
    if |SegsOf(p)| == |SegsOf(x)| {
      var g := GroupOf(s, x);
      GroupUniform(t, |SegsOf(x)|);
      if IsTemplate(g, p, minDistinct) {
        ShapeWidens(g, x, p, w);
      } else if IsTemplate(g + {x}, p, minDistinct) {
        EmptyPathIsLiteral(g + {x}, p);
        PathFitsOwnShape(g + {x}, p);
      }
    }
  }

  /** When x disturbs no path of its segment count, every accepted text stays accepted. */
  lemma UndisturbedKeeps(s: set<string>, x: string, minDistinct: int)
    requires NulFree(s + {x})
    requires forall p :: p in GroupOf(s, x) ==> Undisturbed(GroupOf(s, x), x, p, minDistinct)
    ensures KeepsAll(s, x, minDistinct)
  {
    forall w | Accepted(s, w, minDistinct) ensures Accepted(s + {x}, w, minDistinct) {
      var p :| p in s && PatternMatches(RuleFor(s, p, minDistinct), w);
      PathKept(s, x, p, minDistinct, w);
    }
  }

  // ---- Something is lost otherwise --------------------------------------------------------------

  /** v is of the class and was not seen at the position. */
  ghost predicate Unseen(g: set<string>, pos: nat, c: SegmentClass, v: string)
  {
    Accepts(c, v) && forall q :: q in g && pos < |SegsOf(q)| ==> SegsOf(q)[pos] != v
  }

  ghost predicate Room(g: set<string>, pos: nat, c: SegmentClass)
  {
    exists v :: Unseen(g, pos, c, v)
  }

  lemma {:induction false} DashedNoSlash(lens: seq<nat>, v: string)
    requires DashedHex(lens, v)
    ensures '/' !in v
    decreases |lens|
  {
    if |lens| > 1 {
      DashedNoSlash(lens[1..], v[lens[0] + 1..]);
      assert v == v[..lens[0]] + [v[lens[0]]] + v[lens[0] + 1..];
    }
  }

  lemma AcceptedNoSlash(c: SegmentClass, v: string)
    requires Generalizable(c) && Accepts(c, v)
    ensures '/' !in v
  {
    match c
    case Numeric =>
    case HexPrefix => assert v == [v[0], v[1]] + v[2..];
    case HexRun =>
    case UUID => DashedNoSlash(UUID_GROUPS, v);
    case _ =>
  }

  /** The path p with value v at a position. */
  function Rewritten(p: string, pos: nat, v: string): (w: string)
    requires pos < |SegsOf(p)|
  {
    "/" + Join(SegsOf(p)[pos := v], '/')
  }

  lemma RewrittenSegs(p: string, pos: nat, v: string)
    requires pos < |SegsOf(p)| && '/' !in v
    ensures var w := Rewritten(p, pos, v); w[1..] == TrimSlash(w) && Split(w[1..], '/') == SegsOf(w) == SegsOf(p)[pos := v]
  {
    SplitPiecesAreFree(TrimSlash(p), '/');
    SplitJoin(SegsOf(p)[pos := v], '/');
  }

  /** The template of p accepts p with any class member at a class position. */
  lemma RewrittenFits(g: set<string>, p: string, pos: nat, v: string)
    requires p in g && pos < |SegsOf(p)| && SlotAt(g, p, pos).Class? && Accepts(Classify(SegsOf(p)[pos]), v)
    ensures ShapeFits(Shape(g, p), Rewritten(p, pos, v))
  {
    var own := SegsOf(p);
    AcceptedNoSlash(Classify(own[pos]), v);
    RewrittenSegs(p, pos, v);
    forall i | 0 <= i < |own| ensures SlotFits(SlotAt(g, p, i), own[pos := v][i]) {
      if SlotAt(g, p, i).Class? { ClassAccepts(own[i], Classify(own[i])); }
    }
  }

  /** Whatever is accepted at an unseen value comes from a template of the same shape with a class there. */
  lemma RewrittenOnlyBy(g: set<string>, p: string, q: string, pos: nat, v: string)
    requires Uniform(g) && p in g && q in g && pos < |SegsOf(p)| && '/' !in v && SegsOf(q)[pos] != v
    requires ShapeFits(Shape(g, q), Rewritten(p, pos, v))
    ensures SlotAt(g, p, pos).Class? && q in Cluster(g, p)
  {
    RewrittenSegs(p, pos, v);
    var own, parts := SegsOf(p), SegsOf(p)[pos := v];
    assert SlotFits(Shape(g, q)[pos], parts[pos]);
    assert SlotAt(g, q, pos).Class?;
    ClassShared(g, q, p, pos);
    forall i | 0 <= i < |own| ensures SlotAt(g, q, i) == SlotAt(g, p, i) {
      if SlotAt(g, q, i).Class? { ClassShared(g, q, p, i); }
      else {
        assert SlotFits(Shape(g, q)[i], parts[i]);
        if SlotAt(g, p, i).Class? { ClassShared(g, p, q, i); }
      }
    }
    assert Shape(g, q) == Shape(g, p);
  }

  lemma ClassShared(g: set<string>, p: string, q: string, pos: nat)
    requires Uniform(g) && p in g && q in g && pos < |SegsOf(p)| && SlotAt(g, p, pos).Class?
    ensures SlotAt(g, q, pos) == SlotAt(g, p, pos)
  {
  }

  /** A text with an unseen value is accepted only through p's own template, if that has a class there. */
  lemma UnseenRejected(t: set<string>, p: string, pos: nat, v: string, minDistinct: int)
    requires NulFree(t) && p in t && pos < |SegsOf(p)| && '/' !in v
    requires forall q :: q in GroupOf(t, p) ==> SegsOf(q)[pos] != v
    requires !(SlotAt(GroupOf(t, p), p, pos).Class? && IsTemplate(GroupOf(t, p), p, minDistinct))
    ensures !Accepted(t, Rewritten(p, pos, v), minDistinct)
  {
    var w, g := Rewritten(p, pos, v), GroupOf(t, p);
    RewrittenSegs(p, pos, v);
    GroupUniform(t, |SegsOf(p)|);
    forall q | q in t ensures !PatternMatches(RuleFor(t, q, minDistinct), w) {
      OwnLanguage(t, q, minDistinct, w);
      if PatternMatches(RuleFor(t, q, minDistinct), w) {
        if !IsTemplate(GroupOf(t, q), q, minDistinct) { WireSegs(q); }
        assert |SegsOf(q)| == |SegsOf(p)|;
        assert q in g;
        if IsTemplate(g, q, minDistinct) {
          RewrittenOnlyBy(g, p, q, pos, v);
          SameClusterSameRule(g, p, q, minDistinct);
        }
        assert false;
      }
    }
  }

  lemma WireSegs(q: string)
    ensures SegsOf(Wire(q)) == SegsOf(q)
  {
  }

  lemma TemplateLoses(s: set<string>, x: string, p: string, pos: nat, v: string, minDistinct: int)
    requires NulFree(s + {x}) && p in GroupOf(s, x) && pos < |SegsOf(p)|
    requires IsTemplate(GroupOf(s, x), p, minDistinct) && SlotAt(GroupOf(s, x), p, pos).Class?
    requires Classify(SegsOf(x)[pos]) != Classify(SegsOf(p)[pos]) || !IsTemplate(GroupOf(s, x) + {x}, p, minDistinct)
    requires Unseen(GroupOf(s, x) + {x}, pos, Classify(SegsOf(p)[pos]), v)
    ensures Accepted(s, Rewritten(p, pos, v), minDistinct) && !Accepted(s + {x}, Rewritten(p, pos, v), minDistinct)
  {
    var g, t, w := GroupOf(s, x), s + {x}, Rewritten(p, pos, v);
    AcceptedNoSlash(Classify(SegsOf(p)[pos]), v);
    RewrittenFits(g, p, pos, v);
    OwnLanguage(s, p, minDistinct, w);
    GroupGrows(s, x, |SegsOf(x)|);
    GroupUniform(t, |SegsOf(x)|);
    SlotGrows(g, x, p, pos);
    UnseenRejected(t, p, pos, v, minDistinct);
  }

  /** A path that does not start at the root loses its text when it becomes part of a template. */
  lemma LiteralLoses(s: set<string>, x: string, p: string, minDistinct: int)
    requires NulFree(s + {x}) && p in GroupOf(s, x) && !Rooted(p)
    requires !IsTemplate(GroupOf(s, x), p, minDistinct) && IsTemplate(GroupOf(s, x) + {x}, p, minDistinct)
    ensures Accepted(s, Wire(p), minDistinct) && !Accepted(s + {x}, Wire(p), minDistinct)
  {
    OwnLanguage(s, p, minDistinct, Wire(p));
    GroupGrows(s, x, |SegsOf(x)|);
    CoverageExact(s + {x}, p, minDistinct);
  }

  /**
   Observing one more path keeps every accepted text exactly when it disturbs no path of its segment
   count: every template keeps its class positions, gate and length cap, and no unrooted literal
   becomes a template. The way back needs a member of the class that was not observed, which for the
   unbounded classes there always is.
   */
  lemma KeepsAllIff(s: set<string>, x: string, minDistinct: int)
    requires NulFree(s + {x})
    requires forall pos: nat :: Room(GroupOf(s, x) + {x}, pos, UUID)
    ensures KeepsAll(s, x, minDistinct) <==> forall p :: p in GroupOf(s, x) ==> Undisturbed(GroupOf(s, x), x, p, minDistinct)
  {
    var g := GroupOf(s, x);
    if p :| p in g && !Undisturbed(g, x, p, minDistinct) {
      if IsTemplate(g, p, minDistinct) {
        var pos := LostPosition(g, x, p, minDistinct);
        RoomAt(g + {x}, pos, Classify(SegsOf(p)[pos]));
        var v :| Unseen(g + {x}, pos, Classify(SegsOf(p)[pos]), v);
        TemplateLoses(s, x, p, pos, v, minDistinct);
        assert Accepted(s, Rewritten(p, pos, v), minDistinct);
      } else {
        LiteralLoses(s, x, p, minDistinct);
      }
    } else {
      UndisturbedKeeps(s, x, minDistinct);
    }
  }

  lemma LostPosition(g: set<string>, x: string, p: string, minDistinct: int) returns (pos: nat)
    requires p in g && |SegsOf(x)| == |SegsOf(p)| && IsTemplate(g, p, minDistinct) && !Undisturbed(g, x, p, minDistinct)
    ensures pos < |SegsOf(p)| && SlotAt(g, p, pos).Class? && Generalizable(Classify(SegsOf(p)[pos]))
    ensures Classify(SegsOf(x)[pos]) != Classify(SegsOf(p)[pos]) || !IsTemplate(g + {x}, p, minDistinct)
  {
    if Joins(g, x, p) {
      pos :| 0 <= pos < |SegsOf(p)| && SlotAt(g, p, pos).Class?;
    } else {
      pos :| 0 <= pos < |SegsOf(p)| && SlotAt(g, p, pos).Class? && Classify(SegsOf(x)[pos]) != Classify(SegsOf(p)[pos]);
    }
  }

  // ---- Unbounded classes ------------------------------------------------------------------------

  lemma {:induction false} PieceShorter(s: string, sep: char, i: nat)
    requires i < |Split(s, sep)|
    ensures |Split(s, sep)[i]| <= |s|
  {
    if s != "" {
      if i > 0 {
        PieceShorter(s[1..], sep, if s[0] == sep then i - 1 else i);
      } else if s[0] != sep {
        PieceShorter(s[1..], sep, 0);
      }
    }
  }

  lemma {:induction false} LengthBound(g: set<string>) returns (n: nat)
    ensures forall q :: q in g ==> |q| < n
    decreases |g|
  {
    n := 0;
    if g != {} {
      var x :| x in g;
      var m := LengthBound(g - {x});
      n := if |x| < m then m else |x| + 1;
      assert forall q :: q in g ==> q == x || q in g - {x};
    }
  }

  /** A class member longer than every observed path; only UUIDs have one length. */
  lemma RoomAt(g: set<string>, pos: nat, c: SegmentClass)
    requires Generalizable(c) && (c == UUID ==> Room(g, pos, UUID))
    ensures Room(g, pos, c)
  {
    if c != UUID {
      var n := LengthBound(g);
      var zeros := seq(n + 1, i => '0');
      var v := if c == HexPrefix then "0x" + zeros else zeros;
      assert AllDigits(zeros) && AllHex(zeros);
      if c == HexPrefix { assert v[2..] == zeros; }
      forall q | q in g && pos < |SegsOf(q)| ensures SegsOf(q)[pos] != v { PieceShorter(TrimSlash(q), '/', pos); }
      assert Unseen(g, pos, c, v);
    }
  }

  // ---- UUIDs ------------------------------------------------------------------------------------

  /** k in w decimal digits, dropping higher ones. */
  function Digits(k: nat, w: nat): (r: string)
    ensures |r| == w && AllHex(r)
  {
    if w == 0 then "" else Digits(k / 10, w - 1) + [('0' as int + k % 10) as char]
  }

  function Ten(w: nat): nat { if w == 0 then 1 else 10 * Ten(w - 1) }

  lemma {:induction false} DigitsInjective(k: nat, m: nat, w: nat)
    requires k < Ten(w) && m < Ten(w) && Digits(k, w) == Digits(m, w)
    ensures k == m
  {
    if w > 0 {
      var a, b := Digits(k, w), Digits(m, w);
      assert a[..w - 1] == Digits(k / 10, w - 1) && b[..w - 1] == Digits(m / 10, w - 1);
      assert a[w - 1] == b[w - 1];
      DigitsInjective(k / 10, m / 10, w - 1);
    }
  }

  /** The k-th of a trillion UUIDs. */
  function UuidOf(k: nat): string { "00000000-" + ("0000-" + ("0000-" + ("0000-" + Digits(k, 12)))) }

  lemma DashedCons(n: nat, lens: seq<nat>, zeros: string, rest: string)
    requires |zeros| == n && AllHex(zeros) && lens != [] && DashedHex(lens, rest)
    ensures DashedHex([n] + lens, zeros + "-" + rest)
  {
    var s := zeros + "-" + rest;
    assert s[..n] == zeros && s[n + 1..] == rest;
    assert ([n] + lens)[1..] == lens;
  }

  lemma UuidIsOne(k: nat)
    ensures Accepts(UUID, UuidOf(k))
  {
    var d := Digits(k, 12);
    DashedCons(4, [12], "0000", d);
    assert "0000" + "-" + d == "0000-" + d && [4] + [12] == [4, 12];
    DashedCons(4, [4, 12], "0000", "0000-" + d);
    assert "0000" + "-" + ("0000-" + d) == "0000-" + ("0000-" + d) && [4] + [4, 12] == [4, 4, 12];
    DashedCons(4, [4, 4, 12], "0000", "0000-" + ("0000-" + d));
    assert "0000" + "-" + ("0000-" + ("0000-" + d)) == "0000-" + ("0000-" + ("0000-" + d)) && [4] + [4, 4, 12] == [4, 4, 4, 12];
    DashedCons(8, [4, 4, 4, 12], "00000000", "0000-" + ("0000-" + ("0000-" + d)));
    assert "00000000" + "-" + ("0000-" + ("0000-" + ("0000-" + d))) == UuidOf(k) && [8] + [4, 4, 4, 12] == UUID_GROUPS;
  }

  lemma UuidsDiffer(k: nat, m: nat)
    requires k < Ten(12) && m < Ten(12) && UuidOf(k) == UuidOf(m)
    ensures k == m
  {
    assert UuidOf(k)[24..] == Digits(k, 12) && UuidOf(m)[24..] == Digits(m, 12);
    DigitsInjective(k, m, 12);
  }

  /** Fewer paths than there are UUIDs left leave one of them out. */
  lemma {:induction false} FreeUuid(g: set<string>, pos: nat, from: nat) returns (k: nat)
    requires from + |g| < Ten(12)
    ensures from <= k <= from + |g| && Unseen(g, pos, UUID, UuidOf(k))
    decreases |g|
  {
    UuidIsOne(from);
    if q :| q in g && pos < |SegsOf(q)| && SegsOf(q)[pos] == UuidOf(from) {
      var rest := set p | p in g && !(pos < |SegsOf(p)| && SegsOf(p)[pos] == UuidOf(from));
      assert rest <= g - {q};
      SubsetSize(rest, g - {q});
      k := FreeUuid(rest, pos, from + 1);
      if UuidOf(k) == UuidOf(from) { UuidsDiffer(k, from); }
    } else {
      k := from;
    }
  }

  const TRILLION := 1_000_000_000_000

  lemma TenTwelve()
    ensures Ten(12) == TRILLION
  {
    assert Ten(4) == 10_000;
    assert Ten(8) == 100_000_000;
  }

  /** For observation sets of less than a trillion paths the condition is exact without more ado. */
  lemma KeepsAllIffSmall(s: set<string>, x: string, minDistinct: int)
    requires NulFree(s + {x}) && |s + {x}| < TRILLION
    ensures KeepsAll(s, x, minDistinct) <==> forall p :: p in GroupOf(s, x) ==> Undisturbed(GroupOf(s, x), x, p, minDistinct)
  {
    var h := GroupOf(s, x) + {x};
    SubsetSize(h, s + {x});
    TenTwelve();
    forall pos: nat ensures Room(h, pos, UUID) {
      var k := FreeUuid(h, pos, 0);
    }
    KeepsAllIff(s, x, minDistinct);
  }

  // ---- Numbers, then a word ---------------------------------------------------------------------

  predicate IsNumberPath(p: string, rooted: bool)
  {
    var digits := if rooted then TrimSlash(p) else p;
    && (rooted ==> p != "" && p[0] == '/') && digits != "" && AllDigits(digits)
  }

  lemma NumberPath(p: string, rooted: bool)
    requires IsNumberPath(p, rooted)
    ensures SegsOf(p) == [TrimSlash(p)] && Classify(TrimSlash(p)) == Numeric && NUL !in p
  {
    SplitAtSeparator(TrimSlash(p), "", '/');
    NotDashed(TrimSlash(p));
  }

  /** Two or more number paths, and enough for the gate, make one numeric template. */
  lemma NumbersTemplate(s: set<string>, rooted: bool, p: string, minDistinct: int)
    requires p in s && |s| >= 2 && |s| >= minDistinct && forall q :: q in s ==> IsNumberPath(q, rooted)
    ensures NulFree(s) && Group(s, 1) == s && SegsOf(p) == [TrimSlash(p)]
    ensures SlotAt(s, p, 0) == Class(Numeric) && IsTemplate(s, p, minDistinct)
  {
    forall q | q in s ensures SegsOf(q) == [TrimSlash(q)] && Classify(TrimSlash(q)) == Numeric && NUL !in q { NumberPath(q, rooted); }
    var other := OtherPath(s, p);
    assert TrimSlash(p) != TrimSlash(other);
    assert Differ(p, other, 0);
    assert ClassPosition(s, 0, Numeric);
    forall q | q in s ensures Shape(s, q) == [Class(Numeric)] {}
    assert Cluster(s, p) == s;
    NumericPatternShort();
  }

  lemma OtherPath(s: set<string>, p: string) returns (q: string)
    requires p in s && |s| >= 2
    ensures q in s && q != p
  {
    if s - {p} == {} { assert s <= {p}; SubsetSize(s, {p}); }
    q :| q in s - {p};
  }

  lemma {:induction false} SubsetSize(a: set<string>, b: set<string>)
    requires a <= b
    ensures |a| <= |b|
  {
    if a != {} {
      var x :| x in a;
      SubsetSize(a - {x}, b - {x});
    }
  }

  lemma NumericPatternShort()
    ensures |TemplateText([Class(Numeric)])| <= MAX_PATTERN_LEN
  {
    assert Texts([Class(Numeric)]) == [DIGITS + "+"];
  }

  /**
   The language is not monotone: after enough number paths every number is accepted, and one word at
   the same place takes every number away that was not itself observed.
   */
  lemma WordTakesNumbers(s: set<string>, word: string, number: string, minDistinct: int)
    requires |s| >= 2 && |s| >= minDistinct && forall q :: q in s ==> IsNumberPath(q, true)
    requires '/' !in word && NUL !in word && Classify(word) == Word
    requires IsNumberPath(number, true) && number !in s
    ensures Accepted(s, number, minDistinct) && !Accepted(s + {"/" + word}, number, minDistinct)
  {
    var p :| p in s;
    var x, v := "/" + word, TrimSlash(number);
    NumbersTemplate(s, true, p, minDistinct);
    WordPath(s, word);
    NumberElsewhere(p, number);
    forall q | q in s + {x} ensures SegsOf(q)[0] != v { OtherValue(s, x, q, number); }
    NumberPath(number, true);
    assert Unseen(s + {x}, 0, Numeric, v);
    TemplateLoses(s, x, p, 0, v, minDistinct);
  }

  lemma WordPath(s: set<string>, word: string)
    requires '/' !in word && NUL !in word && forall q :: q in s ==> IsNumberPath(q, true)
    ensures SegsOf("/" + word) == [word] && NulFree(s + {"/" + word}) && GroupOf(s, "/" + word) == s
  {
    SplitAtSeparator(word, "", '/');
    assert TrimSlash("/" + word) == word;
    forall q | q in s ensures |SegsOf(q)| == 1 && NUL !in q { NumberPath(q, true); }
  }

  lemma NumberElsewhere(p: string, number: string)
    requires IsNumberPath(p, true) && IsNumberPath(number, true)
    ensures |SegsOf(p)| == 1 && Rewritten(p, 0, TrimSlash(number)) == number
  {
    NumberPath(p, true);
    assert SegsOf(p)[0 := TrimSlash(number)] == [TrimSlash(number)];
  }

  lemma OtherValue(s: set<string>, x: string, q: string, number: string)
    requires forall p :: p in s ==> IsNumberPath(p, true)
    requires |SegsOf(x)| == 1 && Classify(SegsOf(x)[0]) == Word && IsNumberPath(number, true)
    requires number !in s && q in s + {x}
    ensures SegsOf(q)[0] != TrimSlash(number)
  {
    NumberPath(number, true);
    if q in s {
      NumberPath(q, true);
      assert q == "/" + TrimSlash(q) && number == "/" + TrimSlash(number);
    }
  }

  /** Two numbers, then a word. */
  lemma OneWordIsEnough()
    ensures Accepted({"/1", "/2"}, "/3", 2) && !Accepted({"/1", "/2"} + {"/me"}, "/3", 2)
  {
    assert "/1"[1..] == "1" && "/2"[1..] == "2" && "/3"[1..] == "3";
    assert "/1"[1] != "/2"[1] && "/3"[1] != "/1"[1] && "/3"[1] != "/2"[1];
    assert "/" + "me" == "/me";
    assert !IsHex("me"[0]) && !IsDigit("me"[0]);
    assert Classify("me") == Word by { assert |"me"| == 2; }
    WordTakesNumbers({"/1", "/2"}, "me", "/3", 2);
  }

  /** Paths that do not start at the root lose their own text to the template they become part of. */
  lemma UnrootedMissed()
    ensures !Accepted({"1", "2"}, Wire("1"), 2)
  {
    var s := {"1", "2"};
    assert "1"[0] != "2"[0];
    NumbersTemplate(s, false, "1", 2);
    CoverageExact(s, "1", 2);
  }

  // ---- Coverage of any path ---------------------------------------------------------------------

  /** p has the value of h wherever h's shape is fixed. */
  ghost predicate AgreesFixed(g: set<string>, h: string, p: string)
  {
    && |SegsOf(h)| == |SegsOf(p)|
    && forall i :: 0 <= i < |SegsOf(p)| ==> SlotAt(g, h, i).Class? || SegsOf(h)[i] == SegsOf(p)[i]
  }

  ghost predicate CoveredBy(g: set<string>, q: string, p: string, minDistinct: int)
    requires q in g
  {
    IsTemplate(g, q, minDistinct) && AgreesFixed(g, Head(g, q), p)
  }

  lemma HeadFits(g: set<string>, h: string, p: string)
    requires Uniform(g) && h in g && p in g && p != ""
    ensures ShapeFits(Shape(g, h), p) <==> p[0] == '/' && AgreesFixed(g, h, p)
  {
    if p[0] == '/' {
      var parts := SegsOf(p);
      forall i | 0 <= i < |parts| ensures SlotFits(SlotAt(g, h, i), parts[i]) <==> SlotAt(g, h, i).Class? || SegsOf(h)[i] == parts[i] {
        if SlotAt(g, h, i).Class? {
          ClassShared(g, h, p, i);
          ClassAccepts(parts[i], Classify(parts[i]));
        }
      }
      assert forall i :: 0 <= i < |parts| ==> Shape(g, h)[i] == SlotAt(g, h, i);
    }
  }

  /**
   Coverage without any condition on the paths: an observed path is accepted by some emitted rule
   exactly when its cluster stayed literal, or it starts at the root and agrees with the head of some
   template at every fixed position. Without NUL characters the head of its own cluster will do.
   */
  lemma CoverageOfAnyPath(s: set<string>, p: string, minDistinct: int)
    requires p in s
    ensures var g := GroupOf(s, p);
            Accepted(s, Wire(p), minDistinct) <==>
            !IsTemplate(g, p, minDistinct) || (Rooted(p) && exists q :: q in g && CoveredBy(g, q, p, minDistinct))
  {
    var g := GroupOf(s, p);
    GroupUniform(s, |SegsOf(p)|);
    if IsTemplate(g, p, minDistinct) {
      TemplatePath(g, p, minDistinct);
      WireSegs(p);
      forall q | q in s
        ensures PatternMatches(RuleFor(s, q, minDistinct), Wire(p)) <==> q in g && Rooted(p) && CoveredBy(g, q, p, minDistinct)
      {
        RuleOnPath(s, q, p, minDistinct);
      }
    } else {
      RuleLanguage(s, p, minDistinct, Wire(p));
    }
  }

  lemma RuleOnPath(s: set<string>, q: string, p: string, minDistinct: int)
    requires q in s && p in s && IsTemplate(GroupOf(s, p), p, minDistinct) && p != "" && p != "/"
    ensures PatternMatches(RuleFor(s, q, minDistinct), p) <==>
            q in GroupOf(s, p) && Rooted(p) && CoveredBy(GroupOf(s, p), q, p, minDistinct)
  {
    var g := GroupOf(s, p);
    GroupUniform(s, |SegsOf(p)|);
    RuleLanguage(s, q, minDistinct, p);
    if q in g {
      if IsTemplate(g, q, minDistinct) { HeadFits(g, Head(g, q), p); }
    } else if IsTemplate(GroupOf(s, q), q, minDistinct) {
      assert Head(GroupOf(s, q), q) in GroupOf(s, q);
    }
  }

  /** A path in a template is neither empty nor the bare root. */
  lemma TemplatePath(g: set<string>, p: string, minDistinct: int)
    requires p in g && IsTemplate(g, p, minDistinct)
    ensures p != "" && p != "/"
  {
    EmptyPathIsLiteral(g, p);
    assert SegsOf("/") == [""];
    assert Classify("") == Word;
  }

  // ---- Two paths whose keys collide on a NUL ----------------------------------------------------

  lemma JoinThree(a: string, b: string, c: string, sep: char)
    ensures Join([a, b, c], sep) == a + [sep] + (b + [sep] + c)
  {
    assert [a, b, c][1..] == [b, c];
    assert [b, c][1..] == [c];
    assert Join([b, c], sep) == b + [sep] + c;
  }

  lemma RegroupThree(a: string, b: string, c: string, sep: char)
    ensures a + [sep] + (b + [sep] + c) == (a + [sep] + b) + ([sep] + c)
  {
  }

  /** Two paths of three segments that differ in a number behind two words. */
  datatype Pair = Pair(p: string, q: string, p0: string, p1: string, q0: string, q1: string, m: string, n: string)

  ghost predicate WordsAndNumber(d: Pair)
  {
    && SegsOf(d.p) == [d.p0, d.p1, d.m] && SegsOf(d.q) == [d.q0, d.q1, d.n] && d.m != d.n
    && Classify(d.m) == Classify(d.n) == Numeric
    && Classify(d.p0) == Classify(d.p1) == Classify(d.q0) == Classify(d.q1) == Word
  }

  lemma PairNumbers(d: Pair)
    requires WordsAndNumber(d)
    ensures ClassPosition({d.p, d.q}, 2, Numeric)
  {
    assert Differ(d.p, d.q, 2);
  }

  lemma OneShape(g: set<string>, p: string, p0: string, p1: string, m: string)
    requires SegsOf(p) == [p0, p1, m] && ClassPosition(g, 2, Numeric)
    requires Classify(m) == Numeric && Classify(p0) == Classify(p1) == Word
    ensures Shape(g, p) == [Fixed(p0), Fixed(p1), Class(Numeric)]
  {
  }

  lemma PairShapes(d: Pair)
    requires WordsAndNumber(d)
    ensures Shape({d.p, d.q}, d.p) == [Fixed(d.p0), Fixed(d.p1), Class(Numeric)]
    ensures Shape({d.p, d.q}, d.q) == [Fixed(d.q0), Fixed(d.q1), Class(Numeric)]
  {
    PairNumbers(d);
    OneShape({d.p, d.q}, d.p, d.p0, d.p1, d.m);
    OneShape({d.p, d.q}, d.q, d.q0, d.q1, d.n);
  }

  /** The keys of the two are the same text, though their words differ. */
  predicate Collide(d: Pair)
  {
    && d.p0 != d.q0
    && QuoteMeta(d.p0) + [NUL] + QuoteMeta(d.p1) == QuoteMeta(d.q0) + [NUL] + QuoteMeta(d.q1)
  }

  lemma PairTexts(d: Pair)
    requires WordsAndNumber(d)
    ensures Texts(Shape({d.p, d.q}, d.p)) == [QuoteMeta(d.p0), QuoteMeta(d.p1), Fragment(Numeric)]
    ensures Texts(Shape({d.p, d.q}, d.q)) == [QuoteMeta(d.q0), QuoteMeta(d.q1), Fragment(Numeric)]
  {
    PairShapes(d);
  }

  lemma PairSignature(d: Pair)
    requires WordsAndNumber(d) && Collide(d)
    ensures Signature({d.p, d.q}, d.p) == Signature({d.p, d.q}, d.q)
  {
    var f := Fragment(Numeric);
    PairTexts(d);
    var a, b, x, y := QuoteMeta(d.p0), QuoteMeta(d.p1), QuoteMeta(d.q0), QuoteMeta(d.q1);
    JoinThree(a, b, f, NUL);
    JoinThree(x, y, f, NUL);
    RegroupThree(a, b, f, NUL);
    RegroupThree(x, y, f, NUL);
  }

  lemma PairCluster(d: Pair)
    requires WordsAndNumber(d) && Collide(d)
    ensures Cluster({d.p, d.q}, d.p) == {d.p, d.q} == Cluster({d.p, d.q}, d.q)
  {
    PairSignature(d);
  }

  predicate ShortWords(d: Pair)
  {
    |QuoteMeta(d.p0)| + |QuoteMeta(d.p1)| <= 200 && |QuoteMeta(d.q0)| + |QuoteMeta(d.q1)| <= 200
  }

  lemma PairPattern(d: Pair, h: string)
    requires WordsAndNumber(d) && h in {d.p, d.q}
    requires ShortWords(d)
    ensures |TemplateText(Shape({d.p, d.q}, h))| <= MAX_PATTERN_LEN
  {
    var f := Fragment(Numeric);
    PairTexts(d);
    var a, b := if h == d.p then QuoteMeta(d.p0) else QuoteMeta(d.q0), if h == d.p then QuoteMeta(d.p1) else QuoteMeta(d.q1);
    assert Texts(Shape({d.p, d.q}, h)) == [a, b, f];
    JoinThree(a, b, f, '/');
  }

  /** Of two such paths the one the template is not written from is accepted by no rule. */
  lemma CollisionLoses(d: Pair)
    requires WordsAndNumber(d) && Collide(d) && Rooted(d.p) && Rooted(d.q)
    requires ShortWords(d)
    ensures !Accepted({d.p, d.q}, Wire(d.p), 2) || !Accepted({d.p, d.q}, Wire(d.q), 2)
  {
    var h := PairHead(d);
    assert d.p != d.q;
    HeadMissesPair(d, {d.p, d.q}, h, if h == d.p then d.q else d.p);
  }

  lemma HeadMissesPair(d: Pair, g: set<string>, h: string, p: string)
    requires WordsAndNumber(d) && Collide(d) && ShortWords(d) && g == {d.p, d.q}
    requires h in g && p in g && h != p && forall q :: q in g ==> Head(g, q) == h
    ensures !Accepted(g, Wire(p), 2)
  {
    assert GroupOf(g, p) == g by { PairGroup(d, p); }
    assert IsTemplate(g, p, 2) by { PairTemplate(d, p); }
    assert !AgreesFixed(g, h, p) by { PairDisagrees(d, h, p); }
    HeadMisses(g, p, h, 2);
  }

  lemma PairGroup(d: Pair, p: string)
    requires WordsAndNumber(d) && p in {d.p, d.q}
    ensures GroupOf({d.p, d.q}, p) == {d.p, d.q}
  {
  }

  lemma PairHead(d: Pair) returns (h: string)
    requires WordsAndNumber(d) && Collide(d)
    ensures h in {d.p, d.q}
    ensures forall q :: q in {d.p, d.q} ==> Head({d.p, d.q}, q) == h
  {
    var g := {d.p, d.q};
    PairCluster(d);
    h := Head(g, d.p);
    LeastUnique(g, h, Head(g, d.q));
  }

  lemma HeadMisses(s: set<string>, p: string, h: string, minDistinct: int)
    requires p in s && GroupOf(s, p) == s && IsTemplate(s, p, minDistinct)
    requires forall q :: q in s ==> Head(s, q) == h
    requires !AgreesFixed(s, h, p)
    ensures !Accepted(s, Wire(p), minDistinct)
  {
    forall q | q in s ensures !CoveredBy(s, q, p, minDistinct) {}
    CoverageOfAnyPath(s, p, minDistinct);
  }

  lemma PairDisagrees(d: Pair, h: string, p: string)
    requires WordsAndNumber(d) && Collide(d) && h in {d.p, d.q} && p in {d.p, d.q} && h != p
    ensures !AgreesFixed({d.p, d.q}, h, p)
  {
    PairShapes(d);
    assert SlotAt({d.p, d.q}, h, 0) == Shape({d.p, d.q}, h)[0];
  }

  lemma PairTemplate(d: Pair, p: string)
    requires WordsAndNumber(d) && Collide(d) && p in {d.p, d.q}
    requires ShortWords(d)
    ensures IsTemplate({d.p, d.q}, p, 2)
  {
    var h := PairHead(d);
    PairHasClass(d, p);
    PairSize(d, p);
    PairPattern(d, h);
  }

  lemma PairSize(d: Pair, p: string)
    requires WordsAndNumber(d) && Collide(d) && p in {d.p, d.q}
    ensures |Cluster({d.p, d.q}, p)| == 2
  {
    PairCluster(d);
    assert d.p != d.q;
  }

  lemma PairHasClass(d: Pair, p: string)
    requires WordsAndNumber(d) && p in {d.p, d.q}
    ensures HasClass({d.p, d.q}, p)
  {
    PairShapes(d);
    assert SlotAt({d.p, d.q}, p, 2) == Shape({d.p, d.q}, p)[2];
  }

  const LEFT: string := "/a\0b/c/1"
  const RIGHT: string := "/a/b\0c/2"
  const COLLISION := Pair(LEFT, RIGHT, "a\0b", "c", "a", "b\0c", "1", "2")

  lemma CollisionSegs()
    ensures SegsOf(LEFT) == ["a\0b", "c", "1"] && SegsOf(RIGHT) == ["a", "b\0c", "2"]
  {
    JoinThree("a\0b", "c", "1", '/');
    JoinThree("a", "b\0c", "2", '/');
    SplitJoin(["a\0b", "c", "1"], '/');
    SplitJoin(["a", "b\0c", "2"], '/');
    assert TrimSlash(LEFT) == "a\0b" + "/" + ("c" + "/" + "1");
    assert TrimSlash(RIGHT) == "a" + "/" + ("b\0c" + "/" + "2");
  }

  lemma ShortWord(w: string)
    requires 1 <= |w| <= 4 && !IsDigit(w[0]) && w[0] != 'v'
    ensures Classify(w) == Word
  {
  }

  lemma OneDigit(w: string)
    requires |w| == 1 && IsDigit(w[0])
    ensures Classify(w) == Numeric
  {
    NotDashed(w);
  }

  lemma CollisionQuotes()
    ensures QuoteMeta("a\0b") == "a\0b" && QuoteMeta("b\0c") == "b\0c" && QuoteMeta("a") == "a" && QuoteMeta("c") == "c"
  {
    assert "a\0b"[1..] == "\0b" && "\0b"[1..] == "b" && "b"[1..] == "";
    assert "b\0c"[1..] == "\0c" && "\0c"[1..] == "c" && "c"[1..] == "" && "a"[1..] == "";
    assert QuoteMeta("b") == "b" && QuoteMeta("c") == "c" && QuoteMeta("a") == "a";
    assert QuoteMeta("\0b") == "\0b" && QuoteMeta("\0c") == "\0c";
  }

  /** A raw path holding a NUL can hide another one. */
  lemma NulLoses()
    ensures !Accepted({LEFT, RIGHT}, LEFT, 2) || !Accepted({LEFT, RIGHT}, RIGHT, 2)
  {
    CollisionIsOne();
    CollisionQuotes();
    CollisionLoses(COLLISION);
  }

  lemma CollisionIsOne()
    ensures WordsAndNumber(COLLISION) && Collide(COLLISION)
  {
    CollisionSegs();
    CollisionWords();
    assert "1"[0] != "2"[0];
    CollisionKeys();
  }

  lemma CollisionWords()
    ensures Classify("1") == Classify("2") == Numeric
    ensures Classify("a\0b") == Classify("c") == Classify("a") == Classify("b\0c") == Word
  {
    ShortWord("a\0b");
    ShortWord("c");
    ShortWord("a");
    ShortWord("b\0c");
    OneDigit("1");
    OneDigit("2");
  }

  lemma CollisionKeys()
    ensures Collide(COLLISION)
  {
    CollisionQuotes();
    assert |"a\0b"| != |"a"|;
    assert "a\0b" + [NUL] + "c" == "a" + [NUL] + "b\0c";
  }
}
