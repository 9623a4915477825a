/**
 Which segments belong to which class, and what the collapsed rules accept (pkg/policy/l7_collapse.go),
 told by the characters of the observed paths alone.
 */
module SegmentClasses {
  import opened Text
  import opened Segments
  import opened Regex
  import opened Collapse
  import opened CollapseGrowth

  const DIGIT_CHARS: string := "0123456789"
  const HEX_CHARS: string := "0123456789abcdefABCDEF"

  /** Every character of s is one of these. */
  ghost predicate Only(s: string, chars: string)
  {
    forall c :: c in s ==> c in chars
  }

  ghost predicate NumberText(s: string) { s != "" && Only(s, DIGIT_CHARS) }

  ghost predicate PrefixedHex(s: string) { |s| > 2 && s[..2] == "0x" && Only(s[2..], HEX_CHARS) }

  /** Six or more hex digits, some of them decimal and some not. */
  ghost predicate MixedHex(s: string)
  {
    |s| >= 6 && Only(s, HEX_CHARS) && !Only(s, DIGIT_CHARS) && exists c :: c in s && c in DIGIT_CHARS
  }

  predicate DashPlace(i: nat) { i == 8 || i == 13 || i == 18 || i == 23 }

  ghost predicate UuidText(s: string)
  {
    |s| == 36 && forall i :: 0 <= i < 36 ==> if DashPlace(i) then s[i] == '-' else s[i] in HEX_CHARS
  }

  ghost predicate VersionText(s: string) { |s| > 1 && s[0] == 'v' && Only(s[1..], DIGIT_CHARS) }

  /** The members of each class; no two classes share one. */
  ghost predicate Member(c: SegmentClass, s: string)
  {
    match c
    case Numeric => NumberText(s)
    case HexPrefix => PrefixedHex(s)
    case HexRun => MixedHex(s)
    case UUID => UuidText(s)
    case Version => VersionText(s)
    case Word => !NumberText(s) && !PrefixedHex(s) && !MixedHex(s) && !UuidText(s) && !VersionText(s)
  }

  // ---- The two descriptions agree ---------------------------------------------------------------

  lemma DigitChar(c: char)
    ensures IsDigit(c) <==> c in DIGIT_CHARS
  {
  }

  lemma HexChar(c: char)
    ensures IsHex(c) <==> c in HEX_CHARS
  {
  }

  lemma OnlyDigits(s: string)
    ensures AllDigits(s) <==> Only(s, DIGIT_CHARS)
  {
    forall c: char ensures IsDigit(c) <==> c in DIGIT_CHARS { DigitChar(c); }
    if AllDigits(s) {
    } else {
      var i :| 0 <= i < |s| && !IsDigit(s[i]);
      assert s[i] in s;
    }
  }

  lemma OnlyHex(s: string)
    ensures AllHex(s) <==> Only(s, HEX_CHARS)
  {
    forall c: char ensures IsHex(c) <==> c in HEX_CHARS { HexChar(c); }
    if AllHex(s) {
    } else {
      var i :| 0 <= i < |s| && !IsHex(s[i]);
      assert s[i] in s;
    }
  }

  /** The last groups of a UUID, from a given place on. */
  ghost predicate DashedFrom(s: string, from: nat)
  {
    |s| == 36 - from && forall i :: 0 <= i < |s| ==> if DashPlace(from + i) then s[i] == '-' else IsHex(s[i])
  }

  lemma LastGroup(s: string)
    ensures DashedHex([12], s) <==> DashedFrom(s, 24)
  {
    if DashedFrom(s, 24) {
      forall i | 0 <= i < |s| ensures IsHex(s[i]) { assert !DashPlace(24 + i); }
    }
  }

  lemma GroupBefore(n: nat, lens: seq<nat>, s: string, from: nat)
    requires lens != [] && from + n < 36 && DashPlace(from + n)
    requires forall i :: from <= i < from + n ==> !DashPlace(i)
    requires |s| > n ==> (DashedHex(lens, s[n + 1..]) <==> DashedFrom(s[n + 1..], from + n + 1))
    ensures DashedHex([n] + lens, s) <==> DashedFrom(s, from)
  {
    assert ([n] + lens)[1..] == lens;
    if |s| > n {
      var rest := s[n + 1..];
      if DashedHex([n] + lens, s) {
        forall i | 0 <= i < |s| ensures if DashPlace(from + i) then s[i] == '-' else IsHex(s[i]) {
          if i < n { assert s[..n][i] == s[i]; }
          else if i > n { assert rest[i - n - 1] == s[i] && from + n + 1 + (i - n - 1) == from + i; }
        }
      }
      if DashedFrom(s, from) {
        assert s[n] == '-';
        forall i | 0 <= i < n ensures IsHex(s[..n][i]) { assert !DashPlace(from + i); }
        forall i | 0 <= i < |rest| ensures if DashPlace(from + n + 1 + i) then rest[i] == '-' else IsHex(rest[i]) {
          assert rest[i] == s[n + 1 + i] && from + (n + 1 + i) == from + n + 1 + i;
        }
      }
    }
  }

  lemma GroupsFlat(s: string)
    ensures DashedHex(UUID_GROUPS, s) <==> DashedFrom(s, 0)
  {
    forall t: string ensures DashedHex([4, 12], t) <==> DashedFrom(t, 19) {
      if |t| > 4 { LastGroup(t[5..]); }
      GroupBefore(4, [12], t, 19);
      assert [4] + [12] == [4, 12];
    }
    forall t: string ensures DashedHex([4, 4, 12], t) <==> DashedFrom(t, 14) {
      GroupBefore(4, [4, 12], t, 14);
      assert [4] + [4, 12] == [4, 4, 12];
    }
    forall t: string ensures DashedHex([4, 4, 4, 12], t) <==> DashedFrom(t, 9) {
      GroupBefore(4, [4, 4, 12], t, 9);
      assert [4] + [4, 4, 12] == [4, 4, 4, 12];
    }
    GroupBefore(8, [4, 4, 4, 12], s, 0);
    assert [8] + [4, 4, 4, 12] == UUID_GROUPS;
  }

  lemma UuidFlat(s: string)
    ensures DashedHex(UUID_GROUPS, s) <==> UuidText(s)
  {
    GroupsFlat(s);
    forall i | 0 <= i < |s| ensures IsHex(s[i]) <==> s[i] in HEX_CHARS { HexChar(s[i]); }
  }

  lemma SomeDigit(s: string)
    ensures (exists i :: 0 <= i < |s| && IsDigit(s[i])) <==> exists c :: c in s && c in DIGIT_CHARS
  {
    if i :| 0 <= i < |s| && IsDigit(s[i]) { DigitChar(s[i]); assert s[i] in s; }
    if c :| c in s && c in DIGIT_CHARS {
      DigitChar(c);
      var i :| 0 <= i < |s| && s[i] == c;
    }
  }

  lemma PrefixChars(s: string)
    ensures PrefixedHex(s) <==> |s| >= 3 && s[0] == '0' && s[1] == 'x' && AllHex(s[2..])
  {
    if |s| > 2 {
      OnlyHex(s[2..]);
      if s[0] == '0' && s[1] == 'x' { assert s[..2] == "0x"; }
      if s[..2] == "0x" { assert s[0] == s[..2][0] && s[1] == s[..2][1]; }
    }
  }

  /** Each segment has the one class it is a member of. */
  lemma ClassifyExactly(s: string, c: SegmentClass)
    ensures Classify(s) == c <==> Member(c, s)
  {
    UuidFlat(s);
    PrefixChars(s);
    OnlyDigits(s);
    OnlyHex(s);
    SomeDigit(s);
    if |s| > 1 { OnlyDigits(s[1..]); }
    ClassesApart(s);
  }

  lemma ClassesApart(s: string)
    ensures UuidText(s) ==> !NumberText(s) && !PrefixedHex(s) && !MixedHex(s) && !VersionText(s)
    ensures PrefixedHex(s) ==> !NumberText(s) && !MixedHex(s) && !VersionText(s)
    ensures VersionText(s) ==> !NumberText(s) && !MixedHex(s)
  {
    if UuidText(s) { assert s[8] in s && s[8] == '-' && s[8] == s[1..][7] && s[8] == s[2..][6]; }
    if PrefixedHex(s) { assert s[..2][1] == s[1] && s[1] in s; }
    if VersionText(s) { assert s[0] in s; }
  }

  // ---- What the rule of a path accepts ----------------------------------------------------------

  predicate Opens(c: SegmentClass) { c in {Numeric, HexPrefix, HexRun, UUID} }

  /** What a template accepts at a place of the class: any hex digits where hex runs were seen. */
  ghost predicate Takes(c: SegmentClass, s: string)
  {
    match c
    case HexRun => s != "" && Only(s, HEX_CHARS)
    case _ => Member(c, s)
  }

  lemma TakesIsAccepts(c: SegmentClass, s: string)
    requires Opens(c)
    ensures Takes(c, s) <==> Accepts(c, s)
  {
    ClassifyExactly(s, c);
    ClassAccepts(s, c);
    OnlyHex(s);
  }

  /** Every path of g has a member of the class at pos, and two of them have different ones. */
  ghost predicate OpenAs(g: set<string>, pos: nat, c: SegmentClass)
  {
    && Opens(c)
    && (forall q :: q in g ==> pos < |SegsOf(q)| && Member(c, SegsOf(q)[pos]))
    && exists a, b :: a in g && b in g && Differ(a, b, pos)
  }

  lemma OpenIsClass(g: set<string>, pos: nat, c: SegmentClass)
    ensures OpenAs(g, pos, c) <==> ClassPosition(g, pos, c)
  {
    forall q | q in g && pos < |SegsOf(q)| ensures Member(c, SegsOf(q)[pos]) <==> Classify(SegsOf(q)[pos]) == c {
      ClassifyExactly(SegsOf(q)[pos], c);
    }
  }

  ghost predicate Open(g: set<string>, pos: nat)
  {
    exists c :: OpenAs(g, pos, c)
  }

  ghost predicate SomeOpen(g: set<string>, p: string)
  {
    exists pos :: 0 <= pos < |SegsOf(p)| && Open(g, pos)
  }

  /** The paths that have p's segments wherever no class was found. */
  ghost function Fellows(g: set<string>, p: string): set<string>
  {
    set q | q in g && |SegsOf(q)| == |SegsOf(p)|
            && forall pos :: 0 <= pos < |SegsOf(p)| && !Open(g, pos) ==> SegsOf(q)[pos] == SegsOf(p)[pos]
  }

  const HEX_TEXT: string := "[0-9a-fA-F]"

  /** What is written at a place. */
  ghost function Written(g: set<string>, p: string, pos: nat): string
    requires pos < |SegsOf(p)|
  {
    if OpenAs(g, pos, Numeric) then "[0-9]+"
    else if OpenAs(g, pos, HexPrefix) then "0x" + HEX_TEXT + "+"
    else if OpenAs(g, pos, HexRun) then HEX_TEXT + "+"
    else if OpenAs(g, pos, UUID) then HEX_TEXT + "{8}-" + HEX_TEXT + "{4}-" + HEX_TEXT + "{4}-" + HEX_TEXT + "{4}-" + HEX_TEXT + "{12}"
    else QuoteMeta(SegsOf(p)[pos])
  }

  ghost function Pattern(g: set<string>, p: string): string
  {
    "^/" + Join(seq(|SegsOf(p)|, pos requires 0 <= pos < |SegsOf(p)| => Written(g, p, pos)), '/') + "$"
  }

  /** Enough paths agree with p where no class was found, and their pattern is short enough. */
  ghost predicate Collapses(g: set<string>, p: string, minDistinct: int)
  {
    SomeOpen(g, p) && |Fellows(g, p)| >= minDistinct && |Pattern(g, p)| <= 256
  }

  /** What a collapsed path stands for. */
  ghost predicate Stands(g: set<string>, p: string, w: string)
  {
    && w != "" && w[0] == '/' && |SegsOf(w)| == |SegsOf(p)|
    && forall pos :: 0 <= pos < |SegsOf(p)| ==>
         if Open(g, pos) then forall c :: OpenAs(g, pos, c) ==> Takes(c, SegsOf(w)[pos])
         else SegsOf(w)[pos] == SegsOf(p)[pos]
  }

  /** At most one class is found at a place, and it is the slot's. */
  lemma OpenSlot(g: set<string>, p: string, pos: nat)
    requires p in g && pos < |SegsOf(p)|
    ensures Open(g, pos) <==> SlotAt(g, p, pos).Class?
    ensures !Open(g, pos) ==> SlotAt(g, p, pos) == Fixed(SegsOf(p)[pos])
    ensures forall c :: OpenAs(g, pos, c) <==> SlotAt(g, p, pos) == Class(c)
  {
    forall c ensures OpenAs(g, pos, c) <==> SlotAt(g, p, pos) == Class(c) {
      OpenIsClass(g, pos, c);
    }
  }

  lemma WrittenIsSlot(g: set<string>, p: string, pos: nat)
    requires p in g && pos < |SegsOf(p)|
    ensures Written(g, p, pos) == SlotText(SlotAt(g, p, pos))
  {
    OpenSlot(g, p, pos);
    FragmentText();
  }

  lemma FragmentText()
    ensures Fragment(Numeric) == "[0-9]+"
    ensures Fragment(HexPrefix) == "0x" + HEX_TEXT + "+"
    ensures Fragment(HexRun) == HEX_TEXT + "+"
    ensures Fragment(UUID) == HEX_TEXT + "{8}-" + HEX_TEXT + "{4}-" + HEX_TEXT + "{4}-" + HEX_TEXT + "{4}-" + HEX_TEXT + "{12}"
  {
  }

  lemma PatternIsTemplate(g: set<string>, p: string)
    requires p in g
    ensures Pattern(g, p) == TemplateText(Shape(g, p))
  {
    var own := seq(|SegsOf(p)|, pos requires 0 <= pos < |SegsOf(p)| => Written(g, p, pos));
    forall pos | 0 <= pos < |SegsOf(p)| ensures own[pos] == Texts(Shape(g, p))[pos] { WrittenIsSlot(g, p, pos); }
    assert own == Texts(Shape(g, p));
  }

  /** The cluster of a path is its fellows. */
  lemma ClusterIsFellows(g: set<string>, p: string)
    requires Uniform(g) && NulFree(g) && p in g
    ensures Cluster(g, p) == Fellows(g, p)
  {
    forall q | q in g ensures q in Cluster(g, p) <==> q in Fellows(g, p) {
      if q in Cluster(g, p) { ClusterSharesShape(g, p, q); }
      forall pos | 0 <= pos < |SegsOf(p)|
        ensures Shape(g, q)[pos] == Shape(g, p)[pos] <==> Open(g, pos) || SegsOf(q)[pos] == SegsOf(p)[pos]
      {
        OpenSlot(g, p, pos);
        OpenSlot(g, q, pos);
        if Open(g, pos) { ClassShared(g, p, q, pos); }
      }
      if q in Fellows(g, p) { assert Shape(g, q) == Shape(g, p); }
    }
  }

  lemma CollapsesIsTemplate(g: set<string>, p: string, minDistinct: int)
    requires Uniform(g) && NulFree(g) && p in g
    ensures Collapses(g, p, minDistinct) <==> IsTemplate(g, p, minDistinct)
    ensures Collapses(g, p, minDistinct) ==> ClusterPattern(g, p) == Pattern(g, p)
  {
    ClusterIsFellows(g, p);
    forall pos | 0 <= pos < |SegsOf(p)| ensures Open(g, pos) <==> SlotAt(g, p, pos).Class? { OpenSlot(g, p, pos); }
    ClusterSharesShape(g, p, Head(g, p));
    PatternIsTemplate(g, p);
  }

  /**
   The rule of an observed path, by the characters of the paths alone. It is a template exactly when
   at some place all paths of its segment count have a number, a 0x-prefixed hex value, a UUID or a
   mixed hex run, and not all the same one, at least minDistinct of them agree with it at all other
   places, and the pattern has at most 256 characters. A template accepts the rooted texts that agree with the
   path at the other places and have such a value at each of these; a literal rule accepts the path.
   */
  lemma RuleExactly(s: set<string>, p: string, minDistinct: int, w: string)
    requires p in s && NulFree(s)
    ensures var g := GroupOf(s, p);
            PatternMatches(RuleFor(s, p, minDistinct), w) <==>
            if Collapses(g, p, minDistinct) then Stands(g, p, w) else w == if p == "" then "/" else p
    ensures Collapses(GroupOf(s, p), p, minDistinct) ==> RuleFor(s, p, minDistinct) == Pattern(GroupOf(s, p), p)
  {
    var g := GroupOf(s, p);
    GroupUniform(s, |SegsOf(p)|);
    OwnLanguage(s, p, minDistinct, w);
    CollapsesIsTemplate(g, p, minDistinct);
    if w != "" && w[0] == '/' && |SegsOf(w)| == |SegsOf(p)| { StandsIsFits(g, p, w); }
  }

  lemma StandsIsFits(g: set<string>, p: string, w: string)
    requires p in g && w != "" && w[0] == '/' && |SegsOf(w)| == |SegsOf(p)|
    ensures Stands(g, p, w) <==> ShapeFits(Shape(g, p), w)
  {
    forall pos | 0 <= pos < |SegsOf(p)|
      ensures SlotFits(Shape(g, p)[pos], SegsOf(w)[pos]) <==>
              if Open(g, pos) then forall c :: OpenAs(g, pos, c) ==> Takes(c, SegsOf(w)[pos])
              else SegsOf(w)[pos] == SegsOf(p)[pos]
    {
      OpenSlot(g, p, pos);
      var slot := SlotAt(g, p, pos);
      if slot.Class? { TakesIsAccepts(slot.c, SegsOf(w)[pos]); }
    }
  }

  // ---- Words keep their own rules ---------------------------------------------------------------

  predicate Letter(c: char) { 'a' <= c <= 'z' || 'A' <= c <= 'Z' }

  /** Letters only, or a version, or shorter than a hex run and neither a number nor 0x-prefixed. */
  ghost predicate StaysPut(s: string)
  {
    || (forall c :: c in s ==> Letter(c))
    || VersionText(s)
    || (|s| < 6 && !NumberText(s) && !PrefixedHex(s))
  }

  lemma LettersAreClosed(s: string)
    requires forall c :: c in s ==> Letter(c)
    ensures !NumberText(s) && !PrefixedHex(s) && !MixedHex(s) && !UuidText(s)
  {
    if s != "" {
      assert s[0] in s;
      assert s[0] !in DIGIT_CHARS by { DigitChar(s[0]); }
    }
    forall c | c in s ensures c !in DIGIT_CHARS { DigitChar(c); }
    if |s| == 36 { assert s[8] in s; }
  }

  lemma StayingIsClosed(s: string)
    requires StaysPut(s)
    ensures forall c :: Opens(c) ==> !Member(c, s)
  {
    if forall c :: c in s ==> Letter(c) {
      LettersAreClosed(s);
    } else if VersionText(s) {
      ClassesApart(s);
    }
  }

  /**
   The rule of a path with such a segment accepts no text with another segment there: "decade" and
   "v2" stay literal however many such values are seen.
   */
  lemma WordsStayLiteral(s: set<string>, p: string, pos: nat, minDistinct: int, w: string)
    requires p in s && NulFree(s) && pos < |SegsOf(p)| && StaysPut(SegsOf(p)[pos])
    requires PatternMatches(RuleFor(s, p, minDistinct), w)
    ensures |SegsOf(w)| == |SegsOf(p)| && SegsOf(w)[pos] == SegsOf(p)[pos]
  {
    RuleExactly(s, p, minDistinct, w);
    StayingIsClosed(SegsOf(p)[pos]);
    WireSegs(p);
  }

  /** A path of such segments only keeps its own rule. */
  lemma WordPathStaysLiteral(s: set<string>, p: string, minDistinct: int)
    requires p in s && NulFree(s) && forall pos :: 0 <= pos < |SegsOf(p)| ==> StaysPut(SegsOf(p)[pos])
    ensures RuleFor(s, p, minDistinct) == LiteralRule(p)
    ensures forall w :: PatternMatches(RuleFor(s, p, minDistinct), w) <==> w == if p == "" then "/" else p
  {
    var g := GroupOf(s, p);
    GroupUniform(s, |SegsOf(p)|);
    forall pos | 0 <= pos < |SegsOf(p)| ensures !Open(g, pos) { StayingIsClosed(SegsOf(p)[pos]); }
    CollapsesIsTemplate(g, p, minDistinct);
    forall w ensures PatternMatches(RuleFor(s, p, minDistinct), w) <==> w == if p == "" then "/" else p {
      RuleExactly(s, p, minDistinct, w);
    }
  }

  // ---- Enough values of one class are a template ------------------------------------------------

  /** The paths of s with p's segment count agree with p everywhere but at pos, and have members there. */
  ghost predicate VaryAt(g: set<string>, p: string, pos: nat, c: SegmentClass)
    requires pos < |SegsOf(p)|
  {
    forall q :: q in g ==>
      && |SegsOf(q)| == |SegsOf(p)| && Member(c, SegsOf(q)[pos])
      && forall i :: 0 <= i < |SegsOf(p)| && i != pos ==> SegsOf(q)[i] == SegsOf(p)[i]
  }

  /** Paths written alike at the root are told apart by their segments. */
  lemma SegsTellApart(p: string, q: string)
    requires p != "" && q != "" && p[0] == '/' && q[0] == '/' && SegsOf(p) == SegsOf(q)
    ensures p == q
  {
    JoinSplit(TrimSlash(p), '/');
    JoinSplit(TrimSlash(q), '/');
    assert p == "/" + TrimSlash(p) && q == "/" + TrimSlash(q);
  }

  /**
   Two or more rooted paths, and enough for the gate, that differ at one place only and have a number,
   a 0x-prefixed hex value, a UUID or a mixed hex run there: every one of their rules accepts exactly
   the rooted texts with such a value there and the same segments elsewhere.
   */
  lemma EnoughValuesCollapse(s: set<string>, p: string, pos: nat, c: SegmentClass, minDistinct: int, w: string)
    requires p in s && NulFree(s) && pos < |SegsOf(p)| && Opens(c) && VaryAt(GroupOf(s, p), p, pos, c)
    requires |GroupOf(s, p)| >= 2 && |GroupOf(s, p)| >= minDistinct
    requires forall q :: q in GroupOf(s, p) ==> q != "" && q[0] == '/'
    requires |Pattern(GroupOf(s, p), p)| <= 256
    ensures PatternMatches(RuleFor(s, p, minDistinct), w) <==>
            && w != "" && w[0] == '/' && |SegsOf(w)| == |SegsOf(p)| && Takes(c, SegsOf(w)[pos])
            && forall i :: 0 <= i < |SegsOf(p)| && i != pos ==> SegsOf(w)[i] == SegsOf(p)[i]
  {
    var g := GroupOf(s, p);
    GroupUniform(s, |SegsOf(p)|);
    RuleExactly(s, p, minDistinct, w);
    OneOpenPlace(g, p, pos, c);
    assert Fellows(g, p) == g;
    assert Open(g, pos);
  }

  lemma OneOpenPlace(g: set<string>, p: string, pos: nat, c: SegmentClass)
    requires p in g && pos < |SegsOf(p)| && Opens(c) && VaryAt(g, p, pos, c) && |g| >= 2
    requires forall q :: q in g ==> q != "" && q[0] == '/'
    ensures forall d :: OpenAs(g, pos, d) <==> d == c
    ensures forall i: nat :: i < |SegsOf(p)| && i != pos ==> !Open(g, i)
    ensures g <= Fellows(g, p)
  {
    var other := OtherPath(g, p);
    if SegsOf(other)[pos] == SegsOf(p)[pos] {
      assert SegsOf(other) == SegsOf(p);
      SegsTellApart(other, p);
    }
    assert Differ(p, other, pos);
    forall d | Member(d, SegsOf(p)[pos]) ensures d == c {
      ClassifyExactly(SegsOf(p)[pos], c);
      ClassifyExactly(SegsOf(p)[pos], d);
    }
    forall i: nat | i < |SegsOf(p)| && i != pos ensures !Open(g, i) {
      forall a, b | a in g && b in g ensures !Differ(a, b, i) {}
    }
    assert OpenAs(g, pos, c);
    assert Open(g, pos);
  }

  lemma {:induction false} QuoteAtMostDoubles(s: string)
    ensures |QuoteMeta(s)| <= 2 * |s|
  {
    if s != "" { QuoteAtMostDoubles(s[1..]); }
  }

  lemma {:induction false} JoinAtMostDoubles(a: seq<string>, b: seq<string>, at: int, extra: nat)
    requires |a| == |b|
    requires forall i :: 0 <= i < |a| ==> |a[i]| <= 2 * |b[i]| + if i == at then extra else 0
    ensures |Join(a, '/')| <= 2 * |Join(b, '/')| + if 0 <= at < |a| then extra else 0
  {
    if |a| > 1 {
      JoinAtMostDoubles(a[1..], b[1..], at - 1, extra);
    }
  }

  lemma WrittenLength(g: set<string>, p: string, pos: nat)
    requires p in g && pos < |SegsOf(p)|
    ensures |Written(g, p, pos)| <= 2 * |SegsOf(p)[pos]| + if Open(g, pos) then 75 else 0
  {
    QuoteAtMostDoubles(SegsOf(p)[pos]);
  }

  /** Paths of up to ninety characters that vary at one place stay below the cap. */
  lemma ShortPathFits(g: set<string>, p: string, pos: nat, c: SegmentClass)
    requires p in g && pos < |SegsOf(p)| && Opens(c) && VaryAt(g, p, pos, c) && |g| >= 2
    requires forall q :: q in g ==> q != "" && q[0] == '/'
    requires |p| <= 90
    ensures |Pattern(g, p)| <= 256
  {
    OneOpenPlace(g, p, pos, c);
    var own := seq(|SegsOf(p)|, i requires 0 <= i < |SegsOf(p)| => Written(g, p, i));
    forall i | 0 <= i < |own| ensures |own[i]| <= 2 * |SegsOf(p)[i]| + if i == pos then 75 else 0 {
      WrittenLength(g, p, i);
      if i != pos { assert !Open(g, i); }
    }
    JoinAtMostDoubles(own, SegsOf(p), pos, 75);
    JoinSplit(TrimSlash(p), '/');
  }
}
