/** Path segments: their classes, the pattern text each class becomes, and template shapes. */
module Segments {
  import opened Text
  import opened Regex

  datatype SegmentClass = Word | Numeric | HexPrefix | HexRun | UUID | Version

  predicate AllDigits(s: string) { forall i :: 0 <= i < |s| ==> IsDigit(s[i]) }

  predicate AllHex(s: string) { forall i :: 0 <= i < |s| ==> IsHex(s[i]) }

  /** Runs of hex digits of the given lengths with a dash between them. */
  predicate DashedHex(lens: seq<nat>, s: string)
  {
    if |lens| == 0 then s == ""
    else if |lens| == 1 then |s| == lens[0] && AllHex(s)
    else |s| > lens[0] && AllHex(s[..lens[0]]) && s[lens[0]] == '-' && DashedHex(lens[1..], s[lens[0] + 1..])
  }

  const UUID_GROUPS: seq<nat> := [8, 4, 4, 4, 12]

  function Classify(seg: string): SegmentClass
  {
    if DashedHex(UUID_GROUPS, seg) then UUID
    else if |seg| >= 3 && seg[0] == '0' && seg[1] == 'x' && AllHex(seg[2..]) then HexPrefix
    else if seg != "" && AllDigits(seg) then Numeric
    else if |seg| >= 6 && AllHex(seg) && (exists i :: 0 <= i < |seg| && IsDigit(seg[i])) then HexRun
    else if |seg| >= 2 && seg[0] == 'v' && AllDigits(seg[1..]) then Version
    else Word
  }

  predicate Generalizable(c: SegmentClass)
  {
    c == Numeric || c == HexPrefix || c == HexRun || c == UUID
  }

  function Fragment(c: SegmentClass): string
  {
    match c
    case Numeric => DIGITS + "+"
    case HexPrefix => "0x" + HEX + "+"
    case HexRun => HEX + "+"
    case UUID => HEX + "{8}-" + HEX + "{4}-" + HEX + "{4}-" + HEX + "{4}-" + HEX + "{12}"
    case _ => ""
  }

  function FragmentAtoms(c: SegmentClass): seq<Atom>
  {
    match c
    case Numeric => [Plus(Digits)]
    case HexPrefix => [Lit('0'), Lit('x'), Plus(HexDigits)]
    case HexRun => [Plus(HexDigits)]
    case UUID => DashedAtoms(UUID_GROUPS)
    case _ => []
  }

  function DashedAtoms(lens: seq<nat>): seq<Atom>
  {
    if |lens| == 0 then []
    else if |lens| == 1 then [Times(HexDigits, lens[0])]
    else [Times(HexDigits, lens[0]), Lit('-')] + DashedAtoms(lens[1..])
  }

  /** The segments a class fragment accepts, character by character. */
  predicate Accepts(c: SegmentClass, s: string)
  {
    match c
    case Numeric => s != "" && AllDigits(s)
    case HexPrefix => |s| >= 3 && s[0] == '0' && s[1] == 'x' && AllHex(s[2..])
    case HexRun => s != "" && AllHex(s)
    case UUID => DashedHex(UUID_GROUPS, s)
    case _ => s == ""
  }

  lemma {:induction false} DashedAtomsMatch(lens: seq<nat>, s: string)
    ensures Matches(DashedAtoms(lens), s) <==> DashedHex(lens, s)
    decreases |lens|
  {
    if |lens| == 1 {
      var n := lens[0];
      assert DashedAtoms(lens)[1..] == [];
      if |s| == n { assert s[..n] == s; }
    } else if |lens| > 1 {
      var n := lens[0];
      var atoms := DashedAtoms(lens);
      assert atoms[1..][1..] == DashedAtoms(lens[1..]);
      if n < |s| {
        DashedAtomsMatch(lens[1..], s[n + 1..]);
        assert s[n..][1..] == s[n + 1..];
        assert Matches(atoms[1..], s[n..]) <==> s[n] == '-' && Matches(DashedAtoms(lens[1..]), s[n + 1..]);
      }
    }
  }

  lemma HexPrefixMatches(s: string)
    ensures Matches(FragmentAtoms(HexPrefix), s) <==> Accepts(HexPrefix, s)
  {
    var atoms := FragmentAtoms(HexPrefix);
    assert atoms[1..] == [Lit('x'), Plus(HexDigits)];
    assert atoms[1..][1..] == [Plus(HexDigits)];
    if |s| >= 2 {
      assert s[1..][1..] == s[2..];
      PlusMatches(HexDigits, s[2..]);
    }
  }

  lemma FragmentMatches(c: SegmentClass, s: string)
    ensures Matches(FragmentAtoms(c), s) <==> Accepts(c, s)
  {
    match c
    case Numeric => PlusMatches(Digits, s);
    case HexRun => PlusMatches(HexDigits, s);
    case HexPrefix => HexPrefixMatches(s);
    case UUID => DashedAtomsMatch(UUID_GROUPS, s);
    case _ =>
  }

  /** A segment is accepted by the fragment of its own class; only hex runs are widened. */
  lemma {:induction false} ClassAccepts(s: string, c: SegmentClass)
    requires Generalizable(c)
    ensures Classify(s) == c ==> Accepts(c, s)
    ensures c != HexRun ==> (Accepts(c, s) <==> Classify(s) == c)
  {
    if s != "" && (AllDigits(s) || (|s| >= 2 && s[1] == 'x')) {
      NotDashed(s);
    }
    if Accepts(HexPrefix, s) { assert !IsDigit(s[1]); }
  }

  lemma NotDashed(s: string)
    requires AllDigits(s) || (|s| >= 2 && s[1] == 'x')
    ensures !DashedHex(UUID_GROUPS, s)
  {
    if |s| > 8 {
      assert s[..8][1] == s[1];
      assert !IsHex('x') && !IsDigit('-');
    }
  }

  lemma ParseFragment(c: SegmentClass, rest: string)
    requires Generalizable(c)
    ensures Parse(Fragment(c) + rest) == Append(FragmentAtoms(c), Parse(rest))
  {
    match c
    case Numeric => ParsePlus(Digits, rest);
    case HexRun => ParsePlus(HexDigits, rest);
    case HexPrefix => ParseHexPrefix(rest);
    case UUID => ParseUUID(rest);
  }

  lemma ParseHexPrefix(rest: string)
    ensures Parse(Fragment(HexPrefix) + rest) == Append(FragmentAtoms(HexPrefix), Parse(rest))
  {
    ParsePlus(HexDigits, rest);
    var tail := HEX + "+" + rest;
    ParseQuotedChar('x', tail);
    ParseQuotedChar('0', "x" + tail);
    assert Fragment(HexPrefix) + rest == "0" + ("x" + tail);
    PrependAppend(Lit('x'), [Plus(HexDigits)], Parse(rest));
    PrependAppend(Lit('0'), [Lit('x'), Plus(HexDigits)], Parse(rest));
    assert [Lit('x')] + [Plus(HexDigits)] == [Lit('x'), Plus(HexDigits)];
    assert [Lit('0')] + [Lit('x'), Plus(HexDigits)] == FragmentAtoms(HexPrefix);
  }

  /** One run of a dashed fragment: HEX{n} with n written num. */
  function RunText(num: string): string { HEX + "{" + num + "}" }

  lemma {:induction false} ParseRun(num: string, n: nat, more: seq<Atom>, tail: string, rest: string)
    requires IsNumber(num) && ReadNumber(num, 0) == (n, |num|)
    requires Parse(tail) == Append(more, Parse(rest))
    ensures Parse(RunText(num) + "-" + tail) == Append([Times(HexDigits, n), Lit('-')] + more, Parse(rest))
  {
    ParseQuotedChar('-', tail);
    ParseTimes(HexDigits, num, n, "-" + tail);
    assert RunText(num) + "-" + tail == ClassText(HexDigits) + "{" + num + "}" + ("-" + tail);
    PrependAppend(Lit('-'), more, Parse(rest));
    PrependAppend(Times(HexDigits, n), [Lit('-')] + more, Parse(rest));
    assert [Times(HexDigits, n)] + ([Lit('-')] + more) == [Times(HexDigits, n), Lit('-')] + more;
  }

  lemma ReadSmallNumbers()
    ensures IsNumber("4") && IsNumber("8") && IsNumber("12")
    ensures ReadNumber("4", 0) == (4, 1) && ReadNumber("8", 0) == (8, 1) && ReadNumber("12", 0) == (12, 2)
  {
    assert "4"[1..] == "" && "8"[1..] == "";
    assert "12"[1..] == "2" && "2"[1..] == "";
    assert ReadNumber("", 4) == (4, 0) && ReadNumber("", 8) == (8, 0) && ReadNumber("", 12) == (12, 0);
    assert ReadNumber("2", 1) == (12, 1);
  }

  lemma ParseUUID(rest: string)
    ensures Parse(Fragment(UUID) + rest) == Append(FragmentAtoms(UUID), Parse(rest))
  {
    ReadSmallNumbers();
    ParseTimes(HexDigits, "12", 12, rest);
    var a0 := DashedAtoms([12]);
    var t0 := RunText("12") + rest;
    assert Parse(t0) == Append(a0, Parse(rest));
    var a1, t1 := DashedAtoms([4, 12]), RunText("4") + "-" + t0;
    ParseRun("4", 4, a0, t0, rest);
    assert [4, 12][1..] == [12];
    var a2, t2 := DashedAtoms([4, 4, 12]), RunText("4") + "-" + t1;
    ParseRun("4", 4, a1, t1, rest);
    assert [4, 4, 12][1..] == [4, 12];
    var a3, t3 := DashedAtoms([4, 4, 4, 12]), RunText("4") + "-" + t2;
    ParseRun("4", 4, a2, t2, rest);
    assert [4, 4, 4, 12][1..] == [4, 4, 12];
    ParseRun("8", 8, a3, t3, rest);
    assert UUID_GROUPS[1..] == [4, 4, 4, 12];
    UUIDText(rest);
  }

  lemma UUIDText(rest: string)
    ensures Fragment(UUID) + rest
         == RunText("8") + "-" + (RunText("4") + "-" + (RunText("4") + "-" + (RunText("4") + "-" + (RunText("12") + rest))))
  {
    var a, d, z := RunText("8") + "-", RunText("4") + "-", RunText("12");
    assert a == HEX + "{8}-" && d == HEX + "{4}-" && z == HEX + "{12}";
    assert Fragment(UUID) == a + d + d + d + z;
    Regroup(a, d, z, rest);
  }

  lemma Regroup(a: string, d: string, z: string, rest: string)
    ensures a + d + d + d + z + rest == a + (d + (d + (d + (z + rest))))
  {
  }

  // ---- Template shapes -------------------------------------------------------------------

  /** One position of a template: an observed segment kept as it is, or a class. */
  datatype Slot = Fixed(seg: string) | Class(c: SegmentClass)

  ghost predicate WellFormed(shape: seq<Slot>)
  {
    |shape| >= 1 && forall i :: 0 <= i < |shape| ==>
      match shape[i] case Fixed(s) => '/' !in s case Class(c) => Generalizable(c)
  }

  function SlotText(slot: Slot): string
  {
    match slot case Fixed(s) => QuoteMeta(s) case Class(c) => Fragment(c)
  }

  function SlotAtoms(slot: Slot): seq<Atom>
  {
    match slot case Fixed(s) => Literal(s) case Class(c) => FragmentAtoms(c)
  }

  predicate SlotFits(slot: Slot, part: string)
  {
    match slot case Fixed(s) => part == s case Class(c) => Accepts(c, part)
  }

  ghost function Texts(shape: seq<Slot>): (r: seq<string>)
    ensures |r| == |shape|
  {
    seq(|shape|, i requires 0 <= i < |shape| => SlotText(shape[i]))
  }

  ghost function Atoms(shape: seq<Slot>): (r: seq<seq<Atom>>)
    ensures |r| == |shape|
  {
    seq(|shape|, i requires 0 <= i < |shape| => SlotAtoms(shape[i]))
  }

  ghost function TemplateText(shape: seq<Slot>): string
  {
    "^/" + Join(Texts(shape), '/') + "$"
  }

  /** The language of a template: one segment per slot, each fitting its slot. */
  ghost predicate ShapeFits(shape: seq<Slot>, w: string)
  {
    && w != "" && w[0] == '/'
    && var parts := Split(w[1..], '/');
       |parts| == |shape| && forall i :: 0 <= i < |shape| ==> SlotFits(shape[i], parts[i])
  }

  lemma ParseSlot(slot: Slot, rest: string)
    requires slot.Class? ==> Generalizable(slot.c)
    ensures Parse(SlotText(slot) + rest) == Append(SlotAtoms(slot), Parse(rest))
  {
    match slot
    case Fixed(s) => ParseQuoted(s, rest);
    case Class(c) => ParseFragment(c, rest);
  }

  lemma SlotAtomsMatch(slot: Slot, part: string)
    ensures Matches(SlotAtoms(slot), part) <==> SlotFits(slot, part)
  {
    match slot
    case Fixed(s) => LiteralMatches(s, part);
    case Class(c) => FragmentMatches(c, part);
  }

  lemma {:induction false} LiteralAvoids(s: string, c: char)
    requires c !in s
    ensures Avoids(Literal(s), c)
  {
    if s != "" { LiteralAvoids(s[1..], c); }
  }

  lemma SlotAvoidsSlash(slot: Slot)
    requires match slot case Fixed(s) => '/' !in s case Class(c) => Generalizable(c)
    ensures Avoids(SlotAtoms(slot), '/')
  {
    match slot
    case Fixed(s) => LiteralAvoids(s, '/');
    case Class(c) =>
      assert UUID_GROUPS[1..] == [4, 4, 4, 12];
      assert [4, 4, 4, 12][1..] == [4, 4, 12];
      assert [4, 4, 12][1..] == [4, 12];
      assert [4, 12][1..] == [12];
  }

  lemma ParseSlashSlot(slot: Slot, tail: string, more: seq<Atom>)
    requires slot.Class? ==> Generalizable(slot.c)
    requires Parse(tail) == Some(more)
    ensures Parse("/" + (SlotText(slot) + tail)) == Some([Lit('/')] + SlotAtoms(slot) + more)
  {
    ParseSlot(slot, tail);
    ParseQuotedChar('/', SlotText(slot) + tail);
    assert [Lit('/')] + (SlotAtoms(slot) + more) == [Lit('/')] + SlotAtoms(slot) + more;
  }

  lemma {:induction false} ParseTemplateBody(shape: seq<Slot>)
    requires WellFormed(shape)
    ensures Parse("/" + Join(Texts(shape), '/')) == Some(PathAtoms(Atoms(shape)))
    decreases |shape|
  {
    var rest := shape[1..];
    assert Texts(shape)[1..] == Texts(rest);
    assert Atoms(shape)[1..] == Atoms(rest);
    if |shape| == 1 {
      ParseSlashSlot(shape[0], "", []);
      assert SlotText(shape[0]) + "" == Join(Texts(shape), '/');
    } else {
      ParseTemplateBody(rest);
      var tail := "/" + Join(Texts(rest), '/');
      ParseSlashSlot(shape[0], tail, PathAtoms(Atoms(rest)));
      assert SlotText(shape[0]) + tail == Join(Texts(shape), '/');
    }
  }

  /** A written template accepts exactly the paths that fit its shape. */
  lemma TemplateMatches(shape: seq<Slot>, w: string)
    requires WellFormed(shape)
    ensures PatternMatches(TemplateText(shape), w) <==> ShapeFits(shape, w)
  {
    ParseTemplateBody(shape);
    var t := TemplateText(shape);
    assert t[1..|t| - 1] == "/" + Join(Texts(shape), '/');
    var segs := Atoms(shape);
    forall i | 0 <= i < |segs| ensures Avoids(segs[i], '/') {
      SlotAvoidsSlash(shape[i]);
    }
    PathMatchesSegmentwise(segs, w);
    if w != "" {
      var parts := Split(w[1..], '/');
      forall i | 0 <= i < |shape| && |parts| == |shape|
        ensures Matches(segs[i], parts[i]) <==> SlotFits(shape[i], parts[i])
      {
        SlotAtomsMatch(shape[i], parts[i]);
      }
    }
  }

  /** The anchored literal rule for a raw path. */
  function LiteralRule(path: string): string
  {
    if path == "" then "^/$" else "^" + QuoteMeta(path) + "$"
  }

  /** The path a request for this raw path carries on the wire: an empty path is "/". */
  function Wire(path: string): string
  {
    if path == "" then "/" else path
  }

  /** A literal rule accepts the path it was written for and nothing else. */
  lemma LiteralRuleMatches(path: string, w: string)
    ensures PatternMatches(LiteralRule(path), w) <==> w == Wire(path)
  {
    var p := Wire(path);
    assert QuoteMeta("/") == "/" + QuoteMeta("");
    var t := LiteralRule(path);
    assert t == "^" + QuoteMeta(p) + "$";
    var body := t[1..|t| - 1];
    assert body == QuoteMeta(p) + "";
    ParseQuoted(p, "");
    assert Literal(p) + [] == Literal(p);
    LiteralMatches(p, w);
  }
}
