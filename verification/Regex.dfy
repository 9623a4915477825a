/**
 The fragment of POSIX extended regular expressions (IEEE Std 1003.1-2017, Base Definitions,
 section 9.4) that path rules are written in: quoted and ordinary characters, the bracket
 expressions [0-9] and [0-9a-fA-F], the repetitions + and {n}, concatenation, and the anchors
 around the whole pattern. A pattern is the text that is written to the policy; Parse reads it.
 */
module Regex {
  import opened Text

  datatype Option<T> = None | Some(value: T)

  datatype CharClass = Digits | HexDigits

  datatype Atom =
    | Lit(c: char)
    | Plus(cls: CharClass)
    | Times(cls: CharClass, n: nat)

  predicate IsDigit(c: char) { '0' <= c <= '9' }

  predicate IsHex(c: char) { IsDigit(c) || 'a' <= c <= 'f' || 'A' <= c <= 'F' }

  predicate InClass(cls: CharClass, c: char)
  {
    match cls
    case Digits => IsDigit(c)
    case HexDigits => IsHex(c)
  }

  ghost predicate AllIn(cls: CharClass, w: string)
  {
    forall i :: 0 <= i < |w| ==> InClass(cls, w[i])
  }

  // ---- Matching -------------------------------------------------------------------------

  /** w is in the language of the concatenation of atoms. */
  ghost predicate Matches(atoms: seq<Atom>, w: string)
    decreases |atoms|
  {
    if atoms == [] then w == ""
    else match atoms[0]
      case Lit(c) => w != "" && w[0] == c && Matches(atoms[1..], w[1..])
      case Plus(cls) => exists k :: PlusAt(cls, w, k) && Matches(atoms[1..], w[k..])
      case Times(cls, n) => n <= |w| && AllIn(cls, w[..n]) && Matches(atoms[1..], w[n..])
  }

  ghost predicate PlusAt(cls: CharClass, w: string, k: int)
  {
    1 <= k <= |w| && AllIn(cls, w[..k])
  }

  ghost predicate SplitsAt(a: seq<Atom>, b: seq<Atom>, w: string, i: int)
  {
    0 <= i <= |w| && Matches(a, w[..i]) && Matches(b, w[i..])
  }

  lemma {:induction false} MatchJoin(a: seq<Atom>, b: seq<Atom>, u: string, v: string)
    requires Matches(a, u) && Matches(b, v)
    ensures Matches(a + b, u + v)
    decreases |a|
  {
    if a == [] {
      assert a + b == b && u + v == v;
    } else {
      assert (a + b)[1..] == a[1..] + b;
      match a[0]
      case Lit(c) =>
        MatchJoin(a[1..], b, u[1..], v);
        assert (u + v)[1..] == u[1..] + v;
      case Plus(cls) =>
        var k :| PlusAt(cls, u, k) && Matches(a[1..], u[k..]);
        MatchJoin(a[1..], b, u[k..], v);
        assert (u + v)[k..] == u[k..] + v;
        assert (u + v)[..k] == u[..k];
        assert PlusAt(cls, u + v, k);
      case Times(cls, n) =>
        MatchJoin(a[1..], b, u[n..], v);
        assert (u + v)[n..] == u[n..] + v;
        assert (u + v)[..n] == u[..n];
    }
  }

  /** A word of a concatenation splits into a word of each part. */
  lemma {:induction false} MatchSplit(a: seq<Atom>, b: seq<Atom>, w: string) returns (i: nat)
    requires Matches(a + b, w)
    ensures SplitsAt(a, b, w, i)
    decreases |a|
  {
    if a == [] {
      assert a + b == b && w[0..] == w;
      i := 0;
    } else {
      assert (a + b)[1..] == a[1..] + b;
      match a[0]
      case Lit(c) =>
        var j := MatchSplit(a[1..], b, w[1..]);
        i := j + 1;
        assert w[..i][1..] == w[1..][..j];
        assert w[i..] == w[1..][j..];
      case Plus(cls) =>
        var k :| PlusAt(cls, w, k) && Matches((a + b)[1..], w[k..]);
        var j := MatchSplit(a[1..], b, w[k..]);
        i := j + k;
        assert w[..i][k..] == w[k..][..j];
        assert w[i..] == w[k..][j..];
        assert w[..i][..k] == w[..k];
        assert PlusAt(cls, w[..i], k);
      case Times(cls, n) =>
        var j := MatchSplit(a[1..], b, w[n..]);
        i := j + n;
        assert w[..i][n..] == w[n..][..j];
        assert w[i..] == w[n..][j..];
        assert w[..i][..n] == w[..n];
    }
  }

  function Literal(s: string): (r: seq<Atom>)
    ensures |r| == |s|
  {
    if s == "" then [] else [Lit(s[0])] + Literal(s[1..])
  }

  lemma {:induction false} LiteralMatches(s: string, w: string)
    ensures Matches(Literal(s), w) <==> w == s
  {
    if s != "" {
      assert Literal(s)[1..] == Literal(s[1..]);
      assert s == [s[0]] + s[1..];
      if w != "" {
        LiteralMatches(s[1..], w[1..]);
        assert w == [w[0]] + w[1..];
      }
    }
  }

  lemma PlusMatches(cls: CharClass, w: string)
    ensures Matches([Plus(cls)], w) <==> w != "" && AllIn(cls, w)
  {
    assert [Plus(cls)][1..] == [];
    if Matches([Plus(cls)], w) {
      var k :| PlusAt(cls, w, k) && Matches([], w[k..]);
      assert w[..k] == w;
    }
    if w != "" && AllIn(cls, w) {
      assert w[..|w|] == w;
      assert PlusAt(cls, w, |w|) && Matches([], w[|w|..]);
    }
  }

  /** No word of these atoms contains c. */
  ghost predicate Avoids(atoms: seq<Atom>, c: char)
  {
    forall i :: 0 <= i < |atoms| ==>
      match atoms[i]
      case Lit(d) => d != c
      case Plus(cls) => !InClass(cls, c)
      case Times(cls, n) => !InClass(cls, c)
  }

  lemma {:induction false} AvoidedNeverMatched(atoms: seq<Atom>, c: char, w: string)
    requires Avoids(atoms, c) && Matches(atoms, w)
    ensures c !in w
    decreases |atoms|
  {
    if atoms != [] {
      match atoms[0]
      case Lit(d) =>
        AvoidedNeverMatched(atoms[1..], c, w[1..]);
        assert w == [w[0]] + w[1..];
      case Plus(cls) =>
        var k :| PlusAt(cls, w, k) && Matches(atoms[1..], w[k..]);
        AvoidedNeverMatched(atoms[1..], c, w[k..]);
        assert w == w[..k] + w[k..];
      case Times(cls, n) =>
        AvoidedNeverMatched(atoms[1..], c, w[n..]);
        assert w == w[..n] + w[n..];
    }
  }

  // ---- Slash-separated sequences --------------------------------------------------------

  /** "/" r0 "/" r1 ... "/" rn. */
  function PathAtoms(segs: seq<seq<Atom>>): seq<Atom>
  {
    if segs == [] then [] else [Lit('/')] + segs[0] + PathAtoms(segs[1..])
  }

  ghost predicate SegmentsMatch(segs: seq<seq<Atom>>, parts: seq<string>)
  {
    |segs| == |parts| && forall i :: 0 <= i < |segs| ==> Matches(segs[i], parts[i])
  }

  lemma {:induction false} PathMatchesIfSegmentsDo(segs: seq<seq<Atom>>, parts: seq<string>)
    requires |segs| >= 1 && SegmentsMatch(segs, parts)
    ensures Matches(PathAtoms(segs), "/" + Join(parts, '/'))
    decreases |segs|
  {
    LiteralMatches("/", "/");
    assert Literal("/") == [Lit('/')];
    MatchJoin([Lit('/')], segs[0], "/", parts[0]);
    if |segs| == 1 {
      assert PathAtoms(segs) == [Lit('/')] + segs[0];
    } else {
      forall i | 0 <= i < |segs[1..]| ensures Matches(segs[1..][i], parts[1..][i]) {
        assert segs[1..][i] == segs[i + 1] && parts[1..][i] == parts[i + 1];
      }
      PathMatchesIfSegmentsDo(segs[1..], parts[1..]);
      MatchJoin([Lit('/')] + segs[0], PathAtoms(segs[1..]), "/" + parts[0], "/" + Join(parts[1..], '/'));
      assert "/" + Join(parts, '/') == "/" + parts[0] + ("/" + Join(parts[1..], '/'));
    }
  }

  lemma {:induction false} PathMatchImpliesSegments(segs: seq<seq<Atom>>, w: string)
    requires |segs| >= 1 && forall i :: 0 <= i < |segs| ==> Avoids(segs[i], '/')
    requires Matches(PathAtoms(segs), w)
    ensures w != "" && w[0] == '/' && SegmentsMatch(segs, Split(w[1..], '/'))
    decreases |segs|
  {
    var rest := PathAtoms(segs[1..]);
    assert PathAtoms(segs)[1..] == segs[0] + rest;
    var v := w[1..];
    var i := MatchSplit(segs[0], rest, v);
    AvoidedNeverMatched(segs[0], '/', v[..i]);
    assert v == v[..i] + v[i..];
    if |segs| == 1 {
      assert v[..i] == v;
      SplitAtSeparator(v, "", '/');
    } else {
      PathMatchImpliesSegments(segs[1..], v[i..]);
      FirstSegmentMatches(segs, v, i);
    }
  }

  lemma {:induction false} FirstSegmentMatches(segs: seq<seq<Atom>>, v: string, i: nat)
    requires |segs| >= 1 && i < |v| && v[i] == '/' && '/' !in v[..i]
    requires Matches(segs[0], v[..i]) && SegmentsMatch(segs[1..], Split(v[i..][1..], '/'))
    ensures SegmentsMatch(segs, Split(v, '/'))
  {
    var parts := Split(v[i..][1..], '/');
    assert Split(v, '/') == [v[..i]] + parts by {
      assert v == v[..i] + ['/'] + v[i..][1..];
      SplitAtSeparator(v[..i], v[i..][1..], '/');
    }
    forall j | 0 <= j < |segs| ensures Matches(segs[j], ([v[..i]] + parts)[j]) {
      if j > 0 { assert segs[j] == segs[1..][j - 1] && ([v[..i]] + parts)[j] == parts[j - 1]; }
    }
  }

  /** Segment by segment: a path matches exactly when it has as many segments and each one matches. */
  lemma {:induction false} PathMatchesSegmentwise(segs: seq<seq<Atom>>, w: string)
    requires |segs| >= 1 && forall i :: 0 <= i < |segs| ==> Avoids(segs[i], '/')
    ensures Matches(PathAtoms(segs), w) <==>
            (w != "" && w[0] == '/' && SegmentsMatch(segs, Split(w[1..], '/')))
  {
    if Matches(PathAtoms(segs), w) {
      PathMatchImpliesSegments(segs, w);
    }
    if w != "" && w[0] == '/' && SegmentsMatch(segs, Split(w[1..], '/')) {
      PathMatchesIfSegmentsDo(segs, Split(w[1..], '/'));
      JoinSplit(w[1..], '/');
      assert w == "/" + w[1..];
    }
  }

  // ---- Reading a pattern ------------------------------------------------------------------

  const DIGITS := "[0-9]"
  const HEX := "[0-9a-fA-F]"

  /** The characters regexp.QuoteMeta escapes. */
  predicate Special(c: char)
  {
    || c == '\\' || c == '.' || c == '+' || c == '*' || c == '?' || c == '(' || c == ')' || c == '|'
    || c == '[' || c == ']' || c == '{' || c == '}' || c == '^' || c == '$'
  }

  function Prepend(a: Atom, rest: Option<seq<Atom>>): Option<seq<Atom>>
  {
    if rest.None? then None else Some([a] + rest.value)
  }

  /** Read a pattern body; None when it leaves the fragment. */
  function Parse(s: string): Option<seq<Atom>>
    decreases |s|, 1
  {
    if s == "" then Some([])
    else if s[0] == '\\' then
      if |s| == 1 then None else Prepend(Lit(s[1]), Parse(s[2..]))
    else if s[0] == '[' then
      if HEX <= s then ParseRepeat(HexDigits, s[|HEX|..])
      else if DIGITS <= s then ParseRepeat(Digits, s[|DIGITS|..])
      else None
    else if Special(s[0]) then None
    else Prepend(Lit(s[0]), Parse(s[1..]))
  }

  /** Read the repetition after a bracket expression, then the rest. */
  function ParseRepeat(cls: CharClass, s: string): Option<seq<Atom>>
    decreases |s|, 0
  {
    if s == "" then None
    else if s[0] == '+' then Prepend(Plus(cls), Parse(s[1..]))
    else if s[0] == '{' then
      var (n, used) := ReadNumber(s[1..], 0);
      if used == 0 || 1 + used >= |s| || s[1 + used] != '}' then None
      else Prepend(Times(cls, n), Parse(s[used + 2..]))
    else None
  }

  /** The decimal number s starts with and how many characters it takes. */
  function ReadNumber(s: string, acc: nat): (r: (nat, nat))
    ensures r.1 <= |s|
  {
    if s == "" || !IsDigit(s[0]) then (acc, 0)
    else
      var (n, used) := ReadNumber(s[1..], 10 * acc + (s[0] as int - '0' as int));
      (n, used + 1)
  }

  /** A whole rule: an anchored pattern of the fragment that matches all of w. */
  ghost predicate PatternMatches(pattern: string, w: string)
  {
    && |pattern| >= 2 && pattern[0] == '^' && pattern[|pattern| - 1] == '$'
    && var body := Parse(pattern[1..|pattern| - 1]);
       body.Some? && Matches(body.value, w)
  }

  // ---- Writing a pattern ------------------------------------------------------------------

  /** regexp.QuoteMeta. */
  function QuoteMeta(s: string): string
  {
    if s == "" then ""
    else (if Special(s[0]) then ['\\', s[0]] else [s[0]]) + QuoteMeta(s[1..])
  }

  function Append(a: seq<Atom>, rest: Option<seq<Atom>>): Option<seq<Atom>>
  {
    if rest.None? then None else Some(a + rest.value)
  }

  lemma ParseQuotedChar(c: char, tail: string)
    ensures Parse((if Special(c) then ['\\', c] else [c]) + tail) == Prepend(Lit(c), Parse(tail))
  {
    if Special(c) {
      assert (['\\', c] + tail)[2..] == tail;
    } else {
      assert ([c] + tail)[1..] == tail;
    }
  }

  lemma {:induction false} ParseQuoted(s: string, rest: string)
    ensures Parse(QuoteMeta(s) + rest) == Append(Literal(s), Parse(rest))
  {
    if s == "" {
      assert QuoteMeta(s) + rest == rest;
      if Parse(rest).Some? { assert [] + Parse(rest).value == Parse(rest).value; }
    } else {
      var c, tail := s[0], QuoteMeta(s[1..]) + rest;
      ParseQuoted(s[1..], rest);
      ParseQuotedChar(c, tail);
      assert QuoteMeta(s) + rest == (if Special(c) then ['\\', c] else [c]) + tail;
      PrependAppend(Lit(c), Literal(s[1..]), Parse(rest));
    }
  }

  lemma PrependAppend(a: Atom, b: seq<Atom>, rest: Option<seq<Atom>>)
    ensures Prepend(a, Append(b, rest)) == Append([a] + b, rest)
  {
    if rest.Some? { assert [a] + (b + rest.value) == [a] + b + rest.value; }
  }

  function ClassText(cls: CharClass): string
  {
    match cls case Digits => DIGITS case HexDigits => HEX
  }

  lemma ParseClass(cls: CharClass, rest: string)
    ensures Parse(ClassText(cls) + rest) == ParseRepeat(cls, rest)
  {
    var s := ClassText(cls) + rest;
    if cls.HexDigits? {
      assert HEX <= s && s[|HEX|..] == rest;
      assert s[0] == '[';
    } else {
      assert s[4] == ']' && HEX[4] == 'a';
      assert DIGITS <= s && s[|DIGITS|..] == rest;
      assert s[0] == '[';
    }
  }

  lemma ParsePlus(cls: CharClass, rest: string)
    ensures Parse(ClassText(cls) + "+" + rest) == Append([Plus(cls)], Parse(rest))
  {
    ParseClass(cls, "+" + rest);
    assert ClassText(cls) + "+" + rest == ClassText(cls) + ("+" + rest);
    assert ("+" + rest)[1..] == rest;
  }

  predicate IsNumber(num: string)
  {
    num != "" && forall i :: 0 <= i < |num| ==> IsDigit(num[i])
  }

  lemma {:induction false} ParseCount(cls: CharClass, num: string, n: nat, rest: string)
    requires IsNumber(num) && ReadNumber(num, 0) == (n, |num|)
    ensures ParseRepeat(cls, "{" + num + "}" + rest) == Prepend(Times(cls, n), Parse(rest))
  {
    var s := "{" + num + "}" + rest;
    var after := "}" + rest;
    assert s[1..] == num + after;
    ReadNumberStops(num, after, 0);
    assert s[1 + |num|] == after[0];
    assert s[|num| + 2..] == rest;
  }

  lemma {:induction false} ParseTimes(cls: CharClass, num: string, n: nat, rest: string)
    requires IsNumber(num) && ReadNumber(num, 0) == (n, |num|)
    ensures Parse(ClassText(cls) + "{" + num + "}" + rest) == Prepend(Times(cls, n), Parse(rest))
  {
    var s := "{" + num + "}" + rest;
    ParseClass(cls, s);
    assert ClassText(cls) + "{" + num + "}" + rest == ClassText(cls) + s;
    ParseCount(cls, num, n, rest);
  }

  lemma {:induction false} ReadNumberStops(num: string, rest: string, acc: nat)
    requires num == "" || IsNumber(num)
    requires rest != "" && !IsDigit(rest[0])
    ensures ReadNumber(num + rest, acc) == ReadNumber(num, acc)
  {
    if num != "" {
      assert (num + rest)[1..] == num[1..] + rest;
      assert forall i :: 0 <= i < |num[1..]| ==> num[1..][i] == num[i + 1];
      ReadNumberStops(num[1..], rest, 10 * acc + (num[0] as int - '0' as int));
    } else {
      assert num + rest == rest;
    }
  }
}
