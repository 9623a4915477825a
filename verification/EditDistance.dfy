/**
 Edit distance and flag suggestions (cmd/cpg/commonflags.go): the two-row table computes the length of a
 shortest edit script, and suggestions are the closest candidates within a threshold.
 */
module EditDistance {
  import opened Sorting
  import opened Text

  // ---- Scripts ----------------------------------------------------------------------------------

  /** One edit of a rune sequence. */
  datatype Edit = Insert(at: nat, c: char) | Delete(at: nat) | Substitute(at: nat, c: char)

  predicate Fits(s: string, e: Edit)
  {
    match e
    case Insert(i, _) => i <= |s|
    case Delete(i) => i < |s|
    case Substitute(i, _) => i < |s|
  }

  function Edited(s: string, e: Edit): string
    requires Fits(s, e)
  {
    match e
    case Insert(i, c) => s[..i] + [c] + s[i..]
    case Delete(i) => s[..i] + s[i + 1..]
    case Substitute(i, c) => s[..i] + [c] + s[i + 1..]
  }

  /** The script turns a into b, edit by edit. */
  ghost predicate Turns(a: string, script: seq<Edit>, b: string)
    decreases |script|
  {
    if script == [] then a == b
    else
      var front, last := script[..|script| - 1], script[|script| - 1];
      exists mid :: Turns(a, front, mid) && Goes(mid, last, b)
  }

  predicate Goes(s: string, e: Edit, t: string) { Fits(s, e) && Edited(s, e) == t }

  // ---- The table's recurrence -------------------------------------------------------------------

  function Min(a: nat, b: nat): nat { if a <= b then a else b }

  function Cost(x: char, y: char): nat { if x == y then 0 else 1 }

  /** The table entry for two prefixes. */
  function Dist(a: string, b: string): nat
    decreases |a| + |b|
  {
    if a == "" then |b|
    else if b == "" then |a|
    else
      var p, q := a[..|a| - 1], b[..|b| - 1];
      Min(Dist(p, b) + 1, Min(Dist(a, q) + 1, Dist(p, q) + Cost(a[|a| - 1], b[|b| - 1])))
  }

  /** Adding one rune at either end of the pair costs at most one. */
  lemma DistSnoc(a: string, b: string, c: char)
    ensures Dist(a, b + [c]) <= Dist(a, b) + 1
    ensures Dist(b + [c], a) <= Dist(b, a) + 1
  {
    assert (b + [c])[..|b|] == b;
    if a == "" { DistLeft(b); DistLeft(b + [c]); }
  }

  lemma DistLeft(a: string)
    ensures Dist(a, "") == |a| && Dist("", a) == |a|
  {
  }

  /** One edit moves the distance by at most one. */
  lemma {:induction false} OneEdit(a: string, b: string, e: Edit)
    requires Fits(b, e)
    ensures Dist(a, Edited(b, e)) <= Dist(a, b) + 1
    decreases |a| + |b|
  {
    var c := Edited(b, e);
    if a == "" {
    } else if b == "" {
      DistSnoc(a, b, e.c);
      assert c == b + [e.c];
    } else {
      var n := |b| - 1;
      var q, y := b[..n], b[n];
      assert b == q + [y];
      if e.at < n || (e.Insert? && e.at == n) {
        EditInside(a, b, e);
      } else {
        EditAtEnd(a, b, e);
      }
    }
  }

  /** The recurrence, for sequences given by their last runes. */
  lemma DistUnfold(p: string, x: char, q: string, y: char)
    ensures Dist(p + [x], q + [y]) == Min(Dist(p, q + [y]) + 1, Min(Dist(p + [x], q) + 1, Dist(p, q) + Cost(x, y)))
  {
    assert (p + [x])[..|p|] == p && (q + [y])[..|q|] == q;
  }

  lemma EditedTail(q: string, y: char, e: Edit)
    requires Fits(q, e)
    ensures Fits(q + [y], e) && Edited(q + [y], e) == Edited(q, e) + [y]
  {
  }

  /** The edit leaves the last rune of b alone. */
  lemma {:induction false} EditInside(a: string, b: string, e: Edit)
    requires a != "" && b != "" && Fits(b[..|b| - 1], e)
    ensures Fits(b, e) && Dist(a, Edited(b, e)) <= Dist(a, b) + 1
    decreases |a| + |b|, 0
  {
    var p, x, q, y := a[..|a| - 1], a[|a| - 1], b[..|b| - 1], b[|b| - 1];
    assert a == p + [x] && b == q + [y];
    var r := Edited(q, e);
    EditedTail(q, y, e);
    OneEdit(a, q, e);
    OneEdit(p, b, e);
    OneEdit(p, q, e);
    InsideLast(p, x, q, y, r);
  }

  /** One more in each of the three ways round is at most one more in the least of them. */
  lemma LeastMoves(a: nat, b: nat, c: nat, x: nat, y: nat, z: nat)
    requires x <= a + 1 && y <= b + 1 && z <= c + 1
    ensures Min(x, Min(y, z)) <= Min(a, Min(b, c)) + 1
  {
  }

  /** The recurrence at whole sequences. */
  lemma DistAt(a: string, b: string) returns (k: nat)
    requires a != "" && b != ""
    ensures k == Cost(a[|a| - 1], b[|b| - 1])
    ensures Dist(a, b) == Min(Dist(a[..|a| - 1], b) + 1, Min(Dist(a, b[..|b| - 1]) + 1, Dist(a[..|a| - 1], b[..|b| - 1]) + k))
  {
    k := Cost(a[|a| - 1], b[|b| - 1]);
  }

  lemma InsideLast(p: string, x: char, q: string, y: char, r: string)
    requires Dist(p + [x], r) <= Dist(p + [x], q) + 1
    requires Dist(p, r + [y]) <= Dist(p, q + [y]) + 1
    requires Dist(p, r) <= Dist(p, q) + 1
    ensures Dist(p + [x], r + [y]) <= Dist(p + [x], q + [y]) + 1
  {
    var a, b, c := p + [x], q + [y], r + [y];
    assert a[..|a| - 1] == p && b[..|b| - 1] == q && c[..|c| - 1] == r;
    var k := DistAt(a, b);
    var m := DistAt(a, c);
    LeastMoves(Dist(p, b) + 1, Dist(a, q) + 1, Dist(p, q) + k, Dist(p, c) + 1, Dist(a, r) + 1, Dist(p, r) + m);
  }

  /** The edit appends a rune, or drops or replaces the last one. */
  lemma {:induction false} EditAtEnd(a: string, b: string, e: Edit)
    requires a != "" && b != "" && Fits(b, e) && e.at >= |b| - 1 && (e.Insert? ==> e.at == |b|)
    ensures Dist(a, Edited(b, e)) <= Dist(a, b) + 1
    decreases |a| + |b|, 0
  {
    var p, x, q, y := a[..|a| - 1], a[|a| - 1], b[..|b| - 1], b[|b| - 1];
    assert a == p + [x] && b == q + [y];
    match e
    case Insert(_, c) =>
      assert Edited(b, e) == b + [c];
      DistSnoc(a, b, c);
    case Delete(_) =>
      assert Edited(b, e) == q;
      OneEdit(p, b, e);
      LastDropped(p, x, q, y);
    case Substitute(_, c) =>
      assert Edited(b, e) == q + [c];
      OneEdit(p, b, e);
      DistUnfold(p, x, q, y);
      DistUnfold(p, x, q, c);
  }

  lemma LastDropped(p: string, x: char, q: string, y: char)
    requires Dist(p, q) <= Dist(p, q + [y]) + 1
    ensures Dist(p + [x], q) <= Dist(p + [x], q + [y]) + 1
  {
    DistUnfold(p, x, q, y);
    DistSnoc(q, p, x);
  }

  lemma {:induction false} DistSelf(a: string)
    ensures Dist(a, a) == 0
  {
    if a != "" { DistSelf(a[..|a| - 1]); }
  }

  /** No script is shorter than the distance. */
  lemma {:induction false} NoShorterScript(a: string, script: seq<Edit>, b: string)
    requires Turns(a, script, b)
    ensures |script| >= Dist(a, b)
    decreases |script|
  {
    if script == [] {
      DistSelf(a);
    } else {
      var front, last := script[..|script| - 1], script[|script| - 1];
      var mid :| Turns(a, front, mid) && Goes(mid, last, b);
      NoShorterScript(a, front, mid);
      OneEdit(a, mid, last);
    }
  }

  // ---- A script of that length ------------------------------------------------------------------

  lemma TurnsOneMore(a: string, script: seq<Edit>, mid: string, e: Edit)
    requires Turns(a, script, mid) && Fits(mid, e)
    ensures Turns(a, script + [e], Edited(mid, e))
  {
    assert (script + [e])[..|script|] == script;
    assert Goes(mid, e, Edited(mid, e));
  }

  /** A script that ends in b also ends in b with a common rune behind it. */
  lemma {:induction false} TurnsWithTail(a: string, script: seq<Edit>, b: string, y: char)
    requires Turns(a, script, b)
    ensures Turns(a + [y], script, b + [y])
    decreases |script|
  {
    if script != [] {
      var front, last := script[..|script| - 1], script[|script| - 1];
      var mid :| Turns(a, front, mid) && Goes(mid, last, b);
      TurnsWithTail(a, front, mid, y);
      EditedTail(mid, y, last);
    }
  }

  /** The last edit of a script. */
  lemma LastEdit(a: string, front: seq<Edit>, last: Edit, b: string) returns (mid: string)
    requires Turns(a, front + [last], b)
    ensures Turns(a, front, mid) && Goes(mid, last, b)
  {
    var script := front + [last];
    assert script[..|script| - 1] == front && script[|script| - 1] == last;
    mid :| Turns(a, front, mid) && Goes(mid, last, b);
  }

  lemma OneEditTurns(a: string, e: Edit)
    requires Fits(a, e)
    ensures Turns(a, [e], Edited(a, e))
  {
    TurnsOneMore(a, [], a, e);
    assert [] + [e] == [e];
  }

  /** Prefix one edit to a script. */
  lemma {:induction false} TurnsAfter(a: string, e: Edit, script: seq<Edit>, b: string)
    requires Fits(a, e) && Turns(Edited(a, e), script, b)
    ensures Turns(a, [e] + script, b)
    decreases |script|
  {
    var c := Edited(a, e);
    if script == [] {
      OneEditTurns(a, e);
      assert [e] + script == [e];
    } else {
      var front, last := script[..|script| - 1], script[|script| - 1];
      assert script == front + [last];
      var mid := LastEdit(c, front, last, b);
      TurnsAfter(a, e, front, mid);
      AfterOneMore(a, e, front, mid, last, b);
    }
  }

  lemma AfterOneMore(a: string, e: Edit, front: seq<Edit>, mid: string, last: Edit, b: string)
    requires Turns(a, [e] + front, mid) && Goes(mid, last, b)
    ensures Turns(a, [e] + (front + [last]), b)
  {
    TurnsOneMore(a, [e] + front, mid, last);
    assert [e] + (front + [last]) == ([e] + front) + [last];
  }

  lemma {:induction false} ScriptOfDist(a: string, b: string) returns (script: seq<Edit>)
    ensures Turns(a, script, b) && |script| == Dist(a, b)
    decreases |a| + |b|
  {
    if a == "" && b == "" {
      script := [];
    } else if b == "" || (a != "" && Dist(a, b) == Dist(a[..|a| - 1], b) + 1) {
      script := DropLast(a, b);
    } else if a == "" || Dist(a, b) == Dist(a, b[..|b| - 1]) + 1 {
      script := AppendLast(a, b);
    } else {
      script := MatchLast(a, b);
    }
  }

  /** Append the last rune of b last. */
  lemma {:induction false} AppendLast(a: string, b: string) returns (script: seq<Edit>)
    requires b != ""
    ensures Turns(a, script, b) && |script| == Dist(a, b[..|b| - 1]) + 1
    decreases |a| + |b|, 0
  {
    var q, e := b[..|b| - 1], Insert(|b| - 1, b[|b| - 1]);
    assert Edited(q, e) == b;
    script := ScriptOfDist(a, q);
    TurnsOneMore(a, script, q, e);
    script := script + [e];
  }

  /** Keep or replace the last rune. */
  lemma {:induction false} MatchLast(a: string, b: string) returns (script: seq<Edit>)
    requires a != "" && b != ""
    ensures Turns(a, script, b) && |script| == Dist(a[..|a| - 1], b[..|b| - 1]) + Cost(a[|a| - 1], b[|b| - 1])
    decreases |a| + |b|, 0
  {
    var p, q, x, y := a[..|a| - 1], b[..|b| - 1], a[|a| - 1], b[|b| - 1];
    assert a == p + [x] && b == q + [y];
    script := ScriptOfDist(p, q);
    TurnsWithTail(p, script, q, x);
    if x != y {
      var e := Substitute(|q|, y);
      TurnsOneMore(a, script, q + [x], e);
      assert Edited(q + [x], e) == b;
      script := script + [e];
    }
  }

  /** Delete the last rune of a first. */
  lemma {:induction false} DropLast(a: string, b: string) returns (script: seq<Edit>)
    requires a != ""
    ensures Turns(a, script, b) && |script| == Dist(a[..|a| - 1], b) + 1
    decreases |a| + |b|, 0
  {
    var rest := ScriptOfDist(a[..|a| - 1], b);
    assert Edited(a, Delete(|a| - 1)) == a[..|a| - 1];
    TurnsAfter(a, Delete(|a| - 1), rest, b);
    script := [Delete(|a| - 1)] + rest;
  }

  ghost predicate ScriptOfLength(a: string, b: string, n: nat)
  {
    exists script :: Turns(a, script, b) && |script| == n
  }

  /** The distance is the length of a shortest edit script. */
  lemma DistIsLeast(a: string, b: string)
    ensures ScriptOfLength(a, b, Dist(a, b))
    ensures forall n :: ScriptOfLength(a, b, n) ==> Dist(a, b) <= n
  {
    var script := ScriptOfDist(a, b);
    forall n | ScriptOfLength(a, b, n) ensures Dist(a, b) <= n {
      var other :| Turns(a, other, b) && |other| == n;
      NoShorterScript(a, other, b);
    }
  }

  lemma {:induction false} DistSymmetric(a: string, b: string)
    ensures Dist(a, b) == Dist(b, a)
    decreases |a| + |b|
  {
    if a != "" && b != "" {
      DistSymmetric(a[..|a| - 1], b);
      DistSymmetric(a, b[..|b| - 1]);
      DistSymmetric(a[..|a| - 1], b[..|b| - 1]);
    }
  }

  /** Zero only on equal sequences. */
  lemma {:induction false} DistZero(a: string, b: string)
    ensures Dist(a, b) == 0 <==> a == b
  {
    DistSelf(a);
    var script := ScriptOfDist(a, b);
  }

  lemma {:induction false} TurnsConcat(a: string, s: seq<Edit>, b: string, t: seq<Edit>, c: string)
    requires Turns(a, s, b) && Turns(b, t, c)
    ensures Turns(a, s + t, c)
    decreases |t|
  {
    if t == [] {
      assert s + t == s;
    } else {
      var front, last := t[..|t| - 1], t[|t| - 1];
      var mid :| Turns(b, front, mid) && Goes(mid, last, c);
      TurnsConcat(a, s, b, front, mid);
      assert (s + t)[..|s + t| - 1] == s + front;
    }
  }

  lemma {:induction false} TriangleInequality(a: string, b: string, c: string)
    ensures Dist(a, c) <= Dist(a, b) + Dist(b, c)
  {
    var s := ScriptOfDist(a, b);
    var t := ScriptOfDist(b, c);
    TurnsConcat(a, s, b, t, c);
    NoShorterScript(a, s + t, c);
  }

  // ---- The two-row table ------------------------------------------------------------------------

  /** One row of the table: row[j] is the distance from a to the first j runes of b. */
  ghost predicate RowIs(row: seq<int>, a: string, b: string)
  {
    |row| == |b| + 1 && forall j :: 0 <= j <= |b| ==> row[j] == Dist(a, b[..j])
  }

  function MinInt(a: int, b: int): int { if a <= b then a else b }

  /** The next cell from the row above and the cell to its left. */
  lemma NextCell(row: seq<int>, left: int, a: string, b: string, i: nat, j: nat)
    requires 0 < i <= |a| && 0 < j <= |b| && RowIs(row, a[..i - 1], b) && left == Dist(a[..i], b[..j - 1])
    ensures MinInt(row[j] + 1, MinInt(left + 1, row[j - 1] + Cost(a[i - 1], b[j - 1]))) == Dist(a[..i], b[..j])
  {
    assert a[..i] == a[..i - 1] + [a[i - 1]];
    assert b[..j] == b[..j - 1] + [b[j - 1]];
    DistUnfold(a[..i - 1], a[i - 1], b[..j - 1], b[j - 1]);
  }

  /** Fill the row of i runes of a from the row of i - 1, in place. */
  method FillRow(prev: array<int>, curr: array<int>, a: string, b: string, i: nat)
    requires prev != curr && curr.Length == |b| + 1 && 0 < i <= |a| && RowIs(prev[..], a[..i - 1], b)
    modifies curr
    ensures RowIs(curr[..], a[..i], b) && prev[..] == old(prev[..])
  {
    ghost var row := prev[..];
    DistLeft(a[..i]);
    curr[0] := i;
    assert b[..0] == "";
    for j := 1 to |b| + 1
      invariant forall k :: 0 <= k < j ==> curr[k] == Dist(a[..i], b[..k])
      invariant prev[..] == row
    {
      var cost := 1;
      if a[i - 1] == b[j - 1] {
        cost := 0;
      }
      NextCell(row, curr[j - 1], a, b, i, j);
      assert prev[j] == row[j] && prev[j - 1] == row[j - 1];
      curr[j] := MinInt(prev[j] + 1, MinInt(curr[j - 1] + 1, prev[j - 1] + cost));
    }
  }

  method Levenshtein(a: string, b: string) returns (d: int)
    ensures d == Dist(a, b)
  {
    if |a| == 0 { return |b|; }
    if |b| == 0 { return |a|; }
    var prev := new int[|b| + 1];
    var curr := new int[|b| + 1];
    for j := 0 to |b| + 1
      invariant forall k :: 0 <= k < j ==> prev[k] == k
    {
      prev[j] := j;
    }
    assert a[..0] == "";
    for i := 1 to |a| + 1
      invariant fresh(prev) && fresh(curr) && prev != curr && prev.Length == curr.Length == |b| + 1
      invariant RowIs(prev[..], a[..i - 1], b)
    {
      FillRow(prev, curr, a, b, i);
      prev, curr := curr, prev;
    }
    assert a[..|a|] == a && b[..|b|] == b;
    assert prev[..][|b|] == Dist(a, b);
    return prev[|b|];
  }

  // ---- Suggestions ------------------------------------------------------------------------------

  datatype Scored = Scored(name: string, dist: int)

  predicate Closer(x: Scored, y: Scored)
  {
    if x.dist != y.dist then x.dist < y.dist else LexLe(x.name, y.name)
  }

  lemma CloserOrder()
    ensures TotalPreorder(Closer)
  {
    forall x, y ensures Closer(x, y) || Closer(y, x) { LexTotal(x.name, y.name); }
    forall x, y, z | Closer(x, y) && Closer(y, z) ensures Closer(x, z) {
      if x.dist == y.dist == z.dist { LexTransitive(x.name, y.name, z.name); }
    }
  }

  /** byteLen: the length of the input in bytes, which is what the threshold scales with. */
  function Threshold(byteLen: nat): int { MinInt(10, byteLen / 2 + 2) }

  function Within(input: string, threshold: int, candidates: seq<string>): seq<Scored>
  {
    if candidates == [] then []
    else
      var c := candidates[|candidates| - 1];
      Within(input, threshold, candidates[..|candidates| - 1])
      + (if Dist(input, c) > threshold then [] else [Scored(c, Dist(input, c))])
  }

  function Names(scores: seq<Scored>): (r: seq<string>)
    ensures |r| == |scores|
  {
    seq(|scores|, i requires 0 <= i < |scores| => scores[i].name)
  }

  function Ranked(input: string, byteLen: nat, candidates: seq<string>): seq<Scored>
  {
    Sort(Within(input, Threshold(byteLen), candidates), Closer)
  }

  function Suggested(input: string, byteLen: nat, candidates: seq<string>, n: nat): seq<string>
  {
    var ranked := Ranked(input, byteLen, candidates);
    Names(ranked[..Min(n, |ranked|)])
  }

  method SuggestClosest(input: string, byteLen: nat, candidates: seq<string>, n: nat) returns (out: seq<string>)
    ensures out == Suggested(input, byteLen, candidates, n)
  {
    var threshold := Threshold(byteLen);
    var scores: seq<Scored> := [];
    for i := 0 to |candidates|
      invariant scores == Within(input, threshold, candidates[..i])
    {
      assert candidates[..i + 1][..i] == candidates[..i];
      var d := Levenshtein(input, candidates[i]);
      if d > threshold { continue; }
      scores := scores + [Scored(candidates[i], d)];
    }
    assert candidates[..|candidates|] == candidates;
    scores := Sort(scores, Closer);
    var m := n;
    if m > |scores| {
      m := |scores|;
    }
    out := [];
    for i := 0 to m
      invariant out == Names(scores[..i])
    {
      assert scores[..i + 1] == scores[..i] + [scores[i]];
      out := out + [scores[i].name];
    }
  }

  lemma {:induction false} WithinMembers(input: string, threshold: int, candidates: seq<string>)
    ensures forall x :: x in Within(input, threshold, candidates) <==>
              x.name in candidates && x.dist == Dist(input, x.name) && x.dist <= threshold
  {
    if candidates != [] {
      var front, c := candidates[..|candidates| - 1], candidates[|candidates| - 1];
      WithinMembers(input, threshold, front);
      assert forall y :: y in candidates <==> y in front || y == c;
    }
  }

  /**
   The ranking holds exactly the candidates within the threshold, each with its distance, closest first
   and by name among equals; the suggestions are its first n names.
   */
  lemma SuggestionsAreClosest(input: string, byteLen: nat, candidates: seq<string>, n: nat)
    ensures var ranked := Ranked(input, byteLen, candidates);
            && (forall x :: x in ranked <==> x.name in candidates && x.dist == Dist(input, x.name) && x.dist <= Threshold(byteLen))
            && Sorted(ranked, Closer)
            && |Suggested(input, byteLen, candidates, n)| == Min(n, |ranked|)
            && forall i :: 0 <= i < Min(n, |ranked|) ==> Suggested(input, byteLen, candidates, n)[i] == ranked[i].name
  {
    CloserOrder();
    WithinMembers(input, Threshold(byteLen), candidates);
    SortPermutes(Within(input, Threshold(byteLen), candidates), Closer);
    SortSorts(Within(input, Threshold(byteLen), candidates), Closer);
  }

  /** The candidate is within ten edits, and within half the input's length and two more. */
  predicate Near(input: string, byteLen: nat, c: string) { Dist(input, c) <= 10 && Dist(input, c) <= byteLen / 2 + 2 }

  /** a is fewer edits away, or as many and not later by name. */
  predicate NotWorse(input: string, a: string, b: string)
  {
    Dist(input, a) < Dist(input, b) || (Dist(input, a) == Dist(input, b) && LexLe(a, b))
  }

  /**
   The suggestions, without the ranking: near candidates, best first; and a near candidate that is not
   suggested is no better than any of n suggestions.
   */
  lemma SuggestedAreBest(input: string, byteLen: nat, candidates: seq<string>, n: nat)
    ensures var out := Suggested(input, byteLen, candidates, n);
            && |out| <= n
            && (forall c :: c in out ==> c in candidates && Near(input, byteLen, c))
            && (forall i, j :: 0 <= i < j < |out| ==> NotWorse(input, out[i], out[j]))
            && (forall c :: c in candidates && Near(input, byteLen, c) && c !in out ==>
                  |out| == n && forall i :: 0 <= i < n ==> NotWorse(input, out[i], c))
  {
    var ranked, out := Ranked(input, byteLen, candidates), Suggested(input, byteLen, candidates, n);
    SuggestionsAreClosest(input, byteLen, candidates, n);
    forall i | 0 <= i < |out| ensures out[i] == ranked[i].name && ranked[i] in ranked {}
    forall i, j | 0 <= i < j < |ranked| ensures NotWorse(input, ranked[i].name, ranked[j].name) {
      assert Closer(ranked[i], ranked[j]) && ranked[i] in ranked && ranked[j] in ranked;
    }
    forall c | c in candidates && Near(input, byteLen, c) && c !in out
      ensures |out| == n && forall i :: 0 <= i < n ==> NotWorse(input, out[i], c)
    {
      var x := Scored(c, Dist(input, c));
      assert x in ranked;
      forall m | 0 <= m < |out| ensures ranked[m] != x { assert out[m] in out; }
      var k :| 0 <= k < |ranked| && ranked[k] == x;
      assert |out| <= k;
    }
  }
}
