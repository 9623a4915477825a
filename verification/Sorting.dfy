/**
 Stable sorting of sequences, the specification of Go's sort.SliceStable (and of sort.Slice,
 sort.Strings and sort.Ints where elements with equal keys are equal).
 */
module Sorting {

  ghost predicate TotalPreorder<T(!new)>(le: (T, T) -> bool)
  {
    && (forall x, y :: le(x, y) || le(y, x))
    && (forall x, y, z :: le(x, y) && le(y, z) ==> le(x, z))
  }

  ghost predicate Sorted<T>(s: seq<T>, le: (T, T) -> bool)
  {
    forall i, j :: 0 <= i < j < |s| ==> le(s[i], s[j])
  }

  /** Insert x behind every element that is not greater than it. */
  function Insert<T>(s: seq<T>, x: T, le: (T, T) -> bool): (r: seq<T>)
  {
    if s == [] then [x]
    else if le(s[|s| - 1], x) then s + [x]
    else Insert(s[..|s| - 1], x, le) + [s[|s| - 1]]
  }

  function Sort<T>(s: seq<T>, le: (T, T) -> bool): (r: seq<T>)
  {
    if s == [] then [] else Insert(Sort(s[..|s| - 1], le), s[|s| - 1], le)
  }

  lemma {:induction false} InsertPermutes<T>(s: seq<T>, x: T, le: (T, T) -> bool)
    ensures multiset(Insert(s, x, le)) == multiset(s) + multiset{x}
    ensures |Insert(s, x, le)| == |s| + 1
  {
    if s != [] && !le(s[|s| - 1], x) {
      InsertPermutes(s[..|s| - 1], x, le);
      assert s == s[..|s| - 1] + [s[|s| - 1]];
    }
  }

  lemma {:induction false} InsertSorts<T(!new)>(s: seq<T>, x: T, le: (T, T) -> bool)
    requires TotalPreorder(le) && Sorted(s, le)
    ensures Sorted(Insert(s, x, le), le)
  {
    if s == [] {
    } else if le(s[|s| - 1], x) {
      forall i | 0 <= i < |s| ensures le(s[i], x) {
        if i < |s| - 1 { assert le(s[i], s[|s| - 1]); }
      }
    } else {
      var front, last := s[..|s| - 1], s[|s| - 1];
      InsertSorts(front, x, le);
      InsertPermutes(front, x, le);
      var r := Insert(front, x, le);
      forall i | 0 <= i < |r| ensures le(r[i], last) {
        assert r[i] in multiset(r);
        assert r[i] == x || r[i] in multiset(front);
        assert r[i] == x || r[i] in front;
      }
    }
  }

  lemma {:induction false} SortPermutes<T>(s: seq<T>, le: (T, T) -> bool)
    ensures multiset(Sort(s, le)) == multiset(s)
    ensures |Sort(s, le)| == |s|
    ensures forall x :: x in Sort(s, le) <==> x in s
  {
    if s != [] {
      SortPermutes(s[..|s| - 1], le);
      InsertPermutes(Sort(s[..|s| - 1], le), s[|s| - 1], le);
      assert s == s[..|s| - 1] + [s[|s| - 1]];
    }
    forall x ensures x in Sort(s, le) <==> x in s {
      assert x in Sort(s, le) <==> x in multiset(Sort(s, le));
    }
  }

  lemma {:induction false} SortSorts<T(!new)>(s: seq<T>, le: (T, T) -> bool)
    requires TotalPreorder(le)
    ensures Sorted(Sort(s, le), le)
  {
    if s != [] {
      SortSorts(s[..|s| - 1], le);
      InsertSorts(Sort(s[..|s| - 1], le), s[|s| - 1], le);
    }
  }

  /** The elements of s that tie with x, in order. */
  function Ties<T>(s: seq<T>, x: T, le: (T, T) -> bool): seq<T>
  {
    if s == [] then []
    else
      var last := s[|s| - 1];
      Ties(s[..|s| - 1], x, le) + (if le(x, last) && le(last, x) then [last] else [])
  }

  lemma {:induction false} InsertKeepsTies<T(!new)>(s: seq<T>, y: T, x: T, le: (T, T) -> bool)
    requires TotalPreorder(le) && Sorted(s, le)
    ensures Ties(Insert(s, y, le), x, le) == Ties(s + [y], x, le)
  {
    assert (s + [y])[..|s|] == s;
    if s != [] && !le(s[|s| - 1], y) {
      var front, last := s[..|s| - 1], s[|s| - 1];
      InsertKeepsTies(front, y, x, le);
      assert (front + [y])[..|front|] == front;
      var r := Insert(front, y, le);
      assert (r + [last])[..|r|] == r;
      assert Ties(r + [last], x, le) == Ties(r, x, le) + (if le(x, last) && le(last, x) then [last] else []);
    }
  }

  /** Elements that compare equal keep their relative order. */
  lemma {:induction false} SortIsStable<T(!new)>(s: seq<T>, x: T, le: (T, T) -> bool)
    requires TotalPreorder(le)
    ensures Ties(Sort(s, le), x, le) == Ties(s, x, le)
  {
    if s != [] {
      var front, last := s[..|s| - 1], s[|s| - 1];
      SortIsStable(front, x, le);
      SortSorts(front, le);
      InsertKeepsTies(Sort(front, le), last, x, le);
      assert (Sort(front, le) + [last])[..|Sort(front, le)|] == Sort(front, le);
    }
  }

  // ---- Equal sorts ------------------------------------------------------------------------------

  lemma {:induction false} TiesMembers<T>(s: seq<T>, x: T, le: (T, T) -> bool)
    ensures forall y :: y in Ties(s, x, le) <==> y in s && le(x, y) && le(y, x)
  {
    if s != [] {
      TiesMembers(s[..|s| - 1], x, le);
      assert s == s[..|s| - 1] + [s[|s| - 1]];
    }
  }

  /** An element is found among its ties behind the ties of what comes before it. */
  lemma {:induction false} TiesAt<T>(s: seq<T>, i: nat, x: T, le: (T, T) -> bool)
    requires i < |s| && le(x, s[i]) && le(s[i], x)
    ensures |Ties(s[..i], x, le)| < |Ties(s, x, le)| && Ties(s, x, le)[|Ties(s[..i], x, le)|] == s[i]
  {
    var front := s[..|s| - 1];
    if i < |front| {
      TiesAt(front, i, x, le);
      assert front[..i] == s[..i];
    }
  }

  ghost predicate SameTies<T(!new)>(s: seq<T>, t: seq<T>, le: (T, T) -> bool)
  {
    forall x :: Ties(s, x, le) == Ties(t, x, le)
  }

  lemma TieOfLast<T>(s: seq<T>, x: T, le: (T, T) -> bool)
    requires s != [] && le(x, s[|s| - 1]) && le(s[|s| - 1], x)
    ensures Ties(s, x, le) == Ties(s[..|s| - 1], x, le) + [s[|s| - 1]]
  {
  }

  lemma SameTop<T(!new)>(s: seq<T>, t: seq<T>, le: (T, T) -> bool)
    requires TotalPreorder(le) && Sorted(s, le) && Sorted(t, le) && SameTies(s, t, le) && s != [] && t != []
    ensures s[|s| - 1] == t[|t| - 1]
  {
    var x, y := s[|s| - 1], t[|t| - 1];
    assert le(x, x) && le(y, y);
    TieOfLast(s, x, le);
    TieOfLast(t, y, le);
    assert Ties(s, x, le) == Ties(t, x, le) && Ties(s, y, le) == Ties(t, y, le);
    TiesMembers(s, y, le);
    TiesMembers(t, x, le);
    assert y in Ties(t, y, le) && x in Ties(s, x, le);
    var i :| 0 <= i < |s| && s[i] == y;
    var j :| 0 <= j < |t| && t[j] == x;
    assert le(y, x) by { if i < |s| - 1 { assert le(s[i], s[|s| - 1]); } }
    assert le(x, y) by { if j < |t| - 1 { assert le(t[j], t[|t| - 1]); } }
    TieOfLast(t, x, le);
    assert Ties(s, x, le)[|Ties(s, x, le)| - 1] == x && Ties(t, x, le)[|Ties(t, x, le)| - 1] == y;
  }

  /** The ties of what comes before the last element are found again from the whole. */
  lemma FrontTies<T>(s: seq<T>, x: T, le: (T, T) -> bool)
    requires s != []
    ensures var all, last := Ties(s, x, le), s[|s| - 1];
            Ties(s[..|s| - 1], x, le) == if le(x, last) && le(last, x) then all[..|all| - 1] else all
  {
  }

  lemma BothEmpty<T(!new)>(s: seq<T>, t: seq<T>, le: (T, T) -> bool)
    requires TotalPreorder(le) && SameTies(s, t, le)
    ensures s == [] <==> t == []
  {
    if s != [] { TiesAt(s, 0, s[0], le); assert Ties(s, s[0], le) == Ties(t, s[0], le); }
    if t != [] { TiesAt(t, 0, t[0], le); assert Ties(s, t[0], le) == Ties(t, t[0], le); }
  }

  lemma {:induction false} SortedSameTies<T(!new)>(s: seq<T>, t: seq<T>, le: (T, T) -> bool)
    requires TotalPreorder(le) && Sorted(s, le) && Sorted(t, le) && SameTies(s, t, le)
    ensures s == t
  {
    BothEmpty(s, t, le);
    if s != [] {
      SameTop(s, t, le);
      var a, b := s[..|s| - 1], t[..|t| - 1];
      forall x ensures Ties(a, x, le) == Ties(b, x, le) {
        assert Ties(s, x, le) == Ties(t, x, le);
        FrontTies(s, x, le);
        FrontTies(t, x, le);
      }
      SortedSameTies(a, b, le);
      assert s == a + [s[|s| - 1]] && t == b + [t[|t| - 1]];
    }
  }

  /** Two sequences sort to the same one exactly when tied elements come in the same order in both. */
  lemma SameSortExactly<T(!new)>(s: seq<T>, t: seq<T>, le: (T, T) -> bool)
    requires TotalPreorder(le)
    ensures Sort(s, le) == Sort(t, le) <==> SameTies(s, t, le)
  {
    SortSorts(s, le);
    SortSorts(t, le);
    forall x ensures Ties(Sort(s, le), x, le) == Ties(s, x, le) && Ties(Sort(t, le), x, le) == Ties(t, x, le) {
      SortIsStable(s, x, le);
      SortIsStable(t, x, le);
    }
    if SameTies(s, t, le) {
      forall x ensures Ties(Sort(s, le), x, le) == Ties(Sort(t, le), x, le) { assert Ties(s, x, le) == Ties(t, x, le); }
      SortedSameTies(Sort(s, le), Sort(t, le), le);
    } else {
      var x :| Ties(s, x, le) != Ties(t, x, le);
    }
  }

  lemma {:induction false} TiesCopies<T(!new)>(s: seq<T>, x: T, le: (T, T) -> bool)
    requires TotalPreorder(le) && forall y :: y in s && le(x, y) && le(y, x) ==> y == x
    ensures Ties(s, x, le) == seq(multiset(s)[x], i => x)
  {
    if s != [] {
      var front, last := s[..|s| - 1], s[|s| - 1];
      assert s == front + [last];
      TiesCopies(front, x, le);
    }
  }

  /** Where only equal elements tie, order is forgotten altogether. */
  lemma SameSortBags<T(!new)>(s: seq<T>, t: seq<T>, le: (T, T) -> bool)
    requires TotalPreorder(le)
    requires forall x, y :: x in s && y in s && le(x, y) && le(y, x) ==> x == y
    ensures Sort(s, le) == Sort(t, le) <==> multiset(s) == multiset(t)
  {
    SortPermutes(s, le);
    SortPermutes(t, le);
    if multiset(s) == multiset(t) {
      forall x ensures x in s <==> x in t { assert x in s <==> x in multiset(s); assert x in t <==> x in multiset(t); }
      forall x ensures Ties(s, x, le) == Ties(t, x, le) {
        if y :| y in s && le(x, y) && le(y, x) {
          TiesThrough(s, x, y, le);
          TiesThrough(t, x, y, le);
          TiesCopies(s, y, le);
          TiesCopies(t, y, le);
        } else {
          TiesMembers(s, x, le);
          TiesMembers(t, x, le);
          if Ties(s, x, le) != [] { assert Ties(s, x, le)[0] in Ties(s, x, le); }
          if Ties(t, x, le) != [] { assert Ties(t, x, le)[0] in Ties(t, x, le); }
        }
      }
      SameSortExactly(s, t, le);
    }
  }

  lemma {:induction false} TiesThrough<T(!new)>(s: seq<T>, x: T, y: T, le: (T, T) -> bool)
    requires TotalPreorder(le) && le(x, y) && le(y, x)
    ensures Ties(s, x, le) == Ties(s, y, le)
  {
    if s != [] { TiesThrough(s[..|s| - 1], x, y, le); }
  }

  /** Exchanging two different elements that tie changes the sorted sequence. */
  lemma SwappedTies<T(!new)>(s: seq<T>, i: nat, j: nat, le: (T, T) -> bool)
    requires TotalPreorder(le) && i < j < |s| && le(s[i], s[j]) && le(s[j], s[i]) && s[i] != s[j]
    ensures Sort(s, le) != Sort(s[i := s[j]][j := s[i]], le)
    ensures multiset(s[i := s[j]][j := s[i]]) == multiset(s)
  {
    var t := s[i := s[j]][j := s[i]];
    assert t[..i] == s[..i];
    assert le(s[i], s[i]);
    TiesAt(s, i, s[i], le);
    TiesAt(t, i, s[i], le);
    SameSortExactly(s, t, le);
  }
}
