/**
 The text of match labels within a sort key (pkg/policy/dedup.go): the sorted key=value pairs between
 brackets. It is one the keys of rules can be read back from.
 */
module LabelListing {
  import opened Text
  import opened Collapse
  import opened DedupKeys

  ghost function InOrder(s: set<string>): (r: seq<string>)
    ensures |r| == |s| && forall x :: x in r <==> x in s
    decreases |s|
  {
    if s == {} then []
    else
      LeastExists(s);
      var x :| IsLeast(s, x);
      [x] + InOrder(s - {x})
  }

  ghost function Pairs(labels: map<string, string>): set<string>
  {
    set k | k in labels :: k + "=" + labels[k]
  }

  ghost function Listing(labels: map<string, string>): string
  {
    "[" + Join(InOrder(Pairs(labels)), ' ') + "]"
  }

  /** Keys and values hold no blank, keys no equals sign, and no pair looks like the start of a part. */
  ghost predicate CleanPairs(labels: map<string, string>)
  {
    forall k :: k in labels ==>
      ' ' !in k && '=' !in k && ' ' !in labels[k] && !Opener(k + "=" + labels[k] + "]")
  }

  lemma PairBack(labels: map<string, string>, p: string) returns (k: string)
    requires p in Pairs(labels)
    ensures k in labels && p == k + "=" + labels[k]
  {
    k :| k in labels && p == k + "=" + labels[k];
  }

  lemma PairsApart(a: map<string, string>, b: map<string, string>)
    requires CleanPairs(a) && CleanPairs(b) && Pairs(a) == Pairs(b)
    ensures a == b
  {
    PairsWithin(a, b);
    PairsWithin(b, a);
  }

  lemma PairsWithin(a: map<string, string>, b: map<string, string>)
    requires CleanPairs(a) && CleanPairs(b) && Pairs(a) == Pairs(b)
    ensures forall k :: k in a ==> k in b && b[k] == a[k]
  {
    forall k | k in a ensures k in b && b[k] == a[k] {
      assert k + "=" + a[k] in Pairs(a);
      var j := PairBack(b, k + "=" + a[k]);
      assert k + ['='] + a[k] == j + ['='] + b[j];
      Cut(k, a[k], j, b[j], '=');
    }
  }

  lemma PairsClean(labels: map<string, string>)
    requires CleanPairs(labels)
    ensures forall p :: p in Pairs(labels) ==> p != "" && ' ' !in p && !Opener(p + "]")
  {
    forall p | p in Pairs(labels) ensures p != "" && ' ' !in p && !Opener(p + "]") {
      var k := PairBack(labels, p);
    }
  }

  /** Different labels have different listings. */
  lemma ListingTellsApart(a: map<string, string>, b: map<string, string>)
    requires CleanPairs(a) && CleanPairs(b) && Listing(a) == Listing(b)
    ensures a == b
  {
    var p, q := InOrder(Pairs(a)), InOrder(Pairs(b));
    PairsClean(a);
    PairsClean(b);
    assert Join(p, ' ') == Listing(a)[1..|Listing(a)| - 1] && Join(q, ' ') == Listing(b)[1..|Listing(b)| - 1];
    if p != [] && q != [] {
      JoinInjective(p, q, ' ');
    } else {
      JoinEmpty(p);
      JoinEmpty(q);
    }
    assert forall x :: x in p <==> x in q;
    assert Pairs(a) == Pairs(b);
    PairsApart(a, b);
  }

  lemma JoinEmpty(parts: seq<string>)
    requires forall p :: p in parts ==> p != ""
    ensures parts != [] ==> Join(parts, ' ') != ""
  {
    if parts != [] { assert parts[0] in parts; }
  }

  // ---- The words of a listing -------------------------------------------------------------------

  lemma JoinBehind(head: string, parts: seq<string>)
    requires parts != []
    ensures Join([head + parts[0]] + parts[1..], ' ') == head + Join(parts, ' ')
  {
    assert ([head + parts[0]] + parts[1..])[1..] == parts[1..];
    if |parts| > 1 {
      assert head + parts[0] + [' '] + Join(parts[1..], ' ') == head + (parts[0] + [' '] + Join(parts[1..], ' '));
    }
  }

  lemma {:induction false} JoinBefore(parts: seq<string>, tail: string)
    requires parts != []
    ensures var n := |parts| - 1; Join(parts[..n] + [parts[n] + tail], ' ') == Join(parts, ' ') + tail
  {
    var n := |parts| - 1;
    var more := parts[..n] + [parts[n] + tail];
    if n > 0 {
      JoinBefore(parts[1..], tail);
      assert more[1..] == parts[1..][..n - 1] + [parts[1..][n - 1] + tail];
    }
  }

  lemma Rebracket(inner: string)
    ensures "ep:" + ("[" + inner + "]") == "ep:[" + (inner + "]")
  {
    assert "ep:[" == "ep:" + "[";
  }

  /** The words of a listing are its pairs. */
  lemma ListingWords(p: seq<string>)
    requires p != [] && forall x :: x in p ==> ' ' !in x && !Opener(x + "]")
    ensures Quiet("ep:" + ("[" + Join(p, ' ') + "]"))
  {
    var q := p[..|p| - 1] + [p[|p| - 1] + "]"];
    var words := ["ep:[" + q[0]] + q[1..];
    JoinBefore(p, "]");
    JoinBehind("ep:[", q);
    Rebracket(Join(p, ' '));
    ListedWords(p, q, words);
    SplitJoin(words, ' ');
  }

  /** A listing is a quiet part. */
  lemma ListingQuiet(labels: map<string, string>)
    requires CleanPairs(labels)
    ensures Quiet("ep:" + Listing(labels))
  {
    var p := InOrder(Pairs(labels));
    PairsClean(labels);
    if p == [] {
      Rebracket("");
      assert PREFIXES[0] <= "ep:" + Listing(labels);
      BlankFreeQuiet("ep:" + Listing(labels));
    } else {
      ListingWords(p);
    }
  }

  lemma ListedWords(p: seq<string>, q: seq<string>, words: seq<string>)
    requires p != [] && q == p[..|p| - 1] + [p[|p| - 1] + "]"] && words == ["ep:[" + q[0]] + q[1..]
    requires forall x :: x in p ==> ' ' !in x && !Opener(x + "]")
    ensures AllFree(words, ' ') && Opener(words[0]) && forall i :: 0 < i < |words| ==> !Opener(words[i])
  {
    forall i | 0 <= i < |q| ensures ' ' !in q[i] && !Opener(q[i]) {
      assert p[i] in p;
      if i < |p| - 1 { PrefixOpener(p[i], "]"); }
    }
    assert PREFIXES[0] <= words[0];
  }

  lemma PrefixOpener(x: string, tail: string)
    ensures Opener(x) ==> Opener(x + tail)
  {
    if Opener(x) {
      var i :| 0 <= i < |PREFIXES| && PREFIXES[i] <= x;
      assert PREFIXES[i] <= x + tail;
    }
  }
}
