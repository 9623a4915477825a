/**
 Cursor pagination over a result set that may change between calls (cmd/cpg/mcp_query_pagination.go)
 and the combined item list it runs on (cmd/cpg/mcp_query_flows.go). A cursor is the boundary key it
 encodes.
 */
module Pagination {
  import opened PolicyTypes
  import opened Sorting
  import opened Text

  // ---- Boundary keys ----------------------------------------------------------------------------

  datatype Key = Key(namespace: string, workload: string, index: int)

  /** -1, 0 or 1. */
  function Compare(a: Key, b: Key): int
  {
    if a.namespace != b.namespace then (if LexLt(a.namespace, b.namespace) then -1 else 1)
    else if a.workload != b.workload then (if LexLt(a.workload, b.workload) then -1 else 1)
    else if a.index < b.index then -1
    else if a.index > b.index then 1
    else 0
  }

  predicate Before(a: Key, b: Key) { Compare(a, b) < 0 }

  lemma LexLtOrder(a: string, b: string, c: string)
    ensures a == b || LexLt(a, b) || LexLt(b, a)
    ensures !(LexLt(a, b) && LexLt(b, a))
    ensures LexLt(a, b) && LexLt(b, c) ==> LexLt(a, c)
  {
    LexTotal(a, b);
    if LexLt(a, b) && LexLt(b, c) {
      LexTransitive(a, b, c);
      LexTotal(b, c);
    }
  }

  /** The comparison is a strict total order. */
  lemma CompareIsOrder(a: Key, b: Key, c: Key)
    ensures Compare(a, b) == 0 <==> a == b
    ensures Compare(a, b) == -Compare(b, a)
    ensures Before(a, b) && Before(b, c) ==> Before(a, c)
  {
    LexLtOrder(a.namespace, b.namespace, c.namespace);
    LexLtOrder(a.workload, b.workload, c.workload);
    LexLtOrder(b.namespace, c.namespace, c.namespace);
    LexLtOrder(b.workload, c.workload, c.workload);
  }

  function ClampLimit(limit: int, defaultLimit: int, maxLimit: int): (r: int)
    ensures defaultLimit >= 1 && maxLimit >= 1 ==> r >= 1
    ensures 1 <= limit <= maxLimit ==> r == limit
    ensures limit <= 0 ==> r == defaultLimit
    ensures limit > maxLimit && limit >= 1 ==> r == maxLimit
  {
    if limit <= 0 then defaultLimit else if limit > maxLimit then maxLimit else limit
  }

  // ---- One page ---------------------------------------------------------------------------------

  datatype Item<T> = Item(key: Key, payload: T)

  datatype Page<T> = Page(items: seq<Item<T>>, next: Option<Key>, hasMore: bool, total: nat)

  ghost predicate Increasing<T>(items: seq<Item<T>>)
  {
    forall i, j :: 0 <= i < j < |items| ==> Before(items[i].key, items[j].key)
  }

  predicate Past(k: Key, after: Option<Key>) { after.Some? ==> Before(after.value, k) }

  /** The index of the first item behind the cursor. */
  function StartOf<T>(items: seq<Item<T>>, after: Option<Key>): (r: nat)
    ensures r <= |items|
    ensures forall i :: 0 <= i < r ==> !Past(items[i].key, after)
    ensures r < |items| ==> Past(items[r].key, after)
  {
    if items == [] then 0
    else if Past(items[0].key, after) then 0
    else 1 + StartOf(items[1..], after)
  }

  function PageOf<T>(items: seq<Item<T>>, after: Option<Key>, limit: int): Page<T>
    requires limit >= 1
  {
    var start := StartOf(items, after);
    var end := if start + limit > |items| then |items| else start + limit;
    Page(items[start..end], if end < |items| then Some(items[end - 1].key) else None, end < |items|, |items|)
  }

  lemma {:induction false} StartIs<T>(items: seq<Item<T>>, after: Option<Key>, start: nat)
    requires start <= |items| && (forall i :: 0 <= i < start ==> !Past(items[i].key, after))
    requires start < |items| ==> Past(items[start].key, after)
    ensures StartOf(items, after) == start
  {
    if items != [] && start > 0 {
      assert forall i :: 0 <= i < start - 1 ==> items[1..][i] == items[i + 1];
      StartIs(items[1..], after, start - 1);
    }
  }

  method Paginate<T>(items: seq<Item<T>>, after: Option<Key>, limit: int, defaultLimit: int, maxLimit: int) returns (page: Page<T>)
    requires defaultLimit >= 1 && maxLimit >= 1
    ensures page == PageOf(items, after, ClampLimit(limit, defaultLimit, maxLimit))
  {
    var n := ClampLimit(limit, defaultLimit, maxLimit);
    var start := 0;
    if after.Some? {
      start := |items|;
      var i := 0;
      while i < |items|
        invariant 0 <= i <= |items| && start == |items|
        invariant forall j :: 0 <= j < i ==> !Past(items[j].key, after)
      {
        CompareIsOrder(items[i].key, after.value, after.value);
        if Compare(items[i].key, after.value) > 0 {
          start := i;
          break;
        }
        i := i + 1;
      }
    }
    StartIs(items, after, start);
    var end := start + n;
    if end > |items| {
      end := |items|;
    }
    var next := None;
    if end < |items| {
      next := Some(items[end - 1].key);
    }
    page := Page(items[start..end], next, end < |items|, |items|);
  }

  // ---- Following cursors over a changing set ----------------------------------------------------

  /** What one call sees: the sorted items of the moment and the clamped limit it asks with. */
  datatype Call<T> = Call(items: seq<Item<T>>, limit: int)

  ghost predicate CallsFit<T>(calls: seq<Call<T>>)
  {
    forall c :: c in calls ==> Increasing(c.items) && c.limit >= 1
  }

  /** The items returned from this cursor on, call by call, until a page is the last. */
  function Followed<T>(calls: seq<Call<T>>, after: Option<Key>): seq<Item<T>>
    requires forall c :: c in calls ==> c.limit >= 1
  {
    if calls == [] then []
    else
      var page := PageOf(calls[0].items, after, calls[0].limit);
      page.items + (if page.hasMore then Followed(calls[1..], page.next) else [])
  }

  /** The calls reach a last page. */
  predicate Ends<T>(calls: seq<Call<T>>, after: Option<Key>)
    requires forall c :: c in calls ==> c.limit >= 1
  {
    calls != [] &&
    var page := PageOf(calls[0].items, after, calls[0].limit);
    !page.hasMore || Ends(calls[1..], page.next)
  }

  /** From the start on, everything is behind the cursor. */
  lemma BehindStart<T>(items: seq<Item<T>>, after: Option<Key>, i: nat)
    requires Increasing(items) && StartOf(items, after) <= i < |items|
    ensures Past(items[i].key, after)
  {
    var start := StartOf(items, after);
    if after.Some? && i > start { CompareIsOrder(after.value, items[start].key, items[i].key); }
  }

  lemma PageSorted<T>(items: seq<Item<T>>, after: Option<Key>, limit: int)
    requires Increasing(items) && limit >= 1
    ensures var page := PageOf(items, after, limit);
            && Increasing(page.items) && (forall x :: x in page.items ==> Past(x.key, after))
            && (page.hasMore ==> page.items != [] && page.next == Some(page.items[|page.items| - 1].key))
  {
    var start, page := StartOf(items, after), PageOf(items, after, limit);
    forall i | 0 <= i < |page.items| ensures Past(page.items[i].key, after) { BehindStart(items, after, start + i); }
  }

  predicate HasKey<T>(items: seq<Item<T>>, key: Key)
  {
    exists i :: 0 <= i < |items| && items[i].key == key
  }

  /** A key that is behind the cursor and not on the page is behind the next cursor. */
  lemma PageRest<T>(items: seq<Item<T>>, after: Option<Key>, limit: int, key: Key)
    requires Increasing(items) && limit >= 1 && HasKey(items, key) && Past(key, after)
    requires !HasKey(PageOf(items, after, limit).items, key)
    ensures var page := PageOf(items, after, limit); page.hasMore && Past(key, page.next)
  {
    var start, page := StartOf(items, after), PageOf(items, after, limit);
    var i :| 0 <= i < |items| && items[i].key == key;
    assert i >= start;
    var end := start + |page.items|;
    assert page.items == items[start..end];
    forall m | start <= m < end ensures items[m].key != key { assert page.items[m - start] == items[m]; }
    assert end <= i;
    assert page.hasMore && page.next == Some(items[end - 1].key);
    assert Before(items[end - 1].key, items[i].key);
  }

  /** What the pages say, from any cursor on. */
  lemma {:induction false} FollowedSorted<T>(calls: seq<Call<T>>, after: Option<Key>)
    requires CallsFit(calls)
    ensures Increasing(Followed(calls, after))
    ensures forall x :: x in Followed(calls, after) ==> Past(x.key, after)
    decreases |calls|
  {
    if calls != [] {
      assert calls[0] in calls && forall c :: c in calls[1..] ==> c in calls;
      var page := PageOf(calls[0].items, after, calls[0].limit);
      PageSorted(calls[0].items, after, calls[0].limit);
      if page.hasMore {
        FollowedSorted(calls[1..], page.next);
        Joined(page.items, Followed(calls[1..], page.next), after);
      } else {
        assert page.items + [] == page.items;
      }
    }
  }

  lemma Joined<T>(a: seq<Item<T>>, b: seq<Item<T>>, after: Option<Key>)
    requires a != [] && Increasing(a) && Increasing(b)
    requires forall x :: x in a ==> Past(x.key, after)
    requires forall x :: x in b ==> Past(x.key, Some(a[|a| - 1].key))
    ensures Increasing(a + b) && forall x :: x in a + b ==> Past(x.key, after)
  {
    var edge := a[|a| - 1];
    assert edge in a;
    forall x | x in b ensures Past(x.key, after) {
      if after.Some? { CompareIsOrder(after.value, edge.key, x.key); }
    }
    forall i, j | 0 <= i < |a| <= j < |a + b| ensures Before(a[i].key, (a + b)[j].key) {
      assert (a + b)[j] in b;
      if i < |a| - 1 { CompareIsOrder(a[i].key, edge.key, (a + b)[j].key); }
    }
  }

  lemma KeyInEither<T>(a: seq<Item<T>>, b: seq<Item<T>>, key: Key)
    ensures HasKey(a + b, key) <==> HasKey(a, key) || HasKey(b, key)
  {
    if i :| 0 <= i < |a| && a[i].key == key { assert (a + b)[i].key == key; }
    if i :| 0 <= i < |b| && b[i].key == key { assert (a + b)[|a| + i].key == key; }
  }

  /** A key that is in every snapshot behind the cursor is returned. */
  lemma {:induction false} FollowedComplete<T>(calls: seq<Call<T>>, after: Option<Key>, key: Key)
    requires CallsFit(calls) && Ends(calls, after) && Past(key, after)
    requires forall c :: c in calls ==> HasKey(c.items, key)
    ensures HasKey(Followed(calls, after), key)
    decreases |calls|
  {
    assert calls[0] in calls && forall c :: c in calls[1..] ==> c in calls;
    var page := PageOf(calls[0].items, after, calls[0].limit);
    var rest := if page.hasMore then Followed(calls[1..], page.next) else [];
    KeyInEither(page.items, rest, key);
    if !HasKey(page.items, key) {
      PageRest(calls[0].items, after, calls[0].limit, key);
      FollowedComplete(calls[1..], page.next, key);
    }
  }

  /** However set and limit change between calls, the pages give strictly increasing keys. */
  lemma PagesIncrease<T>(calls: seq<Call<T>>)
    requires CallsFit(calls)
    ensures Increasing(Followed(calls, None))
  {
    FollowedSorted(calls, None);
  }

  /**
   Pagination under change: with every snapshot strictly increasing, following cursors to the end returns
   each key that is in every snapshot exactly once, whatever it carries at each call and however set and
   limit change between calls.
   */
  lemma PaginationUnderChange<T>(calls: seq<Call<T>>, key: Key)
    requires CallsFit(calls) && Ends(calls, None) && forall c :: c in calls ==> HasKey(c.items, key)
    ensures HasKey(Followed(calls, None), key)
    ensures var all := Followed(calls, None);
            forall i, j :: 0 <= i < j < |all| ==> !(all[i].key == key && all[j].key == key)
  {
    FollowedSorted(calls, None);
    FollowedComplete(calls, None, key);
    var all := Followed(calls, None);
    forall i, j | 0 <= i < j < |all| ensures !(all[i].key == key && all[j].key == key) {
      CompareIsOrder(all[i].key, all[j].key, all[j].key);
    }
  }

  /** And nothing is returned that some call did not see. */
  lemma {:induction false} PagesAreSeen<T>(calls: seq<Call<T>>, after: Option<Key>, x: Item<T>)
    requires CallsFit(calls) && x in Followed(calls, after)
    ensures exists c :: c in calls && x in c.items
    decreases |calls|
  {
    assert calls[0] in calls && forall c :: c in calls[1..] ==> c in calls;
    var page := PageOf(calls[0].items, after, calls[0].limit);
    if x !in page.items { PagesAreSeen(calls[1..], page.next, x); }
  }

  // ---- A fixed set ------------------------------------------------------------------------------

  /** The calls needed: one even for an empty list, else the number of pages. */
  function CallsNeeded(n: nat, limit: int): (c: nat)
    requires limit >= 1
    ensures c >= 1
  {
    if n <= limit then 1 else 1 + CallsNeeded(n - limit, limit)
  }

  /** The number of calls is the quotient rounded up. */
  lemma {:induction false} CallsAreCeil(n: nat, limit: int)
    requires limit >= 1 && n >= 1
    ensures var c := CallsNeeded(n, limit); (c - 1) * limit < n <= c * limit
  {
    if n > limit {
      CallsAreCeil(n - limit, limit);
      var c := CallsNeeded(n - limit, limit);
      assert (c + 1) * limit == c * limit + limit && c * limit == (c - 1) * limit + limit;
    }
  }

  function Repeat<T>(c: Call<T>, times: nat): (r: seq<Call<T>>)
    ensures |r| == times && forall d :: d in r ==> d == c
  {
    if times == 0 then [] else [c] + Repeat(c, times - 1)
  }

  lemma {:induction false} StartBehind<T>(items: seq<Item<T>>, k: nat)
    requires Increasing(items) && 0 < k <= |items|
    ensures StartOf(items, Some(items[k - 1].key)) == k
  {
    forall i | 0 <= i < k ensures !Before(items[k - 1].key, items[i].key) {
      CompareIsOrder(items[i].key, items[k - 1].key, items[k - 1].key);
    }
    StartIs(items, Some(items[k - 1].key), k);
  }

  /** The cursor behind item k - 1 leads to item k. */
  ghost predicate CursorsLead<T>(items: seq<Item<T>>)
  {
    forall k {:trigger StartOf(items, Some(items[k].key))} :: 0 <= k < |items| ==> StartOf(items, Some(items[k].key)) == k + 1
  }

  /** The page from position k of a list, whatever cursor leads there. */
  lemma PageFrom<T>(items: seq<Item<T>>, limit: int, k: nat, after: Option<Key>)
    requires limit >= 1 && k <= |items| && StartOf(items, after) == k
    ensures PageOf(items, after, limit) ==
            if k + limit < |items| then Page(items[k..k + limit], Some(items[k + limit - 1].key), true, |items|)
            else Page(items[k..], None, false, |items|)
  {
  }

  /** What n calls read from a cursor on, and whether the last of them is the end. */
  ghost function Reading<T>(c: Call<T>, n: nat, after: Option<Key>): (seq<Item<T>>, bool)
    requires c.limit >= 1
  {
    (Followed(Repeat(c, n), after), Ends(Repeat(c, n), after))
  }

  lemma CutAt<T>(s: seq<T>, i: nat, j: nat)
    requires i <= j <= |s|
    ensures s[i..] == s[i..j] + s[j..]
  {
  }

  lemma FixedStep<T>(c: Call<T>, rest: seq<Call<T>>, k: nat, after: Option<Key>, next: Option<Key>)
    requires c.limit >= 1 && (forall d :: d in rest ==> d.limit >= 1)
    requires StartOf(c.items, after) == k && k + c.limit < |c.items| && next == Some(c.items[k + c.limit - 1].key)
    requires Followed(rest, next) == c.items[k + c.limit..] && Ends(rest, next)
    ensures Followed([c] + rest, after) == c.items[k..] && Ends([c] + rest, after)
  {
    FollowedCons(c, rest, after);
    PageFrom(c.items, c.limit, k, after);
    CutAt(c.items, k, k + c.limit);
  }

  lemma FixedLast<T>(c: Call<T>, k: nat, after: Option<Key>)
    requires c.limit >= 1 && StartOf(c.items, after) == k && k <= |c.items| <= k + c.limit
    ensures Reading(c, 1, after) == (c.items[k..], true)
  {
    FollowedCons(c, [], after);
    PageFrom(c.items, c.limit, k, after);
    assert Repeat(c, 1) == [c] + [];
    assert c.items[k..] + [] == c.items[k..];
  }

  lemma ReadsMore<T>(c: Call<T>, n: nat, k: nat, after: Option<Key>, next: Option<Key>)
    requires c.limit >= 1 && StartOf(c.items, after) == k && k + c.limit < |c.items|
    requires next == Some(c.items[k + c.limit - 1].key) && Reading(c, n, next) == (c.items[k + c.limit..], true)
    ensures Reading(c, n + 1, after) == (c.items[k..], true)
  {
    FixedStep(c, Repeat(c, n), k, after, next);
    assert Repeat(c, n + 1) == [c] + Repeat(c, n);
  }

  lemma CursorLeads<T>(items: seq<Item<T>>, j: nat)
    requires CursorsLead(items) && 0 < j <= |items|
    ensures StartOf(items, Some(items[j - 1].key)) == j
  {
  }

  lemma {:induction false} FixedFrom<T>(c: Call<T>, k: nat, after: Option<Key>)
    requires CursorsLead(c.items) && c.limit >= 1 && k <= |c.items| && StartOf(c.items, after) == k
    ensures Reading(c, CallsNeeded(|c.items| - k, c.limit), after) == (c.items[k..], true)
    decreases |c.items| - k
  {
    var j := k + c.limit;
    if j < |c.items| {
      CursorLeads(c.items, j);
      FixedFrom(c, j, Some(c.items[j - 1].key));
      ReadsMore(c, CallsNeeded(|c.items| - j, c.limit), k, after, Some(c.items[j - 1].key));
    } else {
      FixedLast(c, k, after);
    }
  }

  lemma FollowedCons<T>(c: Call<T>, rest: seq<Call<T>>, after: Option<Key>)
    requires c.limit >= 1 && forall d :: d in rest ==> d.limit >= 1
    ensures var page := PageOf(c.items, after, c.limit);
            && Followed([c] + rest, after) == page.items + (if page.hasMore then Followed(rest, page.next) else [])
            && (Ends([c] + rest, after) <==> !page.hasMore || Ends(rest, page.next))
  {
    assert ([c] + rest)[1..] == rest;
  }

  lemma SortedCursorsLead<T>(items: seq<Item<T>>)
    requires Increasing(items)
    ensures CursorsLead(items)
  {
    forall k | 0 <= k < |items| ensures StartOf(items, Some(items[k].key)) == k + 1 { StartBehind(items, k + 1); }
  }

  lemma FixedAll<T>(c: Call<T>)
    requires CursorsLead(c.items) && c.limit >= 1
    ensures var calls := Repeat(c, CallsNeeded(|c.items|, c.limit)); Followed(calls, None) == c.items && Ends(calls, None)
  {
    StartIs(c.items, None, 0);
    FixedFrom(c, 0, None);
    assert c.items[0..] == c.items;
  }

  /** On a fixed set the pages concatenate to the whole list in ceil(n / limit) calls. */
  lemma FixedSet<T>(items: seq<Item<T>>, limit: int)
    requires Increasing(items) && limit >= 1
    ensures Followed(Repeat(Call(items, limit), CallsNeeded(|items|, limit)), None) == items
    ensures Ends(Repeat(Call(items, limit), CallsNeeded(|items|, limit)), None)
  {
    SortedCursorsLead(items);
    FixedAll(Call(items, limit));
  }

  // ---- The combined items -----------------------------------------------------------------------

  /** A dropped-flow sample or an aggregate row; text stands for the rest of it. */
  datatype Row = Row(namespace: string, workload: string, isSample: bool, text: string)

  predicate SameGroup(a: Row, b: Row) { a.namespace == b.namespace && a.workload == b.workload }

  /** By namespace, then workload, then samples before aggregates. */
  predicate RowLe(a: Row, b: Row)
  {
    if a.namespace != b.namespace then LexLe(a.namespace, b.namespace)
    else if a.workload != b.workload then LexLe(a.workload, b.workload)
    else a.isSample || !b.isSample
  }

  lemma RowOrder()
    ensures TotalPreorder(RowLe)
  {
    forall x, y ensures RowLe(x, y) || RowLe(y, x) {
      LexTotal(x.namespace, y.namespace);
      LexTotal(x.workload, y.workload);
    }
    forall x, y, z | RowLe(x, y) && RowLe(y, z) ensures RowLe(x, z) {
      LexLtOrder(x.namespace, y.namespace, z.namespace);
      LexLtOrder(x.workload, y.workload, z.workload);
      LexLtOrder(y.namespace, z.namespace, z.namespace);
      LexLtOrder(y.workload, z.workload, z.workload);
    }
  }

  /** The position of row i within its run of rows with the same namespace and workload. */
  function GroupIndex(rows: seq<Row>, i: nat): nat
    requires i < |rows|
  {
    if i == 0 || !SameGroup(rows[i - 1], rows[i]) then 0 else 1 + GroupIndex(rows, i - 1)
  }

  function Combined(samples: seq<Row>, aggregates: seq<Row>): seq<Row> { Sort(samples + aggregates, RowLe) }

  function Indexed(rows: seq<Row>): (r: seq<Item<Row>>)
    ensures |r| == |rows|
  {
    seq(|rows|, i requires 0 <= i < |rows| => Item(Key(rows[i].namespace, rows[i].workload, GroupIndex(rows, i)), rows[i]))
  }

  method BuildCombinedItems(samples: seq<Row>, aggregates: seq<Row>) returns (items: seq<Item<Row>>)
    ensures items == Indexed(Combined(samples, aggregates))
  {
    var rows := Sort(samples + aggregates, RowLe);
    items := [];
    var idx, prevNS, prevWL, first := 0, "", "", true;
    for i := 0 to |rows|
      invariant first == (i == 0)
      invariant i > 0 ==> prevNS == rows[i - 1].namespace && prevWL == rows[i - 1].workload && idx == GroupIndex(rows, i - 1) + 1
      invariant |items| == i && forall j :: 0 <= j < i ==> items[j] == Indexed(rows)[j]
    {
      if first || rows[i].namespace != prevNS || rows[i].workload != prevWL {
        idx := 0;
        prevNS, prevWL := rows[i].namespace, rows[i].workload;
        first := false;
      }
      items := items + [Item(Key(rows[i].namespace, rows[i].workload, idx), rows[i])];
      idx := idx + 1;
    }
  }

  /** In a sorted list, neighbouring keys go up. */
  lemma NextIsLater(rows: seq<Row>, i: nat)
    requires Sorted(rows, RowLe) && i + 1 < |rows|
    ensures Before(Indexed(rows)[i].key, Indexed(rows)[i + 1].key)
  {
    var a, b := rows[i], rows[i + 1];
    assert RowLe(a, b);
    LexLtOrder(a.namespace, b.namespace, b.namespace);
    LexLtOrder(a.workload, b.workload, b.workload);
  }

  lemma {:induction false} LaterIsLater(rows: seq<Row>, i: nat, j: nat)
    requires Sorted(rows, RowLe) && i < j < |rows|
    ensures Before(Indexed(rows)[i].key, Indexed(rows)[j].key)
  {
    NextIsLater(rows, j - 1);
    if i < j - 1 {
      LaterIsLater(rows, i, j - 1);
      CompareIsOrder(Indexed(rows)[i].key, Indexed(rows)[j - 1].key, Indexed(rows)[j].key);
    }
  }

  function Rows(items: seq<Item<Row>>): (r: seq<Row>)
    ensures |r| == |items|
  {
    seq(|items|, i requires 0 <= i < |items| => items[i].payload)
  }

  /**
   The combined list meets what pagination asks for: keys strictly increase, and its rows are the given
   ones rearranged, those that tie keeping their order.
   */
  lemma CombinedItemsFit(samples: seq<Row>, aggregates: seq<Row>, x: Row)
    ensures var items := Indexed(Combined(samples, aggregates));
            && Increasing(items)
            && multiset(Rows(items)) == multiset(samples) + multiset(aggregates)
            && Ties(Rows(items), x, RowLe) == Ties(samples + aggregates, x, RowLe)
  {
    var rows := Combined(samples, aggregates);
    RowOrder();
    SortSorts(samples + aggregates, RowLe);
    SortPermutes(samples + aggregates, RowLe);
    SortIsStable(samples + aggregates, x, RowLe);
    assert Rows(Indexed(rows)) == rows;
    forall i, j | 0 <= i < j < |rows| ensures Before(Indexed(rows)[i].key, Indexed(rows)[j].key) { LaterIsLater(rows, i, j); }
  }

  predicate SameWorkload(a: Item<Row>, b: Item<Row>)
  {
    a.payload.namespace == b.payload.namespace && a.payload.workload == b.payload.workload
  }

  /**
   Each item carries its own namespace and workload; those of one workload are numbered from zero without
   gaps, and its samples come before its aggregates.
   */
  lemma CombinedInOrder(samples: seq<Row>, aggregates: seq<Row>, i: nat)
    requires i < |samples| + |aggregates|
    ensures |Indexed(Combined(samples, aggregates))| == |samples| + |aggregates|
    ensures var items := Indexed(Combined(samples, aggregates));
            && items[i].key.namespace == items[i].payload.namespace && items[i].key.workload == items[i].payload.workload
            && (items[i].key.index == 0 <==> i == 0 || !SameWorkload(items[i - 1], items[i]))
            && (items[i].key.index != 0 ==> items[i].key.index == items[i - 1].key.index + 1)
            && (forall j :: 0 <= j < i && SameWorkload(items[j], items[i]) && items[i].payload.isSample ==> items[j].payload.isSample)
  {
    var rows := Combined(samples, aggregates);
    RowOrder();
    SortSorts(samples + aggregates, RowLe);
    SortPermutes(samples + aggregates, RowLe);
    forall j | 0 <= j < i ensures RowLe(rows[j], rows[i]) {}
  }

  /** A page of the combined list of each moment: the pagination theorem applies to the tool's own lists. */
  lemma CombinedPagination(lists: seq<(seq<Row>, seq<Row>)>, limits: seq<int>, key: Key)
    requires |lists| == |limits| && forall i :: 0 <= i < |limits| ==> limits[i] >= 1
    requires Ends(CallsOf(lists, limits), None) && forall c :: c in CallsOf(lists, limits) ==> HasKey(c.items, key)
    ensures var all := Followed(CallsOf(lists, limits), None);
            Increasing(all) && HasKey(all, key) && forall i, j :: 0 <= i < j < |all| ==> !(all[i].key == key && all[j].key == key)
  {
    var calls := CallsOf(lists, limits);
    forall c | c in calls ensures Increasing(c.items) {
      var i :| 0 <= i < |calls| && calls[i] == c;
      CombinedItemsFit(lists[i].0, lists[i].1, Row("", "", false, ""));
    }
    PagesIncrease(calls);
    PaginationUnderChange(calls, key);
  }

  function CallsOf(lists: seq<(seq<Row>, seq<Row>)>, limits: seq<int>): (r: seq<Call<Row>>)
    requires |lists| == |limits| && forall i :: 0 <= i < |limits| ==> limits[i] >= 1
    ensures forall c :: c in r ==> c.limit >= 1
  {
    seq(|lists|, i requires 0 <= i < |lists| => Call(Indexed(Combined(lists[i].0, lists[i].1)), limits[i]))
  }
}
