/**
 The whole-run observation store of pkg/policy/l7_collapse.go: raw HTTP paths by observation key and
 method, collected during a flush window and absorbed into the retained set afterwards.
 */
module CollapseState {

  /** Observed raw paths by HTTP method. */
  type PathSet = map<string, set<string>>

  function PathsAt(s: PathSet, verb: string): set<string>
  {
    if verb in s then s[verb] else {}
  }

  function SetAt<K>(sets: map<K, PathSet>, k: K): PathSet
  {
    if k in sets then sets[k] else map[]
  }

  function PathsIn<K>(sets: map<K, PathSet>, k: K, verb: string): set<string>
  {
    PathsAt(SetAt(sets, k), verb)
  }

  function WithPath<K>(sets: map<K, PathSet>, k: K, verb: string, path: string): map<K, PathSet>
  {
    sets[k := SetAt(sets, k)[verb := PathsIn(sets, k, verb) + {path}]]
  }

  /** a holds, for every method, the paths of b and of c. */
  ghost predicate IsUnion(a: PathSet, b: PathSet, c: PathSet)
  {
    forall verb :: PathsAt(a, verb) == PathsAt(b, verb) + PathsAt(c, verb)
  }

  class L7CollapseState<K(==, !new)> {
    var retained: map<K, PathSet>
    var collected: map<K, PathSet>

    constructor ()
      ensures retained == map[] && collected == map[]
    {
      retained, collected := map[], map[];
    }

    method Observe(obsKey: K, verb: string, rawPath: string)
      modifies `collected
      ensures collected == WithPath(old(collected), obsKey, verb, rawPath)
    {
      var c: PathSet := map[];
      if obsKey in collected {
        c := collected[obsKey];
      }
      var m := {};
      if verb in c {
        m := c[verb];
      }
      collected := collected[obsKey := c[verb := m + {rawPath}]];
    }

    /** What has been observed under a key over the whole run. */
    function History(obsKey: K, verb: string): set<string>
      reads this
    {
      PathsIn(retained, obsKey, verb) + PathsIn(collected, obsKey, verb)
    }

    /** The window empties into the retained set, and the history stays what it was. */
    method Absorb()
      modifies this
      ensures collected == map[]
      ensures forall k :: IsUnion(SetAt(retained, k), SetAt(old(retained), k), SetAt(old(collected), k))
      ensures forall k, verb :: History(k, verb) == old(History(k, verb))
    {
      ghost var before := retained;
      ghost var window := collected;
      ghost var done: set<K> := {};
      while collected.Keys != {}
        invariant collected.Keys !! done && done + collected.Keys == window.Keys
        invariant forall k :: k in collected ==> collected[k] == window[k]
        invariant Absorbing(retained, before, window, done)
        decreases collected.Keys
      {
        var obsKey :| obsKey in collected.Keys;
        if obsKey !in retained {
          retained := retained[obsKey := map[]];
        }
        var merged := Fold(retained[obsKey], collected[obsKey]);
        retained := retained[obsKey := merged];
        collected := collected - {obsKey};
        done := done + {obsKey};
      }
      assert collected == map[];
      AbsorbedAll(retained, before, window);
    }
  }

  /** The keys done hold the union, the others what they held before. */
  ghost predicate Absorbing<K(!new)>(now: map<K, PathSet>, before: map<K, PathSet>, window: map<K, PathSet>, done: set<K>)
  {
    forall k :: if k in done then IsUnion(SetAt(now, k), SetAt(before, k), SetAt(window, k)) else SetAt(now, k) == SetAt(before, k)
  }

  lemma AbsorbedAll<K(!new)>(now: map<K, PathSet>, before: map<K, PathSet>, window: map<K, PathSet>)
    requires Absorbing(now, before, window, window.Keys)
    ensures forall k :: IsUnion(SetAt(now, k), SetAt(before, k), SetAt(window, k))
  {
  }

  /** Add every path of more to into. */
  method Fold(into: PathSet, more: PathSet) returns (out: PathSet)
    ensures IsUnion(out, into, more)
  {
    out := into;
    var todo := more.Keys;
    while todo != {}
      invariant todo <= more.Keys
      invariant forall verb :: PathsAt(out, verb) == PathsAt(into, verb) + (if verb in todo then {} else PathsAt(more, verb))
      decreases todo
    {
      var verb :| verb in todo;
      if verb !in out {
        out := out[verb := {}];
      }
      out := out[verb := out[verb] + more[verb]];
      todo := todo - {verb};
    }
  }

  method MergeL7PathSets(a: PathSet, b: PathSet) returns (out: PathSet)
    ensures IsUnion(out, a, b)
  {
    out := Fold(map[], a);
    out := Fold(out, b);
  }
}
