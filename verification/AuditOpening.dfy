/**
 What Open does (pkg/auditwindow/manager.go): every endpoint on its list, and every endpoint the watcher
 hears of, is switched on and recorded, unless it was on already or reading or switching it failed.
 */
module AuditOpening {
  import opened AuditWindow

  /** Open has u still to visit, or is visiting it. */
  predicate Awaits(s: State, u: Uid)
  {
    s.open.Sweeping? && (u in s.open.todo || InFlight(s, u))
  }

  predicate InFlight(s: State, u: Uid)
  {
    s.flip != Idle && s.flip.uid == u
  }

  /** The visit of u ended because u was in audit mode. */
  predicate FoundOn(s: State, t: State, u: Uid)
  {
    s.flip == Checked(u) && t.flip == Idle && u in s.audit && s.audit[u]
  }

  /** The visit of u ended although u was not in audit mode: its read or its enable failed. */
  predicate Failed(s: State, t: State, u: Uid)
  {
    t.flip == Idle && (s.flip == ReadOff(u) || (s.flip == Checked(u) && u in s.audit && !s.audit[u]))
  }

  ghost predicate SomeFoundOn(states: seq<State>, u: Uid)
  {
    exists k :: 0 < k < |states| && FoundOn(states[k - 1], states[k], u)
  }

  ghost predicate SomeFailed(states: seq<State>, u: Uid)
  {
    exists k :: 0 < k < |states| && Failed(states[k - 1], states[k], u)
  }

  /** u was recorded, was on when visited, or a visit to it failed. */
  ghost predicate Accounted(states: seq<State>, u: Uid)
    requires |states| > 0
  {
    u in Last(states).ours || SomeFoundOn(states, u) || SomeFailed(states, u)
  }

  // ---- A visit ends in one of three ways --------------------------------------------------------

  lemma FlipVisits(s: State, a: FlipAct, u: Uid)
    requires FlipsOk(s) && CanFlip(s, a) && (Awaits(s, u) || InFlight(s, u))
    ensures var t := DoFlip(s, a);
            || (Awaits(s, u) && Awaits(t, u)) || (!Awaits(s, u) && InFlight(t, u))
            || u in t.ours || FoundOn(s, t, u) || Failed(s, t, u)
  {
    match a
    case OpenList(_) =>
    case OpenListFails =>
    case SweepNext =>
    case OpenReturns =>
    case WatchEvent(_) =>
    case ContextDone =>
    case WatchExits =>
    case Read(_) =>
    case Enable(_) =>
    case Record =>
  }

  lemma StepVisits(s: State, step: Step, u: Uid)
    requires FlipsOk(s) && Enabled(s, step) && (Awaits(s, u) || InFlight(s, u))
    ensures var t := Apply(s, step);
            || (Awaits(s, u) && Awaits(t, u)) || (!Awaits(s, u) && InFlight(t, u))
            || u in t.ours || FoundOn(s, t, u) || Failed(s, t, u)
  {
    match step
    case FlipAct(a) => FlipVisits(s, a, u);
    case SweepAct(_) =>
    case CallAct(op, a) => CallKeepsFlips(s, op, a);
    case Appear(_, _) =>
  }

  lemma OursGrow(s: State, step: Step)
    requires Enabled(s, step)
    ensures s.ours <= Apply(s, step).ours
  {
    match step
    case FlipAct(a) => FlipKeepsSnapshot(s, a);
    case SweepAct(_) =>
    case CallAct(op, a) => CallKeepsOurs(s, op, a);
    case Appear(_, _) =>
  }

  lemma CallKeepsOurs(s: State, op: Op, a: CallAct)
    requires CanCall(s, op, a)
    ensures DoCall(s, op, a).ours == s.ours
  {
  }

  lemma FrontRun(states: seq<State>) returns (step: Step)
    requires IsRun(states) && |states| > 1
    ensures var front := states[..|states| - 1];
            IsRun(front) && Inv(Last(front)) && Enabled(Last(front), step) && Last(states) == Apply(Last(front), step)
  {
    var front := states[..|states| - 1];
    forall i | 0 < i < |front| ensures Follows(front[i - 1], front[i]) { assert Follows(states[i - 1], states[i]); }
    RunsKeepInv(front);
    assert Follows(states[|states| - 2], states[|states| - 1]);
    assert Last(front) == states[|states| - 2] && Last(states) == states[|states| - 1];
    step :| Enabled(Last(front), step) && Last(states) == Apply(Last(front), step);
  }

  lemma AccountedGrows(states: seq<State>, u: Uid)
    requires IsRun(states) && |states| > 1 && Accounted(states[..|states| - 1], u)
    ensures Accounted(states, u)
  {
    var front := states[..|states| - 1];
    var step := FrontRun(states);
    OursGrow(Last(front), step);
    if k :| 0 < k < |front| && FoundOn(front[k - 1], front[k], u) { assert FoundOn(states[k - 1], states[k], u); }
    if k :| 0 < k < |front| && Failed(front[k - 1], front[k], u) { assert Failed(states[k - 1], states[k], u); }
  }

  /** Whatever Open had to visit it still has, or it is accounted for; likewise what is in flight. */
  lemma {:induction false} VisitsEnd(states: seq<State>, i: nat, u: Uid)
    requires IsRun(states) && i < |states|
    ensures Awaits(states[i], u) ==> Awaits(Last(states), u) || Accounted(states, u)
    ensures InFlight(states[i], u) ==> Awaits(Last(states), u) || InFlight(Last(states), u) || Accounted(states, u)
  {
    var n := |states| - 1;
    if i < n {
      var front := states[..n];
      var step := FrontRun(states);
      VisitsEnd(front, i, u);
      if Accounted(front, u) {
        AccountedGrows(states, u);
      } else if Awaits(Last(front), u) || InFlight(Last(front), u) {
        StepVisits(Last(front), step, u);
        if FoundOn(Last(front), Last(states), u) { assert FoundOn(states[n - 1], states[n], u); }
        if Failed(Last(front), Last(states), u) { assert Failed(states[n - 1], states[n], u); }
      }
    }
  }

  // ---- An endpoint found on had appeared so -----------------------------------------------------

  predicate PastKept(s: State, t: State, u: Uid)
  {
    && (s.misresolved ==> t.misresolved)
    && (u in s.initial ==> u in t.initial && t.initial[u] == s.initial[u])
  }

  lemma StepKeepsPast(s: State, step: Step, u: Uid)
    requires FlipsOk(s) && Enabled(s, step)
    ensures PastKept(s, Apply(s, step), u)
  {
    match step
    case FlipAct(a) => FlipKeepsPast(s, a);
    case SweepAct(_) =>
    case CallAct(op, a) => CallKeepsPast(s, op, a);
    case Appear(_, _) =>
  }

  lemma FlipKeepsPast(s: State, a: FlipAct)
    requires CanFlip(s, a)
    ensures var t := DoFlip(s, a); t.misresolved == s.misresolved && t.initial == s.initial
  {
    match a
    case OpenList(_) =>
    case OpenListFails =>
    case SweepNext =>
    case OpenReturns =>
    case WatchEvent(_) =>
    case ContextDone =>
    case WatchExits =>
    case Read(_) =>
    case Enable(_) =>
    case Record =>
  }

  lemma FoundOnBefore(s: State, t: State, u: Uid)
    requires Inv(s) && FoundOn(s, t, u) && PastKept(s, t, u) && !t.misresolved
    ensures u in t.initial && t.initial[u]
  {
    assert u !in s.enabled;
  }

  lemma CallKeepsPast(s: State, op: Op, a: CallAct)
    requires CanCall(s, op, a)
    ensures var t := DoCall(s, op, a); t.misresolved == s.misresolved && t.initial == s.initial
  {
  }

  lemma LatestFoundOn(states: seq<State>, u: Uid)
    requires SomeFoundOn(states, u)
    ensures |states| > 1
    ensures var front := states[..|states| - 1]; FoundOn(Last(front), Last(states), u) || SomeFoundOn(front, u)
  {
    var k :| 0 < k < |states| && FoundOn(states[k - 1], states[k], u);
    var front := states[..|states| - 1];
    if k < |front| { assert FoundOn(front[k - 1], front[k], u); }
  }

  lemma FoundOnStep(s: State, t: State, step: Step, u: Uid, before: bool)
    requires Inv(s) && Enabled(s, step) && t == Apply(s, step) && !t.misresolved
    requires if before then !s.misresolved ==> u in s.initial && s.initial[u] else FoundOn(s, t, u)
    ensures u in t.initial && t.initial[u]
  {
    StepKeepsPast(s, step, u);
    if !before { FoundOnBefore(s, t, u); }
  }

  /** While lookups name their own endpoints, an endpoint found on had appeared in audit mode. */
  lemma {:induction false} FoundOnAppearedSo(states: seq<State>, u: Uid)
    requires IsRun(states) && SomeFoundOn(states, u) && !Last(states).misresolved
    ensures u in Last(states).initial && Last(states).initial[u]
  {
    LatestFoundOn(states, u);
    var front := states[..|states| - 1];
    var step := FrontRun(states);
    var before := !FoundOn(Last(front), Last(states), u);
    if before && !Last(front).misresolved { FoundOnAppearedSo(front, u); }
    FoundOnStep(Last(front), Last(states), step, u, before);
  }

  // ---- Open -------------------------------------------------------------------------------------

  /** Step i of the run is Open's listing of these endpoints. */
  ghost predicate ListedAt(states: seq<State>, i: nat, list: seq<Uid>)
  {
    && 0 < i < |states|
    && Enabled(states[i - 1], FlipAct(OpenList(list))) && states[i] == Apply(states[i - 1], FlipAct(OpenList(list)))
  }

  /** Once Open has returned, every endpoint it listed was recorded, was on already, or failed. */
  lemma OpenAccounts(states: seq<State>, i: nat, list: seq<Uid>, u: Uid)
    requires IsRun(states) && ListedAt(states, i, list) && u in list && Last(states).open == Opened
    ensures Accounted(states, u)
  {
    assert Awaits(states[i], u);
    VisitsEnd(states, i, u);
  }

  /**
   When no read and no enable of a listed endpoint failed, it is in audit mode from Open's return on until
   a revert turned it off, and it is recorded as the window's exactly when it had appeared with its audit mode off.
   */
  lemma OpenSwitchesOn(states: seq<State>, i: nat, list: seq<Uid>, u: Uid)
    requires IsRun(states) && ListedAt(states, i, list) && u in list && Last(states).open == Opened
    requires !SomeFailed(states, u) && !Last(states).misresolved
    ensures var s := Last(states);
            && u in s.initial && (u in s.ours <==> !s.initial[u])
            && u in s.audit && (s.audit[u] || Turned(s, u))
  {
    OpenAccounts(states, i, list, u);
    RunsKeepInv(states);
    if SomeFoundOn(states, u) { FoundOnAppearedSo(states, u); }
  }

  /** The same for an endpoint the watcher hears of, once nothing is in flight. */
  lemma WatchAccounts(states: seq<State>, i: nat, u: Uid)
    requires IsRun(states) && 0 < i < |states| && Last(states).open == Opened && Last(states).flip == Idle
    requires Enabled(states[i - 1], FlipAct(WatchEvent(u))) && states[i] == Apply(states[i - 1], FlipAct(WatchEvent(u)))
    ensures Accounted(states, u)
  {
    if u in states[i - 1].ours {
      OursKept(states, i, u);
    } else {
      assert InFlight(states[i], u);
      VisitsEnd(states, i, u);
    }
  }

  lemma {:induction false} OursKept(states: seq<State>, i: nat, u: Uid)
    requires IsRun(states) && i < |states| && u in states[i].ours
    ensures u in Last(states).ours
  {
    var n := |states| - 1;
    if i < n {
      var step := FrontRun(states);
      OursKept(states[..n], i, u);
      OursGrow(Last(states[..n]), step);
    }
  }

  lemma ListedStays(states: seq<State>, i: nat, list: seq<Uid>, step: Step) returns (more: seq<State>)
    requires IsRun(states) && ListedAt(states, i, list) && Enabled(Last(states), step)
    ensures IsRun(more) && ListedAt(more, i, list) && Last(more) == Apply(Last(states), step)
  {
    more := states + [Apply(Last(states), step)];
    forall k | 0 < k < |more| ensures Follows(more[k - 1], more[k]) {
      if k < |states| { assert Follows(states[k - 1], states[k]); }
    }
    assert more[i - 1] == states[i - 1] && more[i] == states[i];
  }

  lemma OneListed() returns (states: seq<State>)
    ensures IsRun(states) && ListedAt(states, 2, [7])
    ensures Last(states) == INIT.(open := Sweeping([7]), audit := map[7 := false], initial := map[7 := false])
  {
    var one := Apply(INIT, Appear(7, false));
    assert one.audit == map[7 := false] && one.initial == map[7 := false];
    var two := Apply(one, FlipAct(OpenList([7])));
    states := [INIT, one, two];
    assert Follows(INIT, one) && Follows(one, two);
    forall k | 0 < k < |states| ensures Follows(states[k - 1], states[k]) {}
  }

  /** A run over a list of one endpoint that is not in audit mode: Open switches it on and records it. */
  lemma OpenFlipsOne() returns (states: seq<State>)
    ensures IsRun(states) && ListedAt(states, 2, [7])
    ensures Last(states) == INIT.(open := Opened, watcher := Live, audit := map[7 := true], initial := map[7 := false],
                                  ours := {7}, enabled := {7})
  {
    states := OneEnabled();
    states := ListedStays(states, 2, [7], FlipAct(Record));
    states := ListedStays(states, 2, [7], FlipAct(OpenReturns));
  }

  lemma OneEnabled() returns (states: seq<State>)
    ensures IsRun(states) && ListedAt(states, 2, [7])
    ensures Last(states) == INIT.(open := Sweeping([]), audit := map[7 := true], initial := map[7 := false],
                                  enabled := {7}, flip := SetOn(7))
  {
    states := OneListed();
    states := ListedStays(states, 2, [7], FlipAct(SweepNext));
    states := ListedStays(states, 2, [7], FlipAct(Read(Off)));
    states := ListedStays(states, 2, [7], FlipAct(Enable(true)));
    assert map[7 := false][7 := true] == map[7 := true];
  }
}
