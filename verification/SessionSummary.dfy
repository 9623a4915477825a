/**
 The summaries that Stop returns for one session (pkg/session/manager.go, session.go). A summary is put
 together field by field without the lock, from what an exit, a teardown, the pipeline's last hook and
 Start each store in their own time: the stop time, the error, the counters and the tmpdir. Repeated
 Stops agree exactly when none of them can still be stored.
 */
module SessionSummary {
  import opened PolicyTypes
  import opened SessionManager
  import opened SessionProof
  import opened SessionOwnership

  predicate HasReturned(s: State, op: Op, sid: Sid)
  {
    op in s.stops && s.stops[op].sid == sid && s.stops[op].phase.Returned?
  }

  /** The summary of a Stop that is called and returns with nothing happening in between. */
  function ViewOf(x: Session): Summary { Summary(x.tmp, x.tmp, x.stamps, x.error, Counters(x)) }

  /** Two returned Stops of a session report one stop time, unless it exited on its own and a Stop tore it down as well. */
  lemma StopTimesAgree(states: seq<State>, p: Op, q: Op, sid: Sid)
    requires IsRun(states)
    requires var s := states[|states| - 1]; HasReturned(s, p, sid) && HasReturned(s, q, sid)
    ensures var s := states[|states| - 1];
            sid in s.sessions && (s.stops[p].phase.sum.stamp == s.stops[q].phase.sum.stamp
                                  || (s.sessions[sid].fate == ByExit && s.sessions[sid].once == Over))
  {
    RunsKeepInv(states);
    var s := states[|states| - 1];
    assert StopOk(s.stops[p], s.sessions[sid]) && StopOk(s.stops[q], s.sessions[sid]) && LocalOk(s.sessions[sid]);
  }

  // ---- When the summary is final ----------------------------------------------------------------

  predicate IsPending(s: State, op: Op, sid: Sid)
  {
    op in s.stops && s.stops[op].sid == sid && (s.stops[op].phase.SawCapturing? || Inside(s.stops[op].phase))
  }

  /** Some Stop saw the session capturing and has not been through the teardown. */
  ghost predicate SomePending(s: State, sid: Sid)
  {
    exists op :: IsPending(s, op, sid)
  }

  predicate StoppedAt(s: State, sid: Sid) { sid in s.sessions && s.sessions[sid].status == Stopped }

  /** Its Start has not handed it over yet. */
  predicate Early(p: Phase) { p.Claimed? || p.SettingUp? || p.Ready? }

  /** Nothing more will be stored: no stop time, no counters, no error, no tmpdir. */
  ghost predicate Frozen(s: State, sid: Sid)
  {
    && StoppedAt(s, sid)
    && (s.sessions[sid].once == Over || !SomePending(s, sid))
    && (s.sessions[sid].phase.Running? ==> s.sessions[sid].final.Some?)
    && !s.sessions[sid].phase.Erring?
    && (InSlot(s, sid) ==> !Early(s.sessions[sid].phase))
  }

  /** What a step must leave alone to keep a session frozen and its summary the same. */
  predicate SameStop(s: State, t: State, sid: Sid)
    requires sid in s.sessions && sid in t.sessions
  {
    && t.sessions[sid].status == s.sessions[sid].status && t.sessions[sid].once == s.sessions[sid].once
    && ViewOf(t.sessions[sid]) == ViewOf(s.sessions[sid])
  }

  lemma StaysFrozen(s: State, t: State, sid: Sid)
    requires Frozen(s, sid) && t.stops == s.stops && sid in t.sessions && SameStop(s, t, sid)
    requires t.sessions[sid].phase.Running? ==> t.sessions[sid].final.Some?
    requires !t.sessions[sid].phase.Erring? && (InSlot(t, sid) ==> !Early(t.sessions[sid].phase))
    ensures Frozen(t, sid) && ViewOf(t.sessions[sid]) == ViewOf(s.sessions[sid])
  {
    if op :| IsPending(t, op, sid) { assert IsPending(s, op, sid); }
  }

  lemma FrozenClaim(s: State, k: Sid, sid: Sid)
    requires Inv(s) && CanClaim(s, k) && Frozen(s, sid)
    ensures Frozen(DoClaim(s, k), sid) && ViewOf(DoClaim(s, k).sessions[sid]) == ViewOf(s.sessions[sid])
  {
    StaysFrozen(s, DoClaim(s, k), sid);
  }

  lemma FrozenStart(s: State, k: Sid, a: StartAct, sid: Sid)
    requires Inv(s) && CanStart(s, k, a) && Frozen(s, sid)
    ensures Frozen(DoStart(s, k, a), sid) && ViewOf(DoStart(s, k, a).sessions[sid]) == ViewOf(s.sessions[sid])
  {
    assert LocalOk(s.sessions[k]);
    StaysFrozen(s, DoStart(s, k, a), sid);
  }

  lemma FrozenLaunch(s: State, k: Sid, a: LaunchAct, sid: Sid)
    requires Inv(s) && CanLaunch(s, k, a) && Frozen(s, sid)
    ensures Frozen(DoLaunch(s, k, a), sid) && ViewOf(DoLaunch(s, k, a).sessions[sid]) == ViewOf(s.sessions[sid])
  {
    assert LocalOk(s.sessions[k]);
    StaysFrozen(s, DoLaunch(s, k, a), sid);
  }

  lemma FrozenTake(s: State, op: Op, sid: Sid)
    requires Inv(s) && CanTake(s, op) && Frozen(s, sid)
    ensures Frozen(DoTake(s, op), sid) && ViewOf(DoTake(s, op).sessions[sid]) == ViewOf(s.sessions[sid])
  {
    StaysFrozen(s, DoTake(s, op), sid);
  }

  lemma FrozenShut(s: State, op: Op, a: ShutAct, sid: Sid)
    requires Inv(s) && CanShut(s, op, a) && Frozen(s, sid)
    ensures Frozen(DoShut(s, op, a), sid) && ViewOf(DoShut(s, op, a).sessions[sid]) == ViewOf(s.sessions[sid])
  {
    StaysFrozen(s, DoShut(s, op, a), sid);
  }

  lemma FrozenRead(s: State, op: Op, k: Sid, sid: Sid)
    requires Inv(s) && CanStopRead(s, op, k) && Frozen(s, sid)
    ensures Frozen(DoStopRead(s, op, k), sid) && ViewOf(DoStopRead(s, op, k).sessions[sid]) == ViewOf(s.sessions[sid])
  {
    var t := DoStopRead(s, op, k);
    if p :| IsPending(t, p, sid) {
      if p != op { assert IsPending(s, p, sid); }
    }
  }

  lemma PendingBefore(s: State, op: Op, a: StopAct, sid: Sid)
    requires CanStop(s, op, a)
    ensures SomePending(DoStop(s, op, a), sid) ==> SomePending(s, sid)
  {
    if p :| IsPending(DoStop(s, op, a), p, sid) { assert IsPending(s, p, sid); }
  }

  lemma FrozenStop(s: State, op: Op, a: StopAct, sid: Sid)
    requires Inv(s) && CanStop(s, op, a) && Frozen(s, sid)
    ensures Frozen(DoStop(s, op, a), sid) && ViewOf(DoStop(s, op, a).sessions[sid]) == ViewOf(s.sessions[sid])
  {
    var t, k := DoStop(s, op, a), s.stops[op].sid;
    assert StopOk(s.stops[op], s.sessions[k]);
    assert k == sid ==> !a.StopFinish? by { assert k == sid && a.StopFinish? ==> IsPending(s, op, sid); }
    PendingBefore(s, op, a, sid);
  }

  lemma FrozenStep(s: State, step: Step, sid: Sid)
    requires Inv(s) && Enabled(s, step) && Frozen(s, sid)
    ensures Frozen(Apply(s, step), sid) && ViewOf(Apply(s, step).sessions[sid]) == ViewOf(s.sessions[sid])
  {
    match step
    case Claim(k) => FrozenClaim(s, k, sid);
    case StartMoves(k, a) => FrozenStart(s, k, a, sid);
    case LaunchMoves(k, a) => FrozenLaunch(s, k, a, sid);
    case StopRead(op, k) => FrozenRead(s, op, k, sid);
    case StopMoves(op, a) => FrozenStop(s, op, a, sid);
    case ShutTake(op) => FrozenTake(s, op, sid);
    case ShutMoves(op, a) => FrozenShut(s, op, a, sid);
    case RootCancel => StaysFrozen(s, Apply(s, step), sid);
  }

  // ---- Continuations ----------------------------------------------------------------------------

  /** A run from s on. */
  ghost predicate IsPath(s: State, path: seq<State>)
  {
    && |path| > 0 && path[0] == s
    && forall i :: 0 < i < |path| ==> Follows(path[i - 1], path[i])
  }

  function Last(path: seq<State>): State
    requires |path| > 0
  {
    path[|path| - 1]
  }

  lemma FrontPath(s: State, path: seq<State>)
    requires IsPath(s, path) && |path| > 1
    ensures IsPath(s, path[..|path| - 1]) && Follows(Last(path[..|path| - 1]), Last(path))
  {
    var front := path[..|path| - 1];
    forall i | 0 < i < |front| ensures Follows(front[i - 1], front[i]) { assert Follows(path[i - 1], path[i]); }
    assert Follows(path[|path| - 2], path[|path| - 1]);
  }

  lemma Onward(s: State, path: seq<State>, step: Step) returns (more: seq<State>)
    requires IsPath(s, path) && Enabled(Last(path), step)
    ensures IsPath(s, more) && Last(more) == Apply(Last(path), step)
  {
    more := path + [Apply(Last(path), step)];
    forall i | 0 < i < |more| ensures Follows(more[i - 1], more[i]) {
      if i < |path| { assert Follows(path[i - 1], path[i]); }
    }
  }

  lemma {:induction false} PathInv(s: State, path: seq<State>)
    requires Inv(s) && IsPath(s, path)
    ensures Inv(Last(path))
  {
    if |path| > 1 {
      FrontPath(s, path);
      var front := path[..|path| - 1];
      PathInv(s, front);
      var step :| Enabled(Last(front), step) && Last(path) == Apply(Last(front), step);
      InvStep(Last(front), step);
    }
  }

  // ---- Stops of a frozen session ----------------------------------------------------------------

  /** What a Stop that began after the freeze has read so far is part of the summary v. */
  predicate Tells(o: StopOp, v: Summary)
  {
    && o.health == v.health
    && match o.phase
       case SawStopped => true
       case Building(_, read, sum) =>
         && sum.health == v.health && (read >= 1 ==> sum.tmp == v.tmp) && (read >= 2 ==> sum.stamp == v.stamp)
         && (read >= 3 ==> sum.error == v.error)
       case Returned(_, sum) => sum == v
       case _ => false
  }

  /** The Stops of the session that are not among the old ones tell v. */
  ghost predicate NewStopsTell(before: set<Op>, t: State, sid: Sid, v: Summary)
  {
    forall op :: op in t.stops && op !in before && t.stops[op].sid == sid ==> Tells(t.stops[op], v)
  }

  lemma StopTells(s: State, op: Op, a: StopAct, sid: Sid, before: set<Op>, v: Summary)
    requires Inv(s) && CanStop(s, op, a) && Frozen(s, sid) && v == ViewOf(s.sessions[sid]) && NewStopsTell(before, s, sid, v)
    ensures NewStopsTell(before, DoStop(s, op, a), sid, v)
  {
    var t := DoStop(s, op, a);
    if op !in before && s.stops[op].sid == sid {
      assert Tells(s.stops[op], v) && StopOk(s.stops[op], s.sessions[sid]);
      assert Tells(t.stops[op], v);
    }
  }

  lemma StepTells(s: State, step: Step, sid: Sid, before: set<Op>, v: Summary)
    requires Inv(s) && Enabled(s, step) && Frozen(s, sid) && v == ViewOf(s.sessions[sid]) && NewStopsTell(before, s, sid, v)
    ensures NewStopsTell(before, Apply(s, step), sid, v)
  {
    match step
    case Claim(_) =>
    case StartMoves(_, _) =>
    case LaunchMoves(_, _) =>
    case StopRead(_, _) =>
    case StopMoves(op, a) => StopTells(s, op, a, sid, before, v);
    case ShutTake(_) =>
    case ShutMoves(_, _) =>
    case RootCancel =>
  }

  lemma {:induction false} FrozenStopsTell(s: State, path: seq<State>, sid: Sid)
    requires Inv(s) && Frozen(s, sid) && IsPath(s, path)
    ensures Inv(Last(path)) && Frozen(Last(path), sid) && ViewOf(Last(path).sessions[sid]) == ViewOf(s.sessions[sid])
    ensures NewStopsTell(s.stops.Keys, Last(path), sid, ViewOf(s.sessions[sid]))
  {
    if |path| > 1 {
      FrontPath(s, path);
      var front := path[..|path| - 1];
      FrozenStopsTell(s, front, sid);
      var step :| Enabled(Last(front), step) && Last(path) == Apply(Last(front), step);
      InvStep(Last(front), step);
      FrozenStep(Last(front), step, sid);
      StepTells(Last(front), step, sid, s.stops.Keys, ViewOf(s.sessions[sid]));
    }
  }

  // ---- Stops of a session that has lost the slot ------------------------------------------------

  ghost predicate NoNewStops(before: set<Op>, t: State, sid: Sid)
  {
    sid in t.sessions && !InSlot(t, sid) && forall op :: op in t.stops && t.stops[op].sid == sid ==> op in before
  }

  lemma NoNewStopsStep(s: State, step: Step, sid: Sid, before: set<Op>)
    requires Inv(s) && Enabled(s, step) && NoNewStops(before, s, sid)
    ensures NoNewStops(before, Apply(s, step), sid)
  {
    match step
    case Claim(_) =>
    case StartMoves(_, _) =>
    case LaunchMoves(_, _) =>
    case StopRead(_, _) =>
    case StopMoves(_, _) =>
    case ShutTake(_) =>
    case ShutMoves(_, _) =>
    case RootCancel =>
  }

  lemma {:induction false} NoStopsAfterSlot(s: State, path: seq<State>, sid: Sid)
    requires Inv(s) && sid in s.sessions && !InSlot(s, sid) && IsPath(s, path)
    ensures Inv(Last(path)) && NoNewStops(s.stops.Keys, Last(path), sid)
  {
    if |path| > 1 {
      FrontPath(s, path);
      var front := path[..|path| - 1];
      NoStopsAfterSlot(s, front, sid);
      var step :| Enabled(Last(front), step) && Last(path) == Apply(Last(front), step);
      InvStep(Last(front), step);
      NoNewStopsStep(Last(front), step, sid, s.stops.Keys);
    }
  }

  // ---- A session that is not frozen -------------------------------------------------------------

  /** Somewhere ahead the session still has the slot and its summary is another one. */
  ghost predicate Changes(s: State, path: seq<State>, sid: Sid)
  {
    && IsPath(s, path) && InSlot(Last(path), sid) && StoppedAt(Last(path), sid)
    && s.stops.Keys <= Last(path).stops.Keys && sid in s.sessions && ViewOf(Last(path).sessions[sid]) != ViewOf(s.sessions[sid])
  }

  /** On the way there nothing that matters has changed. */
  ghost predicate OnTheWay(s: State, path: seq<State>, sid: Sid)
  {
    && IsPath(s, path) && InSlot(Last(path), sid) && StoppedAt(Last(path), sid)
    && s.stops.Keys <= Last(path).stops.Keys && sid in s.sessions && ViewOf(Last(path).sessions[sid]) == ViewOf(s.sessions[sid])
  }

  lemma FinishChanges(s: State, path: seq<State>, op: Op, sid: Sid) returns (more: seq<State>)
    requires OnTheWay(s, path, sid)
    requires var t := Last(path); op in t.stops && t.stops[op].sid == sid && t.stops[op].phase.Finishing?
    ensures Changes(s, more, sid)
  {
    more := Onward(s, path, StopMoves(op, StopFinish));
  }

  lemma WaitChanges(s: State, path: seq<State>, op: Op, sid: Sid) returns (more: seq<State>)
    requires OnTheWay(s, path, sid)
    requires var t := Last(path); op in t.stops && t.stops[op].sid == sid && t.stops[op].phase.Waiting?
    ensures Changes(s, more, sid)
  {
    more := Onward(s, path, StopMoves(op, StopExpired));
    more := FinishChanges(s, more, op, sid);
  }

  lemma OnceChanges(s: State, path: seq<State>, op: Op, sid: Sid) returns (more: seq<State>)
    requires OnTheWay(s, path, sid)
    requires var t := Last(path); op in t.stops && t.stops[op].sid == sid && t.stops[op].phase.InOnce?
    ensures Changes(s, more, sid)
  {
    more := Onward(s, path, StopMoves(op, StopCancel));
    more := WaitChanges(s, more, op, sid);
  }

  lemma InsideChanges(s: State, op: Op, sid: Sid) returns (more: seq<State>)
    requires OnTheWay(s, [s], sid) && op in s.stops && s.stops[op].sid == sid && Inside(s.stops[op].phase)
    ensures Changes(s, more, sid)
  {
    if s.stops[op].phase.InOnce? {
      more := OnceChanges(s, [s], op, sid);
    } else if s.stops[op].phase.Waiting? {
      more := WaitChanges(s, [s], op, sid);
    } else {
      more := FinishChanges(s, [s], op, sid);
    }
  }

  lemma PendingChanges(s: State, sid: Sid) returns (more: seq<State>)
    requires Inv(s) && OnTheWay(s, [s], sid) && s.sessions[sid].once != Over && SomePending(s, sid)
    ensures Changes(s, more, sid)
  {
    var op :| IsPending(s, op, sid);
    if Inside(s.stops[op].phase) {
      more := InsideChanges(s, op, sid);
    } else if s.sessions[sid].once == Busy {
      assert SomeoneInside(s, sid);
      var p :| p in s.stops && s.stops[p].sid == sid && Inside(s.stops[p].phase);
      more := InsideChanges(s, p, sid);
    } else {
      more := Onward(s, [s], StopMoves(op, EnterOnce));
      more := OnceChanges(s, more, op, sid);
    }
  }

  lemma {:induction false} Bound(used: set<nat>) returns (top: nat)
    ensures forall u :: u in used ==> u < top
    decreases |used|
  {
    top := 0;
    if used != {} {
      var x :| x in used;
      var rest := Bound(used - {x});
      top := if x < rest then rest else x + 1;
      assert forall u :: u in used ==> u == x || u in used - {x};
    }
  }

  lemma ReadyChanges(s: State, path: seq<State>, sid: Sid) returns (more: seq<State>)
    requires Inv(s) && OnTheWay(s, path, sid) && Last(path).sessions[sid].phase.Ready?
    ensures Changes(s, more, sid)
  {
    PathInv(s, path);
    assert LocalOk(Last(path).sessions[sid]);
    more := Onward(s, path, StartMoves(sid, Finalise));
  }

  lemma SetupChanges(s: State, path: seq<State>, sid: Sid) returns (more: seq<State>)
    requires Inv(s) && OnTheWay(s, path, sid) && Last(path).sessions[sid].phase.SettingUp?
    ensures Changes(s, more, sid)
  {
    more := Onward(s, path, StartMoves(sid, SetupOk));
    more := ReadyChanges(s, more, sid);
  }

  lemma EarlyChanges(s: State, sid: Sid) returns (more: seq<State>)
    requires Inv(s) && OnTheWay(s, [s], sid) && Early(s.sessions[sid].phase)
    ensures Changes(s, more, sid)
  {
    if s.sessions[sid].phase.Ready? {
      more := ReadyChanges(s, [s], sid);
    } else if s.sessions[sid].phase.SettingUp? {
      more := SetupChanges(s, [s], sid);
    } else {
      var d := Bound(s.dirs.Keys);
      more := Onward(s, [s], StartMoves(sid, MkdirOk(d)));
      more := SetupChanges(s, more, sid);
    }
  }

  lemma CountersChange(s: State, sid: Sid) returns (more: seq<State>)
    requires OnTheWay(s, [s], sid) && s.sessions[sid].phase.Running? && s.sessions[sid].final.None?
    ensures Changes(s, more, sid)
  {
    more := Onward(s, [s], LaunchMoves(sid, StoreFinal(1)));
  }

  lemma ErrorChanges(s: State, sid: Sid) returns (more: seq<State>)
    requires Inv(s) && OnTheWay(s, [s], sid) && s.sessions[sid].phase.Erring?
    ensures Changes(s, more, sid)
  {
    assert LocalOk(s.sessions[sid]);
    more := Onward(s, [s], LaunchMoves(sid, StoreError));
  }

  lemma NotFrozenChanges(s: State, sid: Sid) returns (more: seq<State>)
    requires Inv(s) && StoppedAt(s, sid) && InSlot(s, sid) && !Frozen(s, sid)
    ensures Changes(s, more, sid)
  {
    var x := s.sessions[sid];
    if Early(x.phase) {
      more := EarlyChanges(s, sid);
    } else if x.phase.Running? && x.final.None? {
      more := CountersChange(s, sid);
    } else if x.phase.Erring? {
      more := ErrorChanges(s, sid);
    } else {
      more := PendingChanges(s, sid);
    }
  }

  // ---- A Stop without company -------------------------------------------------------------------

  predicate AtStop(s: State, op: Op, sid: Sid, phase: StopPhase, health: Option<TmpDir>)
  {
    sid in s.sessions && op in s.stops && s.stops[op] == StopOp(sid, phase, health)
  }

  /** s with the Stop in another phase and the session changed to y. */
  function Moved(s: State, op: Op, sid: Sid, phase: StopPhase, health: Option<TmpDir>, y: Session): State
  {
    s.(sessions := s.sessions[sid := y], stops := s.stops[op := StopOp(sid, phase, health)])
  }

  lemma MovedTwice(s: State, op: Op, sid: Sid, p: StopPhase, q: StopPhase, health: Option<TmpDir>, y: Session, z: Session)
    ensures Moved(Moved(s, op, sid, p, health, y), op, sid, q, health, z) == Moved(s, op, sid, q, health, z)
  {
    assert s.sessions[sid := y][sid := z] == s.sessions[sid := z];
    assert s.stops[op := StopOp(sid, p, health)][op := StopOp(sid, q, health)] == s.stops[op := StopOp(sid, q, health)];
  }

  /** One act of a Stop. */
  lemma StopOnward(s: State, path: seq<State>, op: Op, sid: Sid, a: StopAct, phase: StopPhase, health: Option<TmpDir>)
    returns (more: seq<State>)
    requires IsPath(s, path) && AtStop(Last(path), op, sid, phase, health)
    requires StopFits(Last(path).sessions[sid], phase, a)
    ensures IsPath(s, more)
    ensures var x := Last(path).sessions[sid];
            Last(more) == Moved(Last(path), op, sid, StopNext(x, phase, a, health), health, StopSession(x, phase, a))
  {
    more := Onward(s, path, StopMoves(op, a));
  }

  lemma Swap(s: State, path: seq<State>, op: Op, sid: Sid, phase: StopPhase, health: Option<TmpDir>) returns (more: seq<State>)
    requires IsPath(s, path) && AtStop(Last(path), op, sid, phase, health) && (phase == SawStopped || phase == Summing)
    ensures IsPath(s, more)
    ensures var x := Last(path).sessions[sid];
            Last(more) == Moved(Last(path), op, sid, Building(x.stopSeen, 1, BLANK.(health := health, tmp := x.tmp)), health, x.(stopSeen := true))
  {
    var t, x := Last(path), Last(path).sessions[sid];
    var p := Building(x.stopSeen, 0, BLANK.(health := health));
    more := StopOnward(s, path, op, sid, StopSwap, phase, health);
    more := StopOnward(s, more, op, sid, ReadTmp, p, health);
    MovedTwice(t, op, sid, p, Building(x.stopSeen, 1, p.sum.(tmp := x.tmp)), health, x.(stopSeen := true), x.(stopSeen := true));
  }

  lemma ReadRest(s: State, path: seq<State>, op: Op, sid: Sid, already: bool, sum: Summary, health: Option<TmpDir>) returns (more: seq<State>)
    requires IsPath(s, path) && AtStop(Last(path), op, sid, Building(already, 1, sum), health)
    ensures IsPath(s, more)
    ensures var x := Last(path).sessions[sid];
            Last(more) == Moved(Last(path), op, sid,
                                Returned(already, sum.(stamp := x.stamps, error := x.error, counters := Counters(x))), health, x)
  {
    var t, x := Last(path), Last(path).sessions[sid];
    var p := Building(already, 2, sum.(stamp := x.stamps));
    var q := Building(already, 3, p.sum.(error := x.error));
    var r := Returned(already, q.sum.(counters := Counters(x)));
    more := StopOnward(s, path, op, sid, ReadTime, Building(already, 1, sum), health);
    more := StopOnward(s, more, op, sid, ReadError, p, health);
    MovedTwice(t, op, sid, p, q, health, x, x);
    more := StopOnward(s, more, op, sid, ReadCounters, q, health);
    MovedTwice(t, op, sid, q, r, health, x, x);
  }

  /** From the end of the teardown to the return, with nothing happening in between. */
  lemma Report(s: State, path: seq<State>, op: Op, sid: Sid, phase: StopPhase, health: Option<TmpDir>) returns (more: seq<State>)
    requires IsPath(s, path) && AtStop(Last(path), op, sid, phase, health) && (phase == SawStopped || phase == Summing)
    ensures IsPath(s, more)
    ensures var x := Last(path).sessions[sid];
            Last(more) == Moved(Last(path), op, sid, Returned(x.stopSeen, ViewOf(x).(health := health)), health, x.(stopSeen := true))
  {
    var t, x := Last(path), Last(path).sessions[sid];
    var p := Building(x.stopSeen, 1, BLANK.(health := health, tmp := x.tmp));
    more := Swap(s, path, op, sid, phase, health);
    more := ReadRest(s, more, op, sid, x.stopSeen, p.sum, health);
    MovedTwice(t, op, sid, p, Returned(x.stopSeen, ViewOf(x).(health := health)), health, x.(stopSeen := true), x.(stopSeen := true));
  }

  /** A Stop of a stopped session that runs on its own returns the session's summary. */
  lemma StopAlone(s: State, path: seq<State>, sid: Sid, op: Op) returns (more: seq<State>)
    requires IsPath(s, path) && InSlot(Last(path), sid) && StoppedAt(Last(path), sid) && op !in Last(path).stops
    ensures IsPath(s, more)
    ensures var x := Last(path).sessions[sid];
            Last(more) == Moved(Last(path), op, sid, Returned(x.stopSeen, ViewOf(x)), x.tmp, x.(stopSeen := true))
  {
    var t, x := Last(path), Last(path).sessions[sid];
    more := Onward(s, path, StopRead(op, sid));
    assert t.sessions[sid := x] == t.sessions;
    assert Last(more) == Moved(t, op, sid, SawStopped, x.tmp, x);
    more := Report(s, more, op, sid, SawStopped, x.tmp);
    MovedTwice(t, op, sid, SawStopped, Returned(x.stopSeen, ViewOf(x)), x.tmp, x, x.(stopSeen := true));
  }

  // ---- When Stops agree -------------------------------------------------------------------------

  /** Every Stop called from here on that returns, however a run goes on, returns the summary of now. */
  ghost predicate StopsAgreeFrom(s: State, sid: Sid)
    requires sid in s.sessions
  {
    forall path, op :: IsPath(s, path) && op !in s.stops && HasReturned(Last(path), op, sid) ==>
      Last(path).stops[op].phase.sum == ViewOf(s.sessions[sid])
  }

  /**
   All later Stops of a stopped session return one and the same summary exactly when the session has lost the slot, so
   that there are none, or is frozen: no Stop is on its way to a teardown that writes the stop time again, the pipeline
   has stored its counters or is past storing them, no error is about to be stored, and Start has handed the session over.
   */
  lemma StopsAgreeIff(states: seq<State>, sid: Sid)
    requires IsRun(states) && StoppedAt(states[|states| - 1], sid)
    ensures StopsAgreeFrom(states[|states| - 1], sid) <==>
            !InSlot(states[|states| - 1], sid) || Frozen(states[|states| - 1], sid)
  {
    RunsKeepInv(states);
    var s := states[|states| - 1];
    if Frozen(s, sid) {
      forall path, op | IsPath(s, path) && op !in s.stops && HasReturned(Last(path), op, sid)
        ensures Last(path).stops[op].phase.sum == ViewOf(s.sessions[sid])
      {
        FrozenStopsTell(s, path, sid);
        assert Tells(Last(path).stops[op], ViewOf(s.sessions[sid]));
      }
    } else if !InSlot(s, sid) {
      forall path, op | IsPath(s, path) && op !in s.stops ensures !HasReturned(Last(path), op, sid) {
        NoStopsAfterSlot(s, path, sid);
      }
    } else {
      var path := NotFrozenChanges(s, sid);
      var op := Bound(Last(path).stops.Keys);
      var more := StopAlone(s, path, sid, op);
      assert IsPath(s, more) && op !in s.stops && HasReturned(Last(more), op, sid);
    }
  }

  lemma SuffixPath(states: seq<State>, i: nat)
    requires IsRun(states) && i < |states|
    ensures Inv(states[i]) && IsPath(states[i], states[i..])
  {
    var rest := states[i..];
    PrefixRun(states, i + 1);
    RunsKeepInv(states[..i + 1]);
    forall k | 0 < k < |rest| ensures Follows(rest[k - 1], rest[k]) { assert Follows(states[i + k - 1], states[i + k]); }
  }

  /** In every run, any two Stops called after the session froze return the same summary, the one it then had. */
  lemma SummariesAgree(states: seq<State>, i: nat, p: Op, q: Op, sid: Sid)
    requires IsRun(states) && i < |states| && Frozen(states[i], sid) && p !in states[i].stops && q !in states[i].stops
    requires HasReturned(states[|states| - 1], p, sid) && HasReturned(states[|states| - 1], q, sid)
    ensures var s := states[|states| - 1];
            s.stops[p].phase.sum == s.stops[q].phase.sum == ViewOf(states[i].sessions[sid])
  {
    SuffixPath(states, i);
    FrozenStopsTell(states[i], states[i..], sid);
    assert Last(states[i..]) == states[|states| - 1];
    assert Tells(states[|states| - 1].stops[p], ViewOf(states[i].sessions[sid]));
    assert Tells(states[|states| - 1].stops[q], ViewOf(states[i].sessions[sid]));
  }

  // ---- Four runs in which the second Stop returns another summary -------------------------------

  lemma EnterAndCancel(s: State, path: seq<State>, op: Op, sid: Sid, health: Option<TmpDir>) returns (more: seq<State>)
    requires IsPath(s, path) && AtStop(Last(path), op, sid, SawCapturing, health)
    requires Last(path).sessions[sid].once == Once.NotRun
    ensures IsPath(s, more)
    ensures Last(more) == Moved(Last(path), op, sid, StopPhase.Waiting, health, Last(path).sessions[sid].(once := Busy, cancelled := true))
  {
    var t, x := Last(path), Last(path).sessions[sid];
    more := StopOnward(s, path, op, sid, EnterOnce, SawCapturing, health);
    more := StopOnward(s, more, op, sid, StopCancel, InOnce, health);
    MovedTwice(t, op, sid, InOnce, StopPhase.Waiting, health, x.(once := Busy), x.(once := Busy, cancelled := true));
  }

  lemma ExpireAndFinish(s: State, path: seq<State>, op: Op, sid: Sid, health: Option<TmpDir>) returns (more: seq<State>)
    requires IsPath(s, path) && AtStop(Last(path), op, sid, StopPhase.Waiting, health)
    ensures IsPath(s, more)
    ensures var x := Last(path).sessions[sid];
            Last(more) == Moved(Last(path), op, sid, Summing, health,
                                x.(status := Stopped, once := Once.Over, fate := Lost(x.fate, ByStop), stamps := x.stamps + 1))
  {
    var t, x := Last(path), Last(path).sessions[sid];
    more := StopOnward(s, path, op, sid, StopExpired, StopPhase.Waiting, health);
    more := StopOnward(s, more, op, sid, StopFinish, Finishing, health);
    MovedTwice(t, op, sid, Finishing, Summing, health, x,
               x.(status := Stopped, once := Once.Over, fate := Lost(x.fate, ByStop), stamps := x.stamps + 1));
  }

  /** A Stop goes through the teardown, and its wait for the pipeline runs out. */
  lemma TearDown(s: State, path: seq<State>, op: Op, sid: Sid, health: Option<TmpDir>) returns (more: seq<State>)
    requires IsPath(s, path) && AtStop(Last(path), op, sid, SawCapturing, health)
    requires Last(path).sessions[sid].once == Once.NotRun
    ensures IsPath(s, more)
    ensures Last(more) == Moved(Last(path), op, sid, Summing, health, Torn(Last(path).sessions[sid]))
  {
    var t, x := Last(path), Last(path).sessions[sid];
    more := EnterAndCancel(s, path, op, sid, health);
    more := ExpireAndFinish(s, more, op, sid, health);
    MovedTwice(t, op, sid, StopPhase.Waiting, Summing, health, x.(once := Busy, cancelled := true), Torn(x));
  }

  function Torn(x: Session): Session
  {
    x.(once := Once.Over, cancelled := true, status := Stopped, fate := Lost(x.fate, ByStop), stamps := x.stamps + 1)
  }

  lemma TearDownAndReport(s: State, path: seq<State>, op: Op, sid: Sid, health: Option<TmpDir>) returns (more: seq<State>)
    requires IsPath(s, path) && AtStop(Last(path), op, sid, SawCapturing, health)
    requires Last(path).sessions[sid].once == Once.NotRun
    ensures IsPath(s, more)
    ensures var y := Torn(Last(path).sessions[sid]);
            Last(more) == Moved(Last(path), op, sid, Returned(y.stopSeen, ViewOf(y).(health := health)), health, y.(stopSeen := true))
  {
    var t, y := Last(path), Torn(Last(path).sessions[sid]);
    more := TearDown(s, path, op, sid, health);
    more := Report(s, more, op, sid, Summing, health);
    MovedTwice(t, op, sid, Summing, Returned(y.stopSeen, ViewOf(y).(health := health)), health, y, y.(stopSeen := true));
  }

  /** Only the session has moved. */
  function With(s: State, sid: Sid, y: Session): State { s.(sessions := s.sessions[sid := y]) }

  lemma LaunchOnward(s: State, path: seq<State>, sid: Sid, a: LaunchAct) returns (more: seq<State>)
    requires IsPath(s, path) && CanLaunch(Last(path), sid, a)
    ensures IsPath(s, more)
    ensures var t := Last(path); var x := t.sessions[sid];
            Last(more) == With(t, sid, LaunchSession(x, a, Cancelled(t, x), InSlot(t, sid)))
  {
    more := Onward(s, path, LaunchMoves(sid, a));
  }

  const RUNNING := NEW_SESSION.(phase := Phase.Running, tmp := Some(0), forwards := 1)

  /** A state in which nothing but the session has moved, and its tmpdir exists. */
  function Holding0(y: Session): State { INIT.(slot := Some(0), sessions := map[0 := y], dirs := map[0 := true]) }

  lemma SetUp() returns (path: seq<State>)
    ensures IsPath(INIT, path) && Last(path) == Holding0(NEW_SESSION.(phase := Ready(0), forwards := 1))
  {
    path := Onward(INIT, [INIT], Claim(0));
    path := Onward(INIT, path, StartMoves(0, MkdirOk(0)));
    path := Onward(INIT, path, StartMoves(0, SetupOk));
    var s := Last(path);
    assert s.sessions == map[0 := NEW_SESSION.(phase := Ready(0), forwards := 1)] && s.dirs == map[0 := true];
  }

  /** A session that captures, with a Stop that has just seen it. */
  lemma SeenCapturing() returns (path: seq<State>)
    ensures IsPath(INIT, path)
    ensures Last(path) == Holding0(RUNNING).(stops := map[0 := StopOp(0, SawCapturing, Some(0))])
  {
    path := SetUp();
    path := Onward(INIT, path, StartMoves(0, Finalise));
    assert Last(path).sessions == map[0 := RUNNING];
    path := Onward(INIT, path, StopRead(0, 0));
    assert Last(path).stops == map[0 := StopOp(0, SawCapturing, Some(0))];
  }

  /** Its pipeline has come back, with or without an error, and its context was still alive. */
  lemma SeenThenBack(result: Option<Err>) returns (path: seq<State>)
    ensures IsPath(INIT, path)
    ensures Last(path) == Holding0(RUNNING.(phase := if result.Some? then Erring else Leaving, closes := 1, result := result))
                          .(stops := map[0 := StopOp(0, SawCapturing, Some(0))])
  {
    path := SeenCapturing();
    path := LaunchOnward(INIT, path, 0, PipelineExit(result));
    path := LaunchOnward(INIT, path, 0, CloseForward);
    path := LaunchOnward(INIT, path, 0, CheckContext);
    assert Last(path).sessions == map[0 := RUNNING.(phase := if result.Some? then Erring else Leaving, closes := 1, result := result)];
  }

  lemma SeenThenExited() returns (path: seq<State>)
    ensures IsPath(INIT, path)
    ensures Last(path) == Holding0(RUNNING.(phase := Left, status := Stopped, fate := ByExit, closes := 1, stamps := 1))
                          .(stops := map[0 := StopOp(0, SawCapturing, Some(0))])
  {
    path := SeenThenBack(None);
    path := LaunchOnward(INIT, path, 0, Autonomous);
    assert Last(path).sessions == map[0 := RUNNING.(phase := Left, status := Stopped, fate := ByExit, closes := 1, stamps := 1)];
  }

  /** A Stop that saw a session without a tmpdir has torn it down and returned. */
  lemma StoppedInSetup() returns (path: seq<State>)
    ensures IsPath(INIT, path)
    ensures Last(path) == INIT.(slot := Some(0), sessions := map[0 := Torn(NEW_SESSION).(stopSeen := true)],
                                stops := map[0 := StopOp(0, Returned(false, ViewOf(Torn(NEW_SESSION))), None)])
  {
    path := Onward(INIT, [INIT], Claim(0));
    path := Onward(INIT, path, StopRead(0, 0));
    path := TearDownAndReport(INIT, path, 0, 0, None);
    var s := Last(path);
    assert s.sessions == map[0 := Torn(NEW_SESSION).(stopSeen := true)];
    assert s.stops == map[0 := StopOp(0, Returned(false, ViewOf(Torn(NEW_SESSION))), None)];
  }

  /** Start then hands it over all the same. */
  lemma HandedOverStopped() returns (path: seq<State>)
    ensures IsPath(INIT, path)
    ensures var y := Torn(NEW_SESSION).(stopSeen := true, phase := Phase.Running, forwards := 1, tmp := Some(0));
            Last(path) == Holding0(y).(stops := map[0 := StopOp(0, Returned(false, ViewOf(Torn(NEW_SESSION))), None)])
  {
    path := StoppedInSetup();
    path := Onward(INIT, path, StartMoves(0, MkdirOk(0)));
    path := Onward(INIT, path, StartMoves(0, SetupOk));
    path := Onward(INIT, path, StartMoves(0, Finalise));
    var s := Last(path);
    assert s.sessions == map[0 := Torn(NEW_SESSION).(stopSeen := true, phase := Phase.Running, forwards := 1, tmp := Some(0))];
    assert s.dirs == map[0 := true];
  }

  /** Two returned Stops of the one session. */
  predicate Both(s: State) { HasReturned(s, 0, 0) && HasReturned(s, 1, 0) && 0 in s.sessions }

  /**
   The wait runs out while the pipeline still drains: the first Stop returns zero counters, the second the ones that
   were stored after that.
   */
  lemma ExpiredWaitDiffers() returns (states: seq<State>)
    ensures IsRun(states)
    ensures var s := Last(states);
            && Both(s) && s.sessions[0].fate == ByStop && s.stops[0].phase.sum.counters == 0
            && s.stops[1].phase.sum == s.stops[0].phase.sum.(counters := 1)
  {
    states := SeenCapturing();
    states := TearDownAndReport(INIT, states, 0, 0, Some(0));
    states := LaunchOnward(INIT, states, 0, StoreFinal(1));
    states := StopAlone(INIT, states, 0, 1);
  }

  /** The pipeline fails before the first Stop cancels, and its error is stored after that Stop has returned. */
  lemma LateErrorDiffers() returns (states: seq<State>)
    ensures IsRun(states)
    ensures var s := Last(states);
            && Both(s) && s.sessions[0].fate == ByStop && s.stops[0].phase.sum.error == None
            && s.stops[1].phase.sum == s.stops[0].phase.sum.(error := Some(1))
  {
    states := SeenThenBack(Some(1));
    states := TearDownAndReport(INIT, states, 0, 0, Some(0));
    states := LaunchOnward(INIT, states, 0, StoreError);
    states := StopAlone(INIT, states, 0, 1);
  }

  /** The first Stop comes while Start is still setting up, so its summary names no tmpdir. */
  lemma SetupStopDiffers() returns (states: seq<State>)
    ensures IsRun(states)
    ensures var s := Last(states);
            && Both(s) && s.sessions[0].fate == ByStop && s.stops[0].phase.sum.tmp == None
            && s.stops[1].phase.sum == s.stops[0].phase.sum.(tmp := Some(0), health := Some(0))
  {
    states := HandedOverStopped();
    states := StopAlone(INIT, states, 0, 1);
  }

  /** The session exits on its own, and a Stop that had seen it capturing tears it down after another has returned. */
  lemma SummariesDiffer() returns (states: seq<State>)
    ensures IsRun(states)
    ensures var s := Last(states);
            && Both(s) && s.sessions[0].fate == ByExit && s.stops[1].phase.sum.stamp == 1
            && s.stops[0].phase.sum == s.stops[1].phase.sum.(stamp := 2)
  {
    states := SeenThenExited();
    states := StopAlone(INIT, states, 0, 1);
    states := TearDownAndReport(INIT, states, 0, 0, Some(0));
  }
}
