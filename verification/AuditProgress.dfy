/**
 Nobody is stuck (pkg/auditwindow/manager.go): from every reachable state every Close and every Shutdown
 can be carried on until it has returned.
 */
module AuditProgress {
  import opened AuditWindow

  /** Somebody runs the sweep that has been claimed. */
  ghost predicate SweeperThere(s: State)
  {
    s.once == Claimed || s.once == Fanned ==> exists op :: op in s.calls && s.calls[op].InSweep?
  }

  lemma CallSweeper(s: State, op: Op, a: CallAct)
    requires SweeperThere(s) && CanCall(s, op, a)
    ensures SweeperThere(DoCall(s, op, a))
  {
    var t := DoCall(s, op, a);
    if a.CloseEnter? {
      assert t.calls[op].InSweep?;
    } else if s.once == Claimed || s.once == Fanned {
      var p :| p in s.calls && s.calls[p].InSweep?;
      assert !a.CloseFinish? ==> p in t.calls && t.calls[p].InSweep?;
    }
  }

  /** The endpoint a lookup named is known. */
  ghost predicate TargetsKnown(s: State)
  {
    forall u :: u in s.reverts && s.reverts[u].Setting? ==> s.reverts[u].target in s.audit
  }

  lemma FlipKeepsAudit(s: State, a: FlipAct)
    requires CanFlip(s, a)
    ensures var t := DoFlip(s, a); s.audit.Keys <= t.audit.Keys && t.reverts == s.reverts
  {
    match a
    case OpenList(_) =>
    case OpenListFails =>
    case SweepNext =>
    case OpenReturns =>
    case WatchEvent(_) =>
    case ContextDone =>
    case WatchExits =>
    case Read(_) =>
    case Enable(_) =>
    case Record =>
  }

  lemma CallKeepsTargets(s: State, op: Op, a: CallAct)
    requires TargetsKnown(s) && CanCall(s, op, a)
    ensures TargetsKnown(DoCall(s, op, a))
  {
  }

  lemma StepTargets(s: State, step: Step)
    requires TargetsKnown(s) && Enabled(s, step)
    ensures TargetsKnown(Apply(s, step))
  {
    match step
    case FlipAct(a) => FlipKeepsAudit(s, a);
    case SweepAct(_) =>
    case CallAct(op, a) => CallKeepsTargets(s, op, a);
    case Appear(_, _) =>
  }

  ghost predicate Ready(s: State) { Inv(s) && SweeperThere(s) && TargetsKnown(s) }

  lemma StepSweeper(s: State, step: Step)
    requires SweeperThere(s) && Enabled(s, step)
    ensures SweeperThere(Apply(s, step))
  {
    match step
    case FlipAct(a) => FlipKeepsCalls(s, a);
    case SweepAct(_) =>
    case CallAct(op, a) => CallSweeper(s, op, a);
    case Appear(_, _) =>
  }

  lemma FlipKeepsCalls(s: State, a: FlipAct)
    requires CanFlip(s, a)
    ensures var t := DoFlip(s, a); t.calls == s.calls && t.once == s.once
  {
    match a
    case OpenList(_) =>
    case OpenListFails =>
    case SweepNext =>
    case OpenReturns =>
    case WatchEvent(_) =>
    case ContextDone =>
    case WatchExits =>
    case Read(_) =>
    case Enable(_) =>
    case Record =>
  }

  lemma {:induction false} RunsKeepReady(states: seq<State>)
    requires IsRun(states)
    ensures Ready(Last(states))
  {
    RunsKeepInv(states);
    var n := |states| - 1;
    if n > 0 {
      var front := states[..n];
      forall i | 0 < i < |front| ensures Follows(front[i - 1], front[i]) { assert Follows(states[i - 1], states[i]); }
      RunsKeepReady(front);
      assert Follows(states[n - 1], states[n]);
      var step :| Enabled(states[n - 1], step) && states[n] == Apply(states[n - 1], step);
      StepSweeper(states[n - 1], step);
      StepTargets(states[n - 1], step);
    }
  }

  /** What a continuation is known by. */
  ghost predicate Reaches(s: State, path: seq<State>)
  {
    IsPath(s, path) && Ready(Last(path))
  }

  lemma Further(s: State, path: seq<State>, step: Step) returns (more: seq<State>)
    requires Reaches(s, path) && Enabled(Last(path), step)
    ensures Reaches(s, more) && Last(more) == Apply(Last(path), step)
  {
    more := path + [Apply(Last(path), step)];
    forall i | 0 < i < |more| ensures Follows(more[i - 1], more[i]) {
      if i < |path| { assert Follows(path[i - 1], path[i]); }
    }
    InvStep(Last(path), step);
    StepSweeper(Last(path), step);
    StepTargets(Last(path), step);
  }

  // ---- The sweep can end ------------------------------------------------------------------------

  function Unfinished(s: State): set<Uid> { set u | u in s.reverts && !s.reverts[u].Reverted? }

  /** One endpoint's revert carried out. */
  lemma RevertOne(s: State, path: seq<State>, u: Uid) returns (more: seq<State>)
    requires Reaches(s, path) && u in Unfinished(Last(path))
    ensures Reaches(s, more)
    ensures var a, b := Last(path), Last(more); b.once == a.once && b.calls == a.calls && Unfinished(b) == Unfinished(a) - {u}
  {
    more := path;
    if Last(path).reverts[u] == Resolving {
      more := Further(s, path, SweepAct(Resolve(u, u)));
    }
    more := Further(s, more, SweepAct(Disable(u, true)));
  }

  lemma {:induction false} RevertAll(s: State, path: seq<State>) returns (more: seq<State>)
    requires Reaches(s, path)
    ensures Reaches(s, more) && Unfinished(Last(more)) == {}
    ensures Last(more).once == Last(path).once && Last(more).calls == Last(path).calls
    decreases Unfinished(Last(path))
  {
    more := path;
    if Unfinished(Last(path)) != {} {
      var u :| u in Unfinished(Last(path));
      more := RevertOne(s, path, u);
      more := RevertAll(s, more);
    }
  }

  /** A claimed sweep can be carried to its end, and its caller returns with it. */
  lemma SweepCanEnd(s: State, path: seq<State>) returns (more: seq<State>, sweeper: Op)
    requires Reaches(s, path) && (Last(path).once == Claimed || Last(path).once == Fanned)
    ensures Reaches(s, more) && Last(more).once == Over
    ensures sweeper in Last(path).calls && Last(path).calls[sweeper].InSweep?
    ensures Last(more).calls == Last(path).calls[sweeper := CloseReturned]
  {
    var op :| op in Last(path).calls && Last(path).calls[op].InSweep?;
    sweeper := op;
    more := path;
    if Last(path).once == Claimed { more := Further(s, more, CallAct(op, CloseSnapshot)); }
    more := RevertAll(s, more);
    assert forall u :: u in Last(more).reverts ==> u !in Unfinished(Last(more));
    more := Further(s, more, CallAct(op, CloseFinish));
  }

  /** The call is a Close that has not returned yet. */
  predicate Closing(s: State, op: Op) { op in s.calls && (s.calls[op].CloseCall? || s.calls[op].InSweep?) }

  /** A Close can always return: it runs the sweep, or waits for the one that runs. */
  lemma CloseCanReturn(s: State, path: seq<State>, op: Op) returns (more: seq<State>)
    requires Reaches(s, path) && Closing(Last(path), op)
    ensures Reaches(s, more) && At(Last(more), op, CloseReturned)
    ensures forall p :: p in Last(path).calls && !Closing(Last(path), p) ==> At(Last(more), p, Last(path).calls[p])
  {
    more := path;
    if Last(path).once == NotRun {
      assert Last(path).calls[op].CloseCall? by { assert CallOk(Last(path), Last(path).calls[op]); }
      more := Further(s, more, CallAct(op, CloseEnter));
    }
    if Last(more).once != Over {
      var longer, sweeper := SweepCanEnd(s, more);
      more := longer;
    }
    if !At(Last(more), op, CloseReturned) {
      assert CallOk(Last(more), Last(more).calls[op]);
      more := Further(s, more, CallAct(op, CloseWait));
    }
  }

  predicate Shutting(s: State, op: Op)
  {
    op in s.calls && (s.calls[op].ShutCall? || s.calls[op].ShutCancelling? || s.calls[op].ShutWaiting? || s.calls[op].ShutReady? || s.calls[op].ShutSweep?)
  }

  predicate IsReady(s: State, op: Op) { op in s.calls && s.calls[op].ShutReady? }

  /** It may wait for the watcher, or give up waiting. */
  lemma ReadyFromWaiting(s: State, path: seq<State>, op: Op) returns (more: seq<State>)
    requires Reaches(s, path) && op in Last(path).calls && Last(path).calls[op].ShutWaiting?
    ensures Reaches(s, more) && IsReady(Last(more), op)
  {
    if Last(path).calls[op].saw { more := Further(s, path, CallAct(op, ShutExpire)); }
    else { more := Further(s, path, CallAct(op, ShutDrain)); }
  }

  lemma ReadyFromCancelling(s: State, path: seq<State>, op: Op) returns (more: seq<State>)
    requires Reaches(s, path) && op in Last(path).calls && Last(path).calls[op].ShutCancelling?
    ensures Reaches(s, more) && IsReady(Last(more), op)
  {
    more := Further(s, path, CallAct(op, ShutCancel));
    more := ReadyFromWaiting(s, more, op);
  }

  /** The first half of a Shutdown: cancel the watcher and wait for it. */
  lemma ShutdownGetsReady(s: State, path: seq<State>, op: Op) returns (more: seq<State>)
    requires Reaches(s, path) && Shutting(Last(path), op) && !Last(path).calls[op].ShutSweep?
    ensures Reaches(s, more) && IsReady(Last(more), op)
  {
    match Last(path).calls[op]
    case ShutCall =>
      more := Further(s, path, CallAct(op, ShutRead));
      more := ReadyFromCancelling(s, more, op);
    case ShutCancelling(_) => more := ReadyFromCancelling(s, path, op);
    case ShutWaiting(_) => more := ReadyFromWaiting(s, path, op);
    case ShutReady(_) => more := path;
  }

  /** A Shutdown can always return as well. */
  lemma ShutdownCanReturn(s: State, path: seq<State>, op: Op) returns (more: seq<State>)
    requires Reaches(s, path) && Shutting(Last(path), op)
    ensures Reaches(s, more) && At(Last(more), op, ShutReturned)
  {
    more := path;
    if !Last(path).calls[op].ShutSweep? {
      more := ShutdownGetsReady(s, path, op);
      var closer := Bound(Last(more).calls.Keys);
      more := Further(s, more, CallAct(op, ShutSpawn(closer)));
    }
    var closer := Last(more).calls[op].closer;
    assert CallOk(Last(more), Last(more).calls[op]);
    if !At(Last(more), closer, CloseReturned) {
      more := CloseCanReturn(s, more, closer);
    }
    more := Further(s, more, CallAct(op, ShutReturn));
  }

  /** In every reachable state every caller that has not returned can be carried on until it has. */
  lemma NobodyStuck(states: seq<State>, op: Op) returns (path: seq<State>)
    requires IsRun(states) && (Closing(Last(states), op) || Shutting(Last(states), op))
    ensures IsPath(Last(states), path)
    ensures At(Last(path), op, CloseReturned) || At(Last(path), op, ShutReturned)
  {
    RunsKeepReady(states);
    path := [Last(states)];
    if Closing(Last(states), op) {
      path := CloseCanReturn(Last(states), path, op);
    } else {
      path := ShutdownCanReturn(Last(states), path, op);
    }
  }
}
