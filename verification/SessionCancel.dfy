/**
 A session that was told to stop is not reported as failed (pkg/session/manager.go): once it is
 cancelled before its goroutine looks at the context, it neither ends by itself nor stores an error.
 */
module SessionCancel {
  import opened PolicyTypes
  import opened SessionManager
  import opened SessionOwnership

  /** The goroutine has not looked at the context yet. */
  predicate Unjudged(x: Session) { x.phase.Running? || x.phase.Exited? || x.phase.Closed? }

  predicate BeforeJudged(x: Session)
  {
    || x.phase.Claimed? || x.phase.SettingUp? || x.phase.SetupFailed? || x.phase.Failing? || x.phase.Ready?
    || x.phase.Aborting? || x.phase.AbortClosed? || Unjudged(x)
  }

  /** No error and no exit by itself. */
  predicate Clean(x: Session) { x.error == None && x.fate != ByExit }

  ghost predicate EarlyClean(s: State)
  {
    forall sid :: sid in s.sessions && BeforeJudged(s.sessions[sid]) ==> Clean(s.sessions[sid])
  }

  /** Told to stop in time, and not reported as failed. */
  predicate Quieted(s: State, sid: Sid)
  {
    && sid in s.sessions && Cancelled(s, s.sessions[sid]) && Clean(s.sessions[sid])
    && (Unjudged(s.sessions[sid]) || s.sessions[sid].phase.Sending? || s.sessions[sid].phase.Ended?)
  }

  lemma StartClean(s: State, k: Sid, a: StartAct)
    requires EarlyClean(s) && CanStart(s, k, a)
    ensures EarlyClean(DoStart(s, k, a))
    ensures forall sid :: Quieted(s, sid) ==> Quieted(DoStart(s, k, a), sid)
  {
  }

  lemma LaunchClean(s: State, k: Sid, a: LaunchAct)
    requires EarlyClean(s) && CanLaunch(s, k, a)
    ensures EarlyClean(DoLaunch(s, k, a))
    ensures forall sid :: Quieted(s, sid) ==> Quieted(DoLaunch(s, k, a), sid)
  {
  }

  lemma StopClean(s: State, op: Op, a: StopAct)
    requires EarlyClean(s) && CanStop(s, op, a)
    ensures EarlyClean(DoStop(s, op, a))
    ensures forall sid :: Quieted(s, sid) ==> Quieted(DoStop(s, op, a), sid)
  {
  }

  lemma ShutClean(s: State, op: Op, a: ShutAct)
    requires EarlyClean(s) && CanShut(s, op, a)
    ensures EarlyClean(DoShut(s, op, a))
    ensures forall sid :: Quieted(s, sid) ==> Quieted(DoShut(s, op, a), sid)
  {
  }

  lemma StepClean(s: State, step: Step)
    requires EarlyClean(s) && Enabled(s, step)
    ensures EarlyClean(Apply(s, step))
    ensures forall sid :: Quieted(s, sid) ==> Quieted(Apply(s, step), sid)
  {
    match step
    case Claim(_) =>
    case StartMoves(sid, a) => StartClean(s, sid, a);
    case LaunchMoves(sid, a) => LaunchClean(s, sid, a);
    case StopRead(_, _) =>
    case StopMoves(op, a) => StopClean(s, op, a);
    case ShutTake(_) =>
    case ShutMoves(op, a) => ShutClean(s, op, a);
    case RootCancel =>
  }

  lemma LastStep(states: seq<State>) returns (step: Step)
    requires IsRun(states) && |states| > 1
    ensures IsRun(states[..|states| - 1])
    ensures var s := states[|states| - 2]; Enabled(s, step) && states[|states| - 1] == Apply(s, step)
  {
    PrefixRun(states, |states| - 1);
    assert Follows(states[|states| - 2], states[|states| - 1]);
    step :| Enabled(states[|states| - 2], step) && states[|states| - 1] == Apply(states[|states| - 2], step);
  }

  lemma {:induction false} RunsKeepClean(states: seq<State>)
    requires IsRun(states)
    ensures EarlyClean(states[|states| - 1])
  {
    if |states| > 1 {
      var step := LastStep(states);
      RunsKeepClean(states[..|states| - 1]);
      StepClean(states[|states| - 2], step);
    }
  }

  lemma QuietStep(s: State, t: State, step: Step, sid: Sid)
    requires EarlyClean(s) && Enabled(s, step) && t == Apply(s, step) && Quieted(s, sid)
    ensures Quieted(t, sid)
  {
    StepClean(s, step);
  }

  lemma {:induction false} QuietStays(states: seq<State>, i: nat, sid: Sid)
    requires IsRun(states) && i < |states| && Quieted(states[i], sid)
    ensures Quieted(states[|states| - 1], sid)
  {
    var n := |states| - 1;
    if i < n {
      var step := LastStep(states);
      var front := states[..n];
      QuietStays(front, i, sid);
      RunsKeepClean(front);
      var s, t := states[n - 1], states[n];
      assert front[n - 1] == s;
      QuietStep(s, t, step, sid);
    }
  }

  /**
   A session cancelled by a Stop, a Shutdown or the root context while its pipeline runs or before the
   goroutine has looked at the context: from then on no error is stored for it and it does not count as
   having exited by itself.
   */
  lemma CancelledNeverFails(states: seq<State>, i: nat, sid: Sid)
    requires IsRun(states) && i < |states| && sid in states[i].sessions
    requires Cancelled(states[i], states[i].sessions[sid]) && Unjudged(states[i].sessions[sid])
    ensures var s := states[|states| - 1];
            sid in s.sessions && s.sessions[sid].error == None && s.sessions[sid].fate != ByExit
  {
    PrefixRun(states, i + 1);
    RunsKeepClean(states[..i + 1]);
    assert states[..i + 1][i] == states[i];
    assert Quieted(states[i], sid);
    QuietStays(states, i, sid);
  }

  // ---- A pipeline that ends by itself -----------------------------------------------------------

  predicate Past(x: Session) { x.phase.Left? || x.phase.Sending? || x.phase.Ended? }

  /** Judged to have ended by itself with this result: on its way to being marked so, or marked. */
  predicate Judged(s: State, sid: Sid, result: Option<Err>)
  {
    && sid in s.sessions
    && var x := s.sessions[sid];
       && x.result == result
       && ((x.phase.Erring? && result.Some? && x.error == None)
           || (x.phase.Leaving? && x.error == result)
           || (Past(x) && x.error == result && (InSlot(s, sid) ==> x.status == Stopped)))
  }

  lemma StartJudged(s: State, k: Sid, a: StartAct, sid: Sid, result: Option<Err>)
    requires CanStart(s, k, a) && Judged(s, sid, result)
    ensures Judged(DoStart(s, k, a), sid, result)
  {
  }

  lemma LaunchJudged(s: State, k: Sid, a: LaunchAct, sid: Sid, result: Option<Err>)
    requires CanLaunch(s, k, a) && Judged(s, sid, result)
    ensures Judged(DoLaunch(s, k, a), sid, result)
  {
  }

  lemma StopJudged(s: State, op: Op, a: StopAct, sid: Sid, result: Option<Err>)
    requires CanStop(s, op, a) && Judged(s, sid, result)
    ensures Judged(DoStop(s, op, a), sid, result)
  {
  }

  lemma ShutJudged(s: State, op: Op, a: ShutAct, sid: Sid, result: Option<Err>)
    requires CanShut(s, op, a) && Judged(s, sid, result)
    ensures Judged(DoShut(s, op, a), sid, result)
  {
  }

  lemma StepJudged(s: State, t: State, step: Step, sid: Sid, result: Option<Err>)
    requires Enabled(s, step) && t == Apply(s, step) && Judged(s, sid, result)
    ensures Judged(t, sid, result)
  {
    match step
    case Claim(_) =>
    case StartMoves(k, a) => StartJudged(s, k, a, sid, result);
    case LaunchMoves(k, a) => LaunchJudged(s, k, a, sid, result);
    case StopRead(_, _) =>
    case StopMoves(op, a) => StopJudged(s, op, a, sid, result);
    case ShutTake(_) =>
    case ShutMoves(op, a) => ShutJudged(s, op, a, sid, result);
    case RootCancel =>
  }

  lemma {:induction false} JudgedStays(states: seq<State>, i: nat, sid: Sid, result: Option<Err>)
    requires IsRun(states) && i < |states| && Judged(states[i], sid, result)
    ensures Judged(states[|states| - 1], sid, result)
  {
    var n := |states| - 1;
    if i < n {
      var step := LastStep(states);
      var front := states[..n];
      JudgedStays(front, i, sid, result);
      var s, t := states[n - 1], states[n];
      assert front[n - 1] == s;
      StepJudged(s, t, step, sid, result);
    }
  }

  /** At step i the goroutine looks at a context that is not cancelled. */
  ghost predicate LooksUncancelled(states: seq<State>, i: nat, sid: Sid)
  {
    && 0 < i < |states| && Enabled(states[i - 1], LaunchMoves(sid, CheckContext))
    && states[i] == Apply(states[i - 1], LaunchMoves(sid, CheckContext))
    && !Cancelled(states[i - 1], states[i - 1].sessions[sid])
  }

  /**
   A pipeline that ends by itself is noticed: once its goroutine has moved on, the error it came back with
   is stored, and while the session holds the slot it is stopped and no longer capturing.
   */
  lemma ExitIsSeen(states: seq<State>, i: nat, sid: Sid)
    requires IsRun(states) && LooksUncancelled(states, i, sid)
    ensures var s := states[|states| - 1];
            && sid in s.sessions
            && (Past(s.sessions[sid]) ==> s.sessions[sid].error == states[i - 1].sessions[sid].result)
            && (Past(s.sessions[sid]) && InSlot(s, sid) ==> s.sessions[sid].status == Stopped)
  {
    PrefixRun(states, i);
    RunsKeepClean(states[..i]);
    assert states[..i][i - 1] == states[i - 1];
    JudgedStays(states, i, sid, states[i - 1].sessions[sid].result);
  }
}
