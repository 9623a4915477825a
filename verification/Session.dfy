/**
 The session manager (pkg/session/manager.go) as a step system. Every stretch of Start, the launch
 goroutine, Stop and Shutdown between two points where another goroutine can run is one step, and
 the steps interleave in any order. Bounded waits are free choices between "done" and "expired".
 */
module SessionManager {
  import opened PolicyTypes

  type Sid = nat
  type TmpDir = nat
  type Op = nat

  /** Counters as one value, 0 where all are zero. */
  type Stats = nat

  type Err = nat

  datatype Status = Capturing | Stopped

  /** Where the Start call of a session, and after it the launch goroutine, has got to. */
  datatype Phase =
    | Claimed
    | SettingUp(dir: TmpDir)
    | SetupFailed
    | Failing
    | Ready(dir: TmpDir)
    | Aborting(dir: TmpDir)
    | AbortClosed(dir: TmpDir)
    | Running
    | Exited
    | Closed
    | Erring
    | Leaving
    | Left
    | Sending
    | Ended

  datatype Once = NotRun | Busy | Over

  /** How a session stopped being the one active session. */
  datatype Fate = Active | ByStop | ByExit | ByShutdown | ByFailure

  /**
   forwards, closes: port-forwards opened and closed; done: results waiting in the channel; sent: results ever sent;
   stamps: how often the stop time was written, which tells its values apart; result: the error the pipeline came back
   with; final, error: the counters and the error stored for the summary, each at most once.
   */
  datatype Session = Session(
    phase: Phase, status: Status, tmp: Option<TmpDir>, cancelled: bool, once: Once, stopSeen: bool,
    done: nat, sent: nat, forwards: nat, closes: nat, fate: Fate, stamps: nat,
    result: Option<Err>, final: Option<Stats>, error: Option<Err>)

  /** What Stop returns besides the already-stopped mark; health: the tmpdir its health path is in. */
  datatype Summary = Summary(tmp: Option<TmpDir>, health: Option<TmpDir>, stamp: nat, error: Option<Err>, counters: Stats)

  /** A summary before anything is read: counters that were never stored read as zero. */
  const BLANK := Summary(None, None, 0, None, 0)

  datatype StopPhase = SawStopped | SawCapturing | InOnce | Waiting | Finishing | Summing
    | Building(already: bool, read: nat, sum: Summary) | Returned(already: bool, sum: Summary)

  datatype StopOp = StopOp(sid: Sid, phase: StopPhase, health: Option<TmpDir>)

  datatype ShutPhase = Cancelling | ShutWaiting | Removing | ShutOver

  datatype ShutOp = ShutOp(sid: Sid, dir: Option<TmpDir>, phase: ShutPhase)

  /** dirs: every tmpdir ever made, true until its removal is issued. */
  datatype State = State(
    slot: Option<Sid>, sessions: map<Sid, Session>, dirs: map<TmpDir, bool>,
    stops: map<Op, StopOp>, shuts: map<Op, ShutOp>, rootCancelled: bool)

  const INIT := State(None, map[], map[], map[], map[], false)

  const NEW_SESSION := Session(Claimed, Capturing, None, false, NotRun, false, 0, 0, 0, 0, Active, 0, None, None, None)

  datatype StartAct =
    | MkdirOk(dir: TmpDir)
    | MkdirFail
    | SetupOk
    | SetupFail(forwarded: bool)
    | FailCancel
    | FailRelease
    | Finalise
    | AbortClose
    | AbortRemove

  datatype LaunchAct =
    | StoreFinal(stats: Stats) | PipelineExit(result: Option<Err>) | CloseForward | CheckContext | StoreError | Autonomous | CancelSelf | SendDone

  datatype StopAct = EnterOnce | StopCancel | StopDone | StopExpired | StopFinish
    | StopSwap | ReadTmp | ReadTime | ReadError | ReadCounters

  datatype ShutAct = ShutCancel | ShutDone | ShutExpired | ShutRemove

  datatype Step =
    | Claim(sid: Sid)
    | StartMoves(sid: Sid, start: StartAct)
    | LaunchMoves(sid: Sid, launch: LaunchAct)
    | StopRead(op: Op, sid: Sid)
    | StopMoves(op: Op, stop: StopAct)
    | ShutTake(op: Op)
    | ShutMoves(op: Op, shut: ShutAct)
    | RootCancel

  function Removed(dirs: map<TmpDir, bool>, dir: Option<TmpDir>): map<TmpDir, bool>
  {
    if dir.Some? then dirs[dir.value := false] else dirs
  }

  function Lost(fate: Fate, how: Fate): Fate { if fate == Active then how else fate }

  predicate InSlot(s: State, sid: Sid) { s.slot == Some(sid) }

  predicate Cancelled(s: State, x: Session) { x.cancelled || s.rootCancelled }

  // ---- Start ------------------------------------------------------------------------------------

  /** The claim succeeds on an empty slot or a stopped session, whose tmpdir it purges. */
  predicate CanClaim(s: State, sid: Sid)
  {
    sid !in s.sessions
    && (s.slot.Some? ==> s.slot.value in s.sessions && s.sessions[s.slot.value].status == Stopped)
  }

  function DoClaim(s: State, sid: Sid): State
    requires CanClaim(s, sid)
  {
    s.(slot := Some(sid), sessions := s.sessions[sid := NEW_SESSION],
       dirs := if s.slot.Some? then Removed(s.dirs, s.sessions[s.slot.value].tmp) else s.dirs)
  }

  /** The act is the next one of a Start call that has got this far. */
  predicate StartFits(x: Session, a: StartAct)
  {
    match a
    case MkdirOk(_) => x.phase == Claimed
    case MkdirFail => x.phase == Claimed
    case SetupOk => x.phase.SettingUp?
    case SetupFail(_) => x.phase.SettingUp?
    case FailCancel => x.phase == SetupFailed
    case FailRelease => x.phase == Failing
    case Finalise => x.phase.Ready?
    case AbortClose => x.phase.Aborting?
    case AbortRemove => x.phase.AbortClosed?
  }

  /** The session after the act; mine: the slot still holds it. */
  function StartSession(x: Session, a: StartAct, mine: bool): Session
    requires StartFits(x, a)
  {
    match a
    case MkdirOk(dir) => x.(phase := SettingUp(dir))
    case MkdirFail => x.(phase := SetupFailed)
    case SetupOk => x.(phase := Ready(x.phase.dir), forwards := 1)
    case SetupFail(forwarded) =>
      // a port-forward opened by a setup that fails later is closed by the setup itself
      var n := if forwarded then 1 else 0;
      x.(phase := SetupFailed, forwards := n, closes := n)
    case FailCancel => x.(phase := Failing, cancelled := true)
    case FailRelease => x.(phase := Ended, fate := Lost(x.fate, ByFailure))
    case Finalise => if mine then x.(phase := Running, tmp := Some(x.phase.dir)) else x.(phase := Aborting(x.phase.dir))
    case AbortClose => x.(phase := AbortClosed(x.phase.dir), cancelled := true, closes := x.closes + 1)
    case AbortRemove => x.(phase := Ended)
  }

  function StartDirs(dirs: map<TmpDir, bool>, x: Session, a: StartAct): map<TmpDir, bool>
    requires StartFits(x, a)
  {
    match a
    case MkdirOk(dir) => dirs[dir := true]
    case SetupFail(_) => dirs[x.phase.dir := false]
    case AbortRemove => dirs[x.phase.dir := false]
    case _ => dirs
  }

  predicate CanStart(s: State, sid: Sid, a: StartAct)
  {
    sid in s.sessions && StartFits(s.sessions[sid], a) && (a.MkdirOk? ==> a.dir !in s.dirs)
  }

  function DoStart(s: State, sid: Sid, a: StartAct): State
    requires CanStart(s, sid, a)
  {
    var x := s.sessions[sid];
    s.(sessions := s.sessions[sid := StartSession(x, a, InSlot(s, sid))],
       dirs := StartDirs(s.dirs, x, a),
       slot := if a.FailRelease? && InSlot(s, sid) then None else s.slot)
  }

  // ---- The launch goroutine ---------------------------------------------------------------------

  predicate LaunchFits(x: Session, a: LaunchAct)
  {
    match a
    case StoreFinal(_) => x.phase == Running && x.final == None
    case PipelineExit(_) => x.phase == Running
    case CloseForward => x.phase == Exited
    case CheckContext => x.phase == Closed
    case StoreError => x.phase == Erring
    case Autonomous => x.phase == Leaving
    case CancelSelf => x.phase == Left
    case SendDone => x.phase == Sending && x.done == 0
  }

  /** cancelled: the session's context is; mine: the slot still holds it. */
  function LaunchSession(x: Session, a: LaunchAct, cancelled: bool, mine: bool): Session
    requires LaunchFits(x, a)
  {
    match a
    case StoreFinal(stats) => x.(final := Some(stats))
    case PipelineExit(result) => x.(phase := Exited, result := result)
    case CloseForward => x.(phase := Closed, closes := x.closes + 1)
    case CheckContext => x.(phase := if cancelled then Sending else if x.result.Some? then Erring else Leaving)
    case StoreError => x.(phase := Leaving, error := x.result)
    case Autonomous =>
      if mine && x.status == Capturing then x.(phase := Left, status := Stopped, fate := Lost(x.fate, ByExit), stamps := x.stamps + 1)
      else x.(phase := Left)
    case CancelSelf => x.(phase := Sending, cancelled := true)
    case SendDone => x.(phase := Ended, done := 1, sent := x.sent + 1)
  }

  predicate CanLaunch(s: State, sid: Sid, a: LaunchAct)
  {
    sid in s.sessions && LaunchFits(s.sessions[sid], a)
  }

  function DoLaunch(s: State, sid: Sid, a: LaunchAct): State
    requires CanLaunch(s, sid, a)
  {
    var x := s.sessions[sid];
    s.(sessions := s.sessions[sid := LaunchSession(x, a, Cancelled(s, x), InSlot(s, sid))])
  }

  // ---- Stop -------------------------------------------------------------------------------------

  predicate CanStopRead(s: State, op: Op, sid: Sid)
  {
    op !in s.stops && InSlot(s, sid) && sid in s.sessions
  }

  function DoStopRead(s: State, op: Op, sid: Sid): State
    requires CanStopRead(s, op, sid)
  {
    var x := s.sessions[sid];
    s.(stops := s.stops[op := StopOp(sid, if x.status == Stopped then SawStopped else SawCapturing, x.tmp)])
  }

  /** A caller that finds the once block busy waits for it to be over. */
  predicate StopFits(x: Session, phase: StopPhase, a: StopAct)
  {
    match a
    case EnterOnce => phase == SawCapturing && x.once != Busy
    case StopCancel => phase == InOnce
    case StopDone => phase == Waiting && x.done > 0
    case StopExpired => phase == Waiting
    case StopFinish => phase == Finishing
    case StopSwap => phase == SawStopped || phase == Summing
    case ReadTmp => phase.Building? && phase.read == 0
    case ReadTime => phase.Building? && phase.read == 1
    case ReadError => phase.Building? && phase.read == 2
    case ReadCounters => phase.Building? && phase.read == 3
  }

  function StopSession(x: Session, phase: StopPhase, a: StopAct): Session
    requires StopFits(x, phase, a)
  {
    match a
    case EnterOnce => if x.once == NotRun then x.(once := Busy) else x
    case StopCancel => x.(cancelled := true)
    case StopDone => x.(done := x.done - 1)
    case StopExpired => x
    case StopFinish => x.(status := Stopped, once := Over, fate := Lost(x.fate, ByStop), stamps := x.stamps + 1)
    case StopSwap => x.(stopSeen := true)
    case _ => x
  }

  function Counters(x: Session): Stats { if x.final.Some? then x.final.value else 0 }

  /** The summary is put together field by field, without the lock. */
  function StopNext(x: Session, phase: StopPhase, a: StopAct, health: Option<TmpDir>): StopPhase
    requires StopFits(x, phase, a)
  {
    match a
    case EnterOnce => if x.once == NotRun then InOnce else Summing
    case StopCancel => Waiting
    case StopDone => Finishing
    case StopExpired => Finishing
    case StopFinish => Summing
    case StopSwap => Building(x.stopSeen, 0, BLANK.(health := health))
    case ReadTmp => Building(phase.already, 1, phase.sum.(tmp := x.tmp))
    case ReadTime => Building(phase.already, 2, phase.sum.(stamp := x.stamps))
    case ReadError => Building(phase.already, 3, phase.sum.(error := x.error))
    case ReadCounters => Returned(phase.already, phase.sum.(counters := Counters(x)))
  }

  predicate CanStop(s: State, op: Op, a: StopAct)
  {
    op in s.stops && s.stops[op].sid in s.sessions && StopFits(s.sessions[s.stops[op].sid], s.stops[op].phase, a)
  }

  function DoStop(s: State, op: Op, a: StopAct): State
    requires CanStop(s, op, a)
  {
    var o := s.stops[op];
    var x := s.sessions[o.sid];
    s.(sessions := s.sessions[o.sid := StopSession(x, o.phase, a)],
       stops := s.stops[op := StopOp(o.sid, StopNext(x, o.phase, a, o.health), o.health)])
  }

  // ---- Shutdown ---------------------------------------------------------------------------------

  predicate CanTake(s: State, op: Op)
  {
    op !in s.shuts && s.slot.Some? && s.slot.value in s.sessions
  }

  function DoTake(s: State, op: Op): State
    requires CanTake(s, op)
  {
    var sid := s.slot.value;
    var x := s.sessions[sid];
    s.(slot := None, sessions := s.sessions[sid := x.(fate := Lost(x.fate, ByShutdown))],
       shuts := s.shuts[op := ShutOp(sid, x.tmp, if x.status == Capturing then Cancelling else Removing)])
  }

  predicate ShutFits(x: Session, phase: ShutPhase, a: ShutAct)
  {
    match a
    case ShutCancel => phase == Cancelling
    case ShutDone => phase == ShutWaiting && x.done > 0
    case ShutExpired => phase == ShutWaiting
    case ShutRemove => phase == Removing
  }

  function ShutSession(x: Session, phase: ShutPhase, a: ShutAct): Session
    requires ShutFits(x, phase, a)
  {
    match a
    case ShutCancel => x.(cancelled := true)
    case ShutDone => x.(done := x.done - 1)
    case _ => x
  }

  function ShutNext(a: ShutAct): ShutPhase
  {
    match a
    case ShutCancel => ShutWaiting
    case ShutDone => Removing
    case ShutExpired => Removing
    case ShutRemove => ShutOver
  }

  predicate CanShut(s: State, op: Op, a: ShutAct)
  {
    op in s.shuts && s.shuts[op].sid in s.sessions && ShutFits(s.sessions[s.shuts[op].sid], s.shuts[op].phase, a)
  }

  function DoShut(s: State, op: Op, a: ShutAct): State
    requires CanShut(s, op, a)
  {
    var o := s.shuts[op];
    s.(sessions := s.sessions[o.sid := ShutSession(s.sessions[o.sid], o.phase, a)],
       shuts := s.shuts[op := o.(phase := ShutNext(a))],
       dirs := if a.ShutRemove? then Removed(s.dirs, o.dir) else s.dirs)
  }

  // ---- All steps --------------------------------------------------------------------------------

  predicate Enabled(s: State, step: Step)
  {
    match step
    case Claim(sid) => CanClaim(s, sid)
    case StartMoves(sid, a) => CanStart(s, sid, a)
    case LaunchMoves(sid, a) => CanLaunch(s, sid, a)
    case StopRead(op, sid) => CanStopRead(s, op, sid)
    case StopMoves(op, a) => CanStop(s, op, a)
    case ShutTake(op) => CanTake(s, op)
    case ShutMoves(op, a) => CanShut(s, op, a)
    case RootCancel => true
  }

  function Apply(s: State, step: Step): State
    requires Enabled(s, step)
  {
    match step
    case Claim(sid) => DoClaim(s, sid)
    case StartMoves(sid, a) => DoStart(s, sid, a)
    case LaunchMoves(sid, a) => DoLaunch(s, sid, a)
    case StopRead(op, sid) => DoStopRead(s, op, sid)
    case StopMoves(op, a) => DoStop(s, op, a)
    case ShutTake(op) => DoTake(s, op)
    case ShutMoves(op, a) => DoShut(s, op, a)
    case RootCancel => s.(rootCancelled := true)
  }

  /** A run from the empty manager: each state follows from the one before by an enabled step. */
  ghost predicate IsRun(states: seq<State>)
  {
    && |states| > 0 && states[0] == INIT
    && forall i :: 0 < i < |states| ==> Follows(states[i - 1], states[i])
  }

  ghost predicate Follows(s: State, t: State)
  {
    exists step :: Enabled(s, step) && t == Apply(s, step)
  }
}
