/**
 The audit-window manager (pkg/auditwindow/manager.go) as a step system: Open's sweep, the watcher,
 the once-only revert fan-out and any number of Close and Shutdown callers, interleaved freely.
 Reads, flips, ID lookups and deadlines may each go either way.
 */
module AuditWindow {

  type Uid = nat
  type Op = nat

  datatype OpenPhase = NotOpened | Sweeping(todo: seq<Uid>) | Opened | OpenFailed

  datatype WatchPhase = NoWatcher | Live | Exited

  /** One endpoint on its way into audit mode; there is never a second. */
  datatype Flip = Idle | Checked(uid: Uid) | ReadOff(uid: Uid) | SetOn(uid: Uid)

  datatype Reading = Off | On | ReadError

  /** One goroutine of the revert fan-out; target is the endpoint its ID denotes. */
  datatype Revert = Resolving | Setting(target: Uid) | Reverted(ok: bool)

  datatype Once = NotRun | Claimed | Fanned | Over

  /** safe: called by a Shutdown that saw the watcher exit. */
  datatype Call =
    | CloseCall(safe: bool)
    | InSweep(safe: bool)
    | CloseReturned
    | ShutCall
    | ShutCancelling(saw: bool)
    | ShutWaiting(saw: bool)
    | ShutReady(safe: bool)
    | ShutSweep(closer: Op, safe: bool)
    | ShutReturned
    | ShutTimedOut(stuck: set<Uid>, safe: bool)

  /** initial: the audit mode each endpoint appeared with; disables: disable commands issued by UID. */
  datatype State = State(
    open: OpenPhase, watcher: WatchPhase, cancelled: bool, flip: Flip,
    ours: set<Uid>, enabled: set<Uid>, audit: map<Uid, bool>, initial: map<Uid, bool>,
    once: Once, reverts: map<Uid, Revert>, disables: map<Uid, nat>, misresolved: bool, safeSweep: bool,
    calls: map<Op, Call>)

  const INIT := State(NotOpened, NoWatcher, false, Idle, {}, {}, map[], map[], NotRun, map[], map[], false, false, map[])

  datatype Step =
    | Appear(uid: Uid, on: bool)
    | FlipAct(flip: FlipAct)
    | SweepAct(sweep: SweepAct)
    | CallAct(op: Op, call: CallAct)

  datatype FlipAct =
    | OpenList(todo: seq<Uid>)
    | OpenListFails
    | SweepNext
    | OpenReturns
    | WatchEvent(uid: Uid)
    | ContextDone
    | WatchExits
    | Read(reading: Reading)
    | Enable(ok: bool)
    | Record

  datatype SweepAct =
    | Resolve(uid: Uid, target: Uid)
    | Disable(uid: Uid, ok: bool)

  datatype CallAct =
    | Close
    | CloseEnter
    | CloseSnapshot
    | CloseFinish
    | CloseWait
    | Shutdown
    | ShutRead
    | ShutCancel
    | ShutDrain
    | ShutExpire
    | ShutSpawn(closer: Op)
    | ShutReturn
    | ShutTimeout

  // ---- Opening and watching ---------------------------------------------------------------------

  /** Endpoints already ours are skipped before anything is read. */
  function Begin(s: State, uid: Uid): Flip
  {
    if uid in s.ours then Idle else Checked(uid)
  }

  predicate CanFlip(s: State, a: FlipAct)
  {
    match a
    case OpenList(todo) => s.open == NotOpened && forall u :: u in todo ==> u in s.audit
    case OpenListFails => s.open == NotOpened
    case SweepNext => s.open.Sweeping? && s.open.todo != [] && s.flip == Idle
    case OpenReturns => s.open == Sweeping([]) && s.flip == Idle
    case WatchEvent(uid) => s.watcher == Live && s.flip == Idle && uid in s.audit
    case ContextDone => true
    case WatchExits => s.watcher == Live && s.cancelled && s.flip == Idle
    case Read(r) => s.flip.Checked? && s.flip.uid in s.audit && (r == On ==> s.audit[s.flip.uid]) && (r == Off ==> !s.audit[s.flip.uid])
    case Enable(_) => s.flip.ReadOff?
    case Record => s.flip.SetOn?
  }

  function DoFlip(s: State, a: FlipAct): State
    requires CanFlip(s, a)
  {
    match a
    case OpenList(todo) => s.(open := Sweeping(todo))
    case OpenListFails => s.(open := OpenFailed)
    case SweepNext => s.(open := Sweeping(s.open.todo[1..]), flip := Begin(s, s.open.todo[0]))
    case OpenReturns => s.(open := Opened, watcher := Live)
    case WatchEvent(uid) => s.(flip := Begin(s, uid))
    case ContextDone => s.(cancelled := true)
    case WatchExits => s.(watcher := Exited)
    case Read(r) => s.(flip := if r == Off then ReadOff(s.flip.uid) else Idle)
    case Enable(ok) =>
      if ok then s.(flip := SetOn(s.flip.uid), enabled := s.enabled + {s.flip.uid}, audit := s.audit[s.flip.uid := true])
      else s.(flip := Idle)
    case Record => s.(flip := Idle, ours := s.ours + {s.flip.uid})
  }

  // ---- The revert fan-out -----------------------------------------------------------------------

  predicate CanSweep(s: State, a: SweepAct)
  {
    match a
    case Resolve(uid, target) => uid in s.reverts && s.reverts[uid] == Resolving && target in s.audit
    case Disable(uid, _) => uid in s.reverts && s.reverts[uid].Setting? && s.reverts[uid].target in s.audit
  }

  /** A lookup that fails falls back to the recorded ID, which may by then denote another endpoint. */
  function DoSweep(s: State, a: SweepAct): State
    requires CanSweep(s, a)
  {
    match a
    case Resolve(uid, target) => s.(reverts := s.reverts[uid := Setting(target)], misresolved := s.misresolved || target != uid)
    case Disable(uid, ok) =>
      s.(reverts := s.reverts[uid := Reverted(ok)],
         disables := s.disables[uid := (if uid in s.disables then s.disables[uid] else 0) + 1],
         audit := if ok then s.audit[s.reverts[uid].target := false] else s.audit)
  }

  // ---- Close and Shutdown -----------------------------------------------------------------------

  predicate At(s: State, op: Op, c: Call) { op in s.calls && s.calls[op] == c }

  predicate CanCall(s: State, op: Op, a: CallAct)
  {
    match a
    case Close => op !in s.calls
    case Shutdown => op !in s.calls
    case _ => op in s.calls && CallFits(s, s.calls[op], op, a)
  }

  predicate CallFits(s: State, c: Call, op: Op, a: CallAct)
  {
    match a
    case CloseEnter => c.CloseCall? && s.once == NotRun
    case CloseSnapshot => c.InSweep? && s.once == Claimed
    case CloseFinish => c.InSweep? && s.once == Fanned && forall u :: u in s.reverts ==> s.reverts[u].Reverted?
    case CloseWait => c.CloseCall? && s.once == Over
    case ShutRead => c.ShutCall?
    case ShutCancel => c.ShutCancelling?
    case ShutDrain => c.ShutWaiting? && (c.saw ==> s.watcher == Exited)
    case ShutExpire => c.ShutWaiting? && c.saw
    case ShutSpawn(closer) => c.ShutReady? && closer !in s.calls
    case ShutReturn => c.ShutSweep? && At(s, c.closer, CloseReturned)
    case ShutTimeout => c.ShutSweep?
    case Close => false
    case Shutdown => false
  }

  function SetCall(s: State, op: Op, c: Call): State { s.(calls := s.calls[op := c]) }

  function DoCall(s: State, op: Op, a: CallAct): State
    requires CanCall(s, op, a)
  {
    match a
    case Close => SetCall(s, op, CloseCall(false))
    case CloseEnter => SetCall(s, op, InSweep(s.calls[op].safe)).(once := Claimed)
    case CloseSnapshot => s.(once := Fanned, reverts := map u | u in s.ours :: Resolving, safeSweep := s.calls[op].safe)
    case CloseFinish => SetCall(s, op, CloseReturned).(once := Over)
    case CloseWait => SetCall(s, op, CloseReturned)
    case Shutdown => SetCall(s, op, ShutCall)
    case ShutRead => SetCall(s, op, ShutCancelling(s.watcher != NoWatcher))
    case ShutCancel => SetCall(s, op, ShutWaiting(s.calls[op].saw)).(cancelled := s.cancelled || s.calls[op].saw)
    case ShutDrain => SetCall(s, op, ShutReady(s.calls[op].saw))
    case ShutExpire => SetCall(s, op, ShutReady(false))
    case ShutSpawn(closer) => s.(calls := s.calls[closer := CloseCall(s.calls[op].safe)][op := ShutSweep(closer, s.calls[op].safe)])
    case ShutReturn => SetCall(s, op, ShutReturned)
    case ShutTimeout => SetCall(s, op, ShutTimedOut(s.ours, s.calls[op].safe))
  }

  // ---- All steps --------------------------------------------------------------------------------

  predicate Enabled(s: State, step: Step)
  {
    match step
    case Appear(uid, _) => uid !in s.audit
    case FlipAct(a) => CanFlip(s, a)
    case SweepAct(a) => CanSweep(s, a)
    case CallAct(op, a) => CanCall(s, op, a)
  }

  function Apply(s: State, step: Step): State
    requires Enabled(s, step)
  {
    match step
    case Appear(uid, on) => s.(audit := s.audit[uid := on], initial := s.initial[uid := on])
    case FlipAct(a) => DoFlip(s, a)
    case SweepAct(a) => DoSweep(s, a)
    case CallAct(op, a) => DoCall(s, op, a)
  }

  ghost predicate Follows(s: State, t: State)
  {
    exists step :: Enabled(s, step) && t == Apply(s, step)
  }

  ghost predicate IsRun(states: seq<State>)
  {
    && |states| > 0 && states[0] == INIT
    && forall i :: 0 < i < |states| ==> Follows(states[i - 1], states[i])
  }

  // ---- What every step keeps --------------------------------------------------------------------

  /** No endpoint can be flipped any more. */
  predicate Drained(s: State)
  {
    s.watcher == Exited && s.open == Opened && s.flip == Idle
  }

  predicate FlipsOk(s: State)
  {
    && s.enabled == s.ours + (if s.flip.SetOn? then {s.flip.uid} else {})
    && (s.flip != Idle ==> s.flip.uid in s.audit && s.flip.uid !in s.ours)
    && (s.flip != Idle ==> s.open.Sweeping? || s.watcher == Live)
    && (s.watcher == NoWatcher <==> s.open != Opened)
    && (s.watcher == Exited ==> s.flip == Idle)
    && s.enabled <= s.audit.Keys && s.audit.Keys == s.initial.Keys
    && (s.open.Sweeping? ==> forall u :: u in s.open.todo ==> u in s.audit)
    && (s.watcher == Exited ==> s.cancelled)
  }

  function Issued(s: State, uid: Uid): nat { if uid in s.disables then s.disables[uid] else 0 }

  predicate SweepOk(s: State)
  {
    && s.reverts.Keys <= s.ours
    && (s.once == NotRun || s.once == Claimed ==> s.reverts == map[])
    && (forall u :: u in s.reverts ==> Issued(s, u) == if s.reverts[u].Reverted? then 1 else 0)
    && (forall u :: u in s.disables ==> u in s.reverts)
    && (forall u :: u in s.reverts && s.reverts[u].Setting? && !s.misresolved ==> s.reverts[u].target == u)
    && (s.once == Over ==> forall u :: u in s.reverts ==> s.reverts[u].Reverted?)
    && (s.safeSweep ==> Drained(s) && s.reverts.Keys == s.ours && (s.once == Fanned || s.once == Over))
  }

  predicate Turned(s: State, u: Uid)
  {
    u in s.reverts && s.reverts[u] == Reverted(true)
  }

  /** While every lookup names its own endpoint, audit modes are the initial ones but for our flips. */
  predicate ClusterOk(s: State)
  {
    && s.audit.Keys == s.initial.Keys
    && (!s.misresolved ==> forall u :: u in s.audit ==> s.audit[u] == (s.initial[u] || (u in s.enabled && !Turned(s, u))))
    && (!s.misresolved ==> forall u :: u in s.enabled && u in s.initial ==> !s.initial[u])
    && (!s.misresolved && s.flip.ReadOff? && s.flip.uid in s.initial ==> !s.initial[s.flip.uid])
  }

  predicate CallOk(s: State, c: Call)
  {
    match c
    case CloseCall(safe) => safe ==> Drained(s)
    case InSweep(safe) => (s.once == Claimed || s.once == Fanned) && (safe ==> Drained(s))
    case CloseReturned => s.once == Over
    case ShutCancelling(saw) => saw ==> s.watcher != NoWatcher
    case ShutWaiting(saw) => saw ==> s.watcher != NoWatcher
    case ShutReady(safe) => safe ==> Drained(s)
    case ShutSweep(closer, safe) => IsClose(s, closer) && (safe ==> Drained(s))
    case ShutReturned => s.once == Over
    case ShutTimedOut(stuck, safe) => stuck <= s.ours && (safe ==> Drained(s) && stuck == s.ours)
    case ShutCall => true
  }

  predicate IsClose(s: State, op: Op)
  {
    op in s.calls && (s.calls[op].CloseCall? || s.calls[op].InSweep? || s.calls[op].CloseReturned?)
  }

  ghost predicate CallsOk(s: State)
  {
    && (forall op :: op in s.calls ==> CallOk(s, s.calls[op]))
    && (forall p, q :: p in s.calls && q in s.calls && s.calls[p].InSweep? && s.calls[q].InSweep? ==> p == q)
  }

  ghost predicate Inv(s: State)
  {
    FlipsOk(s) && SweepOk(s) && ClusterOk(s) && CallsOk(s)
  }

  // ---- Flips keep it ----------------------------------------------------------------------------

  lemma OpenFlips(s: State, a: FlipAct)
    requires FlipsOk(s) && CanFlip(s, a)
    requires a.OpenList? || a.OpenListFails? || a.SweepNext? || a.OpenReturns?
    ensures FlipsOk(DoFlip(s, a))
  {
  }

  lemma FlipFlips(s: State, a: FlipAct)
    requires FlipsOk(s) && CanFlip(s, a)
    ensures FlipsOk(DoFlip(s, a))
  {
    match a
    case OpenList(_) => OpenFlips(s, a);
    case OpenListFails => OpenFlips(s, a);
    case SweepNext => OpenFlips(s, a);
    case OpenReturns => OpenFlips(s, a);
    case _ =>
  }

  /** A drained window takes no more flips; a watcher once there stays known. */
  lemma FlipMoves(s: State, a: FlipAct)
    requires FlipsOk(s) && CanFlip(s, a)
    ensures Moves(s, DoFlip(s, a))
  {
  }

  /** What nothing takes back. */
  predicate Moves(s: State, t: State)
  {
    && s.ours <= t.ours
    && (Drained(s) ==> Drained(t) && t.ours == s.ours)
    && (s.watcher != NoWatcher ==> t.watcher != NoWatcher)
  }

  lemma SweepFrame(s: State, t: State)
    requires SweepOk(s) && Moves(s, t)
    requires t.reverts == s.reverts && t.once == s.once && t.disables == s.disables
    requires t.misresolved == s.misresolved && t.safeSweep == s.safeSweep
    ensures SweepOk(t)
  {
  }

  lemma CallsFrame(s: State, t: State)
    requires CallsOk(s) && Moves(s, t) && t.calls == s.calls && t.once == s.once
    ensures CallsOk(t)
  {
    forall op | op in t.calls ensures CallOk(t, t.calls[op]) { assert CallOk(s, s.calls[op]); }
  }

  lemma FlipSweep(s: State, a: FlipAct)
    requires FlipsOk(s) && SweepOk(s) && CanFlip(s, a)
    ensures SweepOk(DoFlip(s, a))
  {
    FlipMoves(s, a);
    SweepFrame(s, DoFlip(s, a));
  }

  lemma EnableCluster(s: State, ok: bool)
    requires FlipsOk(s) && SweepOk(s) && ClusterOk(s) && s.flip.ReadOff?
    ensures ClusterOk(DoFlip(s, Enable(ok)))
  {
    var t, u := DoFlip(s, Enable(ok)), s.flip.uid;
    assert u !in s.reverts;
    assert forall v :: v in s.audit && v != u ==> t.audit[v] == s.audit[v];
  }

  lemma FlipCluster(s: State, a: FlipAct)
    requires FlipsOk(s) && SweepOk(s) && ClusterOk(s) && CanFlip(s, a)
    ensures ClusterOk(DoFlip(s, a))
  {
    match a
    case Enable(ok) => EnableCluster(s, ok);
    case Read(_) =>
    case _ =>
  }

  lemma FlipCalls(s: State, a: FlipAct)
    requires FlipsOk(s) && CallsOk(s) && CanFlip(s, a)
    ensures CallsOk(DoFlip(s, a))
  {
    FlipMoves(s, a);
    CallsFrame(s, DoFlip(s, a));
  }

  // ---- The fan-out keeps it ---------------------------------------------------------------------

  lemma SweepSweeps(s: State, a: SweepAct)
    requires FlipsOk(s) && SweepOk(s) && CanSweep(s, a)
    ensures FlipsOk(DoSweep(s, a)) && SweepOk(DoSweep(s, a))
  {
  }

  lemma SweepCluster(s: State, a: SweepAct)
    requires FlipsOk(s) && SweepOk(s) && ClusterOk(s) && CanSweep(s, a)
    ensures ClusterOk(DoSweep(s, a))
  {
    var t := DoSweep(s, a);
    if a.Disable? && !s.misresolved {
      assert s.reverts[a.uid].target == a.uid && a.uid in s.enabled;
      forall u | u in t.audit ensures t.audit[u] == (t.initial[u] || (u in t.enabled && !Turned(t, u))) {
        if u != a.uid { assert Turned(t, u) == Turned(s, u); }
      }
    }
  }

  lemma SweepCalls(s: State, a: SweepAct)
    requires CallsOk(s) && CanSweep(s, a)
    ensures CallsOk(DoSweep(s, a))
  {
    var t := DoSweep(s, a);
    forall op | op in t.calls ensures CallOk(t, t.calls[op]) { assert CallOk(s, s.calls[op]); }
  }

  // ---- Callers keep it --------------------------------------------------------------------------

  lemma CallFlips(s: State, op: Op, a: CallAct)
    requires FlipsOk(s) && CanCall(s, op, a)
    ensures FlipsOk(DoCall(s, op, a)) && Moves(s, DoCall(s, op, a))
  {
  }

  lemma CallSweep(s: State, op: Op, a: CallAct)
    requires FlipsOk(s) && SweepOk(s) && CallsOk(s) && CanCall(s, op, a)
    ensures SweepOk(DoCall(s, op, a))
  {
    CallFlips(s, op, a);
    if op in s.calls { assert CallOk(s, s.calls[op]); }
    match a
    case CloseEnter =>
    case CloseSnapshot =>
    case CloseFinish =>
    case _ => SweepFrame(s, DoCall(s, op, a));
  }

  lemma CallCluster(s: State, op: Op, a: CallAct)
    requires FlipsOk(s) && SweepOk(s) && ClusterOk(s) && CanCall(s, op, a)
    ensures ClusterOk(DoCall(s, op, a))
  {
    var t := DoCall(s, op, a);
    forall u ensures Turned(t, u) == Turned(s, u) {}
  }

  /** The once moves forward only, and only under the caller that holds it. */
  lemma CallOthers(s: State, op: Op, a: CallAct, p: Op)
    requires FlipsOk(s) && CallsOk(s) && CanCall(s, op, a) && p in s.calls && p != op
    ensures CallOk(DoCall(s, op, a), s.calls[p])
  {
    CallFlips(s, op, a);
    assert CallOk(s, s.calls[p]);
    if op in s.calls { assert CallOk(s, s.calls[op]); }
  }

  lemma CallOwn(s: State, op: Op, a: CallAct)
    requires FlipsOk(s) && CallsOk(s) && CanCall(s, op, a)
    ensures var t := DoCall(s, op, a); op in t.calls && CallOk(t, t.calls[op])
  {
    CallFlips(s, op, a);
    if op in s.calls { assert CallOk(s, s.calls[op]); }
    if a.ShutReturn? { assert CallOk(s, s.calls[s.calls[op].closer]); }
  }

  lemma CallCalls(s: State, op: Op, a: CallAct)
    requires FlipsOk(s) && CallsOk(s) && CanCall(s, op, a)
    ensures CallsOk(DoCall(s, op, a))
  {
    var t := DoCall(s, op, a);
    forall p | p in t.calls ensures CallOk(t, t.calls[p]) {
      if p == op { CallOwn(s, op, a); }
      else if p in s.calls { CallOthers(s, op, a, p); }
      else { assert CallOk(s, s.calls[op]); }
    }
    if a.CloseEnter? {
      forall p | p in s.calls ensures !s.calls[p].InSweep? { assert CallOk(s, s.calls[p]); }
    }
  }

  // ---- Every run --------------------------------------------------------------------------------

  lemma AppearInv(s: State, uid: Uid, on: bool)
    requires Inv(s) && uid !in s.audit
    ensures Inv(Apply(s, Appear(uid, on)))
  {
    var t := Apply(s, Appear(uid, on));
    assert Moves(s, t);
    assert FlipsOk(t);
    SweepFrame(s, t);
    CallsFrame(s, t);
  }

  lemma InvStep(s: State, step: Step)
    requires Inv(s) && Enabled(s, step)
    ensures Inv(Apply(s, step))
  {
    match step
    case Appear(uid, on) => AppearInv(s, uid, on);
    case FlipAct(a) => FlipFlips(s, a); FlipSweep(s, a); FlipCluster(s, a); FlipCalls(s, a);
    case SweepAct(a) => SweepSweeps(s, a); SweepCluster(s, a); SweepCalls(s, a);
    case CallAct(op, a) => CallFlips(s, op, a); CallSweep(s, op, a); CallCluster(s, op, a); CallCalls(s, op, a);
  }

  lemma {:induction false} RunsKeepInv(states: seq<State>)
    requires IsRun(states)
    ensures Inv(states[|states| - 1])
  {
    var last := |states| - 1;
    if last > 0 {
      var front := states[..last];
      forall i | 0 < i < |front| ensures Follows(front[i - 1], front[i]) { assert Follows(states[i - 1], states[i]); }
      RunsKeepInv(front);
      assert Follows(states[last - 1], states[last]);
      var step :| Enabled(states[last - 1], step) && states[last] == Apply(states[last - 1], step);
      InvStep(states[last - 1], step);
    }
  }

  /** Once no flip is in flight, the window's record is exactly what it switched on. */
  lemma OursIsEnabled(states: seq<State>)
    requires IsRun(states) && !states[|states| - 1].flip.SetOn?
    ensures states[|states| - 1].ours == states[|states| - 1].enabled
  {
    RunsKeepInv(states);
  }

  /** However many callers race, no endpoint is ever sent a second disable, and none that is not ours. */
  lemma OneDisableEach(states: seq<State>, uid: Uid)
    requires IsRun(states)
    ensures var s := states[|states| - 1]; Issued(s, uid) <= 1 && (Issued(s, uid) == 1 ==> uid in s.ours)
  {
    RunsKeepInv(states);
  }

  /**
   The sweep of a Shutdown that saw the watcher exit, once over, has sent exactly one disable to every
   endpoint the window switched on and to no other, and reports each of them by UID.
   */
  lemma SafeSweepAccounts(states: seq<State>, uid: Uid)
    requires IsRun(states)
    requires var s := states[|states| - 1]; s.safeSweep && s.once == Over
    ensures var s := states[|states| - 1];
            && (uid in s.enabled <==> Issued(s, uid) == 1)
            && (uid in s.enabled <==> uid in s.reverts)
            && (uid in s.reverts ==> s.reverts[uid].Reverted?)
  {
    RunsKeepInv(states);
  }

  /**
   After such a sweep, with every lookup naming its own endpoint, an endpoint is in audit mode exactly
   when it appeared that way or its disable failed.
   */
  lemma ClusterRestored(states: seq<State>, uid: Uid)
    requires IsRun(states)
    requires var s := states[|states| - 1]; s.safeSweep && s.once == Over && !s.misresolved && uid in s.audit
    ensures var s := states[|states| - 1];
            uid in s.initial && (s.audit[uid] <==> s.initial[uid] || (uid in s.reverts && s.reverts[uid] == Reverted(false)))
  {
    RunsKeepInv(states);
  }

  /** While lookups name their own endpoints, an endpoint that appeared in audit mode is left in it. */
  lemma AlreadyOnUntouched(states: seq<State>, uid: Uid)
    requires IsRun(states)
    requires var s := states[|states| - 1]; !s.misresolved && uid in s.initial && s.initial[uid]
    ensures var s := states[|states| - 1]; uid in s.audit && s.audit[uid] && uid !in s.enabled && Issued(s, uid) == 0
  {
    RunsKeepInv(states);
  }

  /** A Shutdown that saw the watcher exit and then timed out names every endpoint the window ever switched on. */
  lemma TimeoutNamesAll(states: seq<State>, op: Op)
    requires IsRun(states)
    requires var s := states[|states| - 1]; op in s.calls && s.calls[op].ShutTimedOut? && s.calls[op].safe
    ensures var s := states[|states| - 1]; s.calls[op].stuck == s.enabled
  {
    RunsKeepInv(states);
    var s := states[|states| - 1];
    assert CallOk(s, s.calls[op]);
  }

  /** A Close or Shutdown that has returned found the one sweep over: all callers see its one result. */
  lemma ReturnedMeansOver(states: seq<State>, op: Op)
    requires IsRun(states)
    requires var s := states[|states| - 1]; op in s.calls && (s.calls[op].CloseReturned? || s.calls[op].ShutReturned?)
    ensures var s := states[|states| - 1]; s.once == Over && forall u :: u in s.reverts ==> s.reverts[u].Reverted?
  {
    RunsKeepInv(states);
    var s := states[|states| - 1];
    assert CallOk(s, s.calls[op]);
  }

  function Last(states: seq<State>): State
    requires |states| > 0
  {
    states[|states| - 1]
  }

  lemma Extend(states: seq<State>, step: Step) returns (more: seq<State>)
    requires IsRun(states) && Enabled(Last(states), step)
    ensures IsRun(more) && Last(more) == Apply(Last(states), step)
  {
    more := states + [Apply(Last(states), step)];
    forall i | 0 < i < |more| ensures Follows(more[i - 1], more[i]) {
      if i < |states| { assert Follows(states[i - 1], states[i]); }
    }
  }

  /** An opened window over one endpoint that is not in audit mode, with nothing flipped yet. */
  lemma OpenOnOne() returns (states: seq<State>)
    ensures IsRun(states) && Last(states) == INIT.(open := Opened, watcher := Live, audit := map[7 := false], initial := map[7 := false])
  {
    states := Extend([INIT], Appear(7, false));
    states := Extend(states, FlipAct(OpenList([])));
    states := Extend(states, FlipAct(OpenReturns));
  }

  /** The sweep of an explicit Close, over before the watcher hears of the endpoint. */
  lemma SweptEmpty() returns (states: seq<State>)
    ensures IsRun(states)
    ensures Last(states) == INIT.(open := Opened, watcher := Live, audit := map[7 := false], initial := map[7 := false],
                                  once := Over, calls := map[0 := CloseReturned])
  {
    states := OpenOnOne();
    states := Extend(states, CallAct(0, Close));
    states := Extend(states, CallAct(0, CloseEnter));
    states := Extend(states, CallAct(0, CloseSnapshot));
    assert Last(states).reverts == map[];
    states := Extend(states, CallAct(0, CloseFinish));
  }

  /**
   Why the accounting is about a Shutdown that drained the watcher: an explicit Close while the watcher lives can miss an
   endpoint, which is switched on after the sweep took its snapshot and is left on.
   */
  lemma CloseAloneMisses() returns (states: seq<State>)
    ensures IsRun(states)
    ensures var s := Last(states);
            && s.once == Over && 7 in s.ours && s.reverts == map[]
            && s.audit == map[7 := true] && s.initial == map[7 := false]
  {
    states := SweptEmpty();
    states := Extend(states, FlipAct(WatchEvent(7)));
    states := Extend(states, FlipAct(Read(Off)));
    states := Extend(states, FlipAct(Enable(true)));
    states := Extend(states, FlipAct(Record));
  }

  lemma OpenKeepsSnapshot(s: State, a: FlipAct)
    requires CanFlip(s, a) && (a.OpenList? || a.OpenListFails? || a.SweepNext? || a.OpenReturns?)
    ensures var t := DoFlip(s, a); t.once == s.once && t.reverts == s.reverts && s.ours == t.ours
  {
    match a
    case OpenList(_) =>
    case OpenListFails =>
    case SweepNext =>
    case OpenReturns =>
  }

  lemma FlipKeepsSnapshot(s: State, a: FlipAct)
    requires CanFlip(s, a)
    ensures var t := DoFlip(s, a); t.once == s.once && t.reverts == s.reverts && s.ours <= t.ours
  {
    match a
    case OpenList(_) => OpenKeepsSnapshot(s, a);
    case OpenListFails => OpenKeepsSnapshot(s, a);
    case SweepNext => OpenKeepsSnapshot(s, a);
    case OpenReturns => OpenKeepsSnapshot(s, a);
    case WatchEvent(_) =>
    case ContextDone =>
    case WatchExits =>
    case Read(_) =>
    case Enable(_) =>
    case Record =>
  }

  lemma CallKeepsSnapshot(s: State, op: Op, a: CallAct)
    requires CallsOk(s) && CanCall(s, op, a) && (s.once == Fanned || s.once == Over)
    ensures var t := DoCall(s, op, a); (t.once == Fanned || t.once == Over) && t.reverts == s.reverts && t.ours == s.ours
  {
    if op in s.calls { assert CallOk(s, s.calls[op]); }
  }

  /** After the snapshot the set of endpoints under revert is fixed. */
  lemma SnapshotFixed(s: State, step: Step)
    requires Inv(s) && Enabled(s, step) && (s.once == Fanned || s.once == Over)
    ensures var t := Apply(s, step); (t.once == Fanned || t.once == Over) && t.reverts.Keys == s.reverts.Keys && s.ours <= t.ours
  {
    match step
    case FlipAct(a) => FlipKeepsSnapshot(s, a);
    case CallAct(op, a) => CallKeepsSnapshot(s, op, a);
    case _ =>
  }

  // ---- Continuations ----------------------------------------------------------------------------

  /** A run from s on. */
  ghost predicate IsPath(s: State, path: seq<State>)
  {
    && |path| > 0 && path[0] == s
    && forall i :: 0 < i < |path| ==> Follows(path[i - 1], path[i])
  }

  predicate SnapshotTaken(s: State) { s.once == Fanned || s.once == Over }

  lemma FrontPath(s: State, path: seq<State>)
    requires IsPath(s, path) && |path| > 1
    ensures IsPath(s, path[..|path| - 1]) && Follows(Last(path[..|path| - 1]), Last(path))
  {
    var front := path[..|path| - 1];
    forall i | 0 < i < |front| ensures Follows(front[i - 1], front[i]) { assert Follows(path[i - 1], path[i]); }
    assert Follows(path[|path| - 2], path[|path| - 1]);
  }

  /** What the snapshot left out stays out, and what was switched on stays recorded as such. */
  lemma {:induction false} PathKeeps(s: State, path: seq<State>)
    requires Inv(s) && SnapshotTaken(s) && IsPath(s, path)
    ensures var t := Last(path); Inv(t) && SnapshotTaken(t) && t.reverts.Keys == s.reverts.Keys && s.enabled <= t.enabled
  {
    if |path| > 1 {
      FrontPath(s, path);
      var front := path[..|path| - 1];
      PathKeeps(s, front);
      var step :| Enabled(Last(front), step) && Last(path) == Apply(Last(front), step);
      InvStep(Last(front), step);
      SnapshotFixed(Last(front), step);
      EnabledGrows(Last(front), step);
    }
  }

  lemma EnabledGrows(s: State, step: Step)
    requires Enabled(s, step)
    ensures s.enabled <= Apply(s, step).enabled
    ensures s.enabled == Apply(s, step).enabled || s.flip.ReadOff?
  {
    match step
    case FlipAct(a) => FlipGrows(s, a);
    case SweepAct(_) =>
    case CallAct(op, a) => CallKeepsFlips(s, op, a);
    case Appear(_, _) =>
  }

  lemma CallKeepsFlips(s: State, op: Op, a: CallAct)
    requires CanCall(s, op, a)
    ensures var t := DoCall(s, op, a); t.enabled == s.enabled && t.flip == s.flip && t.watcher == s.watcher && t.open == s.open
  {
    match a
    case Close =>
    case CloseEnter =>
    case CloseSnapshot =>
    case CloseFinish =>
    case CloseWait =>
    case Shutdown =>
    case ShutRead =>
    case ShutCancel =>
    case ShutDrain =>
    case ShutExpire =>
    case ShutSpawn(_) =>
    case ShutReturn =>
    case ShutTimeout =>
  }

  lemma FlipGrows(s: State, a: FlipAct)
    requires CanFlip(s, a)
    ensures s.enabled <= DoFlip(s, a).enabled
    ensures s.enabled == DoFlip(s, a).enabled || s.flip.ReadOff?
  {
    match a
    case OpenList(_) =>
    case OpenListFails =>
    case SweepNext =>
    case OpenReturns =>
    case WatchEvent(_) =>
    case ContextDone =>
    case WatchExits =>
    case Read(_) =>
    case Enable(_) =>
    case Record =>
  }

  lemma SuffixPath(states: seq<State>, i: nat)
    requires IsRun(states) && i < |states|
    ensures Inv(states[i]) && IsPath(states[i], states[i..])
  {
    var front, rest := states[..i + 1], states[i..];
    forall k | 0 < k < |front| ensures Follows(front[k - 1], front[k]) { assert Follows(states[k - 1], states[k]); }
    RunsKeepInv(front);
    forall k | 0 < k < |rest| ensures Follows(rest[k - 1], rest[k]) { assert Follows(states[i + k - 1], states[i + k]); }
  }

  /** An endpoint switched on that the sweep's snapshot left out is never switched off, however a run goes on. */
  lemma MissedForever(states: seq<State>, i: nat, uid: Uid)
    requires IsRun(states) && i < |states| && SnapshotTaken(states[i]) && uid in states[i].enabled && uid !in states[i].reverts
    ensures var t := Last(states);
            uid !in t.reverts && Issued(t, uid) == 0 && (!t.misresolved ==> uid in t.audit && t.audit[uid])
  {
    SuffixPath(states, i);
    PathKeeps(states[i], states[i..]);
    assert Last(states[i..]) == Last(states);
  }

  // ---- When nothing escapes the sweep -----------------------------------------------------------

  /** No endpoint can be switched on any more. */
  predicate NoFlipLeft(s: State)
  {
    s.flip == Idle && (s.watcher == Exited || s.open == OpenFailed)
  }

  /** Every endpoint switched on is under revert. */
  predicate NoneMissed(s: State) { s.enabled <= s.reverts.Keys }

  ghost predicate NeverMisses(s: State)
  {
    forall path :: IsPath(s, path) ==> NoneMissed(Last(path))
  }

  lemma NoFlipStays(s: State, step: Step)
    requires Inv(s) && NoFlipLeft(s) && Enabled(s, step)
    ensures NoFlipLeft(Apply(s, step)) && Apply(s, step).enabled == s.enabled
  {
    EnabledGrows(s, step);
    match step
    case FlipAct(_) =>
    case SweepAct(_) =>
    case CallAct(op, a) => CallKeepsFlips(s, op, a);
    case Appear(_, _) =>
  }

  lemma {:induction false} NoneMissedStays(s: State, path: seq<State>)
    requires Inv(s) && SnapshotTaken(s) && NoFlipLeft(s) && IsPath(s, path)
    ensures NoFlipLeft(Last(path)) && Last(path).enabled == s.enabled
  {
    if |path| > 1 {
      FrontPath(s, path);
      var front := path[..|path| - 1];
      NoneMissedStays(s, front);
      PathKeeps(s, front);
      var step :| Enabled(Last(front), step) && Last(path) == Apply(Last(front), step);
      NoFlipStays(Last(front), step);
    }
  }

  /** One step further on a path, with what every path keeps. */
  lemma Onward(s: State, path: seq<State>, step: Step) returns (more: seq<State>)
    requires Inv(s) && SnapshotTaken(s) && IsPath(s, path) && Enabled(Last(path), step)
    ensures IsPath(s, more) && Last(more) == Apply(Last(path), step) && Inv(Last(more)) && Last(more).reverts.Keys == s.reverts.Keys
  {
    more := path + [Apply(Last(path), step)];
    forall i | 0 < i < |more| ensures Follows(more[i - 1], more[i]) {
      if i < |path| { assert Follows(path[i - 1], path[i]); }
    }
    PathKeeps(s, more);
  }

  ghost predicate Escapes(s: State, path: seq<State>)
  {
    IsPath(s, path) && !NoneMissed(Last(path))
  }

  lemma EscapeFromChecked(s: State, path: seq<State>) returns (more: seq<State>)
    requires Inv(s) && SnapshotTaken(s) && IsPath(s, path) && Inv(Last(path)) && Last(path).reverts.Keys == s.reverts.Keys
    requires var t := Last(path); t.flip.Checked? && t.flip.uid in t.audit && !t.audit[t.flip.uid]
    ensures Escapes(s, more)
  {
    more := Onward(s, path, FlipAct(Read(Off)));
    more := EscapeFromReadOff(s, more);
  }

  lemma EscapeFromReadOff(s: State, path: seq<State>) returns (more: seq<State>)
    requires Inv(s) && SnapshotTaken(s) && IsPath(s, path) && Inv(Last(path)) && Last(path).reverts.Keys == s.reverts.Keys
    requires Last(path).flip.ReadOff?
    ensures Escapes(s, more)
  {
    var u := Last(path).flip.uid;
    more := Onward(s, path, FlipAct(Enable(true)));
    assert u in Last(more).enabled && u !in Last(more).ours;
  }

  lemma {:induction false} Bound(used: set<Uid>) returns (top: Uid)
    ensures forall u :: u in used ==> u < top
    decreases |used|
  {
    top := 0;
    if used != {} {
      var x :| x in used;
      var rest := Bound(used - {x});
      top := if x < rest then rest else x + 1;
      assert forall u :: u in used ==> u == x || u in used - {x};
    }
  }

  lemma EscapeFromLive(s: State, path: seq<State>) returns (more: seq<State>)
    requires Inv(s) && SnapshotTaken(s) && IsPath(s, path) && Inv(Last(path)) && Last(path).reverts.Keys == s.reverts.Keys
    requires Last(path).watcher == Live && Last(path).flip == Idle
    ensures Escapes(s, more)
  {
    var u := Bound(Last(path).audit.Keys);
    more := Onward(s, path, Appear(u, false));
    more := Onward(s, more, FlipAct(WatchEvent(u)));
    more := EscapeFromChecked(s, more);
  }

  lemma {:induction false} EscapeFromSweep(s: State, path: seq<State>) returns (more: seq<State>)
    requires Inv(s) && SnapshotTaken(s) && IsPath(s, path) && Inv(Last(path)) && Last(path).reverts.Keys == s.reverts.Keys
    requires Last(path).open.Sweeping? && Last(path).flip == Idle
    ensures Escapes(s, more)
    decreases |Last(path).open.todo|
  {
    if Last(path).open.todo == [] {
      more := Onward(s, path, FlipAct(OpenReturns));
      more := EscapeFromLive(s, more);
    } else {
      more := SkipOne(s, path);
      more := EscapeFromSweep(s, more);
    }
  }

  /** Open's sweep may fail to read the next endpoint and go on. */
  lemma SkipOne(s: State, path: seq<State>) returns (more: seq<State>)
    requires Inv(s) && SnapshotTaken(s) && IsPath(s, path) && Inv(Last(path)) && Last(path).reverts.Keys == s.reverts.Keys
    requires Last(path).open.Sweeping? && Last(path).open.todo != [] && Last(path).flip == Idle
    ensures IsPath(s, more) && Inv(Last(more)) && Last(more).reverts.Keys == s.reverts.Keys
    ensures Last(more).open == Sweeping(Last(path).open.todo[1..]) && Last(more).flip == Idle
  {
    more := Onward(s, path, FlipAct(SweepNext));
    if Last(more).flip != Idle { more := Onward(s, more, FlipAct(Read(ReadError))); }
  }

  lemma EscapeFromIdle(s: State, path: seq<State>) returns (more: seq<State>)
    requires Inv(s) && SnapshotTaken(s) && IsPath(s, path) && Inv(Last(path)) && Last(path).reverts.Keys == s.reverts.Keys
    requires Last(path).flip == Idle && !NoFlipLeft(Last(path))
    ensures Escapes(s, more)
  {
    var t := Last(path);
    if t.watcher == Live {
      more := EscapeFromLive(s, path);
    } else if t.open.Sweeping? {
      more := EscapeFromSweep(s, path);
    } else {
      more := EscapeFromNotOpened(s, path);
    }
  }

  lemma EscapeFromNotOpened(s: State, path: seq<State>) returns (more: seq<State>)
    requires Inv(s) && SnapshotTaken(s) && IsPath(s, path) && Inv(Last(path)) && Last(path).reverts.Keys == s.reverts.Keys
    requires Last(path).open == NotOpened && Last(path).flip == Idle
    ensures Escapes(s, more)
  {
    more := Onward(s, path, FlipAct(OpenList([])));
    more := EscapeFromSweep(s, more);
  }

  /** While a flip is possible, some continuation switches on an endpoint the sweep does not know. */
  lemma SomeEscape(s: State) returns (more: seq<State>)
    requires Inv(s) && SnapshotTaken(s) && !(NoneMissed(s) && NoFlipLeft(s))
    ensures Escapes(s, more)
  {
    more := [s];
    if !NoneMissed(s) || s.flip.SetOn? {
      assert s.flip.SetOn? ==> s.flip.uid in s.enabled && s.flip.uid !in s.ours;
    } else if s.flip == Idle {
      more := EscapeFromIdle(s, [s]);
    } else if s.flip.ReadOff? {
      more := EscapeFromReadOff(s, [s]);
    } else if s.audit[s.flip.uid] {
      more := Onward(s, [s], FlipAct(Read(ReadError)));
      more := EscapeFromIdle(s, more);
    } else {
      more := EscapeFromChecked(s, [s]);
    }
  }

  /**
   Once the sweep's snapshot is taken, every continuation has all endpoints ever switched on under
   revert exactly when they are now and no flip is possible any more: none is in flight, and the
   watcher has exited or Open had failed.
   */
  lemma NothingEscapesIff(states: seq<State>)
    requires IsRun(states) && SnapshotTaken(Last(states))
    ensures NeverMisses(Last(states)) <==> NoneMissed(Last(states)) && NoFlipLeft(Last(states))
  {
    RunsKeepInv(states);
    var s := Last(states);
    if NoneMissed(s) && NoFlipLeft(s) {
      forall path | IsPath(s, path) ensures NoneMissed(Last(path)) {
        NoneMissedStays(s, path);
        PathKeeps(s, path);
      }
    } else {
      var path := SomeEscape(s);
      assert IsPath(s, path) && !NoneMissed(Last(path));
    }
  }

  // ---- A Shutdown that does not wait long enough ------------------------------------------------

  /** A window whose watcher has switched its one endpoint on and not recorded it yet. */
  lemma FlipInFlight() returns (states: seq<State>)
    ensures IsRun(states)
    ensures Last(states) == INIT.(open := Opened, watcher := Live, audit := map[7 := true], initial := map[7 := false],
                                  flip := SetOn(7), enabled := {7})
  {
    states := OpenOnOne();
    states := Extend(states, FlipAct(WatchEvent(7)));
    states := Extend(states, FlipAct(Read(Off)));
    states := Extend(states, FlipAct(Enable(true)));
    assert map[7 := false][7 := true] == map[7 := true];
  }

  /** A Shutdown that has cancelled the watcher and waits for it. */
  lemma DrainStarted() returns (states: seq<State>)
    ensures IsRun(states)
    ensures Last(states) == INIT.(open := Opened, watcher := Live, audit := map[7 := true], initial := map[7 := false],
                                  flip := SetOn(7), enabled := {7}, cancelled := true, calls := map[0 := ShutWaiting(true)])
  {
    states := FlipInFlight();
    states := Extend(states, CallAct(0, Shutdown));
    states := Extend(states, CallAct(0, ShutRead));
    states := Extend(states, CallAct(0, ShutCancel));
  }

  /** Its wait ran out; the sweep it starts has taken its snapshot. */
  lemma ExpiredSweep() returns (states: seq<State>)
    ensures IsRun(states)
    ensures Last(states) == INIT.(open := Opened, watcher := Live, audit := map[7 := true], initial := map[7 := false],
                                  flip := SetOn(7), enabled := {7}, cancelled := true, once := Fanned,
                                  calls := map[0 := ShutSweep(1, false), 1 := InSweep(false)])
  {
    states := DrainStarted();
    states := Extend(states, CallAct(0, ShutExpire));
    states := Extend(states, CallAct(0, ShutSpawn(1)));
    states := Extend(states, CallAct(1, CloseEnter));
    states := Extend(states, CallAct(1, CloseSnapshot));
    assert Last(states).reverts == map[];
  }

  /**
   The wait for the watcher is bounded: a Shutdown that gave up on it returns with an endpoint
   switched on that its sweep never saw, and does not report it.
   */
  lemma ExpiredDrainMisses() returns (states: seq<State>)
    ensures IsRun(states)
    ensures var s := Last(states);
            && 0 in s.calls && s.calls[0] == ShutReturned && s.once == Over && !s.misresolved
            && 7 in s.ours && s.reverts == map[] && s.audit == map[7 := true] && s.initial == map[7 := false]
  {
    states := ExpiredSweep();
    states := Extend(states, CallAct(1, CloseFinish));
    states := Extend(states, CallAct(0, ShutReturn));
    states := Extend(states, FlipAct(Record));
  }
}
