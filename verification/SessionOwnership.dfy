/**
 What the session manager promises in every interleaving: every tmpdir has exactly one owner until
 its removal is issued, port-forwards close exactly once, one session is active at a time, stopped
 sessions stay stopped, and exactly one Stop of a session is told it was the first.
 */
module SessionOwnership {
  import opened PolicyTypes
  import opened SessionManager
  import opened SessionProof

  // ---- Tmpdirs ----------------------------------------------------------------------------------

  datatype Owner = StartCall(sid: Sid) | SlotSession | ShutdownCall(op: Op)

  predicate Holding(p: Phase, d: TmpDir)
  {
    (p.SettingUp? || p.Ready? || p.Aborting? || p.AbortClosed?) && p.dir == d
  }

  predicate Owns(s: State, o: Owner, d: TmpDir)
  {
    match o
    case StartCall(sid) => sid in s.sessions && Holding(s.sessions[sid].phase, d)
    case SlotSession => s.slot.Some? && s.slot.value in s.sessions && s.sessions[s.slot.value].tmp == Some(d)
    case ShutdownCall(op) => op in s.shuts && s.shuts[op].phase != ShutOver && s.shuts[op].dir == Some(d)
  }

  ghost predicate Owned(s: State, d: TmpDir)
  {
    exists o :: Owns(s, o, d)
  }

  predicate Live(s: State, d: TmpDir) { d in s.dirs && s.dirs[d] }

  /** A tmpdir is live exactly while it has an owner, and it never has two. */
  ghost predicate DirsOk(s: State)
  {
    && (forall d :: Live(s, d) ==> Owned(s, d))
    && (forall o, d :: Owns(s, o, d) ==> Live(s, d))
    && (forall o, q, d :: Owns(s, o, d) && Owns(s, q, d) ==> o == q)
  }

  /** Ownership is what it was, except that d, when given, changes hands. */
  ghost predicate HandedOver(s: State, t: State, d: TmpDir, from: Owner, to: Owner)
  {
    && t.dirs == s.dirs && Owns(s, from, d)
    && (forall o, e :: Owns(t, o, e) <==> if e == d then o == to else Owns(s, o, e))
  }

  ghost predicate Untouched(s: State, t: State)
  {
    t.dirs == s.dirs && forall o, e :: Owns(t, o, e) <==> Owns(s, o, e)
  }

  ghost predicate Made(s: State, t: State, d: TmpDir, to: Owner)
  {
    && d !in s.dirs && t.dirs == s.dirs[d := true]
    && (forall o, e :: Owns(t, o, e) <==> if e == d then o == to else Owns(s, o, e))
  }

  ghost predicate Dropped(s: State, t: State, d: TmpDir, from: Owner)
  {
    && Owns(s, from, d) && t.dirs == s.dirs[d := false]
    && (forall o, e :: Owns(t, o, e) <==> Owns(s, o, e) && !(o == from && e == d))
  }

  lemma UntouchedOk(s: State, t: State)
    requires DirsOk(s) && Untouched(s, t)
    ensures DirsOk(t)
  {
    forall d | Live(t, d) ensures Owned(t, d) {
      assert Live(s, d) && Owned(s, d);
      var o :| Owns(s, o, d);
      assert Owns(t, o, d);
    }
    forall o, d | Owns(t, o, d) ensures Live(t, d) { assert Owns(s, o, d); }
  }

  lemma HandedOverOk(s: State, t: State, d: TmpDir, from: Owner, to: Owner)
    requires DirsOk(s) && HandedOver(s, t, d, from, to)
    ensures DirsOk(t)
  {
    assert Owns(t, to, d);
    forall e | Live(t, e) ensures Owned(t, e) {
      if e != d {
        assert Live(s, e) && Owned(s, e);
        var o :| Owns(s, o, e);
        assert Owns(t, o, e);
      }
    }
    forall o, e | Owns(t, o, e) ensures Live(t, e) {
      if e != d { assert Owns(s, o, e); }
      assert Live(s, e);
    }
  }

  lemma MadeOk(s: State, t: State, d: TmpDir, to: Owner)
    requires DirsOk(s) && Made(s, t, d, to)
    ensures DirsOk(t)
  {
    assert Owns(t, to, d);
    forall e | Live(t, e) ensures Owned(t, e) {
      if e != d {
        assert Live(s, e) && Owned(s, e);
        var o :| Owns(s, o, e);
        assert Owns(t, o, e);
      }
    }
    forall o, e | Owns(t, o, e) ensures Live(t, e) {
      if e != d { assert Owns(s, o, e); assert Live(s, e); }
    }
  }

  lemma DroppedOk(s: State, t: State, d: TmpDir, from: Owner)
    requires DirsOk(s) && Dropped(s, t, d, from)
    ensures DirsOk(t)
  {
    forall e | Live(t, e) ensures Owned(t, e) {
      assert Live(s, e) && Owned(s, e);
      var o :| Owns(s, o, e);
      assert Owns(t, o, e);
    }
    forall o, e | Owns(t, o, e) ensures Live(t, e) { assert Owns(s, o, e); assert Live(s, e); }
  }

  lemma ClaimDirs(s: State, sid: Sid)
    requires Basic(s) && DirsOk(s) && CanClaim(s, sid)
    ensures DirsOk(DoClaim(s, sid))
  {
    var t := DoClaim(s, sid);
    if s.slot.Some? && s.sessions[s.slot.value].tmp.Some? {
      var d := s.sessions[s.slot.value].tmp.value;
      assert Owns(s, SlotSession, d);
      assert Dropped(s, t, d, SlotSession);
      DroppedOk(s, t, d, SlotSession);
    } else {
      assert Untouched(s, t);
      UntouchedOk(s, t);
    }
  }

  lemma StartDirsOk(s: State, sid: Sid, a: StartAct)
    requires Basic(s) && DirsOk(s) && CanStart(s, sid, a)
    ensures DirsOk(DoStart(s, sid, a))
  {
    var t, x := DoStart(s, sid, a), s.sessions[sid];
    assert LocalOk(x);
    match a
    case MkdirOk(d) =>
      MkdirMakes(s, sid, d);
      MadeOk(s, t, d, StartCall(sid));
    case SetupFail(_) => StartDrops(s, sid, a);
    case AbortRemove => StartDrops(s, sid, a);
    case Finalise => FinaliseHands(s, sid);
    case _ => StartKeeps(s, sid, a);
  }

  lemma StartDrops(s: State, sid: Sid, a: StartAct)
    requires DirsOk(s) && CanStart(s, sid, a) && (a.SetupFail? || a.AbortRemove?)
    ensures DirsOk(DoStart(s, sid, a))
  {
    var t, d := DoStart(s, sid, a), s.sessions[sid].phase.dir;
    assert Owns(s, StartCall(sid), d);
    assert Dropped(s, t, d, StartCall(sid));
    DroppedOk(s, t, d, StartCall(sid));
  }

  lemma StartKeeps(s: State, sid: Sid, a: StartAct)
    requires Basic(s) && DirsOk(s) && CanStart(s, sid, a)
    requires a.MkdirFail? || a.SetupOk? || a.FailCancel? || a.FailRelease? || a.AbortClose?
    ensures DirsOk(DoStart(s, sid, a))
  {
    assert LocalOk(s.sessions[sid]);
    assert Untouched(s, DoStart(s, sid, a));
    UntouchedOk(s, DoStart(s, sid, a));
  }

  lemma MkdirMakes(s: State, sid: Sid, d: TmpDir)
    requires Basic(s) && DirsOk(s) && CanStart(s, sid, MkdirOk(d))
    ensures Made(s, DoStart(s, sid, MkdirOk(d)), d, StartCall(sid))
  {
    var t := DoStart(s, sid, MkdirOk(d));
    assert LocalOk(s.sessions[sid]);
    forall o, e ensures Owns(t, o, e) <==> if e == d then o == StartCall(sid) else Owns(s, o, e) {
      if Owns(s, o, e) { assert Live(s, e); }
    }
  }

  lemma FinaliseHands(s: State, sid: Sid)
    requires Basic(s) && DirsOk(s) && CanStart(s, sid, Finalise)
    ensures DirsOk(DoStart(s, sid, Finalise))
  {
    var t, d := DoStart(s, sid, Finalise), s.sessions[sid].phase.dir;
    assert LocalOk(s.sessions[sid]);
    assert Owns(s, StartCall(sid), d);
    if InSlot(s, sid) {
      forall o, e ensures Owns(t, o, e) <==> if e == d then o == SlotSession else Owns(s, o, e) {
        if e == d && Owns(s, o, e) { assert o == StartCall(sid); }
      }
      HandedOverOk(s, t, d, StartCall(sid), SlotSession);
    } else {
      assert Untouched(s, t);
      UntouchedOk(s, t);
    }
  }

  lemma TakeDirs(s: State, op: Op)
    requires Basic(s) && DirsOk(s) && CanTake(s, op)
    ensures DirsOk(DoTake(s, op))
  {
    var t, x := DoTake(s, op), s.sessions[s.slot.value];
    if x.tmp.Some? {
      var d := x.tmp.value;
      assert Owns(s, SlotSession, d);
      forall o, e ensures Owns(t, o, e) <==> if e == d then o == ShutdownCall(op) else Owns(s, o, e) {
        if e == d && Owns(s, o, e) { assert o == SlotSession; }
      }
      HandedOverOk(s, t, d, SlotSession, ShutdownCall(op));
    } else {
      assert Untouched(s, t);
      UntouchedOk(s, t);
    }
  }

  lemma ShutDrops(s: State, op: Op)
    requires DirsOk(s) && CanShut(s, op, ShutRemove) && s.shuts[op].dir.Some?
    ensures DirsOk(DoShut(s, op, ShutRemove))
  {
    var t, d := DoShut(s, op, ShutRemove), s.shuts[op].dir.value;
    assert Owns(s, ShutdownCall(op), d);
    assert Dropped(s, t, d, ShutdownCall(op));
    DroppedOk(s, t, d, ShutdownCall(op));
  }

  lemma ShutDirs(s: State, op: Op, a: ShutAct)
    requires Basic(s) && DirsOk(s) && CanShut(s, op, a)
    ensures DirsOk(DoShut(s, op, a))
  {
    var t, o := DoShut(s, op, a), s.shuts[op];
    if a.ShutRemove? && o.dir.Some? {
      ShutDrops(s, op);
    } else {
      assert Untouched(s, t);
      UntouchedOk(s, t);
    }
  }

  lemma OtherDirs(s: State, t: State)
    requires DirsOk(s) && t.dirs == s.dirs && t.slot == s.slot && t.shuts == s.shuts && t.sessions.Keys == s.sessions.Keys
    requires forall sid :: sid in s.sessions ==>
               (t.sessions[sid].phase == s.sessions[sid].phase
                || forall d :: !Holding(s.sessions[sid].phase, d) && !Holding(t.sessions[sid].phase, d))
               && t.sessions[sid].tmp == s.sessions[sid].tmp
    ensures DirsOk(t)
  {
    assert Untouched(s, t);
    UntouchedOk(s, t);
  }

  lemma LaunchDirs(s: State, sid: Sid, a: LaunchAct)
    requires DirsOk(s) && CanLaunch(s, sid, a)
    ensures DirsOk(DoLaunch(s, sid, a))
  {
    OtherDirs(s, DoLaunch(s, sid, a));
  }

  lemma StopDirs(s: State, op: Op, a: StopAct)
    requires DirsOk(s) && CanStop(s, op, a)
    ensures DirsOk(DoStop(s, op, a))
  {
    OtherDirs(s, DoStop(s, op, a));
  }

  lemma DirsStep(s: State, step: Step)
    requires Basic(s) && DirsOk(s) && Enabled(s, step)
    ensures DirsOk(Apply(s, step))
  {
    match step
    case Claim(sid) => ClaimDirs(s, sid);
    case StartMoves(sid, a) => StartDirsOk(s, sid, a);
    case LaunchMoves(sid, a) => LaunchDirs(s, sid, a);
    case StopRead(op, sid) => OtherDirs(s, DoStopRead(s, op, sid));
    case StopMoves(op, a) => StopDirs(s, op, a);
    case ShutTake(op) => TakeDirs(s, op);
    case ShutMoves(op, a) => ShutDirs(s, op, a);
    case RootCancel => OtherDirs(s, s.(rootCancelled := true));
  }

  // ---- First stops ------------------------------------------------------------------------------

  predicate ToldFirst(s: State, op: Op, sid: Sid)
  {
    op in s.stops && s.stops[op].sid == sid && Past(s.stops[op].phase) && !s.stops[op].phase.already
  }

  ghost predicate SomeoneFirst(s: State, sid: Sid)
  {
    exists op :: ToldFirst(s, op, sid)
  }

  /** Once some Stop of a session has returned, exactly one was told it was the first. */
  ghost predicate FirstStops(s: State)
  {
    && (forall sid :: sid in s.sessions ==> (s.sessions[sid].stopSeen <==> SomeoneFirst(s, sid)))
    && (forall p, q, sid :: ToldFirst(s, p, sid) && ToldFirst(s, q, sid) ==> p == q)
    && (forall op, sid :: ToldFirst(s, op, sid) ==> sid in s.sessions)
  }

  lemma FirstStopsKept(s: State, t: State)
    requires FirstStops(s) && s.sessions.Keys <= t.sessions.Keys
    requires forall op, sid :: ToldFirst(t, op, sid) <==> ToldFirst(s, op, sid)
    requires forall sid :: sid in t.sessions ==> t.sessions[sid].stopSeen == (sid in s.sessions && s.sessions[sid].stopSeen)
    ensures FirstStops(t)
  {
    forall sid | sid in t.sessions ensures t.sessions[sid].stopSeen <==> SomeoneFirst(t, sid) {
      if SomeoneFirst(t, sid) {
        var op :| ToldFirst(t, op, sid);
        assert ToldFirst(s, op, sid);
        assert SomeoneFirst(s, sid);
      }
      if sid in s.sessions && SomeoneFirst(s, sid) {
        var op :| ToldFirst(s, op, sid);
        assert ToldFirst(t, op, sid);
      }
    }
  }

  lemma FirstStopReturn(s: State, op: Op)
    requires Basic(s) && FirstStops(s) && CanStop(s, op, StopSwap)
    ensures FirstStops(DoStop(s, op, StopSwap))
  {
    var t, sid := DoStop(s, op, StopSwap), s.stops[op].sid;
    var first := !s.sessions[sid].stopSeen;
    forall p, q ensures ToldFirst(t, p, q) <==> if p == op then first && q == sid else ToldFirst(s, p, q) {}
    forall q | q in t.sessions ensures t.sessions[q].stopSeen <==> SomeoneFirst(t, q) {
      if q == sid {
        if first { assert ToldFirst(t, op, sid); }
        else {
          var p :| ToldFirst(s, p, sid);
          assert ToldFirst(t, p, sid);
        }
      } else {
        if SomeoneFirst(t, q) { var p :| ToldFirst(t, p, q); assert ToldFirst(s, p, q); }
        if SomeoneFirst(s, q) { var p :| ToldFirst(s, p, q); assert ToldFirst(t, p, q); }
      }
    }
    assert first ==> !SomeoneFirst(s, sid);
    assert forall p :: ToldFirst(s, p, sid) ==> SomeoneFirst(s, sid);
  }

  lemma FirstStopsStep(s: State, step: Step)
    requires Basic(s) && FirstStops(s) && Enabled(s, step)
    ensures FirstStops(Apply(s, step))
  {
    var t := Apply(s, step);
    match step
    case StartMoves(sid, a) => FirstStopsStart(s, sid, a);
    case LaunchMoves(sid, a) => FirstStopsLaunch(s, sid, a);
    case StopMoves(op, a) => if a == StopSwap { FirstStopReturn(s, op); } else { FirstStopsStop(s, op, a); }
    case _ => FirstStopsKept(s, t);
  }

  lemma FirstStopsStart(s: State, sid: Sid, a: StartAct)
    requires FirstStops(s) && CanStart(s, sid, a)
    ensures FirstStops(DoStart(s, sid, a))
  {
    FirstStopsKept(s, DoStart(s, sid, a));
  }

  lemma FirstStopsLaunch(s: State, sid: Sid, a: LaunchAct)
    requires FirstStops(s) && CanLaunch(s, sid, a)
    ensures FirstStops(DoLaunch(s, sid, a))
  {
    FirstStopsKept(s, DoLaunch(s, sid, a));
  }

  lemma FirstStopsStop(s: State, op: Op, a: StopAct)
    requires FirstStops(s) && CanStop(s, op, a) && a != StopSwap
    ensures FirstStops(DoStop(s, op, a))
  {
    FirstStopsKept(s, DoStop(s, op, a));
  }

  // ---- Cancellation -----------------------------------------------------------------------------

  /** A Shutdown has taken the session and is about to cancel it. */
  ghost predicate AboutToCancel(s: State, sid: Sid)
  {
    exists op :: op in s.shuts && s.shuts[op].sid == sid && s.shuts[op].phase == Cancelling
  }

  /** A pipeline that runs uncancelled belongs to the active session, or to one Shutdown is cancelling. */
  ghost predicate PipelinesOk(s: State)
  {
    forall sid :: sid in s.sessions && s.sessions[sid].phase.Running? && !s.sessions[sid].cancelled ==>
      s.sessions[sid].fate == Active || AboutToCancel(s, sid)
  }

  /** Pipelines are safe as long as sessions only get less able to break the promise. */
  lemma PipelinesKept(s: State, t: State)
    requires PipelinesOk(s) && s.sessions.Keys <= t.sessions.Keys
    requires forall op :: op in s.shuts && s.shuts[op].phase == Cancelling ==> op in t.shuts && t.shuts[op] == s.shuts[op]
    requires forall sid :: sid in t.sessions && t.sessions[sid].phase.Running? && !t.sessions[sid].cancelled ==>
               || t.sessions[sid].fate == Active
               || (sid in s.sessions && s.sessions[sid].phase.Running? && !s.sessions[sid].cancelled && s.sessions[sid].fate != Active)
    ensures PipelinesOk(t)
  {
    forall sid | sid in t.sessions && t.sessions[sid].phase.Running? && !t.sessions[sid].cancelled && t.sessions[sid].fate != Active
      ensures AboutToCancel(t, sid)
    {
      assert AboutToCancel(s, sid);
      var op :| op in s.shuts && s.shuts[op].sid == sid && s.shuts[op].phase == Cancelling;
      assert op in t.shuts && t.shuts[op].sid == sid;
    }
  }

  lemma PipelinesTake(s: State, op: Op)
    requires Basic(s) && PipelinesOk(s) && CanTake(s, op)
    ensures PipelinesOk(DoTake(s, op))
  {
    var t, k := DoTake(s, op), s.slot.value;
    assert LocalOk(s.sessions[k]) && SlotOk(s, k, s.sessions[k]);
    forall sid | sid in t.sessions && t.sessions[sid].phase.Running? && !t.sessions[sid].cancelled && t.sessions[sid].fate != Active
      ensures AboutToCancel(t, sid)
    {
      if sid == k {
        assert op in t.shuts && t.shuts[op].sid == k && t.shuts[op].phase == Cancelling;
      } else {
        assert AboutToCancel(s, sid);
        var p :| p in s.shuts && s.shuts[p].sid == sid && s.shuts[p].phase == Cancelling;
        assert p in t.shuts && t.shuts[p] == s.shuts[p];
      }
    }
  }

  lemma PipelinesShut(s: State, op: Op, a: ShutAct)
    requires PipelinesOk(s) && CanShut(s, op, a)
    ensures PipelinesOk(DoShut(s, op, a))
  {
    var t := DoShut(s, op, a);
    forall sid | sid in t.sessions && t.sessions[sid].phase.Running? && !t.sessions[sid].cancelled && t.sessions[sid].fate != Active
      ensures AboutToCancel(t, sid)
    {
      assert AboutToCancel(s, sid);
      var p :| p in s.shuts && s.shuts[p].sid == sid && s.shuts[p].phase == Cancelling;
      assert p in t.shuts && (p == op || t.shuts[p] == s.shuts[p]);
    }
  }

  lemma PipelinesStart(s: State, sid: Sid, a: StartAct)
    requires Basic(s) && PipelinesOk(s) && CanStart(s, sid, a)
    ensures PipelinesOk(DoStart(s, sid, a))
  {
    var x := s.sessions[sid];
    assert LocalOk(x) && SlotOk(s, sid, x);
    PipelinesKept(s, DoStart(s, sid, a));
  }

  lemma PipelinesLaunch(s: State, sid: Sid, a: LaunchAct)
    requires PipelinesOk(s) && CanLaunch(s, sid, a)
    ensures PipelinesOk(DoLaunch(s, sid, a))
  {
    PipelinesKept(s, DoLaunch(s, sid, a));
  }

  lemma PipelinesStop(s: State, op: Op, a: StopAct)
    requires Basic(s) && PipelinesOk(s) && CanStop(s, op, a)
    ensures PipelinesOk(DoStop(s, op, a))
  {
    assert StopOk(s.stops[op], s.sessions[s.stops[op].sid]);
    PipelinesKept(s, DoStop(s, op, a));
  }

  lemma PipelinesStep(s: State, step: Step)
    requires Basic(s) && PipelinesOk(s) && Enabled(s, step)
    ensures PipelinesOk(Apply(s, step))
  {
    match step
    case Claim(sid) => PipelinesKept(s, DoClaim(s, sid));
    case StartMoves(sid, a) => PipelinesStart(s, sid, a);
    case LaunchMoves(sid, a) => PipelinesLaunch(s, sid, a);
    case StopRead(op, sid) => PipelinesKept(s, DoStopRead(s, op, sid));
    case StopMoves(op, a) => PipelinesStop(s, op, a);
    case ShutTake(op) => PipelinesTake(s, op);
    case ShutMoves(op, a) => PipelinesShut(s, op, a);
    case RootCancel => PipelinesKept(s, s.(rootCancelled := true));
  }

  // ---- Runs ---------------------------------------------------------------------------------------

  ghost predicate Inv(s: State)
  {
    Basic(s) && DirsOk(s) && FirstStops(s) && PipelinesOk(s)
  }

  lemma InvStep(s: State, step: Step)
    requires Inv(s) && Enabled(s, step)
    ensures Inv(Apply(s, step))
  {
    BasicStep(s, step);
    DirsStep(s, step);
    FirstStopsStep(s, step);
    PipelinesStep(s, step);
  }

  lemma {:induction false} RunsKeepInv(states: seq<State>)
    requires IsRun(states)
    ensures Inv(states[|states| - 1])
  {
    var last := |states| - 1;
    if last > 0 {
      PrefixRun(states, last);
      RunsKeepInv(states[..last]);
      assert Follows(states[last - 1], states[last]);
      var step :| Enabled(states[last - 1], step) && states[last] == Apply(states[last - 1], step);
      InvStep(states[last - 1], step);
    }
  }

  // ---- What it means ------------------------------------------------------------------------------

  predicate InFlight(x: Session) { !Launched(x.phase) && !x.phase.Ended? }

  /** No Start and no Shutdown has work left. */
  ghost predicate Settled(s: State)
  {
    && (forall sid :: sid in s.sessions ==> !InFlight(s.sessions[sid]))
    && (forall op :: op in s.shuts ==> s.shuts[op].phase == ShutOver)
  }

  /** An empty slot with nothing in flight leaves no tmpdir unremoved. */
  lemma NothingLeft(states: seq<State>, d: TmpDir)
    requires IsRun(states)
    requires var s := states[|states| - 1]; s.slot == None && Settled(s) && d in s.dirs
    ensures !states[|states| - 1].dirs[d]
  {
    RunsKeepInv(states);
    var s := states[|states| - 1];
    if Live(s, d) {
      assert Owned(s, d);
      var o :| Owns(s, o, d);
    }
  }

  /** Every tmpdir that is still there belongs to exactly one Start, the slot's session or one Shutdown. */
  lemma OneOwner(states: seq<State>, d: TmpDir)
    requires IsRun(states)
    ensures var s := states[|states| - 1]; Live(s, d) <==> Owned(s, d)
    ensures var s := states[|states| - 1]; forall o, q :: Owns(s, o, d) && Owns(s, q, d) ==> o == q
  {
    RunsKeepInv(states);
  }

  /** Port-forwards are closed at most once, and exactly once by the time their session has ended. */
  lemma ForwardsCloseOnce(states: seq<State>, sid: Sid)
    requires IsRun(states) && sid in states[|states| - 1].sessions
    ensures var x := states[|states| - 1].sessions[sid];
            x.closes <= x.forwards <= 1 && (x.phase.Ended? ==> x.closes == x.forwards)
  {
    RunsKeepInv(states);
    assert LocalOk(states[|states| - 1].sessions[sid]);
  }

  /** The goroutine's result is sent at most once and the send never blocks. */
  lemma SendNeverBlocks(states: seq<State>, sid: Sid)
    requires IsRun(states) && sid in states[|states| - 1].sessions
    ensures var s := states[|states| - 1];
            s.sessions[sid].sent <= 1 && (s.sessions[sid].phase.Sending? ==> CanLaunch(s, sid, SendDone))
  {
    RunsKeepInv(states);
    assert LocalOk(states[|states| - 1].sessions[sid]);
  }

  /** At most one session is neither stopped, exited, shut down nor failed, and it is the slot's. */
  lemma OneActive(states: seq<State>, a: Sid, b: Sid)
    requires IsRun(states)
    requires var s := states[|states| - 1].sessions; a in s && b in s && s[a].fate == Active && s[b].fate == Active
    ensures a == b && states[|states| - 1].slot == Some(a) && states[|states| - 1].sessions[a].status == Capturing
  {
    RunsKeepInv(states);
    var s := states[|states| - 1];
    assert SlotOk(s, a, s.sessions[a]) && SlotOk(s, b, s.sessions[b]);
  }

  /** Of two pipelines running at once, one is cancelled or about to be by a Shutdown. */
  lemma OneLivePipeline(states: seq<State>, a: Sid, b: Sid)
    requires IsRun(states) && a != b
    requires var s := states[|states| - 1].sessions; a in s && b in s && s[a].phase.Running? && s[b].phase.Running?
    ensures var s := states[|states| - 1];
            s.sessions[a].cancelled || s.sessions[b].cancelled || AboutToCancel(s, a) || AboutToCancel(s, b)
  {
    RunsKeepInv(states);
    var s := states[|states| - 1];
    assert SlotOk(s, a, s.sessions[a]) && SlotOk(s, b, s.sessions[b]);
  }

  /** Exactly one returned Stop of a session says it was not already stopped. */
  lemma ExactlyOneFirst(states: seq<State>, op: Op)
    requires IsRun(states)
    requires var s := states[|states| - 1]; op in s.stops && s.stops[op].phase.Returned?
    ensures var s := states[|states| - 1]; var sid := s.stops[op].sid;
            && sid in s.sessions && SomeoneFirst(s, sid) && s.sessions[sid].status == Stopped
            && forall p, q :: ToldFirst(s, p, sid) && ToldFirst(s, q, sid) ==> p == q
  {
    RunsKeepInv(states);
    var s := states[|states| - 1];
    assert StopOk(s.stops[op], s.sessions[s.stops[op].sid]);
  }

  /** A Stop that waits for another caller's teardown waits for one that can always move on. */
  lemma WaitersCanWait(states: seq<State>, sid: Sid) returns (op: Op, a: StopAct)
    requires IsRun(states)
    requires var s := states[|states| - 1]; sid in s.sessions && s.sessions[sid].once == Busy
    ensures var s := states[|states| - 1]; CanStop(s, op, a) && s.stops[op].sid == sid && Inside(s.stops[op].phase)
  {
    RunsKeepInv(states);
    var s := states[|states| - 1];
    assert SomeoneInside(s, sid);
    op :| op in s.stops && s.stops[op].sid == sid && Inside(s.stops[op].phase);
    a := match s.stops[op].phase case InOnce => StopCancel case Waiting => StopExpired case _ => StopFinish;
  }

  lemma StartGrows(s: State, k: Sid, a: StartAct, sid: Sid)
    requires Inv(s) && CanStart(s, k, a) && sid in s.sessions
    ensures sid in DoStart(s, k, a).sessions && Grows(s.sessions[sid], DoStart(s, k, a).sessions[sid])
  {
    assert LocalOk(s.sessions[k]) && SlotOk(s, k, s.sessions[k]);
    StartLocal(s.sessions[k], a, InSlot(s, k));
  }

  lemma LaunchGrows(s: State, k: Sid, a: LaunchAct, sid: Sid)
    requires Inv(s) && CanLaunch(s, k, a) && sid in s.sessions
    ensures sid in DoLaunch(s, k, a).sessions && Grows(s.sessions[sid], DoLaunch(s, k, a).sessions[sid])
  {
    assert LocalOk(s.sessions[k]) && SlotOk(s, k, s.sessions[k]);
    LaunchLocal(s.sessions[k], a, Cancelled(s, s.sessions[k]), InSlot(s, k));
  }

  lemma StopGrows(s: State, op: Op, a: StopAct, sid: Sid)
    requires Inv(s) && CanStop(s, op, a) && sid in s.sessions
    ensures sid in DoStop(s, op, a).sessions && Grows(s.sessions[sid], DoStop(s, op, a).sessions[sid])
  {
    var k := s.stops[op].sid;
    assert StopOk(s.stops[op], s.sessions[k]) && LocalOk(s.sessions[k]);
    StopLocal(s.sessions[k], s.stops[op].phase, a);
  }

  /** A session never returns from stopped to capturing, nor from cancelled, nor from its fate. */
  lemma StepGrows(s: State, step: Step, sid: Sid)
    requires Inv(s) && Enabled(s, step) && sid in s.sessions
    ensures sid in Apply(s, step).sessions && Grows(s.sessions[sid], Apply(s, step).sessions[sid])
  {
    match step
    case StartMoves(k, a) => StartGrows(s, k, a, sid);
    case LaunchMoves(k, a) => LaunchGrows(s, k, a, sid);
    case StopMoves(op, a) => StopGrows(s, op, a, sid);
    case ShutMoves(op, a) =>
      var k := s.shuts[op].sid;
      assert LocalOk(s.sessions[k]);
      ShutLocal(s.sessions[k], s.shuts[op].phase, a);
    case _ =>
  }

  lemma PrefixRun(states: seq<State>, n: nat)
    requires IsRun(states) && 0 < n <= |states|
    ensures IsRun(states[..n])
  {
    var front := states[..n];
    forall i | 0 < i < n ensures Follows(front[i - 1], front[i]) {
      assert Follows(states[i - 1], states[i]);
    }
  }

  lemma FollowGrows(s: State, t: State, sid: Sid)
    requires Inv(s) && Follows(s, t) && sid in s.sessions
    ensures sid in t.sessions && Grows(s.sessions[sid], t.sessions[sid])
  {
    var step :| Enabled(s, step) && t == Apply(s, step);
    StepGrows(s, step, sid);
  }

  lemma NeighbourGrows(states: seq<State>, j: nat, sid: Sid)
    requires IsRun(states) && 0 < j < |states| && sid in states[j - 1].sessions
    ensures sid in states[j].sessions && Grows(states[j - 1].sessions[sid], states[j].sessions[sid])
  {
    PrefixRun(states, j);
    RunsKeepInv(states[..j]);
    FollowGrows(states[j - 1], states[j], sid);
  }

  lemma {:induction false} NeverBack(states: seq<State>, i: nat, j: nat, sid: Sid)
    requires IsRun(states) && i <= j < |states| && sid in states[i].sessions
    ensures sid in states[j].sessions && Grows(states[i].sessions[sid], states[j].sessions[sid])
    decreases j - i
  {
    if i < j {
      NeverBack(states, i, j - 1, sid);
      NeighbourGrows(states, j, sid);
      GrowsOn(states[i].sessions[sid], states[j - 1].sessions[sid], states[j].sessions[sid]);
    }
  }

  lemma GrowsOn(x: Session, y: Session, z: Session)
    requires Grows(x, y) && Grows(y, z)
    ensures Grows(x, z)
  {
  }

  ghost predicate ClaimTaken(s: State, t: State, sid: Sid) { CanClaim(s, sid) && t == DoClaim(s, sid) }

  /** Two claims are separated by the end of the first session: stopped, exited, shut down or failed. */
  lemma ClaimsAreSeparated(states: seq<State>, a: Sid, b: Sid, i: nat)
    requires IsRun(states) && 0 < i < |states| && a in states[i - 1].sessions
    requires ClaimTaken(states[i - 1], states[i], b)
    ensures states[i - 1].sessions[a].fate != Active
    ensures i <= |states| - 1 && forall j :: i <= j < |states| ==> a in states[j].sessions && states[j].sessions[a].fate != Active
  {
    PrefixRun(states, i);
    RunsKeepInv(states[..i]);
    assert SlotOk(states[i - 1], a, states[i - 1].sessions[a]);
    forall j | i <= j < |states| ensures a in states[j].sessions && states[j].sessions[a].fate != Active {
      NeverBack(states, i - 1, j, a);
    }
  }
}
