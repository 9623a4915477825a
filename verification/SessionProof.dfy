/** What every interleaving of the session manager's steps keeps. */
module SessionProof {
  import opened PolicyTypes
  import opened SessionManager

  // ---- One session on its own -------------------------------------------------------------------

  predicate Launched(p: Phase)
  {
    p.Running? || p.Exited? || p.Closed? || p.Erring? || p.Leaving? || p.Left? || p.Sending?
  }

  predicate ForwardOpen(p: Phase)
  {
    p.Ready? || p.Aborting? || p.Running? || p.Exited?
  }

  predicate LocalOk(x: Session)
  {
    && (if ForwardOpen(x.phase) then x.forwards == 1 && x.closes == 0 else x.forwards == x.closes <= 1)
    && (x.phase.Claimed? || x.phase.SettingUp? ==> x.forwards == 0)
    && (Launched(x.phase) ==> x.tmp.Some?)
    && (x.tmp.Some? ==> Launched(x.phase) || (x.phase.Ended? && x.sent == 1))
    && x.done <= x.sent <= 1
    && (x.sent == 1 ==> x.phase.Ended?)
    && (x.status == Stopped ==> x.cancelled || x.phase.Left? || x.phase.Sending? || x.phase.Ended?)
    && (x.once == Over ==> x.status == Stopped && x.cancelled)
    && (x.status == Stopped ==> x.fate != Active)
    && (x.phase.Aborting? || x.phase.AbortClosed? ==> x.fate != Active)
    && (x.final.Some? || x.result.Some? ==> x.tmp.Some?)
    && (x.error.Some? ==> x.phase.Leaving? || x.phase.Left? || x.phase.Sending? || x.phase.Ended?)
    && (x.phase.Erring? ==> x.result.Some?)
    && (x.status == Stopped <==> x.fate == ByExit || x.once == Over)
    && x.stamps == (if x.fate == ByExit then 1 else 0) + (if x.once == Over then 1 else 0)
  }

  /** What never goes back. */
  predicate Grows(x: Session, y: Session)
  {
    && (x.status == Stopped ==> y.status == Stopped)
    && (x.cancelled ==> y.cancelled)
    && (x.stopSeen ==> y.stopSeen)
    && (x.fate != Active ==> y.fate == x.fate)
    && x.stamps <= y.stamps
    && (x.tmp.Some? ==> y.tmp == x.tmp) && (x.final.Some? ==> y.final == x.final) && (x.error.Some? ==> y.error == x.error)
  }

  lemma StartLocal(x: Session, a: StartAct, mine: bool)
    requires LocalOk(x) && StartFits(x, a) && (!mine ==> x.fate != Active)
    ensures var y := StartSession(x, a, mine);
            LocalOk(y) && Grows(x, y) && y.once == x.once && y.stopSeen == x.stopSeen && y.status == x.status
            && (y.fate == x.fate || a.FailRelease?)
  {
  }

  lemma LaunchLocal(x: Session, a: LaunchAct, cancelled: bool, mine: bool)
    requires LocalOk(x) && LaunchFits(x, a) && (mine && x.status == Capturing ==> x.fate == Active)
    ensures var y := LaunchSession(x, a, cancelled, mine);
            LocalOk(y) && Grows(x, y) && y.once == x.once && y.stopSeen == x.stopSeen
            && ((y.status == x.status && y.fate == x.fate) || (y.status == Stopped && y.fate != Active))
  {
  }

  lemma StopLocal(x: Session, phase: StopPhase, a: StopAct)
    requires LocalOk(x) && StopFits(x, phase, a) && (a.StopFinish? ==> x.cancelled && x.once == Busy)
    ensures var y := StopSession(x, phase, a);
            LocalOk(y) && Grows(x, y) && ((y.status == x.status && y.fate == x.fate) || (y.status == Stopped && y.fate != Active))
  {
  }

  lemma ShutLocal(x: Session, phase: ShutPhase, a: ShutAct)
    requires LocalOk(x) && ShutFits(x, phase, a)
    ensures var y := ShutSession(x, phase, a);
            LocalOk(y) && Grows(x, y) && y.once == x.once && y.stopSeen == x.stopSeen && y.status == x.status && y.fate == x.fate
  {
  }

  // ---- Sessions, slot and operations together ---------------------------------------------------

  ghost predicate Wellformed(s: State)
  {
    && (s.slot.Some? ==> s.slot.value in s.sessions)
    && (forall op :: op in s.stops ==> s.stops[op].sid in s.sessions)
    && (forall op :: op in s.shuts ==> s.shuts[op].sid in s.sessions)
  }

  /** The one active session is the capturing one in the slot. */
  predicate SlotOk(s: State, sid: Sid, x: Session)
  {
    x.fate == Active <==> InSlot(s, sid) && x.status == Capturing
  }

  predicate Inside(p: StopPhase) { p.InOnce? || p.Waiting? || p.Finishing? }

  /** The Stop is putting its summary together, or has returned it. */
  predicate Past(p: StopPhase) { p.Building? || p.Returned? }

  /** It has read the stop time. */
  predicate Timed(p: StopPhase) { p.Returned? || (p.Building? && p.read >= 2) }

  predicate StopOk(o: StopOp, x: Session)
  {
    && (Inside(o.phase) ==> x.once == Busy)
    && (o.phase.Waiting? || o.phase.Finishing? ==> x.cancelled)
    && (o.phase.SawStopped? || o.phase.Summing? || Past(o.phase) ==> x.status == Stopped)
    && (Past(o.phase) ==> x.stopSeen)
    && (o.phase.Building? ==> o.phase.read <= 3)
    && (Timed(o.phase) ==> 1 <= o.phase.sum.stamp <= x.stamps)
  }

  predicate ShutOk(s: State, o: ShutOp)
  {
    !InSlot(s, o.sid)
  }

  ghost predicate SessionsOk(s: State)
  {
    forall sid :: sid in s.sessions ==> LocalOk(s.sessions[sid]) && SlotOk(s, sid, s.sessions[sid])
  }

  ghost predicate StopsOk(s: State)
    requires Wellformed(s)
  {
    forall op :: op in s.stops ==> StopOk(s.stops[op], s.sessions[s.stops[op].sid])
  }

  /** At most one operation is inside the once block of a session, and there is one while it is busy. */
  ghost predicate OnceOk(s: State)
  {
    && (forall p, q :: p in s.stops && q in s.stops && Inside(s.stops[p].phase) && Inside(s.stops[q].phase) ==> s.stops[p].sid == s.stops[q].sid ==> p == q)
    && (forall sid :: sid in s.sessions && s.sessions[sid].once == Busy ==> SomeoneInside(s, sid))
  }

  ghost predicate SomeoneInside(s: State, sid: Sid)
  {
    exists p :: p in s.stops && s.stops[p].sid == sid && Inside(s.stops[p].phase)
  }

  ghost predicate Basic(s: State)
  {
    && Wellformed(s) && SessionsOk(s) && StopsOk(s) && OnceOk(s)
    && (forall op :: op in s.shuts ==> ShutOk(s, s.shuts[op]))
  }

  /** What a session may do to be invisible to the stop and shutdown operations around it. */
  predicate Quiet(x: Session, y: Session)
  {
    Grows(x, y) && y.once == x.once
  }

  lemma OneSession(s: State, t: State, sid: Sid, y: Session)
    requires Basic(s) && sid in s.sessions
    requires t.sessions == s.sessions[sid := y] && t.stops == s.stops && t.shuts == s.shuts
    requires t.slot == s.slot || (InSlot(s, sid) && t.slot == None)
    requires LocalOk(y) && SlotOk(t, sid, y) && Quiet(s.sessions[sid], y)
    ensures Basic(t)
  {
    forall q | q in t.sessions ensures LocalOk(t.sessions[q]) && SlotOk(t, q, t.sessions[q]) {
      if q != sid { assert SlotOk(s, q, s.sessions[q]) && LocalOk(s.sessions[q]); }
    }
    forall op | op in t.stops ensures StopOk(t.stops[op], t.sessions[t.stops[op].sid]) {
      assert StopOk(s.stops[op], s.sessions[s.stops[op].sid]);
    }
    forall q | q in t.sessions && t.sessions[q].once == Busy ensures SomeoneInside(t, q) { assert SomeoneInside(s, q); }
    forall op | op in t.shuts ensures ShutOk(t, t.shuts[op]) { assert ShutOk(s, s.shuts[op]); }
  }

  lemma BasicClaim(s: State, sid: Sid)
    requires Basic(s) && CanClaim(s, sid)
    ensures Basic(DoClaim(s, sid))
  {
    var t := DoClaim(s, sid);
    forall q | q in t.sessions ensures LocalOk(t.sessions[q]) && SlotOk(t, q, t.sessions[q]) {
      if q != sid { assert SlotOk(s, q, s.sessions[q]) && LocalOk(s.sessions[q]); }
    }
    forall op | op in t.stops ensures StopOk(t.stops[op], t.sessions[t.stops[op].sid]) {
      assert StopOk(s.stops[op], s.sessions[s.stops[op].sid]);
    }
    forall q | q in t.sessions && t.sessions[q].once == Busy ensures SomeoneInside(t, q) { assert SomeoneInside(s, q); }
    forall op | op in t.shuts ensures ShutOk(t, t.shuts[op]) { assert ShutOk(s, s.shuts[op]); }
  }

  lemma BasicStart(s: State, sid: Sid, a: StartAct)
    requires Basic(s) && CanStart(s, sid, a)
    ensures Basic(DoStart(s, sid, a))
  {
    StartOne(s, sid, a);
    OneSession(s, DoStart(s, sid, a), sid, StartSession(s.sessions[sid], a, InSlot(s, sid)));
  }

  lemma StartOne(s: State, sid: Sid, a: StartAct)
    requires Basic(s) && CanStart(s, sid, a)
    ensures var x := s.sessions[sid]; var y := StartSession(x, a, InSlot(s, sid));
            LocalOk(y) && SlotOk(DoStart(s, sid, a), sid, y) && Quiet(x, y)
  {
    var x := s.sessions[sid];
    assert LocalOk(x) && SlotOk(s, sid, x);
    StartLocal(x, a, InSlot(s, sid));
  }

  lemma BasicLaunch(s: State, sid: Sid, a: LaunchAct)
    requires Basic(s) && CanLaunch(s, sid, a)
    ensures Basic(DoLaunch(s, sid, a))
  {
    LaunchOne(s, sid, a);
    OneSession(s, DoLaunch(s, sid, a), sid, LaunchSession(s.sessions[sid], a, Cancelled(s, s.sessions[sid]), InSlot(s, sid)));
  }

  lemma LaunchOne(s: State, sid: Sid, a: LaunchAct)
    requires Basic(s) && CanLaunch(s, sid, a)
    ensures var x := s.sessions[sid]; var y := LaunchSession(x, a, Cancelled(s, x), InSlot(s, sid));
            LocalOk(y) && SlotOk(DoLaunch(s, sid, a), sid, y) && Quiet(x, y)
  {
    var x := s.sessions[sid];
    assert LocalOk(x) && SlotOk(s, sid, x);
    LaunchLocal(x, a, Cancelled(s, x), InSlot(s, sid));
  }

  /** A stop operation and its session move together. */
  lemma OneStop(s: State, t: State, op: Op, o: StopOp, y: Session)
    requires Basic(s) && o.sid in s.sessions && (op in s.stops ==> s.stops[op].sid == o.sid)
    requires t.sessions == s.sessions[o.sid := y] && t.slot == s.slot && t.stops == s.stops[op := o] && t.shuts == s.shuts
    requires LocalOk(y) && SlotOk(t, o.sid, y) && Grows(s.sessions[o.sid], y) && StopOk(o, y)
    requires s.sessions[o.sid].once == Busy ==> y.once == Busy || (op in s.stops && Inside(s.stops[op].phase))
    requires OnceOk(t)
    ensures Basic(t)
  {
    forall q | q in t.sessions ensures LocalOk(t.sessions[q]) && SlotOk(t, q, t.sessions[q]) {
      if q != o.sid { assert SlotOk(s, q, s.sessions[q]) && LocalOk(s.sessions[q]); }
    }
    forall p | p in t.stops ensures StopOk(t.stops[p], t.sessions[t.stops[p].sid]) {
      if p != op { assert StopOk(s.stops[p], s.sessions[s.stops[p].sid]); }
    }
    forall p | p in t.shuts ensures ShutOk(t, t.shuts[p]) { assert ShutOk(s, s.shuts[p]); }
  }

  lemma OnceStopRead(s: State, op: Op, sid: Sid)
    requires Basic(s) && CanStopRead(s, op, sid)
    ensures OnceOk(DoStopRead(s, op, sid))
  {
    var t := DoStopRead(s, op, sid);
    forall q | q in t.sessions && t.sessions[q].once == Busy ensures SomeoneInside(t, q) {
      assert SomeoneInside(s, q);
      var p :| p in s.stops && s.stops[p].sid == q && Inside(s.stops[p].phase);
      assert p in t.stops && t.stops[p] == s.stops[p];
    }
  }

  lemma BasicStopRead(s: State, op: Op, sid: Sid)
    requires Basic(s) && CanStopRead(s, op, sid)
    ensures Basic(DoStopRead(s, op, sid))
  {
    var t, x := DoStopRead(s, op, sid), s.sessions[sid];
    assert LocalOk(x) && SlotOk(s, sid, x);
    assert s.sessions == s.sessions[sid := x];
    OnceStopRead(s, op, sid);
    OneStop(s, t, op, t.stops[op], x);
  }

  lemma OnceStop(s: State, op: Op, a: StopAct)
    requires Basic(s) && CanStop(s, op, a)
    ensures OnceOk(DoStop(s, op, a))
  {
    var t, sid := DoStop(s, op, a), s.stops[op].sid;
    assert StopOk(s.stops[op], s.sessions[sid]);
    forall p | p in s.stops && p != op && s.stops[p].sid == sid && Inside(s.stops[p].phase) ensures !Inside(t.stops[op].phase) {
      assert StopOk(s.stops[p], s.sessions[sid]);
    }
    forall q | q in t.sessions && t.sessions[q].once == Busy ensures SomeoneInside(t, q) {
      if q == sid && Inside(t.stops[op].phase) {
        assert op in t.stops && t.stops[op].sid == q;
      } else {
        assert SomeoneInside(s, q);
        var p :| p in s.stops && s.stops[p].sid == q && Inside(s.stops[p].phase);
        assert p in t.stops && (p == op || t.stops[p] == s.stops[p]);
      }
    }
  }

  lemma BasicStop(s: State, op: Op, a: StopAct)
    requires Basic(s) && CanStop(s, op, a)
    ensures Basic(DoStop(s, op, a))
  {
    var t, o := DoStop(s, op, a), s.stops[op];
    StopOne(s, op, a);
    OnceStop(s, op, a);
    OneStop(s, t, op, t.stops[op], StopSession(s.sessions[o.sid], o.phase, a));
  }

  lemma StopOne(s: State, op: Op, a: StopAct)
    requires Basic(s) && CanStop(s, op, a)
    ensures var o := s.stops[op]; var x := s.sessions[o.sid]; var y := StopSession(x, o.phase, a); var t := DoStop(s, op, a);
            && LocalOk(y) && SlotOk(t, o.sid, y) && Grows(x, y) && StopOk(t.stops[op], y)
            && (x.once == Busy ==> y.once == Busy || Inside(o.phase))
  {
    var o := s.stops[op];
    var x := s.sessions[o.sid];
    assert LocalOk(x) && SlotOk(s, o.sid, x) && StopOk(o, x);
    StopLocal(x, o.phase, a);
    StopMoved(x, o, a);
  }

  lemma StopMoved(x: Session, o: StopOp, a: StopAct)
    requires LocalOk(x) && StopOk(o, x) && StopFits(x, o.phase, a)
    ensures var y := StopSession(x, o.phase, a);
            StopOk(StopOp(o.sid, StopNext(x, o.phase, a, o.health), o.health), y) && (x.once == Busy ==> y.once == Busy || Inside(o.phase))
  {
    match a
    case EnterOnce =>
    case StopCancel =>
    case StopDone =>
    case StopExpired =>
    case StopFinish =>
    case StopSwap =>
    case ReadTmp =>
    case ReadTime =>
    case ReadError =>
    case ReadCounters =>
  }

  /** A shutdown operation and its session move together. */
  lemma OneShut(s: State, t: State, op: Op, o: ShutOp, y: Session)
    requires Basic(s) && o.sid in s.sessions
    requires t.sessions == s.sessions[o.sid := y] && t.stops == s.stops && t.shuts == s.shuts[op := o]
    requires t.slot == s.slot || (InSlot(s, o.sid) && t.slot == None)
    requires LocalOk(y) && SlotOk(t, o.sid, y) && Quiet(s.sessions[o.sid], y) && !InSlot(t, o.sid)
    ensures Basic(t)
  {
    var u := t.(shuts := s.shuts);
    OneSession(s, u, o.sid, y);
    OneMoreShut(u, op, o);
    assert t == u.(shuts := u.shuts[op := o]);
  }

  /** What no step of a Shutdown's own can touch. */
  lemma SessionsFrame(s: State, t: State)
    requires SessionsOk(s) && t.sessions == s.sessions && t.slot == s.slot
    ensures SessionsOk(t)
  {
    forall q | q in t.sessions ensures LocalOk(t.sessions[q]) && SlotOk(t, q, t.sessions[q]) { assert SlotOk(s, q, s.sessions[q]); }
  }

  lemma OnceFrame(s: State, t: State)
    requires OnceOk(s) && t.sessions == s.sessions && t.stops == s.stops
    ensures OnceOk(t)
  {
    forall q | q in t.sessions && t.sessions[q].once == Busy ensures SomeoneInside(t, q) { assert SomeoneInside(s, q); }
  }

  lemma OneMoreShut(s: State, op: Op, o: ShutOp)
    requires Basic(s) && o.sid in s.sessions && !InSlot(s, o.sid)
    ensures Basic(s.(shuts := s.shuts[op := o]))
  {
    var t := s.(shuts := s.shuts[op := o]);
    SessionsFrame(s, t);
    OnceFrame(s, t);
    forall p | p in t.shuts ensures ShutOk(t, t.shuts[p]) {
      if p != op { assert ShutOk(s, s.shuts[p]); }
    }
  }

  lemma BasicTake(s: State, op: Op)
    requires Basic(s) && CanTake(s, op)
    ensures Basic(DoTake(s, op))
  {
    var sid, t := s.slot.value, DoTake(s, op);
    assert LocalOk(s.sessions[sid]) && SlotOk(s, sid, s.sessions[sid]);
    OneShut(s, t, op, t.shuts[op], t.sessions[sid]);
  }

  lemma BasicShut(s: State, op: Op, a: ShutAct)
    requires Basic(s) && CanShut(s, op, a)
    ensures Basic(DoShut(s, op, a))
  {
    var t, o := DoShut(s, op, a), s.shuts[op];
    var x := s.sessions[o.sid];
    assert LocalOk(x) && SlotOk(s, o.sid, x) && ShutOk(s, o);
    ShutLocal(x, o.phase, a);
    OneShut(s, t, op, t.shuts[op], ShutSession(x, o.phase, a));
  }

  lemma BasicStep(s: State, step: Step)
    requires Basic(s) && Enabled(s, step)
    ensures Basic(Apply(s, step))
  {
    match step
    case Claim(sid) => BasicClaim(s, sid);
    case StartMoves(sid, a) => BasicStart(s, sid, a);
    case LaunchMoves(sid, a) => BasicLaunch(s, sid, a);
    case StopRead(op, sid) => BasicStopRead(s, op, sid);
    case StopMoves(op, a) => BasicStop(s, op, a);
    case ShutTake(op) => BasicTake(s, op);
    case ShutMoves(op, a) => BasicShut(s, op, a);
    case RootCancel => RootBasic(s);
  }

  lemma RootBasic(s: State)
    requires Basic(s)
    ensures Basic(s.(rootCancelled := true))
  {
    var t := s.(rootCancelled := true);
    forall q | q in t.sessions ensures LocalOk(t.sessions[q]) && SlotOk(t, q, t.sessions[q]) { assert SlotOk(s, q, s.sessions[q]); }
    forall q | q in t.sessions && t.sessions[q].once == Busy ensures SomeoneInside(t, q) { assert SomeoneInside(s, q); }
    forall op | op in t.shuts ensures ShutOk(t, t.shuts[op]) { assert ShutOk(s, s.shuts[op]); }
  }
}
