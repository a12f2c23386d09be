/** What a server that was a backup holds once it has been promoted, in every run. */
module Failover {
  import opened Types
  import Table
  import Checkpoint
  import Storage
  import opened ServerSpec
  import opened ServerRuns

  // ---------- which requests the table reflects ----------

  /** The table that the last prune pass with a checkpoint left, or the starting table, and the
      requests accepted into the NORMAL queue after it. */
  datatype Hist = Hist(base: Db, since: seq<Request>)

  function Track(h: Hist, s: Srv, e: Event): Hist {
    if s.aborted then h
    else if e.Recv? && !IsControl(e.req) && Admits(s, e.req) then h.(since := h.since + [e.req])
    else if e.Normal? && s.prune && HasCheckpoint(s.nrl) then Hist(Imported(s.db, LastImage(s.nrl)), [])
    else h
  }

  function History(h: Hist, s: Srv, es: seq<Event>): Hist
    decreases |es|
  {
    if es == [] then h else History(Track(h, s, es[0]), Step(s, es[0]), es[1..])
  }

  /** The queue holds the newest of the requests since, in order, and the table is the base
      after the others. */
  ghost predicate Reflects(h: Hist, s: Srv) {
    && |s.nrl| <= |h.since|
    && Reqs(s.nrl) == h.since[|h.since| - |s.nrl|..]
    && s.db == Storage.HandleAll(h.base, h.since[..|h.since| - |s.nrl|])
  }

  lemma ReflectsAccepted(h: Hist, s: Srv, c: Ctx)
    requires Reflects(h, s)
    ensures Reflects(h.(since := h.since + [c.req]), s.(nrl := s.nrl + [c]))
  {
    var k := |h.since| - |s.nrl|;
    assert (h.since + [c.req])[..k] == h.since[..k];
    assert (h.since + [c.req])[k..] == h.since[k..] + [c.req];
  }

  lemma ReflectsExecuted(h: Hist, s: Srv, t: Srv)
    requires Reflects(h, s) && s.nrl != []
    requires t.nrl == s.nrl[1..] && t.db == Storage.Handle(s.db, s.nrl[0].req)
    ensures Reflects(h, t)
  {
    var k := |h.since| - |s.nrl|;
    assert h.since[k] == Reqs(s.nrl)[0];
    assert h.since[..k + 1] == h.since[..k] + [h.since[k]];
    Storage.HandleAllSnoc(h.base, h.since[..k], h.since[k]);
    assert Reqs(t.nrl) == Reqs(s.nrl)[1..];
  }

  lemma ReflectsSame(h: Hist, s: Srv, t: Srv)
    requires Reflects(h, s) && t.nrl == s.nrl && t.db == s.db
    ensures Reflects(h, t)
  {
  }

  lemma ReflectsFresh(base: Db, t: Srv)
    requires t.nrl == [] && t.db == base
    ensures Reflects(Hist(base, []), t)
  {
  }

  lemma ReflectsStep(h: Hist, s: Srv, e: Event)
    requires Reflects(h, s) && PruneSound(s) && CheckpointFits(s, e)
    ensures Reflects(Track(h, s, e), Step(s, e))
  {
    hide Reflects, NormalStep, Imported, LastImage, HasCheckpoint, SameFrame;
    if s.aborted {
    } else if e.Recv? {
      var c := Ctx(e.req, IsBackup(s));
      var t := Step(s, e);
      if !IsControl(e.req) && Admits(s, e.req) {
        ReflectsAccepted(h, s, c);
        ReflectsSame(Track(h, s, e), s.(nrl := s.nrl + [c]), t);
      } else {
        ReflectsSame(h, s, t);
      }
    } else if e.Normal? {
      ReflectsTurn(h, s);
    } else {
      QuietStep(s, e);
      ReflectsSame(h, s, Step(s, e));
    }
  }

  lemma ReflectsTurn(h: Hist, s: Srv)
    requires Reflects(h, s) && PruneSound(s) && !s.aborted
    ensures Reflects(Track(h, s, Normal), NormalStep(s))
  {
    hide Reflects, NormalStep, Imported, LastImage, SameFrame;
    if s.prune {
      PruneTurn(s);
      ReflectsFresh(Imported(s.db, LastImage(s.nrl)), NormalStep(s));
    } else {
      PlainTurn(s);
      if s.nrl == [] || IsBackup(s) || s.state == Quiesce {
        ReflectsSame(h, s, NormalStep(s));
      } else {
        ReflectsExecuted(h, s, NormalStep(s));
      }
    }
  }

  /** In every run from an empty NORMAL queue in which no checkpoint is refused: the table plus
      the requests still queued is the last executed checkpoint image, or the starting table,
      followed in order by exactly the requests accepted after the prune pass that executed it. */
  lemma {:induction false} FailoverRun(h: Hist, s: Srv, es: seq<Event>)
    requires Reflects(h, s) && PruneSound(s) && NoCheckpointRefused(s, es)
    ensures Reflects(History(h, s, es), Run(s, es))
    ensures PruneSound(Run(s, es))
    decreases |es|
  {
    if es != [] {
      ReflectsStep(h, s, es[0]);
      PruneSoundStep(s, es[0]);
      hide Reflects, PruneSound, Step, Track;
      FailoverRun(Track(h, s, es[0]), Step(s, es[0]), es[1..]);
    }
  }

  /** Once drained, the table is exactly that. */
  lemma FailoverState(s: Srv, es: seq<Event>)
    requires s.nrl == [] && !s.prune && NoCheckpointRefused(s, es)
    ensures var h := History(Hist(s.db, []), s, es);
      Run(s, es).nrl == [] ==> Run(s, es).db == Storage.HandleAll(h.base, h.since)
  {
    var h := History(Hist(s.db, []), s, es);
    hide Reflects, History, Run;
    ReflectsFresh(s.db, s);
    FailoverRun(Hist(s.db, []), s, es);
    if Run(s, es).nrl == [] {
      ReflectsDrained(h, Run(s, es));
    }
  }

  lemma ReflectsDrained(h: Hist, s: Srv)
    requires Reflects(h, s) && s.nrl == []
    ensures s.db == Storage.HandleAll(h.base, h.since)
  {
    assert h.since[..|h.since|] == h.since;
  }

  /** Hence a drained new primary agrees with the primary it replaces whenever its last image is
      that primary's export at the cut and the requests accepted since are those the primary
      executed after the cut. */
  lemma NewPrimaryHoldsOldState(s: Srv, es: seq<Event>, cut: Table.Table, num: Status -> int, after: seq<Request>)
    requires s.nrl == [] && !s.prune && NoCheckpointRefused(s, es) && Run(s, es).nrl == []
    requires Table.Wf(cut) && Checkpoint.AllFit(cut.chains)
    requires var h := History(Hist(s.db, []), s, es);
      h.base == Checkpoint.Import(|cut.chains|, Checkpoint.Export(cut, num)) && h.since == after
    ensures Storage.SameUpToStatus(Run(s, es).db, Storage.HandleAll(cut, after))
  {
    FailoverState(s, es);
    Storage.ReplicaCatchesUp(cut, num, after);
  }

  // ---------- the order of promotion ----------

  /** All backlog entries before all others. */
  ghost predicate InOrder(q: seq<Ctx>) {
    forall i, j :: 0 <= i < j < |q| && q[j].backlog ==> q[i].backlog
  }

  ghost predicate NoBacklog(q: seq<Ctx>) {
    forall i :: 0 <= i < |q| ==> !q[i].backlog
  }

  ghost predicate AllBacklog(q: seq<Ctx>) {
    forall i :: 0 <= i < |q| ==> q[i].backlog
  }

  /** A passive server that runs and was never in quiescence. */
  predicate PassiveSrv(s: Srv) {
    s.mode == PassiveRep && s.prev == UnknownState && !s.aborted
  }

  /** The queue is in order, a backup has only backlog and a primary has none. */
  ghost predicate Promotion(s: Srv) {
    && PassiveSrv(s)
    && InOrder(s.nrl)
    && (s.state == PassiveBackup ==> AllBacklog(s.nrl))
    && (s.state == PassivePrimary ==> NoBacklog(s.nrl))
  }

  lemma PromotionExecutes(s: Srv, c: Ctx)
    requires Promotion(s.(nrl := [c] + s.nrl)) && s.state != PassiveBackup
    ensures Promotion(Execute(s, c))
  {
    var q := [c] + s.nrl;
    assert forall i :: 0 <= i < |s.nrl| ==> s.nrl[i] == q[i + 1];
    assert q[0] == c;
  }

  /** Each turn of the prune loop keeps the order, also one that promotes in the middle. */
  lemma PromotionDrainOne(s: Srv)
    requires Promotion(s) && s.nrl != []
    ensures Promotion(DrainOne(s))
  {
    hide Storage.Handle;
    var c, t := s.nrl[0], s.(nrl := s.nrl[1..]);
    assert forall i :: 0 <= i < |t.nrl| ==> t.nrl[i] == s.nrl[i + 1];
    assert s.nrl == [c] + t.nrl;
    if c.req.MsgChkPt? && s.state != PassiveBackup {
      PromotionExecutes(t.(prune := false), c);
    }
  }

  lemma {:induction false} PromotionDrain(s: Srv)
    requires Promotion(s)
    ensures Promotion(Drain(s))
    decreases |s.nrl|
  {
    hide DrainOne, Promotion;
    if s.nrl != [] {
      PromotionDrainOne(s);
      PromotionDrain(DrainOne(s));
    }
  }

  lemma PromotionTurn(s: Srv)
    requires Promotion(s)
    ensures Promotion(NormalStep(s))
  {
    hide Storage.Handle, Drain;
    PromotionDrain(s);
    var t := if s.prune then Drain(s) else s;
    if t.prune || !IsBackup(t) {
      var u := if t.state == PassivePreprimary && t.nrl == [] then SetState(t, PassivePrimary) else t;
      if u.nrl != [] && u.state != Quiesce {
        PrunePass(s);
        assert u.nrl == [u.nrl[0]] + u.nrl[1..];
        PromotionExecutes(u.(nrl := u.nrl[1..]), u.nrl[0]);
      }
    }
  }

  /** A role that a queue in order admits: BACKUP when all of it is backlog, PRIMARY when none is.
      Both come only by command; the manager itself promotes through PREPRIMARY. */
  ghost predicate Admissible(state: State, q: seq<Ctx>) {
    && (state == PassiveBackup ==> AllBacklog(q))
    && (state == PassivePrimary ==> NoBacklog(q))
  }

  /** If e executes a role change, the role is one that the queue admits. */
  ghost predicate RoleFits(s: Srv, e: Event) {
    e.Control? && s.ctrl != [] && s.ctrl[0].req.MsgRepMgr? ==> Admissible(s.ctrl[0].req.msg.state, s.nrl)
  }

  ghost predicate RolesFit(s: Srv, es: seq<Event>)
    decreases |es|
  {
    es != [] ==> RoleFits(s, es[0]) && RolesFit(Step(s, es[0]), es[1..])
  }

  /** A control request aborts a passive server, or gives it the commanded role. */
  lemma PassiveControl(s: Srv, req: Request)
    requires PassiveSrv(s)
    ensures var t := ExecuteControl(s, req);
      !t.aborted ==> PassiveSrv(t) && t.state == if req.MsgRepMgr? then req.msg.state else s.state
  {
  }

  /** Executing a role change that does not abort keeps the order exactly when the queue admits the
      role: a direct PRIMARY breaks it whenever backlog waits, a BACKUP whenever anything else does. */
  lemma RoleChangeKeepsOrderIff(s: Srv, msg: RepMgrMsg)
    requires Promotion(s)
    ensures var t := ExecuteControl(s, MsgRepMgr(msg));
      !t.aborted ==> (Promotion(t) <==> Admissible(msg.state, s.nrl))
  {
    PassiveControl(s, MsgRepMgr(msg));
    ControlQuiet(s, MsgRepMgr(msg));
    hide ExecuteControl;
  }

  lemma PromotionReceive(s: Srv, req: Request)
    requires Promotion(s)
    ensures Promotion(Receive(s, req))
  {
  }

  lemma PromotionControl(s: Srv)
    requires Promotion(s) && s.ctrl != []
    ensures var t := ControlStep(s); !t.aborted ==> (Promotion(t) <==> RoleFits(s, Control))
  {
    var u, req := s.(ctrl := s.ctrl[1..]), s.ctrl[0].req;
    if req.MsgRepMgr? {
      RoleChangeKeepsOrderIff(u, req.msg);
      hide ExecuteControl;
    } else {
      hide HandleRepMsg;
    }
  }

  /** A step that does not abort keeps the order exactly when it executes no inadmissible role
      change. */
  lemma PromotionStepIff(s: Srv, e: Event)
    requires Promotion(s)
    ensures !Step(s, e).aborted ==> (Promotion(Step(s, e)) <==> RoleFits(s, e))
  {
    match e
    case Normal => PromotionTurn(s); hide Promotion, NormalStep;
    case Recv(req) => PromotionReceive(s, req); hide Promotion, Receive;
    case Control =>
      if s.ctrl != [] {
        PromotionControl(s);
      }
      hide Promotion, ControlStep;
    case QuiesceStart =>
    case QuiesceStop =>
    case Tick =>
  }

  /** In every run from a backup with an empty queue in which every role change executed is
      admissible: the queue is all backlog followed by all other requests, and a server is primary
      only when no backlog is left waiting. */
  lemma {:induction false} PromotionOrder(s: Srv, es: seq<Event>)
    requires Promotion(s) && RolesFit(s, es)
    ensures !Run(s, es).aborted ==> Promotion(Run(s, es))
    decreases |es|
  {
    if es != [] {
      PromotionStepIff(s, es[0]);
      hide Step, Promotion, RoleFits;
      if Step(s, es[0]).aborted {
        AbortedStays(Step(s, es[0]), es[1..]);
      } else {
        PromotionOrder(Step(s, es[0]), es[1..]);
      }
    }
  }

  // ---------- commands ----------

  /** Every role change waiting or arriving is to one of the given roles. */
  ghost predicate OnlyRoles(s: Srv, es: seq<Event>, roles: set<State>) {
    && (forall i :: 0 <= i < |s.ctrl| && s.ctrl[i].req.MsgRepMgr? ==> s.ctrl[i].req.msg.state in roles)
    && (forall i :: 0 <= i < |es| && es[i].Recv? && es[i].req.MsgRepMgr? ==> es[i].req.msg.state in roles)
  }

  lemma StillOnlyRoles(s: Srv, e: Event, es: seq<Event>, roles: set<State>)
    requires OnlyRoles(s, [e] + es, roles)
    ensures OnlyRoles(s, [e], roles) && OnlyRoles(Step(s, e), es, roles)
  {
    var all := [e] + es;
    assert all[0] == e && forall i :: 0 <= i < |es| ==> es[i] == all[i + 1];
    ControlAfter(s, e);
    hide Step;
  }

  /** The control queue loses its head or gains what arrives. */
  lemma ControlAfter(s: Srv, e: Event)
    ensures var t := Step(s, e);
      t.ctrl == s.ctrl || (s.ctrl != [] && t.ctrl == s.ctrl[1..])
      || (e.Recv? && t.ctrl == s.ctrl + [Ctx(e.req, IsBackup(s))])
  {
    hide NormalStep, SetState, ExecuteControl;
    match e
    case Normal => NormalTurnShape(s);
    case Control =>
      if s.ctrl != [] {
        ControlQuiet(s.(ctrl := s.ctrl[1..]), s.ctrl[0].req);
      }
    case QuiesceStart => SetStateQuiet(s.(prev := s.state), Quiesce);
    case QuiesceStop => SetStateQuiet(s, s.prev);
    case _ =>
  }

  /** A server that is only ever promoted, through PREPRIMARY, gets admissible roles only. */
  lemma {:induction false} PromotionsFit(s: Srv, es: seq<Event>)
    requires OnlyRoles(s, es, {PassivePreprimary})
    ensures RolesFit(s, es)
    decreases |es|
  {
    if es != [] {
      assert es == [es[0]] + es[1..];
      StillOnlyRoles(s, es[0], es[1..], {PassivePreprimary});
      hide Step;
      PromotionsFit(Step(s, es[0]), es[1..]);
    }
  }

  /** All states but BACKUP. */
  const NOT_BACKUP: set<State> :=
    {UnknownState, Quiesce, ActiveRunning, ActiveRecover, PassivePrimary, PassivePreprimary}

  lemma BackupStays(h: Hist, s: Srv, e: Event)
    requires PassiveSrv(s) && OnlyRoles(s, [e], NOT_BACKUP) && PruneSound(s)
    requires IsBackup(s) ==> |h.since| == |s.nrl|
    ensures var t := Step(s, e); !t.aborted ==> PassiveSrv(t)
    ensures var t := Step(s, e); !t.aborted && IsBackup(t) ==> IsBackup(s) && |Track(h, s, e).since| == |t.nrl|
  {
    hide NormalStep, ExecuteControl;
    match e
    case Normal =>
      NormalTurnShape(s);
      if s.prune { PruneTurn(s); } else { PlainTurn(s); }
    case Control =>
      if s.ctrl != [] {
        var t := s.(ctrl := s.ctrl[1..]);
        ControlQuiet(t, s.ctrl[0].req);
        PassiveControl(t, s.ctrl[0].req);
      }
    case _ =>
  }

  lemma NothingExecuted(h: Hist, s: Srv)
    requires Reflects(h, s) && |h.since| == |s.nrl|
    ensures s.db == h.base && h.since == Reqs(s.nrl)
  {
    assert h.since[..0] == [] && h.since[0..] == h.since;
  }

  /** As long as it has not been promoted, a server that is not made BACKUP again has the last
      executed image itself for its table: every request accepted since is still queued. */
  lemma {:induction false} BackupHoldsImage(h: Hist, s: Srv, es: seq<Event>)
    requires PassiveSrv(s) && OnlyRoles(s, es, NOT_BACKUP)
    requires Reflects(h, s) && PruneSound(s) && NoCheckpointRefused(s, es)
    requires IsBackup(s) ==> |h.since| == |s.nrl|
    ensures var t := Run(s, es);
      !t.aborted && IsBackup(t) ==>
        t.db == History(h, s, es).base && History(h, s, es).since == Reqs(t.nrl)
    decreases |es|
  {
    hide Step, PassiveSrv, OnlyRoles, Reflects, PruneSound, Track, Reqs;
    if es == [] {
      if IsBackup(s) {
        NothingExecuted(h, s);
      }
    } else {
      assert es == [es[0]] + es[1..];
      StillOnlyRoles(s, es[0], es[1..], NOT_BACKUP);
      BackupStays(h, s, es[0]);
      ReflectsStep(h, s, es[0]);
      PruneSoundStep(s, es[0]);
      if Step(s, es[0]).aborted {
        AbortedStays(Step(s, es[0]), es[1..]);
      } else {
        BackupHoldsImage(Track(h, s, es[0]), Step(s, es[0]), es[1..]);
      }
    }
  }
}
