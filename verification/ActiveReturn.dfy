/** When a replica of the active cluster comes back to ACTIVE_RUNNING: with commands in flight and
    waiting in control queues, under every interleaving, and with the exact conditions. */
module ActiveReturn {
  import opened Types
  import opened ManagerSpec
  import S = ServerSpec
  import opened Cluster
  import opened ActiveDelivery
  import opened ActiveRuns

  // ---------- the role a server ends in ----------

  /** The role a server has once all role changes waiting in its control queue are taken. */
  function LastRole(s: S.Srv): State {
    var roles := Roles(s.ctrl);
    if roles == [] then s.state else roles[|roles| - 1]
  }

  predicate Returned(x: Site) {
    x.srv.Some? && x.srv.value.mode == ActiveRep && x.srv.value.state == ActiveRunning
  }

  lemma TurnKeepsLastRole(s: S.Srv)
    requires ActiveServer(s) && s.ctrl != []
    ensures LastRole(S.ControlStep(s)) == LastRole(s)
    ensures RoleWaits(S.ControlStep(s)) ==> RoleWaits(s)
  {
    ControlTurn(s);
    var t := S.ControlStep(s);
    hide S.ControlStep, ActiveServer, Roles;
    if s.ctrl[0].req.MsgRepMgr? {
      var left, roles := Roles(t.ctrl), Roles(s.ctrl);
      assert roles == [t.state] + left;
      assert roles[|roles| - 1] == if left == [] then t.state else left[|left| - 1];
    }
  }

  lemma StepKeepsLastRole(s: S.Srv, e: S.Event)
    requires ActiveServer(s) && OwnEvent(Local(e))
    ensures var t := S.Step(s, e);
      && ActiveServer(t) && LastRole(t) == LastRole(s) && t.prev == s.prev && t.ctrlLimit == s.ctrlLimit
      && (s.mode == ActiveRep ==> t.mode == ActiveRep) && (RoleWaits(t) ==> RoleWaits(s))
      && (s.state != Quiesce ==> t.state != Quiesce)
  {
    if e.Control? {
      if s.ctrl != [] {
        ControlTurn(s);
        TurnKeepsLastRole(s);
        if s.ctrl[0].req.MsgRepMgr? {
          TakenRole(s);
        }
        hide S.ControlStep, ActiveServer, Roles;
      }
    } else {
      IdleStep(s, e);
      hide S.Step, ActiveServer, Roles;
    }
  }

  /** With no command under way, every interleaving leaves the server in its last role. */
  lemma {:induction false} EndsInLastRole(x: Site, es: seq<SiteEvent>, cfg: Config)
    requires cfg.buckets > 0 && Working(es) && x.chan == [] && x.srv.Some? && ActiveServer(x.srv.value)
    ensures var y := SiteRun(x, es, cfg);
      && y.chan == [] && y.srv.Some? && ActiveServer(y.srv.value)
      && LastRole(y.srv.value) == LastRole(x.srv.value)
    decreases |es|
  {
    if es != [] {
      if es[0].Local? {
        StepKeepsLastRole(x.srv.value, es[0].e);
        AliveServer(S.Step(x.srv.value, es[0].e));
      }
      hide S.Step, ActiveServer, LastRole;
      EndsInLastRole(SiteStep(x, es[0], cfg), es[1..], cfg);
    }
  }

  lemma AliveServer(s: S.Srv)
    requires ActiveServer(s)
    ensures !s.aborted
  {
  }

  lemma RunningIsActive(s: S.Srv)
    requires ActiveServer(s) && s.state == ActiveRunning
    ensures s.mode == ActiveRep
  {
  }

  // ---------- room for the closing RUNNING ----------

  /** A RUNNING order is in time: there is room for it, or the server ends in that role anyway. */
  predicate RunFits(x: Site, e: SiteEvent) {
    e.Deliver? && x.srv.Some? && x.chan != [] && RunCmd(x.chan[0]) ==>
      |x.srv.value.ctrl| < x.srv.value.ctrlLimit || LastRole(x.srv.value) == ActiveRunning
  }

  ghost predicate RunsFit(x: Site, es: seq<SiteEvent>, cfg: Config)
    requires cfg.buckets > 0
    decreases |es|
  {
    es != [] ==> RunFits(x, es[0]) && RunsFit(SiteStep(x, es[0], cfg), es[1..], cfg)
  }

  /** A role change that is admitted becomes the last role; a refused one changes nothing. */
  lemma RoleDelivered(s: S.Srv, msg: RepMgrMsg)
    requires ActiveServer(s) && ActiveMsg(msg)
    ensures var t := S.Step(s, S.Recv(MsgRepMgr(msg)));
      && ActiveServer(t) && t.mode == s.mode && t.state == s.state && t.prev == s.prev && t.ctrlLimit == s.ctrlLimit
      && LastRole(t) == (if |s.ctrl| < s.ctrlLimit then msg.state else LastRole(s))
  {
    Queued(s, MsgRepMgr(msg));
    var t := S.Step(s, S.Recv(MsgRepMgr(msg)));
    hide S.Step, ActiveServer, Roles;
    if |s.ctrl| < s.ctrlLimit {
      assert (Roles(s.ctrl) + [msg.state])[|Roles(s.ctrl)|] == msg.state;
    }
  }

  lemma ShipDelivered(s: S.Srv)
    requires ActiveServer(s)
    ensures var t := S.Step(s, S.Recv(MsgSendChkpt));
      && ActiveServer(t) && t.mode == s.mode && t.state == s.state && t.prev == s.prev && t.ctrlLimit == s.ctrlLimit
      && Roles(t.ctrl) == Roles(s.ctrl)
  {
    Queued(s, MsgSendChkpt);
    assert Roles(s.ctrl) + [] == Roles(s.ctrl);
  }

  /** A server to which only RUNNING is still under way comes back under every interleaving after
      its delivery if and only if the order was in time. */
  lemma RunningTakenIff(x: Site, cfg: Config)
    requires cfg.buckets > 0 && x.srv.Some? && ActiveServer(x.srv.value) && |x.chan| == 1 && RunCmd(x.chan[0])
    ensures (forall es :: Working(es) && AtRest(SiteRun(SiteStep(x, Deliver, cfg), es, cfg)) ==>
               Returned(SiteRun(SiteStep(x, Deliver, cfg), es, cfg)))
            <==> RunFits(x, Deliver)
  {
    var s, y := x.srv.value, SiteStep(x, Deliver, cfg);
    RoleDelivered(s, Arrived(x.chan[0].msg));
    hide S.Step, ActiveServer, LastRole, Roles;
    RestsInLastRole(y, cfg);
    hide SiteStep;
  }

  lemma RestsInLastRole(y: Site, cfg: Config)
    requires cfg.buckets > 0 && y.chan == [] && y.srv.Some? && ActiveServer(y.srv.value)
    ensures (forall es :: Working(es) && AtRest(SiteRun(y, es, cfg)) ==> Returned(SiteRun(y, es, cfg)))
            <==> LastRole(y.srv.value) == ActiveRunning
  {
    hide ActiveServer, SiteStep;
    if LastRole(y.srv.value) == ActiveRunning {
      forall es | Working(es) && AtRest(SiteRun(y, es, cfg)) ensures Returned(SiteRun(y, es, cfg)) {
        EndsInLastRole(y, es, cfg);
        RunningIsActive(SiteRun(y, es, cfg).srv.value);
      }
    } else {
      var n := |y.srv.value.ctrl|;
      DrainControl(y, cfg);
      EndsInLastRole(y, Turns(n), cfg);
      assert AtRest(SiteRun(y, Turns(n), cfg)) && !Returned(SiteRun(y, Turns(n), cfg));
    }
  }

  // ---------- one bracket ----------

  /** On its way to ACTIVE_RUNNING: past BEGIN, with ship orders, STOP and perhaps a closing RUNNING
      under way, or past them. */
  ghost predicate Aimed(s: S.Srv, chan: seq<Cmd>)
    decreases |chan|
  {
    && ActiveServer(s)
    && if chan == [] then LastRole(s) == ActiveRunning
       else if chan[0] == SendChkpt then Aimed(s, chan[1..])
       else if chan == [QuiesceStop] then
         s.mode == ActiveRep && s.prev == ActiveRunning && (RoleWaits(s) ==> LastRole(s) == ActiveRunning)
       else if |chan| == 2 && chan[0] == QuiesceStop && RunCmd(chan[1]) then
         s.mode == ActiveRep && s.prev in {ActiveRunning, ActiveRecover}
       else |chan| == 1 && RunCmd(chan[0])
  }

  lemma {:induction false} AimedSame(s: S.Srv, t: S.Srv, chan: seq<Cmd>)
    requires Aimed(s, chan) && ActiveServer(t) && LastRole(t) == LastRole(s) && t.prev == s.prev
    requires (s.mode == ActiveRep ==> t.mode == ActiveRep) && (RoleWaits(t) ==> RoleWaits(s))
    ensures Aimed(t, chan)
    decreases |chan|
  {
    hide ActiveServer, LastRole, Roles;
    if chan != [] && chan[0] == SendChkpt {
      AimedSame(s, t, chan[1..]);
    }
  }

  lemma AimedDelivered(x: Site, cfg: Config)
    requires cfg.buckets > 0 && x.srv.Some? && x.chan != [] && Aimed(x.srv.value, x.chan) && RunFits(x, Deliver)
    ensures var y := SiteStep(x, Deliver, cfg);
      y.srv.Some? && y.chan == x.chan[1..] && Aimed(y.srv.value, y.chan)
  {
    var s, cmd := x.srv.value, x.chan[0];
    match cmd
    case SendChkpt =>
      ShipDelivered(s);
      AliveServer(S.Step(s, S.Recv(MsgSendChkpt)));
      hide S.Step, ActiveServer, Roles;
      AimedSame(s, S.Step(s, S.Recv(MsgSendChkpt)), x.chan[1..]);
    case QuiesceStop =>
      Stopped(s);
      AliveServer(S.Step(s, S.QuiesceStop));
      hide S.Step, ActiveServer, Roles;
    case ChangeState(msg) =>
      RoleDelivered(s, Arrived(msg));
      AliveServer(S.Step(s, S.Recv(MsgRepMgr(Arrived(msg)))));
      hide S.Step, ActiveServer, LastRole, Roles;
  }

  lemma {:induction false} AimedReturns(x: Site, es: seq<SiteEvent>, cfg: Config)
    requires cfg.buckets > 0 && Working(es) && RunsFit(x, es, cfg)
    requires x.srv.Some? && Aimed(x.srv.value, x.chan)
    ensures AtRest(SiteRun(x, es, cfg)) ==> Returned(SiteRun(x, es, cfg))
    decreases |es|
  {
    if es == [] {
      if AtRest(x) {
        RunningIsActive(x.srv.value);
      }
    } else {
      AimedStep(x, es[0], cfg);
      hide SiteStep, Aimed, RunFits;
      AimedReturns(SiteStep(x, es[0], cfg), es[1..], cfg);
    }
  }

  lemma AimedStep(x: Site, e: SiteEvent, cfg: Config)
    requires cfg.buckets > 0 && WorkingEvent(e) && x.srv.Some? && Aimed(x.srv.value, x.chan) && RunFits(x, e)
    ensures var y := SiteStep(x, e, cfg); y.srv.Some? && Aimed(y.srv.value, y.chan)
  {
    if e.Local? {
      var s := x.srv.value;
      StepKeepsLastRole(s, e.e);
      AliveServer(S.Step(s, e.e));
      hide S.Step, ActiveServer, LastRole, Roles;
      AimedSame(s, S.Step(s, e.e), x.chan);
    } else if x.chan != [] {
      AimedDelivered(x, cfg);
    }
  }

  /** n deliveries. */
  function Deliveries(n: nat): (es: seq<SiteEvent>)
    ensures |es| == n && Working(es)
  {
    seq(n, _ => Deliver)
  }

  lemma DeliveriesStep(x: Site, n: nat, cfg: Config)
    requires cfg.buckets > 0 && n > 0
    ensures SiteRun(x, Deliveries(n), cfg) == SiteRun(SiteStep(x, Deliver, cfg), Deliveries(n - 1), cfg)
  {
    hide SiteStep;
    assert Deliveries(n)[1..] == Deliveries(n - 1);
  }

  /** A replica that is down stays down when nobody starts it. */
  lemma {:induction false} DownDelivers(x: Site, cfg: Config)
    requires cfg.buckets > 0 && x.srv.None? && Startup !in x.chan
    ensures SiteRun(x, Deliveries(|x.chan|), cfg) == Site(None, [])
    ensures RunsFit(x, Deliveries(|x.chan|), cfg)
    decreases |x.chan|
  {
    if x.chan != [] {
      DeliveriesStep(x, |x.chan|, cfg);
      assert Deliveries(|x.chan|)[1..] == Deliveries(|x.chan| - 1);
      DownDelivers(SiteStep(x, Deliver, cfg), cfg);
    }
  }

  /** Delivered without further ado, STOP restores what BEGIN noted. */
  lemma {:induction false} StopRestores(x: Site, middle: seq<Cmd>, cfg: Config)
    requires cfg.buckets > 0 && Ships(middle) && x.chan == middle + [QuiesceStop]
    requires x.srv.Some? && ActiveServer(x.srv.value) && !RoleWaits(x.srv.value)
    requires x.srv.value.mode == ActiveRep && x.srv.value.prev != UnknownState
    ensures var y := SiteRun(x, Deliveries(|middle| + 1), cfg);
      y.srv.Some? && AtRest(y) && y.srv.value.state == x.srv.value.prev
    decreases |middle|
  {
    var s, y := x.srv.value, SiteStep(x, Deliver, cfg);
    DeliveriesStep(x, |middle| + 1, cfg);
    if middle == [] {
      Stopped(s);
      AliveServer(S.Step(s, S.QuiesceStop));
      hide S.Step, ActiveServer, Roles;
      assert SiteRun(y, Deliveries(0), cfg) == y;
    } else {
      assert x.chan[0] == SendChkpt && y.chan == middle[1..] + [QuiesceStop];
      ShipDelivered(s);
      AliveServer(S.Step(s, S.Recv(MsgSendChkpt)));
      hide S.Step, ActiveServer, Roles;
      StopRestores(y, middle[1..], cfg);
    }
  }

  lemma {:induction false} AimedBefore(s: S.Srv, middle: seq<Cmd>, after: seq<Cmd>)
    requires Ships(middle) && after != [] && after[0] != SendChkpt && Aimed(s, after)
    ensures Aimed(s, middle + after)
    decreases |middle|
  {
    if middle == [] {
      assert middle + after == after;
    } else {
      assert (middle + after)[0] == SendChkpt && (middle + after)[1..] == middle[1..] + after;
      AimedBefore(s, middle[1..], after);
      IsActive(s, after);
    }
  }

  lemma IsActive(s: S.Srv, chan: seq<Cmd>)
    requires Aimed(s, chan)
    ensures ActiveServer(s)
  {
  }

  /** A replica in somebody else's recovery. When BEGIN is delivered, RUNNING being the last role it
      was sent, it comes back to ACTIVE_RUNNING under every interleaving if and only if it is in
      ACTIVE_RUNNING at that moment: a server that is still recovering has that state noted, may
      take its RUNNING before STOP comes, and is then put back. */
  lemma BystanderReturnsIff(x: Site, middle: seq<Cmd>, cfg: Config)
    requires cfg.buckets > 0 && Ships(middle) && x.chan == [QuiesceBegin] + middle + [QuiesceStop]
    requires x.srv.Some? && ActiveServer(x.srv.value) && x.srv.value.state != Quiesce
    requires LastRole(x.srv.value) == ActiveRunning
    ensures (forall es :: Working(es) && AtRest(SiteRun(SiteStep(x, Deliver, cfg), es, cfg)) ==>
               Returned(SiteRun(SiteStep(x, Deliver, cfg), es, cfg)))
            <==> x.srv.value.state == ActiveRunning
  {
    var s, y := x.srv.value, SiteStep(x, Deliver, cfg);
    Began(s);
    assert x.chan[0] == QuiesceBegin && y.chan == middle + [QuiesceStop];
    if s.state == ActiveRunning {
      AimedBefore(y.srv.value, middle, [QuiesceStop]);
      hide S.Step, ActiveServer, SiteStep, Aimed;
      forall es | Working(es) && AtRest(SiteRun(y, es, cfg)) ensures Returned(SiteRun(y, es, cfg)) {
        NoRunToFit(y, es, cfg);
        AimedReturns(y, es, cfg);
      }
    } else {
      hide S.Step, SiteStep, Roles;
      var es := StrandedRun(y, middle, cfg);
    }
  }

  /** Without role changes under way none has to fit. */
  lemma {:induction false} NoRunToFit(x: Site, es: seq<SiteEvent>, cfg: Config)
    requires cfg.buckets > 0 && forall k :: 0 <= k < |x.chan| ==> !RunCmd(x.chan[k])
    ensures RunsFit(x, es, cfg)
    decreases |es|
  {
    hide Relay;
    if es != [] {
      NoRunToFit(SiteStep(x, es[0], cfg), es[1..], cfg);
    }
  }

  /** A server whose BEGIN noted another state than ACTIVE_RUNNING, or that is gone, can come to rest
      outside ACTIVE_RUNNING: its control queue is worked off first, and STOP delivered last. */
  lemma StrandedRun(y: Site, middle: seq<Cmd>, cfg: Config) returns (es: seq<SiteEvent>)
    requires cfg.buckets > 0 && Ships(middle) && y.chan == middle + [QuiesceStop]
    requires y.srv.Some? ==>
      && ActiveServer(y.srv.value) && y.srv.value.mode == ActiveRep
      && y.srv.value.prev !in {ActiveRunning, UnknownState}
    ensures Working(es) && AtRest(SiteRun(y, es, cfg)) && !Returned(SiteRun(y, es, cfg))
  {
    hide ActiveServer, SiteStep;
    if y.srv.None? {
      assert Startup !in y.chan;
      DownDelivers(y, cfg);
      es := Deliveries(|y.chan|);
    } else {
      var n := |y.srv.value.ctrl|;
      DrainControl(y, cfg);
      ModeStays(y, n, cfg);
      var z := SiteRun(y, Turns(n), cfg);
      assert !RoleWaits(z.srv.value);
      StopRestores(z, middle, cfg);
      es := Turns(n) + Deliveries(|middle| + 1);
      RunJoin(y, Turns(n), Deliveries(|middle| + 1), cfg);
    }
  }

  lemma {:induction false} ModeStays(x: Site, n: nat, cfg: Config)
    requires cfg.buckets > 0 && x.srv.Some? && ActiveServer(x.srv.value) && x.srv.value.mode == ActiveRep
    ensures var y := SiteRun(x, Turns(n), cfg); y.srv.Some? && y.srv.value.mode == ActiveRep
    decreases n
  {
    if n > 0 {
      TurnsStep(x, n, cfg);
      StepKeepsLastRole(x.srv.value, S.Control);
      AliveServer(S.Step(x.srv.value, S.Control));
      hide S.Step, ActiveServer, LastRole;
      ModeStays(SiteStep(x, Local(S.Control), cfg), n - 1, cfg);
    }
  }

  /** The replica being recovered. When BEGIN is delivered, with STOP and the closing RUNNING under
      way, it survives and, if that RUNNING is in time, comes back to ACTIVE_RUNNING under every
      interleaving if and only if it knows its mode at that moment. */
  lemma RecoveringReturnsIff(x: Site, middle: seq<Cmd>, run: Cmd, cfg: Config)
    requires cfg.buckets > 0 && Ships(middle) && RunCmd(run)
    requires x.chan == [QuiesceBegin] + middle + [QuiesceStop, run]
    requires x.srv.Some? && ActiveServer(x.srv.value) && x.srv.value.state != Quiesce
    ensures SiteStep(x, Deliver, cfg).srv.Some? <==> x.srv.value.mode == ActiveRep
    ensures (forall es :: Working(es) && RunsFit(SiteStep(x, Deliver, cfg), es, cfg)
                          && AtRest(SiteRun(SiteStep(x, Deliver, cfg), es, cfg)) ==>
               Returned(SiteRun(SiteStep(x, Deliver, cfg), es, cfg)))
            <==> x.srv.value.mode == ActiveRep
  {
    var s, y := x.srv.value, SiteStep(x, Deliver, cfg);
    Began(s);
    assert x.chan[0] == QuiesceBegin && y.chan == middle + [QuiesceStop, run];
    if s.mode == ActiveRep {
      AimedBefore(y.srv.value, middle, [QuiesceStop, run]);
      hide S.Step, ActiveServer, SiteStep, Aimed;
      forall es | Working(es) && RunsFit(y, es, cfg) && AtRest(SiteRun(y, es, cfg))
        ensures Returned(SiteRun(y, es, cfg))
      {
        AimedReturns(y, es, cfg);
      }
    } else {
      hide S.Step, ActiveServer, SiteStep;
      assert Startup !in y.chan;
      DownDelivers(y, cfg);
      assert AtRest(Site(None, [])) && !Returned(Site(None, []));
    }
  }
}
