/** Active replication over the real relay: role changes and ship orders wait in a server's control
    queue until its CONTROL worker takes them, while quiescence commands act at once. This is one
    replica under every interleaving of deliveries with the server's own steps. */
module ActiveDelivery {
  import opened Types
  import opened ManagerSpec
  import S = ServerSpec
  import R = ServerRuns
  import opened Cluster

  /** The roles that wait in a control queue, in order. */
  function Roles(q: seq<S.Ctx>): seq<State>
    decreases |q|
  {
    if q == [] then []
    else (if q[0].req.MsgRepMgr? then [q[0].req.msg.state] else []) + Roles(q[1..])
  }

  predicate RoleWaits(s: S.Srv) {
    Roles(s.ctrl) != []
  }

  lemma {:induction false} RolesSnoc(q: seq<S.Ctx>, c: S.Ctx)
    ensures Roles(q + [c]) == Roles(q) + (if c.req.MsgRepMgr? then [c.req.msg.state] else [])
    decreases |q|
  {
    if q == [] {
      assert q + [c] == [c] && Roles([c][1..]) == [];
    } else {
      var head := if q[0].req.MsgRepMgr? then [q[0].req.msg.state] else [];
      var last := if c.req.MsgRepMgr? then [c.req.msg.state] else [];
      assert (q + [c])[0] == q[0] && (q + [c])[1..] == q[1..] + [c];
      RolesSnoc(q[1..], c);
      assert head + (Roles(q[1..]) + last) == (head + Roles(q[1..])) + last;
    }
  }

  // ---------- a live server of an active cluster ----------

  /** The role changes the manager sends in active mode. */
  predicate ActiveMsg(msg: RepMgrMsg) {
    msg.mode == ActiveRep && msg.state in {ActiveRunning, ActiveRecover}
  }

  predicate ActiveCmd(cmd: Cmd) {
    cmd.ChangeState? ==> ActiveMsg(cmd.msg)
  }

  ghost predicate ActiveServer(s: S.Srv) {
    && !s.aborted && R.Fsm(s) && s.mode != PassiveRep
    && forall k :: 0 <= k < |s.ctrl| && s.ctrl[k].req.MsgRepMgr? ==> ActiveMsg(s.ctrl[k].req.msg)
  }

  /** Nothing is lost and the server does not crash; role changes, quiescence commands and ship
      orders come through the factory alone. */
  predicate WorkingEvent(e: SiteEvent) {
    && OwnEvent(e) && !e.Lose? && !e.Crash?
    && (e.Local? && e.e.Recv? ==> !e.e.req.MsgSendChkpt?)
  }

  ghost predicate Working(es: seq<SiteEvent>) {
    forall i :: 0 <= i < |es| ==> WorkingEvent(es[i])
  }

  // ---------- single steps ----------

  /** An arriving request, a turn of the NORMAL worker and a tick leave the role alone. */
  lemma IdleStep(s: S.Srv, e: S.Event)
    requires ActiveServer(s) && OwnEvent(Local(e)) && !e.Control?
    ensures var t := S.Step(s, e);
      && ActiveServer(t) && Roles(t.ctrl) == Roles(s.ctrl) && t.ctrlLimit == s.ctrlLimit
      && t.mode == s.mode && t.state == s.state && t.prev == s.prev && t.shipped == s.shipped
  {
    R.FsmStep(s, e);
    match e
    case Recv(req) =>
      RolesSnoc(s.ctrl, S.Ctx(req, S.IsBackup(s)));
    case Normal =>
      NormalIdle(s);
    case Tick =>
  }

  lemma NormalIdle(s: S.Srv)
    requires ActiveServer(s)
    ensures var t := S.NormalStep(s);
      && t.ctrl == s.ctrl && t.ctrlLimit == s.ctrlLimit && t.aborted == s.aborted
      && t.mode == s.mode && t.state == s.state && t.prev == s.prev && t.shipped == s.shipped
  {
    if s.prune { R.PruneTurn(s); } else { R.PlainTurn(s); }
    hide S.NormalStep, R.Checkpoints, R.LastImage;
  }

  /** A turn of the CONTROL worker takes the next request; a role change takes effect, and a ship
      order is carried out unless a recovery is noted. */
  lemma ControlTurn(s: S.Srv)
    requires ActiveServer(s) && s.ctrl != []
    ensures var t := S.ControlStep(s);
      && ActiveServer(t) && t.ctrl == s.ctrl[1..] && t.prev == s.prev && t.ctrlLimit == s.ctrlLimit
      && (if s.ctrl[0].req.MsgRepMgr?
          then t.mode == ActiveRep && Roles(s.ctrl) == [t.state] + Roles(t.ctrl)
          else t.mode == s.mode && t.state == s.state && Roles(t.ctrl) == Roles(s.ctrl))
      && t.shipped == (if s.ctrl[0].req.MsgSendChkpt? && s.prev != ActiveRecover
                       then s.shipped + [s.db] else s.shipped)
      && t.db == s.db
  {
    R.FsmStep(s, S.Control);
    R.ControlQuiet(s.(ctrl := s.ctrl[1..]), s.ctrl[0].req);
    ControlEffect(s.(ctrl := s.ctrl[1..]), s.ctrl[0].req);
    hide S.ExecuteControl;
    assert forall k :: 0 <= k < |s.ctrl| - 1 ==> s.ctrl[1..][k] == s.ctrl[k + 1];
    assert [] + Roles(s.ctrl[1..]) == Roles(s.ctrl[1..]);
  }

  lemma ControlEffect(s: S.Srv, req: Request)
    requires !s.aborted && R.Fsm(s) && s.mode != PassiveRep && (req.MsgRepMgr? ==> ActiveMsg(req.msg))
    ensures var t := S.ExecuteControl(s, req);
      && !t.aborted && t.prev == s.prev && t.ctrlLimit == s.ctrlLimit
      && (if req.MsgRepMgr? then t.mode == ActiveRep && t.state == req.msg.state
          else t.mode == s.mode && t.state == s.state)
      && t.shipped == (if req.MsgSendChkpt? && s.prev != ActiveRecover then s.shipped + [s.db] else s.shipped)
  {
  }

  /** A role change or ship order joins the control queue if there is room, and nothing else. */
  lemma Queued(s: S.Srv, req: Request)
    requires ActiveServer(s) && S.IsControl(req) && (req.MsgRepMgr? ==> ActiveMsg(req.msg))
    ensures var t := S.Step(s, S.Recv(req));
      && ActiveServer(t) && t == s.(ctrl := t.ctrl)
      && (if |s.ctrl| < s.ctrlLimit
          then t.ctrl == s.ctrl + [S.Ctx(req, false)]
               && Roles(t.ctrl) == Roles(s.ctrl) + (if req.MsgRepMgr? then [req.msg.state] else [])
          else t == s)
  {
    RolesSnoc(s.ctrl, S.Ctx(req, false));
  }

  /** BEGIN ends a server that has no mode yet; any other enters QUIESCE and notes its state. */
  lemma Began(s: S.Srv)
    requires ActiveServer(s)
    ensures var t := S.Step(s, S.QuiesceStart);
      if s.mode == UnknownRep then t.aborted
      else ActiveServer(t) && t == s.(prev := s.state, state := Quiesce)
  {
  }

  /** STOP goes back to the noted state. */
  lemma Stopped(s: S.Srv)
    requires ActiveServer(s) && s.mode == ActiveRep && s.prev != UnknownState
    ensures var t := S.Step(s, S.QuiesceStop);
      ActiveServer(t) && t == s.(state := s.prev)
  {
  }

  lemma {:induction false} RunJoin(x: Site, a: seq<SiteEvent>, b: seq<SiteEvent>, cfg: Config)
    requires cfg.buckets > 0
    ensures SiteRun(x, a + b, cfg) == SiteRun(SiteRun(x, a, cfg), b, cfg)
    decreases |a|
  {
    hide SiteStep;
    if a == [] {
      assert a + b == b;
    } else {
      assert (a + b)[0] == a[0] && (a + b)[1..] == a[1..] + b;
      RunJoin(SiteStep(x, a[0], cfg), a[1..], b, cfg);
    }
  }

  lemma RunOne(x: Site, e: SiteEvent, cfg: Config)
    requires cfg.buckets > 0
    ensures SiteRun(x, [e], cfg) == SiteStep(x, e, cfg)
  {
    hide SiteStep;
    assert [e][1..] == [];
    assert SiteRun(SiteStep(x, e, cfg), [], cfg) == SiteStep(x, e, cfg);
  }

  /** n turns of the CONTROL worker. */
  function Turns(n: nat): (es: seq<SiteEvent>)
    ensures |es| == n && Working(es)
  {
    seq(n, _ => Local(S.Control))
  }

  lemma TurnsStep(x: Site, n: nat, cfg: Config)
    requires cfg.buckets > 0 && n > 0
    ensures SiteRun(x, Turns(n), cfg) == SiteRun(SiteStep(x, Local(S.Control), cfg), Turns(n - 1), cfg)
  {
    hide SiteStep;
    assert Turns(n)[1..] == Turns(n - 1);
  }

  // ---------- QUIESCE lasts until STOP ----------

  ghost predicate InQuiesce(x: Site) {
    x.srv.Some? && x.srv.value.state == Quiesce
  }

  ghost predicate Ships(cmds: seq<Cmd>) {
    forall k :: 0 <= k < |cmds| ==> cmds[k] == SendChkpt
  }

  lemma {:induction false} ChannelShrinks(x: Site, es: seq<SiteEvent>, cfg: Config)
    requires cfg.buckets > 0
    ensures |SiteRun(x, es, cfg).chan| <= |x.chan|
    decreases |es|
  {
    hide Relay;
    if es != [] {
      ChannelShrinks(SiteStep(x, es[0], cfg), es[1..], cfg);
    }
  }

  lemma {:induction false} StaysInQuiesce(x: Site, middle: seq<Cmd>, after: seq<Cmd>, es: seq<SiteEvent>, cfg: Config)
    requires cfg.buckets > 0 && Working(es) && Ships(middle)
    requires x.chan == middle + [QuiesceStop] + after
    requires InQuiesce(x) && ActiveServer(x.srv.value) && !RoleWaits(x.srv.value)
    ensures |SiteRun(x, es, cfg).chan| > |after| ==> InQuiesce(SiteRun(x, es, cfg))
    decreases |es|
  {
    if es != [] {
      var e, y := es[0], SiteStep(x, es[0], cfg);
      var s := x.srv.value;
      if e.Local? {
        if e.e.Control? {
          if s.ctrl != [] { ControlTurn(s); }
        } else {
          IdleStep(s, e.e);
        }
        hide S.Step, ActiveServer, Roles;
        StaysInQuiesce(y, middle, after, es[1..], cfg);
      } else if middle == [] {
        assert y.chan == after;
        ChannelShrinks(y, es[1..], cfg);
      } else {
        assert x.chan[0] == SendChkpt && y.chan == middle[1..] + [QuiesceStop] + after;
        Queued(s, MsgSendChkpt);
        hide S.Step, ActiveServer, Roles;
        StaysInQuiesce(y, middle[1..], after, es[1..], cfg);
      }
    }
  }

  /** A waiting role change takes the server out of QUIESCE as soon as its worker gets to it. */
  lemma {:induction false} WaitingRoleBreaksQuiesce(x: Site, cfg: Config) returns (n: nat)
    requires cfg.buckets > 0 && x.srv.Some? && ActiveServer(x.srv.value) && RoleWaits(x.srv.value)
    ensures SiteRun(x, Turns(n), cfg).chan == x.chan && !InQuiesce(SiteRun(x, Turns(n), cfg))
    decreases |x.srv.value.ctrl|
  {
    var s := x.srv.value;
    var y := SiteStep(x, Local(S.Control), cfg);
    ControlTurn(s);
    if s.ctrl[0].req.MsgRepMgr? {
      n := 1;
      TurnsStep(x, 1, cfg);
      assert ActiveMsg(s.ctrl[0].req.msg);
      assert SiteRun(y, Turns(0), cfg) == y;
      TakenRole(s);
    } else {
      hide S.ControlStep, ActiveServer, Roles;
      var m := WaitingRoleBreaksQuiesce(y, cfg);
      n := m + 1;
      TurnsStep(x, n, cfg);
    }
  }

  lemma TakenRole(s: S.Srv)
    requires ActiveServer(s) && s.ctrl != [] && s.ctrl[0].req.MsgRepMgr?
    ensures S.ControlStep(s).state in {ActiveRunning, ActiveRecover}
  {
    ControlTurn(s);
    hide S.ControlStep;
    assert Roles(s.ctrl)[0] == s.ctrl[0].req.msg.state;
  }

  /** When BEGIN is delivered to a live server, it is in QUIESCE until STOP is delivered, under
      every interleaving, if and only if it knows its mode and no role change waits in its
      control queue. A waiting role change, be it the RECOVER of its own recovery or the RUNNING
      of an earlier one, can end its quiescence early; a server without a mode aborts. */
  lemma QuietUntilStopIff(x: Site, middle: seq<Cmd>, after: seq<Cmd>, cfg: Config)
    requires cfg.buckets > 0 && x.srv.Some? && ActiveServer(x.srv.value) && Ships(middle)
    requires x.chan == [QuiesceBegin] + middle + [QuiesceStop] + after
    ensures (forall es :: Working(es) && |SiteRun(SiteStep(x, Deliver, cfg), es, cfg).chan| > |after| ==>
               InQuiesce(SiteRun(SiteStep(x, Deliver, cfg), es, cfg)))
            <==> x.srv.value.mode == ActiveRep && !RoleWaits(x.srv.value)
  {
    var s, y := x.srv.value, SiteStep(x, Deliver, cfg);
    Began(s);
    assert x.chan[0] == QuiesceBegin && y.chan == middle + [QuiesceStop] + after;
    hide S.Step, ActiveServer, Roles, SiteStep;
    if s.mode != ActiveRep {
      assert SiteRun(y, [], cfg) == y;
      assert Working([]) && |SiteRun(y, [], cfg).chan| > |after| && !InQuiesce(y);
    } else if RoleWaits(s) {
      var n := WaitingRoleBreaksQuiesce(y, cfg);
      assert Working(Turns(n)) && |SiteRun(y, Turns(n), cfg).chan| > |after|;
    } else {
      forall es | Working(es) && |SiteRun(y, es, cfg).chan| > |after| ensures InQuiesce(SiteRun(y, es, cfg)) {
        StaysInQuiesce(y, middle, after, es, cfg);
      }
    }
  }

  // ---------- when a role change takes effect ----------

  ghost predicate OwnSteps(es: seq<S.Event>) {
    forall i :: 0 <= i < |es| ==> OwnEvent(Local(es[i]))
  }

  lemma {:induction false} RoleRun(s: S.Srv, es: seq<S.Event>, role: State)
    requires ActiveServer(s) && OwnSteps(es) && (Roles(s.ctrl) == [role] || !RoleWaits(s))
    ensures var t := S.Run(s, es);
      && ActiveServer(t) && t.prev == s.prev && t.ctrlLimit == s.ctrlLimit
      && (if RoleWaits(t) then RoleWaits(s) && t.state == s.state && Roles(t.ctrl) == [role] && t.mode == s.mode
          else if RoleWaits(s) then t.state == role && t.mode == ActiveRep
          else t.state == s.state && t.mode == s.mode)
    decreases |es|
  {
    if es != [] {
      var t := S.Step(s, es[0]);
      if es[0].Control? {
        if s.ctrl != [] { ControlTurn(s); }
      } else {
        IdleStep(s, es[0]);
      }
      if RoleWaits(s) && !RoleWaits(t) {
        assert [t.state] + Roles(t.ctrl) == [role];
        assert t.state == ([t.state] + Roles(t.ctrl))[0];
      }
      hide S.Step, ActiveServer;
      RoleRun(t, es[1..], role);
    }
  }

  /** A role change delivered to a server with none waiting has taken effect, whatever the server
      did since, if and only if it found room in the control queue and no longer waits there. */
  lemma RoleTakenIff(s: S.Srv, msg: RepMgrMsg, es: seq<S.Event>)
    requires ActiveServer(s) && !RoleWaits(s) && ActiveMsg(msg) && msg.state != s.state && OwnSteps(es)
    ensures var t := S.Run(S.Step(s, S.Recv(MsgRepMgr(msg))), es);
      && ActiveServer(t) && t.prev == s.prev && t.ctrlLimit == s.ctrlLimit
      && (t.state == msg.state <==> |s.ctrl| < s.ctrlLimit && !RoleWaits(t))
      && (t.state == msg.state ==> t.mode == ActiveRep)
      && (t.state != msg.state ==> t.state == s.state && t.mode == s.mode)
  {
    Queued(s, MsgRepMgr(msg));
    assert [] + [msg.state] == [msg.state];
    hide S.Step, ActiveServer;
    RoleRun(S.Step(s, S.Recv(MsgRepMgr(msg))), es, msg.state);
  }

  // ---------- a recovering replica ships nothing ----------

  ghost predicate Unshipped(x: Site, shipped: seq<S.Table.Table>) {
    x.srv.Some? && x.srv.value.shipped == shipped
  }

  /** Commands among which quiescence does not begin again. */
  ghost predicate NoBegin(cmds: seq<Cmd>) {
    forall k :: 0 <= k < |cmds| ==> cmds[k] != QuiesceBegin && ActiveCmd(cmds[k])
  }

  lemma {:induction false} NotedShipsNothing(x: Site, es: seq<SiteEvent>, cfg: Config)
    requires cfg.buckets > 0 && Working(es) && NoBegin(x.chan)
    requires x.srv.Some? && ActiveServer(x.srv.value)
    requires x.srv.value.mode == ActiveRep && x.srv.value.prev == ActiveRecover
    ensures Unshipped(SiteRun(x, es, cfg), x.srv.value.shipped)
    decreases |es|
  {
    if es != [] {
      var e, y := es[0], SiteStep(x, es[0], cfg);
      var s := x.srv.value;
      if e.Local? {
        if e.e.Control? {
          if s.ctrl != [] { ControlTurn(s); }
        } else {
          IdleStep(s, e.e);
        }
      } else if x.chan != [] {
        var cmd := x.chan[0];
        match cmd
        case ChangeState(msg) => Queued(s, MsgRepMgr(Arrived(msg)));
        case SendChkpt => Queued(s, MsgSendChkpt);
        case QuiesceStop => Stopped(s);
        case Startup =>
      }
      hide S.Step, ActiveServer;
      NotedShipsNothing(y, es[1..], cfg);
    }
  }

  /** With enough turns the control queue is empty. */
  lemma {:induction false} DrainControl(x: Site, cfg: Config)
    requires cfg.buckets > 0 && x.srv.Some? && ActiveServer(x.srv.value)
    ensures var y := SiteRun(x, Turns(|x.srv.value.ctrl|), cfg);
      && y.chan == x.chan && y.srv.Some? && ActiveServer(y.srv.value)
      && y.srv.value.ctrl == [] && y.srv.value.prev == x.srv.value.prev
      && y.srv.value.ctrlLimit == x.srv.value.ctrlLimit
      && |y.srv.value.shipped| >= |x.srv.value.shipped|
    decreases |x.srv.value.ctrl|
  {
    var s := x.srv.value;
    if s.ctrl == [] {
      assert Turns(0) == [];
      assert SiteRun(x, [], cfg) == x;
    } else {
      ControlTurn(s);
      hide S.ControlStep, ActiveServer, Roles;
      TurnsStep(x, |s.ctrl|, cfg);
      DrainControl(SiteStep(x, Local(S.Control), cfg), cfg);
    }
  }

  lemma ShipOrderTaken(x: Site, cfg: Config)
    requires cfg.buckets > 0 && x.srv.Some? && ActiveServer(x.srv.value) && x.srv.value.ctrl == []
    requires x.chan != [] && x.chan[0] == SendChkpt && x.srv.value.ctrlLimit > 0
    requires x.srv.value.prev != ActiveRecover
    ensures var y := SiteRun(x, [Deliver, Local(S.Control)], cfg);
      y.srv.Some? && |y.srv.value.shipped| > |x.srv.value.shipped|
  {
    var s := x.srv.value;
    Queued(s, MsgSendChkpt);
    var y := SiteStep(x, Deliver, cfg);
    ControlTurn(y.srv.value);
    hide S.Step, S.ControlStep, ActiveServer;
    assert [Deliver, Local(S.Control)] == [Deliver] + [Local(S.Control)];
    RunJoin(x, [Deliver], [Local(S.Control)], cfg);
    RunOne(x, Deliver, cfg);
    RunOne(y, Local(S.Control), cfg);
  }

  /** When BEGIN is delivered ahead of a ship order, the server survives and ships nothing, under
      every interleaving, if and only if its recovery has taken effect by then. */
  lemma ShipsNothingIff(x: Site, after: seq<Cmd>, cfg: Config)
    requires cfg.buckets > 0 && x.srv.Some? && ActiveServer(x.srv.value) && x.srv.value.ctrlLimit > 0
    requires x.chan == [QuiesceBegin, SendChkpt, QuiesceStop] + after && NoBegin(after)
    ensures (forall es :: Working(es) ==>
               Unshipped(SiteRun(SiteStep(x, Deliver, cfg), es, cfg), x.srv.value.shipped))
            <==> x.srv.value.state == ActiveRecover
  {
    var s, y := x.srv.value, SiteStep(x, Deliver, cfg);
    Began(s);
    assert x.chan[0] == QuiesceBegin && y.chan == [SendChkpt, QuiesceStop] + after;
    if s.state == ActiveRecover {
      assert s.mode == ActiveRep;
      hide S.Step, ActiveServer, SiteStep;
      forall es | Working(es) ensures Unshipped(SiteRun(y, es, cfg), s.shipped) {
        NotedShipsNothing(y, es, cfg);
      }
    } else if s.mode == UnknownRep {
      assert SiteRun(y, [], cfg) == y && Working([]);
      assert !Unshipped(SiteRun(y, [], cfg), s.shipped);
    } else {
      hide S.Step, ActiveServer, SiteStep;
      var es := OverdueShip(y, cfg);
    }
  }

  lemma OverdueShip(y: Site, cfg: Config) returns (es: seq<SiteEvent>)
    requires cfg.buckets > 0 && y.srv.Some? && ActiveServer(y.srv.value) && y.srv.value.ctrlLimit > 0
    requires y.chan != [] && y.chan[0] == SendChkpt && y.srv.value.prev != ActiveRecover
    ensures Working(es) && !Unshipped(SiteRun(y, es, cfg), y.srv.value.shipped)
  {
    hide ActiveServer, SiteStep;
    DrainControl(y, cfg);
    var n := |y.srv.value.ctrl|;
    var z := SiteRun(y, Turns(n), cfg);
    ShipOrderTaken(z, cfg);
    var last := [Deliver, Local(S.Control)];
    es := Turns(n) + last;
    RunJoin(y, Turns(n), last, cfg);
  }

  /** A whole recovery of a replica that is to ship. RECOVER is delivered to a settled server, which
      goes on with its own steps until BEGIN is delivered. From there on it survives and ships
      nothing under every interleaving if and only if RECOVER found room in its control queue and
      no role change waits there when BEGIN comes. */
  lemma RecoveryShipsNothingIff(s: S.Srv, own: seq<S.Event>, after: seq<Cmd>, cfg: Config)
    requires cfg.buckets > 0 && ActiveServer(s) && !RoleWaits(s) && s.state != ActiveRecover
    requires s.ctrlLimit > 0 && OwnSteps(own) && NoBegin(after)
    ensures var t := S.Run(S.Step(s, S.Recv(MsgRepMgr(PlainMsg(ActiveRep, ActiveRecover)))), own);
      var x := Site(Some(t), [QuiesceBegin, SendChkpt, QuiesceStop] + after);
      (forall es :: Working(es) ==> Unshipped(SiteRun(SiteStep(x, Deliver, cfg), es, cfg), t.shipped))
      <==> |s.ctrl| < s.ctrlLimit && !RoleWaits(t)
  {
    var rc := PlainMsg(ActiveRep, ActiveRecover);
    RoleTakenIff(s, rc, own);
    var t := S.Run(S.Step(s, S.Recv(MsgRepMgr(rc))), own);
    hide S.Run, S.Step, ActiveServer, SiteStep;
    ShipsNothingIff(Site(Some(t), [QuiesceBegin, SendChkpt, QuiesceStop] + after), after, cfg);
  }
}
