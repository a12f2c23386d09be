/** The passive cluster at rest: every live replica that the manager has marked RUNNING ends in the
    role it was given, with the peers and the frequency that came with it. */
module PassiveRuns {
  import opened Types
  import Text
  import opened ManagerSpec
  import E = ManagerEffects
  import X = ActiveRuns
  import S = ServerSpec
  import SE = ServerEffects
  import R = ServerRuns
  import opened Cluster

  // ---------- the last role given ----------

  /** The role changes that wait in a control queue, in order. */
  function RoleMsgs(q: seq<S.Ctx>): seq<RepMgrMsg>
    decreases |q|
  {
    if q == [] then []
    else (if q[0].req.MsgRepMgr? then [q[0].req.msg] else []) + RoleMsgs(q[1..])
  }

  lemma {:induction false} RoleMsgsSnoc(q: seq<S.Ctx>, c: S.Ctx)
    ensures RoleMsgs(q + [c]) == RoleMsgs(q) + (if c.req.MsgRepMgr? then [c.req.msg] else [])
    decreases |q|
  {
    if q == [] {
      assert q + [c] == [c] && RoleMsgs([c][1..]) == [];
    } else {
      var head := if q[0].req.MsgRepMgr? then [q[0].req.msg] else [];
      var last := if c.req.MsgRepMgr? then [c.req.msg] else [];
      assert (q + [c])[0] == q[0] && (q + [c])[1..] == q[1..] + [c];
      RoleMsgsSnoc(q[1..], c);
      assert head + (RoleMsgs(q[1..]) + last) == (head + RoleMsgs(q[1..])) + last;
    }
  }

  /** The server has the role of msg, with its peers and frequency; PREPRIMARY may have gone on to
      PRIMARY. */
  predicate HasRole(s: S.Srv, msg: RepMgrMsg) {
    && s.mode == msg.mode && s.freq == msg.freq && s.peer1 == msg.peer1 && s.peer2 == msg.peer2
    && (s.state == msg.state || (msg.state == PassivePreprimary && s.state == PassivePrimary))
  }

  /** The server has that role, or it is the last one waiting for it. */
  predicate Given(s: S.Srv, msg: RepMgrMsg) {
    var waiting := RoleMsgs(s.ctrl);
    if waiting == [] then HasRole(s, msg) else waiting[|waiting| - 1] == msg
  }

  predicate Unset(s: S.Srv) {
    RoleMsgs(s.ctrl) == [] && s.mode == UnknownRep
  }

  lemma OtherStepKeepsRole(s: S.Srv, e: S.Event, msg: RepMgrMsg, cfg: Config)
    requires PassiveServer(s, cfg) && OwnEvent(Local(e)) && !e.Control?
    ensures var t := S.Step(s, e);
      RoleMsgs(t.ctrl) == RoleMsgs(s.ctrl) && (HasRole(s, msg) ==> HasRole(t, msg)) && (Unset(s) ==> Unset(t))
  {
    SE.SameConfig(s, e);
    match e
    case Recv(req) => RoleMsgsSnoc(s.ctrl, S.Ctx(req, S.IsBackup(s)));
    case Normal =>
      R.NormalTurnShape(s);
      if s.prune { R.PruneTurn(s); } else { R.PlainTurn(s); }
      hide S.NormalStep, R.Checkpoints, R.LastImage;
    case Tick =>
  }

  lemma ControlKeepsRole(s: S.Srv, msg: RepMgrMsg, cfg: Config)
    requires PassiveServer(s, cfg) && s.ctrl != []
    ensures var t := S.ControlStep(s); !t.aborted && (Given(s, msg) ==> Given(t, msg)) && (Unset(s) ==> Unset(t))
  {
    ControlPassive(s, cfg);
    NotAborted(S.ControlStep(s), cfg);
    if s.ctrl[0].req.MsgRepMgr? {
      RoleIsTaken(s, s.ctrl[0].req.msg, msg, cfg);
    } else {
      OtherIsTaken(s, msg);
    }
    hide S.ControlStep, PassiveServer, Given, RoleMsgs;
  }

  lemma NotAborted(s: S.Srv, cfg: Config)
    requires PassiveServer(s, cfg)
    ensures !s.aborted
  {
  }

  lemma RoleIsTaken(s: S.Srv, taken: RepMgrMsg, msg: RepMgrMsg, cfg: Config)
    requires PassiveServer(s, cfg) && s.ctrl != [] && s.ctrl[0].req == MsgRepMgr(taken)
    requires !S.ControlStep(s).aborted
    ensures !Unset(s) && (Given(s, msg) ==> Given(S.ControlStep(s), msg))
  {
    var u := s.(ctrl := s.ctrl[1..]);
    TakesRole(s, taken, cfg);
    LastStays(s.ctrl);
    R.ControlQuiet(u, s.ctrl[0].req);
    SE.RepMsgInFull(u, taken);
    hide S.HandleRepMsg, RoleMsgs, PassiveServer;
  }

  lemma OtherEffect(s: S.Srv)
    requires s.ctrl != [] && !s.ctrl[0].req.MsgRepMgr?
    ensures S.ControlStep(s) == s.(ctrl := s.ctrl[1..], shipped := S.ControlStep(s).shipped)
  {
    hide S.HandleRepMsg;
  }

  lemma OtherIsTaken(s: S.Srv, msg: RepMgrMsg)
    requires s.ctrl != [] && !s.ctrl[0].req.MsgRepMgr?
    ensures var t := S.ControlStep(s); (Given(s, msg) ==> Given(t, msg)) && (Unset(s) ==> Unset(t))
  {
    OtherEffect(s);
    hide S.ControlStep;
    NoRoleFirst(s.ctrl);
    hide RoleMsgs;
  }

  lemma NoRoleFirst(q: seq<S.Ctx>)
    requires q != [] && !q[0].req.MsgRepMgr?
    ensures RoleMsgs(q) == RoleMsgs(q[1..])
  {
  }

  lemma LastStays(q: seq<S.Ctx>)
    requires q != [] && q[0].req.MsgRepMgr?
    ensures var all, left := RoleMsgs(q), RoleMsgs(q[1..]);
      all != [] && all[|all| - 1] == if left == [] then q[0].req.msg else left[|left| - 1]
  {
    assert RoleMsgs(q) == [q[0].req.msg] + RoleMsgs(q[1..]);
  }

  /** In a passive cluster every role change is of the passive mode. */
  lemma TakesRole(s: S.Srv, msg: RepMgrMsg, cfg: Config)
    requires PassiveServer(s, cfg) && s.ctrl != [] && s.ctrl[0].req == MsgRepMgr(msg)
    ensures msg.mode == PassiveRep && (s.mode != UnknownRep ==> s.mode == PassiveRep)
  {
    hide S.HandleRepMsg;
  }

  lemma LocalKeepsRole(s: S.Srv, e: S.Event, msg: RepMgrMsg, cfg: Config)
    requires PassiveServer(s, cfg) && OwnEvent(Local(e))
    ensures var t := S.Step(s, e);
      !t.aborted && (Given(s, msg) ==> Given(t, msg)) && (Unset(s) ==> Unset(t))
  {
    LocalPassive(s, e, cfg);
    if e.Control? {
      if s.ctrl != [] {
        ControlKeepsRole(s, msg, cfg);
      }
    } else {
      OtherStepKeepsRole(s, e, msg, cfg);
    }
    hide S.Step, HasRole, RoleMsgs;
  }

  // ---------- the course of a replica ----------

  /** Where a replica stands: down, fresh, or last given a role. */
  datatype Phase = Down | Fresh | Last(msg: RepMgrMsg)

  function Next(p: Phase, cmd: Cmd): Phase {
    match cmd
    case Startup => if p == Down then Fresh else p
    case ChangeState(msg) => if p == Down then Down else Last(Arrived(msg))
    case _ => p
  }

  /** What is asked of a replica marked RUNNING: that it is down or has its role. */
  predicate EndsWell(p: Phase, goal: Option<RepMgrMsg>) {
    goal == None || p == Down || p == Last(goal.value)
  }

  /** The commands under way lead there; a start-up may find the server still there or gone. */
  predicate Leads(p: Phase, chan: seq<Cmd>, goal: Option<RepMgrMsg>)
    decreases |chan|
  {
    if chan == [] then EndsWell(p, goal)
    else
      && Leads(Next(p, chan[0]), chan[1..], goal)
      && (chan[0].Startup? ==> Leads(Fresh, chan[1..], goal))
  }

  lemma {:induction false} LeadsDown(p: Phase, chan: seq<Cmd>, goal: Option<RepMgrMsg>)
    requires Leads(p, chan, goal)
    ensures Leads(Down, chan, goal)
    decreases |chan|
  {
    if chan != [] {
      LeadsDown(Next(p, chan[0]), chan[1..], goal);
    }
  }

  lemma {:induction false} LeadsOn(p: Phase, chan: seq<Cmd>, goal: Option<RepMgrMsg>, more: seq<Cmd>,
                                   goal': Option<RepMgrMsg>)
    requires Leads(p, chan, goal) && forall q :: EndsWell(q, goal) ==> Leads(q, more, goal')
    ensures Leads(p, chan + more, goal')
    decreases |chan|
  {
    if chan == [] {
      assert chan + more == more;
    } else {
      assert (chan + more)[0] == chan[0] && (chan + more)[1..] == chan[1..] + more;
      LeadsOn(Next(p, chan[0]), chan[1..], goal, more, goal');
      if chan[0].Startup? {
        LeadsOn(Fresh, chan[1..], goal, more, goal');
      }
    }
  }

  lemma {:induction false} LeadsAnywhere(p: Phase, chan: seq<Cmd>)
    ensures Leads(p, chan, None)
    decreases |chan|
  {
    if chan != [] {
      LeadsAnywhere(Next(p, chan[0]), chan[1..]);
      LeadsAnywhere(Fresh, chan[1..]);
    }
  }

  predicate InPhase(s: S.Srv, p: Phase) {
    match p
    case Down => false
    case Fresh => Unset(s)
    case Last(msg) => Given(s, msg)
  }

  ghost predicate Heading(x: Site, goal: Option<RepMgrMsg>, cfg: Config) {
    && PassiveSite(x, cfg)
    && match x.srv
       case None => Leads(Down, x.chan, goal)
       case Some(s) => exists p :: InPhase(s, p) && Leads(p, x.chan, goal)
  }

  /** A role change delivered to a live server finds room in its control queue. */
  predicate HasRoom(x: Site, e: SiteEvent) {
    e.Deliver? && x.srv.Some? && x.chan != [] && x.chan[0].ChangeState? ==>
      |x.srv.value.ctrl| < x.srv.value.ctrlLimit
  }

  lemma RoleGiven(s: S.Srv, msg: RepMgrMsg, cfg: Config)
    requires PassiveServer(s, cfg) && PassiveMsg(msg) && |s.ctrl| < s.ctrlLimit
    ensures var t := S.Step(s, S.Recv(MsgRepMgr(msg))); !t.aborted && Given(t, msg)
  {
    var c := S.Ctx(MsgRepMgr(msg), S.IsBackup(s));
    RoleMsgsSnoc(s.ctrl, c);
    var waiting := RoleMsgs(s.ctrl + [c]);
    assert waiting[|waiting| - 1] == msg;
    hide RoleMsgs;
  }

  lemma OtherGiven(s: S.Srv, req: Request, p: Phase, cfg: Config)
    requires PassiveServer(s, cfg) && InPhase(s, p) && !req.MsgRepMgr?
    ensures var t := S.Step(s, S.Recv(req)); !t.aborted && InPhase(t, p)
  {
    OtherStepKeepsRole(s, S.Recv(req), if p.Last? then p.msg else PlainMsg(PassiveRep, PassiveBackup), cfg);
    hide RoleMsgs;
  }

  lemma DeliveredInPhase(x: Site, p: Phase, cfg: Config)
    requires cfg.buckets > 0 && PassiveSite(x, cfg) && x.srv.Some? && x.chan != [] && HasRoom(x, Deliver)
    requires InPhase(x.srv.value, p)
    ensures var y := SiteStep(x, Deliver, cfg);
      y.srv.Some? && y.chan == x.chan[1..] && InPhase(y.srv.value, Next(p, x.chan[0]))
  {
    var s, cmd := x.srv.value, x.chan[0];
    assert PassiveCmd(cmd);
    match cmd
    case Startup =>
    case ChangeState(msg) =>
      RoleGiven(s, Arrived(msg), cfg);
      hide S.Step, Given, Unset;
    case SendChkpt =>
      OtherGiven(s, MsgSendChkpt, p, cfg);
      hide S.Step, InPhase;
  }

  lemma SiteStaysHeading(x: Site, e: SiteEvent, goal: Option<RepMgrMsg>, cfg: Config)
    requires cfg.buckets > 0 && Heading(x, goal, cfg) && OwnEvent(e) && !e.Lose? && HasRoom(x, e)
    ensures Heading(SiteStep(x, e, cfg), goal, cfg)
  {
    OwnStep(x, e, cfg);
    hide PassiveSite, S.Step, Owed;
    if x.srv.None? {
      DownStaysHeading(x, e, goal, cfg);
    } else {
      var s := x.srv.value;
      var p :| InPhase(s, p) && Leads(p, x.chan, goal);
      match e
      case Local(ev) =>
        LocalInPhase(x, ev, p, cfg);
        hide InPhase;
      case Crash => LeadsDown(p, x.chan, goal); hide InPhase;
      case Deliver =>
        if x.chan != [] {
          DeliveredInPhase(x, p, cfg);
        }
        hide InPhase;
    }
  }

  lemma DownStaysHeading(x: Site, e: SiteEvent, goal: Option<RepMgrMsg>, cfg: Config)
    requires cfg.buckets > 0 && x.srv.None? && Leads(Down, x.chan, goal) && !e.Lose? && OwnEvent(e)
    requires PassiveSite(SiteStep(x, e, cfg), cfg)
    ensures Heading(SiteStep(x, e, cfg), goal, cfg)
  {
    hide PassiveSite;
    assert InPhase(S.Boot(cfg.nrlLimit, cfg.ctrlLimit, cfg.buckets), Fresh);
  }

  lemma LocalInPhase(x: Site, e: S.Event, p: Phase, cfg: Config)
    requires PassiveSite(x, cfg) && x.srv.Some? && InPhase(x.srv.value, p) && OwnEvent(Local(e))
    ensures !S.Step(x.srv.value, e).aborted && InPhase(S.Step(x.srv.value, e), p)
  {
    LocalKeepsRole(x.srv.value, e, if p.Last? then p.msg else PlainMsg(PassiveRep, PassiveBackup), cfg);
    hide S.Step, PassiveServer, Given, Unset;
  }

  // ---------- reports ----------

  /** The role of replica i as it will arrive, if it is marked RUNNING. */
  function Goal(m: Mgr, i: nat): Option<RepMgrMsg>
    requires i < |m.node|
  {
    if m.node[i] == Running then Some(Arrived(E.RoleOf(m, i).msg)) else None
  }

  lemma SentLeads(m: Mgr, rep: Report, i: nat)
    requires Inv(m) && m.style == Passive && rep.id < |m.node| && i < |m.node|
    ensures var k := HandleState(m, rep, {}).mgr;
      && i < |k.node|
      && forall p :: EndsWell(p, Goal(m, i)) ==> Leads(p, E.PassiveSentTo(m, rep, {}, i), Goal(k, i))
  {
    var k, more := HandleState(m, rep, {}).mgr, E.PassiveSentTo(m, rep, {}, i);
    AfterReport(m, rep);
    GoalSame(m, k, i);
    hide HandleState, ElectionMsg, Inv;
    if Goal(k, i) == None {
      forall p ensures Leads(p, more, Goal(k, i)) {
        LeadsAnywhere(p, more);
      }
    } else {
      forall p | EndsWell(p, Goal(m, i)) ensures Leads(p, more, Goal(k, i)) {
        MoreLeads(m, k, rep, p, i);
      }
    }
  }

  /** What a lossless report leaves of the manager. */
  lemma AfterReport(m: Mgr, rep: Report)
    requires Inv(m) && m.style == Passive && rep.id < |m.node|
    ensures var k := HandleState(m, rep, {}).mgr;
      && !k.locked && Inv(k) && k.style == Passive && k.peers == m.peers && k.freq == m.freq
      && k.node == (if rep.state == SentStartupReq then m.node else m.node[rep.id := rep.state])
      && k.primary == if rep.state == Faulted && rep.id == m.primary then (rep.id + 1) % |m.node|
                      else if rep.state == Faulted && m.primary == -1 then rep.id
                      else m.primary
  {
    ReportKeepsInv(m, rep, {});
    LockLostIff(m, rep, {});
    E.Remembered(m, rep, {});
    ReportSends(m, rep, {});
    SameFreq(m, rep);
    hide HandleState, Inv;
  }

  lemma SameFreq(m: Mgr, rep: Report)
    requires Wf(m) && rep.id < |m.node|
    ensures HandleState(m, rep, {}).mgr.freq == m.freq
  {
  }

  /** The goal of a replica depends on its mark and on whether it is the primary. */
  lemma GoalSame(m: Mgr, k: Mgr, i: nat)
    requires k.style == m.style && k.peers == m.peers && k.freq == m.freq && i < |m.node| == |k.node|
    ensures ElectionMsg(k, i) == ElectionMsg(m, i)
    ensures k.node[i] == m.node[i] && (i == k.primary <==> i == m.primary) ==> Goal(k, i) == Goal(m, i)
  {
    E.SameElection(m, k, i);
    hide ElectionMsg;
  }

  lemma MoreLeads(m: Mgr, k: Mgr, rep: Report, p: Phase, i: nat)
    requires Wf(m) && rep.id < |m.node| && i < |m.node| == |k.node| && EndsWell(p, Goal(m, i))
    requires k.node == if rep.state == SentStartupReq then m.node else m.node[rep.id := rep.state]
    requires k.primary == if rep.state == Faulted && rep.id == m.primary then (rep.id + 1) % |m.node|
                          else if rep.state == Faulted && m.primary == -1 then rep.id
                          else m.primary
    requires ElectionMsg(k, i) == ElectionMsg(m, i) && Goal(k, i).Some?
    requires m.node[rep.id] != SentStartupReq
    ensures Leads(p, E.PassiveSentTo(m, rep, {}, i), Goal(k, i))
  {
    hide ElectionMsg;
    var more := E.PassiveSentTo(m, rep, {}, i);
    OneMore(p, E.RoleOf(k, i), Goal(k, i));
    OneMore(p, SendChkpt, Goal(k, i));
    RoleThenShip(p, E.RoleOf(k, i), Goal(k, i));
    assert more == [] || more == [E.RoleOf(k, i)] || more == [SendChkpt] || more == [E.RoleOf(k, i), SendChkpt];
    hide Leads;
  }

  lemma OneMore(p: Phase, cmd: Cmd, goal: Option<RepMgrMsg>)
    requires !cmd.Startup?
    ensures Leads(p, [cmd], goal) == EndsWell(Next(p, cmd), goal)
    ensures Leads(p, [], goal) == EndsWell(p, goal)
  {
    assert [cmd][1..] == [];
  }

  lemma RoleThenShip(p: Phase, cmd: Cmd, goal: Option<RepMgrMsg>)
    requires !cmd.Startup?
    ensures Leads(p, [cmd, SendChkpt], goal) == EndsWell(Next(p, cmd), goal)
  {
    assert [cmd, SendChkpt][1..] == [SendChkpt];
    OneMore(Next(p, cmd), SendChkpt, goal);
  }

  // ---------- every run ----------

  ghost predicate HeadingCluster(c: Cluster) {
    && PassiveCluster(c) && !c.mgr.locked
    && forall i :: 0 <= i < |c.sites| ==> Heading(c.sites[i], Goal(c.mgr, i), c.cfg)
  }

  /** No command is lost, and role changes find room. */
  ghost predicate Roomy(c: Cluster, e: Event)
    requires Proper(c, e)
  {
    match e
    case Handle(_, lost) => lost == {}
    case At(i, x) => !x.Lose? && HasRoom(c.sites[i], x)
  }

  ghost predicate RoomyRun(c: Cluster, es: seq<Event>)
    requires ProperRun(c, es)
    decreases |es|
  {
    es != [] ==> Roomy(c, es[0]) && RoomyRun(Step(c, es[0]), es[1..])
  }

  lemma JoinsHeading(x: Site, goal: Option<RepMgrMsg>, more: seq<Cmd>, goal': Option<RepMgrMsg>, cfg: Config)
    requires Heading(x, goal, cfg) && PassiveSite(x.(chan := x.chan + more), cfg)
    requires forall q :: EndsWell(q, goal) ==> Leads(q, more, goal')
    ensures Heading(x.(chan := x.chan + more), goal', cfg)
  {
    hide PassiveSite, InPhase, Leads;
    match x.srv
    case None => LeadsOn(Down, x.chan, goal, more, goal');
    case Some(s) =>
      var p :| InPhase(s, p) && Leads(p, x.chan, goal);
      LeadsOn(p, x.chan, goal, more, goal');
  }

  lemma ReportKeepsHeading(c: Cluster, rep: Report)
    requires HeadingCluster(c) && rep.id < |c.sites|
    ensures HeadingCluster(Step(c, Handle(rep, {})))
  {
    ReportStep(c, Handle(rep, {}));
    AfterReport(c.mgr, rep);
    var d, o := Step(c, Handle(rep, {})), HandleState(c.mgr, rep, {});
    hide HandleState, Inv, Heading, Post, Leads, PassiveSite, E.PassiveSentTo;
    forall i | 0 <= i < |c.sites| ensures Heading(d.sites[i], Goal(d.mgr, i), d.cfg) {
      X.PostFor(c.sites, o.sent, i);
      E.PassiveSentToIs(c.mgr, rep, {}, i);
      SentLeads(c.mgr, rep, i);
      JoinsHeading(c.sites[i], Goal(c.mgr, i), E.PassiveSentTo(c.mgr, rep, {}, i), Goal(d.mgr, i), c.cfg);
    }
  }

  lemma StepKeepsHeading(c: Cluster, e: Event)
    requires HeadingCluster(c) && Proper(c, e) && Roomy(c, e)
    ensures HeadingCluster(Step(c, e))
  {
    match e
    case Handle(rep, _) => ReportKeepsHeading(c, rep);
    case At(i, x) =>
      SiteStaysHeading(c.sites[i], x, Goal(c.mgr, i), c.cfg);
      OwnClusterStep(c, e);
      hide Heading, SiteStep, Inv, PassiveSite;
  }

  /** Nothing under way, and no role change waiting. */
  predicate AtRest(x: Site) {
    x.chan == [] && (x.srv.Some? ==> RoleMsgs(x.srv.value.ctrl) == [])
  }

  /** What a replica at rest has: the primary is PREPRIMARY or PRIMARY with the election's peers and
      frequency, and every other replica is BACKUP. */
  predicate InItsRole(m: Mgr, i: nat, s: S.Srv) {
    if i == m.primary then
      && s.mode == PassiveRep && s.state in {PassivePreprimary, PassivePrimary}
      && s.freq == Text.Int32(m.freq)
      && s.peer1 == ElectionMsg(m, i).peer1 && s.peer2 == ElectionMsg(m, i).peer2
    else s.mode == PassiveRep && s.state == PassiveBackup
  }

  lemma HeadingMeans(m: Mgr, i: nat, x: Site, cfg: Config)
    requires i < |m.node| && m.node[i] == Running && m.style == Passive
    requires Heading(x, Goal(m, i), cfg) && x.srv.Some? && AtRest(x)
    ensures InItsRole(m, i, x.srv.value)
  {
    var p :| InPhase(x.srv.value, p) && Leads(p, x.chan, Goal(m, i));
    RoleArrives(m, i);
    hide ElectionMsg, PassiveSite;
  }

  lemma RoleArrives(m: Mgr, i: nat)
    requires m.style == Passive
    ensures var a := Arrived(E.RoleOf(m, i).msg);
      && a.mode == PassiveRep && a.state == (if i == m.primary then PassivePreprimary else PassiveBackup)
      && (i == m.primary ==>
            && a.freq == Text.Int32(m.freq)
            && a.peer1 == ElectionMsg(m, i).peer1 && a.peer2 == ElectionMsg(m, i).peer2)
  {
    ElectionRole(m, i);
    hide ElectionMsg;
  }

  lemma ElectionRole(m: Mgr, i: nat)
    requires m.style == Passive
    ensures ElectionMsg(m, i).mode == PassiveRep && ElectionMsg(m, i).state == PassivePreprimary
    ensures ElectionMsg(m, i).freq == m.freq
  {
  }

  /** In every run of the passive cluster in which no command is lost and role changes find room, with
      any reports, and with crashes and restarts at any point: every live replica that is marked
      RUNNING, with nothing under way or waiting, is in its role. */
  lemma {:induction false} RestsInItsRole(c: Cluster, es: seq<Event>)
    requires HeadingCluster(c) && ProperRun(c, es) && RoomyRun(c, es)
    ensures HeadingCluster(Run(c, es))
    ensures var d := Run(c, es);
      |d.sites| == |d.mgr.node| && forall i :: 0 <= i < |d.sites| ==>
        d.sites[i].srv.Some? && d.mgr.node[i] == Running && AtRest(d.sites[i]) ==>
        InItsRole(d.mgr, i, d.sites[i].srv.value)
    decreases |es|
  {
    if es == [] {
      forall i | 0 <= i < |c.sites|
        && c.sites[i].srv.Some? && c.mgr.node[i] == Running && AtRest(c.sites[i])
        ensures InItsRole(c.mgr, i, c.sites[i].srv.value)
      {
        HeadingMeans(c.mgr, i, c.sites[i], c.cfg);
        hide Heading, AtRest;
      }
    } else {
      StepKeepsHeading(c, es[0]);
      hide Step, HeadingCluster, AtRest, InItsRole;
      RestsInItsRole(Step(c, es[0]), es[1..]);
    }
  }

  lemma BootHeads(peers: seq<Peer>, freq: int, cfg: Config)
    requires peers != [] && cfg.buckets > 0 && cfg.ctrlLimit > 0
    ensures HeadingCluster(BootCluster(peers, freq, cfg))
  {
    BootIsSafe(peers, freq, cfg);
    E.BootMembers(Passive, peers, freq);
    hide Inv;
  }

  /** Failover completes in the cluster: from there on, one turn of the NORMAL worker more than there
      are requests waiting makes the primary PRIMARY, drained, with one checkpoint thread, and with
      three replicas the two others for its peers. */
  lemma PrimaryIsComplete(c: Cluster, i: nat)
    requires HeadingCluster(c) && i < |c.sites| && i == c.mgr.primary && |c.sites| == 3
    requires c.sites[i].srv.Some? && c.mgr.node[i] == Running && AtRest(c.sites[i])
    ensures var s := c.sites[i].srv.value;
      var t := S.Run(s, SE.Turns(|s.nrl| + 1));
      && t.state == PassivePrimary && t.nrl == [] && t.threads == 1 && t.running
      && multiset{s.peer1, s.peer2, c.mgr.peers[i]} == multiset(c.mgr.peers)
      && s.freq == Text.Int32(c.mgr.freq)
  {
    var s := c.sites[i].srv.value;
    HeadingMeans(c.mgr, i, c.sites[i], c.cfg);
    assert PassiveServer(s, c.cfg);
    SE.BecomesPrimary(s);
    ElectionNamesTheOthers(c.mgr, i);
    hide ElectionMsg, S.Run, Heading, PassiveSite, Inv;
  }
}
