/** The active cluster over whole runs again, under the weaker conditions that the return to
    ACTIVE_RUNNING needs, and runs from the start in which it fails without them. */
module ReturningRuns {
  import opened Types
  import opened ManagerSpec
  import S = ServerSpec
  import A = ActiveRecovery
  import MR = ManagerRuns
  import opened Cluster
  import opened ActiveDelivery
  import opened ActiveRuns
  import opened ActiveReturn

  /** Ship orders, STOP and then RUNNING come next. */
  predicate ClosedByRunning(chan: seq<Cmd>)
    decreases |chan|
  {
    chan != [] &&
    if chan[0].SendChkpt? then ClosedByRunning(chan[1..])
    else chan[0].QuiesceStop? && |chan| > 1 && RunCmd(chan[1])
  }

  /** What the return asks of a delivery: RUNNING is in time, and BEGIN finds the server in
      ACTIVE_RUNNING or, when its bracket is closed by RUNNING, knowing its mode. */
  predicate Returning(x: Site, e: SiteEvent) {
    && RunFits(x, e)
    && (e.Deliver? && x.srv.Some? && x.chan != [] && x.chan[0].QuiesceBegin? ==>
          if ClosedByRunning(x.chan[1..]) then x.srv.value.mode == ActiveRep
          else x.srv.value.state == ActiveRunning)
  }

  // ---------- a live server on its course ----------

  ghost predicate OnCourse(s: S.Srv, p: Phase) {
    && ActiveServer(s)
    && match p
       case Down => false
       case Fresh => !RoleWaits(s) && s.mode == UnknownRep
       case Idle => s.state != Quiesce && LastRole(s) == ActiveRunning
       case Recovering => s.state != Quiesce
       case RecoveringQuiet => s.mode == ActiveRep && s.prev in {ActiveRunning, ActiveRecover}
       case Back => s.mode == ActiveRep && s.state != Quiesce
       case Quiet =>
         s.mode == ActiveRep && s.prev == ActiveRunning && (RoleWaits(s) ==> LastRole(s) == ActiveRunning)
  }

  ghost predicate Heading(x: Site, marked: bool, cfg: Config) {
    match x.srv
    case None => Leads(Down, x.chan, marked)
    case Some(s) => s.ctrlLimit == cfg.ctrlLimit && exists p :: OnCourse(s, p) && Leads(p, x.chan, marked)
  }

  lemma CourseIsActive(s: S.Srv, p: Phase)
    requires OnCourse(s, p)
    ensures ActiveServer(s)
  {
  }

  lemma CourseSame(s: S.Srv, t: S.Srv, p: Phase)
    requires OnCourse(s, p) && ActiveServer(t) && LastRole(t) == LastRole(s) && t.prev == s.prev
    requires (s.mode == ActiveRep ==> t.mode == ActiveRep) && (RoleWaits(t) ==> RoleWaits(s))
    requires s.state != Quiesce ==> t.state != Quiesce
    requires p == Fresh ==> t.mode == s.mode
    ensures OnCourse(t, p)
  {
    hide ActiveServer, LastRole, Roles;
  }

  lemma FreshStays(s: S.Srv, e: S.Event)
    requires OnCourse(s, Fresh) && OwnEvent(Local(e))
    ensures S.Step(s, e).mode == s.mode
  {
    if e.Control? {
      if s.ctrl != [] {
        ControlTurn(s);
        hide S.ControlStep, ActiveServer, Roles;
      }
    } else {
      IdleStep(s, e);
      hide S.Step, ActiveServer, Roles;
    }
  }

  lemma LocalOnCourse(s: S.Srv, e: S.Event, p: Phase)
    requires OnCourse(s, p) && OwnEvent(Local(e))
    ensures OnCourse(S.Step(s, e), p) && S.Step(s, e).ctrlLimit == s.ctrlLimit && !S.Step(s, e).aborted
  {
    CourseIsActive(s, p);
    StepKeepsLastRole(s, e);
    AliveServer(S.Step(s, e));
    if p == Fresh {
      FreshStays(s, e);
    }
    hide S.Step, ActiveServer, LastRole, Roles;
    CourseSame(s, S.Step(s, e), p);
  }

  /** The phase after a delivery: a bracket that RUNNING closes counts as the server's own. */
  function NextPhase(p: Phase, chan: seq<Cmd>): Option<Phase>
    requires chan != []
  {
    if p == Idle && chan[0].QuiesceBegin? && ClosedByRunning(chan[1..]) then Some(RecoveringQuiet)
    else Next(p, chan[0])
  }

  lemma {:induction false} ClosedEitherWay(chan: seq<Cmd>, marked: bool)
    requires Leads(Quiet, chan, marked) && ClosedByRunning(chan)
    ensures Leads(RecoveringQuiet, chan, marked)
    decreases |chan|
  {
    if chan[0].SendChkpt? {
      ClosedEitherWay(chan[1..], marked);
    } else {
      assert Next(RecoveringQuiet, chan[0]) == Some(Back) && Next(Back, chan[1]) == Some(Idle);
      assert chan[1..][0] == chan[1];
      assert Leads(Idle, chan[1..], marked) && Next(Idle, chan[1]) == Some(Idle);
      assert Leads(Back, chan[1..], marked);
    }
  }

  lemma {:induction false} OwnBracketCloses(chan: seq<Cmd>, marked: bool)
    requires Leads(RecoveringQuiet, chan, marked)
    ensures ClosedByRunning(chan)
    decreases |chan|
  {
    if chan[0].SendChkpt? {
      OwnBracketCloses(chan[1..], marked);
    } else {
      assert Leads(Back, chan[1..], marked);
      assert chan[1..][0] == chan[1];
    }
  }

  lemma NextLeads(p: Phase, chan: seq<Cmd>, marked: bool)
    requires chan != [] && Leads(p, chan, marked)
    ensures NextPhase(p, chan).Some? && Leads(NextPhase(p, chan).value, chan[1..], marked)
    ensures p == Recovering ==> ClosedByRunning(chan[1..])
  {
    if p == Idle && chan[0].QuiesceBegin? && ClosedByRunning(chan[1..]) {
      ClosedEitherWay(chan[1..], marked);
    }
    if p == Recovering {
      OwnBracketCloses(chan[1..], marked);
    }
  }

  lemma BegunOnCourse(s: S.Srv, p: Phase, closed: bool)
    requires OnCourse(s, p) && p in {Idle, Recovering} && (p == Recovering ==> closed)
    requires if closed then s.mode == ActiveRep else s.state == ActiveRunning
    ensures var t := S.Step(s, S.QuiesceStart);
      !t.aborted && t.ctrlLimit == s.ctrlLimit && OnCourse(t, if closed then RecoveringQuiet else Quiet)
  {
    Began(s);
    hide S.Step, Roles;
  }

  lemma RoleOnCourse(s: S.Srv, p: Phase, cmd: Cmd)
    requires OnCourse(s, p) && cmd.ChangeState? && Next(p, cmd).Some?
    requires RunCmd(cmd) ==> |s.ctrl| < s.ctrlLimit || LastRole(s) == ActiveRunning
    ensures var t := S.Step(s, S.Recv(MsgRepMgr(Arrived(cmd.msg))));
      !t.aborted && t.ctrlLimit == s.ctrlLimit && OnCourse(t, Next(p, cmd).value)
  {
    CourseIsActive(s, p);
    RoleDelivered(s, Arrived(cmd.msg));
    AliveServer(S.Step(s, S.Recv(MsgRepMgr(Arrived(cmd.msg)))));
    hide S.Step, ActiveServer, LastRole, Roles;
  }

  lemma ShipOnCourse(s: S.Srv, p: Phase)
    requires OnCourse(s, p) && Next(p, SendChkpt).Some?
    ensures var t := S.Step(s, S.Recv(MsgSendChkpt));
      !t.aborted && t.ctrlLimit == s.ctrlLimit && OnCourse(t, Next(p, SendChkpt).value)
  {
    CourseIsActive(s, p);
    ShipDelivered(s);
    AliveServer(S.Step(s, S.Recv(MsgSendChkpt)));
    hide S.Step, ActiveServer, Roles;
  }

  lemma StopOnCourse(s: S.Srv, p: Phase)
    requires OnCourse(s, p) && Next(p, QuiesceStop).Some?
    ensures var t := S.Step(s, S.QuiesceStop);
      !t.aborted && t.ctrlLimit == s.ctrlLimit && OnCourse(t, Next(p, QuiesceStop).value)
  {
    CourseIsActive(s, p);
    Stopped(s);
    AliveServer(S.Step(s, S.QuiesceStop));
    hide S.Step, ActiveServer, Roles;
  }

  /** A returning delivery takes a live server to its next phase. */
  lemma DeliveredOnCourse(x: Site, p: Phase, marked: bool, cfg: Config)
    requires cfg.buckets > 0 && x.srv.Some? && x.chan != [] && Returning(x, Deliver)
    requires OnCourse(x.srv.value, p) && Leads(p, x.chan, marked)
    ensures var y := SiteStep(x, Deliver, cfg);
      y.srv.Some? && y.srv.value.ctrlLimit == x.srv.value.ctrlLimit && y.chan == x.chan[1..]
      && NextPhase(p, x.chan).Some? && OnCourse(y.srv.value, NextPhase(p, x.chan).value)
  {
    var s, cmd := x.srv.value, x.chan[0];
    NextLeads(p, x.chan, marked);
    CourseIsActive(s, p);
    AliveServer(s);
    hide Leads, S.Step, ActiveServer, LastRole, Roles;
    match cmd
    case Startup =>
    case ChangeState(msg) => RoleOnCourse(s, p, cmd); hide OnCourse;
    case SendChkpt => ShipOnCourse(s, p); hide OnCourse;
    case QuiesceBegin => BegunOnCourse(s, p, ClosedByRunning(x.chan[1..])); hide OnCourse;
    case QuiesceStop => StopOnCourse(s, p); hide OnCourse;
  }

  lemma SiteStaysHeading(x: Site, e: SiteEvent, marked: bool, cfg: Config)
    requires cfg.buckets > 0 && Heading(x, marked, cfg) && OwnEvent(e) && !e.Lose? && Returning(x, e)
    ensures Heading(SiteStep(x, e, cfg), marked, cfg)
    ensures x.srv.Some? && !e.Crash? ==> SiteStep(x, e, cfg).srv.Some?
  {
    hide OnCourse, S.Step, Next;
    if x.srv.None? {
      BootOnCourse(cfg);
      DownStaysHeading(x, e, marked, cfg);
    } else {
      var s := x.srv.value;
      var p :| OnCourse(s, p) && Leads(p, x.chan, marked);
      match e
      case Local(ev) => LocalOnCourse(s, ev, p);
      case Crash => LeadsDown(p, x.chan, marked);
      case Deliver =>
        if x.chan != [] {
          DeliveredOnCourse(x, p, marked, cfg);
          NextLeads(p, x.chan, marked);
        }
    }
  }

  lemma BootOnCourse(cfg: Config)
    requires cfg.buckets > 0
    ensures OnCourse(S.Boot(cfg.nrlLimit, cfg.ctrlLimit, cfg.buckets), Fresh)
  {
    BootInPhase(cfg);
  }

  lemma DownStaysHeading(x: Site, e: SiteEvent, marked: bool, cfg: Config)
    requires cfg.buckets > 0 && x.srv.None? && Leads(Down, x.chan, marked) && !e.Lose?
    requires OnCourse(S.Boot(cfg.nrlLimit, cfg.ctrlLimit, cfg.buckets), Fresh)
    ensures Heading(SiteStep(x, e, cfg), marked, cfg)
  {
    hide OnCourse;
  }

  /** Marked RUNNING and at rest, a live server that is on its course is in ACTIVE_RUNNING. */
  lemma HeadingMeans(x: Site, marked: bool, cfg: Config)
    requires Heading(x, marked, cfg) && x.srv.Some?
    ensures !x.srv.value.aborted && (marked && AtRest(x) ==> Returned(x))
  {
    var p :| OnCourse(x.srv.value, p) && Leads(p, x.chan, marked);
    CourseIsActive(x.srv.value, p);
    AliveServer(x.srv.value);
    if marked && AtRest(x) {
      RunningIsActive(x.srv.value);
    }
  }

  // ---------- every run ----------

  /** A manager in active mode, whatever the servers do. */
  ghost predicate ActiveMgr(c: Cluster) {
    Shape(c) && c.mgr.style == Active && Inv(c.mgr)
  }

  ghost predicate HeadingCluster(c: Cluster) {
    ActiveMgr(c) && forall i :: 0 <= i < |c.sites| ==> Heading(c.sites[i], c.mgr.node[i] == Running, c.cfg)
  }

  ghost predicate ReturningEvent(c: Cluster, e: Event)
    requires Proper(c, e)
  {
    match e
    case Handle(_, lost) => lost == {}
    case At(i, x) => !x.Lose? && Returning(c.sites[i], x)
  }

  ghost predicate ReturningRun(c: Cluster, es: seq<Event>)
    requires ProperRun(c, es)
    decreases |es|
  {
    es != [] ==> ReturningEvent(c, es[0]) && ReturningRun(Step(c, es[0]), es[1..])
  }

  /** A report in active mode, nothing lost: what it makes of the manager and of every channel. */
  lemma Reported(c: Cluster, rep: Report) returns (d: Cluster)
    requires ActiveMgr(c) && rep.id < |c.sites|
    ensures Proper(c, Handle(rep, {})) && d == Step(c, Handle(rep, {}))
    ensures ActiveMgr(d) && |d.sites| == |c.sites| && d.cfg == c.cfg
    ensures d.mgr.node == if rep.state == SentStartupReq then c.mgr.node else c.mgr.node[rep.id := rep.state]
    ensures forall i :: 0 <= i < |c.sites| ==>
      d.sites[i] == c.sites[i].(chan := c.sites[i].chan + SentTo(c.mgr, rep, i))
    ensures d.mgr.primary
         == if rep.state == Faulted && rep.id == c.mgr.primary then (rep.id + 1) % |c.sites|
            else if A.Recovers(c.mgr, rep) || rep.state != Running || c.mgr.node[rep.id] != Faulted then c.mgr.primary
            else rep.id
  {
    d := Step(c, Handle(rep, {}));
    ReportKeepsInv(c.mgr, rep, {});
    MR.StepWf(c.mgr, MR.Rep(rep, {}));
    SentToIs(c.mgr, rep, rep.id);
    PrimaryAfter(c.mgr, rep);
    var o := HandleState(c.mgr, rep, {});
    hide HandleState, Inv, Post, SentTo, A.Recovers;
    forall i | 0 <= i < |c.sites|
      ensures d.sites[i] == c.sites[i].(chan := c.sites[i].chan + SentTo(c.mgr, rep, i))
    {
      PostFor(c.sites, o.sent, i);
      SentToIs(c.mgr, rep, i);
    }
  }

  lemma PrimaryAfter(m: Mgr, rep: Report)
    requires Inv(m) && m.style == Active && rep.id < |m.node|
    ensures HandleState(m, rep, {}).mgr.primary
         == if rep.state == Faulted && rep.id == m.primary then (rep.id + 1) % |m.node|
            else if A.Recovers(m, rep) || rep.state != Running || m.node[rep.id] != Faulted then m.primary
            else rep.id
  {
    hide Count;
  }

  lemma JoinsHeading(x: Site, marked: bool, more: seq<Cmd>, marked': bool, cfg: Config)
    requires Heading(x, marked, cfg)
    requires Leads(Down, more, marked') && Leads(Idle, more, marked') && (!marked ==> Leads(Fresh, more, marked'))
    ensures Heading(x.(chan := x.chan + more), marked', cfg)
  {
    hide OnCourse, Leads;
    match x.srv
    case None => LeadsOn(Down, x.chan, marked, more, marked');
    case Some(s) =>
      var p :| OnCourse(s, p) && Leads(p, x.chan, marked);
      LeadsOn(p, x.chan, marked, more, marked');
  }

  lemma StepKeepsHeading(c: Cluster, e: Event)
    requires HeadingCluster(c) && Proper(c, e) && ReturningEvent(c, e)
    ensures HeadingCluster(Step(c, e))
  {
    match e
    case Handle(rep, _) =>
      var d := Reported(c, rep);
      hide Step, Inv, Heading, Leads, SentTo;
      forall i | 0 <= i < |d.sites| ensures Heading(d.sites[i], d.mgr.node[i] == Running, d.cfg) {
        SentLeads(c.mgr, rep, i);
        JoinsHeading(c.sites[i], c.mgr.node[i] == Running, SentTo(c.mgr, rep, i), d.mgr.node[i] == Running, c.cfg);
      }
    case At(i, x) =>
      SiteStaysHeading(c.sites[i], x, c.mgr.node[i] == Running, c.cfg);
      hide Heading, SiteStep, Inv;
  }

  /** In every run of the active cluster in which no command is lost, with any reports and with
      crashes and restarts at any point: if every RUNNING delivered is in time, and every BEGIN finds
      the server in ACTIVE_RUNNING or, when its bracket is closed by RUNNING, knowing its mode, then
      no server ever aborts, and one that is marked RUNNING and at rest is in ACTIVE_RUNNING. */
  lemma {:induction false} ReturningRunsReturn(c: Cluster, es: seq<Event>)
    requires HeadingCluster(c) && ProperRun(c, es) && ReturningRun(c, es)
    ensures var d := Run(c, es);
      && HeadingCluster(d)
      && forall i :: 0 <= i < |d.sites| && d.sites[i].srv.Some? ==>
        && !d.sites[i].srv.value.aborted
        && (d.mgr.node[i] == Running && AtRest(d.sites[i]) ==> Returned(d.sites[i]))
    decreases |es|
  {
    if es == [] {
      forall i | 0 <= i < |c.sites| && c.sites[i].srv.Some?
        ensures !c.sites[i].srv.value.aborted
        ensures c.mgr.node[i] == Running && AtRest(c.sites[i]) ==> Returned(c.sites[i])
      {
        HeadingMeans(c.sites[i], c.mgr.node[i] == Running, c.cfg);
        hide Heading, AtRest;
      }
    } else {
      StepKeepsHeading(c, es[0]);
      hide Step, HeadingCluster, AtRest;
      ReturningRunsReturn(Step(c, es[0]), es[1..]);
    }
  }

  lemma BootHeads(peers: seq<Peer>, freq: int, cfg: Config)
    requires peers != [] && cfg.buckets > 0
    ensures HeadingCluster(ActiveBoot(peers, freq, cfg))
  {
    BootInv(Active, peers, freq);
  }

  function ActiveBoot(peers: seq<Peer>, freq: int, cfg: Config): Cluster {
    Cluster(Boot(Active, peers, freq), seq(|peers|, _ => Site(None, [])), cfg)
  }

  // ---------- timely deliveries are returning ones ----------

  /** In an orderly cluster the conditions for timely deliveries imply those for returning ones. */
  lemma TimelyIsReturning(x: Site, e: SiteEvent, marked: bool, cfg: Config)
    requires InOrder(x, marked, cfg) && Timely(x, e)
    ensures Returning(x, e)
  {
    if e.Deliver? && x.srv.Some? && x.chan != [] && x.chan[0].QuiesceBegin? {
      var p :| InPhase(x.srv.value, p) && Leads(p, x.chan, marked);
      NextLeads(p, x.chan, marked);
      hide Leads, Roles;
    }
  }

  /** The conditions on BEGIN are exact in every such run: for a bystander, */
  lemma BystanderIsExact(c: Cluster, i: nat, middle: seq<Cmd>)
    requires HeadingCluster(c) && i < |c.sites| && c.sites[i].srv.Some? && c.mgr.node[i] == Running
    requires Ships(middle) && c.sites[i].chan == [QuiesceBegin] + middle + [QuiesceStop]
    ensures (forall es :: Working(es) && AtRest(SiteRun(SiteStep(c.sites[i], Deliver, c.cfg), es, c.cfg)) ==>
               Returned(SiteRun(SiteStep(c.sites[i], Deliver, c.cfg), es, c.cfg)))
            <==> Returning(c.sites[i], Deliver)
  {
    var x := c.sites[i];
    BracketPhase(x, middle, [], c.cfg);
    BystanderReturnsIff(x, middle, c.cfg);
    NotClosed(middle);
    assert x.chan[0] == QuiesceBegin && x.chan[1..] == middle + [QuiesceStop];
    hide Heading, SiteStep, Inv, ActiveServer, Roles, ClosedByRunning;
  }

  /** and for a replica in its own bracket. */
  lemma RecoveringIsExact(c: Cluster, i: nat, middle: seq<Cmd>, run: Cmd)
    requires HeadingCluster(c) && i < |c.sites| && c.sites[i].srv.Some? && c.mgr.node[i] == Running
    requires Ships(middle) && RunCmd(run) && c.sites[i].chan == [QuiesceBegin] + middle + [QuiesceStop, run]
    ensures (forall es :: Working(es) && RunsFit(SiteStep(c.sites[i], Deliver, c.cfg), es, c.cfg)
                          && AtRest(SiteRun(SiteStep(c.sites[i], Deliver, c.cfg), es, c.cfg)) ==>
               Returned(SiteRun(SiteStep(c.sites[i], Deliver, c.cfg), es, c.cfg)))
            <==> Returning(c.sites[i], Deliver)
  {
    var x := c.sites[i];
    assert x.chan == [QuiesceBegin] + middle + [QuiesceStop] + [run];
    BracketPhase(x, middle, [run], c.cfg);
    RecoveringReturnsIff(x, middle, run, c.cfg);
    Closed(middle, run);
    assert x.chan[0] == QuiesceBegin && x.chan[1..] == middle + [QuiesceStop, run];
    hide Heading, SiteStep, Inv, ActiveServer, Roles, ClosedByRunning;
  }

  lemma {:induction false} NotClosed(middle: seq<Cmd>)
    requires Ships(middle)
    ensures !ClosedByRunning(middle + [QuiesceStop])
    decreases |middle|
  {
    if middle != [] {
      assert (middle + [QuiesceStop])[1..] == middle[1..] + [QuiesceStop];
      NotClosed(middle[1..]);
    }
  }

  lemma {:induction false} Closed(middle: seq<Cmd>, run: Cmd)
    requires Ships(middle) && RunCmd(run)
    ensures ClosedByRunning(middle + [QuiesceStop, run])
    decreases |middle|
  {
    if middle != [] {
      assert (middle + [QuiesceStop, run])[1..] == middle[1..] + [QuiesceStop, run];
      Closed(middle[1..], run);
    }
  }

  /** Before BEGIN a server is not in QUIESCE, and unless RUNNING is to come it is the last role. */
  lemma BracketPhase(x: Site, middle: seq<Cmd>, after: seq<Cmd>, cfg: Config)
    requires Heading(x, true, cfg) && x.srv.Some? && Ships(middle)
    requires x.chan == [QuiesceBegin] + middle + [QuiesceStop] + after
    ensures ActiveServer(x.srv.value) && x.srv.value.state != Quiesce
    ensures after == [] ==> LastRole(x.srv.value) == ActiveRunning
  {
    var p :| OnCourse(x.srv.value, p) && Leads(p, x.chan, true);
    assert x.chan[0] == QuiesceBegin && x.chan[1..] == middle + [QuiesceStop] + after;
    NextLeads(p, x.chan, true);
    if after == [] {
      assert middle + [QuiesceStop] + [] == middle + [QuiesceStop];
      NotClosed(middle);
    }
    hide Leads, Roles, LastRole;
  }
}
