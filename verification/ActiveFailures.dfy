/** Runs of the active cluster from its start, with true reports, nothing lost and room for every
    role change, in which the recovery bracket fails all the same. */
module ActiveFailures {
  import opened Types
  import opened ManagerSpec
  import S = ServerSpec
  import A = ActiveRecovery
  import G = PromotionGuard
  import opened Cluster
  import opened ActiveDelivery
  import opened ActiveRuns
  import opened ActiveReturn
  import opened ReturningRuns

  // ---------- smooth runs ----------

  /** Nothing is lost, nobody crashes, and a role change delivered finds room. */
  predicate SmoothSite(x: Site, e: SiteEvent) {
    && OwnEvent(e) && !e.Lose? && !e.Crash?
    && (e.Deliver? && x.srv.Some? && x.chan != [] && x.chan[0].ChangeState? ==>
          |x.srv.value.ctrl| < x.srv.value.ctrlLimit)
  }

  ghost predicate SmoothSiteRun(x: Site, es: seq<SiteEvent>, cfg: Config)
    requires cfg.buckets > 0
    decreases |es|
  {
    es != [] ==> SmoothSite(x, es[0]) && SmoothSiteRun(SiteStep(x, es[0], cfg), es[1..], cfg)
  }

  /** Besides, reports are true: FAULTED when the server is down, RUNNING when it is up. */
  ghost predicate Smooth(c: Cluster, e: Event)
    requires Proper(c, e)
  {
    && G.TrueReport(c, e)
    && match e
       case Handle(_, lost) => lost == {}
       case At(i, x) => SmoothSite(c.sites[i], x)
  }

  ghost predicate SmoothRun(c: Cluster, es: seq<Event>)
    requires ProperRun(c, es)
    decreases |es|
  {
    es != [] ==> Smooth(c, es[0]) && SmoothRun(Step(c, es[0]), es[1..])
  }

  /** A smooth run leads from c to d. */
  ghost predicate Reaches(c: Cluster, es: seq<Event>, d: Cluster) {
    ProperRun(c, es) && SmoothRun(c, es) && Run(c, es) == d
  }

  lemma {:induction false} ReachesOn(c: Cluster, es: seq<Event>, d: Cluster, e: Event)
    requires Reaches(c, es, d) && Proper(d, e) && Smooth(d, e)
    ensures Reaches(c, es + [e], Step(d, e))
    decreases |es|
  {
    hide Step, Proper, Smooth;
    if es == [] {
      assert [] + [e] == [e] && [e][1..] == [];
      var f := Step(c, e);
      assert ProperRun(f, []) && SmoothRun(f, []) && Run(f, []) == f;
    } else {
      assert (es + [e])[0] == es[0] && (es + [e])[1..] == es[1..] + [e];
      ReachesOn(Step(c, es[0]), es[1..], d, e);
    }
  }

  /** Steps of one replica, taken in the cluster. */
  lemma {:induction false} ReachesAt(c: Cluster, es: seq<Event>, d: Cluster, i: nat, own: seq<SiteEvent>)
    returns (more: seq<Event>)
    requires Reaches(c, es, d) && Shape(d) && i < |d.sites| && SmoothSiteRun(d.sites[i], own, d.cfg)
    ensures Reaches(c, more, d.(sites := d.sites[i := SiteRun(d.sites[i], own, d.cfg)]))
    decreases |own|
  {
    if own == [] {
      more := es;
      assert d.sites[i := d.sites[i]] == d.sites;
    } else {
      var e := At(i, own[0]);
      ReachesOn(c, es, d, e);
      hide SiteStep, Reaches;
      more := ReachesAt(c, es + [e], Step(d, e), i, own[1..]);
      assert d.sites[i := SiteStep(d.sites[i], own[0], d.cfg)][i := SiteRun(d.sites[i], own, d.cfg)]
          == d.sites[i := SiteRun(d.sites[i], own, d.cfg)];
    }
  }

  lemma ReachesReport(c: Cluster, es: seq<Event>, d: Cluster, rep: Report) returns (f: Cluster)
    requires Reaches(c, es, d) && ActiveMgr(d) && rep.id < |d.sites|
    requires rep.state == Faulted ==> d.sites[rep.id].srv.None?
    requires rep.state == Running ==> d.sites[rep.id].srv.Some?
    ensures Reaches(c, es + [Handle(rep, {})], f)
    ensures ActiveMgr(f) && |f.sites| == |d.sites| && f.cfg == d.cfg
    ensures f.mgr.node == if rep.state == SentStartupReq then d.mgr.node else d.mgr.node[rep.id := rep.state]
    ensures forall i :: 0 <= i < |d.sites| ==>
      f.sites[i] == d.sites[i].(chan := d.sites[i].chan + SentTo(d.mgr, rep, i))
    ensures f.mgr.primary
         == if rep.state == Faulted && rep.id == d.mgr.primary then (rep.id + 1) % |d.sites|
            else if A.Recovers(d.mgr, rep) || rep.state != Running || d.mgr.node[rep.id] != Faulted then d.mgr.primary
            else rep.id
  {
    f := Reported(d, rep);
    hide Step, Inv, SentTo;
    ReachesOn(c, es, d, Handle(rep, {}));
  }

  // ---------- three fresh servers ----------

  /** Nobody is known to run, and the first k replicas have fresh servers. */
  ghost predicate Started(c: Cluster, cfg: Config, k: nat) {
    && ActiveMgr(c) && c.cfg == cfg && |c.sites| == 3 && k <= 3 && c.mgr.primary == -1
    && (forall i :: 0 <= i < 3 ==> c.mgr.node[i] == Faulted)
    && forall i :: 0 <= i < 3 ==>
      c.sites[i] == Site(if i < k then Some(S.Boot(cfg.nrlLimit, cfg.ctrlLimit, cfg.buckets)) else None, [])
  }

  lemma StartNext(c: Cluster, es: seq<Event>, d: Cluster, cfg: Config, k: nat)
    returns (more: seq<Event>, f: Cluster)
    requires Reaches(c, es, d) && Started(d, cfg, k) && k < 3
    ensures Reaches(c, more, f) && Started(f, cfg, k + 1)
  {
    var g := StartReported(c, es, d, cfg, k);
    var x := g.sites[k];
    StartedUp(x, cfg);
    hide Inv, SiteStep, Reaches, SmoothSiteRun;
    more := ReachesAt(c, es + [Handle(Report(k, Faulted), {})], g, k, [Deliver]);
    f := g.(sites := g.sites[k := SiteRun(x, [Deliver], cfg)]);
    var down := g.(sites := g.sites[k := Site(None, [])]);
    assert forall i :: 0 <= i < 3 && i != k ==> f.sites[i] == down.sites[i];
  }

  lemma StartReported(c: Cluster, es: seq<Event>, d: Cluster, cfg: Config, k: nat) returns (g: Cluster)
    requires Reaches(c, es, d) && Started(d, cfg, k) && k < 3
    ensures Reaches(c, es + [Handle(Report(k, Faulted), {})], g)
    ensures k < |g.sites| && g.sites[k] == Site(None, [Startup])
    ensures Started(g.(sites := g.sites[k := Site(None, [])]), cfg, k)
  {
    hide Inv, SentTo, Reaches, A.Recovers;
    g := ReachesReport(c, es, d, Report(k, Faulted));
    StartSent(d.mgr, k);
    assert [] + [Startup] == [Startup];
    assert forall i :: 0 <= i < 3 && i != k ==> g.sites[i] == d.sites[i];
  }

  lemma StartSent(m: Mgr, k: nat)
    requires Wf(m) && |m.node| == 3 && k < 3 && m.primary == -1
    ensures forall i :: 0 <= i < 3 ==> SentTo(m, Report(k, Faulted), i) == if i == k then [Startup] else []
  {
  }

  lemma StartedUp(x: Site, cfg: Config)
    requires cfg.buckets > 0 && x == Site(None, [Startup])
    ensures SmoothSiteRun(x, [Deliver], cfg)
    ensures SiteRun(x, [Deliver], cfg) == Site(Some(S.Boot(cfg.nrlLimit, cfg.ctrlLimit, cfg.buckets)), [])
  {
    RunOne(x, Deliver, cfg);
    assert [Deliver][1..] == [];
  }

  lemma AllStarted(peers: seq<Peer>, freq: int, cfg: Config) returns (es: seq<Event>, d: Cluster)
    requires |peers| == 3 && cfg.buckets > 0
    ensures Reaches(ActiveBoot(peers, freq, cfg), es, d) && Started(d, cfg, 3)
  {
    var c := ActiveBoot(peers, freq, cfg);
    BootInv(Active, peers, freq);
    assert Reaches(c, [], c) && Started(c, cfg, 0);
    hide ActiveBoot, Reaches, Started;
    var es1, c1 := StartNext(c, [], c, cfg, 0);
    var es2, c2 := StartNext(c, es1, c1, cfg, 1);
    es, d := StartNext(c, es2, c2, cfg, 2);
  }

  // ---------- the first recovery ----------

  /** Replica 0 is primary, replica 1 has a fresh server and the bracket of its recovery under way. */
  ghost predicate FirstRecovery(c: Cluster, cfg: Config, run: Cmd) {
    && ActiveMgr(c) && c.cfg == cfg && |c.sites| == 3 && c.mgr.primary == 0 && RunCmd(run)
    && c.mgr.node[1] == Running && c.mgr.node[2] == Faulted && c.sites[2].srv.Some?
    && c.sites[1] == Site(Some(S.Boot(cfg.nrlLimit, cfg.ctrlLimit, cfg.buckets)),
                          [RECOVER, QuiesceBegin, QuiesceStop, run])
  }

  const RECOVER: Cmd := ChangeState(PlainMsg(ActiveRep, ActiveRecover))

  lemma OneRecovers(peers: seq<Peer>, freq: int, cfg: Config) returns (es: seq<Event>, d: Cluster, run: Cmd)
    requires |peers| == 3 && cfg.buckets > 0
    ensures Reaches(ActiveBoot(peers, freq, cfg), es, d) && FirstRecovery(d, cfg, run)
  {
    var c := ActiveBoot(peers, freq, cfg);
    var es0, c0 := AllStarted(peers, freq, cfg);
    hide ActiveBoot, Reaches, Inv;
    var up0, up1 := Report(0, Running), Report(1, Running);
    var c1 := ReachesReport(c, es0, c0, up0);
    assert SentTo(c0.mgr, up0, 1) == [] && SentTo(c0.mgr, up0, 2) == [];
    d := ReachesReport(c, es0 + [Handle(up0, {})], c1, up1);
    es := es0 + [Handle(up0, {})] + [Handle(up1, {})];
    run := OwnBracket(c1.mgr, 1);
    assert c1.sites[1].chan == [];
    assert [] + A.BracketFor(c1.mgr, 1, 1) == A.BracketFor(c1.mgr, 1, 1);
  }

  lemma OwnBracket(m: Mgr, r: nat) returns (run: Cmd)
    requires Wf(m) && m.style == Active && r < |m.node| && r != m.primary && m.primary != -1
    ensures RunCmd(run) && A.BracketFor(m, r, r) == [RECOVER, QuiesceBegin, QuiesceStop, run]
  {
    run := Election(m.(hb := m.hb[r := true], node := m.node[r := Running]), r).cmd;
    hide ElectionMsg;
    RunIs(m, r);
  }

  lemma RunIs(m: Mgr, r: nat)
    requires Wf(m) && m.style == Active && r < |m.node|
    ensures RunCmd(Election(m.(hb := m.hb[r := true], node := m.node[r := Running]), r).cmd)
  {
  }

  lemma OtherBracket(m: Mgr, r: nat, i: nat)
    requires Wf(m) && r < |m.node| && i < |m.node| && i != r && i != m.primary && m.node[i] == Running
    ensures A.BracketFor(m, r, i) == [QuiesceBegin, QuiesceStop]
  {
    hide ElectionMsg;
  }

  // ---------- BEGIN overtakes RECOVER ----------

  /** From the start, with true reports and every command delivered in order: the first recovery
      ends in an aborted server when RECOVER still waits as BEGIN comes. */
  lemma FirstRecoveryAborts(peers: seq<Peer>, freq: int, cfg: Config) returns (es: seq<Event>)
    requires |peers| == 3 && cfg.buckets > 0 && cfg.ctrlLimit > 0
    ensures var c := ActiveBoot(peers, freq, cfg);
      && ProperRun(c, es) && SmoothRun(c, es)
      && var d := Run(c, es); |d.sites| == |d.mgr.node| == 3 && d.mgr.node[1] == Running && d.sites[1].srv == None
  {
    var es0, d, run := OneRecovers(peers, freq, cfg);
    var x, own := d.sites[1], [Deliver, Deliver];
    BootInPhase(cfg);
    Overtaken(x, RECOVER.msg, cfg);
    assert SmoothSite(x, Deliver) && SmoothSite(SiteStep(x, Deliver, cfg), Deliver);
    hide SiteStep, Inv, ActiveBoot;
    assert own[1..] == [Deliver] && [Deliver][1..] == [];
    es := ReachesAt(ActiveBoot(peers, freq, cfg), es0, d, 1, own);
  }

  // ---------- RUNNING taken between BEGIN and STOP ----------

  lemma SmoothCons(x: Site, e: SiteEvent, es: seq<SiteEvent>, cfg: Config)
    requires cfg.buckets > 0 && SmoothSite(x, e) && SmoothSiteRun(SiteStep(x, e, cfg), es, cfg)
    ensures SmoothSiteRun(x, [e] + es, cfg)
    ensures SiteRun(x, [e] + es, cfg) == SiteRun(SiteStep(x, e, cfg), es, cfg)
  {
    hide SiteStep;
    assert ([e] + es)[0] == e && ([e] + es)[1..] == es;
  }

  lemma SmoothNone(x: Site, cfg: Config)
    requires cfg.buckets > 0
    ensures SmoothSiteRun(x, [], cfg) && SiteRun(x, [], cfg) == x
  {
  }

  /** A server whose recovery is over but for its RUNNING, which waits as the only request. */
  ghost predicate Late(s: S.Srv) {
    && ActiveServer(s) && s.mode == ActiveRep && s.state == ActiveRecover
    && |s.ctrl| == 1 && s.ctrl[0].req.MsgRepMgr? && Roles(s.ctrl) == [ActiveRunning]
  }

  /** Its own bracket, RECOVER taken at once, RUNNING not taken yet. */
  lemma BecomesLate(x: Site, run: Cmd, cfg: Config) returns (own: seq<SiteEvent>)
    requires cfg.buckets > 0 && cfg.ctrlLimit > 0 && RunCmd(run)
    requires x == Site(Some(S.Boot(cfg.nrlLimit, cfg.ctrlLimit, cfg.buckets)),
                       [RECOVER, QuiesceBegin, QuiesceStop, run])
    ensures SmoothSiteRun(x, own, cfg)
    ensures var y := SiteRun(x, own, cfg); y.chan == [] && y.srv.Some? && Late(y.srv.value)
  {
    var s0 := x.srv.value;
    BootInPhase(cfg);
    Queued(s0, MsgRepMgr(Arrived(RECOVER.msg)));
    var s1 := S.Step(s0, S.Recv(MsgRepMgr(Arrived(RECOVER.msg))));
    assert [] + [ActiveRecover] == [ActiveRecover];
    ControlTurn(s1);
    var s2 := S.ControlStep(s1);
    assert Roles(s1.ctrl)[0] == s2.state;
    Began(s2);
    var s3 := S.Step(s2, S.QuiesceStart);
    Stopped(s3);
    var s4 := S.Step(s3, S.QuiesceStop);
    Queued(s4, MsgRepMgr(Arrived(run.msg)));
    var s5 := S.Step(s4, S.Recv(MsgRepMgr(Arrived(run.msg))));
    assert [] + [ActiveRunning] == [ActiveRunning];
    assert Late(s5);
    own := FiveSteps(x, s1, s2, s3, s4, s5, run, cfg);
  }

  lemma FiveSteps(x: Site, s1: S.Srv, s2: S.Srv, s3: S.Srv, s4: S.Srv, s5: S.Srv, run: Cmd, cfg: Config)
    returns (own: seq<SiteEvent>)
    requires cfg.buckets > 0 && x.srv.Some? && x.chan == [RECOVER, QuiesceBegin, QuiesceStop, run] && RunCmd(run)
    requires s1 == S.Step(x.srv.value, S.Recv(MsgRepMgr(Arrived(RECOVER.msg)))) && s2 == S.Step(s1, S.Control)
    requires s3 == S.Step(s2, S.QuiesceStart) && s4 == S.Step(s3, S.QuiesceStop)
    requires s5 == S.Step(s4, S.Recv(MsgRepMgr(Arrived(run.msg))))
    requires !s1.aborted && !s2.aborted && !s3.aborted && !s4.aborted && !s5.aborted
    requires |x.srv.value.ctrl| < x.srv.value.ctrlLimit && |s4.ctrl| < s4.ctrlLimit
    ensures SmoothSiteRun(x, own, cfg) && SiteRun(x, own, cfg) == Site(Some(s5), [])
  {
    hide S.Step, SmoothSiteRun;
    var x1, x2 := Site(Some(s1), [QuiesceBegin, QuiesceStop, run]), Site(Some(s2), [QuiesceBegin, QuiesceStop, run]);
    var x3, x4, x5 := Site(Some(s3), [QuiesceStop, run]), Site(Some(s4), [run]), Site(Some(s5), []);
    assert SiteStep(x, Deliver, cfg) == x1 && SiteStep(x1, Local(S.Control), cfg) == x2;
    assert SiteStep(x2, Deliver, cfg) == x3 && SiteStep(x3, Deliver, cfg) == x4 && SiteStep(x4, Deliver, cfg) == x5;
    SmoothNone(x5, cfg);
    SmoothCons(x4, Deliver, [], cfg);
    SmoothCons(x3, Deliver, [Deliver] + [], cfg);
    SmoothCons(x2, Deliver, [Deliver] + ([Deliver] + []), cfg);
    SmoothCons(x1, Local(S.Control), [Deliver] + ([Deliver] + ([Deliver] + [])), cfg);
    SmoothCons(x, Deliver, [Local(S.Control)] + ([Deliver] + ([Deliver] + ([Deliver] + []))), cfg);
    own := [Deliver] + ([Local(S.Control)] + ([Deliver] + ([Deliver] + ([Deliver] + []))));
  }

  /** BEGIN of somebody else's recovery notes ACTIVE_RECOVER, RUNNING is taken, STOP puts the
      server back: it is at rest, and not in ACTIVE_RUNNING. */
  lemma LateIsPutBack(x: Site, cfg: Config) returns (own: seq<SiteEvent>)
    requires cfg.buckets > 0 && x.srv.Some? && Late(x.srv.value) && x.chan == [QuiesceBegin, QuiesceStop]
    ensures SmoothSiteRun(x, own, cfg)
    ensures var y := SiteRun(x, own, cfg); AtRest(y) && y.srv.Some? && y.srv.value.state == ActiveRecover
  {
    var s := x.srv.value;
    Began(s);
    var s1 := S.Step(s, S.QuiesceStart);
    ControlTurn(s1);
    var s2 := S.ControlStep(s1);
    Stopped(s2);
    var s3 := S.Step(s2, S.QuiesceStop);
    assert s2.ctrl == [] && s3.state == ActiveRecover;
    own := ThreeSteps(x, s1, s2, s3, cfg);
  }

  lemma ThreeSteps(x: Site, s1: S.Srv, s2: S.Srv, s3: S.Srv, cfg: Config) returns (own: seq<SiteEvent>)
    requires cfg.buckets > 0 && x.srv.Some? && x.chan == [QuiesceBegin, QuiesceStop]
    requires s1 == S.Step(x.srv.value, S.QuiesceStart) && s2 == S.Step(s1, S.Control)
    requires s3 == S.Step(s2, S.QuiesceStop) && !s1.aborted && !s2.aborted && !s3.aborted
    ensures SmoothSiteRun(x, own, cfg) && SiteRun(x, own, cfg) == Site(Some(s3), [])
  {
    hide S.Step, SmoothSiteRun;
    var x1, x2, x3 := Site(Some(s1), [QuiesceStop]), Site(Some(s2), [QuiesceStop]), Site(Some(s3), []);
    assert SiteStep(x, Deliver, cfg) == x1 && SiteStep(x1, Local(S.Control), cfg) == x2;
    assert SiteStep(x2, Deliver, cfg) == x3;
    SmoothNone(x3, cfg);
    SmoothCons(x2, Deliver, [], cfg);
    SmoothCons(x1, Local(S.Control), [Deliver] + [], cfg);
    SmoothCons(x, Deliver, [Local(S.Control)] + ([Deliver] + []), cfg);
    own := [Deliver] + ([Local(S.Control)] + ([Deliver] + []));
  }

  /** From the start, with true reports, every command delivered in order and room for every role
      change: replica 1 recovers, and while its RUNNING waits the recovery of replica 2 begins.
      Replica 1 ends live, marked RUNNING, at rest, and in ACTIVE_RECOVER. */
  lemma StrandedInRecovery(peers: seq<Peer>, freq: int, cfg: Config) returns (es: seq<Event>)
    requires |peers| == 3 && cfg.buckets > 0 && cfg.ctrlLimit > 0
    ensures var c := ActiveBoot(peers, freq, cfg);
      && ProperRun(c, es) && SmoothRun(c, es)
      && var d := Run(c, es);
      && |d.sites| == |d.mgr.node| == 3 && d.mgr.node[1] == Running
      && AtRest(d.sites[1]) && d.sites[1].srv.Some? && d.sites[1].srv.value.state == ActiveRecover
  {
    var c := ActiveBoot(peers, freq, cfg);
    var es0, d0, run := OneRecovers(peers, freq, cfg);
    hide ActiveBoot, Inv, SiteStep, Late, Roles, Reaches;
    var own := BecomesLate(d0.sites[1], run, cfg);
    var es1 := ReachesAt(c, es0, d0, 1, own);
    var d1 := d0.(sites := d0.sites[1 := SiteRun(d0.sites[1], own, cfg)]);
    var up2 := Report(2, Running);
    var d2 := ReachesReport(c, es1, d1, up2);
    OtherBracket(d1.mgr, 2, 1);
    assert [] + [QuiesceBegin, QuiesceStop] == [QuiesceBegin, QuiesceStop];
    var own' := LateIsPutBack(d2.sites[1], cfg);
    es := ReachesAt(c, es1 + [Handle(up2, {})], d2, 1, own');
    ReachedIs(c, es, d2.(sites := d2.sites[1 := SiteRun(d2.sites[1], own', cfg)]));
  }

  lemma ReachedIs(c: Cluster, es: seq<Event>, d: Cluster)
    requires Reaches(c, es, d)
    ensures ProperRun(c, es) && SmoothRun(c, es) && Run(c, es) == d
  {
  }
}
