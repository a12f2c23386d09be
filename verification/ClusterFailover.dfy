/** Failover in the cluster: what one server's run guarantees holds for every replica inside
    every run of the passive cluster in which it stays up. */
module ClusterFailover {
  import opened Types
  import opened ManagerSpec
  import Storage
  import S = ServerSpec
  import R = ServerRuns
  import F = Failover
  import opened Cluster

  /** What a live server sees of one step of its replica. */
  function Seen(x: Site, e: SiteEvent): seq<S.Event> {
    match e
    case Local(ev) => [ev]
    case Deliver =>
      if x.chan == [] then []
      else (match x.chan[0]
            case Startup => []
            case ChangeState(msg) => [S.Recv(MsgRepMgr(Arrived(msg)))]
            case SendChkpt => [S.Recv(MsgSendChkpt)]
            case QuiesceBegin => [S.QuiesceStart]
            case QuiesceStop => [S.QuiesceStop])
    case _ => []
  }

  lemma SeenStep(x: Site, e: SiteEvent, cfg: Config)
    requires PassiveSite(x, cfg) && cfg.buckets > 0 && x.srv.Some? && OwnEvent(e) && !e.Crash?
    ensures SiteStep(x, e, cfg).srv == Some(S.Run(x.srv.value, Seen(x, e)))
  {
    var s := x.srv.value;
    if e.Local? {
      LocalPassive(s, e.e, cfg);
    } else if e.Deliver? && x.chan != [] {
      var cmd := x.chan[0];
      if cmd.ChangeState? {
        ReceivePassive(s, MsgRepMgr(Arrived(cmd.msg)), cfg);
      } else if cmd.SendChkpt? {
        ReceivePassive(s, MsgSendChkpt, cfg);
      }
    }
    hide S.Step;
    if Seen(x, e) != [] {
      assert S.Run(S.Step(s, Seen(x, e)[0]), []) == S.Step(s, Seen(x, e)[0]);
    }
  }

  /** What the server of replica i sees of a whole run. */
  function View(c: Cluster, es: seq<Event>, i: nat): seq<S.Event>
    requires ProperRun(c, es) && i < |c.sites|
    decreases |es|
  {
    if es == [] then []
    else
      (if es[0].At? && es[0].i == i then Seen(c.sites[i], es[0].e) else [])
      + View(Step(c, es[0]), es[1..], i)
  }

  ghost predicate NeverCrashes(es: seq<Event>, i: nat) {
    forall k :: 0 <= k < |es| ==> !(es[k].At? && es[k].i == i && es[k].e.Crash?)
  }

  lemma SiteOfStep(c: Cluster, e: Event, i: nat)
    requires PassiveCluster(c) && Proper(c, e) && i < |c.sites| && c.sites[i].srv.Some?
    requires NeverCrashes([e], i)
    ensures PassiveCluster(Step(c, e))
    ensures Step(c, e).sites[i].srv
         == Some(S.Run(c.sites[i].srv.value, if e.At? && e.i == i then Seen(c.sites[i], e.e) else []))
  {
    assert [e][0] == e;
    if e.Handle? {
      ReportStep(c, e);
      if !c.mgr.locked {
        var o := HandleState(c.mgr, e.rep, e.lost);
        ReportSends(c.mgr, e.rep, e.lost);
        hide HandleState, Inv, Owed, PassiveSite, Post;
        PostKeeps(c.sites, o.sent, o.mgr.primary, c.cfg, i);
      }
    } else {
      OwnClusterStep(c, e);
      if e.i == i {
        SeenStep(c.sites[i], e.e, c.cfg);
      }
    }
  }

  /** A server that never crashes goes through exactly the run it sees. */
  lemma {:induction false} ServerSeesItsRun(c: Cluster, es: seq<Event>, i: nat)
    requires PassiveCluster(c) && ProperRun(c, es) && i < |c.sites| && c.sites[i].srv.Some?
    requires NeverCrashes(es, i)
    ensures |Run(c, es).sites| == |c.sites|
    ensures Run(c, es).sites[i].srv == Some(S.Run(c.sites[i].srv.value, View(c, es, i)))
    decreases |es|
  {
    hide Step, PassiveCluster, Proper, Seen;
    if es != [] {
      var e, s := es[0], c.sites[i].srv.value;
      IsProper(c, es);
      SiteOfStep(c, e, i);
      SameReplicas(c, e);
      ServerSeesItsRun(Step(c, e), es[1..], i);
      var first := if e.At? && e.i == i then Seen(c.sites[i], e.e) else [];
      R.RunConcat(s, first, View(Step(c, e), es[1..], i));
    }
  }

  lemma IsProper(c: Cluster, es: seq<Event>)
    requires ProperRun(c, es) && es != []
    ensures Proper(c, es[0])
  {
  }

  lemma SameReplicas(c: Cluster, e: Event)
    requires Proper(c, e)
    ensures |Step(c, e).sites| == |c.sites|
  {
  }

  /** Failover in the cluster: a replica that starts as an idle server, is never refused a
      checkpoint and does not crash ends, once drained, with the last executed image followed by
      exactly the requests it accepted since. */
  lemma FailoverInCluster(c: Cluster, es: seq<Event>, i: nat)
    requires PassiveCluster(c) && ProperRun(c, es) && i < |c.sites| && c.sites[i].srv.Some?
    requires NeverCrashes(es, i)
    requires var s := c.sites[i].srv.value;
      s.nrl == [] && !s.prune && R.NoCheckpointRefused(s, View(c, es, i))
    ensures var s := c.sites[i].srv.value;
      var h := F.History(F.Hist(s.db, []), s, View(c, es, i));
      |Run(c, es).sites| == |c.sites| && Run(c, es).sites[i].srv.Some? &&
      var t := Run(c, es).sites[i].srv.value;
      t.nrl == [] ==> t.db == Storage.HandleAll(h.base, h.since)
  {
    ServerSeesItsRun(c, es, i);
    F.FailoverState(c.sites[i].srv.value, View(c, es, i));
  }

  // ---------- the order of promotion ----------

  /** No BACKUP command is under way to replica i, and none is sent to it in the run. */
  ghost predicate NotDemoted(c: Cluster, es: seq<Event>, i: nat)
    requires ProperRun(c, es) && i < |c.sites|
    decreases |es|
  {
    && (forall k :: 0 <= k < |c.sites[i].chan| && c.sites[i].chan[k].ChangeState? ==>
          c.sites[i].chan[k].msg.state != PassiveBackup)
    && (es != [] ==> NotDemoted(Step(c, es[0]), es[1..], i))
  }

  /** Of one step a server sees promotions through PREPRIMARY only. */
  lemma SeenRoles(x: Site, e: SiteEvent, cfg: Config)
    requires PassiveSite(x, cfg) && OwnEvent(e)
    requires forall k :: 0 <= k < |x.chan| && x.chan[k].ChangeState? ==> x.chan[k].msg.state != PassiveBackup
    ensures forall k :: 0 <= k < |Seen(x, e)| && Seen(x, e)[k].Recv? && Seen(x, e)[k].req.MsgRepMgr? ==>
      Seen(x, e)[k].req.msg.state == PassivePreprimary
  {
  }

  ghost predicate SeesPromotions(es: seq<S.Event>) {
    forall k :: 0 <= k < |es| && es[k].Recv? && es[k].req.MsgRepMgr? ==> es[k].req.msg.state == PassivePreprimary
  }

  lemma {:induction false} ViewRoles(c: Cluster, es: seq<Event>, i: nat)
    requires PassiveCluster(c) && ProperRun(c, es) && i < |c.sites| && NotDemoted(c, es, i)
    ensures SeesPromotions(View(c, es, i))
    decreases |es|
  {
    if es != [] {
      var e := es[0];
      IsProper(c, es);
      if e.Handle? {
        ReportStep(c, e);
      } else {
        OwnClusterStep(c, e);
        if e.i == i {
          SeenRoles(c.sites[i], e.e, c.cfg);
        }
      }
      SameReplicas(c, e);
      hide Step, PassiveCluster, Proper, Seen;
      ViewRoles(Step(c, e), es[1..], i);
    }
  }

  /** Promotion order in the cluster, where the manager never makes a server PRIMARY at once: a
      replica that does not crash and is not made BACKUP again is PRIMARY only when none of the
      requests it took in as a backup is still waiting. */
  lemma PromotionInCluster(c: Cluster, es: seq<Event>, i: nat)
    requires PassiveCluster(c) && ProperRun(c, es) && i < |c.sites| && c.sites[i].srv.Some?
    requires NeverCrashes(es, i) && NotDemoted(c, es, i) && F.Promotion(c.sites[i].srv.value)
    requires var s := c.sites[i].srv.value;
      forall k :: 0 <= k < |s.ctrl| && s.ctrl[k].req.MsgRepMgr? ==> s.ctrl[k].req.msg.state != PassiveBackup
    ensures |Run(c, es).sites| == |c.sites| && Run(c, es).sites[i].srv.Some?
    ensures F.Promotion(Run(c, es).sites[i].srv.value)
  {
    var s := c.sites[i].srv.value;
    ServerSeesItsRun(c, es, i);
    ViewRoles(c, es, i);
    StaysPassive(c, es);
    IsPassiveServer(c, i);
    IsPassiveServer(Run(c, es), i);
    hide PassiveCluster, ProperRun, Run, View, F.Promotion, R.Fsm, NotDemoted;
    F.PromotionsFit(s, View(c, es, i));
    F.PromotionOrder(s, View(c, es, i));
  }

  lemma IsPassiveServer(c: Cluster, i: nat)
    requires PassiveCluster(c) && i < |c.sites| && c.sites[i].srv.Some?
    ensures PassiveServer(c.sites[i].srv.value, c.cfg)
  {
    hide Inv, PassiveServer;
  }

  lemma {:induction false} StaysPassive(c: Cluster, es: seq<Event>)
    requires PassiveCluster(c) && ProperRun(c, es)
    ensures PassiveCluster(Run(c, es))
    decreases |es|
  {
    if es != [] {
      if es[0].Handle? {
        ReportStep(c, es[0]);
      } else {
        OwnClusterStep(c, es[0]);
      }
      hide Step, PassiveCluster;
      StaysPassive(Step(c, es[0]), es[1..]);
    }
  }
}
