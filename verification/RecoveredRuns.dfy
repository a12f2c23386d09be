/** The recovered replica's table over the real relay: under every interleaving of deliveries,
    requests and the workers' turns, with the image arriving at any point. */
module RecoveredRuns {
  import opened Types
  import Table
  import Checkpoint
  import Storage
  import M = ManagerSpec
  import S = ServerSpec
  import R = ServerRuns
  import opened Cluster
  import opened ClusterFailover
  import opened ActiveDelivery

  // ---------- which requests an active server has executed ----------

  /** What one step accepts into the NORMAL queue. */
  function AcceptedBy(s: S.Srv, e: S.Event): seq<Request> {
    if !s.aborted && e.Recv? && !S.IsControl(e.req) && S.Admits(s, e.req) then [e.req] else []
  }

  /** What a run accepts into the NORMAL queue, in order. */
  function Accepted(s: S.Srv, es: seq<S.Event>): seq<Request>
    decreases |es|
  {
    if es == [] then [] else AcceptedBy(s, es[0]) + Accepted(S.Step(s, es[0]), es[1..])
  }

  /** An active server, or one that has aborted; no prune pass is pending. */
  ghost predicate Flowing(s: S.Srv) {
    (s.aborted || ActiveServer(s)) && !s.prune
  }

  predicate ActiveEvent(e: S.Event) {
    e.Recv? && e.req.MsgRepMgr? ==> ActiveMsg(e.req.msg)
  }

  ghost predicate ActiveEvents(es: seq<S.Event>) {
    forall i :: 0 <= i < |es| ==> ActiveEvent(es[i])
  }

  lemma FlowsOn(s: S.Srv, e: S.Event)
    requires Flowing(s) && ActiveEvent(e)
    ensures Flowing(S.Step(s, e))
  {
    if !s.aborted {
      match e
      case Recv(req) =>
        if S.IsControl(req) { Queued(s, req); } else { IdleStep(s, e); }
        hide Roles;
      case Control =>
        if s.ctrl != [] {
          ControlTurn(s);
          R.ControlQuiet(s.(ctrl := s.ctrl[1..]), s.ctrl[0].req);
          hide S.ExecuteControl, Roles;
        }
      case Normal => IdleStep(s, e); R.PlainTurn(s); hide S.NormalStep, Roles;
      case Tick => IdleStep(s, e); hide Roles;
      case QuiesceStart => Began(s); hide Roles;
      case QuiesceStop => R.FsmStep(s, e); hide Roles;
    }
  }

  /** A step executes some of the queue, from its head, and accepts behind it. */
  lemma FlowStep(s: S.Srv, e: S.Event) returns (done: seq<Request>)
    requires Flowing(s) && ActiveEvent(e)
    ensures var t := S.Step(s, e);
      && t.db == Storage.HandleAll(s.db, done)
      && done + R.Reqs(t.nrl) == R.Reqs(s.nrl) + AcceptedBy(s, e)
  {
    done := [];
    hide S.NormalStep, Storage.Handle, ActiveServer;
    if s.aborted {
      assert R.Reqs(s.nrl) + [] == R.Reqs(s.nrl);
    } else if e.Recv? {
      var c := S.Ctx(e.req, S.IsBackup(s));
      assert R.Reqs(s.nrl + [c]) == R.Reqs(s.nrl) + [e.req];
    } else if e.Normal? {
      R.PlainTurn(s);
      if S.NormalStep(s).nrl != s.nrl {
        done := [s.nrl[0].req];
        R.ExecuteFrame(s, s.nrl[0]);
        assert R.Reqs(s.nrl) == done + R.Reqs(s.nrl[1..]);
      } else {
        NothingTaken(s);
      }
    } else {
      R.QuietStep(s, e);
    }
  }

  lemma NothingTaken(s: S.Srv)
    requires Flowing(s) && !s.aborted && S.NormalStep(s).nrl == s.nrl
    ensures S.NormalStep(s).db == s.db
  {
    R.PlainTurn(s);
    hide S.NormalStep, Storage.Handle, ActiveServer;
    assert s.nrl != [] ==> |s.nrl[1..]| < |s.nrl|;
  }

  lemma {:induction false} FlowRun(s: S.Srv, es: seq<S.Event>) returns (done: seq<Request>)
    requires Flowing(s) && ActiveEvents(es)
    ensures var t := S.Run(s, es);
      && t.db == Storage.HandleAll(s.db, done)
      && done + R.Reqs(t.nrl) == R.Reqs(s.nrl) + Accepted(s, es)
    decreases |es|
  {
    hide S.Step, Flowing, AcceptedBy, Storage.HandleAll;
    if es == [] {
      done := [];
      EmptyList(s.db);
      assert done + R.Reqs(s.nrl) == R.Reqs(s.nrl) + [];
    } else {
      var t := S.Step(s, es[0]);
      FlowsOn(s, es[0]);
      var first := FlowStep(s, es[0]);
      var rest := FlowRun(t, es[1..]);
      done := first + rest;
      Storage.HandleAllConcat(s.db, first, rest);
      Joined(first, R.Reqs(t.nrl), R.Reqs(s.nrl), AcceptedBy(s, es[0]), rest, R.Reqs(S.Run(t, es[1..]).nrl),
             Accepted(t, es[1..]));
    }
  }

  lemma EmptyList(db: S.Db)
    ensures Storage.HandleAll(db, []) == db
  {
  }

  lemma Joined(first: seq<Request>, mid: seq<Request>, queue: seq<Request>, put: seq<Request>,
               rest: seq<Request>, end: seq<Request>, later: seq<Request>)
    requires first + mid == queue + put && rest + end == mid + later
    ensures (first + rest) + end == queue + (put + later)
  {
    assert (first + rest) + end == first + (rest + end) == (first + mid) + later == queue + (put + later);
  }

  /** Once drained, an active server's table is the starting one after what waited in its queue and
      exactly the requests it accepted since, in order. */
  lemma DrainedIs(s: S.Srv, es: seq<S.Event>)
    requires Flowing(s) && ActiveEvents(es) && S.Run(s, es).nrl == []
    ensures S.Run(s, es).db == Storage.HandleAll(s.db, R.Reqs(s.nrl) + Accepted(s, es))
  {
    var done := FlowRun(s, es);
    hide S.Run, Accepted, Storage.HandleAll, Flowing;
    assert done + [] == done;
  }

  // ---------- a replica in the cluster ----------

  /** What the server of a replica sees of the replica's run. */
  function Watched(x: Site, es: seq<SiteEvent>, cfg: Config): seq<S.Event>
    requires cfg.buckets > 0
    decreases |es|
  {
    if es == [] then [] else Seen(x, es[0]) + Watched(SiteStep(x, es[0], cfg), es[1..], cfg)
  }

  /** The server neither crashes nor aborts. */
  ghost predicate StaysUp(x: Site, es: seq<SiteEvent>, cfg: Config)
    requires cfg.buckets > 0
    decreases |es|
  {
    x.srv.Some? && (es != [] ==> StaysUp(SiteStep(x, es[0], cfg), es[1..], cfg))
  }

  lemma SeenIs(x: Site, e: SiteEvent, cfg: Config)
    requires cfg.buckets > 0 && x.srv.Some? && SiteStep(x, e, cfg).srv.Some?
    ensures SiteStep(x, e, cfg).srv == Some(S.Run(x.srv.value, Seen(x, e)))
  {
    hide S.Step;
    if Seen(x, e) != [] {
      var t := S.Step(x.srv.value, Seen(x, e)[0]);
      assert S.Run(t, []) == t;
    }
  }

  lemma {:induction false} WatchedRun(x: Site, es: seq<SiteEvent>, cfg: Config)
    requires cfg.buckets > 0 && StaysUp(x, es, cfg)
    ensures SiteRun(x, es, cfg).srv == Some(S.Run(x.srv.value, Watched(x, es, cfg)))
    decreases |es|
  {
    hide SiteStep, Seen;
    if es != [] {
      var y := SiteStep(x, es[0], cfg);
      StillUp(y, es[1..], cfg);
      SeenIs(x, es[0], cfg);
      WatchedRun(y, es[1..], cfg);
      R.RunConcat(x.srv.value, Seen(x, es[0]), Watched(y, es[1..], cfg));
    }
  }

  lemma StillUp(x: Site, es: seq<SiteEvent>, cfg: Config)
    requires cfg.buckets > 0 && StaysUp(x, es, cfg)
    ensures x.srv.Some?
  {
  }

  ghost predicate ActiveCmds(cmds: seq<M.Cmd>) {
    forall k :: 0 <= k < |cmds| ==> ActiveCmd(cmds[k])
  }

  lemma {:induction false} WatchedActive(x: Site, es: seq<SiteEvent>, cfg: Config)
    requires cfg.buckets > 0 && ActiveCmds(x.chan) && Own(es)
    ensures ActiveEvents(Watched(x, es, cfg))
    decreases |es|
  {
    if es != [] {
      WatchedActive(SiteStep(x, es[0], cfg), es[1..], cfg);
      SeenActive(x, es[0]);
      hide SiteStep, Seen;
    }
  }

  lemma SeenActive(x: Site, e: SiteEvent)
    requires ActiveCmds(x.chan) && OwnEvent(e)
    ensures ActiveEvents(Seen(x, e))
  {
  }

  /** A live active replica that stays up and has drained its queue in the end. */
  ghost predicate Drains(x: Site, es: seq<SiteEvent>, cfg: Config)
    requires cfg.buckets > 0
  {
    && x.srv.Some? && Flowing(x.srv.value) && ActiveCmds(x.chan) && Own(es) && StaysUp(x, es, cfg)
    && SiteRun(x, es, cfg).srv.Some? && SiteRun(x, es, cfg).srv.value.nrl == []
  }

  /** The requests such a replica executes after the start of the run. */
  function Executes(x: Site, es: seq<SiteEvent>, cfg: Config): seq<Request>
    requires cfg.buckets > 0 && x.srv.Some?
  {
    R.Reqs(x.srv.value.nrl) + Accepted(x.srv.value, Watched(x, es, cfg))
  }

  lemma DrainsTo(x: Site, es: seq<SiteEvent>, cfg: Config)
    requires cfg.buckets > 0 && Drains(x, es, cfg)
    ensures SiteRun(x, es, cfg).srv.value.db == Storage.HandleAll(x.srv.value.db, Executes(x, es, cfg))
  {
    hide SiteRun, Watched, StaysUp, Flowing, Accepted, Storage.HandleAll;
    WatchedRun(x, es, cfg);
    WatchedActive(x, es, cfg);
    DrainedIs(x.srv.value, Watched(x, es, cfg));
  }

  /** Survivor p ships its table; the image reaches replica r at any point of any run, with any
      requests before it, behind it, and meanwhile at p. Drained, the two agree up to status if and
      only if the shipped table becomes the same by what r executes after the image and by what p
      executes after shipping: its waiting requests and those it accepts later. */
  lemma RecoveredAgreesInRunsIff(p: Site, es: seq<SiteEvent>, r: Site, fs: seq<SiteEvent>, cfg: Config,
                                 num: Status -> int, before: seq<Request>, after: seq<Request>)
    requires cfg.buckets > 0 && Drains(p, es, cfg) && Drains(r, fs, cfg)
    requires var db := p.srv.value.db;
      && Table.Wf(db) && Checkpoint.AllFit(db.chains) && |r.srv.value.db.chains| == |db.chains|
      && Executes(r, fs, cfg) == before + [MsgChkPt(Checkpoint.Export(db, num))] + after
    ensures var db := p.srv.value.db;
      Storage.SameUpToStatus(SiteRun(r, fs, cfg).srv.value.db, SiteRun(p, es, cfg).srv.value.db)
      <==> Storage.SameUpToStatus(Storage.HandleAll(db, after), Storage.HandleAll(db, Executes(p, es, cfg)))
  {
    var db, u := p.srv.value.db, r.srv.value.db;
    var image := Checkpoint.Export(db, num);
    DrainsTo(p, es, cfg);
    DrainsTo(r, fs, cfg);
    hide Drains, Executes, SiteRun, Checkpoint.Export, Checkpoint.Import, Table.Wf, Storage.HandleAll;
    Storage.CheckpointAbsorbs(u, db, before, before, image, after);
    Storage.ReplicaCatchesUp(db, num, after);
  }

  /** In particular they agree if r executes after the image exactly what p executes after shipping;
      a request that p had waiting and r had accepted before the image is lost at r. */
  lemma SameRequestsAgree(p: Site, es: seq<SiteEvent>, r: Site, fs: seq<SiteEvent>, cfg: Config,
                          num: Status -> int, before: seq<Request>)
    requires cfg.buckets > 0 && Drains(p, es, cfg) && Drains(r, fs, cfg)
    requires var db := p.srv.value.db;
      && Table.Wf(db) && Checkpoint.AllFit(db.chains) && |r.srv.value.db.chains| == |db.chains|
      && Executes(r, fs, cfg) == before + [MsgChkPt(Checkpoint.Export(db, num))] + Executes(p, es, cfg)
    ensures Storage.SameUpToStatus(SiteRun(r, fs, cfg).srv.value.db, SiteRun(p, es, cfg).srv.value.db)
  {
    RecoveredAgreesInRunsIff(p, es, r, fs, cfg, num, before, Executes(p, es, cfg));
  }
}
