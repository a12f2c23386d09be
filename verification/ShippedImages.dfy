/** The passive cluster with its checkpoints joined: what arrives as a checkpoint is the export of a
    table that a server of the cluster really shipped. */
module ShippedImages {
  import opened Types
  import Table
  import Checkpoint
  import Storage
  import M = ManagerSpec
  import S = ServerSpec
  import R = ServerRuns
  import F = Failover
  import opened Cluster
  import opened ClusterFailover

  /** The cluster and the tables its servers have shipped so far, also those that crashed since. */
  datatype Net = Net(c: Cluster, shipped: seq<Table.Table>)

  /** What a step ships: the growth of one server's list. */
  function NewlyShipped(c: Cluster, e: Event): seq<Table.Table>
    requires Proper(c, e)
  {
    if e.Handle? then []
    else Grown(c.sites[e.i].srv, SiteStep(c.sites[e.i], e.e, c.cfg).srv)
  }

  function Grown(before: Option<S.Srv>, after: Option<S.Srv>): seq<Table.Table> {
    if before.Some? && after.Some? && |before.value.shipped| <= |after.value.shipped|
    then after.value.shipped[|before.value.shipped|..]
    else []
  }

  function NetStep(n: Net, e: Event): Net
    requires Proper(n.c, e)
  {
    Net(Step(n.c, e), n.shipped + NewlyShipped(n.c, e))
  }

  /** A request that, if it is a checkpoint, is the export of one of the tables. */
  ghost predicate Real(req: Request, tables: seq<Table.Table>, num: Status -> int) {
    req.MsgChkPt? ==> exists k :: 0 <= k < |tables| && req.image == Checkpoint.Export(tables[k], num)
  }

  /** Checkpoints arrive from the cluster itself: late, again or not at all, but not invented. */
  ghost predicate Arrives(n: Net, e: Event, num: Status -> int) {
    e.At? && e.e.Local? && e.e.e.Recv? ==> Real(e.e.e.req, n.shipped, num)
  }

  ghost predicate ProperNet(n: Net, es: seq<Event>, num: Status -> int)
    decreases |es|
  {
    es != [] ==> Proper(n.c, es[0]) && Arrives(n, es[0], num) && ProperNet(NetStep(n, es[0]), es[1..], num)
  }

  function NetRun(n: Net, es: seq<Event>, num: Status -> int): Net
    requires ProperNet(n, es, num)
    decreases |es|
  {
    if es == [] then n else NetRun(NetStep(n, es[0]), es[1..], num)
  }

  lemma {:induction false} NetIsCluster(n: Net, es: seq<Event>, num: Status -> int)
    requires ProperNet(n, es, num)
    ensures ProperRun(n.c, es) && NetRun(n, es, num).c == Run(n.c, es)
    ensures n.shipped <= NetRun(n, es, num).shipped
    decreases |es|
  {
    hide Step, NewlyShipped;
    if es != [] {
      NetIsCluster(NetStep(n, es[0]), es[1..], num);
    }
  }

  // ---------- one server ----------

  ghost predicate AllReal(q: seq<S.Ctx>, tables: seq<Table.Table>, num: Status -> int) {
    forall i :: 0 <= i < |q| ==> Real(q[i].req, tables, num)
  }

  /** The base is the starting table or one imported from an image of the tables. */
  ghost predicate RealBase(h: F.Hist, start: S.Db, tables: seq<Table.Table>, num: Status -> int) {
    || h.base == start
    || exists k :: 0 <= k < |tables|
         && h.base == Checkpoint.Import(|start.chains|, Checkpoint.Export(tables[k], num))
  }

  lemma {:induction false} LastImageIsQueued(q: seq<S.Ctx>) returns (i: nat)
    requires R.LastImage(q).Some?
    ensures i < |q| && q[i].req == MsgChkPt(R.LastImage(q).value)
    decreases |q|
  {
    if q[|q| - 1].req.MsgChkPt? {
      i := |q| - 1;
    } else {
      i := LastImageIsQueued(q[..|q| - 1]);
    }
  }

  lemma RealStep(h: F.Hist, s: S.Srv, e: S.Event, start: S.Db, tables: seq<Table.Table>, num: Status -> int)
    requires AllReal(s.nrl, tables, num) && RealBase(h, start, tables, num)
    requires |s.db.chains| == |start.chains| && (e.Recv? ==> Real(e.req, tables, num))
    ensures var t := S.Step(s, e);
      AllReal(t.nrl, tables, num) && RealBase(F.Track(h, s, e), start, tables, num)
      && |t.db.chains| == |start.chains|
  {
    hide Real, S.NormalStep, Checkpoint.Import, R.LastImage, R.Checkpoints, RealBase;
    SameBase(h, F.Track(h, s, e), start, tables, num);
    if s.aborted || e.Recv? {
    } else if e.Normal? {
      if s.prune {
        R.PruneTurn(s);
        R.LastCheckpointWins(s.db, s.nrl);
        if R.HasCheckpoint(s.nrl) {
          var i := LastImageIsQueued(s.nrl);
          ImportIsReal(s.nrl[i].req, F.Track(h, s, e), start, tables, num);
        }
      } else {
        R.PlainTurn(s);
      }
    } else {
      R.QuietStep(s, e);
    }
  }

  lemma SameBase(h: F.Hist, g: F.Hist, start: S.Db, tables: seq<Table.Table>, num: Status -> int)
    requires RealBase(h, start, tables, num)
    ensures g.base == h.base ==> RealBase(g, start, tables, num)
  {
  }

  lemma ImportIsReal(req: Request, g: F.Hist, start: S.Db, tables: seq<Table.Table>, num: Status -> int)
    requires req.MsgChkPt? && Real(req, tables, num)
    requires g.base == Checkpoint.Import(|start.chains|, req.image)
    ensures RealBase(g, start, tables, num)
  {
    hide Checkpoint.Import, Checkpoint.Export;
  }

  lemma {:induction false} RealRun(h: F.Hist, s: S.Srv, es: seq<S.Event>, start: S.Db,
                                   tables: seq<Table.Table>, num: Status -> int)
    requires AllReal(s.nrl, tables, num) && RealBase(h, start, tables, num) && |s.db.chains| == |start.chains|
    requires forall k :: 0 <= k < |es| && es[k].Recv? ==> Real(es[k].req, tables, num)
    ensures RealBase(F.History(h, s, es), start, tables, num)
    decreases |es|
  {
    hide S.Step, F.Track, AllReal, RealBase, Real;
    if es != [] {
      RealStep(h, s, es[0], start, tables, num);
      RealRun(F.Track(h, s, es[0]), S.Step(s, es[0]), es[1..], start, tables, num);
    }
  }

  // ---------- what a replica sees ----------

  lemma RealLater(req: Request, tables: seq<Table.Table>, later: seq<Table.Table>, num: Status -> int)
    requires Real(req, tables, num) && tables <= later
    ensures Real(req, later, num)
  {
    hide Checkpoint.Export;
    if req.MsgChkPt? {
      var k :| 0 <= k < |tables| && req.image == Checkpoint.Export(tables[k], num);
      assert later[k] == tables[k];
    }
  }

  ghost predicate SeesReal(es: seq<S.Event>, tables: seq<Table.Table>, num: Status -> int) {
    forall k :: 0 <= k < |es| && es[k].Recv? ==> Real(es[k].req, tables, num)
  }

  lemma SeenIsReal(n: Net, e: Event, i: nat, tables: seq<Table.Table>, num: Status -> int)
    requires Proper(n.c, e) && Arrives(n, e, num) && i < |n.c.sites| && n.shipped <= tables
    ensures e.At? && e.i == i ==> SeesReal(Seen(n.c.sites[i], e.e), tables, num)
  {
    if e.At? && e.i == i && e.e.Local? && e.e.e.Recv? {
      RealLater(e.e.e.req, n.shipped, tables, num);
    }
  }

  lemma {:induction false} ViewIsReal(n: Net, es: seq<Event>, i: nat, num: Status -> int)
    requires ProperNet(n, es, num) && ProperRun(n.c, es) && i < |n.c.sites|
    ensures SeesReal(View(n.c, es, i), NetRun(n, es, num).shipped, num)
    decreases |es|
  {
    if es != [] {
      var e, tables := es[0], NetRun(n, es, num).shipped;
      NetIsCluster(n, es, num);
      SameReplicas(n.c, e);
      SeenIsReal(n, e, i, tables, num);
      hide Step, NewlyShipped, Seen, Real, Proper, Arrives;
      ViewIsReal(NetStep(n, e), es[1..], i, num);
    }
  }

  // ---------- shipped tables are sound ----------

  ghost predicate SoundTable(t: Table.Table, cfg: Config) {
    Table.Wf(t) && |t.chains| == cfg.buckets
  }

  ghost predicate Sound(n: Net) {
    && (forall i :: 0 <= i < |n.c.sites| && n.c.sites[i].srv.Some? ==> SoundTable(n.c.sites[i].srv.value.db, n.c.cfg))
    && (forall k :: 0 <= k < |n.shipped| ==> SoundTable(n.shipped[k], n.c.cfg))
  }

  /** A server ships its own table, and steps from sound tables to sound ones. */
  lemma ServerSound(s: S.Srv, e: S.Event, cfg: Config)
    requires SoundTable(s.db, cfg)
    ensures SoundTable(S.Step(s, e).db, cfg)
    ensures S.Step(s, e).shipped == s.shipped || S.Step(s, e).shipped == s.shipped + [s.db]
  {
    var since := R.StepIsHistory(s, e);
    Storage.AlwaysWf(s.db, since);
    hide Table.Wf;
    ShipsOwn(s, e);
    hide S.Step;
  }

  lemma ShipsOwn(s: S.Srv, e: S.Event)
    ensures S.Step(s, e).shipped == s.shipped || S.Step(s, e).shipped == s.shipped + [s.db]
  {
    hide S.NormalStep, S.SetState, S.HandleRepMsg;
    match e
    case Normal => if s.prune { R.PruneTurn(s); } else { R.PlainTurn(s); }
    case Control =>
      if s.ctrl != [] && s.ctrl[0].req.MsgRepMgr? {
        RoleShipsNothing(s.(ctrl := s.ctrl[1..]), s.ctrl[0].req.msg);
      }
    case QuiesceStart => R.SetStateQuiet(s.(prev := s.state), Quiesce);
    case QuiesceStop => R.SetStateQuiet(s, s.prev);
    case _ =>
  }

  lemma RoleShipsNothing(s: S.Srv, msg: RepMgrMsg)
    ensures S.HandleRepMsg(s, msg).shipped == s.shipped
  {
  }

  lemma SiteSound(x: Site, e: SiteEvent, cfg: Config)
    requires cfg.buckets > 0 && (x.srv.Some? ==> SoundTable(x.srv.value.db, cfg))
    ensures var y := SiteStep(x, e, cfg); y.srv.Some? ==> SoundTable(y.srv.value.db, cfg)
    ensures var more := Grown(x.srv, SiteStep(x, e, cfg).srv);
      forall k :: 0 <= k < |more| ==> SoundTable(more[k], cfg)
  {
    if x.srv.None? {
      Table.EmptyWf(cfg.buckets);
      hide S.Step;
    } else {
      var s := x.srv.value;
      match e
      case Local(ev) => ServerSound(s, ev, cfg);
      case Deliver =>
        if x.chan != [] {
          match x.chan[0]
          case ChangeState(msg) => ServerSound(s, S.Recv(MsgRepMgr(Arrived(msg))), cfg);
          case SendChkpt => ServerSound(s, S.Recv(MsgSendChkpt), cfg);
          case QuiesceBegin => ServerSound(s, S.QuiesceStart, cfg);
          case QuiesceStop => ServerSound(s, S.QuiesceStop, cfg);
          case Startup =>
        }
      case _ =>
      hide S.Step, SoundTable;
    }
  }

  lemma SoundReport(n: Net, e: Event)
    requires Sound(n) && Proper(n.c, e) && e.Handle?
    ensures Sound(NetStep(n, e))
  {
    var m := NetStep(n, e);
    assert m.shipped == n.shipped;
    hide SoundTable;
    if !n.c.mgr.locked {
      forall i | 0 <= i < |n.c.sites| ensures m.c.sites[i].srv == n.c.sites[i].srv {
        PostSameServers(n.c.sites, SentBy(n.c, e), i);
      }
    }
  }

  lemma SoundUpdate(n: Net, m: Net, i: nat, more: seq<Table.Table>)
    requires Sound(n) && m.c.cfg == n.c.cfg && i < |n.c.sites| == |m.c.sites| && m.shipped == n.shipped + more
    requires forall j :: 0 <= j < |n.c.sites| && j != i ==> m.c.sites[j].srv == n.c.sites[j].srv
    requires m.c.sites[i].srv.Some? ==> SoundTable(m.c.sites[i].srv.value.db, n.c.cfg)
    requires forall k :: 0 <= k < |more| ==> SoundTable(more[k], n.c.cfg)
    ensures Sound(m)
  {
    hide SoundTable;
    forall k | 0 <= k < |m.shipped| ensures SoundTable(m.shipped[k], m.c.cfg) {
      assert m.shipped[k] == if k < |n.shipped| then n.shipped[k] else more[k - |n.shipped|];
    }
  }

  lemma SoundOwn(n: Net, e: Event)
    requires Sound(n) && Proper(n.c, e) && e.At?
    ensures Sound(NetStep(n, e))
  {
    hide Sound, SoundTable, SiteStep, Grown;
    SoundParts(n, e.i);
    SiteSound(n.c.sites[e.i], e.e, n.c.cfg);
    SoundUpdate(n, NetStep(n, e), e.i, NewlyShipped(n.c, e));
  }

  lemma SoundStep(n: Net, e: Event)
    requires Sound(n) && Proper(n.c, e)
    ensures Sound(NetStep(n, e))
  {
    hide Sound, NetStep;
    if e.Handle? {
      SoundReport(n, e);
    } else {
      SoundOwn(n, e);
    }
  }

  /** What a report sends. */
  function SentBy(c: Cluster, e: Event): seq<M.Send>
    requires Proper(c, e) && e.Handle?
  {
    M.HandleState(c.mgr, e.rep, e.lost).sent
  }

  lemma {:induction false} PostSameServers(sites: seq<Site>, sent: seq<M.Send>, i: nat)
    requires i < |sites|
    ensures Post(sites, sent)[i].srv == sites[i].srv
    decreases |sent|
  {
    if sent != [] {
      PostSameServers(PostOne(sites, sent[0]), sent[1..], i);
    }
  }

  lemma {:induction false} SoundRun(n: Net, es: seq<Event>, num: Status -> int)
    requires Sound(n) && ProperNet(n, es, num)
    ensures Sound(NetRun(n, es, num))
    decreases |es|
  {
    if es != [] {
      SoundStep(n, es[0]);
      hide Sound, NetStep;
      SoundRun(NetStep(n, es[0]), es[1..], num);
    }
  }

  // ---------- failover ----------

  /** The table imported from the export of t, followed by the requests since; that is t followed by
      them, up to status, if its tasks fit the image. */
  ghost predicate FromTable(db: S.Db, t: Table.Table, since: seq<Request>, num: Status -> int) {
    && |t.chains| > 0
    && db == Storage.HandleAll(Checkpoint.Import(|t.chains|, Checkpoint.Export(t, num)), since)
    && (Checkpoint.AllFit(t.chains) ==> Storage.SameUpToStatus(db, Storage.HandleAll(t, since)))
  }

  /** What a drained table may be: the starting table, or one imported from a shipped table, and the
      requests since. */
  ghost predicate FromShipped(db: S.Db, start: S.Db, since: seq<Request>, shipped: seq<Table.Table>,
                              num: Status -> int) {
    || db == Storage.HandleAll(start, since)
    || exists k :: 0 <= k < |shipped| && FromTable(db, shipped[k], since, num)
  }

  lemma BaseMeans(h: F.Hist, db: S.Db, start: S.Db, shipped: seq<Table.Table>, cfg: Config, num: Status -> int)
    requires RealBase(h, start, shipped, num) && db == Storage.HandleAll(h.base, h.since)
    requires SoundTable(start, cfg) && forall k :: 0 <= k < |shipped| ==> SoundTable(shipped[k], cfg)
    ensures FromShipped(db, start, h.since, shipped, num)
  {
    hide Table.Wf, Checkpoint.AllFit, Checkpoint.Import, Checkpoint.Export, Storage.HandleAll, Storage.SameUpToStatus;
    if h.base != start {
      var k :| 0 <= k < |shipped|
        && h.base == Checkpoint.Import(|start.chains|, Checkpoint.Export(shipped[k], num));
      assert SoundTable(shipped[k], cfg);
      if Checkpoint.AllFit(shipped[k].chains) {
        Storage.ReplicaCatchesUp(shipped[k], num, h.since);
      }
      assert FromTable(db, shipped[k], h.since, num);
    }
  }

  /** Failover on real checkpoints. In every run of the passive cluster in which what arrives as a
      checkpoint was shipped by one of its servers: a replica that starts as an idle server, is never
      refused a checkpoint and does not crash holds, once drained, its starting table or a table
      that was really shipped (up to status, if its tasks fit the image), followed by exactly the
      requests it accepted after executing that checkpoint. */
  lemma FailoverOnShipped(n: Net, es: seq<Event>, i: nat, num: Status -> int)
    requires PassiveCluster(n.c) && Sound(n) && ProperNet(n, es, num) && ProperRun(n.c, es)
    requires i < |n.c.sites| && n.c.sites[i].srv.Some? && NeverCrashes(es, i)
    requires var s := n.c.sites[i].srv.value;
      s.nrl == [] && !s.prune && R.NoCheckpointRefused(s, View(n.c, es, i))
    ensures var s := n.c.sites[i].srv.value;
      var h := F.History(F.Hist(s.db, []), s, View(n.c, es, i));
      var d := NetRun(n, es, num);
      && d.c == Run(n.c, es) && |d.c.sites| == |n.c.sites| && d.c.sites[i].srv.Some?
      && var t := d.c.sites[i].srv.value;
      t.nrl == [] ==> FromShipped(t.db, s.db, h.since, d.shipped, num)
  {
    var s, d, start := n.c.sites[i].srv.value, NetRun(n, es, num), F.Hist(n.c.sites[i].srv.value.db, []);
    NetIsCluster(n, es, num);
    FailoverInCluster(n.c, es, i);
    ViewIsReal(n, es, i, num);
    SoundRun(n, es, num);
    SoundParts(n, i);
    SoundParts(d, i);
    SameConfig(n, es, num);
    hide PassiveCluster, ProperNet, ProperRun, Run, NetRun, View, F.History, FromShipped, Sound, SoundTable, Real;
    RealRun(start, s, View(n.c, es, i), s.db, d.shipped, num);
    var t := d.c.sites[i].srv.value;
    if t.nrl == [] {
      BaseMeans(F.History(start, s, View(n.c, es, i)), t.db, s.db, d.shipped, n.c.cfg, num);
    }
  }

  lemma SoundParts(n: Net, i: nat)
    requires Sound(n) && i < |n.c.sites|
    ensures n.c.sites[i].srv.Some? ==> SoundTable(n.c.sites[i].srv.value.db, n.c.cfg)
    ensures forall k :: 0 <= k < |n.shipped| ==> SoundTable(n.shipped[k], n.c.cfg)
  {
  }

  lemma {:induction false} SameConfig(n: Net, es: seq<Event>, num: Status -> int)
    requires ProperNet(n, es, num)
    ensures NetRun(n, es, num).c.cfg == n.c.cfg
    decreases |es|
  {
    if es != [] {
      SameConfig(NetStep(n, es[0]), es[1..], num);
    }
  }

  lemma BootIsSound(c: Cluster)
    requires forall i :: 0 <= i < |c.sites| ==> c.sites[i].srv.None?
    ensures Sound(Net(c, []))
  {
  }
}
