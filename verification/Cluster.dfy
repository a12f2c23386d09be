/** The cluster: the manager, one factory channel and at most one live server per replica.
    Commands travel asynchronously, in order per factory, and may be lost; servers crash at any
    time and come up again only through a start-up command. */
module Cluster {
  import opened Types
  import opened ManagerSpec
  import S = ServerSpec
  import R = ServerRuns
  import MR = ManagerRuns
  import W = Relay
  import Text

  /** One replica: its server, if it runs, and the commands its factory has not handled yet. */
  datatype Site = Site(srv: Option<S.Srv>, chan: seq<Cmd>)

  /** What a freshly started server is configured with. */
  datatype Config = Config(nrlLimit: nat, ctrlLimit: nat, buckets: nat)

  datatype Cluster = Cluster(mgr: Mgr, sites: seq<Site>, cfg: Config)

  /** Steps of one replica: its factory handles or loses the next command, its server crashes,
      or its server takes a step of its own. */
  datatype SiteEvent = Deliver | Lose | Crash | Local(e: S.Event)

  datatype Event = Handle(rep: Report, lost: set<Send>) | At(i: nat, e: SiteEvent)

  // ---------- steps ----------

  /** A server whose assertion failed is gone. */
  function Alive(s: S.Srv): Option<S.Srv> {
    if s.aborted then None else Some(s)
  }

  /** A role change as it reaches the server through the factory's text: what is not carried has the
      server's defaults, and a frequency is cut to an int. */
  function Arrived(msg: RepMgrMsg): RepMgrMsg {
    if W.CarriesPeers(msg.state) then msg.(freq := Text.Int32(msg.freq)) else PlainMsg(msg.mode, msg.state)
  }

  /** handle_rep_man_command: start-up spawns a server, which cannot take the port of one that
      runs; every other command is relayed to the server, if there is one. */
  function Relay(srv: Option<S.Srv>, cmd: Cmd, cfg: Config): Option<S.Srv>
    requires cfg.buckets > 0
  {
    if srv.None? then
      if cmd.Startup? then Some(S.Boot(cfg.nrlLimit, cfg.ctrlLimit, cfg.buckets)) else None
    else match cmd
      case Startup => srv
      case ChangeState(msg) => Alive(S.Step(srv.value, S.Recv(MsgRepMgr(Arrived(msg)))))
      case SendChkpt => Alive(S.Step(srv.value, S.Recv(MsgSendChkpt)))
      case QuiesceBegin => Alive(S.Step(srv.value, S.QuiesceStart))
      case QuiesceStop => Alive(S.Step(srv.value, S.QuiesceStop))
  }

  function SiteStep(x: Site, e: SiteEvent, cfg: Config): Site
    requires cfg.buckets > 0
  {
    match e
    case Deliver => if x.chan == [] then x else Site(Relay(x.srv, x.chan[0], cfg), x.chan[1..])
    case Lose => if x.chan == [] then x else x.(chan := x.chan[1..])
    case Crash => x.(srv := None)
    case Local(ev) => if x.srv.None? then x else x.(srv := Alive(S.Step(x.srv.value, ev)))
  }

  function SiteRun(x: Site, es: seq<SiteEvent>, cfg: Config): Site
    requires cfg.buckets > 0
    decreases |es|
  {
    if es == [] then x else SiteRun(SiteStep(x, es[0], cfg), es[1..], cfg)
  }

  /** Steps of one replica in which role changes and quiescence come through its factory. */
  ghost predicate Own(es: seq<SiteEvent>) {
    forall i :: 0 <= i < |es| ==> OwnEvent(es[i])
  }

  function PostOne(sites: seq<Site>, s: Send): (r: seq<Site>)
    ensures |r| == |sites|
  {
    if 0 <= s.dest < |sites| then sites[s.dest := sites[s.dest].(chan := sites[s.dest].chan + [s.cmd])]
    else sites
  }

  /** Commands sent join the channels of their factories. */
  function Post(sites: seq<Site>, sent: seq<Send>): (r: seq<Site>)
    ensures |r| == |sites|
    decreases |sent|
  {
    if sent == [] then sites else Post(PostOne(sites, sent[0]), sent[1..])
  }

  /** A server's own steps: it is fed by clients, while role changes and quiescence reach it
      through its factory alone. */
  predicate OwnEvent(e: SiteEvent) {
    e.Local? ==>
      !e.e.QuiesceStart? && !e.e.QuiesceStop? && (e.e.Recv? ==> !e.e.req.MsgRepMgr?)
  }

  predicate Proper(c: Cluster, e: Event) {
    && Shape(c)
    && match e
       case Handle(rep, _) => rep.id < |c.sites|
       case At(i, x) =>
         i < |c.sites| && OwnEvent(x)
  }

  predicate Shape(c: Cluster) {
    && 0 < |c.sites| == |c.mgr.node| == |c.mgr.hb| == |c.mgr.status| == |c.mgr.needs| == |c.mgr.peers|
    && -1 <= c.mgr.primary < |c.sites|
    && c.cfg.buckets > 0
  }

  function Step(c: Cluster, e: Event): Cluster
    requires Proper(c, e)
  {
    match e
    case Handle(rep, lost) =>
      if c.mgr.locked then c
      else
        var o := HandleState(c.mgr, rep, lost);
        c.(mgr := o.mgr, sites := Post(c.sites, o.sent))
    case At(i, x) => c.(sites := c.sites[i := SiteStep(c.sites[i], x, c.cfg)])
  }

  ghost predicate ProperRun(c: Cluster, es: seq<Event>)
    decreases |es|
  {
    es != [] ==> Proper(c, es[0]) && ProperRun(Step(c, es[0]), es[1..])
  }

  function Run(c: Cluster, es: seq<Event>): Cluster
    requires ProperRun(c, es)
    decreases |es|
  {
    if es == [] then c else Run(Step(c, es[0]), es[1..])
  }

  // ---------- who may become primary ----------

  predicate IsPromotion(cmd: Cmd) {
    cmd.ChangeState? && cmd.msg.state in {PassivePreprimary, PassivePrimary}
  }

  predicate HasPromotion(ch: seq<Cmd>) {
    ch != [] && (IsPromotion(ch[0]) || HasPromotion(ch[1..]))
  }

  predicate StartThenPromotion(ch: seq<Cmd>) {
    ch != [] && (if ch[0].Startup? then HasPromotion(ch[1..]) else StartThenPromotion(ch[1..]))
  }

  predicate QueuedPromotion(q: seq<S.Ctx>) {
    q != [] && ((q[0].req.MsgRepMgr? && q[0].req.msg.state in {PassivePreprimary, PassivePrimary})
                || QueuedPromotion(q[1..]))
  }

  predicate Promoted(s: S.Srv) {
    s.state == PassivePreprimary || s.state == PassivePrimary
  }

  predicate IsPrimary(x: Site) {
    x.srv.Some? && Promoted(x.srv.value)
  }

  /** The replica is primary or can become it on what is already under way to it: a promotion
      waits for its live server, or will reach the server a start-up command brings up first. */
  predicate Owed(x: Site) {
    match x.srv
    case Some(s) => Promoted(s) || QueuedPromotion(s.ctrl) || HasPromotion(x.chan)
    case None => StartThenPromotion(x.chan)
  }

  // ---------- commands of a passive cluster ----------

  predicate PassiveMsg(msg: RepMgrMsg) {
    msg.mode == PassiveRep && msg.state in {PassiveBackup, PassivePreprimary}
  }

  predicate PassiveCmd(cmd: Cmd) {
    cmd.Startup? || cmd.SendChkpt? || (cmd.ChangeState? && PassiveMsg(cmd.msg))
  }

  /** A live server of a passive cluster: never aborted, never active, sound state machine. */
  ghost predicate PassiveServer(s: S.Srv, cfg: Config) {
    && !s.aborted && R.Fsm(s) && s.mode != ActiveRep && s.ctrlLimit == cfg.ctrlLimit
    && forall i :: 0 <= i < |s.ctrl| ==> s.ctrl[i].req.MsgRepMgr? ==> PassiveMsg(s.ctrl[i].req.msg)
  }

  ghost predicate PassiveSite(x: Site, cfg: Config) {
    && (forall i :: 0 <= i < |x.chan| ==> PassiveCmd(x.chan[i]))
    && (x.srv.Some? ==> PassiveServer(x.srv.value, cfg))
  }

  ghost predicate PassiveCluster(c: Cluster) {
    && Shape(c) && c.mgr.style == Passive && (c.mgr.locked || Inv(c.mgr)) && c.cfg.ctrlLimit > 0
    && forall i :: 0 <= i < |c.sites| ==> PassiveSite(c.sites[i], c.cfg)
  }

  /** Only the replica the manager takes for primary is or can become primary. */
  ghost predicate Safe(c: Cluster) {
    forall i :: 0 <= i < |c.sites| && i != c.mgr.primary ==> !Owed(c.sites[i])
  }

  // ---------- a replica on its own ----------

  lemma {:induction false} PromotionTail(ch: seq<Cmd>)
    ensures StartThenPromotion(ch) ==> HasPromotion(ch)
    decreases |ch|
  {
    if ch != [] {
      PromotionTail(ch[1..]);
    }
  }

  lemma {:induction false} QueuedSnoc(q: seq<S.Ctx>, c: S.Ctx)
    ensures QueuedPromotion(q + [c]) <==> QueuedPromotion(q) || QueuedPromotion([c])
    decreases |q|
  {
    if q == [] {
      assert q + [c] == [c];
    } else {
      assert (q + [c])[0] == q[0] && (q + [c])[1..] == q[1..] + [c];
      QueuedSnoc(q[1..], c);
    }
  }

  lemma ReceivePassive(s: S.Srv, req: Request, cfg: Config)
    requires PassiveServer(s, cfg) && (req.MsgRepMgr? ==> PassiveMsg(req.msg))
    ensures PassiveServer(S.Receive(s, req), cfg)
    ensures var t := S.Receive(s, req);
      t.state == s.state && (QueuedPromotion(t.ctrl) ==>
        QueuedPromotion(s.ctrl) || (req.MsgRepMgr? && req.msg.state == PassivePreprimary))
    ensures req.MsgRepMgr? && req.msg.state == PassivePreprimary && |s.ctrl| < s.ctrlLimit ==>
      QueuedPromotion(S.Receive(s, req).ctrl)
    ensures QueuedPromotion(s.ctrl) ==> QueuedPromotion(S.Receive(s, req).ctrl)
    ensures |S.Receive(s, req).ctrl| <= |s.ctrl| + 1
  {
    QueuedSnoc(s.ctrl, S.Ctx(req, S.IsBackup(s)));
    assert QueuedPromotion([]) == false;
  }

  lemma ControlPassive(s: S.Srv, cfg: Config)
    requires PassiveServer(s, cfg)
    ensures PassiveServer(S.ControlStep(s), cfg)
    ensures var t := S.ControlStep(s);
      && (Promoted(t) || QueuedPromotion(t.ctrl) ==> Promoted(s) || QueuedPromotion(s.ctrl))
      && (QueuedPromotion(s.ctrl) ==> Promoted(t) || QueuedPromotion(t.ctrl))
      && (s.ctrl != [] ==> |t.ctrl| == |s.ctrl| - 1)
  {
    R.FsmStep(s, S.Control);
    if s.ctrl != [] {
      var u := s.(ctrl := s.ctrl[1..]);
      R.ControlQuiet(u, s.ctrl[0].req);
      PassiveEffect(u, s.ctrl[0].req);
      hide S.ExecuteControl;
      assert forall i :: 0 <= i < |u.ctrl| ==> u.ctrl[i] == s.ctrl[i + 1];
    }
  }

  /** A role change of a passive cluster never aborts and takes effect. */
  lemma PassiveEffect(s: S.Srv, req: Request)
    requires !s.aborted && R.Fsm(s) && s.mode != ActiveRep && (req.MsgRepMgr? ==> PassiveMsg(req.msg))
    ensures var t := S.ExecuteControl(s, req);
      !t.aborted && t.mode != ActiveRep && t.state == if req.MsgRepMgr? then req.msg.state else s.state
  {
  }

  lemma TurnPassive(s: S.Srv, cfg: Config)
    requires PassiveServer(s, cfg)
    ensures PassiveServer(S.NormalStep(s), cfg)
    ensures Promoted(S.NormalStep(s)) ==> Promoted(s)
  {
    R.NormalTurnShape(s);
    if s.prune { R.PruneTurn(s); } else { R.PlainTurn(s); }
    hide S.NormalStep;
  }

  lemma LocalPassive(s: S.Srv, e: S.Event, cfg: Config)
    requires PassiveServer(s, cfg) && OwnEvent(Local(e))
    ensures var t := S.Step(s, e);
      PassiveServer(t, cfg) && (Promoted(t) || QueuedPromotion(t.ctrl) ==> Promoted(s) || QueuedPromotion(s.ctrl))
  {
    match e
    case Recv(req) => ReceivePassive(s, req, cfg);
    case Normal => TurnPassive(s, cfg); R.NormalTurnShape(s);
    case Control => ControlPassive(s, cfg);
    case Tick =>
  }

  lemma RelayPassive(x: Site, cfg: Config)
    requires PassiveSite(x, cfg) && cfg.buckets > 0 && x.chan != []
    ensures PassiveSite(SiteStep(x, Deliver, cfg), cfg)
    ensures Owed(SiteStep(x, Deliver, cfg)) ==> Owed(x)
  {
    var cmd, rest := x.chan[0], x.chan[1..];
    assert forall i :: 0 <= i < |rest| ==> rest[i] == x.chan[i + 1];
    R.BootFsm(cfg.nrlLimit, cfg.ctrlLimit, cfg.buckets);
    if x.srv.Some? {
      if cmd.ChangeState? {
        ReceivePassive(x.srv.value, MsgRepMgr(Arrived(cmd.msg)), cfg);
      } else if cmd.SendChkpt? {
        ReceivePassive(x.srv.value, MsgSendChkpt, cfg);
      }
      hide S.Receive;
    }
  }

  /** No step of a replica makes it more entitled than it was, and none leaves the commands and
      states of a passive cluster. */
  lemma OwnStep(x: Site, e: SiteEvent, cfg: Config)
    requires PassiveSite(x, cfg) && cfg.buckets > 0 && OwnEvent(e)
    ensures PassiveSite(SiteStep(x, e, cfg), cfg)
    ensures Owed(SiteStep(x, e, cfg)) ==> Owed(x)
  {
    match e
    case Deliver => if x.chan != [] { RelayPassive(x, cfg); }
    case Lose => if x.chan != [] { PromotionTail(x.chan[1..]); }
    case Crash => PromotionTail(x.chan);
    case Local(ev) =>
      if x.srv.Some? {
        LocalPassive(x.srv.value, ev, cfg);
        hide S.Step;
      }
  }

  // ---------- reports ----------

  lemma {:induction false} AppendedPromotion(ch: seq<Cmd>, cmd: Cmd)
    ensures HasPromotion(ch + [cmd]) <==> HasPromotion(ch) || IsPromotion(cmd)
    ensures StartThenPromotion(ch) ==> StartThenPromotion(ch + [cmd])
    ensures !IsPromotion(cmd) && StartThenPromotion(ch + [cmd]) ==> StartThenPromotion(ch)
    ensures IsPromotion(cmd) && Startup in ch ==> StartThenPromotion(ch + [cmd])
    decreases |ch|
  {
    if ch == [] {
      assert ch + [cmd] == [cmd];
      assert !HasPromotion([]);
    } else {
      assert (ch + [cmd])[0] == ch[0] && (ch + [cmd])[1..] == ch[1..] + [cmd];
      AppendedPromotion(ch[1..], cmd);
    }
  }

  lemma AppendOwed(x: Site, cmd: Cmd)
    ensures !IsPromotion(cmd) ==> (Owed(x.(chan := x.chan + [cmd])) <==> Owed(x))
    ensures Owed(x) ==> Owed(x.(chan := x.chan + [cmd]))
    ensures IsPromotion(cmd) && (x.srv.Some? || Startup in x.chan) ==> Owed(x.(chan := x.chan + [cmd]))
  {
    AppendedPromotion(x.chan, cmd);
  }

  /** What a handled report sends in a passive cluster: no promotion to anyone but the replica
      that is primary afterwards. */
  ghost predicate PassiveSends(sent: seq<Send>, primary: int, n: nat) {
    forall k :: 0 <= k < |sent| ==>
      && PassiveCmd(sent[k].cmd) && 0 <= sent[k].dest < n
      && (IsPromotion(sent[k].cmd) ==> sent[k].dest == primary)
  }

  lemma ReactSends(m: Mgr, rep: Report, lost: set<Send>)
    requires Inv(m) && m.style == Passive && rep.id < |m.node|
    ensures PassiveSends(React(m, rep, lost).sent, React(m, rep, lost).mgr.primary, |m.node|)
    ensures React(m, rep, lost).mgr.primary
         == if rep.state == Faulted && rep.id == m.primary then (rep.id + 1) % |m.node|
            else if rep.state == Faulted && m.primary == -1 then rep.id
            else m.primary
  {
    hide Count;
  }

  lemma ReportSends(m: Mgr, rep: Report, lost: set<Send>)
    requires Inv(m) && m.style == Passive && rep.id < |m.node|
    ensures PassiveSends(HandleState(m, rep, lost).sent, HandleState(m, rep, lost).mgr.primary, |m.node|)
    ensures HandleState(m, rep, lost).mgr.primary
         == if rep.state == Faulted && rep.id == m.primary then (rep.id + 1) % |m.node|
            else if rep.state == Faulted && m.primary == -1 then rep.id
            else m.primary
  {
    var seen := m.(hb := m.hb[rep.id := true]);
    ReactSends(seen, rep, lost);
    ReactReacts(seen, rep, lost);
    hide React, PassiveSends, Count;
  }

  lemma {:induction false} PostKeeps(sites: seq<Site>, sent: seq<Send>, primary: int, cfg: Config, i: nat)
    requires PassiveSends(sent, primary, |sites|) && i < |sites|
    requires PassiveSite(sites[i], cfg)
    ensures PassiveSite(Post(sites, sent)[i], cfg)
    ensures Post(sites, sent)[i].srv == sites[i].srv
    ensures i != primary ==> (Owed(Post(sites, sent)[i]) <==> Owed(sites[i]))
    ensures Owed(sites[i]) ==> Owed(Post(sites, sent)[i])
    decreases |sent|
  {
    if sent != [] {
      var d, x := sent[0].dest, sites[sent[0].dest];
      AppendOwed(x, sent[0].cmd);
      var next := PostOne(sites, sent[0]);
      hide Owed, PassiveServer;
      PostKeeps(next, sent[1..], primary, cfg, i);
    }
  }

  /** A report about the primary is handled only when nothing can make that replica primary any
      more: it is down, and no promotion will reach it on what is already under way. */
  ghost predicate Guarded(c: Cluster, e: Event)
    requires Proper(c, e)
  {
    e.Handle? && !c.mgr.locked && e.rep.state == Faulted && e.rep.id == c.mgr.primary ==>
      !Owed(c.sites[e.rep.id])
  }

  lemma ReportStep(c: Cluster, e: Event)
    requires Proper(c, e) && e.Handle? && PassiveCluster(c)
    ensures PassiveCluster(Step(c, e))
    ensures Safe(c) && Guarded(c, e) ==> Safe(Step(c, e))
  {
    if !c.mgr.locked {
      var o := HandleState(c.mgr, e.rep, e.lost);
      ReportSends(c.mgr, e.rep, e.lost);
      ReportKeepsInv(c.mgr, e.rep, e.lost);
      MR.StepWf(c.mgr, MR.Rep(e.rep, e.lost));
      hide HandleState, Inv, Owed, PassiveSite, Post;
      forall i | 0 <= i < |c.sites|
        ensures PassiveSite(Post(c.sites, o.sent)[i], c.cfg)
        ensures i != o.mgr.primary ==> (Owed(Post(c.sites, o.sent)[i]) <==> Owed(c.sites[i]))
      {
        PostKeeps(c.sites, o.sent, o.mgr.primary, c.cfg, i);
      }
    }
  }

  lemma OwnClusterStep(c: Cluster, e: Event)
    requires Proper(c, e) && e.At? && PassiveCluster(c)
    ensures PassiveCluster(Step(c, e))
    ensures Safe(c) ==> Safe(Step(c, e))
  {
    OwnStep(c.sites[e.i], e.e, c.cfg);
    hide Owed, PassiveSite, SiteStep, Inv;
  }

  // ---------- safety in every run ----------

  ghost predicate GuardedRun(c: Cluster, es: seq<Event>)
    requires ProperRun(c, es)
    decreases |es|
  {
    es != [] ==> Guarded(c, es[0]) && GuardedRun(Step(c, es[0]), es[1..])
  }

  /** In every guarded run of the passive cluster, with any crashes, restarts and losses, at most
      one live server is PREPRIMARY or PRIMARY, and it is the replica the manager takes for
      primary. No server ever aborts. */
  lemma {:induction false} AtMostOnePrimary(c: Cluster, es: seq<Event>)
    requires PassiveCluster(c) && Safe(c) && ProperRun(c, es) && GuardedRun(c, es)
    ensures PassiveCluster(Run(c, es)) && Safe(Run(c, es))
    ensures forall i :: 0 <= i < |Run(c, es).sites| && IsPrimary(Run(c, es).sites[i]) ==> i == Run(c, es).mgr.primary
    decreases |es|
  {
    if es != [] {
      if es[0].Handle? {
        ReportStep(c, es[0]);
      } else {
        OwnClusterStep(c, es[0]);
      }
      hide Step, PassiveCluster, Safe;
      AtMostOnePrimary(Step(c, es[0]), es[1..]);
    }
  }

  function BootCluster(peers: seq<Peer>, freq: int, cfg: Config): Cluster {
    Cluster(Boot(Passive, peers, freq), seq(|peers|, _ => Site(None, [])), cfg)
  }

  lemma BootIsSafe(peers: seq<Peer>, freq: int, cfg: Config)
    requires peers != [] && cfg.buckets > 0 && cfg.ctrlLimit > 0
    ensures PassiveCluster(BootCluster(peers, freq, cfg)) && Safe(BootCluster(peers, freq, cfg))
  {
    BootInv(Passive, peers, freq);
  }
}
