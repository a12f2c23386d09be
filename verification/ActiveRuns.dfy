/** The active cluster over whole runs, with commands in flight: manager, factory channels and
    control queues together, with crashes and restarts at any point. */
module ActiveRuns {
  import opened Types
  import opened ManagerSpec
  import S = ServerSpec
  import R = ServerRuns
  import A = ActiveRecovery
  import MR = ManagerRuns
  import opened Cluster
  import opened ActiveDelivery

  /** Where a replica stands among the commands it is sent: down, fresh, running; in a recovery
      of its own after RECOVER, BEGIN and STOP; or in somebody else's after BEGIN. */
  datatype Phase = Down | Fresh | Idle | Recovering | RecoveringQuiet | Back | Quiet

  function RunCmd(cmd: Cmd): bool {
    cmd.ChangeState? && cmd.msg.mode == ActiveRep && cmd.msg.state == ActiveRunning
  }

  function RecoverCmd(cmd: Cmd): bool {
    cmd.ChangeState? && cmd.msg.mode == ActiveRep && cmd.msg.state == ActiveRecover
  }

  /** The phase after a command, unless the command is out of place. */
  function Next(p: Phase, cmd: Cmd): Option<Phase> {
    match p
    case Down => Some(if cmd.Startup? then Fresh else Down)
    case Fresh =>
      if cmd.Startup? || cmd.SendChkpt? then Some(Fresh)
      else if RunCmd(cmd) then Some(Idle)
      else if RecoverCmd(cmd) then Some(Recovering) else None
    case Idle =>
      if cmd.Startup? || cmd.SendChkpt? || RunCmd(cmd) then Some(Idle)
      else if RecoverCmd(cmd) then Some(Recovering)
      else if cmd.QuiesceBegin? then Some(Quiet) else None
    case Recovering => if cmd.QuiesceBegin? then Some(RecoveringQuiet) else None
    case RecoveringQuiet =>
      if cmd.SendChkpt? then Some(RecoveringQuiet) else if cmd.QuiesceStop? then Some(Back) else None
    case Back => if RunCmd(cmd) then Some(Idle) else None
    case Quiet => if cmd.SendChkpt? then Some(Quiet) else if cmd.QuiesceStop? then Some(Idle) else None
  }

  /** The commands under way lead from p to rest: a running replica, or none, or, as long as it is
      not marked RUNNING, a fresh one. A start-up may find the server still there or gone. */
  predicate Leads(p: Phase, chan: seq<Cmd>, marked: bool)
    decreases |chan|
  {
    if chan == [] then p == Down || p == Idle || (p == Fresh && !marked)
    else match Next(p, chan[0])
      case None => false
      case Some(q) => Leads(q, chan[1..], marked) && (chan[0].Startup? ==> Leads(Fresh, chan[1..], marked))
  }

  /** A server may crash whatever is under way. */
  lemma {:induction false} LeadsDown(p: Phase, chan: seq<Cmd>, marked: bool)
    requires Leads(p, chan, marked)
    ensures Leads(Down, chan, marked)
    decreases |chan|
  {
    if chan != [] {
      LeadsDown(Next(p, chan[0]).value, chan[1..], marked);
    }
  }

  /** Commands sent to a replica at rest join those under way. */
  lemma {:induction false} LeadsOn(p: Phase, chan: seq<Cmd>, marked: bool, more: seq<Cmd>, marked': bool)
    requires Leads(p, chan, marked)
    requires Leads(Down, more, marked') && Leads(Idle, more, marked') && (!marked ==> Leads(Fresh, more, marked'))
    ensures Leads(p, chan + more, marked')
    decreases |chan|
  {
    if chan == [] {
      assert chan + more == more;
    } else {
      assert (chan + more)[0] == chan[0] && (chan + more)[1..] == chan[1..] + more;
      LeadsOn(Next(p, chan[0]).value, chan[1..], marked, more, marked');
      if chan[0].Startup? {
        LeadsOn(Fresh, chan[1..], marked, more, marked');
      }
    }
  }

  // ---------- a live server in its phase ----------

  ghost predicate InPhase(s: S.Srv, p: Phase) {
    && ActiveServer(s)
    && var roles := Roles(s.ctrl);
    match p
    case Down => false
    case Fresh => roles == [] && s.mode == UnknownRep && s.state == UnknownState
    case Idle =>
      && s.state != Quiesce && (forall k :: 0 <= k < |roles| ==> roles[k] == ActiveRunning)
      && (roles == [] ==> s.state == ActiveRunning)
    case Recovering =>
      && s.state != Quiesce && (roles == [] ==> s.state == ActiveRecover)
      && (roles != [] ==> roles[|roles| - 1] == ActiveRecover)
    case RecoveringQuiet => roles == [] && s.state == Quiesce && s.prev == ActiveRecover
    case Back => roles == [] && s.state == ActiveRecover
    case Quiet => roles == [] && s.state == Quiesce && s.prev == ActiveRunning
  }

  /** A replica in order: its server is in a phase from which the commands under way lead to rest. */
  ghost predicate InOrder(x: Site, marked: bool, cfg: Config) {
    match x.srv
    case None => Leads(Down, x.chan, marked)
    case Some(s) => s.ctrlLimit == cfg.ctrlLimit && exists p :: InPhase(s, p) && Leads(p, x.chan, marked)
  }

  /** What must hold of a delivery: a role change finds room in the control queue, and BEGIN finds
      no role change waiting there. */
  predicate Timely(x: Site, e: SiteEvent) {
    e.Deliver? && x.srv.Some? && x.chan != [] ==>
      && (x.chan[0].ChangeState? ==> |x.srv.value.ctrl| < x.srv.value.ctrlLimit)
      && (x.chan[0].QuiesceBegin? ==> !RoleWaits(x.srv.value))
  }

  lemma PhaseTurn(s: S.Srv, p: Phase)
    requires InPhase(s, p) && s.ctrl != []
    ensures InPhase(S.ControlStep(s), p) && S.ControlStep(s).ctrlLimit == s.ctrlLimit
  {
    var t := S.ControlStep(s);
    InPhaseIsActive(s, p);
    ControlTurn(s);
    if s.ctrl[0].req.MsgRepMgr? {
      TakenRole(s);
      hide S.ControlStep, ActiveServer, Roles;
      RoleLeaves(s, t, p);
    } else {
      hide S.ControlStep, ActiveServer, Roles;
      SamePhase(s, t, p);
    }
  }

  lemma InPhaseIsActive(s: S.Srv, p: Phase)
    requires InPhase(s, p)
    ensures ActiveServer(s)
  {
  }

  lemma RoleLeaves(s: S.Srv, t: S.Srv, p: Phase)
    requires InPhase(s, p) && ActiveServer(t) && t.state in {ActiveRunning, ActiveRecover}
    requires Roles(s.ctrl) == [t.state] + Roles(t.ctrl)
    ensures InPhase(t, p)
  {
    hide ActiveServer, Roles;
    var left, roles := Roles(t.ctrl), Roles(s.ctrl);
    assert roles[0] == t.state && |roles| == |left| + 1;
    assert forall k :: 0 <= k < |left| ==> left[k] == roles[k + 1];
  }

  lemma LocalInOrder(s: S.Srv, e: S.Event, p: Phase)
    requires InPhase(s, p) && OwnEvent(Local(e))
    ensures InPhase(S.Step(s, e), p) && S.Step(s, e).ctrlLimit == s.ctrlLimit
  {
    if e.Control? {
      if s.ctrl != [] {
        PhaseTurn(s, p);
      }
    } else {
      IdleStep(s, e);
      hide S.Step, ActiveServer, Roles;
    }
  }

  /** A delivered command that is timely and in place takes a live server to the next phase. */
  lemma DeliveredInPhase(x: Site, p: Phase, cfg: Config)
    requires cfg.buckets > 0 && x.srv.Some? && x.chan != [] && Timely(x, Deliver)
    requires InPhase(x.srv.value, p) && Next(p, x.chan[0]).Some?
    ensures var y := SiteStep(x, Deliver, cfg);
      y.srv.Some? && y.srv.value.ctrlLimit == x.srv.value.ctrlLimit && y.chan == x.chan[1..]
      && InPhase(y.srv.value, Next(p, x.chan[0]).value)
  {
    var s, cmd := x.srv.value, x.chan[0];
    match cmd
    case Startup => IsAlive(s, p);
    case ChangeState(msg) =>
      Queued(s, MsgRepMgr(Arrived(msg)));
      RoleJoins(s, S.Step(s, S.Recv(MsgRepMgr(Arrived(msg)))), p, cmd);
      hide S.Step, InPhase, Roles;
    case SendChkpt =>
      Queued(s, MsgSendChkpt);
      SamePhase(s, S.Step(s, S.Recv(MsgSendChkpt)), p);
      hide S.Step, InPhase, Roles;
    case QuiesceBegin =>
      Began(s);
      hide S.Step, Roles;
    case QuiesceStop =>
      Stopped(s);
      hide S.Step, Roles;
  }

  lemma IsAlive(s: S.Srv, p: Phase)
    requires InPhase(s, p)
    ensures !s.aborted
  {
  }

  lemma SamePhase(s: S.Srv, t: S.Srv, p: Phase)
    requires InPhase(s, p) && ActiveServer(t)
    requires Roles(t.ctrl) == Roles(s.ctrl) && t.mode == s.mode && t.state == s.state && t.prev == s.prev
    ensures InPhase(t, p)
  {
    hide ActiveServer, Roles;
  }

  lemma RoleJoins(s: S.Srv, t: S.Srv, p: Phase, cmd: Cmd)
    requires InPhase(s, p) && ActiveServer(t) && cmd.ChangeState? && Next(p, cmd).Some?
    requires Roles(t.ctrl) == Roles(s.ctrl) + [cmd.msg.state]
    requires t.mode == s.mode && t.state == s.state && t.prev == s.prev
    ensures InPhase(t, Next(p, cmd).value)
  {
    var roles, q := Roles(t.ctrl), Next(p, cmd).value;
    assert roles[|roles| - 1] == cmd.msg.state;
    assert forall k :: 0 <= k < |roles| - 1 ==> roles[k] == Roles(s.ctrl)[k];
    hide ActiveServer, Roles;
  }

  lemma BootInPhase(cfg: Config)
    requires cfg.buckets > 0
    ensures InPhase(S.Boot(cfg.nrlLimit, cfg.ctrlLimit, cfg.buckets), Fresh)
  {
    R.BootFsm(cfg.nrlLimit, cfg.ctrlLimit, cfg.buckets);
  }

  /** No timely step of a replica breaks its order, and a live server goes only by crashing. */
  lemma SiteStaysInOrder(x: Site, e: SiteEvent, marked: bool, cfg: Config)
    requires cfg.buckets > 0 && InOrder(x, marked, cfg) && OwnEvent(e) && !e.Lose? && Timely(x, e)
    ensures InOrder(SiteStep(x, e, cfg), marked, cfg)
    ensures x.srv.Some? && !e.Crash? ==> SiteStep(x, e, cfg).srv.Some?
  {
    hide InPhase, S.Step, Next;
    if x.srv.None? {
      BootInPhase(cfg);
      DownStaysInOrder(x, e, marked, cfg);
    } else {
      var s := x.srv.value;
      var p :| InPhase(s, p) && Leads(p, x.chan, marked);
      match e
      case Local(ev) =>
        LocalInOrder(s, ev, p);
        IsAlive(S.Step(s, ev), p);
      case Crash => LeadsDown(p, x.chan, marked);
      case Deliver =>
        if x.chan != [] {
          DeliveredInPhase(x, p, cfg);
        }
    }
  }

  lemma DownStaysInOrder(x: Site, e: SiteEvent, marked: bool, cfg: Config)
    requires cfg.buckets > 0 && x.srv.None? && Leads(Down, x.chan, marked) && !e.Lose?
    requires InPhase(S.Boot(cfg.nrlLimit, cfg.ctrlLimit, cfg.buckets), Fresh)
    ensures InOrder(SiteStep(x, e, cfg), marked, cfg)
  {
    hide InPhase;
  }

  // ---------- reports ----------

  lemma {:induction false} PostFor(sites: seq<Site>, sent: seq<Send>, i: nat)
    requires i < |sites|
    ensures Post(sites, sent)[i] == sites[i].(chan := sites[i].chan + A.For(sent, i))
    decreases |sent|
  {
    if sent == [] {
      assert sites[i].chan + [] == sites[i].chan;
    } else {
      var next := PostOne(sites, sent[0]);
      var head := if sent[0].dest == i then [sent[0].cmd] else [];
      PostFor(next, sent[1..], i);
      assert next[i].chan == sites[i].chan + head;
      assert (sites[i].chan + head) + A.For(sent[1..], i) == sites[i].chan + (head + A.For(sent[1..], i));
    }
  }

  /** What replica i is sent by a report. */
  function SentTo(m: Mgr, rep: Report, i: nat): seq<Cmd>
    requires Wf(m) && rep.id < |m.node| && i < |m.node|
  {
    var seen := m.(hb := m.hb[rep.id := true]);
    if rep.state == Running && m.node[rep.id] == Faulted then
      if m.primary != -1 then A.BracketFor(m, rep.id, i)
      else if i == rep.id then [Election(seen.(primary := rep.id), i).cmd] else []
    else if rep.state == Faulted then
      (if i == rep.id then [Startup] else [])
      + (if rep.id == m.primary && i == (rep.id + 1) % |m.node|
         then [Election(seen.(primary := i), i).cmd] else [])
    else []
  }

  lemma SentToIs(m: Mgr, rep: Report, i: nat)
    requires Inv(m) && m.style == Active && rep.id < |m.node| && i < |m.node|
    ensures A.For(HandleState(m, rep, {}).sent, i) == SentTo(m, rep, i)
    ensures var o := HandleState(m, rep, {});
      !o.mgr.locked && o.mgr.style == Active
      && o.mgr.node == (if rep.state == SentStartupReq then m.node else m.node[rep.id := rep.state])
  {
    if A.Recovers(m, rep) {
      A.BracketIs(m, rep);
      A.BracketSent(m, rep.id, i);
      hide HandleState, A.BracketList, A.BracketFor, A.For, ElectionMsg;
    } else {
      A.OtherSends(m, rep);
      var r := rep.id;
      var seen := m.(hb := m.hb[r := true]);
      if rep.state == Faulted {
        var start, e := Send(r, Startup), Election(seen.(primary := (r + 1) % |m.node|), (r + 1) % |m.node|);
        A.ForOne(start, i);
        A.ForOne(e, i);
        A.ForConcat([start], [e], i);
        DownSends(m, rep);
        hide HandleState, A.For, ElectionMsg;
      } else if rep.state == Running && m.node[r] == Faulted {
        A.ForOne(Election(seen.(primary := r), r), i);
        hide HandleState, A.For, ElectionMsg;
      } else {
        assert HandleState(m, rep, {}).sent == [];
        assert A.For([], i) == [];
      }
    }
  }

  lemma DownSends(m: Mgr, rep: Report)
    requires Inv(m) && m.style == Active && rep.id < |m.node| && rep.state == Faulted
    ensures var q := (rep.id + 1) % |m.node|;
      HandleState(m, rep, {}).sent
      == if rep.id == m.primary
         then [Send(rep.id, Startup)] + [Election(m.(hb := m.hb[rep.id := true], primary := q), q)]
         else [Send(rep.id, Startup)]
  {
    hide ElectionMsg;
    assert m.node[rep.id] != SentStartupReq;
    var needs := m.needs;
    var q := (rep.id + 1) % |m.node|;
    var next := m.(hb := m.hb[rep.id := true], primary := q);
    assert Election(next.(needs := needs), q) == Election(next, q);
  }

  /** What a report sends to a replica leads on from rest, with the replica marked as it then is. */
  lemma SentLeads(m: Mgr, rep: Report, i: nat)
    requires Inv(m) && m.style == Active && rep.id < |m.node| && i < |m.node|
    ensures var marked := m.node[i] == Running;
      var marked' := if rep.state == SentStartupReq || i != rep.id then marked else rep.state == Running;
      var more := SentTo(m, rep, i);
      && Leads(Down, more, marked') && Leads(Idle, more, marked') && (!marked ==> Leads(Fresh, more, marked'))
  {
    var marked := m.node[i] == Running;
    var more := SentTo(m, rep, i);
    if A.Recovers(m, rep) {
      BracketLeads(m, rep.id, i);
    } else {
      RestLeads(marked);
      RestLeads(rep.state == Running && i == rep.id);
      ElectionRuns(m, rep, i);
      hide ElectionMsg, Leads;
      var run := Election(m, i).cmd;
      assert rep.state == Faulted && i == rep.id && |more| == 2 ==> more == [Startup, more[1]];
    }
  }

  /** Elections of an active cluster are orders to run. */
  lemma ElectionRuns(m: Mgr, rep: Report, i: nat)
    requires Wf(m) && m.style == Active && rep.id < |m.node| && i < |m.node| && !A.Recovers(m, rep)
    ensures forall k :: 0 <= k < |SentTo(m, rep, i)| ==>
      SentTo(m, rep, i)[k].Startup? || RunCmd(SentTo(m, rep, i)[k])
  {
  }

  /** Start-ups and orders to run lead from rest to rest. */
  lemma RestLeads(marked: bool)
    ensures Leads(Down, [], marked) && Leads(Idle, [], marked) && (!marked ==> Leads(Fresh, [], marked))
    ensures forall run: Cmd :: RunCmd(run) ==>
      Leads(Down, [run], marked) && Leads(Idle, [run], marked) && Leads(Fresh, [run], marked)
    ensures !marked ==> Leads(Down, [Startup], false) && Leads(Idle, [Startup], false) && Leads(Fresh, [Startup], false)
    ensures forall run: Cmd :: RunCmd(run) ==>
      Leads(Down, [Startup, run], false) && Leads(Idle, [Startup, run], false) && Leads(Fresh, [Startup, run], false)
  {
    assert [Startup][1..] == [];
    forall run: Cmd | RunCmd(run)
      ensures Leads(Down, [run], marked) && Leads(Idle, [run], marked) && Leads(Fresh, [run], marked)
      ensures Leads(Down, [Startup, run], false) && Leads(Idle, [Startup, run], false)
      ensures Leads(Fresh, [Startup, run], false)
    {
      assert [run][1..] == [] && [Startup, run][1..] == [run];
    }
  }

  lemma BracketLeads(m: Mgr, r: nat, i: nat)
    requires Wf(m) && m.style == Active && r < |m.node| && i < |m.node|
    ensures var more := A.BracketFor(m, r, i);
      && Leads(Down, more, m.node[i] == Running || i == r)
      && Leads(Idle, more, m.node[i] == Running || i == r)
      && (m.node[i] != Running ==> Leads(Fresh, more, i == r))
  {
    var up := m.(hb := m.hb[r := true], node := m.node[r := Running]);
    var rc, run := ChangeState(PlainMsg(ActiveRep, ActiveRecover)), Election(up, i).cmd;
    assert RunCmd(run);
    hide ElectionMsg;
    BracketParts(rc, run, m.node[i] == Running || i == r);
    var more := A.BracketFor(m, r, i);
    if i == r {
      assert more == if i == m.primary then [rc, QuiesceBegin, SendChkpt, QuiesceStop, run]
                     else [rc, QuiesceBegin, QuiesceStop, run];
    } else if m.node[i] == Running {
      assert more == if i == m.primary then [QuiesceBegin, SendChkpt, QuiesceStop] else [QuiesceBegin, QuiesceStop];
    } else {
      assert more == if i == m.primary then [SendChkpt] else [];
    }
    hide Leads;
  }

  lemma BracketParts(rc: Cmd, run: Cmd, marked: bool)
    requires RecoverCmd(rc) && RunCmd(run)
    ensures forall p :: p in {Down, Idle, Fresh} ==>
      && Leads(p, [rc, QuiesceBegin, SendChkpt, QuiesceStop, run], marked)
      && Leads(p, [rc, QuiesceBegin, QuiesceStop, run], marked)
    ensures forall p :: p in {Down, Idle} ==>
      && Leads(p, [QuiesceBegin, SendChkpt, QuiesceStop], marked)
      && Leads(p, [QuiesceBegin, QuiesceStop], marked) && Leads(p, [SendChkpt], marked) && Leads(p, [], marked)
    ensures !marked ==> Leads(Fresh, [SendChkpt], marked) && Leads(Fresh, [], marked)
  {
    assert [run][1..] == [] && [QuiesceStop, run][1..] == [run] && [QuiesceStop][1..] == [] && [SendChkpt][1..] == [];
    assert [SendChkpt, QuiesceStop, run][1..] == [QuiesceStop, run];
    assert [SendChkpt, QuiesceStop][1..] == [QuiesceStop];
    assert [QuiesceBegin, QuiesceStop][1..] == [QuiesceStop];
    assert [QuiesceBegin, SendChkpt, QuiesceStop][1..] == [SendChkpt, QuiesceStop];
    assert [QuiesceBegin, QuiesceStop, run][1..] == [QuiesceStop, run];
    assert [QuiesceBegin, SendChkpt, QuiesceStop, run][1..] == [SendChkpt, QuiesceStop, run];
    assert [rc, QuiesceBegin, QuiesceStop, run][1..] == [QuiesceBegin, QuiesceStop, run];
    assert [rc, QuiesceBegin, SendChkpt, QuiesceStop, run][1..] == [QuiesceBegin, SendChkpt, QuiesceStop, run];
    assert Leads(Down, [run], marked) && Leads(Down, [QuiesceStop, run], marked);
    assert Leads(Down, [QuiesceBegin, QuiesceStop, run], marked);
    assert Leads(Down, [SendChkpt, QuiesceStop, run], marked);
    assert Leads(Down, [QuiesceBegin, SendChkpt, QuiesceStop, run], marked);
    assert Leads(Back, [run], marked) && Leads(RecoveringQuiet, [QuiesceStop, run], marked);
    assert Leads(Recovering, [QuiesceBegin, QuiesceStop, run], marked);
    assert Leads(RecoveringQuiet, [SendChkpt, QuiesceStop, run], marked);
    assert Leads(Recovering, [QuiesceBegin, SendChkpt, QuiesceStop, run], marked);
  }

  // ---------- every run ----------

  ghost predicate ActiveCluster(c: Cluster) {
    && Shape(c) && c.mgr.style == Active && Inv(c.mgr)
    && forall i :: 0 <= i < |c.sites| ==> InOrder(c.sites[i], c.mgr.node[i] == Running, c.cfg)
  }

  /** No command is lost, and deliveries are timely. */
  ghost predicate TimelyEvent(c: Cluster, e: Event)
    requires Proper(c, e)
  {
    match e
    case Handle(_, lost) => lost == {}
    case At(i, x) => !x.Lose? && Timely(c.sites[i], x)
  }

  lemma ReportKeepsOrder(c: Cluster, rep: Report)
    requires ActiveCluster(c) && rep.id < |c.sites|
    ensures ActiveCluster(Step(c, Handle(rep, {})))
    ensures forall i :: 0 <= i < |c.sites| ==> Step(c, Handle(rep, {})).sites[i].srv == c.sites[i].srv
  {
    ReportKeepsInv(c.mgr, rep, {});
    MR.StepWf(c.mgr, MR.Rep(rep, {}));
    var o := HandleState(c.mgr, rep, {});
    SentToIs(c.mgr, rep, rep.id);
    hide HandleState, Inv, InOrder, Post, SentTo;
    forall i | 0 <= i < |c.sites|
      ensures InOrder(Post(c.sites, o.sent)[i], o.mgr.node[i] == Running, c.cfg)
      ensures Post(c.sites, o.sent)[i].srv == c.sites[i].srv
    {
      PostFor(c.sites, o.sent, i);
      SentToIs(c.mgr, rep, i);
      SentLeads(c.mgr, rep, i);
      JoinsInOrder(c.sites[i], c.mgr.node[i] == Running, SentTo(c.mgr, rep, i), o.mgr.node[i] == Running, c.cfg);
    }
  }

  lemma JoinsInOrder(x: Site, marked: bool, more: seq<Cmd>, marked': bool, cfg: Config)
    requires InOrder(x, marked, cfg)
    requires Leads(Down, more, marked') && Leads(Idle, more, marked') && (!marked ==> Leads(Fresh, more, marked'))
    ensures InOrder(x.(chan := x.chan + more), marked', cfg)
  {
    hide InPhase, Leads;
    match x.srv
    case None => LeadsOn(Down, x.chan, marked, more, marked');
    case Some(s) =>
      var p :| InPhase(s, p) && Leads(p, x.chan, marked);
      LeadsOn(p, x.chan, marked, more, marked');
  }

  lemma StepKeepsOrder(c: Cluster, e: Event)
    requires ActiveCluster(c) && Proper(c, e) && TimelyEvent(c, e)
    ensures ActiveCluster(Step(c, e))
  {
    match e
    case Handle(rep, _) => ReportKeepsOrder(c, rep);
    case At(i, x) =>
      SiteStaysInOrder(c.sites[i], x, c.mgr.node[i] == Running, c.cfg);
      hide InOrder, SiteStep, Inv;
  }

  ghost predicate TimelyRun(c: Cluster, es: seq<Event>)
    requires ProperRun(c, es)
    decreases |es|
  {
    es != [] ==> TimelyEvent(c, es[0]) && TimelyRun(Step(c, es[0]), es[1..])
  }

  /** A replica at rest: nothing under way to it, and no role change waiting in its server. */
  predicate AtRest(x: Site) {
    x.chan == [] && (x.srv.Some? ==> !RoleWaits(x.srv.value))
  }

  /** The next command but for ship orders is STOP. */
  predicate StopIsNext(chan: seq<Cmd>)
    decreases |chan|
  {
    chan != [] && (chan[0].QuiesceStop? || (chan[0].SendChkpt? && StopIsNext(chan[1..])))
  }

  lemma {:induction false} StopLeads(p: Phase, chan: seq<Cmd>, marked: bool)
    requires Leads(p, chan, marked) && p != Down
    ensures StopIsNext(chan) <==> p == RecoveringQuiet || p == Quiet
    decreases |chan|
  {
    if chan != [] && chan[0].SendChkpt? {
      StopLeads(Next(p, chan[0]).value, chan[1..], marked);
    }
  }

  /** What order means for a live server: marked RUNNING and at rest it is in ACTIVE_RUNNING, and
      it is in QUIESCE exactly between BEGIN and STOP. */
  lemma OrderMeans(x: Site, marked: bool, cfg: Config)
    requires InOrder(x, marked, cfg) && x.srv.Some?
    ensures marked && AtRest(x) ==> x.srv.value.mode == ActiveRep && x.srv.value.state == ActiveRunning
    ensures x.srv.value.state == Quiesce <==> StopIsNext(x.chan)
    ensures !x.srv.value.aborted
  {
    var p :| InPhase(x.srv.value, p) && Leads(p, x.chan, marked);
    StopLeads(p, x.chan, marked);
    hide Roles;
  }

  /** In every run of the active cluster in which no command is lost, with any reports and with
      crashes and restarts at any point: if every role change delivered finds room in the control
      queue and every BEGIN finds none waiting there, then no server ever aborts, a live server is
      in QUIESCE exactly while STOP is the next command but for ship orders under way to it, and
      one that is marked RUNNING and at rest is in ACTIVE_RUNNING. For this last part ReturningRuns has
      weaker conditions, which are exact. */
  lemma {:induction false} TimelyRunsRecover(c: Cluster, es: seq<Event>)
    requires ActiveCluster(c) && ProperRun(c, es) && TimelyRun(c, es)
    ensures var d := Run(c, es);
      && ActiveCluster(d)
      && forall i :: 0 <= i < |d.sites| && d.sites[i].srv.Some? ==>
        var s := d.sites[i].srv.value;
        && !s.aborted
        && (s.state == Quiesce <==> StopIsNext(d.sites[i].chan))
        && (d.mgr.node[i] == Running && AtRest(d.sites[i]) ==> s.mode == ActiveRep && s.state == ActiveRunning)
    decreases |es|
  {
    if es == [] {
      forall i | 0 <= i < |c.sites| && c.sites[i].srv.Some?
        ensures var s := c.sites[i].srv.value;
          && !s.aborted && (s.state == Quiesce <==> StopIsNext(c.sites[i].chan))
          && (c.mgr.node[i] == Running && AtRest(c.sites[i]) ==> s.mode == ActiveRep && s.state == ActiveRunning)
      {
        OrderMeans(c.sites[i], c.mgr.node[i] == Running, c.cfg);
        hide InOrder, StopIsNext, AtRest;
      }
    } else {
      StepKeepsOrder(c, es[0]);
      hide Step, ActiveCluster, StopIsNext, AtRest;
      TimelyRunsRecover(Step(c, es[0]), es[1..]);
    }
  }

  /** A server goes only by crashing. */
  lemma OnlyCrashesEndServers(c: Cluster, e: Event, i: nat)
    requires ActiveCluster(c) && Proper(c, e) && TimelyEvent(c, e) && i < |c.sites| && c.sites[i].srv.Some?
    requires e != At(i, Crash)
    ensures |Step(c, e).sites| == |c.sites| && Step(c, e).sites[i].srv.Some?
  {
    match e
    case Handle(rep, _) => ReportKeepsOrder(c, rep);
    case At(k, x) =>
      SiteStaysInOrder(c.sites[k], x, c.mgr.node[k] == Running, c.cfg);
      hide InOrder, SiteStep, Inv;
  }

  lemma BootInOrder(peers: seq<Peer>, freq: int, cfg: Config)
    requires peers != [] && cfg.buckets > 0
    ensures ActiveCluster(Cluster(Boot(Active, peers, freq), seq(|peers|, _ => Site(None, [])), cfg))
  {
    BootInv(Active, peers, freq);
  }

  // ---------- shipping ----------

  lemma ShipTaken(x: Site, marked: bool, cfg: Config)
    requires cfg.buckets > 0 && InOrder(x, marked, cfg) && x.srv.Some?
    requires var s := x.srv.value; s.ctrl != [] && s.ctrl[0].req.MsgSendChkpt? && s.prev != ActiveRecover
    ensures var y := SiteStep(x, Local(S.Control), cfg);
      y.srv.Some? && y.srv.value.shipped == x.srv.value.shipped + [x.srv.value.db]
  {
    FreshPhase(x, marked, cfg);
    ControlTurn(x.srv.value);
    hide InOrder, S.ControlStep, Roles;
  }

  /** When the CONTROL worker of a replica that is not recovering takes a ship order, its table is
      shipped; every live replica marked RUNNING is in QUIESCE at that moment if and only if to each
      of them BEGIN has been delivered and STOP has not. */
  lemma ShipsQuietlyIff(c: Cluster, p: nat)
    requires ActiveCluster(c) && p < |c.sites| && c.sites[p].srv.Some?
    requires var s := c.sites[p].srv.value; s.ctrl != [] && s.ctrl[0].req.MsgSendChkpt? && s.prev != ActiveRecover
    ensures var d := Step(c, At(p, Local(S.Control)));
      && p < |d.sites| && d.sites[p].srv.Some?
      && d.sites[p].srv.value.shipped == c.sites[p].srv.value.shipped + [c.sites[p].srv.value.db]
    ensures (forall i :: 0 <= i < |c.sites| && c.sites[i].srv.Some? && c.mgr.node[i] == Running ==>
               InQuiesce(c.sites[i]))
            <==> (forall i :: 0 <= i < |c.sites| && c.sites[i].srv.Some? && c.mgr.node[i] == Running ==>
               StopIsNext(c.sites[i].chan))
  {
    hide InOrder, Inv, SiteStep, StopIsNext;
    ShipTaken(c.sites[p], c.mgr.node[p] == Running, c.cfg);
    forall i | 0 <= i < |c.sites| && c.sites[i].srv.Some?
      ensures InQuiesce(c.sites[i]) <==> StopIsNext(c.sites[i].chan)
    {
      OrderMeans(c.sites[i], c.mgr.node[i] == Running, c.cfg);
    }
  }

  // ---------- the condition on BEGIN is exact ----------

  /** In such a run, when BEGIN comes to a live server, it keeps quiet until STOP under every
      interleaving if and only if no role change waits in its control queue. */
  lemma TimelyBeginIsExact(c: Cluster, i: nat, middle: seq<Cmd>, after: seq<Cmd>)
    requires ActiveCluster(c) && i < |c.sites| && c.sites[i].srv.Some? && Ships(middle)
    requires c.sites[i].chan == [QuiesceBegin] + middle + [QuiesceStop] + after
    ensures
      (forall es :: Working(es) && |SiteRun(SiteStep(c.sites[i], Deliver, c.cfg), es, c.cfg).chan| > |after| ==>
         InQuiesce(SiteRun(SiteStep(c.sites[i], Deliver, c.cfg), es, c.cfg)))
            <==> !RoleWaits(c.sites[i].srv.value)
  {
    var x := c.sites[i];
    BeginInPhase(x, c.mgr.node[i] == Running, c.cfg);
    QuietUntilStopIff(x, middle, after, c.cfg);
    hide InOrder, SiteStep, Inv, ActiveServer, Roles;
  }

  lemma BeginInPhase(x: Site, marked: bool, cfg: Config)
    requires InOrder(x, marked, cfg) && x.srv.Some? && x.chan != [] && x.chan[0].QuiesceBegin?
    ensures ActiveServer(x.srv.value) && (!RoleWaits(x.srv.value) ==> x.srv.value.mode == ActiveRep)
  {
    var p :| InPhase(x.srv.value, p) && Leads(p, x.chan, marked);
    hide Roles;
  }

  /** Every recovery of a freshly started replica can fail: delivered in order but one right after
      the other, BEGIN overtakes RECOVER, which still waits for the CONTROL worker, and the server
      aborts. */
  lemma BeginOvertakesRecover(c: Cluster, rep: Report)
    requires ActiveCluster(c) && rep.id < |c.sites| && A.Recovers(c.mgr, rep)
    requires c.sites[rep.id].chan == [] && c.sites[rep.id].srv.Some? && c.sites[rep.id].srv.value.mode == UnknownRep
    ensures var d := Step(c, Handle(rep, {}));
      rep.id < |d.sites| && SiteRun(d.sites[rep.id], [Deliver, Deliver], c.cfg).srv == None
  {
    var r, o := rep.id, HandleState(c.mgr, rep, {});
    PostFor(c.sites, o.sent, r);
    SentToIs(c.mgr, rep, r);
    FreshPhase(c.sites[r], c.mgr.node[r] == Running, c.cfg);
    var s, chan := c.sites[r].srv.value, A.BracketFor(c.mgr, r, r);
    var y := Post(c.sites, o.sent)[r];
    assert [] + chan == chan;
    var rc := PlainMsg(ActiveRep, ActiveRecover);
    assert |chan| > 2 && chan[0] == ChangeState(rc) && chan[1] == QuiesceBegin;
    hide HandleState, Post, InOrder, Inv, A.BracketFor, ElectionMsg;
    Overtaken(y, rc, c.cfg);
  }

  lemma FreshPhase(x: Site, marked: bool, cfg: Config)
    requires InOrder(x, marked, cfg) && x.srv.Some?
    ensures ActiveServer(x.srv.value)
  {
  }

  lemma Overtaken(y: Site, rc: RepMgrMsg, cfg: Config)
    requires cfg.buckets > 0 && y.srv.Some? && ActiveServer(y.srv.value) && y.srv.value.mode == UnknownRep
    requires ActiveMsg(rc) && |y.chan| > 2 && y.chan[0] == ChangeState(rc) && y.chan[1] == QuiesceBegin
    ensures SiteRun(y, [Deliver, Deliver], cfg).srv == None
  {
    var s := y.srv.value;
    Queued(s, MsgRepMgr(Arrived(rc)));
    var z := SiteStep(y, Deliver, cfg);
    Began(z.srv.value);
    hide S.Step, ActiveServer;
    assert [Deliver, Deliver] == [Deliver] + [Deliver];
    RunJoin(y, [Deliver], [Deliver], cfg);
    RunOne(y, Deliver, cfg);
    RunOne(z, Deliver, cfg);
  }

  // ---------- prompt delivery ----------

  /** A command that is worked off before anything else happens: delivered, and taken by the
      CONTROL worker if it is one that waits. */
  function Promptly(cmd: Cmd): seq<SiteEvent> {
    if cmd.ChangeState? || cmd.SendChkpt? then [Deliver, Local(S.Control)] else [Deliver]
  }

  /** Heartbeats are all that waits. */
  ghost predicate OnlyHeartbeats(s: S.Srv) {
    forall k :: 0 <= k < |s.ctrl| ==> s.ctrl[k].req.MsgHeartbeat?
  }

  function NothingWaiting(srv: Option<S.Srv>): Option<S.Srv> {
    match srv case None => None case Some(s) => Some(s.(ctrl := []))
  }

  lemma {:induction false} HeartbeatsTaken(x: Site, cfg: Config)
    requires cfg.buckets > 0 && x.srv.Some? && !x.srv.value.aborted && OnlyHeartbeats(x.srv.value)
    ensures SiteRun(x, Turns(|x.srv.value.ctrl|), cfg) == Site(NothingWaiting(x.srv), x.chan)
    decreases |x.srv.value.ctrl|
  {
    var s := x.srv.value;
    if s.ctrl == [] {
      assert Turns(0) == [] && s.(ctrl := []) == s;
      assert SiteRun(x, [], cfg) == x;
    } else {
      var y := SiteStep(x, Local(S.Control), cfg);
      assert y == Site(Some(s.(ctrl := s.ctrl[1..])), x.chan);
      TurnsStep(x, |s.ctrl|, cfg);
      HeartbeatsTaken(y, cfg);
    }
  }

  lemma SetStateLeavesWaiting(s: S.Srv, state: State)
    ensures S.SetState(s.(ctrl := []), state) == S.SetState(s, state).(ctrl := [])
  {
  }

  lemma KillLeavesWaiting(s: S.Srv)
    ensures S.KillThread(s.(ctrl := [])) == S.KillThread(s).(ctrl := [])
  {
  }

  lemma RoleLeavesWaiting(s: S.Srv, msg: RepMgrMsg)
    ensures S.HandleRepMsg(s.(ctrl := []), msg) == S.HandleRepMsg(s, msg).(ctrl := [])
  {
    hide S.SetState, S.KillThread;
    var t := if s.mode == UnknownRep then S.SetMode(s, msg.mode) else s;
    if !t.aborted {
      KillLeavesWaiting(t);
      SetStateLeavesWaiting(S.KillThread(t).(peer1 := msg.peer1, peer2 := msg.peer2, freq := msg.freq), msg.state);
    }
  }

  lemma ApplyLeavesWaiting(srv: Option<S.Srv>, cmd: Cmd, cfg: Config)
    requires cfg.buckets > 0
    ensures A.Apply(NothingWaiting(srv), cmd, cfg) == NothingWaiting(A.Apply(srv, cmd, cfg))
  {
    hide S.SetState, S.HandleRepMsg;
    if srv.Some? {
      var s := srv.value;
      match cmd
      case Startup =>
      case ChangeState(msg) => RoleLeavesWaiting(s, Arrived(msg));
      case SendChkpt =>
      case QuiesceBegin => SetStateLeavesWaiting(s.(prev := s.state), Quiesce);
      case QuiesceStop => SetStateLeavesWaiting(s, s.prev);
    }
  }

  /** A command worked off promptly: the CONTROL worker takes what waits, and then the command is
      delivered and taken. */
  function WorkedOff(x: Site): seq<SiteEvent>
    requires x.chan != []
  {
    Turns(if x.srv.Some? then |x.srv.value.ctrl| else 0) + Promptly(x.chan[0])
  }

  /** Where heartbeats are all that waits, as in every world of the theorems over A.Apply, working a
      command off promptly has exactly the effect of A.Apply, the heartbeats being taken. So what is
      proved over A.Apply is what happens when every command is worked off promptly. */
  lemma PromptIsApply(x: Site, cfg: Config)
    requires cfg.buckets > 0 && x.chan != []
    requires x.srv.Some? ==>
      !x.srv.value.aborted && OnlyHeartbeats(x.srv.value) && x.srv.value.ctrlLimit > 0
    ensures SiteRun(x, WorkedOff(x), cfg) == Site(NothingWaiting(A.Apply(x.srv, x.chan[0], cfg)), x.chan[1..])
  {
    var n := if x.srv.Some? then |x.srv.value.ctrl| else 0;
    var y := Site(NothingWaiting(x.srv), x.chan);
    hide SiteStep, A.Apply;
    if x.srv.Some? {
      HeartbeatsTaken(x, cfg);
    } else {
      assert Turns(0) == [] && y == x;
      assert SiteRun(x, [], cfg) == x;
    }
    RunJoin(x, Turns(n), Promptly(x.chan[0]), cfg);
    DeliveredPromptly(y, cfg);
    ApplyLeavesWaiting(x.srv, x.chan[0], cfg);
  }

  lemma DeliveredPromptly(x: Site, cfg: Config)
    requires cfg.buckets > 0 && x.chan != []
    requires x.srv.Some? ==>
      !x.srv.value.aborted && x.srv.value.ctrl == [] && x.srv.value.ctrlLimit > 0
    ensures SiteRun(x, Promptly(x.chan[0]), cfg) == Site(A.Apply(x.srv, x.chan[0], cfg), x.chan[1..])
  {
    var cmd, y := x.chan[0], SiteStep(x, Deliver, cfg);
    RunOne(x, Deliver, cfg);
    if cmd.ChangeState? || cmd.SendChkpt? {
      assert [Deliver, Local(S.Control)] == [Deliver] + [Local(S.Control)];
      RunJoin(x, [Deliver], [Local(S.Control)], cfg);
      RunOne(y, Local(S.Control), cfg);
      if x.srv.Some? {
        PromptControl(x.srv.value, if cmd.ChangeState? then MsgRepMgr(Arrived(cmd.msg)) else MsgSendChkpt);
      }
      hide S.ControlStep, S.Receive, S.ExecuteControl, S.HandleRepMsg;
    }
  }

  lemma PromptControl(s: S.Srv, req: Request)
    requires !s.aborted && s.ctrl == [] && s.ctrlLimit > 0 && S.IsControl(req)
    ensures S.Step(s, S.Recv(req)) == s.(ctrl := [S.Ctx(req, S.IsBackup(s))])
    ensures S.ControlStep(S.Step(s, S.Recv(req))) == S.ExecuteControl(s, req)
  {
    assert S.Step(s, S.Recv(req)).ctrl[1..] == [];
    hide S.ExecuteControl;
    assert s.(ctrl := []) == s;
  }
}
