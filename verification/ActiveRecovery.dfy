/** Active replication: how a recovering replica is brought back between quiescence commands, when
    every command is worked off promptly, that is delivered and taken by the CONTROL worker before
    the next one is sent. Servers may still crash between any two commands. ActiveDelivery and
    ActiveRuns have the commands wait instead, and ActiveRuns.PromptIsApply shows that Apply is
    what prompt delivery comes to. */
module ActiveRecovery {
  import opened Types
  import opened ManagerSpec
  import S = ServerSpec
  import R = ServerRuns
  import C = Cluster

  /** What happens while a report is handled: commands take effect and servers crash. */
  datatype Act = Do(send: Send) | Kill(i: nat)

  /** One command at one replica, worked off promptly. */
  function Apply(srv: Option<S.Srv>, cmd: Cmd, cfg: C.Config): Option<S.Srv>
    requires cfg.buckets > 0
  {
    match srv
    case None => if cmd.Startup? then Some(S.Boot(cfg.nrlLimit, cfg.ctrlLimit, cfg.buckets)) else None
    case Some(s) =>
      match cmd
      case Startup => srv
      case ChangeState(msg) => C.Alive(S.HandleRepMsg(s, C.Arrived(msg)))
      case SendChkpt => C.Alive(S.ExecuteControl(s, MsgSendChkpt))
      case QuiesceBegin => C.Alive(S.PutInQuiescence(s))
      case QuiesceStop => C.Alive(S.RemoveFromQuiescence(s))
  }

  function ApplyAll(srv: Option<S.Srv>, cmds: seq<Cmd>, cfg: C.Config): Option<S.Srv>
    requires cfg.buckets > 0
    decreases |cmds|
  {
    if cmds == [] then srv else ApplyAll(Apply(srv, cmds[0], cfg), cmds[1..], cfg)
  }

  function ActOne(srvs: seq<Option<S.Srv>>, a: Act, cfg: C.Config): (r: seq<Option<S.Srv>>)
    requires cfg.buckets > 0
    ensures |r| == |srvs|
  {
    match a
    case Do(send) =>
      if 0 <= send.dest < |srvs| then srvs[send.dest := Apply(srvs[send.dest], send.cmd, cfg)] else srvs
    case Kill(i) => if i < |srvs| then srvs[i := None] else srvs
  }

  function ActAll(srvs: seq<Option<S.Srv>>, acts: seq<Act>, cfg: C.Config): (r: seq<Option<S.Srv>>)
    requires cfg.buckets > 0
    ensures |r| == |srvs|
    decreases |acts|
  {
    if acts == [] then srvs else ActAll(ActOne(srvs, acts[0], cfg), acts[1..], cfg)
  }

  function Sends(acts: seq<Act>): seq<Send> {
    if acts == [] then [] else (if acts[0].Do? then [acts[0].send] else []) + Sends(acts[1..])
  }

  /** The commands of a list that concern replica i. */
  function For(sent: seq<Send>, i: nat): seq<Cmd> {
    if sent == [] then [] else (if sent[0].dest == i then [sent[0].cmd] else []) + For(sent[1..], i)
  }

  lemma {:induction false} ForConcat(a: seq<Send>, b: seq<Send>, i: nat)
    ensures For(a + b, i) == For(a, i) + For(b, i)
    decreases |a|
  {
    if a == [] {
      assert a + b == b;
    } else {
      var head, rest := if a[0].dest == i then [a[0].cmd] else [], a[1..];
      assert (a + b)[0] == a[0] && (a + b)[1..] == rest + b;
      ForConcat(rest, b, i);
      assert For(a + b, i) == head + For(rest + b, i);
      assert head + (For(rest, i) + For(b, i)) == (head + For(rest, i)) + For(b, i);
    }
  }

  lemma {:induction false} ForRunning(node: seq<NodeState>, from: nat, cmd: Cmd, i: nat)
    ensures For(ToRunning(node, from, cmd, {}), i)
         == if from <= i < |node| && node[i] == Running then [cmd] else []
    decreases |node| - from
  {
    if from < |node| {
      var head := if node[from] == Running then [Send(from, cmd)] else [];
      ForRunning(node, from + 1, cmd, i);
      ForConcat(head, ToRunning(node, from + 1, cmd, {}), i);
      assert ToRunning(node, from, cmd, {}) == head + ToRunning(node, from + 1, cmd, {});
      assert head != [] ==> head[1..] == [] && For([], i) == [];
    }
  }

  lemma {:induction false} ApplyNone(cmds: seq<Cmd>, cfg: C.Config)
    requires cfg.buckets > 0 && Startup !in cmds
    ensures ApplyAll(None, cmds, cfg) == None
    decreases |cmds|
  {
    if cmds != [] {
      ApplyNone(cmds[1..], cfg);
    }
  }

  ghost predicate Killed(acts: seq<Act>, i: nat) {
    Kill(i) in acts
  }

  /** Each replica feels its own commands only: unless it was killed on the way, it ends as those
      commands leave it; killed, it stays down as long as nobody starts it. */
  lemma {:induction false} OwnCommands(srvs: seq<Option<S.Srv>>, acts: seq<Act>, cfg: C.Config, i: nat)
    requires cfg.buckets > 0 && i < |srvs|
    ensures !Killed(acts, i) ==> ActAll(srvs, acts, cfg)[i] == ApplyAll(srvs[i], For(Sends(acts), i), cfg)
    ensures Killed(acts, i) && Startup !in For(Sends(acts), i) ==> ActAll(srvs, acts, cfg)[i] == None
    decreases |acts|
  {
    if acts != [] {
      var a, rest, next := acts[0], acts[1..], ActOne(srvs, acts[0], cfg);
      hide Apply;
      OwnCommands(next, rest, cfg, i);
      OneCommand(a, rest, i);
      assert acts == [a] + rest;
      var mine := For(Sends(acts), i);
      assert a.Do? && a.send.dest == i ==> mine[0] == a.send.cmd && mine[1..] == For(Sends(rest), i);
      assert !(a.Do? && a.send.dest == i) ==> mine == For(Sends(rest), i);
      if a == Kill(i) && Startup !in For(Sends(acts), i) {
        ApplyNone(For(Sends(rest), i), cfg);
      }
    }
  }

  lemma OneCommand(a: Act, rest: seq<Act>, i: nat)
    ensures var acts := [a] + rest;
      && For(Sends(acts), i) == (if a.Do? && a.send.dest == i then [a.send.cmd] else []) + For(Sends(rest), i)
      && (Killed(acts, i) <==> a == Kill(i) || Killed(rest, i))
  {
    var acts := [a] + rest;
    assert acts[0] == a && acts[1..] == rest;
    if a.Do? {
      ForConcat([a.send], Sends(rest), i);
      assert [a.send][1..] == [] && For([], i) == [];
    } else {
      assert Sends(acts) == [] + Sends(rest) == Sends(rest);
    }
    assert Kill(i) in acts <==> Kill(i) == a || Kill(i) in rest;
  }

  // ---------- the world between reports ----------

  datatype World = World(mgr: Mgr, srvs: seq<Option<S.Srv>>, cfg: C.Config)

  /** A server outside a recovery: not configured yet, or running; its control queue holds
      heartbeats only, as role changes have taken effect. */
  ghost predicate Settled(s: S.Srv) {
    && !s.aborted && R.Fsm(s)
    && (s.mode == UnknownRep || (s.mode == ActiveRep && s.state == ActiveRunning))
    && forall k :: 0 <= k < |s.ctrl| ==> s.ctrl[k].req.MsgHeartbeat?
  }

  ghost predicate RunningServer(s: S.Srv) {
    Settled(s) && s.mode == ActiveRep
  }

  /** Every live replica that the manager has marked RUNNING is in ACTIVE_RUNNING. */
  ghost predicate Recovered(w: World) {
    && Inv(w.mgr) && w.mgr.style == Active && w.cfg.buckets > 0
    && |w.srvs| == |w.mgr.node|
    && forall i :: 0 <= i < |w.srvs| && w.srvs[i].Some? ==>
      Settled(w.srvs[i].value) && (w.mgr.node[i] == Running ==> RunningServer(w.srvs[i].value))
  }

  // ---------- commands on one server ----------

  lemma StartRunning(srv: Option<S.Srv>, cfg: C.Config, msg: RepMgrMsg)
    requires cfg.buckets > 0 && (srv.Some? ==> Settled(srv.value))
    requires msg.mode == ActiveRep && msg.state == ActiveRunning
    ensures var t := Apply(srv, ChangeState(msg), cfg);
      t.Some? == srv.Some? && (t.Some? ==> RunningServer(t.value))
    ensures var t := Apply(srv, Startup, cfg); t.Some? && Settled(t.value)
  {
    R.BootFsm(cfg.nrlLimit, cfg.ctrlLimit, cfg.buckets);
    if srv.Some? {
      R.RepMsgFsm(srv.value, C.Arrived(msg));
    }
  }

  /** A bystander of a recovery goes into quiescence and comes back as it was. */
  lemma Bystander(s: S.Srv, cfg: C.Config)
    requires cfg.buckets > 0 && RunningServer(s)
    ensures var q := S.PutInQuiescence(s);
      && Apply(Some(s), QuiesceBegin, cfg) == Some(q) && q.state == Quiesce
      && Apply(Some(q), QuiesceStop, cfg) == Some(s.(prev := ActiveRunning))
      && Apply(Some(q), SendChkpt, cfg) == Some(q.(shipped := q.shipped + [s.db]))
      && Apply(Some(q.(shipped := q.shipped + [s.db])), QuiesceStop, cfg)
         == Some(s.(prev := ActiveRunning, shipped := s.shipped + [s.db]))
      && RunningServer(s.(prev := ActiveRunning))
      && RunningServer(s.(prev := ActiveRunning, shipped := s.shipped + [s.db]))
  {
  }

  /** The recovering server: in quiescence with the recovery noted, so that it ships nothing. */
  lemma Recovering(s: S.Srv, cfg: C.Config, run: RepMgrMsg)
    requires cfg.buckets > 0 && Settled(s) && run.mode == ActiveRep && run.state == ActiveRunning
    ensures var u := S.HandleRepMsg(s, PlainMsg(ActiveRep, ActiveRecover));
      var q := S.PutInQuiescence(u);
      var b := S.RemoveFromQuiescence(q);
      var t := S.HandleRepMsg(b, C.Arrived(run));
      && Apply(Some(s), ChangeState(PlainMsg(ActiveRep, ActiveRecover)), cfg) == Some(u)
      && Apply(Some(u), QuiesceBegin, cfg) == Some(q) && q.state == Quiesce
      && Apply(Some(q), SendChkpt, cfg) == Some(q)
      && Apply(Some(q), QuiesceStop, cfg) == Some(b)
      && Apply(Some(b), ChangeState(run), cfg) == Some(t)
      && RunningServer(t) && t.shipped == s.shipped && t.db == s.db && t.nrl == s.nrl
  {
    var u := S.HandleRepMsg(s, PlainMsg(ActiveRep, ActiveRecover));
    NowRecovering(s);
    hide Settled;
    var q := S.PutInQuiescence(u);
    R.QuiesceFsm(u);
    var b := S.RemoveFromQuiescence(q);
    R.QuiesceFsm(q);
    assert b == u.(prev := ActiveRecover);
    R.RepMsgFsm(b, C.Arrived(run));
  }

  lemma NowRecovering(s: S.Srv)
    requires Settled(s)
    ensures var u := S.HandleRepMsg(s, PlainMsg(ActiveRep, ActiveRecover));
      && !u.aborted && R.Fsm(u) && u.mode == ActiveRep && u.state == ActiveRecover
      && u.shipped == s.shipped && u.db == s.db && u.nrl == s.nrl && u.ctrl == s.ctrl
      && forall k :: 0 <= k < |u.ctrl| ==> u.ctrl[k].req.MsgHeartbeat?
  {
    R.RepMsgFsm(s, PlainMsg(ActiveRep, ActiveRecover));
  }

  // ---------- the bracket ----------

  /** The report that brings a replica back while a primary is known. */
  predicate Recovers(m: Mgr, rep: Report)
    requires rep.id < |m.node|
  {
    rep.state == Running && m.node[rep.id] == Faulted && m.primary != -1
  }

  /** What each replica is sent by a recovery of r. */
  function BracketFor(m: Mgr, r: nat, i: nat): seq<Cmd>
    requires Wf(m) && r < |m.node| && i < |m.node|
  {
    var up := m.(hb := m.hb[r := true], node := m.node[r := Running]);
    var quiesced := i == r || m.node[i] == Running;
    (if i == r then [ChangeState(PlainMsg(ActiveRep, ActiveRecover))] else [])
    + (if quiesced then [QuiesceBegin] else [])
    + (if i == m.primary then [SendChkpt] else [])
    + (if quiesced then [QuiesceStop] else [])
    + (if i == r then [Election(up, r).cmd] else [])
  }

  function BracketList(m: Mgr, r: nat): seq<Send>
    requires Wf(m) && r < |m.node|
  {
    var up := m.(hb := m.hb[r := true], node := m.node[r := Running]);
    [Recover(r)] + ToRunning(up.node, 0, QuiesceBegin, {}) + [Send(m.primary, SendChkpt)]
    + ToRunning(up.node, 0, QuiesceStop, {}) + [Election(up, r)]
  }

  /** A recovery sends RECOVER to the replica, BEGIN to every replica marked RUNNING, the order
      to ship a checkpoint to the primary, STOP to the same replicas, and RUNNING. */
  lemma BracketIs(m: Mgr, rep: Report)
    requires Wf(m) && m.style == Active && rep.id < |m.node| && Recovers(m, rep)
    ensures var o := HandleState(m, rep, {});
      && o.sent == BracketList(m, rep.id)
      && o.mgr.locked == m.locked && o.ret == 0 && o.mgr.primary == m.primary
      && o.mgr.node == m.node[rep.id := Running] && o.mgr.style == Active
  {
  }

  lemma For5(a: seq<Send>, b: seq<Send>, c: seq<Send>, d: seq<Send>, e: seq<Send>, i: nat)
    ensures For(a + b + c + d + e, i) == For(a, i) + For(b, i) + For(c, i) + For(d, i) + For(e, i)
  {
    hide For;
    ForConcat(a, b, i);
    ForConcat(a + b, c, i);
    ForConcat(a + b + c, d, i);
    ForConcat(a + b + c + d, e, i);
  }

  /** Each replica receives exactly its part of the bracket. */
  lemma BracketSent(m: Mgr, r: nat, i: nat)
    requires Wf(m) && r < |m.node| && i < |m.node|
    ensures For(BracketList(m, r), i) == BracketFor(m, r, i)
  {
    var up := m.(hb := m.hb[r := true], node := m.node[r := Running]);
    ForRunning(up.node, 0, QuiesceBegin, i);
    ForRunning(up.node, 0, QuiesceStop, i);
    ForOne(Recover(r), i);
    ForOne(Send(m.primary, SendChkpt), i);
    ForOne(Election(up, r), i);
    hide For, ToRunning, ElectionMsg;
    For5([Recover(r)], ToRunning(up.node, 0, QuiesceBegin, {}), [Send(m.primary, SendChkpt)],
         ToRunning(up.node, 0, QuiesceStop, {}), [Election(up, r)], i);
  }

  lemma ForOne(s: Send, i: nat)
    ensures For([s], i) == if s.dest == i then [s.cmd] else []
  {
    assert [s][1..] == [] && For([], i) == [];
  }

  /** The bracket's effect on one server: it ends in ACTIVE_RUNNING with its table and queue
      untouched, having shipped its table or not. */
  ghost predicate CameBack(s: S.Srv, t: Option<S.Srv>, ships: bool) {
    && t.Some? && RunningServer(t.value)
    && t.value.db == s.db && t.value.nrl == s.nrl
    && t.value.shipped == if ships then s.shipped + [s.db] else s.shipped
  }

  lemma BracketOfRecovering(m: Mgr, r: nat, s: S.Srv, cfg: C.Config)
    requires Wf(m) && m.style == Active && r < |m.node| && cfg.buckets > 0 && Settled(s)
    ensures CameBack(s, ApplyAll(Some(s), BracketFor(m, r, r), cfg), false)
  {
    var up := m.(hb := m.hb[r := true], node := m.node[r := Running]);
    var run := ElectionMsg(up, r);
    hide ElectionMsg, Settled, Apply, ApplyAll, RunningServer, CameBack;
    RecoveringCommands(s, cfg, run);
    var rc := ChangeState(PlainMsg(ActiveRep, ActiveRecover));
    if r == m.primary {
      assert BracketFor(m, r, r) == [rc, QuiesceBegin, SendChkpt, QuiesceStop, ChangeState(run)];
    } else {
      assert BracketFor(m, r, r) == [rc, QuiesceBegin, QuiesceStop, ChangeState(run)];
    }
  }

  lemma RecoveringCommands(s: S.Srv, cfg: C.Config, run: RepMgrMsg)
    requires cfg.buckets > 0 && Settled(s) && run.mode == ActiveRep && run.state == ActiveRunning
    ensures var rc := ChangeState(PlainMsg(ActiveRep, ActiveRecover));
      && CameBack(s, ApplyAll(Some(s), [rc, QuiesceBegin, SendChkpt, QuiesceStop, ChangeState(run)], cfg), false)
      && CameBack(s, ApplyAll(Some(s), [rc, QuiesceBegin, QuiesceStop, ChangeState(run)], cfg), false)
  {
    var rc := ChangeState(PlainMsg(ActiveRep, ActiveRecover));
    Recovering(s, cfg, run);
    hide Settled, Apply, ApplyAll, RunningServer, S.HandleRepMsg, S.PutInQuiescence, S.RemoveFromQuiescence;
    Unroll5(Some(s), rc, QuiesceBegin, SendChkpt, QuiesceStop, ChangeState(run), cfg);
    Unroll4(Some(s), rc, QuiesceBegin, QuiesceStop, ChangeState(run), cfg);
  }

  lemma BracketOfBystander(m: Mgr, r: nat, i: nat, s: S.Srv, cfg: C.Config)
    requires Wf(m) && r < |m.node| && i < |m.node| && i != r && cfg.buckets > 0
    requires m.node[i] == Running && RunningServer(s)
    ensures CameBack(s, ApplyAll(Some(s), BracketFor(m, r, i), cfg), i == m.primary)
  {
    hide ElectionMsg, Settled, Wf;
    Bystander(s, cfg);
    hide Apply, RunningServer, S.PutInQuiescence, ApplyAll;
    if i == m.primary {
      Unroll3(Some(s), QuiesceBegin, SendChkpt, QuiesceStop, cfg);
      assert BracketFor(m, r, i) == [QuiesceBegin, SendChkpt, QuiesceStop];
    } else {
      Unroll2(Some(s), QuiesceBegin, QuiesceStop, cfg);
      assert BracketFor(m, r, i) == [QuiesceBegin, QuiesceStop];
    }
  }

  lemma Unroll2(o: Option<S.Srv>, a: Cmd, b: Cmd, cfg: C.Config)
    requires cfg.buckets > 0
    ensures ApplyAll(o, [a, b], cfg) == Apply(Apply(o, a, cfg), b, cfg)
  {
    assert [a, b][1..] == [b] && [b][1..] == [];
    assert ApplyAll(Apply(Apply(o, a, cfg), b, cfg), [], cfg) == Apply(Apply(o, a, cfg), b, cfg);
    hide Apply;
  }

  lemma Unroll3(o: Option<S.Srv>, a: Cmd, b: Cmd, c: Cmd, cfg: C.Config)
    requires cfg.buckets > 0
    ensures ApplyAll(o, [a, b, c], cfg) == Apply(Apply(Apply(o, a, cfg), b, cfg), c, cfg)
  {
    hide Apply;
    assert [a, b, c][1..] == [b, c];
    Unroll2(Apply(o, a, cfg), b, c, cfg);
  }

  lemma Unroll4(o: Option<S.Srv>, a: Cmd, b: Cmd, c: Cmd, d: Cmd, cfg: C.Config)
    requires cfg.buckets > 0
    ensures ApplyAll(o, [a, b, c, d], cfg) == Apply(Apply(Apply(Apply(o, a, cfg), b, cfg), c, cfg), d, cfg)
  {
    hide Apply;
    assert [a, b, c, d][1..] == [b, c, d];
    Unroll3(Apply(o, a, cfg), b, c, d, cfg);
  }

  lemma Unroll5(o: Option<S.Srv>, a: Cmd, b: Cmd, c: Cmd, d: Cmd, e: Cmd, cfg: C.Config)
    requires cfg.buckets > 0
    ensures ApplyAll(o, [a, b, c, d, e], cfg)
         == Apply(Apply(Apply(Apply(Apply(o, a, cfg), b, cfg), c, cfg), d, cfg), e, cfg)
  {
    hide Apply;
    assert [a, b, c, d, e][1..] == [b, c, d, e];
    Unroll4(Apply(o, a, cfg), b, c, d, e, cfg);
  }

  // ---------- every run ----------

  /** One step of the world: a report, during which servers may crash, a crash, or a server's own
      step on heartbeats and client requests. */
  datatype Event = Handle(rep: Report, acts: seq<Act>) | Crash(i: nat) | Local(i: nat, e: S.Event)

  ghost predicate Proper(w: World, e: Event) {
    && Wf(w.mgr) && |w.srvs| == |w.mgr.node| && w.cfg.buckets > 0
    && match e
       case Handle(rep, acts) => rep.id < |w.srvs| && Sends(acts) == HandleState(w.mgr, rep, {}).sent
       case Crash(i) => i < |w.srvs|
       case Local(i, ev) =>
         i < |w.srvs| && !ev.QuiesceStart? && !ev.QuiesceStop?
         && (ev.Recv? ==> !ev.req.MsgRepMgr? && !ev.req.MsgSendChkpt?)
  }

  function Step(w: World, e: Event): World
    requires Proper(w, e)
  {
    match e
    case Handle(rep, acts) =>
      w.(mgr := HandleState(w.mgr, rep, {}).mgr, srvs := ActAll(w.srvs, acts, w.cfg))
    case Crash(i) => w.(srvs := w.srvs[i := None])
    case Local(i, ev) =>
      if w.srvs[i].None? then w else w.(srvs := w.srvs[i := C.Alive(S.Step(w.srvs[i].value, ev))])
  }

  lemma LocalSettled(s: S.Srv, e: S.Event)
    requires Settled(s) && !e.QuiesceStart? && !e.QuiesceStop?
    requires e.Recv? ==> !e.req.MsgRepMgr? && !e.req.MsgSendChkpt?
    ensures var t := S.Step(s, e); Settled(t) && (RunningServer(s) ==> RunningServer(t))
  {
    R.FsmStep(s, e);
    if e.Normal? {
      R.NormalTurnShape(s);
      if s.prune { R.PruneTurn(s); } else { R.PlainTurn(s); }
      hide S.NormalStep;
    }
  }

  /** With prompt commands, handling a recovery report leaves every surviving replica settled, and those marked RUNNING
      in ACTIVE_RUNNING; no assertion fails; and only the primary, if it is not the replica being
      recovered, has shipped a checkpoint. */
  lemma RecoveryReport(w: World, rep: Report, acts: seq<Act>, i: nat)
    requires Recovered(w) && Proper(w, Handle(rep, acts)) && Recovers(w.mgr, rep)
    requires i < |w.srvs| && w.srvs[i].Some? && (i == rep.id || w.mgr.node[i] == Running)
    ensures var t := ActAll(w.srvs, acts, w.cfg)[i];
      if Killed(acts, i) then t == None
      else CameBack(w.srvs[i].value, t, i == w.mgr.primary && i != rep.id)
  {
    var r, s := rep.id, w.srvs[i].value;
    BracketIs(w.mgr, rep);
    BracketSent(w.mgr, r, i);
    OwnCommands(w.srvs, acts, w.cfg, i);
    NoStartInBracket(w.mgr, r, i);
    hide HandleState, BracketList, BracketFor, CameBack, ActAll, ApplyAll, Sends, For;
    if i == r {
      BracketOfRecovering(w.mgr, r, s, w.cfg);
    } else {
      BracketOfBystander(w.mgr, r, i, s, w.cfg);
    }
  }

  lemma NoStartInBracket(m: Mgr, r: nat, i: nat)
    requires Wf(m) && r < |m.node| && i < |m.node|
    ensures Startup !in BracketFor(m, r, i)
  {
  }

  /** What the invariant asks of replica i. */
  ghost predicate Fine(srv: Option<S.Srv>, marked: NodeState) {
    srv.Some? ==> Settled(srv.value) && (marked == Running ==> RunningServer(srv.value))
  }

  lemma AfterRecovery(w: World, rep: Report, acts: seq<Act>, i: nat)
    requires Recovered(w) && Proper(w, Handle(rep, acts)) && Recovers(w.mgr, rep) && i < |w.srvs|
    ensures Fine(ActAll(w.srvs, acts, w.cfg)[i], w.mgr.node[rep.id := Running][i])
  {
    if w.srvs[i].Some? && (i == rep.id || w.mgr.node[i] == Running) {
      RecoveryReport(w, rep, acts, i);
    } else {
      BracketIs(w.mgr, rep);
      BracketSent(w.mgr, rep.id, i);
      NoStartInBracket(w.mgr, rep.id, i);
      OwnCommands(w.srvs, acts, w.cfg, i);
      hide HandleState, BracketList, ActAll, Sends, For, Settled, RunningServer;
      if w.srvs[i].None? {
        ApplyNone(BracketFor(w.mgr, rep.id, i), w.cfg);
      } else {
        ShipsAtMost(w.srvs[i].value, BracketFor(w.mgr, rep.id, i), w.cfg);
      }
    }
  }

  lemma ShipsAtMost(s: S.Srv, cmds: seq<Cmd>, cfg: C.Config)
    requires cfg.buckets > 0 && Settled(s) && (cmds == [] || cmds == [SendChkpt])
    ensures ApplyAll(Some(s), cmds, cfg).Some? && Settled(ApplyAll(Some(s), cmds, cfg).value)
  {
    if cmds != [] {
      assert cmds[1..] == [];
      assert ApplyAll(Apply(Some(s), SendChkpt, cfg), [], cfg) == Apply(Some(s), SendChkpt, cfg);
    }
  }

  /** Start-ups and role changes to ACTIVE_RUNNING. */
  predicate Gentle(cmd: Cmd) {
    cmd.Startup? || (cmd.ChangeState? && cmd.msg.mode == ActiveRep && cmd.msg.state == ActiveRunning)
  }

  lemma {:induction false} GentleActs(srvs: seq<Option<S.Srv>>, acts: seq<Act>, cfg: C.Config, i: nat,
                                      marked: NodeState)
    requires cfg.buckets > 0 && i < |srvs| && Fine(srvs[i], marked)
    requires forall k :: 0 <= k < |acts| && acts[k].Do? ==>
      Gentle(acts[k].send.cmd) && (acts[k].send == Send(i, Startup) ==> marked != Running)
    ensures Fine(ActAll(srvs, acts, cfg)[i], marked)
    decreases |acts|
  {
    if acts != [] {
      var a := acts[0];
      if a.Do? && a.send.dest == i && a.send.cmd.ChangeState? {
        StartRunning(srvs[i], cfg, a.send.cmd.msg);
      } else {
        StartRunning(srvs[i], cfg, PlainMsg(ActiveRep, ActiveRunning));
      }
      hide Apply, Settled, RunningServer;
      GentleActs(ActOne(srvs, a, cfg), acts[1..], cfg, i, marked);
    }
  }

  lemma {:induction false} SendsOf(acts: seq<Act>, k: nat)
    requires k < |acts| && acts[k].Do?
    ensures acts[k].send in Sends(acts)
    decreases |acts|
  {
    if k > 0 {
      SendsOf(acts[1..], k - 1);
    }
  }

  /** The other reports send start-ups and promotions to ACTIVE_RUNNING only. */
  lemma OtherSends(m: Mgr, rep: Report)
    requires Inv(m) && m.style == Active && rep.id < |m.node| && !Recovers(m, rep)
    ensures var o := HandleState(m, rep, {});
      && !o.mgr.locked && o.mgr.style == Active
      && (forall s :: s in o.sent ==> Gentle(s.cmd) && (s.cmd.Startup? ==> s.dest == rep.id && rep.state == Faulted))
      && (rep.state == Running && m.node[rep.id] == Faulted ==>
            o.sent == [Election(m.(hb := m.hb[rep.id := true], primary := rep.id), rep.id)])
      && o.mgr.node == (if rep.state == SentStartupReq then m.node else m.node[rep.id := rep.state])
  {
  }

  lemma AfterOther(w: World, rep: Report, acts: seq<Act>, i: nat)
    requires Recovered(w) && Proper(w, Handle(rep, acts)) && !Recovers(w.mgr, rep) && i < |w.srvs|
    ensures Fine(ActAll(w.srvs, acts, w.cfg)[i], HandleState(w.mgr, rep, {}).mgr.node[i])
  {
    OtherSends(w.mgr, rep);
    var marked := HandleState(w.mgr, rep, {}).mgr.node[i];
    var sent := HandleState(w.mgr, rep, {}).sent;
    hide HandleState, Settled, RunningServer;
    forall k | 0 <= k < |acts| && acts[k].Do? ensures acts[k].send in sent {
      SendsOf(acts, k);
    }
    if rep.state == Running && w.mgr.node[rep.id] == Faulted && i == rep.id {
      FirstStart(w, rep, acts);
    } else {
      GentleActs(w.srvs, acts, w.cfg, i, marked);
    }
  }

  /** The first replica of all starts without recovery. */
  lemma FirstStart(w: World, rep: Report, acts: seq<Act>)
    requires Recovered(w) && Proper(w, Handle(rep, acts)) && !Recovers(w.mgr, rep)
    requires rep.state == Running && w.mgr.node[rep.id] == Faulted
    ensures Fine(ActAll(w.srvs, acts, w.cfg)[rep.id], Running)
  {
    OtherSends(w.mgr, rep);
    var e := Election(w.mgr.(hb := w.mgr.hb[rep.id := true], primary := rep.id), rep.id);
    OwnCommands(w.srvs, acts, w.cfg, rep.id);
    ForOne(e, rep.id);
    StartRunning(w.srvs[rep.id], w.cfg, e.cmd.msg);
    hide HandleState, Settled, RunningServer, ActAll, Sends, For, Apply, ElectionMsg;
    var o := w.srvs[rep.id];
    assert [e.cmd][1..] == [] && ApplyAll(Apply(o, e.cmd, w.cfg), [], w.cfg) == Apply(o, e.cmd, w.cfg);
  }

  lemma HandleKeepsRecovered(w: World, rep: Report, acts: seq<Act>)
    requires Recovered(w) && Proper(w, Handle(rep, acts))
    ensures Recovered(Step(w, Handle(rep, acts)))
  {
    ReportKeepsInv(w.mgr, rep, {});
    if Recovers(w.mgr, rep) { BracketIs(w.mgr, rep); } else { OtherSends(w.mgr, rep); }
    hide HandleState, Settled, RunningServer, ActAll, Inv;
    forall i | 0 <= i < |w.srvs|
      ensures Fine(ActAll(w.srvs, acts, w.cfg)[i], HandleState(w.mgr, rep, {}).mgr.node[i])
    {
      if Recovers(w.mgr, rep) {
        AfterRecovery(w, rep, acts, i);
      } else {
        AfterOther(w, rep, acts, i);
      }
    }
  }

  ghost predicate ProperRun(w: World, es: seq<Event>)
    decreases |es|
  {
    es != [] ==> Proper(w, es[0]) && ProperRun(Step(w, es[0]), es[1..])
  }

  function Run(w: World, es: seq<Event>): World
    requires ProperRun(w, es)
    decreases |es|
  {
    if es == [] then w else Run(Step(w, es[0]), es[1..])
  }

  lemma StepKeepsRecovered(w: World, e: Event)
    requires Recovered(w) && Proper(w, e)
    ensures Recovered(Step(w, e))
  {
    match e
    case Handle(rep, acts) => HandleKeepsRecovered(w, rep, acts);
    case Crash(i) =>
    case Local(i, ev) =>
      if w.srvs[i].Some? {
        LocalSettled(w.srvs[i].value, ev);
        hide S.Step, Settled, Inv;
      }
  }

  /** In every run with prompt commands, with any reports and with crashes at any point: whenever the manager has
      released its lock, every live replica marked RUNNING is in ACTIVE_RUNNING. */
  lemma {:induction false} AlwaysRecovered(w: World, es: seq<Event>)
    requires Recovered(w) && ProperRun(w, es)
    ensures Recovered(Run(w, es))
    decreases |es|
  {
    if es != [] {
      StepKeepsRecovered(w, es[0]);
      hide Step, Recovered, Proper;
      AlwaysRecovered(Step(w, es[0]), es[1..]);
    }
  }

  lemma BootRecovered(peers: seq<Peer>, freq: int, cfg: C.Config)
    requires peers != [] && cfg.buckets > 0
    ensures Recovered(World(Boot(Active, peers, freq), seq(|peers|, _ => None), cfg))
  {
    BootInv(Active, peers, freq);
  }

  /** With prompt commands everyone is quiet when the order to ship arrives: with everything up to it delivered, each
      surviving replica marked RUNNING and the one recovering are in QUIESCE. */
  lemma QuietWhenShipping(w: World, rep: Report, before: seq<Act>, i: nat)
    requires Recovered(w) && rep.id < |w.srvs| && Recovers(w.mgr, rep) && i < |w.srvs|
    requires var up := w.mgr.node[rep.id := Running];
      Sends(before) == [Recover(rep.id)] + ToRunning(up, 0, QuiesceBegin, {})
    requires i == rep.id || w.mgr.node[i] == Running
    ensures var t := ActAll(w.srvs, before, w.cfg)[i]; t.Some? ==> t.value.state == Quiesce
  {
    OwnCommands(w.srvs, before, w.cfg, i);
    CommandsBeforeShipping(w.mgr.node, rep.id, before, i);
    hide ActAll, Sends, For, ToRunning, Inv, Settled, RunningServer, ApplyAll;
    if w.srvs[i].None? {
      ApplyNone(For(Sends(before), i), w.cfg);
    } else if !Killed(before, i) {
      QuietAfter(w.srvs[i].value, w.cfg, i == rep.id);
    }
  }

  lemma CommandsBeforeShipping(node: seq<NodeState>, r: nat, before: seq<Act>, i: nat)
    requires r < |node| && i < |node| && (i == r || node[i] == Running)
    requires Sends(before) == [Recover(r)] + ToRunning(node[r := Running], 0, QuiesceBegin, {})
    ensures For(Sends(before), i)
         == if i == r then [ChangeState(PlainMsg(ActiveRep, ActiveRecover)), QuiesceBegin] else [QuiesceBegin]
  {
    ForOne(Recover(r), i);
    ForRunning(node[r := Running], 0, QuiesceBegin, i);
    ForConcat([Recover(r)], ToRunning(node[r := Running], 0, QuiesceBegin, {}), i);
    hide For, ToRunning, Sends;
  }

  lemma QuietAfter(s: S.Srv, cfg: C.Config, recovering: bool)
    requires cfg.buckets > 0 && Settled(s) && (!recovering ==> RunningServer(s))
    ensures var rc := ChangeState(PlainMsg(ActiveRep, ActiveRecover));
      var t := ApplyAll(Some(s), if recovering then [rc, QuiesceBegin] else [QuiesceBegin], cfg);
      t.Some? && t.value.state == Quiesce
  {
    var rc := ChangeState(PlainMsg(ActiveRep, ActiveRecover));
    if recovering {
      NowRecovering(s);
      Unroll2(Some(s), rc, QuiesceBegin, cfg);
      hide ApplyAll, S.HandleRepMsg;
    } else {
      assert [QuiesceBegin][1..] == [];
      assert ApplyAll(Apply(Some(s), QuiesceBegin, cfg), [], cfg) == Apply(Some(s), QuiesceBegin, cfg);
    }
  }
}
