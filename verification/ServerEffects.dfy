/** What the steps of a server bring about: that a server being promoted becomes primary, that
    queued requests are served, that a role change is taken over in full, that a primary ships. */
module ServerEffects {
  import opened Types
  import Storage
  import opened ServerSpec
  import opened ServerRuns

  // ---------- promotion ----------

  ghost predicate Promoting(s: Srv) {
    !s.aborted && Fsm(s) && s.mode == PassiveRep && s.state in {PassivePreprimary, PassivePrimary}
  }

  /** A turn of the NORMAL worker makes a PREPRIMARY server PRIMARY if and only if it finds the prune
      flag up, the queue empty, or a request at its head that was not waiting as backlog. */
  lemma PromotedByTurnIff(s: Srv)
    requires Promoting(s) && s.state == PassivePreprimary
    ensures var t := Step(s, Normal);
      && Promoting(t)
      && (t.state == PassivePrimary <==> s.prune || s.nrl == [] || !s.nrl[0].backlog)
  {
    hide Storage.Handle, Drain, Checkpoints, LastImage;
    NormalTurnShape(s);
    if s.prune {
      PrunePass(s);
    }
  }

  /** A primary remains one, and keeps its checkpoint thread. */
  lemma PrimaryStays(s: Srv)
    requires Promoting(s) && s.state == PassivePrimary
    ensures Promoting(Step(s, Normal)) && Step(s, Normal).state == PassivePrimary
  {
    NormalTurnShape(s);
    if s.prune { PruneTurn(s); } else { PlainTurn(s); }
    hide NormalStep, Checkpoints, LastImage;
  }

  function Turns(n: nat): (es: seq<Event>)
    ensures |es| == n
  {
    seq(n, _ => Normal)
  }

  lemma TurnsRun(s: Srv, n: nat)
    requires n > 0
    ensures Run(s, Turns(n)) == Run(Step(s, Normal), Turns(n - 1))
  {
    hide Step;
    assert Turns(n)[1..] == Turns(n - 1);
  }

  /** A server whose worker runs: not a backup, not in QUIESCE, no prune pass pending. */
  ghost predicate Serving(s: Srv) {
    !s.aborted && Fsm(s) && !s.prune && !IsBackup(s) && s.state != Quiesce
  }

  lemma ServesHead(s: Srv)
    requires Serving(s)
    ensures var t := Step(s, Normal);
      && Serving(t) && t.mode == s.mode
      && (if s.nrl == [] then t.nrl == [] && t.db == s.db && t.done == s.done
          else t.nrl == s.nrl[1..] && t.done == s.done + [s.nrl[0].req] && t.db == Storage.Handle(s.db, s.nrl[0].req))
  {
    NormalTurnShape(s);
    PlainTurn(s);
    hide NormalStep, Storage.Handle;
  }

  lemma ReqsSplit(q: seq<Ctx>)
    requires q != []
    ensures Reqs(q) == [q[0].req] + Reqs(q[1..])
  {
  }

  /** From s to t exactly these requests were served, in order. */
  ghost predicate Served(s: Srv, t: Srv, reqs: seq<Request>) {
    t.done == s.done + reqs && t.db == Storage.HandleAll(s.db, reqs)
  }

  lemma ServedNone(s: Srv)
    ensures Served(s, s, [])
  {
    assert s.done + [] == s.done;
  }

  lemma ServedFirst(s: Srv, u: Srv, t: Srv, req: Request, reqs: seq<Request>)
    requires u.done == s.done + [req] && u.db == Storage.Handle(s.db, req) && Served(u, t, reqs)
    ensures Served(s, t, [req] + reqs)
  {
    HandlesFirst(s.db, req, reqs);
    hide Storage.Handle, Storage.HandleAll;
    assert (s.done + [req]) + reqs == s.done + ([req] + reqs);
  }

  lemma ServedSame(s: Srv, u: Srv, t: Srv, reqs: seq<Request>)
    requires u.done == s.done && u.db == s.db && Served(u, t, reqs)
    ensures Served(s, t, reqs)
  {
  }

  /** With nothing arriving, as many turns as there are requests serve them all, in order. */
  lemma {:induction false} ServesAll(s: Srv, n: nat)
    requires Serving(s) && n >= |s.nrl|
    ensures var t := Run(s, Turns(n));
      Serving(t) && t.mode == s.mode && t.nrl == [] && Served(s, t, Reqs(s.nrl))
    decreases n
  {
    hide Step, Serving, Served;
    if n == 0 {
      assert Turns(0) == [] && Reqs(s.nrl) == [];
      ServedNone(s);
    } else {
      TurnsRun(s, n);
      ServesHead(s);
      var t := Step(s, Normal);
      ServesAll(t, n - 1);
      if s.nrl == [] {
        assert Reqs(t.nrl) == Reqs(s.nrl);
        ServedSame(s, t, Run(s, Turns(n)), Reqs(s.nrl));
      } else {
        ReqsSplit(s.nrl);
        ServedFirst(s, t, Run(s, Turns(n)), s.nrl[0].req, Reqs(t.nrl));
      }
    }
  }

  lemma HandlesFirst(db: Db, req: Request, reqs: seq<Request>)
    ensures Storage.HandleAll(db, [req] + reqs) == Storage.HandleAll(Storage.Handle(db, req), reqs)
  {
    hide Storage.Handle;
    assert ([req] + reqs)[1..] == reqs;
  }

  lemma {:induction false} PrimaryThroughout(s: Srv, n: nat)
    requires Promoting(s) && s.state == PassivePrimary
    ensures Promoting(Run(s, Turns(n))) && Run(s, Turns(n)).state == PassivePrimary
    ensures s.nrl == [] ==> Run(s, Turns(n)).nrl == []
    decreases n
  {
    if n > 0 {
      TurnsRun(s, n);
      PrimaryStays(s);
      EmptyStays(s);
      hide Step;
      PrimaryThroughout(Step(s, Normal), n - 1);
    }
  }

  lemma EmptyStays(s: Srv)
    ensures s.nrl == [] ==> NormalStep(s).nrl == []
  {
    if s.prune { PruneTurn(s); } else { PlainTurn(s); }
    hide NormalStep, Checkpoints, LastImage;
  }

  lemma {:induction false} StillPromoting(s: Srv, n: nat)
    requires Promoting(s)
    ensures Promoting(Run(s, Turns(n)))
    decreases n
  {
    if n > 0 {
      TurnsRun(s, n);
      if s.state == PassivePrimary { PrimaryStays(s); } else { PromotedByTurnIff(s); }
      hide Step, Promoting;
      StillPromoting(Step(s, Normal), n - 1);
    }
  }

  lemma {:induction false} TurnAfter(s: Srv, n: nat)
    ensures Run(s, Turns(n + 1)) == Step(Run(s, Turns(n)), Normal)
    decreases n
  {
    hide Step;
    TurnsRun(s, n + 1);
    if n == 0 {
      assert Turns(0) == [];
      assert Run(Step(s, Normal), []) == Step(s, Normal);
    } else {
      TurnsRun(s, n);
      TurnAfter(Step(s, Normal), n - 1);
    }
  }

  /** Failover is completed: with nothing arriving, one turn more than there are requests makes a
      server that is being promoted PRIMARY, with its queue drained and exactly one checkpoint
      thread; and unless a prune pass was pending it has executed everything that waited. */
  lemma BecomesPrimary(s: Srv)
    requires Promoting(s)
    ensures var t := Run(s, Turns(|s.nrl| + 1));
      && Promoting(t) && t.state == PassivePrimary && t.nrl == [] && t.threads == 1 && t.running
      && (!s.prune ==> Served(s, t, Reqs(s.nrl)))
  {
    var n := |s.nrl|;
    if s.prune {
      TurnsRun(s, n + 1);
      PruneTurn(s);
      if s.state == PassivePrimary { PrimaryStays(s); } else { PromotedByTurnIff(s); }
      hide Step, Run, Checkpoints, LastImage;
      PrimaryThroughout(Step(s, Normal), n);
      OneThread(Run(s, Turns(n + 1)));
    } else {
      ServesAll(s, n);
      StillPromoting(s, n);
      var u := Run(s, Turns(n));
      TurnAfter(s, n);
      ServesHead(u);
      if u.state == PassivePrimary { PrimaryStays(u); } else { PromotedByTurnIff(u); }
      hide Step, Run;
      OneThread(Step(u, Normal));
    }
  }

  lemma OneThread(s: Srv)
    requires Promoting(s) && s.state == PassivePrimary
    ensures s.threads == 1 && s.running
  {
  }

  // ---------- role changes ----------

  lemma RepMsgInFull(s: Srv, msg: RepMgrMsg)
    ensures var t := HandleRepMsg(s, msg);
      !t.aborted ==>
        && t.state == msg.state && t.peer1 == msg.peer1 && t.peer2 == msg.peer2 && t.freq == msg.freq
        && t.mode == (if s.mode == UnknownRep then msg.mode else s.mode)
  {
  }

  lemma SameConfig(s: Srv, e: Event)
    requires !(e.Control? && s.ctrl != [] && s.ctrl[0].req.MsgRepMgr?)
    ensures var t := Step(s, e); t.peer1 == s.peer1 && t.peer2 == s.peer2 && t.freq == s.freq
  {
    hide HandleRepMsg;
    match e
    case Normal =>
      if s.prune { PruneTurn(s); } else { PlainTurn(s); }
      hide NormalStep, Checkpoints, LastImage;
    case _ =>
  }

  /** A role change that is executed without aborting is taken over in full: its state, its peers and
      its checkpoint frequency; a mode is taken from the first. No other step touches peers or
      frequency. */
  lemma RoleChangeInFull(s: Srv, e: Event)
    requires !s.aborted
    ensures var t := Step(s, e);
      !t.aborted ==>
        if e.Control? && s.ctrl != [] && s.ctrl[0].req.MsgRepMgr? then
          var msg := s.ctrl[0].req.msg;
          && t.state == msg.state && t.peer1 == msg.peer1 && t.peer2 == msg.peer2 && t.freq == msg.freq
          && t.mode == (if s.mode == UnknownRep then msg.mode else s.mode)
        else t.peer1 == s.peer1 && t.peer2 == s.peer2 && t.freq == s.freq
  {
    if e.Control? && s.ctrl != [] && s.ctrl[0].req.MsgRepMgr? {
      RepMsgInFull(s.(ctrl := s.ctrl[1..]), s.ctrl[0].req.msg);
      hide HandleRepMsg;
    } else {
      SameConfig(s, e);
      hide Step;
    }
  }

  // ---------- shipping ----------

  /** A turn of the checkpoint thread ships the table if and only if the server is PRIMARY. */
  lemma TickShipsIff(s: Srv)
    requires !s.aborted && Fsm(s)
    ensures Step(s, Tick).shipped
         == if s.mode == PassiveRep && s.state == PassivePrimary then s.shipped + [s.db] else s.shipped
  {
  }

  // ---------- arriving requests ----------

  /** Heartbeats, role changes and ship orders go to the control queue, everything else to the NORMAL
      queue, each behind what waits there; the other queue, the table and the state are as they
      were, and a request is refused if and only if its queue is full. */
  lemma ArrivesWhere(s: Srv, req: Request)
    requires !s.aborted
    ensures var t := Step(s, Recv(req));
      var c := Ctx(req, s.mode == PassiveRep && s.state == PassiveBackup);
      && t == s.(nrl := t.nrl, ctrl := t.ctrl, prune := t.prune)
      && (t.prune <==> s.prune || (c.backlog && req.MsgChkPt?))
      && match req
         case MsgHeartbeat => t.nrl == s.nrl && t.ctrl == Joined(s.ctrl, c, s.ctrlLimit)
         case MsgRepMgr(_) => t.nrl == s.nrl && t.ctrl == Joined(s.ctrl, c, s.ctrlLimit)
         case MsgSendChkpt => t.nrl == s.nrl && t.ctrl == Joined(s.ctrl, c, s.ctrlLimit)
         case _ => t.ctrl == s.ctrl && t.nrl == Joined(s.nrl, c, s.nrlLimit)
  {
  }

  function Joined(q: seq<Ctx>, c: Ctx, limit: nat): seq<Ctx> {
    if |q| < limit then q + [c] else q
  }

  /** What a step takes from the control queue, and what it puts there. */
  function ControlTaken(s: Srv, e: Event): seq<Ctx> {
    if !s.aborted && e.Control? && s.ctrl != [] then [s.ctrl[0]] else []
  }

  function ControlPut(s: Srv, e: Event): seq<Ctx> {
    if !s.aborted && e.Recv? && IsControl(e.req) && |s.ctrl| < s.ctrlLimit then [Ctx(e.req, IsBackup(s))] else []
  }

  function AllTaken(s: Srv, es: seq<Event>): seq<Ctx>
    decreases |es|
  {
    if es == [] then [] else ControlTaken(s, es[0]) + AllTaken(Step(s, es[0]), es[1..])
  }

  function AllPut(s: Srv, es: seq<Event>): seq<Ctx>
    decreases |es|
  {
    if es == [] then [] else ControlPut(s, es[0]) + AllPut(Step(s, es[0]), es[1..])
  }

  lemma ControlStepFlows(s: Srv, e: Event)
    ensures ControlTaken(s, e) + Step(s, e).ctrl == s.ctrl + ControlPut(s, e)
  {
    hide NormalStep, SetState, ExecuteControl;
    match e
    case Normal => NormalTurnShape(s);
    case Control =>
      if s.ctrl != [] {
        ControlQuiet(s.(ctrl := s.ctrl[1..]), s.ctrl[0].req);
      }
    case QuiesceStart => SetStateQuiet(s.(prev := s.state), Quiesce);
    case QuiesceStop => SetStateQuiet(s, s.prev);
    case _ =>
  }

  /** In every run control requests are taken one by one in the order in which they were accepted,
      whatever the NORMAL queue, quiescence and the server's role. */
  lemma {:induction false} ControlFlows(s: Srv, es: seq<Event>)
    ensures AllTaken(s, es) + Run(s, es).ctrl == s.ctrl + AllPut(s, es)
    decreases |es|
  {
    hide Step, ControlTaken, ControlPut;
    if es != [] {
      var t := Step(s, es[0]);
      ControlStepFlows(s, es[0]);
      ControlFlows(t, es[1..]);
      var a, b, c := ControlTaken(s, es[0]), AllTaken(t, es[1..]), Run(t, es[1..]).ctrl;
      var put, more := ControlPut(s, es[0]), AllPut(t, es[1..]);
      assert (a + b) + c == a + (b + c) == (a + t.ctrl) + more == s.ctrl + (put + more);
    }
  }
}
