/** Quiescence of the NORMAL worker when its guard, its dequeue and its execution are separate
    steps, interleaved with arriving requests, quiescence commands and the CONTROL worker.
    Active replication only, where the prune flag stays down. */
module Quiescence {
  import opened Types
  import Storage
  import opened ServerSpec
  import opened ServerRuns

  /** Where the worker's loop stands: before counting, after a non-zero count, past the test for
      QUIESCE, or holding a request it has taken from the queue. */
  datatype Pc = Top | Counted | PastGuard | Holding(c: Ctx)

  datatype Fine = Fine(s: Srv, pc: Pc)

  datatype Act = Worker | Other(e: Event)

  function WorkerStep(f: Fine): Fine {
    match f.pc
    case Top => if f.s.nrl == [] then f else f.(pc := Counted)
    case Counted => if f.s.state == Quiesce then f.(pc := Top) else f.(pc := PastGuard)
    case PastGuard =>
      if f.s.nrl == [] then f.(pc := Top)
      else Fine(f.s.(nrl := f.s.nrl[1..]), Holding(f.s.nrl[0]))
    case Holding(c) => Fine(Execute(f.s, c), Top)
  }

  function Step(f: Fine, a: Act): Fine {
    if f.s.aborted then f
    else match a
      case Worker => WorkerStep(f)
      case Other(e) => f.(s := ServerSpec.Step(f.s, e))
  }

  function Run(f: Fine, acts: seq<Act>): Fine
    decreases |acts|
  {
    if acts == [] then f else Run(Step(f, acts[0]), acts[1..])
  }

  /** The NORMAL worker moves by its own small steps only. */
  ghost predicate Small(acts: seq<Act>) {
    forall i :: 0 <= i < |acts| ==> acts[i] != Other(Normal)
  }

  /** The server is in QUIESCE before and after every step of the run. */
  ghost predicate StaysQuiet(f: Fine, acts: seq<Act>)
    decreases |acts|
  {
    f.s.state == Quiesce && (acts != [] ==> StaysQuiet(Step(f, acts[0]), acts[1..]))
  }

  /** Requests already past the guard. */
  function InFlight(pc: Pc): nat {
    if pc == PastGuard || pc.Holding? then 1 else 0
  }

  lemma QuietWorkerStep(f: Fine, a: Act) returns (more: seq<Request>)
    requires f.s.mode == ActiveRep && f.s.state == Quiesce && a != Other(Normal)
    ensures var g := Step(f, a);
      && g.s.done == f.s.done + more && g.s.db == Storage.HandleAll(f.s.db, more)
      && |more| + InFlight(g.pc) <= InFlight(f.pc)
      && g.s.mode == ActiveRep
  {
    more := [];
    if f.s.aborted {
    } else if a == Worker {
      if f.pc.Holding? {
        more := [f.pc.c.req];
        ExecuteFrame(f.s, f.pc.c);
        hide Storage.Handle;
      }
    } else {
      if !a.e.Recv? {
        QuietStep(f.s, a.e);
      }
      ModeIsKept(f.s, a.e);
    }
  }

  lemma ModeIsKept(s: Srv, e: Event)
    requires s.mode == ActiveRep && !s.aborted && !e.Normal?
    ensures ServerSpec.Step(s, e).mode == ActiveRep
  {
  }

  /** From QUIESCE on, for as long as it lasts and however the steps interleave, at most the one
      request already past the guard is executed; the table changes by exactly that request, and
      without it not at all. */
  lemma {:induction false} AtMostOneAfterQuiesce(f: Fine, acts: seq<Act>) returns (more: seq<Request>)
    requires f.s.mode == ActiveRep && Small(acts) && StaysQuiet(f, acts)
    ensures var g := Run(f, acts);
      && g.s.done == f.s.done + more && g.s.db == Storage.HandleAll(f.s.db, more)
      && |more| + InFlight(g.pc) <= InFlight(f.pc) <= 1
    decreases |acts|
  {
    hide Step, Storage.HandleAll;
    if acts == [] {
      more := [];
      HandleNothing(f.s.db);
      assert f.s.done + more == f.s.done;
    } else {
      var first := QuietWorkerStep(f, acts[0]);
      var rest := AtMostOneAfterQuiesce(Step(f, acts[0]), acts[1..]);
      more := first + rest;
      Storage.HandleAllConcat(f.s.db, first, rest);
      assert (f.s.done + first) + rest == f.s.done + more;
    }
  }

  lemma HandleNothing(db: Db)
    ensures Storage.HandleAll(db, []) == db
  {
  }

  /** Left to itself the worker does in four of these steps what its turn does: from the top of its loop
      it takes and executes the head of the queue, or nothing when there is none or in QUIESCE. */
  lemma FourStepsAreATurn(s: Srv)
    requires !s.aborted && s.mode == ActiveRep && !s.prune
    ensures Run(Fine(s, Top), [Worker, Worker, Worker, Worker]) == Fine(NormalStep(s), Top)
  {
    var f := Fine(s, Top);
    var a := Step(f, Worker);
    var b := Step(a, Worker);
    var c := Step(b, Worker);
    var d := Step(c, Worker);
    hide Execute, NormalStep, Run;
    RunFour(f, a, b, c, d);
    ActiveTurn(s);
  }

  lemma ActiveTurn(s: Srv)
    requires s.mode == ActiveRep && !s.prune
    ensures NormalStep(s)
         == if s.nrl == [] || s.state == Quiesce then s else Execute(s.(nrl := s.nrl[1..]), s.nrl[0])
  {
    hide Execute, Drain, SetState;
  }

  lemma RunFour(f: Fine, a: Fine, b: Fine, c: Fine, d: Fine)
    requires a == Step(f, Worker) && b == Step(a, Worker) && c == Step(b, Worker) && d == Step(c, Worker)
    ensures Run(f, [Worker, Worker, Worker, Worker]) == d
  {
    hide Step;
    assert [Worker, Worker, Worker, Worker][1..] == [Worker, Worker, Worker];
    assert [Worker, Worker, Worker][1..] == [Worker, Worker];
    assert [Worker, Worker][1..] == [Worker] && [Worker][1..] == [];
    assert Run(d, []) == d && Run(c, [Worker]) == d && Run(b, [Worker, Worker]) == d;
    assert Run(a, [Worker, Worker, Worker]) == d;
  }

  /** The one can really happen: a worker past the guard still executes the head of the queue. */
  lemma OneStillRuns(f: Fine)
    requires !f.s.aborted && f.pc == PastGuard && f.s.nrl != []
    ensures Run(f, [Worker, Worker]).s.done == f.s.done + [f.s.nrl[0].req]
  {
    var g := Step(f, Worker);
    assert [Worker, Worker][1..] == [Worker] && [Worker][1..] == [];
    assert Run(Step(g, Worker), []) == Step(g, Worker);
    ExecuteFrame(g.s, f.s.nrl[0]);
    hide Execute;
  }

  /** Meanwhile control requests go on: each turn of the CONTROL worker takes the next one, and
      an order to ship a checkpoint is carried out unless the server was recovering. */
  lemma ControlGoesOn(f: Fine)
    requires !f.s.aborted && f.s.state == Quiesce && f.s.ctrl != []
    ensures var g := Step(f, Other(Control));
      && g.s.ctrl == f.s.ctrl[1..] && g.pc == f.pc
      && (f.s.ctrl[0].req.MsgSendChkpt? ==>
            g.s.shipped == if f.s.prev == ActiveRecover then f.s.shipped else f.s.shipped + [f.s.db])
  {
    ControlQuiet(f.s.(ctrl := f.s.ctrl[1..]), f.s.ctrl[0].req);
    hide HandleRepMsg;
  }

  // ---------- a whole bracket ----------

  /** No role change waits or arrives, and quiescence is not commanded again. */
  ghost predicate NoCommands(s: Srv, es: seq<Event>) {
    && (forall i :: 0 <= i < |s.ctrl| ==> !s.ctrl[i].req.MsgRepMgr?)
    && (forall i :: 0 <= i < |es| ==>
          !es[i].QuiesceStart? && !es[i].QuiesceStop? && (es[i].Recv? ==> !es[i].req.MsgRepMgr?))
  }

  ghost predicate InBracket(s: Srv, q: Srv) {
    && !q.aborted && q.mode == ActiveRep && q.state == Quiesce && q.prev == s.state
    && q.db == s.db && q.done == s.done && (q.prune ==> s.prune)
  }

  lemma BracketStep(s: Srv, q: Srv, e: Event)
    requires InBracket(s, q) && !s.prune && NoCommands(q, [e])
    ensures InBracket(s, ServerSpec.Step(q, e)) && NoCommands(ServerSpec.Step(q, e), [])
  {
    assert [e][0] == e;
    match e
    case Normal => PlainTurn(q); NormalTurnShape(q); hide NormalStep;
    case Control => hide HandleRepMsg;
    case Recv(req) =>
    case Tick =>
  }

  lemma {:induction false} BracketRun(s: Srv, q: Srv, es: seq<Event>)
    requires InBracket(s, q) && !s.prune && NoCommands(q, es)
    ensures InBracket(s, ServerSpec.Run(q, es))
    decreases |es|
  {
    if es != [] {
      assert forall i :: 0 <= i < 1 ==> [es[0]][i] == es[i];
      BracketStep(s, q, es[0]);
      hide ServerSpec.Step, InBracket;
      BracketRun(s, ServerSpec.Step(q, es[0]), es[1..]);
    }
  }

  /** A balanced pair of quiescence commands, with any traffic in between, gives back the state
      it found and has executed no normal request. */
  lemma BracketRestores(s: Srv, es: seq<Event>)
    requires !s.aborted && s.mode == ActiveRep && !s.prune && NoCommands(s, es)
    requires s.state == ActiveRunning || s.state == ActiveRecover
    ensures var t := ServerSpec.Run(s, [QuiesceStart] + es + [QuiesceStop]);
      !t.aborted && t.state == s.state && t.db == s.db && t.done == s.done
  {
    var q := ServerSpec.Step(s, QuiesceStart);
    BracketRun(s, q, es);
    var u := ServerSpec.Run(q, es);
    var all := [QuiesceStart] + es + [QuiesceStop];
    assert all == [QuiesceStart] + (es + [QuiesceStop]);
    assert ServerSpec.Run(q, []) == q;
    RunConcat(s, [QuiesceStart], es + [QuiesceStop]);
    RunConcat(q, es, [QuiesceStop]);
    var v := ServerSpec.Step(u, QuiesceStop);
    assert ServerSpec.Run(v, []) == v;
    assert [QuiesceStop][1..] == [] && [QuiesceStart][1..] == [];
  }

  /** A second start inside the pair is not undone: the server stays in QUIESCE. */
  lemma NestedStartSticks(s: Srv)
    requires !s.aborted && s.mode == ActiveRep && Allowed(ActiveRep, s.state)
    ensures ServerSpec.Run(s, [QuiesceStart, QuiesceStart, QuiesceStop, QuiesceStop]).state == Quiesce
  {
    var es := [QuiesceStart, QuiesceStart, QuiesceStop, QuiesceStop];
    var a := ServerSpec.Step(s, es[0]);
    var b := ServerSpec.Step(a, es[1]);
    var c := ServerSpec.Step(b, es[2]);
    var d := ServerSpec.Step(c, es[3]);
    assert es[1..][1..][1..][1..] == [];
    assert ServerSpec.Run(d, []) == d;
    assert ServerSpec.Run(c, es[1..][1..][1..]) == d;
    assert ServerSpec.Run(b, es[1..][1..]) == d;
    assert ServerSpec.Run(a, es[1..]) == d;
  }

  // ---------- exactly when a bracket restores ----------

  /** The state that the last start of quiescence in es finds, or `before` if there is none. */
  function Noted(s: Srv, es: seq<Event>, before: State): State
    decreases |es|
  {
    if es == [] then before
    else Noted(ServerSpec.Step(s, es[0]), es[1..], if es[0].QuiesceStart? then s.state else before)
  }

  /** An active server in a sound state that has noted one. */
  ghost predicate Noting(s: Srv) {
    !s.aborted && Fsm(s) && s.mode == ActiveRep && s.prev != UnknownState
  }

  lemma NotingStep(s: Srv, e: Event)
    requires Noting(s) && !ServerSpec.Step(s, e).aborted
    ensures Noting(ServerSpec.Step(s, e))
    ensures ServerSpec.Step(s, e).prev == if e.QuiesceStart? then s.state else s.prev
  {
    FsmStep(s, e);
    match e
    case Normal => NormalTurnShape(s); hide NormalStep;
    case Control =>
      if s.ctrl != [] {
        PrevIsKept(s.(ctrl := s.ctrl[1..]), s.ctrl[0].req);
        hide ExecuteControl;
      }
    case _ =>
  }

  lemma PrevIsKept(s: Srv, req: Request)
    ensures ExecuteControl(s, req).prev == s.prev
  {
  }

  lemma {:induction false} NotedIsPrev(s: Srv, es: seq<Event>)
    requires Noting(s) && !ServerSpec.Run(s, es).aborted
    ensures Noting(ServerSpec.Run(s, es)) && ServerSpec.Run(s, es).prev == Noted(s, es, s.prev)
    decreases |es|
  {
    if es != [] {
      var t := ServerSpec.Step(s, es[0]);
      if t.aborted {
        AbortedStays(t, es[1..]);
      }
      NotingStep(s, es[0]);
      hide ServerSpec.Step, Noting;
      NotedIsPrev(t, es[1..]);
    }
  }

  lemma BracketParts(s: Srv, es: seq<Event>)
    ensures ServerSpec.Run(s, [QuiesceStart] + es + [QuiesceStop])
         == ServerSpec.Step(ServerSpec.Run(ServerSpec.Step(s, QuiesceStart), es), QuiesceStop)
  {
    hide ServerSpec.Step;
    var q := ServerSpec.Step(s, QuiesceStart);
    var u := ServerSpec.Run(q, es);
    assert [QuiesceStart] + es + [QuiesceStop] == [QuiesceStart] + (es + [QuiesceStop]);
    assert [QuiesceStop][1..] == [] && [QuiesceStart][1..] == [] && ServerSpec.Run(q, []) == q;
    RunConcat(s, [QuiesceStart], es + [QuiesceStop]);
    RunConcat(q, es, [QuiesceStop]);
    var v := ServerSpec.Step(u, QuiesceStop);
    assert ServerSpec.Run(v, []) == v;
  }

  /** A pair of quiescence commands with anything at all in between, further pairs and role changes
      included: it aborts exactly if what is in between does, and otherwise it restores the state it
      found if and only if the last start in between, if any, found that state again. */
  lemma BracketRestoresIff(s: Srv, es: seq<Event>)
    requires !s.aborted && Fsm(s) && s.mode == ActiveRep
    ensures var q := ServerSpec.Step(s, QuiesceStart);
      var t := ServerSpec.Run(s, [QuiesceStart] + es + [QuiesceStop]);
      && (t.aborted <==> ServerSpec.Run(q, es).aborted)
      && (!t.aborted ==> (t.state == s.state <==> Noted(q, es, s.state) == s.state))
  {
    var q := ServerSpec.Step(s, QuiesceStart);
    BracketParts(s, es);
    FsmStep(s, QuiesceStart);
    assert Noting(q) && q.prev == s.state;
    var u := ServerSpec.Run(q, es);
    hide ServerSpec.Run, Noted;
    if !u.aborted {
      NotedIsPrev(q, es);
    }
  }

  /** No role change waits or arrives. */
  ghost predicate NoRoleChange(s: Srv, es: seq<Event>) {
    && (forall i :: 0 <= i < |s.ctrl| ==> !s.ctrl[i].req.MsgRepMgr?)
    && (forall i :: 0 <= i < |es| && es[i].Recv? ==> !es[i].req.MsgRepMgr?)
  }

  /** No start of quiescence comes while the server is in QUIESCE. */
  ghost predicate NoNestedStart(s: Srv, es: seq<Event>)
    decreases |es|
  {
    es != [] ==>
      && (es[0].QuiesceStart? ==> s.state != Quiesce)
      && NoNestedStart(ServerSpec.Step(s, es[0]), es[1..])
  }

  lemma RolelessStep(s: Srv, e: Event, es: seq<Event>)
    requires Noting(s) && NoRoleChange(s, [e] + es)
    ensures var t := ServerSpec.Step(s, e);
      && Noting(t) && NoRoleChange(t, es)
      && t.prev == (if e.QuiesceStart? then s.state else s.prev)
      && t.state == (if e.QuiesceStart? then Quiesce else if e.QuiesceStop? then s.prev else s.state)
  {
    var all := [e] + es;
    assert all[0] == e && forall i :: 0 <= i < |es| ==> es[i] == all[i + 1];
    match e
    case Normal =>
      NormalTurnShape(s);
      if s.prune { PruneTurn(s); } else { PlainTurn(s); }
      hide NormalStep, Checkpoints, LastImage;
    case _ => hide HandleRepMsg;
  }

  lemma {:induction false} NestedRun(s: Srv, es: seq<Event>, found: State)
    requires Noting(s) && NoRoleChange(s, es) && found != Quiesce
    requires (s.prev == found && s.state in {Quiesce, found}) || (s.prev == Quiesce && s.state == Quiesce)
    ensures var t := ServerSpec.Run(s, es);
      && !t.aborted && t.prev in {found, Quiesce}
      && (t.prev == found <==> s.prev == found && NoNestedStart(s, es))
    decreases |es|
  {
    if es != [] {
      assert es == [es[0]] + es[1..];
      RolelessStep(s, es[0], es[1..]);
      hide ServerSpec.Step, Fsm;
      NestedRun(ServerSpec.Step(s, es[0]), es[1..], found);
    }
  }

  /** Without role changes a bracket never aborts, and it restores the state it found if and only if
      no start of quiescence in between comes while the server is in QUIESCE. */
  lemma BracketNestsIff(s: Srv, es: seq<Event>)
    requires !s.aborted && Fsm(s) && s.mode == ActiveRep && s.state != Quiesce && NoRoleChange(s, es)
    ensures var t := ServerSpec.Run(s, [QuiesceStart] + es + [QuiesceStop]);
      && !t.aborted
      && (t.state == s.state <==> NoNestedStart(ServerSpec.Step(s, QuiesceStart), es))
  {
    var q := ServerSpec.Step(s, QuiesceStart);
    BracketParts(s, es);
    FsmStep(s, QuiesceStart);
    assert Noting(q) && q.prev == s.state && NoRoleChange(q, es);
    NestedRun(q, es, s.state);
    assert !ServerSpec.Run(q, es).aborted;
    NotedIsPrev(q, es);
    hide ServerSpec.Run, Noted, NoNestedStart;
  }
}
