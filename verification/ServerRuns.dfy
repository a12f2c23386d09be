/** What holds of one server in every run: its state machine, the prune pass, the order of
    promotion, and which requests its table reflects. */
module ServerRuns {
  import opened Types
  import Storage
  import Checkpoint
  import opened ServerSpec

  lemma {:induction false} RunConcat(s: Srv, a: seq<Event>, b: seq<Event>)
    ensures Run(s, a + b) == Run(Run(s, a), b)
    decreases |a|
  {
    if a == [] {
      assert a + b == b;
    } else {
      assert (a + b)[0] == a[0] && (a + b)[1..] == a[1..] + b;
      RunConcat(Step(s, a[0]), a[1..], b);
    }
  }

  // ---------- the prune pass ----------

  function Reqs(q: seq<Ctx>): (r: seq<Request>)
    ensures |r| == |q|
    ensures forall i :: 0 <= i < |q| ==> r[i] == q[i].req
  {
    seq(|q|, i requires 0 <= i < |q| => q[i].req)
  }

  function Checkpoints(q: seq<Ctx>): seq<Request> {
    if q == [] then []
    else (if q[0].req.MsgChkPt? then [q[0].req] else []) + Checkpoints(q[1..])
  }

  function LastImage(q: seq<Ctx>): Option<string> {
    if q == [] then None
    else if q[|q| - 1].req.MsgChkPt? then Some(q[|q| - 1].req.image)
    else LastImage(q[..|q| - 1])
  }

  predicate HasCheckpoint(q: seq<Ctx>) {
    Checkpoints(q) != []
  }

  /** The table after importing an image, if there is one. */
  function Imported(db: Db, image: Option<string>): Db {
    match image
    case None => db
    case Some(text) => Checkpoint.Import(|db.chains|, text)
  }

  /** What a step never touches while it only executes requests. */
  ghost predicate SameFrame(s: Srv, t: Srv) {
    t == s.(state := t.state, threads := t.threads, running := t.running, prune := t.prune,
            nrl := t.nrl, db := t.db, done := t.done)
    && |t.db.chains| == |s.db.chains|
    && (t.state != s.state ==> s.mode == PassiveRep && s.state == PassivePreprimary && t.state == PassivePrimary)
  }

  lemma ExecuteFrame(s: Srv, c: Ctx)
    ensures var t := Execute(s, c);
      && t.nrl == s.nrl && t.prune == s.prune
      && t.done == s.done + [c.req]
      && t.db == Storage.Handle(s.db, c.req) == Storage.HandleAll(s.db, [c.req])
      && SameFrame(s, t)
  {
    assert Storage.HandleAll(Storage.Handle(s.db, c.req), [c.req][1..]) == Storage.Handle(s.db, c.req);
  }

  ghost predicate Drained(s: Srv, t: Srv, cs: seq<Request>) {
    && t.nrl == []
    && t.done == s.done + cs
    && t.db == Storage.HandleAll(s.db, cs)
    && t.prune == (s.prune && cs == [])
    && SameFrame(s, t)
  }

  /** One turn of the prune loop on the entry c, leading to u, before the rest. */
  lemma DrainedCons(s: Srv, c: Ctx, u: Srv, t: Srv, head: seq<Request>, tail: seq<Request>)
    requires head == if c.req.MsgChkPt? then [c.req] else []
    requires SameFrame(s, u) && u.done == s.done + head && u.db == Storage.HandleAll(s.db, head)
    requires u.prune == (s.prune && head == [])
    requires Drained(u, t, tail)
    ensures Drained(s, t, head + tail)
  {
    Storage.HandleAllConcat(s.db, head, tail);
    hide Storage.HandleAll;
    assert (s.done + head) + tail == s.done + (head + tail);
  }

  /** A prune pass executes exactly the checkpoints of the queue in order, drops the rest, ends
      with the queue empty, and lowers the flag exactly when it met a checkpoint. */
  lemma {:induction false} DrainExecutes(s: Srv)
    ensures Drained(s, Drain(s), Checkpoints(s.nrl))
    decreases |s.nrl|
  {
    hide Execute, Storage.Handle, Drained;
    if s.nrl == [] {
      DrainedNothing(s);
    } else {
      var c, t := s.nrl[0], s.(nrl := s.nrl[1..]);
      var head := if c.req.MsgChkPt? then [c.req] else [];
      var u := DrainOne(s);
      ExecuteFrame(t.(prune := false), c);
      DrainExecutes(u);
      DrainedCons(s, c, u, Drain(u), head, Checkpoints(t.nrl));
    }
  }

  lemma DrainedNothing(s: Srv)
    requires s.nrl == []
    ensures Drained(s, s, [])
  {
    assert s.done + [] == s.done;
  }

  lemma {:induction false} CheckpointsSnoc(q: seq<Ctx>, c: Ctx)
    ensures Checkpoints(q + [c]) == Checkpoints(q) + (if c.req.MsgChkPt? then [c.req] else [])
    decreases |q|
  {
    if q == [] {
      assert q + [c] == [c];
    } else {
      CheckpointsSnoc(q[1..], c);
      assert (q + [c])[0] == q[0] && (q + [c])[1..] == q[1..] + [c];
      var head := if q[0].req.MsgChkPt? then [q[0].req] else [];
      var last := if c.req.MsgChkPt? then [c.req] else [];
      assert Checkpoints(q + [c]) == head + Checkpoints(q[1..] + [c]);
      assert head + (Checkpoints(q[1..]) + last) == (head + Checkpoints(q[1..])) + last;
    }
  }

  /** Only the last checkpoint in the queue matters for the table. */
  lemma {:induction false} LastCheckpointWins(db: Db, q: seq<Ctx>)
    ensures LastImage(q).None? <==> !HasCheckpoint(q)
    ensures Storage.HandleAll(db, Checkpoints(q)) == Imported(db, LastImage(q))
    decreases |q|
  {
    if q != [] {
      var front, c := q[..|q| - 1], q[|q| - 1];
      assert q == front + [c];
      LastCheckpointWins(db, front);
      CheckpointsSnoc(front, c);
      if c.req.MsgChkPt? {
        Storage.HandleAllSnoc(db, Checkpoints(front), c.req);
      } else {
        assert Checkpoints(q) == Checkpoints(front);
      }
    }
  }

  /** The prune pass as a whole. */
  lemma PrunePass(s: Srv)
    ensures var t := Drain(s);
      && t.nrl == []
      && (t.prune <==> s.prune && !HasCheckpoint(s.nrl))
      && t.db == Imported(s.db, LastImage(s.nrl))
      && t.done == s.done + Checkpoints(s.nrl)
      && SameFrame(s, t)
  {
    DrainExecutes(s);
    LastCheckpointWins(s.db, s.nrl);
  }

  /** The same for a whole turn of the NORMAL worker with the flag up: after it the queue is
      empty and nothing but its checkpoints was executed. */
  lemma PruneTurn(s: Srv)
    requires s.prune
    ensures var t := NormalStep(s);
      && t.nrl == []
      && (t.prune <==> !HasCheckpoint(s.nrl))
      && t.db == Imported(s.db, LastImage(s.nrl))
      && t.done == s.done + Checkpoints(s.nrl)
      && SameFrame(s, t)
  {
    PrunePass(s);
  }

  /** A turn with the flag down executes at most the head of the queue. */
  lemma PlainTurn(s: Srv)
    requires !s.prune
    ensures var t := NormalStep(s);
      && !t.prune && SameFrame(s, t)
      && (if s.nrl == [] || IsBackup(s) || s.state == Quiesce
          then t.nrl == s.nrl && t.db == s.db && t.done == s.done
          else t.nrl == s.nrl[1..] && t.done == s.done + [s.nrl[0].req]
               && t.db == Storage.Handle(s.db, s.nrl[0].req))
  {
    hide Storage.Handle;
  }

  // ---------- the state machine ----------

  /** Every non-aborted state: a server has a state exactly if it has a mode, a mode admits only its
      own states, and the single checkpoint thread runs exactly in a primary. */
  ghost predicate Fsm(s: Srv) {
    && (if s.mode == UnknownRep then s.state == UnknownState else Allowed(s.mode, s.state))
    && (s.prev != UnknownState ==> s.mode == ActiveRep && Allowed(ActiveRep, s.prev))
    && (s.running <==> s.mode == PassiveRep && s.state == PassivePrimary)
    && s.threads == if s.running then 1 else 0
  }

  lemma NormalTurnShape(s: Srv)
    ensures var t := NormalStep(s); t.mode == s.mode && t.prev == s.prev
    ensures var t := NormalStep(s); t.aborted == s.aborted && t.ctrl == s.ctrl
    ensures Fsm(s) ==> Fsm(NormalStep(s))
  {
    hide Storage.Handle;
    if s.prune {
      DrainKeepsFsm(s);
      PrunePass(s);
    }
  }

  lemma {:induction false} DrainKeepsFsm(s: Srv)
    ensures Fsm(s) ==> Fsm(Drain(s))
    decreases |s.nrl|
  {
    hide Storage.Handle;
    if s.nrl != [] {
      DrainKeepsFsm(DrainOne(s));
    }
  }

  lemma RepMsgFsm(s: Srv, msg: RepMgrMsg)
    requires Fsm(s)
    ensures var t := HandleRepMsg(s, msg);
      (!t.aborted ==> Fsm(t)) && (s.mode != UnknownRep ==> t.mode == s.mode)
  {
  }

  lemma QuiesceFsm(s: Srv)
    requires Fsm(s)
    ensures !PutInQuiescence(s).aborted ==> Fsm(PutInQuiescence(s))
    ensures !RemoveFromQuiescence(s).aborted ==> Fsm(RemoveFromQuiescence(s))
    ensures PutInQuiescence(s).mode == RemoveFromQuiescence(s).mode == s.mode
  {
  }

  /** Same requests waiting, same flag, same table. */
  ghost predicate Quiet(s: Srv, t: Srv) {
    && t.nrl == s.nrl && t.prune == s.prune && t.db == s.db && t.done == s.done
    && t.nrlLimit == s.nrlLimit && t.ctrlLimit == s.ctrlLimit
  }

  lemma SetStateQuiet(s: Srv, state: State)
    ensures Quiet(s, SetState(s, state)) && SetState(s, state).mode == s.mode
    ensures SetState(s, state).ctrl == s.ctrl && SetState(s, state).shipped == s.shipped
  {
  }

  lemma ControlQuiet(s: Srv, req: Request)
    ensures Quiet(s, ExecuteControl(s, req)) && ExecuteControl(s, req).ctrl == s.ctrl
  {
    if req.MsgRepMgr? {
      var msg := req.msg;
      var t := if s.mode == UnknownRep then SetMode(s, msg.mode) else s;
      var u := KillThread(t).(peer1 := msg.peer1, peer2 := msg.peer2, freq := msg.freq);
      assert Quiet(s, t) && Quiet(t, u) && u.ctrl == s.ctrl;
      SetStateQuiet(u, msg.state);
      hide SetState;
    }
  }

  /** Control traffic and quiescence leave queue, flag and table alone. */
  lemma QuietStep(s: Srv, e: Event)
    requires !e.Recv? && !e.Normal?
    ensures Quiet(s, Step(s, e))
  {
    hide SetState, ExecuteControl;
    match e
    case Control =>
      if s.ctrl != [] {
        ControlQuiet(s.(ctrl := s.ctrl[1..]), s.ctrl[0].req);
      }
    case QuiesceStart => SetStateQuiet(s.(prev := s.state), Quiesce);
    case QuiesceStop => SetStateQuiet(s, s.prev);
    case Tick =>
  }

  /** The state machine invariant survives every step that does not abort, and a mode once set
      is never written again. */
  lemma FsmStep(s: Srv, e: Event)
    requires Fsm(s) && !s.aborted
    ensures !Step(s, e).aborted ==> Fsm(Step(s, e))
    ensures s.mode != UnknownRep ==> Step(s, e).mode == s.mode
  {
    match e
    case Normal => NormalTurnShape(s);
    case Control =>
      if s.ctrl != [] && s.ctrl[0].req.MsgRepMgr? {
        RepMsgFsm(s.(ctrl := s.ctrl[1..]), s.ctrl[0].req.msg);
      }
    case QuiesceStart => QuiesceFsm(s);
    case QuiesceStop => QuiesceFsm(s);
    case Recv(_) =>
    case Tick =>
  }

  lemma {:induction false} FsmRun(s: Srv, es: seq<Event>)
    requires Fsm(s) && !s.aborted
    ensures !Run(s, es).aborted ==> Fsm(Run(s, es))
    ensures s.mode != UnknownRep ==> Run(s, es).mode == s.mode
    decreases |es|
  {
    if es != [] {
      var t := Step(s, es[0]);
      FsmStep(s, es[0]);
      hide Step, Fsm;
      if t.aborted {
        AbortedStays(t, es[1..]);
      } else {
        FsmRun(t, es[1..]);
      }
    }
  }

  lemma {:induction false} AbortedStays(s: Srv, es: seq<Event>)
    requires s.aborted
    ensures Run(s, es) == s
    decreases |es|
  {
    if es != [] {
      AbortedStays(s, es[1..]);
    }
  }

  /** A fresh server is in the initial state, with an empty table and nothing queued, executed or
      shipped. */
  lemma BootFsm(nrlLimit: nat, ctrlLimit: nat, buckets: nat)
    requires buckets > 0
    ensures var s := Boot(nrlLimit, ctrlLimit, buckets);
      && Fsm(s) && s.mode == UnknownRep && s.prev == UnknownState && !s.prune && !s.aborted
      && s.nrl == [] && s.ctrl == [] && s.done == [] && s.shipped == []
      && |s.db.chains| == buckets && forall b :: 0 <= b < buckets ==> s.db.chains[b] == []
  {
  }

  // ---------- the prune flag ----------

  /** The flag is up only while a checkpoint waits in the queue. */
  ghost predicate PruneSound(s: Srv) {
    s.prune ==> HasCheckpoint(s.nrl)
  }

  /** A checkpoint that reaches a backup finds room in the queue. */
  ghost predicate CheckpointFits(s: Srv, e: Event) {
    e.Recv? && e.req.MsgChkPt? && IsBackup(s) && !s.aborted ==> |s.nrl| < s.nrlLimit
  }

  ghost predicate NoCheckpointRefused(s: Srv, es: seq<Event>)
    decreases |es|
  {
    es != [] ==> CheckpointFits(s, es[0]) && NoCheckpointRefused(Step(s, es[0]), es[1..])
  }

  lemma PruneSoundStep(s: Srv, e: Event)
    requires PruneSound(s) && CheckpointFits(s, e)
    ensures PruneSound(Step(s, e))
  {
    hide NormalStep, Checkpoints;
    if e.Recv? {
      CheckpointsSnoc(s.nrl, Ctx(e.req, IsBackup(s)));
    } else if e.Normal? {
      if s.prune { PruneTurn(s); } else { PlainTurn(s); }
    } else {
      QuietStep(s, e);
    }
  }

  /** Receiving keeps the flag sound exactly when it does not raise it for a checkpoint that
      the full queue refuses while no other checkpoint waits. */
  lemma FlagStaysSoundIff(s: Srv, req: Request)
    requires PruneSound(s) && !s.aborted
    ensures PruneSound(Step(s, Recv(req))) <==>
      !(req.MsgChkPt? && IsBackup(s) && |s.nrl| >= s.nrlLimit && !HasCheckpoint(s.nrl))
  {
    CheckpointsSnoc(s.nrl, Ctx(req, IsBackup(s)));
  }

  /** Requests other than checkpoints. */
  ghost predicate NoCheckpointSent(es: seq<Event>) {
    forall i :: 0 <= i < |es| ==> !(es[i].Recv? && es[i].req.MsgChkPt?)
  }

  /** Once the flag is up without a checkpoint in the queue, the table never changes again and
      nothing is executed, in any run without another checkpoint, even after promotion: every
      accepted request is dropped by the next prune pass. */
  lemma {:induction false} RefusedCheckpointLosesRequests(s: Srv, es: seq<Event>)
    requires s.prune && !HasCheckpoint(s.nrl) && NoCheckpointSent(es)
    ensures Run(s, es).db == s.db && Run(s, es).done == s.done
    ensures Run(s, es).prune && !HasCheckpoint(Run(s, es).nrl)
    decreases |es|
  {
    if es != [] {
      StuckStep(s, es[0]);
      hide Step, HasCheckpoint;
      RefusedCheckpointLosesRequests(Step(s, es[0]), es[1..]);
    }
  }

  lemma StuckStep(s: Srv, e: Event)
    requires s.prune && !HasCheckpoint(s.nrl) && !(e.Recv? && e.req.MsgChkPt?)
    ensures var t := Step(s, e); t.prune && !HasCheckpoint(t.nrl) && t.db == s.db && t.done == s.done
  {
    assert Checkpoints([]) == [];
    hide Drain, NormalStep, Checkpoints, LastImage;
    if e.Recv? {
      CheckpointsSnoc(s.nrl, Ctx(e.req, IsBackup(s)));
    } else if e.Normal? {
      PruneTurn(s);
      LastCheckpointWins(s.db, s.nrl);
      NothingDone(s.done);
    } else {
      QuietStep(s, e);
    }
  }

  lemma NothingDone(done: seq<Request>)
    ensures done + [] == done
  {
  }

  /** A backup executes nothing but checkpoints, whatever is in its queue. */
  lemma BackupExecutesOnlyCheckpoints(s: Srv, e: Event)
    requires IsBackup(s)
    ensures s.done <= Step(s, e).done
    ensures forall i :: |s.done| <= i < |Step(s, e).done| ==> Step(s, e).done[i].MsgChkPt?
  {
    if !s.aborted && e.Normal? {
      if s.prune {
        PruneTurn(s);
        OnlyCheckpoints(s.nrl);
      } else {
        PlainTurn(s);
      }
    }
  }

  lemma {:induction false} OnlyCheckpoints(q: seq<Ctx>)
    ensures forall i :: 0 <= i < |Checkpoints(q)| ==> Checkpoints(q)[i].MsgChkPt?
    decreases |q|
  {
    if q != [] {
      OnlyCheckpoints(q[1..]);
    }
  }

  /** Outside passive replication the prune flag is never raised. */
  lemma {:induction false} ActiveNeverPrunes(s: Srv, es: seq<Event>)
    requires Fsm(s) && !s.aborted && (s.mode != PassiveRep ==> !s.prune)
    ensures Run(s, es).mode != PassiveRep ==> !Run(s, es).prune
    decreases |es|
  {
    if es != [] {
      var e, t := es[0], Step(s, es[0]);
      FsmStep(s, e);
      if e.Normal? && !s.prune {
        PlainTurn(s);
      }
      assert t.mode != PassiveRep ==> !t.prune;
      hide Step, Fsm;
      if t.aborted {
        AbortedStays(t, es[1..]);
      } else {
        ActiveNeverPrunes(t, es[1..]);
      }
    }
  }

  /** The table is always the starting table after exactly the requests executed since. */
  lemma {:induction false} TableIsHistory(s: Srv, es: seq<Event>) returns (since: seq<Request>)
    ensures Run(s, es).done == s.done + since
    ensures Run(s, es).db == Storage.HandleAll(s.db, since)
    decreases |es|
  {
    hide Step;
    if es == [] {
      since := [];
    } else {
      var t := Step(s, es[0]);
      var first := StepIsHistory(s, es[0]);
      var rest := TableIsHistory(t, es[1..]);
      since := first + rest;
      Storage.HandleAllConcat(s.db, first, rest);
      assert (s.done + first) + rest == s.done + since;
    }
  }

  lemma StepIsHistory(s: Srv, e: Event) returns (since: seq<Request>)
    ensures Step(s, e).done == s.done + since
    ensures Step(s, e).db == Storage.HandleAll(s.db, since)
  {
    hide NormalStep, Checkpoints, Storage.Handle, LastImage, SameFrame;
    since := [];
    if !s.aborted && e.Normal? {
      since := TurnIsHistory(s);
    } else if !e.Recv? && !e.Normal? {
      QuietStep(s, e);
    }
  }

  lemma TurnIsHistory(s: Srv) returns (since: seq<Request>)
    ensures NormalStep(s).done == s.done + since
    ensures NormalStep(s).db == Storage.HandleAll(s.db, since)
  {
    hide NormalStep, Checkpoints, Storage.Handle, LastImage, SameFrame;
    if s.prune {
      PruneTurn(s);
      LastCheckpointWins(s.db, s.nrl);
      since := Checkpoints(s.nrl);
    } else {
      PlainTurn(s);
      if s.nrl == [] || IsBackup(s) || s.state == Quiesce {
        since := [];
      } else {
        since := [s.nrl[0].req];
        ExecuteFrame(s, s.nrl[0]);
      }
    }
  }
}
