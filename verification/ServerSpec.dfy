/** One server as a value and its steps as functions: the run state of src/state.c, the
    checkpoint thread of src/chkpt.c, the request queues, and the two worker threads of
    src/worker.c with the handlers of src/server.c. */
module ServerSpec {
  import opened Types
  import Table
  import Storage

  /** client_ctx_t as it waits in a queue. */
  datatype Ctx = Ctx(req: Request, backlog: bool)

  type Db = t: Table.Table | |t.chains| > 0 witness Table.Empty(1)

  /** `threads` counts the live checkpoint threads, `running` is the flag that guards them;
      `aborted` is a failed assertion, which ends the process. Two history variables: `done`
      lists the requests executed on the table, `shipped` the tables exported and sent. */
  datatype Srv = Srv(
    mode: Mode, state: State, prev: State, threads: nat, running: bool, prune: bool,
    nrl: seq<Ctx>, ctrl: seq<Ctx>, nrlLimit: nat, ctrlLimit: nat,
    db: Db, freq: int, peer1: Peer, peer2: Peer, done: seq<Request>, shipped: seq<Table.Table>, aborted: bool)

  function Boot(nrlLimit: nat, ctrlLimit: nat, buckets: nat): Srv
    requires buckets > 0
  {
    Srv(UnknownRep, UnknownState, UnknownState, 0, false, false, [], [], nrlLimit, ctrlLimit,
        Table.Empty(buckets), 10, DEFAULT_PEER2, DEFAULT_PEER2, [], [], false)
  }

  // ---------- state.c and the thread flags of chkpt.c ----------

  function StartThread(s: Srv): Srv {
    if s.running then s else s.(threads := s.threads + 1, running := true)
  }

  /** The stopper waits until the thread has left, so the thread is gone afterwards. */
  function KillThread(s: Srv): Srv {
    if s.running && s.threads > 0 then s.(threads := s.threads - 1, running := false) else s
  }

  function SetMode(s: Srv, mode: Mode): Srv {
    if s.mode != UnknownRep || mode == UnknownRep then s.(aborted := true) else s.(mode := mode)
  }

  predicate Allowed(mode: Mode, state: State) {
    match mode
    case UnknownRep => false
    case ActiveRep => state in {ActiveRunning, ActiveRecover, Quiesce}
    case PassiveRep => state in {PassivePrimary, PassiveBackup, PassivePreprimary}
  }

  function SetState(s: Srv, state: State): Srv {
    if !Allowed(s.mode, state) then s.(aborted := true)
    else
      var t := if state == PassivePrimary then StartThread(s)
               else if state == PassiveBackup then KillThread(s)
               else s;
      t.(state := state)
  }

  function PutInQuiescence(s: Srv): Srv {
    SetState(s.(prev := s.state), Quiesce)
  }

  function RemoveFromQuiescence(s: Srv): Srv {
    var t := SetState(s, s.prev);
    if t.aborted then t else t.(prev := t.state)
  }

  // ---------- requests arriving ----------

  predicate IsControl(req: Request) {
    req.MsgHeartbeat? || req.MsgRepMgr? || req.MsgSendChkpt?
  }

  predicate IsBackup(s: Srv) {
    s.mode == PassiveRep && s.state == PassiveBackup
  }

  /** enqueue_client_req: tag, raise the prune flag, then enqueue if there is room. The flag is
      raised even when the queue then refuses the checkpoint. */
  function Receive(s: Srv, req: Request): Srv {
    var backlog := IsBackup(s);
    var t := if req.MsgChkPt? && backlog then s.(prune := true) else s;
    if !Admits(s, req) then t
    else if IsControl(req) then t.(ctrl := t.ctrl + [Ctx(req, backlog)])
    else t.(nrl := t.nrl + [Ctx(req, backlog)])
  }

  predicate Admits(s: Srv, req: Request) {
    if IsControl(req) then |s.ctrl| < s.ctrlLimit else |s.nrl| < s.nrlLimit
  }

  // ---------- the worker threads ----------

  /** execute_msg: the first request that was not waiting as backlog makes a server that is
      being promoted the primary. */
  function Execute(s: Srv, c: Ctx): Srv {
    var t := if s.mode == PassiveRep && s.state == PassivePreprimary && !c.backlog
             then SetState(s, PassivePrimary) else s;
    t.(db := Storage.Handle(t.db, c.req), done := t.done + [c.req])
  }

  /** One turn of the prune loop: the head is taken; a checkpoint lowers the flag and is
      executed, anything else is dropped. */
  function DrainOne(s: Srv): (t: Srv)
    requires s.nrl != []
    ensures t.nrl == s.nrl[1..]
  {
    var c, t := s.nrl[0], s.(nrl := s.nrl[1..]);
    if c.req.MsgChkPt? then Execute(t.(prune := false), c) else t
  }

  /** The prune loop: it goes on after a checkpoint until the queue is empty. */
  function Drain(s: Srv): Srv
    decreases |s.nrl|
  {
    if s.nrl == [] then s else Drain(DrainOne(s))
  }

  /** One turn of the NORMAL worker. */
  function NormalStep(s: Srv): Srv {
    var t := if s.prune then Drain(s) else s;
    if !t.prune && IsBackup(t) then t
    else
      var u := if t.mode == PassiveRep && t.state == PassivePreprimary && t.nrl == []
               then SetState(t, PassivePrimary) else t;
      if u.nrl == [] || u.state == Quiesce then u
      else Execute(u.(nrl := u.nrl[1..]), u.nrl[0])
  }

  /** handle_rep_msg */
  function HandleRepMsg(s: Srv, msg: RepMgrMsg): Srv {
    var t := if s.mode == UnknownRep then SetMode(s, msg.mode) else s;
    if t.aborted then t
    else SetState(KillThread(t).(peer1 := msg.peer1, peer2 := msg.peer2, freq := msg.freq), msg.state)
  }

  /** execute_msg_ctrl */
  function ExecuteControl(s: Srv, req: Request): Srv {
    match req
    case MsgRepMgr(msg) => HandleRepMsg(s, msg)
    case MsgSendChkpt => if s.prev != ActiveRecover then s.(shipped := s.shipped + [s.db]) else s
    case _ => s
  }

  /** One turn of the CONTROL worker. */
  function ControlStep(s: Srv): Srv {
    if s.ctrl == [] then s else ExecuteControl(s.(ctrl := s.ctrl[1..]), s.ctrl[0].req)
  }

  // ---------- runs ----------

  /** Tick is the periodic turn of the checkpoint thread. */
  datatype Event = Recv(req: Request) | Normal | Control | QuiesceStart | QuiesceStop | Tick

  function Step(s: Srv, e: Event): Srv {
    if s.aborted then s
    else match e
      case Recv(req) => Receive(s, req)
      case Normal => NormalStep(s)
      case Control => ControlStep(s)
      case QuiesceStart => PutInQuiescence(s)
      case QuiesceStop => RemoveFromQuiescence(s)
      case Tick => if s.threads > 0 then s.(shipped := s.shipped + [s.db]) else s
  }

  function Run(s: Srv, es: seq<Event>): Srv
    decreases |es|
  {
    if es == [] then s else Run(Step(s, es[0]), es[1..])
  }
}
