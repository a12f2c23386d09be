/** A server on the heap: the run state, the linked request queues and the hash table, with the
    handlers of src/server.c, src/state.c, src/chkpt.c and the loop of src/worker.c changing them
    in place. Each method is the corresponding step of the value-level server. */
module Server {
  import opened Types
  import opened ServerSpec
  import Table
  import Storage
  import L = LogQueue
  import H = HashTable

  lemma ValsAppend(ns: seq<L.Node<Ctx>>, n: L.Node<Ctx>)
    ensures L.Vals(ns + [n]) == L.Vals(ns) + [n.val]
  {
  }

  lemma ValsTail(ns: seq<L.Node<Ctx>>)
    requires ns != []
    ensures L.Vals(ns[1..]) == L.Vals(ns)[1..] && L.Vals(ns)[0] == ns[0].val
  {
  }

  class Server {
    var mode: Mode
    var state: State
    var prev: State
    var isPrune: bool
    var isRunning: bool
    var freq: int
    var peer1: Peer
    var peer2: Peer
    var aborted: bool
    var threads: nat
    const log: L.ServerLog<Ctx>
    const table: H.HashTable
    ghost var done: seq<Request>
    ghost var shipped: seq<Table.Table>
    ghost var heap: set<object>

    /** The queues and the table in order, and apart from each other and from this object. */
    ghost predicate Valid()
      reads this`heap, heap
      ensures Valid() ==> this !in heap
    {
      && this !in heap && log in heap && log.nrl in heap && log.ctrl in heap && table in heap
      && (forall i :: 0 <= i < |log.nrl.nodes| ==> log.nrl.nodes[i] in heap - table.Repr)
      && (forall i :: 0 <= i < |log.ctrl.nodes| ==> log.ctrl.nodes[i] in heap - table.Repr)
      && table.Repr <= heap
      && {log, log.nrl, log.ctrl} !! table.Repr
      && log.Valid() && table.Valid()
    }

    ghost function Nrl(): seq<Ctx>
      requires Valid()
      reads this`heap, heap
    {
      L.Vals(log.nrl.nodes)
    }

    ghost function Ctrl(): seq<Ctx>
      requires Valid()
      reads this`heap, heap
    {
      L.Vals(log.ctrl.nodes)
    }

    ghost function Table(): Db
      requires Valid()
      reads this`heap, heap
    {
      table.value
    }

    ghost function View(): Srv
      requires Valid()
      reads this, heap
    {
      Srv(mode, state, prev, threads, isRunning, isPrune, Nrl(), Ctrl(), log.nrl.limit, log.ctrl.limit,
          Table(), freq, peer1, peer2, done, shipped, aborted)
    }

    /** The globals a fresh process starts with. */
    constructor (nrlLimit: nat, ctrlLimit: nat, buckets: nat)
      requires buckets > 0
      ensures Valid() && fresh(heap)
      ensures View() == Boot(nrlLimit, ctrlLimit, buckets)
    {
      mode, state, prev := UnknownRep, UnknownState, UnknownState;
      isPrune, isRunning, aborted, threads := false, false, false, 0;
      freq, peer1, peer2 := 10, DEFAULT_PEER2, DEFAULT_PEER2;
      done, shipped := [], [];
      log := new L.ServerLog(nrlLimit, ctrlLimit);
      table := new H.HashTable(buckets);
      new;
      heap := {log, log.nrl, log.ctrl} + table.Repr;
    }

    // ---------- run state and checkpoint thread ----------

    /** start_ckhpt_thread */
    method StartThread()
      requires Valid()
      modifies this
      ensures Valid() && heap == old(heap)
      ensures View() == ServerSpec.StartThread(old(View()))
    {
      hide Valid, Nrl, Ctrl, Table;
      if !isRunning {
        threads := threads + 1;
        isRunning := true;
      }
    }

    /** kill_chkpt_thrd_if_running: the caller waits until the thread has left. */
    method KillThread()
      requires Valid()
      modifies this
      ensures Valid() && heap == old(heap)
      ensures View() == ServerSpec.KillThread(old(View()))
    {
      hide Valid, Nrl, Ctrl, Table;
      if isRunning && threads > 0 {
        threads := threads - 1;
        isRunning := false;
      }
    }

    /** set_mode */
    method SetMode(m: Mode)
      requires Valid()
      modifies this
      ensures Valid() && heap == old(heap)
      ensures View() == ServerSpec.SetMode(old(View()), m)
    {
      hide Valid, Nrl, Ctrl, Table;
      if mode != UnknownRep || m == UnknownRep {
        aborted := true;
      } else {
        mode := m;
      }
    }

    /** set_state */
    method SetState(s: State)
      requires Valid()
      modifies this
      ensures Valid() && heap == old(heap)
      ensures View() == ServerSpec.SetState(old(View()), s)
    {
      hide Valid, Nrl, Ctrl, Table;
      var allowed := match mode
        case UnknownRep => false
        case ActiveRep => s in {ActiveRunning, ActiveRecover, Quiesce}
        case PassiveRep => s in {PassivePrimary, PassiveBackup, PassivePreprimary};
      if !allowed {
        aborted := true;
        return;
      }
      if mode == PassiveRep {
        if s == PassivePrimary {
          StartThread();
        } else if s == PassiveBackup {
          KillThread();
        }
      }
      state := s;
    }

    method PutInQuiescence()
      requires Valid()
      modifies this
      ensures Valid() && heap == old(heap)
      ensures View() == ServerSpec.PutInQuiescence(old(View()))
    {
      hide Valid, Nrl, Ctrl, Table;
      prev := state;
      SetState(Quiesce);
    }

    method RemoveFromQuiescence()
      requires Valid()
      modifies this
      ensures Valid() && heap == old(heap)
      ensures View() == ServerSpec.RemoveFromQuiescence(old(View()))
    {
      hide Valid, Nrl, Ctrl, Table;
      SetState(prev);
      if !aborted {
        prev := state;
      }
    }

    /** handle_rep_msg */
    method HandleRepMsg(msg: RepMgrMsg)
      requires Valid() && !aborted
      modifies this
      ensures Valid() && heap == old(heap)
      ensures View() == ServerSpec.HandleRepMsg(old(View()), msg)
    {
      hide Valid, Nrl, Ctrl, Table, ServerSpec.SetState, ServerSpec.KillThread;
      if mode == UnknownRep {
        SetMode(msg.mode);
        if aborted {
          return;
        }
      }
      KillThread();
      peer1, peer2 := msg.peer1, msg.peer2;
      freq := msg.freq;
      SetState(msg.state);
    }

    // ---------- queues ----------

    /** enqueue_client_req */
    method EnqueueClientReq(req: Request) returns (ret: int)
      requires Valid()
      modifies this, heap
      ensures Valid() && fresh(heap - old(heap))
      ensures View() == Receive(old(View()), req)
      ensures ret == if Admits(old(View()), req) then 0 else -1
    {
      hide Valid, Nrl, Ctrl, Table;
      var backlog := mode == PassiveRep && state == PassiveBackup;
      var control := req.MsgHeartbeat? || req.MsgRepMgr? || req.MsgSendChkpt?;
      if req.MsgChkPt? && backlog {
        isPrune := true;
      }
      ret := Link(Ctx(req, backlog), control);
    }

    /** enqueue of a new node. */
    method Link(c: Ctx, control: bool) returns (ret: int)
      requires Valid()
      modifies this`heap, heap
      ensures Valid() && fresh(heap - old(heap))
      ensures Table() == old(Table())
      ensures var room := if control then |old(Ctrl())| < log.ctrl.limit else |old(Nrl())| < log.nrl.limit;
        && ret == (if room then 0 else -1)
        && Nrl() == (if room && !control then old(Nrl()) + [c] else old(Nrl()))
        && Ctrl() == (if room && control then old(Ctrl()) + [c] else old(Ctrl()))
    {
      var node := new L.Node(c);
      if control {
        ret := LinkControl(node);
      } else {
        ret := LinkNormal(node);
      }
    }

    method LinkNormal(node: L.Node<Ctx>) returns (ret: int)
      requires Valid() && node !in heap
      modifies this`heap, heap, node
      ensures Valid() && heap == old(heap) + {node}
      ensures Table() == old(Table()) && Ctrl() == old(Ctrl())
      ensures ret == if |old(Nrl())| < log.nrl.limit then 0 else -1
      ensures Nrl() == if ret == 0 then old(Nrl()) + [node.val] else old(Nrl())
    {
      ValsAppend(log.nrl.nodes, node);
      heap := heap + {node};
      ret := log.Enqueue(node, L.Normal);
    }

    method LinkControl(node: L.Node<Ctx>) returns (ret: int)
      requires Valid() && node !in heap
      modifies this`heap, heap, node
      ensures Valid() && heap == old(heap) + {node}
      ensures Table() == old(Table()) && Nrl() == old(Nrl())
      ensures ret == if |old(Ctrl())| < log.ctrl.limit then 0 else -1
      ensures Ctrl() == if ret == 0 then old(Ctrl()) + [node.val] else old(Ctrl())
    {
      ValsAppend(log.ctrl.nodes, node);
      heap := heap + {node};
      ret := log.Enqueue(node, L.Control);
    }

    /** Executing a request changes the table alone. */
    method HandleStorage(req: Request)
      requires Valid()
      modifies this`heap, heap
      ensures Valid() && fresh(heap - old(heap))
      ensures Nrl() == old(Nrl()) && Ctrl() == old(Ctrl())
      ensures Table() == Storage.Handle(old(Table()), req)
    {
      hide Storage.Handle;
      var ret := Storage.HandleStorage(table, req);
      heap := heap + table.Repr;
    }

    /** execute_msg */
    method ExecuteMsg(c: Ctx)
      requires Valid()
      modifies this, heap
      ensures Valid() && fresh(heap - old(heap))
      ensures View() == Execute(old(View()), c)
    {
      hide Valid, Nrl, Ctrl, Table, Storage.Handle, ServerSpec.SetState;
      if mode == PassiveRep && state == PassivePreprimary && !c.backlog {
        SetState(PassivePrimary);
      }
      HandleStorage(c.req);
      done := done + [c.req];
    }

    /** dequeue on the NORMAL queue. */
    method TakeNormal() returns (c: Option<Ctx>)
      requires Valid()
      modifies heap
      ensures Valid() && heap == old(heap)
      ensures Ctrl() == old(Ctrl()) && Table() == old(Table())
      ensures c.None? <==> old(Nrl()) == []
      ensures c.None? ==> Nrl() == []
      ensures c.Some? ==> c.value == old(Nrl())[0] && Nrl() == old(Nrl())[1..]
    {
      if log.nrl.nodes != [] {
        ValsTail(log.nrl.nodes);
      }
      var node := log.Dequeue(L.Normal);
      c := if node == null then None else Some(node.val);
    }

    /** dequeue on the CONTROL queue. */
    method TakeControl() returns (c: Option<Ctx>)
      requires Valid()
      modifies heap
      ensures Valid() && heap == old(heap)
      ensures Nrl() == old(Nrl()) && Table() == old(Table())
      ensures c.None? <==> old(Ctrl()) == []
      ensures c.None? ==> Ctrl() == []
      ensures c.Some? ==> c.value == old(Ctrl())[0] && Ctrl() == old(Ctrl())[1..]
    {
      if log.ctrl.nodes != [] {
        ValsTail(log.ctrl.nodes);
      }
      var node := log.Dequeue(L.Control);
      c := if node == null then None else Some(node.val);
    }

    // ---------- the worker threads ----------

    /** One turn of the prune loop: take a request, and execute it if it is a checkpoint. */
    method PruneOne() returns (more: bool)
      requires Valid()
      modifies this, heap
      ensures Valid() && fresh(heap - old(heap))
      ensures more <==> old(Nrl()) != []
      ensures View() == if more then DrainOne(old(View())) else old(View())
    {
      hide Valid, Nrl, Ctrl, Table, Execute;
      var c := TakeNormal();
      more := c.Some?;
      if more && c.value.req.MsgChkPt? {
        isPrune := false;
        ExecuteMsg(c.value);
      }
    }

    /** The prune loop of run. */
    method PruneLoop()
      requires Valid()
      modifies this, heap
      ensures Valid() && fresh(heap - old(heap))
      ensures View() == Drain(old(View()))
    {
      hide Valid, Nrl, Ctrl, Table, DrainOne;
      var more := true;
      while more
        invariant Valid() && fresh(heap - old(heap))
        invariant Drain(View()) == Drain(old(View()))
        invariant !more ==> Nrl() == []
        decreases more, |Nrl()|
      {
        more := PruneOne();
      }
    }

    /** One turn of the NORMAL worker. */
    method NormalTurn()
      requires Valid()
      modifies this, heap
      ensures Valid() && fresh(heap - old(heap))
      ensures View() == NormalStep(old(View()))
    {
      hide Valid, Nrl, Ctrl, Table, Execute, Drain, ServerSpec.SetState;
      if isPrune {
        PruneLoop();
      }
      if !isPrune && mode == PassiveRep && state == PassiveBackup {
        return;
      }
      var count := NormalCount();
      if mode == PassiveRep && state == PassivePreprimary && count == 0 {
        SetState(PassivePrimary);
      }
      if count == 0 {
        return;
      }
      if state != Quiesce {
        var c := TakeNormal();
        ExecuteMsg(c.value);
      }
    }

    method NormalCount() returns (n: nat)
      requires Valid()
      ensures n == |Nrl()|
    {
      n := log.GetCount(L.Normal);
    }

    /** execute_msg_ctrl on the next control request, if any. */
    method ControlTurn()
      requires Valid() && !aborted
      modifies this, heap
      ensures Valid() && fresh(heap - old(heap))
      ensures View() == ControlStep(old(View()))
    {
      hide Valid, Nrl, Ctrl, Table, ServerSpec.HandleRepMsg;
      var c := TakeControl();
      if c.None? {
        return;
      }
      match c.value.req
      case MsgRepMgr(msg) => HandleRepMsg(msg);
      case MsgSendChkpt =>
        if prev != ActiveRecover {
          shipped := shipped + [Table()];
        }
      case _ =>
    }
  }
}
