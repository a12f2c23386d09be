/** The two bounded request queues of a server (src/log.c): doubly linked nodes on the heap,
    against two first-in first-out sequences. Every operation runs under the queue lock, so
    each is one step. */
module LogQueue {
  import opened Types

  datatype LogType = InvalidLog | Normal | Control

  // ---------- the sequences ----------

  datatype Lanes<T> = Lanes(nrl: seq<T>, ctrl: seq<T>, nrlLimit: nat, ctrlLimit: nat) {
    function At(t: LogType): seq<T> {
      match t case Normal => nrl case Control => ctrl case InvalidLog => []
    }

    function Limit(t: LogType): nat {
      match t case Normal => nrlLimit case Control => ctrlLimit case InvalidLog => 0
    }

    function With(t: LogType, s: seq<T>): Lanes<T> {
      match t case Normal => this.(nrl := s) case Control => this.(ctrl := s) case InvalidLog => this
    }
  }

  datatype Op<T> = Put(t: LogType, x: T) | Take(t: LogType)

  predicate Accepts<T>(l: Lanes<T>, t: LogType) {
    |l.At(t)| < l.Limit(t)
  }

  function Apply<T>(l: Lanes<T>, op: Op<T>): Lanes<T> {
    match op
    case Put(t, x) => if Accepts(l, t) then l.With(t, l.At(t) + [x]) else l
    case Take(t) => if l.At(t) == [] then l else l.With(t, l.At(t)[1..])
  }

  function Run<T>(l: Lanes<T>, ops: seq<Op<T>>): Lanes<T>
    decreases |ops|
  {
    if ops == [] then l else Run(Apply(l, ops[0]), ops[1..])
  }

  function PutBy<T>(l: Lanes<T>, op: Op<T>, t: LogType): seq<T> {
    if op.Put? && op.t == t && Accepts(l, t) then [op.x] else []
  }

  function TakenBy<T>(l: Lanes<T>, op: Op<T>, t: LogType): seq<T> {
    if op.Take? && op.t == t && l.At(t) != [] then [l.At(t)[0]] else []
  }

  lemma ConservedByStep<T>(l: Lanes<T>, op: Op<T>, t: LogType)
    ensures TakenBy(l, op, t) + Apply(l, op).At(t) == l.At(t) + PutBy(l, op, t)
    ensures |l.At(t)| <= l.Limit(t) ==> |Apply(l, op).At(t)| <= l.Limit(t)
    ensures Apply(l, op).Limit(t) == l.Limit(t)
  {
  }

  /** What a run accepts into queue t, in order. */
  function AcceptedIn<T>(l: Lanes<T>, ops: seq<Op<T>>, t: LogType): seq<T>
    decreases |ops|
  {
    if ops == [] then [] else PutBy(l, ops[0], t) + AcceptedIn(Apply(l, ops[0]), ops[1..], t)
  }

  /** What a run takes out of queue t, in order. */
  function TakenFrom<T>(l: Lanes<T>, ops: seq<Op<T>>, t: LogType): seq<T>
    decreases |ops|
  {
    if ops == [] then [] else TakenBy(l, ops[0], t) + TakenFrom(Apply(l, ops[0]), ops[1..], t)
  }

  /** In every run, what was taken followed by what is still queued is what was there followed
      by what was accepted, and a queue within its limit stays within it. */
  lemma {:induction false} FifoRun<T>(l: Lanes<T>, ops: seq<Op<T>>, t: LogType)
    ensures TakenFrom(l, ops, t) + Run(l, ops).At(t) == l.At(t) + AcceptedIn(l, ops, t)
    ensures |l.At(t)| <= l.Limit(t) ==> |Run(l, ops).At(t)| <= l.Limit(t)
    decreases |ops|
  {
    hide Apply, TakenBy, PutBy;
    if ops == [] {
    } else {
      var m := Apply(l, ops[0]);
      FifoRun(m, ops[1..], t);
      ConservedByStep(l, ops[0], t);
      Shuffle(TakenBy(l, ops[0], t), m.At(t), PutBy(l, ops[0], t), l.At(t), TakenFrom(m, ops[1..], t),
              Run(m, ops[1..]).At(t), AcceptedIn(m, ops[1..], t));
    }
  }

  lemma Shuffle<T>(taken: seq<T>, mid: seq<T>, put: seq<T>, start: seq<T>,
                   taken': seq<T>, end: seq<T>, put': seq<T>)
    requires taken + mid == start + put
    requires taken' + end == mid + put'
    ensures (taken + taken') + end == start + (put + put')
  {
    assert (taken + taken') + end == taken + (taken' + end);
    assert taken + (mid + put') == (taken + mid) + put';
    assert (start + put) + put' == start + (put + put');
  }

  /** The two queues do not influence each other: queue t after a run is what the run's own
      operations on t make of it. */
  lemma {:induction false} LanesIndependent<T>(l: Lanes<T>, k: Lanes<T>, ops: seq<Op<T>>, t: LogType)
    requires l.At(t) == k.At(t) && l.Limit(t) == k.Limit(t)
    ensures Run(l, ops).At(t) == Run(k, Only(ops, t)).At(t)
    decreases |ops|
  {
    if ops != [] {
      var rest := ops[1..];
      if ops[0].t == t {
        assert Only(ops, t)[0] == ops[0] && Only(ops, t)[1..] == Only(rest, t);
        LanesIndependent(Apply(l, ops[0]), Apply(k, ops[0]), rest, t);
      } else {
        assert Only(ops, t) == Only(rest, t);
        LanesIndependent(Apply(l, ops[0]), k, rest, t);
      }
    }
  }

  function Only<T>(ops: seq<Op<T>>, t: LogType): seq<Op<T>> {
    if ops == [] then []
    else (if ops[0].t == t then [ops[0]] else []) + Only(ops[1..], t)
  }

  // ---------- the linked queues ----------

  /** log_node_t */
  class Node<T> {
    const val: T
    var next: Node?<T>
    var prev: Node?<T>

    constructor (val: T)
      ensures this.val == val
    {
      this.val := val;
      next, prev := null, null;
    }
  }

  function Vals<T>(ns: seq<Node<T>>): (r: seq<T>)
    ensures |r| == |ns|
    ensures forall i :: 0 <= i < |ns| ==> r[i] == ns[i].val
  {
    seq(|ns|, i requires 0 <= i < |ns| => ns[i].val)
  }

  /** One of the two queues of server_log_t; the code for both is the same. */
  class Lane<T> {
    var head: Node?<T>
    var tail: Node?<T>
    var count: nat
    const limit: nat
    ghost var nodes: seq<Node<T>>

    /** Interior links both ways and head.prev == tail. Nothing is said of tail.next, which a
        removal leaves pointing at the removed node. */
    ghost predicate Valid()
      reads this, nodes
    {
      && count == |nodes| <= limit
      && (nodes == [] ==> head == null && tail == null)
      && (nodes != [] ==> head == nodes[0] && tail == nodes[|nodes| - 1] && nodes[0].prev == tail)
      && (forall i {:trigger nodes[i].next} :: 0 <= i < |nodes| - 1 ==> nodes[i].next == nodes[i + 1])
      && (forall i {:trigger nodes[i].prev} :: 0 < i < |nodes| ==> nodes[i].prev == nodes[i - 1])
      && (forall i, j :: 0 <= i < j < |nodes| ==> nodes[i] != nodes[j])
    }

    constructor (limit: nat)
      ensures Valid() && nodes == [] && this.limit == limit
    {
      head, tail, count := null, null, 0;
      this.limit := limit;
      nodes := [];
    }

    method Enqueue(node: Node<T>) returns (ret: int)
      requires Valid() && node !in nodes
      modifies this, nodes, node
      ensures Valid()
      ensures ret == (if old(|nodes|) < limit then 0 else -1)
      ensures nodes == if ret == 0 then old(nodes) + [node] else old(nodes)
      ensures ret == 0 ==> tail.next == head
    {
      if count >= limit {
        return -1;
      }
      if count == 0 {
        head := node;
        tail := node;
      }
      node.next := head;
      node.prev := tail;
      tail.next := node;
      head.prev := node;
      tail := node;
      count := count + 1;
      nodes := nodes + [node];
      ret := 0;
    }

    method Dequeue() returns (node: Node?<T>)
      requires Valid()
      modifies this, nodes
      ensures Valid()
      ensures node == null <==> old(nodes) == []
      ensures old(nodes) == [] ==> nodes == []
      ensures old(nodes) != [] ==> node == old(nodes)[0] && nodes == old(nodes)[1..]
      // A queue that was closed into a circle no longer is one: the last node still points to
      // the node just removed.
      ensures old(|nodes|) > 1 && old(tail.next == head) ==> tail.next == node && node != head
    {
      if count > 0 {
        if count == 1 {
          node := head;
          head := null;
          tail := null;
          count := count - 1;
          nodes := [];
          return;
        }
        assert nodes[0].next == nodes[0 + 1];
        head.next.prev := tail;
        node := head;
        head := head.next;
        count := count - 1;
        ghost var was := nodes;
        nodes := nodes[1..];
        assert forall i :: 0 <= i < |nodes| ==> nodes[i] == was[i + 1];
        assert forall i :: 0 < i < |nodes| ==> was[i + 1].prev == was[i];
        assert forall i {:trigger was[i].next} :: 0 < i < |was| - 1 ==> was[i].next == was[i + 1];
      } else {
        node := null;
      }
    }
  }

  /** server_log_t */
  class ServerLog<T> {
    const nrl: Lane<T>
    const ctrl: Lane<T>

    ghost predicate Valid()
      reads this, nrl, ctrl, nrl.nodes, ctrl.nodes
    {
      && nrl != ctrl && nrl.Valid() && ctrl.Valid()
      && forall i, j :: 0 <= i < |nrl.nodes| && 0 <= j < |ctrl.nodes| ==> nrl.nodes[i] != ctrl.nodes[j]
    }

    ghost function View(): Lanes<Node<T>>
      reads this, nrl, ctrl
    {
      Lanes(nrl.nodes, ctrl.nodes, nrl.limit, ctrl.limit)
    }

    /** init_log_queue */
    constructor (nrlLimit: nat, ctrlLimit: nat)
      ensures Valid() && fresh(nrl) && fresh(ctrl)
      ensures View() == Lanes([], [], nrlLimit, ctrlLimit)
    {
      nrl := new Lane(nrlLimit);
      ctrl := new Lane(ctrlLimit);
    }

    method GetCount(t: LogType) returns (size: nat)
      requires Valid() && t != InvalidLog
      ensures size == |View().At(t)|
    {
      size := if t == Normal then nrl.count else ctrl.count;
    }

    method Enqueue(node: Node<T>, t: LogType) returns (ret: int)
      requires Valid() && node !in nrl.nodes && node !in ctrl.nodes
      modifies nrl, ctrl, nrl.nodes, ctrl.nodes, node
      ensures Valid()
      ensures View() == Apply(old(View()), Put(t, node))
      ensures ret == if Accepts(old(View()), t) then 0 else -1
    {
      match t
      case InvalidLog => ret := -1;
      case Normal => ret := nrl.Enqueue(node);
      case Control => ret := ctrl.Enqueue(node);
    }

    method Dequeue(t: LogType) returns (node: Node?<T>)
      requires Valid()
      modifies nrl, ctrl, nrl.nodes, ctrl.nodes
      ensures Valid()
      ensures View() == Apply(old(View()), Take(t))
      ensures node == null <==> old(View()).At(t) == []
      ensures node != null ==> node == old(View()).At(t)[0]
    {
      match t
      case InvalidLog => node := null;
      case Normal => node := nrl.Dequeue();
      case Control => node := ctrl.Dequeue();
    }
  }
}
