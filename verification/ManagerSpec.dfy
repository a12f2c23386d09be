/** The replication manager as a value (src/replication_manager.c): what it does with a report
    of a fault detector, which commands it sends, and what it remembers. */
module ManagerSpec {
  import opened Types

  /** enum replica_state */
  datatype NodeState = Running | Faulted | SentStartupReq

  /** enum factory_req; a state change carries what the server will be told. */
  datatype Cmd = Startup | ChangeState(msg: RepMgrMsg) | SendChkpt | QuiesceBegin | QuiesceStop

  /** A command for the factory of replica dest. */
  datatype Send = Send(dest: int, cmd: Cmd)

  datatype Report = Report(id: nat, state: NodeState)

  /** The configured replication mode: 0 is passive, 1 is active. */
  datatype Style = Passive | Active

  /** `locked` means a handler returned while holding the lock: no report is handled any more. */
  datatype Mgr = Mgr(
    style: Style, primary: int, node: seq<NodeState>, hb: seq<bool>, status: seq<bool>,
    numServers: int, needs: seq<bool>, peers: seq<Peer>, freq: int, locked: bool)

  ghost predicate Wf(m: Mgr) {
    && 0 < |m.node| == |m.hb| == |m.status| == |m.needs| == |m.peers|
    && -1 <= m.primary < |m.node|
  }

  function Boot(style: Style, peers: seq<Peer>, freq: int): Mgr {
    var n := |peers|;
    Mgr(style, -1, seq(n, _ => Faulted), seq(n, _ => true), seq(n, _ => false), 0,
        seq(n, _ => false), peers, freq, false)
  }

  // ---------- messages ----------

  /** The first index from `from` on that is not r, or -1. */
  function NextOther(n: nat, r: int, from: nat): int
    decreases n - from
  {
    if from >= n then -1 else if from != r then from else NextOther(n, r, from + 1)
  }

  function PeerAt(peers: seq<Peer>, id: int): Peer {
    if 0 <= id < |peers| then peers[id] else DEFAULT_PEER1
  }

  /** fill_message_for_primary_election: the new role and the first two other replicas. */
  function ElectionMsg(m: Mgr, r: int): RepMgrMsg {
    var id1 := NextOther(|m.peers|, r, 0);
    var id2 := if id1 < 0 then -1 else NextOther(|m.peers|, r, id1 + 1);
    RepMgrMsg(if m.style == Passive then PassiveRep else ActiveRep,
              if m.style == Passive then PassivePreprimary else ActiveRunning,
              m.freq, PeerAt(m.peers, id1), PeerAt(m.peers, id2))
  }

  function Election(m: Mgr, r: int): Send { Send(r, ChangeState(ElectionMsg(m, r))) }
  function Backup(r: int): Send { Send(r, ChangeState(PlainMsg(PassiveRep, PassiveBackup))) }
  function Recover(r: int): Send { Send(r, ChangeState(PlainMsg(ActiveRep, ActiveRecover))) }

  /** A send whose connection fails leaves nothing on the wire. */
  function Emit(s: Send, lost: set<Send>): seq<Send> {
    if s in lost then [] else [s]
  }

  /** The same command to every replica marked RUNNING, in index order, from `from` on. */
  function ToRunning(node: seq<NodeState>, from: nat, cmd: Cmd, lost: set<Send>): seq<Send>
    decreases |node| - from
  {
    if from >= |node| then []
    else (if node[from] == Running then Emit(Send(from, cmd), lost) else [])
         + ToRunning(node, from + 1, cmd, lost)
  }

  // ---------- handling a report ----------

  datatype Outcome = Outcome(mgr: Mgr, sent: seq<Send>, ret: int)

  /** Start-up or recovery of replica r in passive mode. */
  function PassiveUp(m: Mgr, r: nat, lost: set<Send>): Outcome
    requires Wf(m) && r < |m.node|
  {
    var role := if r != m.primary then Backup(r) else Election(m, r);
    var ret := if role in lost then -1 else 0;
    var chkpt := Send(m.primary, SendChkpt);
    if !m.needs[r] then Outcome(m, Emit(role, lost), ret)
    else if chkpt in lost then Outcome(m.(locked := true), Emit(role, lost), -1)
    else Outcome(m, Emit(role, lost) + [chkpt], ret)
  }

  /** Start-up or recovery of replica r in active mode; a recovery is bracketed by quiescence. */
  function ActiveUp(m: Mgr, r: nat, lost: set<Send>): Outcome
    requires Wf(m) && r < |m.node|
  {
    if m.primary == -1 then
      var first := m.(primary := r);
      Outcome(first, Emit(Election(first, r), lost), if Election(first, r) in lost then -1 else 0)
    else
      var up := m.(node := m.node[r := Running]);
      var chkpt, run := Send(m.primary, SendChkpt), Election(up, r);
      Outcome(up,
        Emit(Recover(r), lost) + ToRunning(up.node, 0, QuiesceBegin, lost) + Emit(chkpt, lost)
        + ToRunning(up.node, 0, QuiesceStop, lost) + Emit(run, lost),
        if Recover(r) in lost || chkpt in lost || run in lost then -1 else 0)
  }

  /** Replica r is reported down: it is restarted, and the next one takes over from a primary. */
  function Down(m: Mgr, r: nat, lost: set<Send>): Outcome
    requires Wf(m) && r < |m.node|
  {
    var start := Emit(Send(r, Startup), lost);
    if r == m.primary then
      var next := m.(primary := (r + 1) % |m.node|,
                     needs := if m.style == Passive then m.needs[r := true] else m.needs);
      var e := Election(next, next.primary);
      Outcome(next, start + Emit(e, lost), if e in lost then -1 else 0)
    else if m.style == Active then Outcome(m, start, 0)
    else if m.primary == -1 then Outcome(m.(primary := r), start, 0)
    else Outcome(m.(needs := m.needs[r := true]), start, 0)
  }

  /** print_current_state_info also keeps the membership count. */
  function Membership(m: Mgr, rep: Report): Mgr
    requires Wf(m) && rep.id < |m.node|
  {
    if !m.status[rep.id] && rep.state == Running then
      m.(status := m.status[rep.id := true],
         numServers := if m.numServers + 1 > |m.node| then |m.node| else m.numServers + 1)
    else if m.status[rep.id] && rep.state == Faulted then
      m.(status := m.status[rep.id := false], numServers := m.numServers - 1)
    else m
  }

  /** The part of handle_state before the node's state is written and the summary printed. */
  function React(m: Mgr, rep: Report, lost: set<Send>): Outcome
    requires Wf(m) && rep.id < |m.node|
  {
    if rep.state == Running && m.node[rep.id] == Faulted then
      if m.style == Passive then PassiveUp(m, rep.id, lost) else ActiveUp(m, rep.id, lost)
    else if rep.state == Faulted && m.node[rep.id] != SentStartupReq then Down(m, rep.id, lost)
    else Outcome(m, [], 0)
  }

  lemma ReactWf(m: Mgr, rep: Report, lost: set<Send>)
    requires Wf(m) && rep.id < |m.node|
    ensures Wf(React(m, rep, lost).mgr) && |React(m, rep, lost).mgr.node| == |m.node|
  {
  }

  /** handle_state */
  function HandleState(m: Mgr, rep: Report, lost: set<Send>): Outcome
    requires Wf(m) && rep.id < |m.node|
  {
    var seen := m.(hb := m.hb[rep.id := true]);
    var o := React(seen, rep, lost);
    ReactWf(seen, rep, lost);
    if o.mgr.locked then o
    else
      var k := if rep.state == Running || (rep.state == Faulted && seen.node[rep.id] != SentStartupReq)
               then o.mgr.(node := o.mgr.node[rep.id := rep.state]) else o.mgr;
      o.(mgr := Membership(k, rep))
  }

  /** One round of the heartbeat thread: replicas not heard of since the last round lose their
      flag, without the count being touched. */
  function HeartbeatRound(m: Mgr): Mgr
    requires Wf(m)
  {
    m.(status := seq(|m.status|, i requires 0 <= i < |m.status| => m.status[i] && m.hb[i]),
       hb := seq(|m.hb|, _ => false))
  }

  // ---------- what holds at every release of the lock ----------

  function Count(flags: seq<bool>): nat {
    if flags == [] then 0 else (if flags[0] then 1 else 0) + Count(flags[1..])
  }

  ghost predicate Inv(m: Mgr) {
    && Wf(m) && !m.locked
    && Count(m.status) <= m.numServers <= |m.node|
    && (forall i :: 0 <= i < |m.node| ==> m.node[i] != SentStartupReq)
    && (forall i :: 0 <= i < |m.node| && m.status[i] ==> m.node[i] == Running)
    && (forall i :: 0 <= i < |m.node| && m.needs[i] ==> 0 <= m.primary)
  }

  lemma {:induction false} CountUpdate(flags: seq<bool>, i: nat, b: bool)
    requires i < |flags|
    ensures Count(flags[i := b])
         == Count(flags) - (if flags[i] then 1 else 0) + (if b then 1 else 0)
  {
    if i == 0 {
      assert flags[i := b][1..] == flags[1..];
    } else {
      CountUpdate(flags[1..], i - 1, b);
      assert flags[i := b][1..] == flags[1..][i - 1 := b];
    }
  }

  lemma {:induction false} CountAtMost(flags: seq<bool>)
    ensures Count(flags) <= |flags|
  {
    if flags != [] {
      CountAtMost(flags[1..]);
    }
  }

  lemma {:induction false} CountFewer(a: seq<bool>, b: seq<bool>)
    requires |a| == |b| && forall i :: 0 <= i < |a| && a[i] ==> b[i]
    ensures Count(a) <= Count(b)
  {
    if a != [] {
      CountFewer(a[1..], b[1..]);
    }
  }

  lemma {:induction false} CountNone(flags: seq<bool>)
    requires forall i :: 0 <= i < |flags| ==> !flags[i]
    ensures Count(flags) == 0
  {
    if flags != [] {
      CountNone(flags[1..]);
    }
  }

  lemma BootInv(style: Style, peers: seq<Peer>, freq: int)
    requires peers != []
    ensures Inv(Boot(style, peers, freq))
    ensures Boot(style, peers, freq).numServers == Count(Boot(style, peers, freq).status)
  {
    CountNone(Boot(style, peers, freq).status);
  }

  /** Before the node's own state is written: the invariant but for that node. */
  ghost predicate Reacted(m: Mgr, t: Mgr, r: nat) {
    && Wf(m) && Wf(t) && |t.node| == |m.node| && r < |m.node|
    && t.status == m.status && t.numServers == m.numServers && t.peers == m.peers && t.style == m.style
    && (forall i :: 0 <= i < |m.node| && i != r ==> t.node[i] == m.node[i])
    && (forall i :: 0 <= i < |m.node| && t.needs[i] && !m.needs[i] ==> 0 <= t.primary)
    && (0 <= m.primary ==> 0 <= t.primary)
  }

  lemma ReactReacts(m: Mgr, rep: Report, lost: set<Send>)
    requires Wf(m) && rep.id < |m.node|
    ensures Reacted(m, React(m, rep, lost).mgr, rep.id)
    ensures React(m, rep, lost).mgr.node[rep.id] == m.node[rep.id] || rep.state == Running
  {
  }

  lemma MembershipKeepsInv(m: Mgr, t: Mgr, rep: Report)
    requires Inv(m) && Reacted(m, t, rep.id) && !t.locked
    requires t.node[rep.id] == if rep.state == SentStartupReq then m.node[rep.id] else rep.state
    ensures var o := Membership(t, rep);
      Inv(o) && (m.numServers == Count(m.status) ==> o.numServers == Count(o.status))
  {
    CountUpdate(m.status, rep.id, rep.state == Running);
    CountAtMost(m.status[rep.id := true]);
    hide Count;
  }

  /** At every normal release of the lock: the flags never outnumber the count, the count never
      exceeds the replicas, a flag implies a RUNNING node, the transient start-up state is gone,
      and a replica owed a checkpoint implies a primary. Without timeouts the count is exact. */
  lemma ReportKeepsInv(m: Mgr, rep: Report, lost: set<Send>)
    requires Inv(m) && rep.id < |m.node|
    ensures var o := HandleState(m, rep, lost).mgr;
      !o.locked ==> Inv(o) && (m.numServers == Count(m.status) ==> o.numServers == Count(o.status))
    ensures HandleState(m, rep, lost).mgr.peers == m.peers
    ensures |HandleState(m, rep, lost).mgr.node| == |m.node| && HandleState(m, rep, lost).mgr.style == m.style
  {
    var seen := m.(hb := m.hb[rep.id := true]);
    var o := React(seen, rep, lost);
    ReactReacts(seen, rep, lost);
    hide React, Count;
    if !o.mgr.locked {
      var k := if rep.state != SentStartupReq
               then o.mgr.(node := o.mgr.node[rep.id := rep.state]) else o.mgr;
      MembershipKeepsInv(seen, k, rep);
    }
  }

  /** The lock is lost exactly when, in passive mode, a restarted replica is owed a checkpoint
      and the primary's factory cannot be reached to ask for it. */
  lemma LockLostIff(m: Mgr, rep: Report, lost: set<Send>)
    requires Inv(m) && rep.id < |m.node|
    ensures HandleState(m, rep, lost).mgr.locked <==>
      m.style == Passive && rep.state == Running && m.node[rep.id] == Faulted && m.needs[rep.id]
      && Send(m.primary, SendChkpt) in lost
  {
  }

  /** A heartbeat round keeps the invariant; the count stays exact only if nothing timed out. */
  lemma HeartbeatKeepsInv(m: Mgr)
    requires Inv(m)
    ensures Inv(HeartbeatRound(m))
    ensures m.numServers == Count(m.status) && (forall i :: 0 <= i < |m.status| && m.status[i] ==> m.hb[i])
      ==> HeartbeatRound(m).numServers == Count(HeartbeatRound(m).status)
  {
    hide Count;
    var t := HeartbeatRound(m);
    CountFewer(t.status, m.status);
    if forall i :: 0 <= i < |m.status| && m.status[i] ==> m.hb[i] {
      assert t.status == m.status;
    }
  }

  /** With three replicas an election names exactly the two that are not elected. */
  lemma ElectionNamesTheOthers(m: Mgr, r: nat)
    requires |m.peers| == 3 && r < 3
    ensures var e := ElectionMsg(m, r);
      multiset{e.peer1, e.peer2, m.peers[r]} == multiset(m.peers)
  {
    var id1 := NextOther(3, r, 0);
    assert NextOther(3, r, 1) == if r != 1 then 1 else NextOther(3, r, 2);
    assert NextOther(3, r, 2) == if r != 2 then 2 else NextOther(3, r, 3);
    assert m.peers == [m.peers[0], m.peers[1], m.peers[2]];
  }
}
