/** What the manager brings about: the commands each replica is sent by each report in passive mode,
    which replicas are owed a checkpoint, and who is counted as a member. */
module ManagerEffects {
  import opened Types
  import opened ManagerSpec
  import MR = ManagerRuns
  import A = ActiveRecovery

  // ---------- commands in passive mode ----------

  /** A command for replica dest, unless its send fails. */
  function Kept(dest: int, cmd: Cmd, lost: set<Send>): seq<Cmd> {
    if Send(dest, cmd) in lost then [] else [cmd]
  }

  const BACKUP: Cmd := ChangeState(RepMgrMsg(PassiveRep, PassiveBackup, DEFAULT_FREQ, DEFAULT_PEER1, DEFAULT_PEER2))

  function Elect(m: Mgr, r: int): Cmd { ChangeState(ElectionMsg(m, r)) }

  /** The role a replica is given when it comes up. */
  function RoleOf(m: Mgr, r: int): Cmd {
    if r == m.primary then Elect(m, r) else BACKUP
  }

  predicate ComesUp(m: Mgr, rep: Report)
    requires rep.id < |m.node|
  {
    rep.state == Running && m.node[rep.id] == Faulted
  }

  /** What replica i is sent by a report in passive mode. A replica that comes up is given its role,
      and if it is owed a checkpoint the primary is told to ship. One that is down is started again,
      and if it was the primary the next one is elected. */
  function PassiveSentTo(m: Mgr, rep: Report, lost: set<Send>, i: nat): seq<Cmd>
    requires Wf(m) && rep.id < |m.node| && i < |m.node|
  {
    var r := rep.id;
    if ComesUp(m, rep) then
      (if i == r then Kept(r, RoleOf(m, r), lost) else [])
      + (if i == m.primary && m.needs[r] then Kept(i, SendChkpt, lost) else [])
    else if rep.state == Faulted then
      (if i == r then Kept(r, Startup, lost) else [])
      + (if r == m.primary && i == (r + 1) % |m.node| then Kept(i, Elect(m, i), lost) else [])
    else []
  }

  lemma SameElection(m: Mgr, k: Mgr, r: int)
    requires k.style == m.style && k.peers == m.peers && k.freq == m.freq
    ensures ElectionMsg(k, r) == ElectionMsg(m, r)
  {
  }

  lemma ForEmit(s: Send, lost: set<Send>, i: nat)
    ensures A.For(Emit(s, lost), i) == if s.dest == i then Kept(i, s.cmd, lost) else []
  {
    A.ForOne(s, i);
    assert s == Send(s.dest, s.cmd);
  }

  lemma ForTwo(a: Send, b: Send, lost: set<Send>, i: nat)
    ensures A.For(Emit(a, lost) + Emit(b, lost), i)
         == (if a.dest == i then Kept(i, a.cmd, lost) else []) + (if b.dest == i then Kept(i, b.cmd, lost) else [])
  {
    A.ForConcat(Emit(a, lost), Emit(b, lost), i);
    ForEmit(a, lost, i);
    ForEmit(b, lost, i);
    hide A.For, Emit;
  }

  lemma UpSends(m: Mgr, rep: Report, lost: set<Send>)
    requires Inv(m) && m.style == Passive && rep.id < |m.node| && ComesUp(m, rep)
    ensures var role := Emit(Send(rep.id, RoleOf(m, rep.id)), lost);
      var chkpt := if m.needs[rep.id] then Emit(Send(m.primary, SendChkpt), lost) else [];
      HandleState(m, rep, lost).sent == role + chkpt
  {
    SameElection(m, m.(hb := m.hb[rep.id := true]), rep.id);
    hide ElectionMsg, Count;
  }

  lemma DownSends(m: Mgr, rep: Report, lost: set<Send>)
    requires Inv(m) && m.style == Passive && rep.id < |m.node| && rep.state == Faulted
    ensures var q := (rep.id + 1) % |m.node|;
      var start := Emit(Send(rep.id, Startup), lost);
      var elect := if rep.id == m.primary then Emit(Send(q, Elect(m, q)), lost) else [];
      HandleState(m, rep, lost).sent == start + elect
  {
    var q := (rep.id + 1) % |m.node|;
    SameElection(m, m.(hb := m.hb[rep.id := true], primary := q, needs := m.needs[rep.id := true]), q);
    assert m.node[rep.id] != SentStartupReq;
    hide ElectionMsg, Count;
  }

  lemma UpSentTo(m: Mgr, rep: Report, lost: set<Send>, i: nat)
    requires Inv(m) && m.style == Passive && rep.id < |m.node| && i < |m.node| && ComesUp(m, rep)
    ensures A.For(HandleState(m, rep, lost).sent, i) == PassiveSentTo(m, rep, lost, i)
  {
    hide HandleState, A.For, ElectionMsg, Emit, Kept, Inv, RoleOf;
    IsWf(m);
    var role, chkpt := Send(rep.id, RoleOf(m, rep.id)), Send(m.primary, SendChkpt);
    UpSends(m, rep, lost);
    ForTwo(role, chkpt, lost, i);
    ForEmit(role, lost, i);
    assert Emit(role, lost) + [] == Emit(role, lost);
  }

  lemma DownSentTo(m: Mgr, rep: Report, lost: set<Send>, i: nat)
    requires Inv(m) && m.style == Passive && rep.id < |m.node| && i < |m.node| && rep.state == Faulted
    ensures A.For(HandleState(m, rep, lost).sent, i) == PassiveSentTo(m, rep, lost, i)
  {
    hide HandleState, A.For, ElectionMsg, Emit, Kept, Inv;
    IsWf(m);
    var q := (rep.id + 1) % |m.node|;
    var start, elect := Send(rep.id, Startup), Send(q, Elect(m, q));
    DownSends(m, rep, lost);
    ForTwo(start, elect, lost, i);
    ForEmit(start, lost, i);
    assert Emit(start, lost) + [] == Emit(start, lost);
  }

  lemma IsWf(m: Mgr)
    requires Inv(m)
    ensures Wf(m)
  {
  }

  /** In passive mode each replica is sent exactly these commands by each report, whatever sends fail. */
  lemma PassiveSentToIs(m: Mgr, rep: Report, lost: set<Send>, i: nat)
    requires Inv(m) && m.style == Passive && rep.id < |m.node| && i < |m.node|
    ensures A.For(HandleState(m, rep, lost).sent, i) == PassiveSentTo(m, rep, lost, i)
  {
    if ComesUp(m, rep) {
      UpSentTo(m, rep, lost, i);
    } else if rep.state == Faulted {
      DownSentTo(m, rep, lost, i);
    } else {
      SendsNothing(m, rep, lost);
      assert A.For([], i) == [];
    }
    hide HandleState, A.For, Kept, ElectionMsg;
  }

  lemma SendsNothing(m: Mgr, rep: Report, lost: set<Send>)
    requires Wf(m) && rep.id < |m.node| && !ComesUp(m, rep) && rep.state != Faulted
    ensures HandleState(m, rep, lost).sent == []
  {
  }

  /** A report in passive mode fails exactly if a role, an election or an order to ship could not be
      sent; a start-up that could not be sent is not reported. */
  lemma PassiveFailsIff(m: Mgr, rep: Report, lost: set<Send>)
    requires Inv(m) && m.style == Passive && rep.id < |m.node|
    ensures var q := (rep.id + 1) % |m.node|;
      HandleState(m, rep, lost).ret
      == if (ComesUp(m, rep) && (Send(rep.id, RoleOf(m, rep.id)) in lost
                                 || (m.needs[rep.id] && Send(m.primary, SendChkpt) in lost)))
            || (rep.state == Faulted && rep.id == m.primary && Send(q, Elect(m, q)) in lost)
         then -1 else 0
  {
    var q := (rep.id + 1) % |m.node|;
    SameElection(m, m.(hb := m.hb[rep.id := true]), rep.id);
    SameElection(m, m.(hb := m.hb[rep.id := true], primary := q, needs := m.needs[rep.id := true]), q);
    hide ElectionMsg, Count;
  }

  /** What an election carries: the role of the mode, the configured frequency, and as peers the
      first two replicas other than the elected one. */
  lemma ElectionCarries(m: Mgr, r: nat)
    requires |m.peers| >= 3 && r < |m.peers|
    ensures var e := ElectionMsg(m, r);
      && e.mode == (if m.style == Passive then PassiveRep else ActiveRep)
      && e.state == (if m.style == Passive then PassivePreprimary else ActiveRunning)
      && e.freq == m.freq
      && e.peer1 == m.peers[if r == 0 then 1 else 0]
      && e.peer2 == m.peers[if r <= 1 then 2 else 1]
  {
    var n := |m.peers|;
    assert NextOther(n, r, 1) == if r != 1 then 1 else NextOther(n, r, 2);
    assert NextOther(n, r, 2) == if r != 2 then 2 else NextOther(n, r, 3);
  }

  // ---------- failed sends in active mode ----------

  /** The sends that are not lost. */
  function Surviving(sent: seq<Send>, lost: set<Send>): seq<Send> {
    if sent == [] then [] else Emit(sent[0], lost) + Surviving(sent[1..], lost)
  }

  lemma {:induction false} SurvivingConcat(a: seq<Send>, b: seq<Send>, lost: set<Send>)
    ensures Surviving(a + b, lost) == Surviving(a, lost) + Surviving(b, lost)
    decreases |a|
  {
    if a == [] {
      assert a + b == b;
    } else {
      assert (a + b)[0] == a[0] && (a + b)[1..] == a[1..] + b;
      hide Emit;
      SurvivingConcat(a[1..], b, lost);
      assert Emit(a[0], lost) + (Surviving(a[1..], lost) + Surviving(b, lost))
          == (Emit(a[0], lost) + Surviving(a[1..], lost)) + Surviving(b, lost);
    }
  }

  lemma SurvivingOne(s: Send, lost: set<Send>)
    ensures Surviving(Emit(s, {}), lost) == Emit(s, lost)
  {
    assert Emit(s, {}) == [s] && [s][1..] == [];
  }

  lemma {:induction false} SurvivingRunning(node: seq<NodeState>, from: nat, cmd: Cmd, lost: set<Send>)
    ensures Surviving(ToRunning(node, from, cmd, {}), lost) == ToRunning(node, from, cmd, lost)
    decreases |node| - from
  {
    hide Emit;
    if from < |node| {
      SurvivingRunning(node, from + 1, cmd, lost);
      var head := if node[from] == Running then Emit(Send(from, cmd), {}) else [];
      SurvivingOne(Send(from, cmd), lost);
      SurvivingConcat(head, ToRunning(node, from + 1, cmd, {}), lost);
    }
  }

  /** In active mode a send that fails is missing from the wire, and nothing else changes: the others
      go out as they would, and the manager remembers the same. */
  lemma ActiveLosses(m: Mgr, rep: Report, lost: set<Send>)
    requires Inv(m) && m.style == Active && rep.id < |m.node|
    ensures var o, clean := HandleState(m, rep, lost), HandleState(m, rep, {});
      o.mgr == clean.mgr && o.sent == Surviving(clean.sent, lost)
  {
    var seen := m.(hb := m.hb[rep.id := true]);
    if ComesUp(m, rep) {
      UpLosses(seen, rep.id, lost);
      hide ActiveUp, Surviving;
    } else if rep.state == Faulted {
      DownLosses(seen, rep.id, lost);
      hide Down, Surviving;
    }
  }

  lemma UpLosses(m: Mgr, r: nat, lost: set<Send>)
    requires Wf(m) && m.style == Active && r < |m.node|
    ensures ActiveUp(m, r, lost).mgr == ActiveUp(m, r, {}).mgr
    ensures ActiveUp(m, r, lost).sent == Surviving(ActiveUp(m, r, {}).sent, lost)
  {
    hide Emit, ToRunning, Surviving, ElectionMsg;
    if m.primary == -1 {
      SurvivingOne(Election(m.(primary := r), r), lost);
    } else {
      var up := m.(node := m.node[r := Running]);
      var chkpt, run := Send(m.primary, SendChkpt), Election(up, r);
      var a, c, e := Emit(Recover(r), {}), Emit(chkpt, {}), Emit(run, {});
      var b, d := ToRunning(up.node, 0, QuiesceBegin, {}), ToRunning(up.node, 0, QuiesceStop, {});
      SurvivingOne(Recover(r), lost);
      SurvivingOne(chkpt, lost);
      SurvivingOne(run, lost);
      SurvivingRunning(up.node, 0, QuiesceBegin, lost);
      SurvivingRunning(up.node, 0, QuiesceStop, lost);
      SurvivingConcat(a, b, lost);
      SurvivingConcat(a + b, c, lost);
      SurvivingConcat(a + b + c, d, lost);
      SurvivingConcat(a + b + c + d, e, lost);
    }
  }

  lemma DownLosses(m: Mgr, r: nat, lost: set<Send>)
    requires Wf(m) && m.style == Active && r < |m.node|
    ensures Down(m, r, lost).mgr == Down(m, r, {}).mgr
    ensures Down(m, r, lost).sent == Surviving(Down(m, r, {}).sent, lost)
  {
    hide Emit, Surviving, ElectionMsg;
    SurvivingOne(Send(r, Startup), lost);
    if r == m.primary {
      var next := m.(primary := (r + 1) % |m.node|);
      SurvivingOne(Election(next, next.primary), lost);
      SurvivingConcat(Emit(Send(r, Startup), {}), Emit(Election(next, next.primary), {}), lost);
    }
  }

  /** A report in active mode fails exactly if RECOVER, the order to ship, RUNNING or an election could
      not be sent; quiescence commands and start-ups that could not be sent are not reported. */
  lemma ActiveFailsIff(m: Mgr, rep: Report, lost: set<Send>)
    requires Inv(m) && m.style == Active && rep.id < |m.node|
    ensures var r, q := rep.id, (rep.id + 1) % |m.node|;
      HandleState(m, rep, lost).ret
      == if (ComesUp(m, rep) && (Send(r, Elect(m, r)) in lost
                                 || (m.primary != -1 && (Recover(r) in lost || Send(m.primary, SendChkpt) in lost))))
            || (rep.state == Faulted && r == m.primary && Send(q, Elect(m, q)) in lost)
         then -1 else 0
  {
    var r, q := rep.id, (rep.id + 1) % |m.node|;
    var seen := m.(hb := m.hb[r := true]);
    SameElection(m, seen.(primary := r), r);
    SameElection(m, seen.(node := m.node[r := Running]), r);
    SameElection(m, seen.(primary := q), q);
    hide ElectionMsg, Count, ToRunning;
  }

  // ---------- what the manager remembers ----------

  /** Outside a lost lock, the node's state is what was reported, and in passive mode a replica is
      owed a checkpoint from its first fault under a known primary on, for good. */
  lemma Remembered(m: Mgr, rep: Report, lost: set<Send>)
    requires Inv(m) && rep.id < |m.node|
    ensures var k := HandleState(m, rep, lost).mgr;
      !k.locked ==>
        && k.node == (if rep.state == SentStartupReq then m.node else m.node[rep.id := rep.state])
        && k.needs == (if m.style == Passive && rep.state == Faulted && m.primary != -1
                       then m.needs[rep.id := true] else m.needs)
  {
    hide ElectionMsg, Count, ToRunning;
  }

  /** Whenever the lock is released, the replica reported on has been heard of, and counts as a member
      after a RUNNING report and not after a FAULTED one; nobody else's standing changes. */
  lemma FlagFollowsReport(m: Mgr, rep: Report, lost: set<Send>)
    requires Inv(m) && rep.id < |m.node|
    ensures var k := HandleState(m, rep, lost).mgr;
      !k.locked ==>
        && k.status == (if rep.state == SentStartupReq then m.status else m.status[rep.id := rep.state == Running])
        && k.hb == m.hb[rep.id := true]
  {
    var seen := m.(hb := m.hb[rep.id := true]);
    ReactReacts(seen, rep, lost);
    ReactHears(seen, rep, lost);
    hide React, Count;
  }

  lemma ReactHears(m: Mgr, rep: Report, lost: set<Send>)
    requires Wf(m) && rep.id < |m.node|
    ensures React(m, rep, lost).mgr.hb == m.hb
  {
  }

  // ---------- membership over runs ----------

  function RunningNodes(node: seq<NodeState>): (r: seq<bool>)
    ensures |r| == |node| && forall i :: 0 <= i < |node| ==> (r[i] <==> node[i] == Running)
  {
    seq(|node|, i requires 0 <= i < |node| => node[i] == Running)
  }

  ghost predicate MembersRun(m: Mgr) {
    && Inv(m) && m.status == RunningNodes(m.node) && m.numServers == Count(RunningNodes(m.node))
  }

  lemma MembersStep(m: Mgr, e: MR.Event)
    requires MembersRun(m) && (e.Rep? ==> e.rep.id < |m.node|)
    requires e.Heartbeat? ==> forall i :: 0 <= i < |m.status| && m.status[i] ==> m.hb[i]
    ensures !MR.Step(m, e).locked ==> MembersRun(MR.Step(m, e))
  {
    var k := MR.Step(m, e);
    if e.Rep? {
      ReportKeepsInv(m, e.rep, e.lost);
      Remembered(m, e.rep, e.lost);
      FlagFollowsReport(m, e.rep, e.lost);
      hide HandleState, Count;
      if !k.locked {
        assert k.status == RunningNodes(k.node);
      }
    } else {
      HeartbeatKeepsInv(m);
      hide Count;
      assert k.status == m.status;
    }
  }

  /** In every run without heartbeat timeouts, at every release of the lock, the members are exactly
      the RUNNING nodes, and the count is their number. */
  lemma {:induction false} MembersAreRunning(m: Mgr, es: seq<MR.Event>)
    requires MR.Proper(m, es) && MembersRun(m) && MR.NoTimeout(m, es)
    ensures var k := MR.Run(m, es);
      !k.locked ==>
        && |k.status| == |k.node| && (forall i :: 0 <= i < |k.node| ==> (k.status[i] <==> k.node[i] == Running))
        && k.numServers == Count(RunningNodes(k.node))
    decreases |es|
  {
    if es != [] {
      MR.StepWf(m, es[0]);
      MembersStep(m, es[0]);
      hide MR.Step, Count;
      if MR.Step(m, es[0]).locked {
        MR.LockedStays(MR.Step(m, es[0]), es[1..]);
      } else {
        MembersAreRunning(MR.Step(m, es[0]), es[1..]);
      }
    }
  }

  /** The manager starts with no primary, every node FAULTED, nobody a member and nobody owed. */
  lemma BootMembers(style: Style, peers: seq<Peer>, freq: int)
    requires peers != []
    ensures var m := Boot(style, peers, freq);
      && MembersRun(m) && m.primary == -1 && m.style == style && m.peers == peers && m.freq == freq
      && forall i :: 0 <= i < |peers| ==> m.node[i] == Faulted && !m.status[i] && !m.needs[i] && m.hb[i]
  {
    BootInv(style, peers, freq);
    var m := Boot(style, peers, freq);
    assert m.status == RunningNodes(m.node);
  }

  // ---------- heartbeats ----------

  predicate Mentions(es: seq<MR.Event>, i: nat) {
    es != [] && ((es[0].Rep? && es[0].rep.id == i) || Mentions(es[1..], i))
  }

  lemma HeardStep(m: Mgr, e: MR.Event, i: nat)
    requires Inv(m) && i < |m.node| && e.Rep? && e.rep.id < |m.node|
    ensures var k := MR.Step(m, e);
      !k.locked ==> Inv(k) && |k.node| == |m.node| && (k.hb[i] <==> m.hb[i] || e.rep.id == i)
  {
    ReportKeepsInv(m, e.rep, e.lost);
    FlagFollowsReport(m, e.rep, e.lost);
    hide HandleState;
  }

  lemma {:induction false} HeardIff(m: Mgr, es: seq<MR.Event>, i: nat)
    requires Inv(m) && MR.Proper(m, es) && i < |m.node| && forall k :: 0 <= k < |es| ==> es[k].Rep?
    ensures var t := MR.Run(m, es);
      !t.locked ==> Inv(t) && |t.node| == |m.node| && (t.hb[i] <==> m.hb[i] || Mentions(es, i))
    decreases |es|
  {
    if es != [] {
      MR.StepWf(m, es[0]);
      HeardStep(m, es[0], i);
      hide MR.Step, Inv;
      if MR.Step(m, es[0]).locked {
        MR.LockedStays(MR.Step(m, es[0]), es[1..]);
      } else {
        HeardIff(MR.Step(m, es[0]), es[1..], i);
      }
    }
  }

  /** A replica loses its membership in a round of the heartbeat thread exactly if no report about it
      was handled since the round before; those heard of keep theirs. */
  lemma SilentLosesFlag(m: Mgr, es: seq<MR.Event>, i: nat)
    requires Inv(m) && i < |m.node| && MR.Proper(m, [MR.Heartbeat] + es)
    requires forall k :: 0 <= k < |es| ==> es[k].Rep?
    ensures var first := MR.Step(m, MR.Heartbeat);
      && Inv(first) && MR.Proper(first, es)
      && var last := MR.Run(first, es);
      !last.locked ==>
        && Inv(last) && |last.node| == |m.node|
        && (MR.Step(last, MR.Heartbeat).status[i] <==> last.status[i] && Mentions(es, i))
  {
    HeartbeatKeepsInv(m);
    var first, all := MR.Step(m, MR.Heartbeat), [MR.Heartbeat] + es;
    assert forall k :: 0 <= k < |es| ==> es[k] == all[k + 1];
    assert first.hb == seq(|m.hb|, _ => false);
    HeardIff(first, es, i);
  }
}
