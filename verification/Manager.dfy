/** The replication manager's globals changed in place (src/replication_manager.c), method by
    method against the value-level manager. A send either reaches the wire or, when its
    connection fails, is in `lost`. */
module Manager {
  import opened Types
  import opened ManagerSpec

  /** An election does not depend on what is known of the nodes. */
  lemma SameElection(m: Mgr, k: Mgr, r: int)
    requires k.style == m.style && k.peers == m.peers && k.freq == m.freq
    ensures Election(k, r) == Election(m, r)
  {
  }

  class Manager {
    const style: Style
    const peers: seq<Peer>
    const freq: int
    const node: array<NodeState>
    const hb: array<bool>
    const status: array<bool>
    const needs: array<bool>
    var primary: int
    var numServers: int
    var locked: bool
    var wire: seq<Send>

    ghost predicate Valid()
      reads this, node, hb, status, needs
    {
      && 0 < node.Length == hb.Length == status.Length == needs.Length == |peers|
      && -1 <= primary < node.Length
      && hb != status && hb != needs && status != needs
    }

    ghost function View(): Mgr
      reads this, node, hb, status, needs
    {
      Mgr(style, primary, node[..], hb[..], status[..], numServers, needs[..], peers, freq, locked)
    }

    /** memset of the membership and init_server_state. */
    constructor (style: Style, peers: seq<Peer>, freq: int)
      requires peers != []
      ensures Valid() && wire == []
      ensures View() == Boot(style, peers, freq)
    {
      this.style, this.peers, this.freq := style, peers, freq;
      node := new NodeState[|peers|](_ => Faulted);
      hb := new bool[|peers|](_ => true);
      status := new bool[|peers|](_ => false);
      needs := new bool[|peers|](_ => false);
      primary, numServers, locked, wire := -1, 0, false, [];
      new;
      assert View() == Boot(style, peers, freq);
    }

    /** Connect to a factory and write one command. */
    method Transmit(s: Send, lost: set<Send>) returns (ret: int)
      modifies this`wire
      ensures wire == old(wire) + Emit(s, lost)
      ensures ret == if s in lost then -1 else 0
    {
      if s in lost {
        ret := -1;
      } else {
        wire := wire + [s];
        ret := 0;
      }
    }

    /** elect_new_primary */
    method ElectNewPrimary(r: nat, lost: set<Send>) returns (ret: int)
      requires Valid() && r < node.Length
      modifies this`wire, this`primary
      ensures ret == if Election(old(View()), r) in lost then -1 else 0
      ensures Valid() && View() == if ret == 0 then old(View()).(primary := r) else old(View())
      ensures wire == old(wire) + Emit(Election(old(View()), r), lost)
    {
      ret := Transmit(Election'(r), lost);
      if ret == 0 {
        primary := r;
      }
    }

    /** fill_message_for_primary_election */
    function Election'(r: nat): (s: Send)
      requires Valid()
      reads this, node, hb, status, needs
      ensures s == Election(View(), r)
    {
      var id1 := NextOther(|peers|, r, 0);
      var id2 := if id1 < 0 then -1 else NextOther(|peers|, r, id1 + 1);
      Send(r, ChangeState(RepMgrMsg(
        if style == Passive then PassiveRep else ActiveRep,
        if style == Passive then PassivePreprimary else ActiveRunning,
        freq, PeerAt(peers, id1), PeerAt(peers, id2))))
    }

    /** restart_server; its caller overwrites the node's state afterwards. */
    method RestartServer(r: nat, lost: set<Send>)
      requires Valid() && r < node.Length
      modifies this`wire, node
      ensures Valid()
      ensures View() == old(View()).(node := node[..])
      ensures node[..] == old(node[..])[r := if Send(r, Startup) in lost then old(node[r]) else SentStartupReq]
      ensures wire == old(wire) + Emit(Send(r, Startup), lost)
    {
      var ret := Transmit(Send(r, Startup), lost);
      if ret == 0 {
        node[r] := SentStartupReq;
      }
    }

    /** quiesce_all and stop_quiesce_all */
    method ToAllRunning(cmd: Cmd, lost: set<Send>)
      requires Valid()
      modifies this`wire
      ensures Valid() && View() == old(View())
      ensures wire == old(wire) + ToRunning(node[..], 0, cmd, lost)
    {
      var i := 0;
      while i < node.Length
        invariant 0 <= i <= node.Length && Valid() && View() == old(View())
        invariant wire + ToRunning(node[..], i, cmd, lost) == old(wire) + ToRunning(node[..], 0, cmd, lost)
      {
        ghost var before := wire;
        if node[i] == Running {
          var ret := Transmit(Send(i, cmd), lost);
        }
        assert before + (wire[|before|..] + ToRunning(node[..], i + 1, cmd, lost))
            == wire + ToRunning(node[..], i + 1, cmd, lost);
        i := i + 1;
      }
    }

    /** A replica comes up in passive mode. */
    method PassiveUp(r: nat, lost: set<Send>) returns (ret: int)
      requires Valid() && r < node.Length && style == Passive && !locked
      modifies this`wire, this`primary, this`locked
      ensures Valid()
      ensures var o := ManagerSpec.PassiveUp(old(View()), r, lost);
        View() == o.mgr && wire == old(wire) + o.sent && ret == o.ret
    {
      if r != primary {
        ret := Transmit(Backup(r), lost);
      } else {
        ret := ElectNewPrimary(r, lost);
      }
      if needs[r] {
        var status := Transmit(Send(primary, SendChkpt), lost);
        if status < 0 {
          locked := true;
          return -1;
        }
      }
    }

    /** A replica comes up in active mode. */
    method ActiveUp(r: nat, lost: set<Send>) returns (ret: int)
      requires Valid() && r < node.Length && style == Active && !locked
      modifies this`wire, this`primary, node
      ensures Valid()
      ensures var o := ManagerSpec.ActiveUp(old(View()), r, lost);
        View() == o.mgr && wire == old(wire) + o.sent && ret == o.ret
    {
      if primary == -1 {
        primary := r;
        ret := Transmit(Election'(r), lost);
        return;
      }
      node[r] := Running;
      ret := Bracket(r, lost);
    }

    method Bracket(r: nat, lost: set<Send>) returns (ret: int)
      requires Valid() && r < node.Length && style == Active
      modifies this`wire
      ensures Valid() && View() == old(View())
      ensures wire == old(wire) + (Emit(Recover(r), lost) + ToRunning(node[..], 0, QuiesceBegin, lost)
        + Emit(Send(primary, SendChkpt), lost) + ToRunning(node[..], 0, QuiesceStop, lost)
        + Emit(Election(View(), r), lost))
      ensures ret == if Recover(r) in lost || Send(primary, SendChkpt) in lost || Election(View(), r) in lost
                     then -1 else 0
    {
      hide Emit, ToRunning, Election;
      ret := 0;
      var a := Transmit(Recover(r), lost);
      ToAllRunning(QuiesceBegin, lost);
      var b := Transmit(Send(primary, SendChkpt), lost);
      ToAllRunning(QuiesceStop, lost);
      var c := Transmit(Election'(r), lost);
      if a < 0 || b < 0 || c < 0 {
        ret := -1;
      }
    }

    /** The role goes from r to the next replica. */
    method MoveRole(r: nat, lost: set<Send>) returns (ret: int)
      requires Valid() && r < node.Length && r == primary
      modifies this`wire, this`primary, needs
      ensures Valid()
      ensures View() == old(View()).(
        primary := (r + 1) % node.Length,
        needs := if style == Passive then old(needs[..])[r := true] else old(needs[..]))
      ensures wire == old(wire) + Emit(Election(View(), (r + 1) % node.Length), lost)
      ensures ret == if Election(View(), (r + 1) % node.Length) in lost then -1 else 0
    {
      hide Emit, Election;
      primary := (r + 1) % node.Length;
      if style == Passive {
        needs[r] := true;
      }
      ret := ElectNewPrimary(primary, lost);
    }

    /** A replica is reported down. */
    method Down(r: nat, lost: set<Send>) returns (ret: int)
      requires Valid() && r < node.Length
      modifies this`wire, this`primary, node, needs
      ensures Valid()
      ensures var o := ManagerSpec.Down(old(View()), r, lost);
        View() == o.mgr.(node := o.mgr.node[r := node[r]]) && wire == old(wire) + o.sent && ret == o.ret
    {
      hide Emit, ElectionMsg;
      RestartServer(r, lost);
      ret := 0;
      if r == primary {
        ret := MoveRole(r, lost);
        ghost var m := old(View());
        ghost var next := m.(primary := (r + 1) % |m.node|,
                             needs := if m.style == Passive then m.needs[r := true] else m.needs);
        SameElection(next, View(), primary);
      } else if style == Passive {
        if primary == -1 {
          primary := r;
        } else {
          needs[r] := true;
        }
      }
    }

    /** print_current_state_info */
    method Summary(rep: Report)
      requires Valid() && rep.id < node.Length
      modifies this`numServers, status
      ensures Valid() && View() == Membership(old(View()), rep)
    {
      if !status[rep.id] && rep.state == Running {
        status[rep.id] := true;
        numServers := numServers + 1;
        if numServers > node.Length {
          numServers := node.Length;
        }
      } else if status[rep.id] && rep.state == Faulted {
        status[rep.id] := false;
        numServers := numServers - 1;
      }
    }

    /** handle_state */
    method HandleState(rep: Report, lost: set<Send>) returns (ret: int)
      requires Valid() && rep.id < node.Length && !locked
      modifies this`wire, this`primary, this`locked, this`numServers, node, hb, status, needs
      ensures Valid()
      ensures var o := ManagerSpec.HandleState(old(View()), rep, lost);
        View() == o.mgr && wire == old(wire) + o.sent && ret == o.ret
    {
      hide ManagerSpec.PassiveUp, ManagerSpec.ActiveUp, ManagerSpec.Down, Membership;
      ret := 0;
      hb[rep.id] := true;
      if rep.state == Running {
        if node[rep.id] == Faulted {
          if style == Passive {
            ret := PassiveUp(rep.id, lost);
            if locked {
              return;
            }
          } else {
            ret := ActiveUp(rep.id, lost);
          }
        }
        node[rep.id] := Running;
      } else if rep.state == Faulted {
        if node[rep.id] != SentStartupReq {
          ghost var o := ManagerSpec.Down(View(), rep.id, lost);
          ReactWf(View(), rep, lost);
          ret := Down(rep.id, lost);
          ghost var was := node[rep.id];
          node[rep.id] := Faulted;
          assert o.mgr.node[rep.id := was][rep.id := Faulted] == o.mgr.node[rep.id := Faulted];
        }
      }
      Summary(rep);
    }

    /** One round of gfd_hbt. */
    method HeartbeatRound()
      requires Valid()
      modifies status, hb
      ensures Valid() && View() == ManagerSpec.HeartbeatRound(old(View()))
    {
      var i := 0;
      while i < node.Length
        invariant 0 <= i <= node.Length && Valid()
        invariant forall k :: 0 <= k < i ==> status[k] == old(status[k] && hb[k]) && !hb[k]
        invariant forall k :: i <= k < node.Length ==> status[k] == old(status[k]) && hb[k] == old(hb[k])
      {
        if !hb[i] {
          status[i] := false;
        }
        hb[i] := false;
        i := i + 1;
      }
      assert status[..] == ManagerSpec.HeartbeatRound(old(View())).status;
      assert hb[..] == ManagerSpec.HeartbeatRound(old(View())).hb;
    }
  }
}
