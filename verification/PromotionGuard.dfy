/** The guard on reports is exact: without it the commands already under way can make two live
    servers primary at once, and with it nothing can. */
module PromotionGuard {
  import opened Types
  import opened ManagerSpec
  import S = ServerSpec
  import opened Cluster

  // ---------- one replica ----------

  /** A live server that is owed a promotion after one of its own next steps: it runs its control
      queue first, and then takes the next command. */
  function NextFor(x: Site): SiteEvent {
    if x.srv.Some? && x.srv.value.ctrl != [] then Local(S.Control) else Deliver
  }

  lemma {:induction false} StartsIn(ch: seq<Cmd>)
    ensures StartThenPromotion(ch) ==> Startup in ch
    decreases |ch|
  {
    if ch != [] {
      StartsIn(ch[1..]);
    }
  }

  lemma NextStaysOwed(x: Site, cfg: Config)
    requires PassiveSite(x, cfg) && cfg.buckets > 0 && cfg.ctrlLimit > 0 && Owed(x) && !IsPrimary(x)
    ensures OwnEvent(NextFor(x)) && PassiveSite(SiteStep(x, NextFor(x), cfg), cfg)
    ensures Owed(SiteStep(x, NextFor(x), cfg))
    ensures var y := SiteStep(x, NextFor(x), cfg);
      |y.chan| < |x.chan| || (y.chan == x.chan && y.srv.Some? && x.srv.Some? &&
                              |y.srv.value.ctrl| < |x.srv.value.ctrl|)
  {
    OwnStep(x, NextFor(x), cfg);
    if x.srv.Some? && x.srv.value.ctrl != [] {
      ControlPassive(x.srv.value, cfg);
      hide S.ControlStep;
    } else if x.srv.Some? {
      DeliverStaysOwed(x, cfg);
    } else {
      assert x.chan != [];
    }
  }

  lemma DeliverStaysOwed(x: Site, cfg: Config)
    requires PassiveSite(x, cfg) && cfg.buckets > 0 && cfg.ctrlLimit > 0 && Owed(x) && !IsPrimary(x)
    requires x.srv.Some? && x.srv.value.ctrl == []
    ensures x.chan != [] && Owed(SiteStep(x, Deliver, cfg))
  {
    var s := x.srv.value;
    assert !QueuedPromotion([]);
    assert HasPromotion(x.chan);
    var cmd := x.chan[0];
    if cmd.ChangeState? {
      ReceivePassive(s, MsgRepMgr(Arrived(cmd.msg)), cfg);
    } else if cmd.SendChkpt? {
      ReceivePassive(s, MsgSendChkpt, cfg);
    }
    hide S.Receive;
  }

  /** Being owed is exactly being able to become primary without any further report. */
  lemma {:induction false} OwedBecomesPrimary(x: Site, cfg: Config) returns (es: seq<SiteEvent>)
    requires PassiveSite(x, cfg) && cfg.buckets > 0 && cfg.ctrlLimit > 0 && Owed(x)
    ensures Own(es) && IsPrimary(SiteRun(x, es, cfg))
    decreases |x.chan|, if x.srv.Some? then |x.srv.value.ctrl| else 0
  {
    hide PassiveSite, Owed, SiteStep;
    if IsPrimary(x) {
      es := [];
    } else {
      NextStaysOwed(x, cfg);
      var rest := OwedBecomesPrimary(SiteStep(x, NextFor(x), cfg), cfg);
      es := [NextFor(x)] + rest;
      assert es[1..] == rest;
    }
  }

  lemma {:induction false} NotOwedStaysSo(x: Site, es: seq<SiteEvent>, cfg: Config)
    requires PassiveSite(x, cfg) && cfg.buckets > 0 && Own(es) && !Owed(x)
    ensures !IsPrimary(SiteRun(x, es, cfg))
    decreases |es|
  {
    if es != [] {
      OwnStep(x, es[0], cfg);
      hide PassiveSite, Owed, SiteStep;
      NotOwedStaysSo(SiteStep(x, es[0], cfg), es[1..], cfg);
    }
  }

  // ---------- in the cluster ----------

  ghost predicate NoReports(es: seq<Event>) {
    forall k :: 0 <= k < |es| ==> es[k].At?
  }

  ghost predicate TwoPrimaries(c: Cluster) {
    exists i, j :: 0 <= i < j < |c.sites| && IsPrimary(c.sites[i]) && IsPrimary(c.sites[j])
  }

  function Lift(i: nat, es: seq<SiteEvent>): (r: seq<Event>)
    ensures |r| == |es| && forall k :: 0 <= k < |es| ==> r[k] == At(i, es[k])
  {
    seq(|es|, k requires 0 <= k < |es| => At(i, es[k]))
  }

  /** Steps of one replica, taken in the cluster, change that replica alone. */
  lemma {:induction false} LiftRun(c: Cluster, i: nat, es: seq<SiteEvent>)
    requires Shape(c) && i < |c.sites| && Own(es)
    ensures ProperRun(c, Lift(i, es))
    ensures Run(c, Lift(i, es)) == c.(sites := c.sites[i := SiteRun(c.sites[i], es, c.cfg)])
    decreases |es|
  {
    if es != [] {
      var d := c.(sites := c.sites[i := SiteStep(c.sites[i], es[0], c.cfg)]);
      assert Lift(i, es)[0] == At(i, es[0]) && Lift(i, es)[1..] == Lift(i, es[1..]);
      hide SiteStep;
      LiftRun(d, i, es[1..]);
    }
  }

  lemma {:induction false} RunTwice(c: Cluster, a: seq<Event>, b: seq<Event>)
    requires ProperRun(c, a) && ProperRun(Run(c, a), b)
    ensures ProperRun(c, a + b) && Run(c, a + b) == Run(Run(c, a), b)
    decreases |a|
  {
    hide Step, Proper;
    if a == [] {
      assert a + b == b;
    } else {
      var d, rest := Step(c, a[0]), a[1..];
      RunTwice(d, rest, b);
      assert (a + b)[0] == a[0] && (a + b)[1..] == rest + b;
      assert ProperRun(c, a + b) && Run(c, a + b) == Run(d, rest + b);
    }
  }

  /** Two different replicas that are owed a promotion both become primary. */
  lemma TwoOwedBothBecomePrimary(c: Cluster, i: nat, j: nat) returns (es: seq<Event>)
    requires PassiveCluster(c) && i < |c.sites| && j < |c.sites| && i != j
    requires Owed(c.sites[i]) && Owed(c.sites[j])
    ensures NoReports(es) && ProperRun(c, es) && TwoPrimaries(Run(c, es))
  {
    var a := OwedBecomesPrimary(c.sites[i], c.cfg);
    var b := OwedBecomesPrimary(c.sites[j], c.cfg);
    LiftRun(c, i, a);
    var d := Run(c, Lift(i, a));
    hide PassiveCluster, Owed, SiteRun, PassiveSite;
    assert d.sites[j] == c.sites[j];
    LiftRun(d, j, b);
    RunTwice(c, Lift(i, a), Lift(j, b));
    es := Lift(i, a) + Lift(j, b);
    var end := Run(c, es);
    assert IsPrimary(end.sites[i]) && IsPrimary(end.sites[j]);
  }

  /** The election the successor is sent when rep reports the primary down. */
  function SuccessorElection(m: Mgr, rep: Report): Send
    requires Wf(m) && rep.id < |m.node|
  {
    var q := (rep.id + 1) % |m.node|;
    Election(m.(hb := m.hb[rep.id := true], primary := q, needs := m.needs[rep.id := true]), q)
  }

  /** The replica that takes over can act on its election: it runs, or a start-up for it is under
      way, and the election is not lost. */
  ghost predicate SuccessorReady(c: Cluster, rep: Report, lost: set<Send>)
    requires Shape(c) && rep.id < |c.sites|
  {
    var q := (rep.id + 1) % |c.sites|;
    (c.sites[q].srv.Some? || Startup in c.sites[q].chan) && SuccessorElection(c.mgr, rep) !in lost
  }

  lemma SuccessorIsOwed(c: Cluster, rep: Report, lost: set<Send>)
    requires PassiveCluster(c) && !c.mgr.locked && |c.sites| > 1 && rep.id < |c.sites|
    requires rep.state == Faulted && rep.id == c.mgr.primary && !Owed(c.sites[(rep.id + 1) % |c.sites|])
    ensures Owed(Step(c, Handle(rep, lost)).sites[(rep.id + 1) % |c.sites|]) <==> SuccessorReady(c, rep, lost)
  {
    var q := (rep.id + 1) % |c.sites|;
    var o := HandleState(c.mgr, rep, lost);
    var e := SuccessorElection(c.mgr, rep);
    var start := Emit(Send(rep.id, Startup), lost);
    assert o.sent == start + Emit(e, lost);
    assert e.dest == q && IsPromotion(e.cmd);
    NotOwnSuccessor(rep.id, |c.sites|);
    OwedByAppend(c.sites[q], e.cmd);
    hide Owed, PassiveSite, Inv, HandleState, SuccessorElection, Post;
    PostElsewhere(c.sites, start, rep.id, q);
    if e in lost {
      assert start + [] == start;
    } else {
      PostLast(c.sites, start, e);
    }
  }

  /** An election makes a replica that was not entitled so exactly if it runs or is being started. */
  lemma OwedByAppend(x: Site, cmd: Cmd)
    requires IsPromotion(cmd) && !Owed(x)
    ensures Owed(x.(chan := x.chan + [cmd])) <==> x.srv.Some? || Startup in x.chan
  {
    AppendOwed(x, cmd);
    if x.srv.None? && Startup !in x.chan {
      StartsIn(x.chan + [cmd]);
    }
  }

  lemma {:induction false} PostLast(sites: seq<Site>, sent: seq<Send>, e: Send)
    ensures Post(sites, sent + [e]) == PostOne(Post(sites, sent), e)
    decreases |sent|
  {
    if sent == [] {
      assert sent + [e] == [e] && [e][1..] == [];
      assert Post(PostOne(sites, e), []) == PostOne(sites, e);
    } else {
      assert (sent + [e])[0] == sent[0] && (sent + [e])[1..] == sent[1..] + [e];
      hide PostOne;
      PostLast(PostOne(sites, sent[0]), sent[1..], e);
    }
  }

  lemma {:induction false} PostElsewhere(sites: seq<Site>, sent: seq<Send>, dest: int, i: nat)
    requires i < |sites| && i != dest && forall k :: 0 <= k < |sent| ==> sent[k].dest == dest
    ensures Post(sites, sent)[i] == sites[i]
    decreases |sent|
  {
    if sent != [] {
      PostElsewhere(PostOne(sites, sent[0]), sent[1..], dest, i);
    }
  }

  /** An unguarded report, with the commands under way after it. */
  lemma UnguardedFails(c: Cluster, rep: Report, lost: set<Send>) returns (es: seq<Event>)
    requires PassiveCluster(c) && Safe(c) && !c.mgr.locked && |c.sites| > 1 && rep.id < |c.sites|
    requires rep.state == Faulted && rep.id == c.mgr.primary && SuccessorReady(c, rep, lost)
    requires Owed(c.sites[rep.id])
    ensures var d := Step(c, Handle(rep, lost));
      NoReports(es) && ProperRun(d, es) && TwoPrimaries(Run(d, es))
  {
    var d := Step(c, Handle(rep, lost));
    ReportStep(c, Handle(rep, lost));
    NotOwnSuccessor(rep.id, |c.sites|);
    SuccessorIsOwed(c, rep, lost);
    OwedUnchanged(c, rep, lost, rep.id);
    hide Step, PassiveCluster, Owed, SuccessorReady, TwoPrimaries;
    SameReplicas(c, rep, lost);
    es := TwoOwedBothBecomePrimary(d, rep.id, (rep.id + 1) % |c.sites|);
  }

  lemma SameReplicas(c: Cluster, rep: Report, lost: set<Send>)
    requires Shape(c) && rep.id < |c.sites|
    ensures |Step(c, Handle(rep, lost)).sites| == |c.sites|
  {
  }

  /** At most replica p is or can become primary. */
  ghost predicate OnlyOwed(c: Cluster, p: nat) {
    forall i :: 0 <= i < |c.sites| && i != p ==> !Owed(c.sites[i])
  }

  lemma {:induction false} OnlyOneBecomesPrimary(c: Cluster, p: nat, es: seq<Event>)
    requires PassiveCluster(c) && OnlyOwed(c, p) && ProperRun(c, es) && NoReports(es)
    ensures !TwoPrimaries(Run(c, es))
    decreases |es|
  {
    if es == [] {
      assert forall i :: 0 <= i < |c.sites| && IsPrimary(c.sites[i]) ==> Owed(c.sites[i]);
    } else {
      OnlyOwedStep(c, p, es[0]);
      hide Step, PassiveCluster, OnlyOwed, Proper;
      OnlyOneBecomesPrimary(Step(c, es[0]), p, es[1..]);
    }
  }

  lemma OnlyOwedStep(c: Cluster, p: nat, e: Event)
    requires Proper(c, e) && e.At? && PassiveCluster(c) && OnlyOwed(c, p)
    ensures PassiveCluster(Step(c, e)) && OnlyOwed(Step(c, e), p)
  {
    OwnClusterStep(c, e);
    OwnStep(c.sites[e.i], e.e, c.cfg);
    hide Owed, PassiveSite, SiteStep, Inv;
  }

  /** After a report about the primary that is guarded, or whose successor is not ready, at most one
      replica is or can become primary. */
  lemma GuardedLeavesOne(c: Cluster, rep: Report, lost: set<Send>)
    requires PassiveCluster(c) && Safe(c) && !c.mgr.locked && |c.sites| > 1 && rep.id < |c.sites|
    requires rep.state == Faulted && rep.id == c.mgr.primary
    requires !(Owed(c.sites[rep.id]) && SuccessorReady(c, rep, lost))
    ensures exists p :: OnlyOwed(Step(c, Handle(rep, lost)), p)
  {
    var r, q := rep.id, (rep.id + 1) % |c.sites|;
    var d := Step(c, Handle(rep, lost));
    NotOwnSuccessor(r, |c.sites|);
    SuccessorIsOwed(c, rep, lost);
    SameReplicas(c, rep, lost);
    hide Step, PassiveCluster, Owed, SuccessorReady;
    forall i | 0 <= i < |c.sites| && i != q ensures Owed(d.sites[i]) <==> Owed(c.sites[i]) {
      OwedUnchanged(c, rep, lost, i);
    }
    assert OnlyOwed(d, if Owed(c.sites[r]) then r else q);
  }

  /** When the primary is reported down, two live servers can become primary with nothing but the
      commands under way if and only if the old primary's server still runs in that role, or a
      promotion can still reach it, and its successor is ready. */
  lemma GuardIsExact(c: Cluster, rep: Report, lost: set<Send>)
    requires PassiveCluster(c) && Safe(c) && !c.mgr.locked && |c.sites| > 1 && rep.id < |c.sites|
    requires rep.state == Faulted && rep.id == c.mgr.primary
    ensures (exists es :: NoReports(es) && ProperRun(Step(c, Handle(rep, lost)), es)
                          && TwoPrimaries(Run(Step(c, Handle(rep, lost)), es)))
            <==> Owed(c.sites[rep.id]) && SuccessorReady(c, rep, lost)
  {
    var d := Step(c, Handle(rep, lost));
    ReportStep(c, Handle(rep, lost));
    hide Step, Inv, PassiveSite, Safe, Owed, TwoPrimaries, SuccessorReady, NoReports, OnlyOwed;
    if Owed(c.sites[rep.id]) && SuccessorReady(c, rep, lost) {
      var es := UnguardedFails(c, rep, lost);
    } else {
      GuardedLeavesOne(c, rep, lost);
      var p :| OnlyOwed(d, p);
      forall es | NoReports(es) && ProperRun(d, es) ensures !TwoPrimaries(Run(d, es)) {
        OnlyOneBecomesPrimary(d, p, es);
      }
    }
  }

  lemma NotOwnSuccessor(i: nat, n: nat)
    requires i < n && n > 1
    ensures (i + 1) % n != i
  {
  }

  /** The entitlement of all but the successor is as it was. */
  lemma OwedUnchanged(c: Cluster, rep: Report, lost: set<Send>, i: nat)
    requires PassiveCluster(c) && !c.mgr.locked && rep.id < |c.sites| && i < |c.sites|
    requires rep.state == Faulted && rep.id == c.mgr.primary && i != (rep.id + 1) % |c.sites|
    ensures i < |Step(c, Handle(rep, lost)).sites|
    ensures Owed(Step(c, Handle(rep, lost)).sites[i]) <==> Owed(c.sites[i])
  {
    var o := HandleState(c.mgr, rep, lost);
    ReportSends(c.mgr, rep, lost);
    hide HandleState, Inv, Owed, PassiveSite, Post;
    PostKeeps(c.sites, o.sent, o.mgr.primary, c.cfg, i);
  }

  // ---------- true reports ----------

  /** A FAULTED report comes when the server is down, a RUNNING one when it is up. */
  predicate TrueReport(c: Cluster, e: Event)
    requires Proper(c, e)
  {
    e.Handle? ==>
      && (e.rep.state == Faulted ==> c.sites[e.rep.id].srv.None?)
      && (e.rep.state == Running ==> c.sites[e.rep.id].srv.Some?)
  }

  ghost predicate AllTrue(c: Cluster, es: seq<Event>)
    requires ProperRun(c, es)
    decreases |es|
  {
    es != [] ==> TrueReport(c, es[0]) && AllTrue(Step(c, es[0]), es[1..])
  }

  /** No FAULTED report is handled while a start-up command is still under way to its replica. */
  ghost predicate NoStartUnderWay(c: Cluster, es: seq<Event>)
    requires ProperRun(c, es)
    decreases |es|
  {
    es != [] ==>
      && (es[0].Handle? && es[0].rep.state == Faulted ==> Startup !in c.sites[es[0].rep.id].chan)
      && NoStartUnderWay(Step(c, es[0]), es[1..])
  }

  /** True reports are guarded as long as none overtakes a start-up command. */
  lemma {:induction false} TrueReportsAreGuarded(c: Cluster, es: seq<Event>)
    requires ProperRun(c, es) && AllTrue(c, es) && NoStartUnderWay(c, es)
    ensures GuardedRun(c, es)
    decreases |es|
  {
    if es != [] {
      if es[0].Handle? {
        StartsIn(c.sites[es[0].rep.id].chan);
      }
      hide Step;
      TrueReportsAreGuarded(Step(c, es[0]), es[1..]);
    }
  }

  /** Hence with true reports that overtake no start-up command, and with any crashes, restarts
      and losses, at most one live server is PREPRIMARY or PRIMARY in every run from the start,
      and it is the one the manager takes for primary. */
  lemma TrueReportsAreSafe(peers: seq<Peer>, freq: int, cfg: Config, es: seq<Event>)
    requires peers != [] && cfg.buckets > 0 && cfg.ctrlLimit > 0
    requires var c := BootCluster(peers, freq, cfg);
      ProperRun(c, es) && AllTrue(c, es) && NoStartUnderWay(c, es)
    ensures var d := Run(BootCluster(peers, freq, cfg), es);
      forall i :: 0 <= i < |d.sites| && IsPrimary(d.sites[i]) ==> i == d.mgr.primary
  {
    var c := BootCluster(peers, freq, cfg);
    BootIsSafe(peers, freq, cfg);
    hide BootCluster, PassiveCluster, Safe;
    TrueReportsAreGuarded(c, es);
    AtMostOnePrimary(c, es);
  }

  /** One more FAULTED report of the primary: a start-up command for it, a promotion for the next. */
  lemma PrimaryDown(c: Cluster) returns (d: Cluster, promotion: Cmd)
    requires PassiveCluster(c) && !c.mgr.locked && |c.sites| == 3 && 0 <= c.mgr.primary
    ensures var r := c.mgr.primary;
      var e := Handle(Report(r, Faulted), {});
      var q := (r + 1) % 3;
      && Proper(c, e) && d == Step(c, e) && PassiveCluster(d) && !d.mgr.locked && |d.sites| == 3
      && d.mgr.primary == q && q != r && IsPromotion(promotion)
      && d.sites == c.sites[r := c.sites[r].(chan := c.sites[r].chan + [Startup])]
                           [q := c.sites[q].(chan := c.sites[q].chan + [promotion])]
  {
    var r := c.mgr.primary;
    var q := (r + 1) % 3;
    var e := Handle(Report(r, Faulted), {});
    d := Step(c, e);
    var next := c.mgr.(hb := c.mgr.hb[r := true], primary := q, needs := c.mgr.needs[r := true]);
    var start, election := Send(r, Startup), Election(next, q);
    promotion := election.cmd;
    assert HandleState(c.mgr, e.rep, {}).sent == [start] + [election];
    ReportStep(c, e);
    LockFree(c.mgr, e.rep);
    hide PassiveCluster, Election;
    PostTwo(c.sites, start, election);
  }

  lemma LockFree(m: Mgr, rep: Report)
    requires Wf(m) && rep.id < |m.node| && !m.locked
    ensures !HandleState(m, rep, {}).mgr.locked
  {
  }

  lemma PostTwo(sites: seq<Site>, a: Send, b: Send)
    ensures Post(sites, [a] + [b]) == PostOne(PostOne(sites, a), b)
  {
    assert [a][1..] == [];
    assert Post(PostOne(sites, a), []) == PostOne(sites, a);
    hide PostOne;
    PostLast(sites, [a], b);
  }

  function FaultOf(i: nat): Event { Handle(Report(i, Faulted), {}) }

  ghost predicate AllDown(c: Cluster) {
    forall i :: 0 <= i < |c.sites| ==> c.sites[i].srv.None?
  }

  /** Three down replicas of which p is taken for primary. */
  ghost predicate Fallen(c: Cluster, p: nat) {
    PassiveCluster(c) && !c.mgr.locked && |c.sites| == 3 && c.mgr.primary == p < 3 && AllDown(c)
  }

  predicate Starting(c: Cluster, i: nat) {
    i < |c.sites| && Startup in c.sites[i].chan
  }

  predicate OwedAt(c: Cluster, i: nat) {
    i < |c.sites| && Owed(c.sites[i])
  }

  lemma StillDown(c: Cluster, d: Cluster)
    requires AllDown(c) && |d.sites| == |c.sites|
    requires forall i :: 0 <= i < |c.sites| ==> d.sites[i].srv == c.sites[i].srv
    ensures AllDown(d)
  {
  }

  /** Such a report moves the role on; a next replica that is being started becomes entitled. */
  lemma RoleMovesOn(c: Cluster, p: nat) returns (d: Cluster)
    requires Fallen(c, p)
    ensures Proper(c, FaultOf(p)) && d == Step(c, FaultOf(p)) && Fallen(d, (p + 1) % 3)
    ensures Starting(d, p) && (Starting(c, (p + 1) % 3) ==> OwedAt(d, (p + 1) % 3))
    ensures forall i :: (OwedAt(c, i) ==> OwedAt(d, i)) && (Starting(c, i) ==> Starting(d, i))
  {
    var promotion;
    d, promotion := PrimaryDown(c);
    hide PassiveCluster, Owed, Step, Proper, AllDown, Starting, OwedAt;
    ChannelsMoveOn(c, d, p, (p + 1) % 3, promotion);
    StillDown(c, d);
  }

  lemma ChannelsMoveOn(c: Cluster, d: Cluster, p: nat, q: nat, promotion: Cmd)
    requires p < |c.sites| && q < |c.sites| && p != q && IsPromotion(promotion)
    requires d.sites == c.sites[p := c.sites[p].(chan := c.sites[p].chan + [Startup])]
                               [q := c.sites[q].(chan := c.sites[q].chan + [promotion])]
    ensures Starting(d, p) && (Starting(c, q) ==> OwedAt(d, q))
    ensures forall i :: (OwedAt(c, i) ==> OwedAt(d, i)) && (Starting(c, i) ==> Starting(d, i))
  {
    hide Owed;
    AppendOwed(c.sites[p], Startup);
    AppendOwed(c.sites[q], promotion);
    hide IsPromotion;
  }

  lemma OnceRound(peers: seq<Peer>, freq: int, cfg: Config) returns (reports: seq<Event>, d: Cluster)
    requires |peers| == 3 && cfg.buckets > 0 && cfg.ctrlLimit > 0
    ensures var c := BootCluster(peers, freq, cfg);
      ProperRun(c, reports) && AllTrue(c, reports) && Run(c, reports) == d
    ensures Fallen(d, 1) && OwedAt(d, 0) && OwedAt(d, 1)
  {
    hide BootCluster, Fallen, OwedAt, Starting, Step, Proper, ProperRun, AllTrue, Run;
    reports := [FaultOf(0), FaultOf(0), FaultOf(1), FaultOf(2), FaultOf(0)];
    var c1 := FirstFault(peers, freq, cfg);
    var c2 := RoleMovesOn(c1, 0);
    var c3 := RoleMovesOn(c2, 1);
    var c4 := RoleMovesOn(c3, 2);
    var c5 := RoleMovesOn(c4, 0);
    AreDown(c1, c2, c3, c4);
    FiveSteps(BootCluster(peers, freq, cfg), c1, c2, c3, c4, c5, reports);
    d := c5;
  }

  lemma AreDown(c1: Cluster, c2: Cluster, c3: Cluster, c4: Cluster)
    requires Fallen(c1, 0) && Fallen(c2, 1) && Fallen(c3, 2) && Fallen(c4, 0)
    ensures AllDown(c1) && AllDown(c2) && AllDown(c3) && AllDown(c4)
  {
    hide PassiveCluster, AllDown;
  }

  /** True reports alone are not enough. Five of them, all handled while no server is up at all and
      before any command has been delivered, send the primary role once round three replicas and on;
      the commands then under way make two servers primary. */
  lemma TrueReportsAloneFail(peers: seq<Peer>, freq: int, cfg: Config)
    returns (reports: seq<Event>, es: seq<Event>)
    requires |peers| == 3 && cfg.buckets > 0 && cfg.ctrlLimit > 0
    ensures var c := BootCluster(peers, freq, cfg);
      && ProperRun(c, reports) && AllTrue(c, reports)
      && NoReports(es) && ProperRun(Run(c, reports), es) && TwoPrimaries(Run(Run(c, reports), es))
  {
    hide BootCluster, PassiveCluster, Step, Proper, Owed, ProperRun, AllTrue, Run, TwoPrimaries, NoReports;
    var d;
    reports, d := OnceRound(peers, freq, cfg);
    es := TwoOwedBothBecomePrimary(d, 0, 1);
  }

  /** The first report of all, before there is a primary. */
  lemma FirstFault(peers: seq<Peer>, freq: int, cfg: Config) returns (d: Cluster)
    requires |peers| == 3 && cfg.buckets > 0 && cfg.ctrlLimit > 0
    ensures var c := BootCluster(peers, freq, cfg);
      Proper(c, FaultOf(0)) && d == Step(c, FaultOf(0)) && AllDown(c) && Fallen(d, 0) && Starting(d, 0)
  {
    var c := BootCluster(peers, freq, cfg);
    BootIsSafe(peers, freq, cfg);
    d := Step(c, FaultOf(0));
    ReportStep(c, FaultOf(0));
    LockFree(c.mgr, Report(0, Faulted));
    var start := Send(0, Startup);
    assert HandleState(c.mgr, Report(0, Faulted), {}).sent == [start];
    assert [start][1..] == [] && Post(PostOne(c.sites, start), []) == PostOne(c.sites, start);
  }

  lemma FiveSteps(c0: Cluster, c1: Cluster, c2: Cluster, c3: Cluster, c4: Cluster, c5: Cluster, es: seq<Event>)
    requires |es| == 5 && forall k :: 0 <= k < 5 ==> es[k].Handle? && es[k].rep.state == Faulted
    requires Proper(c0, es[0]) && c1 == Step(c0, es[0]) && Proper(c1, es[1]) && c2 == Step(c1, es[1])
    requires Proper(c2, es[2]) && c3 == Step(c2, es[2]) && Proper(c3, es[3]) && c4 == Step(c3, es[3])
    requires Proper(c4, es[4]) && c5 == Step(c4, es[4])
    requires AllDown(c0) && AllDown(c1) && AllDown(c2) && AllDown(c3) && AllDown(c4)
    ensures ProperRun(c0, es) && AllTrue(c0, es) && Run(c0, es) == c5
  {
    hide Step;
    var e1, e2, e3, e4, e5 := es[1..], es[2..], es[3..], es[4..], es[5..];
    assert e1[1..] == e2 && e2[1..] == e3 && e3[1..] == e4 && e4[1..] == e5 && e5 == [];
    assert TrueReport(c4, e4[0]) && TrueReport(c3, e3[0]) && TrueReport(c2, e2[0]);
    assert ProperRun(c5, e5) && AllTrue(c5, e5) && Run(c5, e5) == c5;
    assert ProperRun(c4, e4) && AllTrue(c4, e4) && Run(c4, e4) == c5;
    assert ProperRun(c3, e3) && AllTrue(c3, e3) && Run(c3, e3) == c5;
    assert ProperRun(c2, e2) && AllTrue(c2, e2) && Run(c2, e2) == c5;
    assert ProperRun(c1, e1) && AllTrue(c1, e1) && Run(c1, e1) == c5;
  }
}
