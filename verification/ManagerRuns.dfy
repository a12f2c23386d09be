/** The manager over whole runs of reports and heartbeat rounds: its invariant, and how far the
    primary role can travel. */
module ManagerRuns {
  import opened Types
  import opened ManagerSpec

  datatype Event = Rep(rep: Report, lost: set<Send>) | Heartbeat

  function Step(m: Mgr, e: Event): Mgr
    requires Wf(m) && (e.Rep? ==> e.rep.id < |m.node|)
  {
    if m.locked then m
    else match e
      case Rep(rep, lost) => HandleState(m, rep, lost).mgr
      case Heartbeat => HeartbeatRound(m)
  }

  lemma StepWf(m: Mgr, e: Event)
    requires Wf(m) && (e.Rep? ==> e.rep.id < |m.node|)
    ensures Wf(Step(m, e)) && |Step(m, e).node| == |m.node|
  {
    if e.Rep? {
      var seen := m.(hb := m.hb[e.rep.id := true]);
      ReactReacts(seen, e.rep, e.lost);
      hide React;
    }
  }

  ghost predicate Proper(m: Mgr, es: seq<Event>) {
    Wf(m) && forall i :: 0 <= i < |es| ==> es[i].Rep? ==> es[i].rep.id < |m.node|
  }

  function Run(m: Mgr, es: seq<Event>): Mgr
    requires Proper(m, es)
    decreases |es|
  {
    if es == [] then m
    else
      StepWf(m, es[0]);
      Run(Step(m, es[0]), es[1..])
  }

  /** At every release of the lock in every run. */
  lemma {:induction false} AlwaysInv(m: Mgr, es: seq<Event>)
    requires Proper(m, es) && Inv(m)
    ensures Wf(Run(m, es)) && (!Run(m, es).locked ==> Inv(Run(m, es)))
    decreases |es|
  {
    if es != [] {
      var e, t := es[0], Step(m, es[0]);
      StepWf(m, e);
      if e.Rep? {
        ReportKeepsInv(m, e.rep, e.lost);
      } else {
        HeartbeatKeepsInv(m);
      }
      hide Step, Inv;
      if t.locked {
        LockedStays(t, es[1..]);
      } else {
        AlwaysInv(t, es[1..]);
      }
    }
  }

  lemma {:induction false} LockedStays(m: Mgr, es: seq<Event>)
    requires Proper(m, es) && m.locked
    ensures Run(m, es) == m
    decreases |es|
  {
    if es != [] {
      LockedStays(m, es[1..]);
    }
  }

  /** A heartbeat round that finds no flagged replica silent. */
  ghost predicate NoTimeout(m: Mgr, es: seq<Event>)
    requires Proper(m, es)
    decreases |es|
  {
    es != [] ==>
      && (es[0].Heartbeat? ==> forall i :: 0 <= i < |m.status| && m.status[i] ==> m.hb[i])
      && (StepWf(m, es[0]); NoTimeout(Step(m, es[0]), es[1..]))
  }

  /** Without heartbeat timeouts the count of servers is exactly the number of flags. */
  lemma {:induction false} CountIsExact(m: Mgr, es: seq<Event>)
    requires Proper(m, es) && Inv(m) && m.numServers == Count(m.status) && NoTimeout(m, es)
    ensures !Run(m, es).locked ==> Run(m, es).numServers == Count(Run(m, es).status)
    decreases |es|
  {
    if es != [] {
      var e, t := es[0], Step(m, es[0]);
      StepWf(m, e);
      if e.Rep? {
        ReportKeepsInv(m, e.rep, e.lost);
      } else {
        HeartbeatKeepsInv(m);
      }
      hide Step, Inv, Count;
      if t.locked {
        LockedStays(t, es[1..]);
      } else {
        CountIsExact(t, es[1..]);
      }
    }
  }

  // ---------- rotation of the primary ----------

  /** Steps round the ring from p to the nearest live replica; w is any live one. */
  function Dist(n: nat, live: set<nat>, p: nat, w: nat): (d: nat)
    requires p < n && w < n && w in live
    ensures d <= (w + n - p) % n < n
    ensures d == 0 <==> p in live
    decreases (w + n - p) % n
  {
    if p in live then 0
    else
      RingStep(n, p, w);
      1 + Dist(n, live, (p + 1) % n, w)
  }

  lemma RingStep(n: nat, p: nat, w: nat)
    requires p < n && w < n && p != w
    ensures (p + 1) % n < n
    ensures (w + n - (p + 1) % n) % n + 1 == (w + n - p) % n
  {
    ModWrap(p + 1, n);
    ModWrap(w + n - p, n);
    ModWrap(w + n - (p + 1) % n, n);
  }

  lemma ModWrap(x: nat, n: nat)
    requires 0 < n && x < 2 * n
    ensures x % n == if x < n then x else x - n
  {
    if x >= n {
      assert x == n * 1 + (x - n);
    }
  }

  /** The reports agree with which replicas are live. */
  ghost predicate TrueReports(es: seq<Event>, live: set<nat>) {
    forall i :: 0 <= i < |es| ==> es[i].Rep? ==>
      (es[i].rep.state == Running ==> es[i].rep.id in live)
      && (es[i].rep.state == Faulted ==> es[i].rep.id !in live)
  }

  predicate Moves(m: Mgr, e: Event) {
    e.Rep? && !m.locked && e.rep.state == Faulted && e.rep.id == m.primary
  }

  function MoveCount(m: Mgr, es: seq<Event>): nat
    requires Proper(m, es)
    decreases |es|
  {
    if es == [] then 0
    else
      StepWf(m, es[0]);
      (if Moves(m, es[0]) then 1 else 0) + MoveCount(Step(m, es[0]), es[1..])
  }

  lemma PrimaryStep(m: Mgr, e: Event)
    requires Inv(m) && 0 <= m.primary && (e.Rep? ==> e.rep.id < |m.node|)
    ensures Step(m, e).primary == if Moves(m, e) then (m.primary + 1) % |m.node| else m.primary
  {
  }

  /** With a fixed set of live replicas and true reports, the ring distance from the primary to
      the nearest live replica drops by one at every move, so there are at most N - 1 moves in
      any run and a primary that is live is never moved again. */
  lemma {:induction false} RotationEnds(m: Mgr, es: seq<Event>, live: set<nat>, w: nat)
    requires Proper(m, es) && Inv(m) && 0 <= m.primary
    requires w < |m.node| && w in live && TrueReports(es, live)
    ensures var t := Run(m, es);
      && 0 <= t.primary < |m.node|
      && MoveCount(m, es) + Dist(|m.node|, live, t.primary, w) == Dist(|m.node|, live, m.primary, w)
      && MoveCount(m, es) < |m.node|
      && (m.primary in live ==> t.primary == m.primary)
    decreases |es|
  {
    if es != [] {
      var e, t := es[0], Step(m, es[0]);
      StepWf(m, e);
      PrimaryStep(m, e);
      if e.Rep? {
        ReportKeepsInv(m, e.rep, e.lost);
      } else {
        HeartbeatKeepsInv(m);
      }
      if Moves(m, e) {
        RingStep(|m.node|, m.primary, w);
      }
      hide Step, Inv, HandleState;
      if t.locked {
        LockedStays(t, es[1..]);
        LockedMoves(t, es[1..]);
      } else {
        RotationEnds(t, es[1..], live, w);
      }
    }
  }

  lemma {:induction false} LockedMoves(m: Mgr, es: seq<Event>)
    requires Proper(m, es) && m.locked
    ensures MoveCount(m, es) == 0
    decreases |es|
  {
    if es != [] {
      LockedMoves(m, es[1..]);
    }
  }
}
