/** What a recovered replica's table contains, compared with a surviving replica's, when each command
    of the bracket is worked off before the next one is sent. */
module RecoveredTable {
  import opened Types
  import opened ManagerSpec
  import Table
  import Checkpoint
  import Storage
  import S = ServerSpec
  import R = ServerRuns
  import A = ActiveRecovery

  /** The images of the tables a server has shipped in going from s to t. */
  function Images(s: S.Srv, t: S.Srv, num: Status -> int): seq<Request>
    requires |s.shipped| <= |t.shipped|
  {
    var more := t.shipped[|s.shipped|..];
    seq(|more|, k requires 0 <= k < |more| => MsgChkPt(Checkpoint.Export(more[k], num)))
  }

  /** The table of a server once it has executed what waits in its queue, and then more. */
  function Drained(s: S.Srv, more: seq<Request>): S.Db {
    Storage.HandleAll(s.db, R.Reqs(s.nrl) + more)
  }

  /** Two servers agree up to status once both have executed what waits and then `after`, the first
      having got the images in between. */
  ghost predicate Agree(t: S.Srv, images: seq<Request>, u: S.Srv, after: seq<Request>) {
    Storage.SameUpToStatus(Drained(t, images + after), Drained(u, after))
  }

  ghost predicate AgreeAfter(t: S.Db, u: S.Db, after: seq<Request>) {
    Storage.SameUpToStatus(Storage.HandleAll(t, after), Storage.HandleAll(u, after))
  }

  /** Tables agree after every list of requests exactly if they agree at once. */
  lemma AgreeForeverIff(t: S.Db, u: S.Db)
    ensures (forall after :: AgreeAfter(t, u, after)) <==> Storage.SameUpToStatus(t, u)
  {
    if Storage.SameUpToStatus(t, u) {
      forall after ensures AgreeAfter(t, u, after) {
        Storage.StatusNeverMatters(t, u, after);
      }
    } else {
      assert Storage.HandleAll(t, []) == t && Storage.HandleAll(u, []) == u;
      assert !AgreeAfter(t, u, []);
    }
  }

  /** The survivor to compare with: the primary, unless that is the one being recovered. */
  ghost predicate Compared(w: A.World, rep: Report, acts: seq<A.Act>, i: nat) {
    && A.Recovered(w) && A.Proper(w, A.Handle(rep, acts)) && A.Recovers(w.mgr, rep)
    && i < |w.srvs| && i != rep.id && w.mgr.node[i] == Running
    && (w.mgr.primary != rep.id ==> i == w.mgr.primary)
    && w.srvs[i].Some? && w.srvs[rep.id].Some? && !A.Killed(acts, i) && !A.Killed(acts, rep.id)
  }

  /** What a recovery makes of the two servers: queues and tables as they were, and the survivor has
      shipped its table unless the primary is the one being recovered. */
  lemma AfterBracket(w: A.World, rep: Report, acts: seq<A.Act>, i: nat, num: Status -> int)
    requires Compared(w, rep, acts, i)
    ensures var end := A.ActAll(w.srvs, acts, w.cfg);
      && end[i].Some? && end[rep.id].Some?
      && end[i].value.db == w.srvs[i].value.db && end[i].value.nrl == w.srvs[i].value.nrl
      && end[rep.id].value.db == w.srvs[rep.id].value.db && end[rep.id].value.nrl == w.srvs[rep.id].value.nrl
      && |w.srvs[i].value.shipped| <= |end[i].value.shipped|
      && Images(w.srvs[i].value, end[i].value, num)
         == if rep.id != w.mgr.primary then [MsgChkPt(Checkpoint.Export(w.srvs[i].value.db, num))] else []
  {
    A.RecoveryReport(w, rep, acts, i);
    A.RecoveryReport(w, rep, acts, rep.id);
    hide A.ActAll, A.Recovered, A.Proper, A.RunningServer;
    var s, t := w.srvs[i].value, A.ActAll(w.srvs, acts, w.cfg)[i].value;
    if rep.id != w.mgr.primary {
      assert t.shipped == s.shipped + [s.db];
      assert t.shipped[|s.shipped|..] == [s.db];
    } else {
      assert t.shipped[|s.shipped|..] == [];
    }
  }

  /** The images a survivor ships reach the recovered replica behind what waits in its queue. From
      then on the two, given the same requests and drained, agree up to status for good if and only
      if: what waited at the survivor when it shipped changes nothing; or, when the recovered replica
      is itself the primary, so that nobody ships, its own table and queue already amount to the
      survivor's. */
  lemma RecoveredAgreesIff(w: A.World, rep: Report, acts: seq<A.Act>, i: nat, num: Status -> int)
    requires Compared(w, rep, acts, i)
    requires var s, u := w.srvs[i].value, w.srvs[rep.id].value;
      Table.Wf(s.db) && Checkpoint.AllFit(s.db.chains) && |u.db.chains| == |s.db.chains|
    ensures var s, u := w.srvs[i].value, w.srvs[rep.id].value;
      var end := A.ActAll(w.srvs, acts, w.cfg);
      && end[i].Some? && end[rep.id].Some? && |s.shipped| <= |end[i].value.shipped|
      && ((forall after :: Agree(end[rep.id].value, Images(s, end[i].value, num), end[i].value, after))
          <==> Storage.SameUpToStatus(if rep.id != w.mgr.primary then s.db else Drained(u, []), Drained(s, [])))
  {
    var s, u := w.srvs[i].value, w.srvs[rep.id].value;
    AfterBracket(w, rep, acts, i, num);
    hide A.ActAll, A.Recovered, A.Proper, A.RunningServer, Compared, Images, Storage.Handle, Agree, AgreeAfter;
    var end := A.ActAll(w.srvs, acts, w.cfg);
    var base := if rep.id != w.mgr.primary then s.db else Drained(u, []);
    forall after
      ensures Agree(end[rep.id].value, Images(s, end[i].value, num), end[i].value, after)
        <==> AgreeAfter(base, Drained(s, []), after)
    {
      if rep.id != w.mgr.primary {
        WithImage(s, end[i].value, u, end[rep.id].value, num, after);
      } else {
        WithoutImage(s, end[i].value, u, end[rep.id].value, after);
      }
    }
    AgreeForeverIff(base, Drained(s, []));
  }

  /** The recovered replica t was u and gets an image of the survivor, which was s. */
  lemma WithImage(s: S.Srv, s': S.Srv, u: S.Srv, t: S.Srv, num: Status -> int, after: seq<Request>)
    requires s'.db == s.db && s'.nrl == s.nrl && t.db == u.db && t.nrl == u.nrl
    requires Table.Wf(s.db) && Checkpoint.AllFit(s.db.chains) && |u.db.chains| == |s.db.chains|
    ensures Agree(t, [MsgChkPt(Checkpoint.Export(s.db, num))], s', after) <==> AgreeAfter(s.db, Drained(s, []), after)
  {
    hide Drained, Table.Wf, Checkpoint.Export;
    DrainedOn(s, s', after);
    ImageFirst(u, t, s.db, num, after);
  }

  lemma WithoutImage(s: S.Srv, s': S.Srv, u: S.Srv, t: S.Srv, after: seq<Request>)
    requires s'.db == s.db && s'.nrl == s.nrl && t.db == u.db && t.nrl == u.nrl
    ensures Agree(t, [], s', after) <==> AgreeAfter(Drained(u, []), Drained(s, []), after)
  {
    hide Drained;
    assert [] + after == after;
    DrainedOn(s, s', after);
    DrainedOn(u, t, after);
  }

  lemma DrainedOn(s: S.Srv, t: S.Srv, after: seq<Request>)
    requires t.db == s.db && t.nrl == s.nrl
    ensures Drained(t, after) == Storage.HandleAll(Drained(s, []), after)
  {
    assert R.Reqs(s.nrl) + [] == R.Reqs(s.nrl);
    Storage.HandleAllConcat(s.db, R.Reqs(s.nrl), after);
  }

  lemma ImageFirst(u: S.Srv, t: S.Srv, db: Table.Table, num: Status -> int, after: seq<Request>)
    requires t.db == u.db && t.nrl == u.nrl && |u.db.chains| == |db.chains|
    requires Table.Wf(db) && Checkpoint.AllFit(db.chains)
    ensures Storage.SameUpToStatus(
      Drained(t, [MsgChkPt(Checkpoint.Export(db, num))] + after), Storage.HandleAll(db, after))
  {
    var image, q := Checkpoint.Export(db, num), R.Reqs(t.nrl);
    hide R.Reqs, Storage.Handle, Checkpoint.Import, Checkpoint.Export, Table.Wf;
    assert q + ([MsgChkPt(image)] + after) == q + [MsgChkPt(image)] + after;
    Storage.CheckpointAbsorbs(u.db, db, q, [], image, after);
    Storage.ReplicaCatchesUp(db, num, after);
  }

  /** An empty table agrees with exactly the tables that hold no entry. */
  lemma EmptyAgreesIff(n: nat, t: Table.Table)
    requires n == |t.chains| > 0 && Table.Wf(t)
    ensures Storage.SameUpToStatus(Table.Empty(n), t) <==> forall b :: 0 <= b < n ==> t.chains[b] == []
  {
    var e := Table.Empty(n);
    if forall b :: 0 <= b < n ==> t.chains[b] == [] {
      Table.TotalBytesEmpty(t.chains);
      assert e.chains == t.chains;
    } else {
      var b :| 0 <= b < n && t.chains[b] != [];
      assert |Table.Erase(t).chains[b]| != 0 == |Table.Erase(e).chains[b]|;
    }
  }

  /** Hence a primary that is restarted and recovered, as happens when the role has moved on to a
      replica that is down, forgets everything: with nothing waiting anywhere it agrees with a
      survivor if and only if that one's table is empty. */
  lemma RestartedPrimaryForgets(w: A.World, rep: Report, acts: seq<A.Act>, i: nat, num: Status -> int)
    requires Compared(w, rep, acts, i) && rep.id == w.mgr.primary
    requires var s, u := w.srvs[i].value, w.srvs[rep.id].value;
      && Table.Wf(s.db) && Checkpoint.AllFit(s.db.chains) && u.db == Table.Empty(|s.db.chains|)
      && s.nrl == [] && u.nrl == []
    ensures var s := w.srvs[i].value;
      var end := A.ActAll(w.srvs, acts, w.cfg);
      && end[i].Some? && end[rep.id].Some? && |s.shipped| <= |end[i].value.shipped|
      && ((forall after :: Agree(end[rep.id].value, Images(s, end[i].value, num), end[i].value, after))
          <==> forall b :: 0 <= b < |s.db.chains| ==> s.db.chains[b] == [])
  {
    RecoveredAgreesIff(w, rep, acts, i, num);
    var s, u := w.srvs[i].value, w.srvs[rep.id].value;
    hide Compared, A.ActAll, Images, Agree, Storage.SameUpToStatus;
    NothingWaits(s);
    NothingWaits(u);
    EmptyAgreesIff(|s.db.chains|, s.db);
  }

  lemma NothingWaits(s: S.Srv)
    requires s.nrl == []
    ensures Drained(s, []) == s.db
  {
    assert R.Reqs(s.nrl) + [] == [];
  }
}
