/** The request interpreter over the table (handle_storage of src/storage.c). */
module Storage {
  import opened Types
  import opened Table
  import opened Text
  import Checkpoint
  import HashTable

  /** The table after one request. Requests without a storage meaning leave it alone. */
  function Handle(t: Table, req: Request): (r: Table)
    requires |t.chains| > 0
    ensures |r.chains| == |t.chains|
  {
    match req
    case MsgAdd(key, task) => Insert(t, key, task)
    case MsgModify(key, status) => Modify(t, key, status)
    case MsgRemove(key) => Delete(t, key)
    case MsgChkPt(image) => Checkpoint.Import(|t.chains|, image)
    case _ => t
  }

  /** The status code of the request. A modification reports success even without a match. */
  function Code(t: Table, req: Request): int
    requires |t.chains| > 0
  {
    match req
    case MsgAdd(key, _) => if key == 0 then -1 else 0
    case MsgRemove(key) => if At(t, key) == [] then -1 else 0
    case MsgRepMgr(_) => -1
    case MsgSendChkpt => -1
    case MsgUnknown => -1
    case _ => 0
  }

  method HandleStorage(table: HashTable.HashTable, req: Request) returns (ret: int)
    requires table.Valid()
    modifies table.Repr
    ensures table.Valid() && fresh(table.Repr - old(table.Repr))
    ensures table.value == Handle(old(table.value), req)
    ensures ret == Code(old(table.value), req)
  {
    ret := 0;
    match req
    case MsgAdd(key, task) => ret := table.Insert(key, task);
    case MsgModify(key, status) => var found := table.Modify(key, status);
    case MsgGetAll =>
    case MsgRemove(key) => ret := table.Delete(key);
    case MsgInvalid =>
    case MsgHeartbeat =>
    case MsgChkPt(image) => table.ImportDb(image);
    case MsgRepMgr(_) => ret := -1;
    case MsgSendChkpt => ret := -1;
    case MsgUnknown => ret := -1;
  }

  function HandleAll(t: Table, reqs: seq<Request>): (r: Table)
    requires |t.chains| > 0
    ensures |r.chains| == |t.chains|
    decreases |reqs|
  {
    if reqs == [] then t else HandleAll(Handle(t, reqs[0]), reqs[1..])
  }

  lemma {:induction false} HandleAllConcat(t: Table, a: seq<Request>, b: seq<Request>)
    requires |t.chains| > 0
    ensures HandleAll(t, a + b) == HandleAll(HandleAll(t, a), b)
    decreases |a|
  {
    if a == [] {
      assert a + b == b;
    } else {
      assert (a + b)[1..] == a[1..] + b;
      HandleAllConcat(Handle(t, a[0]), a[1..], b);
    }
  }

  lemma HandleAllSnoc(t: Table, a: seq<Request>, req: Request)
    requires |t.chains| > 0
    ensures HandleAll(t, a + [req]) == Handle(HandleAll(t, a), req)
  {
    HandleAllConcat(t, a, [req]);
    assert [req][1..] == [];
    hide Handle;
    assert HandleAll(HandleAll(t, a), [req]) == HandleAll(Handle(HandleAll(t, a), req), []);
  }

  // ---------- requests on the map ----------

  /** What one request does to the entries under key k, oldest first; checkpoints apart. */
  function OnKey(held: seq<Entry>, req: Request, k: nat): seq<Entry> {
    match req
    case MsgAdd(key, task) => if key == k && k != 0 then held + [Entry(k, task, Unset)] else held
    case MsgModify(key, status) => if key == k && held != [] then [held[0].(status := status)] + held[1..] else held
    case MsgRemove(key) => if key == k && held != [] then held[1..] else held
    case _ => held
  }

  function AllOnKey(held: seq<Entry>, reqs: seq<Request>, k: nat): seq<Entry>
    decreases |reqs|
  {
    if reqs == [] then held else AllOnKey(OnKey(held, reqs[0], k), reqs[1..], k)
  }

  lemma HandleOnKey(t: Table, req: Request, k: nat)
    requires Wf(t) && !req.MsgChkPt?
    ensures At(Handle(t, req), k) == OnKey(At(t, k), req, k)
  {
    hide At, Insert, Delete, Modify;
    match req
    case MsgAdd(key, task) => InsertRefinesMap(t, key, task, k);
    case MsgModify(key, status) => ModifyRefinesMap(t, key, status, k);
    case MsgRemove(key) => DeleteRefinesMap(t, key, k);
    case _ =>
  }

  /** In every run without checkpoints the table holds under each key what the additions,
      modifications and removals of that key make of it, in order: an addition appends, a removal
      drops the oldest entry, a modification writes the oldest entry's status. */
  lemma {:induction false} RunOnKey(t: Table, reqs: seq<Request>, k: nat)
    requires Wf(t) && forall i :: 0 <= i < |reqs| ==> !reqs[i].MsgChkPt?
    ensures At(HandleAll(t, reqs), k) == AllOnKey(At(t, k), reqs, k)
    decreases |reqs|
  {
    if reqs != [] {
      HandleWf(t, reqs[0]);
      HandleOnKey(t, reqs[0], k);
      hide Handle, At, OnKey, Wf;
      RunOnKey(Handle(t, reqs[0]), reqs[1..], k);
    }
  }

  /** The status code tells of an addition or a removal whether it changed the table; modifications,
      listings, heartbeats, checkpoints and empty requests always report success, role changes and
      the like failure. */
  lemma CodeTells(t: Table, req: Request)
    requires Wf(t)
    ensures req.MsgAdd? || req.MsgRemove? ==>
      Code(t, req) == (if Handle(t, req) != t then 0 else -1)
    ensures req.MsgModify? || req.MsgGetAll? || req.MsgInvalid? || req.MsgHeartbeat? || req.MsgChkPt? ==>
      Code(t, req) == 0
    ensures req.MsgRepMgr? || req.MsgSendChkpt? || req.MsgUnknown? ==> Code(t, req) == -1 && Handle(t, req) == t
  {
    if req.MsgAdd? {
      HandleOnKey(t, req, req.key);
    } else if req.MsgRemove? {
      HandleOnKey(t, req, req.key);
      MatchingAtFirst(t.chains[req.key % |t.chains|], req.key);
    }
  }

  // ---------- well-formedness in every run ----------

  lemma {:induction false} ReadLinesWf(r: Checkpoint.Reader, text: string)
    requires Wf(r.table) && |r.table.chains| > 0
    ensures Wf(Checkpoint.ReadLines(r, text).table)
    decreases |text|
  {
    hide Wf, Insert, Checkpoint.Kind;
    if text != "" && !r.done {
      var line := NextLine(text, Checkpoint.LINE_MAX);
      InsertWf(r.table, StrToULong(r.scan.keyText), Checkpoint.Padded(r.scan.data, r.scan.len));
      ReadLinesWf(Checkpoint.ReadLine(r, line), text[|line|..]);
    }
  }

  /** Whatever requests a table has seen, every entry is in its bucket under a non-zero key and
      the size counter is the sum of the stored lengths. */
  lemma {:induction false} AlwaysWf(t: Table, reqs: seq<Request>)
    requires Wf(t)
    ensures Wf(HandleAll(t, reqs))
    decreases |reqs|
  {
    if reqs != [] {
      HandleWf(t, reqs[0]);
      AlwaysWf(Handle(t, reqs[0]), reqs[1..]);
    }
  }

  lemma HandleWf(t: Table, req: Request)
    requires Wf(t)
    ensures Wf(Handle(t, req))
  {
    match req
    case MsgAdd(key, task) => InsertWf(t, key, task);
    case MsgModify(key, status) => ModifyWf(t, key, status);
    case MsgRemove(key) => DeleteWf(t, key);
    case MsgChkPt(image) =>
      EmptyWf(|t.chains|);
      ReadLinesWf(Checkpoint.Reader(Empty(|t.chains|), Checkpoint.START, false), image);
    case _ =>
  }

  // ---------- a checkpoint absorbs history ----------

  /** Two tables that differ in task statuses at most. */
  ghost predicate SameUpToStatus(t: Table, u: Table) {
    Erase(t) == Erase(u)
  }

  lemma ErasePreserves(t: Table, req: Request)
    requires |t.chains| > 0
    ensures Erase(Handle(t, req)) == Erase(Handle(Erase(t), req))
  {
    EraseTwice(t);
    match req
    case MsgAdd(key, task) =>
      EraseInsert(t, key, task);
      EraseInsert(Erase(t), key, task);
    case MsgModify(key, status) =>
      EraseModify(t, key, status);
      EraseModify(Erase(t), key, status);
    case MsgRemove(key) =>
      EraseDelete(t, key);
      EraseDelete(Erase(t), key);
    case _ =>
  }

  lemma EraseTwice(t: Table)
    ensures Erase(Erase(t)) == Erase(t)
  {
    forall b | 0 <= b < |t.chains| ensures Erase(Erase(t)).chains[b] == Erase(t).chains[b] {
      assert EraseChain(EraseChain(t.chains[b])) == EraseChain(t.chains[b]);
    }
    assert Erase(Erase(t)).chains == Erase(t).chains;
  }

  /** Tables equal up to status stay so under any request list: statuses never influence keys,
      bytes, order or size. */
  lemma {:induction false} StatusNeverMatters(t: Table, u: Table, reqs: seq<Request>)
    requires |t.chains| > 0 && SameUpToStatus(t, u)
    ensures |t.chains| == |u.chains|
    ensures SameUpToStatus(HandleAll(t, reqs), HandleAll(u, reqs))
    decreases |reqs|
  {
    assert |Erase(t).chains| == |Erase(u).chains|;
    if reqs != [] {
      ErasePreserves(t, reqs[0]);
      ErasePreserves(u, reqs[0]);
      hide Handle, Erase;
      StatusNeverMatters(Handle(t, reqs[0]), Handle(u, reqs[0]), reqs[1..]);
    }
  }

  /** Two replicas with the same bucket count, arbitrary pasts, the same last checkpoint image
      and the same requests after it hold the same table. */
  lemma CheckpointAbsorbs(t: Table, u: Table, a: seq<Request>, b: seq<Request>, image: string, after: seq<Request>)
    requires |t.chains| == |u.chains| > 0
    ensures HandleAll(t, a + [MsgChkPt(image)] + after) == HandleAll(u, b + [MsgChkPt(image)] + after)
    ensures HandleAll(t, a + [MsgChkPt(image)] + after)
         == HandleAll(Checkpoint.Import(|t.chains|, image), after)
  {
    HandleAllConcat(t, a + [MsgChkPt(image)], after);
    HandleAllConcat(u, b + [MsgChkPt(image)], after);
    HandleAllSnoc(t, a, MsgChkPt(image));
    HandleAllSnoc(u, b, MsgChkPt(image));
  }

  /** What a primary exported at the cut, plus what it executed since, is what a replica
      rebuilds from the image and the same requests, up to status. */
  lemma ReplicaCatchesUp(primary: Table, num: Status -> int, after: seq<Request>)
    requires Wf(primary) && Checkpoint.AllFit(primary.chains)
    ensures SameUpToStatus(
      HandleAll(Checkpoint.Import(|primary.chains|, Checkpoint.Export(primary, num)), after),
      HandleAll(primary, after))
  {
    Checkpoint.RoundTrip(primary, num);
    EraseTwice(primary);
    StatusNeverMatters(Erase(primary), primary, after);
  }

  /** The round trip fails on a reachable table: one task of 1018 characters, put into an empty
      table by an addition, is not restored by importing the export. */
  lemma LongTaskIsNotRestored(n: nat, key: nat, num: Status -> int)
    requires n > 0 && 0 < key <= ULONG_MAX
    ensures var t := Handle(Empty(n), MsgAdd(key, seq(1018, _ => 'a')));
      !SameUpToStatus(Checkpoint.Import(n, Checkpoint.Export(t, num)), t)
  {
    var task := seq(1018, _ => 'a');
    var t := Handle(Empty(n), MsgAdd(key, task));
    hide Checkpoint.Import, Checkpoint.Export, Wf, Erase;
    EmptyWf(n);
    HandleWf(Empty(n), MsgAdd(key, task));
    OneEntry(n, key, task);
    hide Handle;
    assert t.chains[key % n][0].bytes == task;
    Checkpoint.RoundTripIff(t, num);
    StoredUnset(t);
    ImportedUnset(n, Checkpoint.Export(t, num));
  }

  lemma OneEntry(n: nat, key: nat, task: string)
    requires n > 0 && 0 < key <= ULONG_MAX && |task| == 1018 && forall i :: 0 <= i < |task| ==> task[i] == 'a'
    ensures var t := Handle(Empty(n), MsgAdd(key, task));
      && t.chains[key % n] == [Entry(key, task, Unset)] && AllUnset(t)
      && forall b, j :: 0 <= b < |t.chains| && 0 <= j < |t.chains[b]| ==> Checkpoint.Clean(t.chains[b][j])
  {
    var e := Entry(key, task, Unset);
    assert Checkpoint.Clean(e);
    hide Checkpoint.Clean;
    assert [] + [e] == [e];
  }

  /** Without a modification no status is ever set, so such tables are equal up to status only if
      they are equal. */
  ghost predicate AllUnset(t: Table) {
    forall b, j :: 0 <= b < |t.chains| && 0 <= j < |t.chains[b]| ==> t.chains[b][j].status == Unset
  }

  lemma StoredUnset(t: Table)
    requires AllUnset(t)
    ensures Erase(t) == t
  {
    forall b | 0 <= b < |t.chains| ensures Erase(t).chains[b] == t.chains[b] {
      assert EraseChain(t.chains[b]) == t.chains[b];
    }
    assert Erase(t).chains == t.chains;
  }

  lemma ImportedUnset(n: nat, text: string)
    requires n > 0
    ensures Erase(Checkpoint.Import(n, text)) == Checkpoint.Import(n, text)
  {
    ReadLinesUnset(Checkpoint.Reader(Empty(n), Checkpoint.START, false), text);
    StoredUnset(Checkpoint.Import(n, text));
  }

  lemma {:induction false} ReadLinesUnset(r: Checkpoint.Reader, text: string)
    requires |r.table.chains| > 0 && AllUnset(r.table)
    ensures AllUnset(Checkpoint.ReadLines(r, text).table)
    decreases |text|
  {
    hide AllUnset, Insert, Checkpoint.Kind, Checkpoint.Padded;
    if text != "" && !r.done {
      var line := NextLine(text, Checkpoint.LINE_MAX);
      InsertUnset(r.table, StrToULong(r.scan.keyText), Checkpoint.Padded(r.scan.data, r.scan.len));
      ReadLinesUnset(Checkpoint.ReadLine(r, line), text[|line|..]);
    }
  }

  lemma InsertUnset(t: Table, key: nat, bytes: string)
    requires |t.chains| > 0 && AllUnset(t)
    ensures AllUnset(Insert(t, key, bytes))
  {
  }
}
