/** The value-level table that the chained hash table of src/db.c is proved to implement:
    buckets of entries, and the running sum of stored lengths. */
module Table {
  import opened Types

  datatype Entry = Entry(key: nat, bytes: string, status: Status)

  datatype Table = Table(chains: seq<seq<Entry>>, dataSize: int)

  /** The empty table with n buckets (hash_table_init). */
  function Empty(n: nat): (t: Table)
    ensures |t.chains| == n
    ensures forall b :: 0 <= b < n ==> t.chains[b] == []
  {
    Table(seq(n, _ => []), 0)
  }

  /** Index of the first entry stored under key, or the chain's length. */
  function FirstMatch(c: seq<Entry>, key: nat): (i: nat)
    ensures i <= |c|
    ensures i < |c| ==> c[i].key == key
    ensures forall j :: 0 <= j < i ==> c[j].key != key
  {
    if c == [] then 0 else if c[0].key == key then 0 else 1 + FirstMatch(c[1..], key)
  }

  function Insert(t: Table, key: nat, bytes: string): (r: Table)
    requires |t.chains| > 0
    ensures |r.chains| == |t.chains|
  {
    if key == 0 then t
    else
      var h := key % |t.chains|;
      Table(t.chains[h := t.chains[h] + [Entry(key, bytes, Unset)]], t.dataSize + |bytes|)
  }

  function Delete(t: Table, key: nat): (r: Table)
    requires |t.chains| > 0
    ensures |r.chains| == |t.chains|
  {
    var h := key % |t.chains|;
    var c := t.chains[h];
    var i := FirstMatch(c, key);
    if i == |c| then t
    else Table(t.chains[h := c[..i] + c[i + 1..]], t.dataSize - |c[i].bytes|)
  }

  function Modify(t: Table, key: nat, status: Status): (r: Table)
    requires |t.chains| > 0
    ensures |r.chains| == |t.chains|
  {
    var h := key % |t.chains|;
    var c := t.chains[h];
    var i := FirstMatch(c, key);
    if i == |c| then t else t.(chains := t.chains[h := c[i := c[i].(status := status)]])
  }

  // ---------- well-formedness ----------

  function ChainBytes(c: seq<Entry>): int {
    if c == [] then 0 else |c[0].bytes| + ChainBytes(c[1..])
  }

  function TotalBytes(chains: seq<seq<Entry>>): int {
    if chains == [] then 0 else ChainBytes(chains[0]) + TotalBytes(chains[1..])
  }

  /** Every entry sits in bucket key mod n under a non-zero key. */
  ghost predicate Placed(chains: seq<seq<Entry>>) {
    && |chains| > 0
    && forall b, j :: 0 <= b < |chains| && 0 <= j < |chains[b]| ==>
      chains[b][j].key > 0 && chains[b][j].key % |chains| == b
  }

  ghost predicate Wf(t: Table) {
    Placed(t.chains) && t.dataSize == TotalBytes(t.chains)
  }

  lemma {:induction false} ChainBytesConcat(c: seq<Entry>, d: seq<Entry>)
    ensures ChainBytes(c + d) == ChainBytes(c) + ChainBytes(d)
  {
    if c == [] {
      assert c + d == d;
    } else {
      ChainBytesConcat(c[1..], d);
      assert (c + d)[1..] == c[1..] + d;
    }
  }

  lemma {:induction false} TotalBytesUpdate(chains: seq<seq<Entry>>, h: nat, c: seq<Entry>)
    requires h < |chains|
    ensures TotalBytes(chains[h := c]) == TotalBytes(chains) - ChainBytes(chains[h]) + ChainBytes(c)
  {
    if h == 0 {
      assert chains[h := c][1..] == chains[1..];
    } else {
      TotalBytesUpdate(chains[1..], h - 1, c);
      assert chains[h := c][1..] == chains[1..][h - 1 := c];
    }
  }

  lemma {:induction false} TotalBytesEmpty(chains: seq<seq<Entry>>)
    requires forall b :: 0 <= b < |chains| ==> chains[b] == []
    ensures TotalBytes(chains) == 0
  {
    if chains != [] {
      TotalBytesEmpty(chains[1..]);
    }
  }

  lemma EmptyWf(n: nat)
    requires n > 0
    ensures Wf(Empty(n))
  {
    TotalBytesEmpty(Empty(n).chains);
  }

  lemma InsertWf(t: Table, key: nat, bytes: string)
    requires Wf(t)
    ensures Wf(Insert(t, key, bytes))
  {
    if key != 0 {
      var h := key % |t.chains|;
      var e := [Entry(key, bytes, Unset)];
      ChainBytesConcat(t.chains[h], e);
      TotalBytesUpdate(t.chains, h, t.chains[h] + e);
    }
  }

  lemma ChainBytesWithout(c: seq<Entry>, i: nat)
    requires i < |c|
    ensures ChainBytes(c[..i] + c[i + 1..]) == ChainBytes(c) - |c[i].bytes|
  {
    ChainBytesConcat(c[..i], c[i..]);
    assert c == c[..i] + c[i..] && c[i..][1..] == c[i + 1..];
    ChainBytesConcat(c[..i], c[i + 1..]);
  }

  lemma DeleteWf(t: Table, key: nat)
    requires Wf(t)
    ensures Wf(Delete(t, key))
  {
    var h := key % |t.chains|;
    var c := t.chains[h];
    var i := FirstMatch(c, key);
    if i < |c| {
      var d := c[..i] + c[i + 1..];
      ChainBytesWithout(c, i);
      hide ChainBytes, FirstMatch;
      TotalBytesUpdate(t.chains, h, d);
      forall j | 0 <= j < |d| ensures d[j] in c {
        assert d[j] == if j < i then c[j] else c[j + 1];
      }
    }
  }

  lemma {:induction false} ChainBytesSameLengths(c: seq<Entry>, d: seq<Entry>)
    requires |c| == |d|
    requires forall j :: 0 <= j < |c| ==> |c[j].bytes| == |d[j].bytes|
    ensures ChainBytes(c) == ChainBytes(d)
  {
    if c != [] {
      ChainBytesSameLengths(c[1..], d[1..]);
    }
  }

  lemma ModifyWf(t: Table, key: nat, status: Status)
    requires Wf(t)
    ensures Wf(Modify(t, key, status))
  {
    var h := key % |t.chains|;
    var c := t.chains[h];
    var i := FirstMatch(c, key);
    if i < |c| {
      var d := c[i := c[i].(status := status)];
      ChainBytesSameLengths(c, d);
      TotalBytesUpdate(t.chains, h, d);
    }
  }

  // ---------- the table as a map from keys to entry lists ----------

  function Matching(c: seq<Entry>, key: nat): seq<Entry> {
    if c == [] then []
    else (if c[0].key == key then [c[0]] else []) + Matching(c[1..], key)
  }

  /** What the table holds under one key, oldest first. */
  function At(t: Table, key: nat): seq<Entry>
    requires |t.chains| > 0
  {
    Matching(t.chains[key % |t.chains|], key)
  }

  lemma {:induction false} MatchingConcat(c: seq<Entry>, d: seq<Entry>, key: nat)
    ensures Matching(c + d, key) == Matching(c, key) + Matching(d, key)
    decreases |c|
  {
    if c == [] {
      assert c + d == d;
    } else {
      var e, tail := c[0], c[1..];
      assert c + d == [e] + (tail + d) && c == [e] + tail;
      MatchingCons(e, tail + d, key);
      MatchingCons(e, tail, key);
      hide Matching;
      MatchingConcat(tail, d, key);
    }
  }

  lemma MatchingCons(e: Entry, c: seq<Entry>, key: nat)
    ensures Matching([e] + c, key) == (if e.key == key then [e] else []) + Matching(c, key)
  {
    assert ([e] + c)[1..] == c;
  }

  lemma {:induction false} MatchingNone(c: seq<Entry>, key: nat)
    requires forall j :: 0 <= j < |c| ==> c[j].key != key
    ensures Matching(c, key) == []
  {
    if c != [] {
      MatchingNone(c[1..], key);
    }
  }

  /** A chain around its first match: the match heads the key's list and is followed by the
      matches of the rest. */
  lemma MatchingAtFirst(c: seq<Entry>, key: nat)
    ensures FirstMatch(c, key) == |c| <==> Matching(c, key) == []
    ensures FirstMatch(c, key) < |c| ==>
      var i := FirstMatch(c, key);
      Matching(c, key) == [c[i]] + Matching(c[i + 1..], key) && Matching(c[..i], key) == []
  {
    var i := FirstMatch(c, key);
    MatchingNone(c[..i], key);
    MatchingConcat(c[..i], c[i..], key);
    assert c == c[..i] + c[i..];
    if i < |c| {
      assert c[i..][1..] == c[i + 1..];
    }
  }

  /** Insertion appends to its own key's list and touches no other key; key 0 is refused. */
  lemma InsertRefinesMap(t: Table, key: nat, bytes: string, k: nat)
    requires Wf(t)
    ensures At(Insert(t, key, bytes), k)
         == At(t, k) + (if k == key && key != 0 then [Entry(key, bytes, Unset)] else [])
  {
    if key != 0 {
      MatchingConcat(t.chains[key % |t.chains|], [Entry(key, bytes, Unset)], k);
    }
  }

  lemma MatchingUpdated(c: seq<Entry>, i: nat, e: Entry, k: nat)
    requires i < |c| && e.key == c[i].key
    ensures Matching(c[i := e], k)
         == Matching(c[..i], k) + (if e.key == k then [e] else []) + Matching(c[i + 1..], k)
  {
    assert c[i := e] == c[..i] + ([e] + c[i + 1..]) && ([e] + c[i + 1..])[1..] == c[i + 1..];
    MatchingConcat(c[..i], [e] + c[i + 1..], k);
  }

  lemma MatchingDeleted(c: seq<Entry>, key: nat, k: nat)
    requires FirstMatch(c, key) < |c|
    ensures Matching(c, key) != []
    ensures var i := FirstMatch(c, key);
      Matching(c[..i] + c[i + 1..], k) == if k == key then Matching(c, key)[1..] else Matching(c, k)
  {
    hide Matching, FirstMatch;
    var i := FirstMatch(c, key);
    MatchingAtFirst(c, key);
    MatchingConcat(c[..i], c[i + 1..], k);
    MatchingUpdated(c, i, c[i], k);
    assert c[i := c[i]] == c;
  }

  /** Deletion drops the oldest entry of its key, if any, and touches no other key. */
  lemma DeleteRefinesMap(t: Table, key: nat, k: nat)
    requires Wf(t)
    ensures At(Delete(t, key), k)
         == if k == key && At(t, key) != [] then At(t, key)[1..] else At(t, k)
  {
    hide Matching, FirstMatch;
    var c := t.chains[key % |t.chains|];
    if FirstMatch(c, key) < |c| {
      MatchingDeleted(c, key, k);
    } else {
      MatchingAtFirst(c, key);
    }
  }

  lemma MatchingModified(c: seq<Entry>, key: nat, status: Status, k: nat)
    requires FirstMatch(c, key) < |c|
    ensures Matching(c, key) != [] && Matching(c, key)[0] == c[FirstMatch(c, key)]
    ensures var i := FirstMatch(c, key);
      Matching(c[i := c[i].(status := status)], k)
      == if k == key then [c[i].(status := status)] + Matching(c, key)[1..] else Matching(c, k)
  {
    hide Matching, FirstMatch;
    var i := FirstMatch(c, key);
    MatchingAtFirst(c, key);
    MatchingUpdated(c, i, c[i].(status := status), k);
    MatchingUpdated(c, i, c[i], k);
    assert c[i := c[i]] == c;
  }

  /** Modification writes the status of the oldest entry of its key and touches nothing else. */
  lemma ModifyRefinesMap(t: Table, key: nat, status: Status, k: nat)
    requires Wf(t)
    ensures At(Modify(t, key, status), k)
         == if k == key && At(t, key) != [] then [At(t, key)[0].(status := status)] + At(t, key)[1..]
            else At(t, k)
  {
    hide Matching, FirstMatch;
    var c := t.chains[key % |t.chains|];
    if FirstMatch(c, key) < |c| {
      MatchingModified(c, key, status, k);
    } else {
      MatchingAtFirst(c, key);
    }
  }

  // ---------- the lookup loop as written ----------

  /** What the lookup loop of the source has decided after at most `fuel` turns. The loop
      compares the current entry and never moves to the next one, so each turn that does not
      return starts the next from the same chain. */
  function LoopAsWritten(c: seq<Entry>, key: nat, fuel: nat): Option<Option<Entry>> {
    if c == [] then Some(None)
    else if fuel == 0 then None
    else if c[0].key == key then Some(Some(c[0]))
    else LoopAsWritten(c, key, fuel - 1)
  }

  function Found(c: seq<Entry>, key: nat): Option<Entry> {
    var i := FirstMatch(c, key);
    if i == |c| then None else Some(c[i])
  }

  /** The loop as written returns exactly when the chain is empty or its head matches, and then
      it returns what the advancing walk returns. */
  lemma {:induction false} AsWrittenReturnsIff(c: seq<Entry>, key: nat, fuel: nat)
    ensures c == [] || c[0].key == key ==> LoopAsWritten(c, key, fuel + 1) == Some(Found(c, key))
    ensures c != [] && c[0].key != key ==> LoopAsWritten(c, key, fuel) == None
  {
    if c != [] && c[0].key != key && fuel > 0 {
      AsWrittenReturnsIff(c, key, fuel - 1);
    }
  }

  // ---------- equality up to task status ----------

  function EraseChain(c: seq<Entry>): (r: seq<Entry>)
    ensures |r| == |c|
    ensures forall j :: 0 <= j < |c| ==> r[j] == c[j].(status := Unset)
  {
    seq(|c|, j requires 0 <= j < |c| => c[j].(status := Unset))
  }

  lemma EraseChainCons(c: seq<Entry>)
    requires c != []
    ensures EraseChain(c) == [c[0].(status := Unset)] + EraseChain(c[1..])
  {
  }

  /** The table with every status forgotten, which is what a checkpoint carries. */
  function Erase(t: Table): (r: Table)
    ensures |r.chains| == |t.chains| && r.dataSize == t.dataSize
    ensures forall b :: 0 <= b < |t.chains| ==> r.chains[b] == EraseChain(t.chains[b])
  {
    Table(seq(|t.chains|, b requires 0 <= b < |t.chains| => EraseChain(t.chains[b])), t.dataSize)
  }

  lemma {:induction false} FirstMatchErased(c: seq<Entry>, key: nat)
    ensures FirstMatch(EraseChain(c), key) == FirstMatch(c, key)
  {
    if c != [] {
      FirstMatchErased(c[1..], key);
      assert EraseChain(c)[1..] == EraseChain(c[1..]);
    }
  }

  lemma EraseInsert(t: Table, key: nat, bytes: string)
    requires |t.chains| > 0
    ensures Erase(Insert(t, key, bytes)) == Insert(Erase(t), key, bytes)
  {
    if key != 0 {
      var h := key % |t.chains|;
      var e := [Entry(key, bytes, Unset)];
      assert EraseChain(t.chains[h] + e) == EraseChain(t.chains[h]) + e;
      assert Erase(Insert(t, key, bytes)).chains == Insert(Erase(t), key, bytes).chains;
    }
  }

  lemma EraseDelete(t: Table, key: nat)
    requires |t.chains| > 0
    ensures Erase(Delete(t, key)) == Delete(Erase(t), key)
  {
    var h := key % |t.chains|;
    var c := t.chains[h];
    var i := FirstMatch(c, key);
    FirstMatchErased(c, key);
    if i < |c| {
      assert EraseChain(c[..i] + c[i + 1..]) == EraseChain(c)[..i] + EraseChain(c)[i + 1..];
    }
    assert Erase(Delete(t, key)).chains == Delete(Erase(t), key).chains;
  }

  lemma EraseModify(t: Table, key: nat, status: Status)
    requires |t.chains| > 0
    ensures Erase(Modify(t, key, status)) == Erase(t)
  {
    var h := key % |t.chains|;
    var c := t.chains[h];
    var i := FirstMatch(c, key);
    if i < |c| {
      assert EraseChain(c[i := c[i].(status := status)]) == EraseChain(c);
    }
    assert Erase(Modify(t, key, status)).chains == Erase(t).chains;
  }
}
