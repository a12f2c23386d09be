/** The chained hash table of src/db.c on the heap, method by method against the value-level
    table. */
module HashTable {
  import opened Types
  import opened Text
  import Table
  import Checkpoint

  /** data_point. The stored bytes are the first data_len bytes of raw_data. */
  class DataPoint {
    const key: nat
    const bytes: string
    var status: Status
    var next: DataPoint?

    constructor (key: nat, bytes: string)
      ensures this.key == key && this.bytes == bytes && status == Unset && next == null
    {
      this.key := key;
      this.bytes := bytes;
      status := Unset;
      next := null;
    }
  }

  /** The nodes ns, in order, are the chain starting at head, and hold the entries c; all of
      them belong to bucket b of n. */
  ghost predicate Chained(head: DataPoint?, ns: seq<DataPoint>, c: seq<Table.Entry>, b: nat, n: nat)
    requires n > 0
    reads ns
  {
    && |ns| == |c|
    && head == (if ns == [] then null else ns[0])
    && (forall j {:trigger ns[j].next} :: 0 <= j < |ns| - 1 ==> ns[j].next == ns[j + 1])
    && (ns != [] ==> ns[|ns| - 1].next == null)
    && (forall j :: 0 <= j < |ns| ==> Table.Entry(ns[j].key, ns[j].bytes, ns[j].status) == c[j])
    && (forall j :: 0 <= j < |ns| ==> ns[j].key % n == b)
    && (forall i, j :: 0 <= i < j < |ns| ==> ns[i] != ns[j])
  }

  /** Chains of different buckets share no node. */
  lemma Apart(h1: DataPoint?, s1: seq<DataPoint>, c1: seq<Table.Entry>, b1: nat,
              h2: DataPoint?, s2: seq<DataPoint>, c2: seq<Table.Entry>, b2: nat, n: nat)
    requires n > 0 && b1 != b2
    requires Chained(h1, s1, c1, b1, n) && Chained(h2, s2, c2, b2, n)
    ensures forall i, j :: 0 <= i < |s1| && 0 <= j < |s2| ==> s1[i] != s2[j]
  {
  }

  /** insert_data_point: walk to the last node of the bucket and link the new one there. */
  method LinkLast(head: DataPoint?, node: DataPoint,
                  ghost ns: seq<DataPoint>, ghost c: seq<Table.Entry>, ghost b: nat, ghost n: nat)
    returns (newHead: DataPoint)
    requires n > 0 && Chained(head, ns, c, b, n)
    requires node !in ns && node.next == null && node.status == Unset && node.key % n == b
    modifies ns
    ensures Chained(newHead, ns + [node], c + [Table.Entry(node.key, node.bytes, Unset)], b, n)
  {
    if head == null {
      newHead := node;
    } else {
      newHead := head;
      var temp := head;
      ghost var j := 0;
      while temp.next != null
        invariant 0 <= j < |ns| && temp == ns[j]
        invariant Chained(head, ns, c, b, n)
        decreases |ns| - j
      {
        assert temp.next == ns[j].next;
        temp := temp.next;
        j := j + 1;
      }
      assert j == |ns| - 1;
      temp.next := node;
    }
    ghost var ms := ns + [node];
    assert forall i :: 0 <= i < |ns| ==> ms[i] == ns[i];
    assert ms[|ns|] == node;
  }

  lemma FirstMatchIs(c: seq<Table.Entry>, key: nat, i: nat)
    requires i < |c| && c[i].key == key
    requires forall k :: 0 <= k < i ==> c[k].key != key
    ensures Table.FirstMatch(c, key) == i
  {
    var f := Table.FirstMatch(c, key);
    assert f <= i;
  }

  /** A chain whose node j - 1 points past node j is the chain without node j. */
  lemma ChainedWithout(ns: seq<DataPoint>, c: seq<Table.Entry>, b: nat, n: nat, j: nat)
    requires n > 0 && 0 < j < |ns| == |c|
    requires forall k {:trigger ns[k].next} :: 0 <= k < |ns| - 1 && k != j - 1 ==> ns[k].next == ns[k + 1]
    requires ns[j - 1].next == if j + 1 < |ns| then ns[j + 1] else null
    requires j + 1 < |ns| ==> ns[|ns| - 1].next == null
    requires forall k :: 0 <= k < |ns| ==> Table.Entry(ns[k].key, ns[k].bytes, ns[k].status) == c[k]
    requires forall k :: 0 <= k < |ns| ==> ns[k].key % n == b
    requires forall i, k :: 0 <= i < k < |ns| ==> ns[i] != ns[k]
    ensures Chained(ns[0], ns[..j] + ns[j + 1..], c[..j] + c[j + 1..], b, n)
  {
    var ms := ns[..j] + ns[j + 1..];
    assert forall k :: 0 <= k < |ms| ==> ms[k] == if k < j then ns[k] else ns[k + 1];
    forall k | 0 <= k < |ms| - 1 ensures ms[k].next == ms[k + 1] {
      assert k < j - 1 ==> ms[k].next == ns[k].next;
      assert k >= j ==> ms[k].next == ns[k + 1].next;
    }
  }

  lemma ChainedTail(head: DataPoint?, ns: seq<DataPoint>, c: seq<Table.Entry>, b: nat, n: nat)
    requires n > 0 && ns != [] && Chained(head, ns, c, b, n)
    ensures Chained(ns[0].next, ns[1..], c[1..], b, n)
  {
    var ms := ns[1..];
    assert forall k :: 0 <= k < |ms| ==> ms[k] == ns[k + 1];
    forall k | 0 <= k < |ms| - 1 ensures ms[k].next == ms[k + 1] {
      assert ms[k].next == ns[k + 1].next;
    }
    assert |ns| > 1 ==> ns[0].next == ns[0 + 1];
  }

  /** Takes node j out of its chain. */
  method Bypass(head: DataPoint?, prev: DataPoint?, node: DataPoint,
                ghost ns: seq<DataPoint>, ghost c: seq<Table.Entry>, ghost b: nat, ghost n: nat, ghost j: nat)
    returns (newHead: DataPoint?)
    requires n > 0 && Chained(head, ns, c, b, n)
    requires j < |ns| && node == ns[j] && (j > 0 ==> prev == ns[j - 1])
    modifies ns
    ensures |ns| == |c|
    ensures Chained(newHead, ns[..j] + ns[j + 1..], c[..j] + c[j + 1..], b, n)
  {
    assert node == head <==> j == 0;
    hide Chained;
    newHead := head;
    if node == head {
      newHead := node.next;
      ChainedTail(head, ns, c, b, n);
      assert ns[..j] + ns[j + 1..] == ns[1..] && c[..j] + c[j + 1..] == c[1..];
    } else {
      PointPast(head, prev, node, ns, c, b, n, j);
    }
  }

  method PointPast(head: DataPoint?, prev: DataPoint, node: DataPoint,
                   ghost ns: seq<DataPoint>, ghost c: seq<Table.Entry>, ghost b: nat, ghost n: nat, ghost j: nat)
    requires n > 0 && Chained(head, ns, c, b, n)
    requires 0 < j < |ns| && node == ns[j] && prev == ns[j - 1]
    modifies prev
    ensures j < |c| && Chained(head, ns[..j] + ns[j + 1..], c[..j] + c[j + 1..], b, n)
  {
    assert j + 1 < |ns| ==> node.next == ns[j].next == ns[j + 1];
    prev.next := node.next;
    assert forall k {:trigger ns[k].next} :: 0 <= k < |ns| - 1 && k != j - 1 ==> ns[k].next == ns[k + 1];
    hide Chained;
    ChainedWithout(ns, c, b, n, j);
  }

  /** The walk of hash_table_delete along one bucket: the first node with the key is bypassed
      and its length is reported. */
  method Unlink(head: DataPoint?, key: nat,
                ghost ns: seq<DataPoint>, ghost c: seq<Table.Entry>, ghost b: nat, ghost n: nat)
    returns (found: bool, newHead: DataPoint?, len: nat)
    requires n > 0 && Chained(head, ns, c, b, n)
    modifies ns
    ensures |ns| == |c|
    ensures found <==> Table.FirstMatch(c, key) < |c|
    ensures !found ==> newHead == head && Chained(head, ns, c, b, n)
    ensures found ==>
      var i := Table.FirstMatch(c, key);
      len == |c[i].bytes| && Chained(newHead, ns[..i] + ns[i + 1..], c[..i] + c[i + 1..], b, n)
  {
    var temp, prev := head, head;
    newHead := head;
    ghost var j := 0;
    while temp != null
      invariant 0 <= j <= |ns|
      invariant temp == if j < |ns| then ns[j] else null
      invariant j > 0 ==> prev == ns[j - 1]
      invariant forall k :: 0 <= k < j ==> c[k].key != key
      invariant Chained(head, ns, c, b, n) && newHead == head
      decreases |ns| - j
    {
      if temp.key == key {
        FirstMatchIs(c, key, j);
        newHead := Bypass(head, prev, temp, ns, c, b, n, j);
        len := |temp.bytes|;
        found := true;
        return;
      }
      prev := temp;
      temp := temp.next;
      j := j + 1;
    }
    found, len := false, 0;
  }

  /** search_list as intended: the walk advances and stops at the first match. */
  method Search(head: DataPoint?, key: nat,
                ghost ns: seq<DataPoint>, ghost c: seq<Table.Entry>, ghost b: nat, ghost n: nat)
    returns (node: DataPoint?)
    requires n > 0 && Chained(head, ns, c, b, n)
    ensures |ns| == |c|
    ensures node == null <==> Table.FirstMatch(c, key) == |c|
    ensures node != null ==> node == ns[Table.FirstMatch(c, key)]
  {
    node := head;
    ghost var j := 0;
    while node != null
      invariant 0 <= j <= |ns|
      invariant node == if j < |ns| then ns[j] else null
      invariant forall k :: 0 <= k < j ==> c[k].key != key
      decreases |ns| - j
    {
      if node.key == key {
        FirstMatchIs(c, key, j);
        return;
      }
      node := node.next;
      j := j + 1;
    }
  }

  /** Prints one chain after the text written so far. */
  method ExportChain(head: DataPoint?, before: string, num: Status -> int, ghost ns: seq<DataPoint>,
                     ghost c: seq<Table.Entry>, ghost b: nat, ghost n: nat, ghost rest: string)
    returns (text: string)
    requires n > 0 && Chained(head, ns, c, b, n)
    ensures text + rest == before + Checkpoint.ChainThen(c, num, rest)
  {
    hide Checkpoint.EntryThen;
    text := before;
    var temp := head;
    ghost var j := 0;
    while temp != null
      invariant 0 <= j <= |ns| == |c|
      invariant temp == if j < |ns| then ns[j] else null
      invariant text + Checkpoint.ChainThen(c[j..], num, rest) == before + Checkpoint.ChainThen(c, num, rest)
      decreases |ns| - j
    {
      var e := Table.Entry(temp.key, temp.bytes, temp.status);
      ghost var tail := Checkpoint.ChainThen(c[j + 1..], num, rest);
      assert c[j..][0] == e && c[j..][1..] == c[j + 1..];
      Checkpoint.EntryThenSplit(e, num, tail);
      text := text + Checkpoint.EntryThen(e, num, "");
      temp := temp.next;
      j := j + 1;
    }
  }

  method WriteStatus(head: DataPoint?, node: DataPoint, status: Status, ghost ns: seq<DataPoint>,
                     ghost c: seq<Table.Entry>, ghost b: nat, ghost n: nat, ghost i: nat)
    requires n > 0 && Chained(head, ns, c, b, n) && i < |ns| == |c| && node == ns[i]
    modifies node
    ensures Chained(head, ns, c[i := c[i].(status := status)], b, n)
  {
    node.status := status;
  }

  class HashTable {
    const data: array<DataPoint?>
    var dataSize: int
    ghost var nodes: seq<seq<DataPoint>>
    ghost var value: Table.Table
    ghost var Repr: set<object>

    ghost predicate Shape()
      reads this
    {
      && this in Repr && data in Repr
      && data.Length == |nodes| == |value.chains| > 0
      && dataSize == value.dataSize
    }

    /** Bucket b is in order. */
    ghost predicate Bucket(b: nat)
      requires Shape() && b < |nodes|
      reads this, Repr
    {
      && (forall j :: 0 <= j < |nodes[b]| ==> nodes[b][j] in Repr)
      && Chained(data[b], nodes[b], value.chains[b], b, |nodes|)
    }

    ghost predicate Valid()
      reads this, Repr
      ensures Valid() ==> this in Repr
    {
      Shape() && forall b :: 0 <= b < |nodes| ==> Bucket(b)
    }

    /** hash_table_init */
    constructor (buckets: nat)
      requires buckets > 0
      ensures Valid() && fresh(Repr)
      ensures value == Table.Empty(buckets)
    {
      data := new DataPoint?[buckets](_ => null);
      dataSize := 0;
      nodes := seq(buckets, _ => []);
      value := Table.Empty(buckets);
      new;
      Repr := {this, data};
    }

    lemma BucketsApart(hash: nat)
      requires Valid() && hash < |nodes|
      ensures forall b, i, j ::
        0 <= b < |nodes| && b != hash && 0 <= i < |nodes[hash]| && 0 <= j < |nodes[b]| ==>
          nodes[hash][i] != nodes[b][j]
    {
      forall b | 0 <= b < |nodes| && b != hash
        ensures forall i, j :: 0 <= i < |nodes[hash]| && 0 <= j < |nodes[b]| ==>
          nodes[hash][i] != nodes[b][j]
      {
        assert Bucket(hash) && Bucket(b);
        Apart(data[hash], nodes[hash], value.chains[hash], hash, data[b], nodes[b], value.chains[b], b, |nodes|);
      }
    }

    /** Stores a bucket's new head once its chain has been relinked; the other buckets are as
        they were. */
    method SetBucket(hash: nat, head: DataPoint?, size: int,
                     ghost ns: seq<DataPoint>, ghost c: seq<Table.Entry>, ghost grown: set<object>)
      requires Shape() && hash < |nodes|
      requires forall b :: 0 <= b < |nodes| && b != hash ==> Bucket(b)
      requires Repr <= grown && forall j :: 0 <= j < |ns| ==> ns[j] in grown
      requires Chained(head, ns, c, hash, |nodes|)
      modifies this, data
      ensures Valid() && Repr == grown
      ensures value == Table.Table(old(value.chains)[hash := c], size)
      ensures nodes == old(nodes)[hash := ns]
    {
      hide Chained;
      forall b | 0 <= b < |nodes| && b != hash
        ensures Chained(data[b], nodes[b], value.chains[b], b, |nodes|)
        ensures forall j :: 0 <= j < |nodes[b]| ==> nodes[b][j] in Repr
      {
        assert Bucket(b);
      }
      data[hash] := head;
      dataSize := size;
      nodes := nodes[hash := ns];
      value := Table.Table(value.chains[hash := c], size);
      Repr := grown;
      forall b | 0 <= b < |nodes| ensures Bucket(b) {
      }
    }

    /** hash_table_insert */
    method Insert(key: nat, bytes: string) returns (ret: int)
      requires Valid()
      modifies Repr
      ensures Valid() && fresh(Repr - old(Repr))
      ensures value == Table.Insert(old(value), key, bytes)
      ensures ret == if key == 0 then -1 else 0
    {
      if key == 0 {
        return -1;
      }
      var node := new DataPoint(key, bytes);
      InsertNode(key % data.Length, node);
      ret := 0;
    }

    method InsertNode(hash: nat, node: DataPoint)
      requires Valid() && node !in Repr && node.next == null && node.status == Unset
      requires node.key != 0 && hash == node.key % data.Length
      modifies Repr
      ensures Valid() && Repr == old(Repr) + {node}
      ensures value == Table.Insert(old(value), node.key, node.bytes)
    {
      hide Chained;
      ghost var ns, c := nodes[hash], value.chains[hash];
      BucketsApart(hash);
      assert Bucket(hash);
      var head := LinkLast(data[hash], node, ns, c, hash, |nodes|);
      forall b | 0 <= b < |nodes| && b != hash ensures Bucket(b) {
        assert old(Bucket(b));
      }
      SetBucket(hash, head, dataSize + |node.bytes|, ns + [node],
                c + [Table.Entry(node.key, node.bytes, Unset)], Repr + {node});
    }

    /** hash_table_delete */
    method Delete(key: nat) returns (ret: int)
      requires Valid()
      modifies Repr
      ensures Valid() && Repr == old(Repr)
      ensures value == Table.Delete(old(value), key)
      ensures ret == 0 <==> Table.At(old(value), key) != []
      ensures ret == 0 || ret == -1
    {
      hide Chained;
      var hash := key % data.Length;
      ghost var ns, c := nodes[hash], value.chains[hash];
      Table.MatchingAtFirst(c, key);
      BucketsApart(hash);
      assert Bucket(hash);
      var found, head, len := Unlink(data[hash], key, ns, c, hash, |nodes|);
      forall b | 0 <= b < |nodes| && b != hash ensures Bucket(b) {
        assert old(Bucket(b));
      }
      if found {
        ghost var i := Table.FirstMatch(c, key);
        SetBucket(hash, head, dataSize - len, ns[..i] + ns[i + 1..], c[..i] + c[i + 1..], Repr);
        ret := 0;
      } else {
        ret := -1;
      }
    }

    /** hash_table_modify, over the advancing search. */
    method Modify(key: nat, status: Status) returns (ret: int)
      requires Valid()
      modifies Repr
      ensures Valid() && Repr == old(Repr)
      ensures value == Table.Modify(old(value), key, status)
      ensures ret == 0 <==> Table.At(old(value), key) != []
      ensures ret == 0 || ret == -1
    {
      hide Chained;
      var hash := key % data.Length;
      ghost var ns, c := nodes[hash], value.chains[hash];
      Table.MatchingAtFirst(c, key);
      BucketsApart(hash);
      assert Bucket(hash);
      var task := Search(data[hash], key, ns, c, hash, |nodes|);
      if task == null {
        return -1;
      }
      ghost var i := Table.FirstMatch(c, key);
      WriteStatus(data[hash], task, status, ns, c, hash, |nodes|, i);
      forall b | 0 <= b < |nodes| && b != hash ensures Bucket(b) {
        assert old(Bucket(b));
      }
      SetBucket(hash, data[hash], dataSize, ns, c[i := c[i].(status := status)], Repr);
      ret := 0;
    }

    /** hash_table_deinit followed by hash_table_init. */
    method Reset()
      requires Valid()
      modifies Repr
      ensures Valid() && Repr == old(Repr)
      ensures value == Table.Empty(|old(value).chains|)
    {
      var index := 0;
      while index < data.Length
        invariant 0 <= index <= data.Length
        invariant forall b :: 0 <= b < index ==> data[b] == null
        modifies data
      {
        data[index] := null;
        index := index + 1;
      }
      dataSize := 0;
      nodes := seq(data.Length, _ => []);
      value := Table.Empty(data.Length);
      forall b | 0 <= b < |nodes| ensures Bucket(b) {
      }
    }

    /** export_db_internal: the text written to the file. */
    method ExportDb(num: Status -> int) returns (text: string)
      requires Valid()
      ensures text == Checkpoint.Export(value, num)
    {
      hide Checkpoint.EntryThen;
      text := "";
      var index := 0;
      while index < data.Length
        invariant 0 <= index <= data.Length
        invariant Checkpoint.Export(value, num)
               == text + Checkpoint.ChainsThen(value.chains[index..], num, Checkpoint.LAST_LINE)
      {
        ghost var rest := Checkpoint.ChainsThen(value.chains[index + 1..], num, Checkpoint.LAST_LINE);
        assert value.chains[index..][1..] == value.chains[index + 1..];
        assert Bucket(index);
        text := ExportChain(data[index], text, num, nodes[index], value.chains[index], index, |nodes|, rest);
        index := index + 1;
      }
      text := text + Checkpoint.LAST_LINE;
    }

    /** import_db_internal on a readable file with the given contents. */
    method ImportDb(text: string)
      requires Valid()
      modifies Repr
      ensures Valid() && fresh(Repr - old(Repr))
      ensures value == Checkpoint.Import(|old(value).chains|, text)
    {
      hide Checkpoint.ReadLine;
      Reset();
      ghost var start := Checkpoint.Reader(value, Checkpoint.START, false);
      var scan, rest, done := Checkpoint.START, text, false;
      while rest != "" && !done
        invariant Valid() && fresh(Repr - old(Repr))
        invariant |value.chains| == |old(value).chains|
        invariant Checkpoint.ReadLines(Checkpoint.Reader(value, scan, done), rest)
               == Checkpoint.ReadLines(start, text)
        decreases |rest|
      {
        var line := NextLine(rest, Checkpoint.LINE_MAX);
        scan, done := ImportLine(line, scan);
        rest := rest[|line|..];
      }
    }

    method ImportLine(raw: string, k: Checkpoint.Scan) returns (scan: Checkpoint.Scan, done: bool)
      requires Valid()
      modifies Repr
      ensures Valid() && fresh(Repr - old(Repr))
      ensures Checkpoint.ReadLine(Checkpoint.Reader(old(value), k, false), raw)
           == Checkpoint.Reader(value, scan, done)
    {
      var line := CStr(raw);
      scan, done := k, false;
      match Checkpoint.Kind(line)
      case EntryEnd =>
        var status := Insert(StrToULong(k.keyText), Checkpoint.Padded(k.data, k.len));
        scan := Checkpoint.Scan(k.keyText, "", 0);
      case FileEnd => done := true;
      case KeyKind => scan := k.(keyText := Checkpoint.ScanKey(line, k.keyText));
      case DataKind => scan := k.(data := Checkpoint.ScanData(line));
      case LengthKind => scan := k.(len := Checkpoint.ScanLength(line, k.len));
      case OtherKind =>
    }
  }
}
