/** The checkpoint image: the text a table is exported to and the line-by-line reader that
    rebuilds a table from it (export_db_internal and import_db_internal of src/db.c). */
module Checkpoint {
  import opened Types
  import opened Text
  import opened Table

  /** fgets is called with a 1024-byte buffer, so a line holds at most 1023 characters. */
  const LINE_MAX: nat := 1023

  // ---------- export ----------

  function KeyLine(key: nat): string { "Key: " + Dec(key) + "\r\n" }
  function DataLine(bytes: string): string { "Data: " + CStr(bytes) + "\r\n" }
  function LengthLine(len: nat): string { "data_len: " + Dec(len) + "\r\n" }
  function StatusLine(number: int): string { "Status: " + IntText(number) + "\r\n" }
  const END_LINE := "DATA_END\r\n"
  const LAST_LINE := "FILE_END\n"

  /** One printed entry followed by rest. The status line prints whatever 32-bit number `num`
      gives for the status: the source passes a string pointer to %d, and nothing reads the
      number back. */
  function EntryThen(e: Entry, num: Status -> int, rest: string): string {
    KeyLine(e.key) + (DataLine(e.bytes) + (LengthLine(|e.bytes|)
    + (StatusLine(Int32(num(e.status))) + (END_LINE + rest))))
  }

  function ChainThen(c: seq<Entry>, num: Status -> int, rest: string): string {
    if c == [] then rest else EntryThen(c[0], num, ChainThen(c[1..], num, rest))
  }

  function ChainsThen(chains: seq<seq<Entry>>, num: Status -> int, rest: string): string {
    if chains == [] then rest else ChainThen(chains[0], num, ChainsThen(chains[1..], num, rest))
  }

  /** The whole image: every bucket in order, every chain from its head. */
  function Export(t: Table, num: Status -> int): string {
    ChainsThen(t.chains, num, LAST_LINE)
  }

  lemma EntryThenSplit(e: Entry, num: Status -> int, rest: string)
    ensures EntryThen(e, num, rest) == EntryThen(e, num, "") + rest
  {
    hide KeyLine, DataLine, LengthLine, StatusLine;
    var a, b, c, d := KeyLine(e.key), DataLine(e.bytes), LengthLine(|e.bytes|), StatusLine(Int32(num(e.status)));
    Regroup(a, b, c, d, END_LINE, rest);
  }

  lemma Regroup(a: string, b: string, c: string, d: string, e: string, rest: string)
    ensures a + (b + (c + (d + (e + rest)))) == (a + (b + (c + (d + (e + ""))))) + rest
  {
  }

  // ---------- import ----------

  /** The reader's variables: the key text, the data buffer up to its zero padding, the length. */
  datatype Scan = Scan(keyText: string, data: string, len: nat)

  const START: Scan := Scan("", "", 0)

  datatype Reader = Reader(table: Table, scan: Scan, done: bool)

  /** The first len bytes of the zero-padded data buffer. */
  function Padded(data: string, len: nat): (r: string)
    ensures |r| == len
  {
    if len <= |data| then data[..len] else data + seq(len - |data|, _ => '\0')
  }

  /** "%s" after a prefix: skip white space, take a non-empty run of other characters. */
  function ScanWord(s: string, before: string): string {
    var w := Until(SkipSpace(s), SPACES);
    if w == "" then before else w
  }

  datatype LineKind = KeyKind | DataKind | LengthKind | EntryEnd | FileEnd | OtherKind

  /** The prefix tests of the import loop; the prefixes exclude each other. */
  function Kind(line: string): LineKind {
    if "DATA_END" <= line then EntryEnd
    else if "FILE_END" <= line then FileEnd
    else if "Key" <= line then KeyKind
    else if "Data" <= line then DataKind
    else if "data_len" <= line then LengthKind
    else OtherKind
  }

  // The sscanf calls: the literal part must match in full before anything is stored.
  function ScanKey(line: string, before: string): string {
    if "Key:" <= line then ScanWord(line[4..], before) else before
  }

  function ScanData(line: string): string {
    if "Data:" <= line then Until(SkipSpace(line[5..]), {'\n'}) else ""
  }

  function ScanLength(line: string, before: nat): nat {
    if "data_len:" <= line && HasNumber(line[9..]) then StrToULong(line[9..]) else before
  }

  /** One turn of the import loop on the line just read. */
  function ReadLine(r: Reader, raw: string): (q: Reader)
    requires |r.table.chains| > 0
    ensures |q.table.chains| == |r.table.chains|
  {
    var line := CStr(raw);
    match Kind(line)
    case EntryEnd =>
      Reader(Insert(r.table, StrToULong(r.scan.keyText), Padded(r.scan.data, r.scan.len)),
             Scan(r.scan.keyText, "", 0), false)
    case FileEnd => r.(done := true)
    case KeyKind => r.(scan := r.scan.(keyText := ScanKey(line, r.scan.keyText)))
    case DataKind => r.(scan := r.scan.(data := ScanData(line)))
    case LengthKind => r.(scan := r.scan.(len := ScanLength(line, r.scan.len)))
    case OtherKind => r
  }

  function ReadLines(r: Reader, text: string): (q: Reader)
    requires |r.table.chains| > 0
    ensures |q.table.chains| == |r.table.chains|
    decreases |text|
  {
    if text == "" || r.done then r
    else
      var line := NextLine(text, LINE_MAX);
      ReadLines(ReadLine(r, line), text[|line|..])
  }

  /** Importing starts from an empty table of n buckets. */
  function Import(n: nat, text: string): (t: Table)
    requires n > 0
    ensures |t.chains| == n
  {
    ReadLines(Reader(Empty(n), START, false), text).table
  }

  // ---------- reading whole lines ----------

  /** Reads one line in as many fgets pieces as its length needs. */
  function ReadPieces(r: Reader, line: string): (q: Reader)
    requires |r.table.chains| > 0
    ensures |q.table.chains| == |r.table.chains|
    decreases |line|
  {
    if line == "" || r.done then r
    else if |line| <= LINE_MAX then ReadLine(r, line)
    else ReadPieces(ReadLine(r, line[..LINE_MAX]), line[LINE_MAX..])
  }

  ghost predicate IsLine(line: string) {
    line != "" && line[|line| - 1] == '\n' && '\n' !in line[..|line| - 1]
  }

  lemma {:induction false} ReadsLineFirst(r: Reader, line: string, rest: string)
    requires |r.table.chains| > 0 && IsLine(line)
    ensures ReadLines(r, line + rest) == ReadLines(ReadPieces(r, line), rest)
    decreases |line|
  {
    hide ReadLine;
    if r.done {
    } else if |line| <= LINE_MAX {
      var body := line[..|line| - 1];
      assert line == body + "\n";
      NextLineEnds(body, rest, LINE_MAX);
      assert (line + rest)[|line|..] == rest;
    } else {
      var piece, tail := line[..LINE_MAX], line[LINE_MAX..];
      assert line + rest == piece + (tail + rest);
      NextLineCut(piece, tail + rest);
      assert (piece + (tail + rest))[LINE_MAX..] == tail + rest;
      ReadsLineFirst(ReadLine(r, piece), tail, rest);
    }
  }

  // ---------- the effect of each printed line ----------

  /** Task texts as a parsed request can carry them: no line break, no NUL, no leading blank. */
  predicate CleanTask(s: string) {
    && '\r' !in s && '\n' !in s && '\0' !in s
    && (s != "" ==> !IsSpace(s[0]))
  }

  /** Longest task whose data line still fits one fgets: 1023 less the 6 of "Data: ". */
  const TASK_MAX: nat := 1017

  predicate Fits(e: Entry) {
    CleanTask(e.bytes) && |e.bytes| <= TASK_MAX && 0 < e.key <= ULONG_MAX
  }

  lemma SkipBlank(t: string)
    ensures SkipSpace(" " + t) == SkipSpace(t)
    ensures t != "" && !IsSpace(t[0]) ==> SkipSpace(t) == t
  {
    assert (" " + t)[1..] == t;
  }

  /** A labelled line ended by CR LF is one text line without NUL. */
  lemma LineShape(name: string, d: string)
    requires forall i :: 0 <= i < |name| ==> name[i] != '\n' && name[i] != '\0'
    requires forall i :: 0 <= i < |d| ==> d[i] != '\n' && d[i] != '\0'
    ensures IsLine(name + d + "\r\n")
    ensures CStr(name + d + "\r\n") == name + d + "\r\n"
  {
  }

  lemma KeyField(d: string, before: string)
    requires d != "" && AllDigits(d)
    ensures Kind("Key: " + d + "\r\n") == KeyKind
    ensures ScanKey("Key: " + d + "\r\n", before) == d
  {
    hide SkipSpace, Until;
    var line := "Key: " + d + "\r\n";
    var s := d + "\r\n";
    NotPrefix("DATA_END", line, 0);
    NotPrefix("FILE_END", line, 0);
    assert line[4..] == " " + s;
    SkipBlank(s);
    UntilStop(d, "\r\n", SPACES);
  }

  lemma ReadKeyLine(r: Reader, key: nat)
    requires |r.table.chains| > 0 && !r.done && key <= ULONG_MAX
    ensures IsLine(KeyLine(key))
    ensures ReadPieces(r, KeyLine(key)) == r.(scan := r.scan.(keyText := Dec(key)))
  {
    DecShort(key, 20);
    hide Dec, CStr, Kind, ScanKey;
    LineShape("Key: ", Dec(key));
    KeyField(Dec(key), r.scan.keyText);
  }

  lemma PrefixSplit(p: string, q: string)
    ensures p <= p + q && (p + q)[|p|..] == q
  {
  }

  lemma NotPrefix(p: string, line: string, i: nat)
    requires i < |p| && (i < |line| ==> p[i] != line[i])
    ensures !(p <= line)
  {
  }

  lemma LengthKindOf(d: string)
    ensures Kind("data_len: " + d + "\r\n") == LengthKind
    ensures "data_len:" <= "data_len: " + d + "\r\n"
    ensures ("data_len: " + d + "\r\n")[9..] == " " + (d + "\r\n")
  {
    var line := "data_len: " + d + "\r\n";
    NotPrefix("DATA_END", line, 0);
    NotPrefix("FILE_END", line, 0);
    NotPrefix("Key", line, 0);
    NotPrefix("Data", line, 0);
  }

  lemma BlankULong(s: string)
    ensures StrToULong(" " + s) == StrToULong(s) && (HasNumber(" " + s) <==> HasNumber(s))
  {
    SkipBlank(s);
    hide SkipSpace, SignedULong, AfterSign, DigitCount;
  }

  lemma LengthField(n: nat, before: nat)
    requires n <= ULONG_MAX
    ensures Kind("data_len: " + Dec(n) + "\r\n") == LengthKind
    ensures ScanLength("data_len: " + Dec(n) + "\r\n", before) == n
  {
    hide Dec, StrToULong, HasNumber, Kind;
    StrToULongDec(n, "\r\n");
    BlankULong(Dec(n) + "\r\n");
    LengthKindOf(Dec(n));
  }

  lemma ReadLengthLine(r: Reader, n: nat)
    requires |r.table.chains| > 0 && !r.done && n <= ULONG_MAX
    ensures IsLine(LengthLine(n))
    ensures ReadPieces(r, LengthLine(n)) == r.(scan := r.scan.(len := n))
  {
    DecShort(n, 20);
    hide Dec, CStr, Kind, ScanLength;
    LineShape("data_len: ", Dec(n));
    LengthField(n, r.scan.len);
  }

  lemma ReadStatusLine(r: Reader, v: int)
    requires |r.table.chains| > 0 && !r.done && -0x8000_0000 <= v < 0x8000_0000
    ensures IsLine(StatusLine(v))
    ensures ReadPieces(r, StatusLine(v)) == r
  {
    DecShort(if v < 0 then -v else v, 10);
    hide CStr, Dec, Kind;
    LineShape("Status: ", IntText(v));
    OtherField(StatusLine(v));
  }

  lemma OtherField(line: string)
    requires line != "" && line[0] in {'S', '\r', '\n'}
    ensures Kind(line) == OtherKind
  {
    NotPrefix("DATA_END", line, 0);
    NotPrefix("FILE_END", line, 0);
    NotPrefix("Key", line, 0);
    NotPrefix("Data", line, 0);
    NotPrefix("data_len", line, 0);
  }

  lemma ReadEndLine(r: Reader)
    requires |r.table.chains| > 0 && !r.done
    ensures IsLine(END_LINE)
    ensures ReadPieces(r, END_LINE)
         == Reader(Insert(r.table, StrToULong(r.scan.keyText), Padded(r.scan.data, r.scan.len)),
                   Scan(r.scan.keyText, "", 0), false)
  {
    hide CStr, Insert, StrToULong;
    assert CStr(END_LINE) == END_LINE;
    assert "DATA_END" <= END_LINE;
  }

  /** A piece that holds at least the whole task. */
  lemma ReadDataPiece(r: Reader, s: string, tail: string)
    requires |r.table.chains| > 0 && !r.done
    requires CleanTask(s) && tail in {"", "\r", "\r\n"}
    ensures ReadLine(r, "Data: " + s + tail)
         == r.(scan := r.scan.(data := if s == "" then "" else if tail == "" then s else s + "\r"))
  {
    hide CStr, Kind, ScanData;
    var line := "Data: " + s + tail;
    assert CStr(line) == line;
    DataKindOf(s, tail);
  }

  lemma DataPrefixKind(s: string)
    ensures Kind("Data: " + s) == DataKind
  {
    var line := "Data: " + s;
    NotPrefix("DATA_END", line, 1);
    NotPrefix("FILE_END", line, 0);
    NotPrefix("Key", line, 0);
  }

  lemma DataPrefix(s: string)
    ensures ScanData("Data: " + s) == Until(SkipSpace(s), {'\n'})
  {
    SkipBlank(s);
    hide Until, SkipSpace;
    var p, q := "Data:", " " + s;
    PrefixSplit(p, q);
    assert |p| == 5 && "Data: " + s == p + q;
  }

  lemma DataKindOf(s: string, tail: string)
    requires CleanTask(s) && tail in {"", "\r", "\r\n"}
    ensures Kind("Data: " + s + tail) == DataKind
    ensures ScanData("Data: " + s + tail)
         == if s == "" then "" else if tail == "" then s else s + "\r"
  {
    hide *;
    DataField(s, tail);
    DataPrefix(s + tail);
    DataPrefixKind(s + tail);
    assert "Data: " + s + tail == "Data: " + (s + tail);
  }

  lemma DataField(s: string, tail: string)
    requires CleanTask(s) && tail in {"", "\r", "\r\n"}
    ensures Until(SkipSpace(s + tail), {'\n'})
         == if s == "" then "" else if tail == "" then s else s + "\r"
  {
    if s == "" {
      assert s + tail == tail;
      BlankTail(tail);
    } else {
      hide Until;
      assert SkipSpace(s + tail) == s + tail;
      if tail == "\r\n" {
        assert s + tail == (s + "\r") + "\n";
        UntilStop(s + "\r", "\n", {'\n'});
      } else {
        assert s + tail + "" == s + tail;
        UntilStop(s + tail, "", {'\n'});
      }
    }
  }

  lemma BlankTail(tail: string)
    requires tail in {"", "\r", "\r\n"}
    ensures SkipSpace(tail) == ""
  {
    assert "\r\n"[1..] == "\n" && "\n"[1..] == "" && "\r"[1..] == "";
    assert SkipSpace("\n") == SkipSpace("");
  }

  /** What is left of a data line after its first piece changes nothing. */
  lemma ReadBlank(r: Reader, line: string)
    requires |r.table.chains| > 0 && !r.done
    requires line == "\n" || line == "\r\n"
    ensures ReadPieces(r, line) == r
  {
    hide CStr, Kind;
    OtherField(line);
  }

  /** The data line leaves the task at the front of the data buffer, also when the size limit
      cuts the line between the task and its newline. */
  lemma ReadDataLine(r: Reader, s: string) returns (d: string)
    requires |r.table.chains| > 0 && !r.done
    requires CleanTask(s) && |s| <= TASK_MAX
    ensures s <= d
    ensures IsLine(DataLine(s))
    ensures ReadPieces(r, DataLine(s)) == r.(scan := r.scan.(data := d))
  {
    hide CStr, ReadLine;
    LineShape("Data: ", s);
    var line := DataLine(s);
    var tail := if |s| == TASK_MAX then "" else if |s| == TASK_MAX - 1 then "\r" else "\r\n";
    var piece := "Data: " + s + tail;
    d := if s == "" then "" else if tail == "" then s else s + "\r";
    ReadDataPiece(r, s, tail);
    if |s| >= TASK_MAX - 1 {
      assert line[..LINE_MAX] == piece;
      var left := if |s| == TASK_MAX then "\r\n" else "\n";
      assert line[LINE_MAX..] == left;
      ReadBlank(r.(scan := r.scan.(data := d)), left);
    }
  }

  /** Reading one printed entry inserts exactly its key and bytes. */
  lemma EntryReadBack(t: Table, k: Scan, e: Entry, num: Status -> int, rest: string)
    requires |t.chains| > 0 && Fits(e)
    ensures ReadLines(Reader(t, k, false), EntryThen(e, num, rest))
         == ReadLines(Reader(Insert(t, e.key, e.bytes), Scan(Dec(e.key), "", 0), false), rest)
  {
    hide ReadLines, ReadPieces, Insert, Dec, KeyLine, DataLine, LengthLine, StatusLine;
    var v := Int32(num(e.status));
    var status := StatusLine(v) + (END_LINE + rest);
    var length := LengthLine(|e.bytes|) + status;
    var r0 := Reader(t, k, false);
    ReadKeyLine(r0, e.key);
    ReadsLineFirst(r0, KeyLine(e.key), DataLine(e.bytes) + length);
    var r1 := r0.(scan := k.(keyText := Dec(e.key)));
    var d := ReadDataLine(r1, e.bytes);
    ReadsLineFirst(r1, DataLine(e.bytes), length);
    var r2 := r1.(scan := r1.scan.(data := d));
    ReadLengthLine(r2, |e.bytes|);
    ReadsLineFirst(r2, LengthLine(|e.bytes|), status);
    var r3 := r2.(scan := r2.scan.(len := |e.bytes|));
    ReadStatusLine(r3, v);
    ReadsLineFirst(r3, StatusLine(v), END_LINE + rest);
    ReadEndLine(r3);
    ReadsLineFirst(r3, END_LINE, rest);
    StrToULongDec(e.key, "");
    assert Dec(e.key) + "" == Dec(e.key);
    assert Padded(d, |e.bytes|) == e.bytes;
  }

  // ---------- the whole image ----------

  function AppendAll(t: Table, b: nat, c: seq<Entry>): (r: Table)
    requires b < |t.chains|
    ensures |r.chains| == |t.chains|
  {
    Table(t.chains[b := t.chains[b] + EraseChain(c)], t.dataSize + ChainBytes(c))
  }

  ghost predicate ChainFits(c: seq<Entry>, b: nat, n: nat)
    requires n > 0
  {
    forall j :: 0 <= j < |c| ==> Fits(c[j]) && c[j].key % n == b
  }

  lemma AppendNone(t: Table, b: nat)
    requires b < |t.chains|
    ensures AppendAll(t, b, []) == t
  {
    assert t.chains[b] + EraseChain([]) == t.chains[b];
  }

  lemma AppendStep(t: Table, b: nat, c: seq<Entry>)
    requires b < |t.chains| && c != [] && c[0].key % |t.chains| == b && c[0].key != 0
    ensures AppendAll(Insert(t, c[0].key, c[0].bytes), b, c[1..]) == AppendAll(t, b, c)
  {
    var e := [c[0].(status := Unset)];
    EraseChainCons(c);
    var before, rest := t.chains[b], EraseChain(c[1..]);
    assert ChainBytes(c) == |c[0].bytes| + ChainBytes(c[1..]);
    hide EraseChain, ChainBytes;
    assert (before + e) + rest == before + (e + rest);
    assert t.chains[b := before + e][b := before + (e + rest)] == t.chains[b := before + (e + rest)];
  }

  lemma {:induction false} ChainReadBack(t: Table, k: Scan, b: nat, c: seq<Entry>, num: Status -> int, rest: string)
    returns (k': Scan)
    requires b < |t.chains| && ChainFits(c, b, |t.chains|)
    ensures ReadLines(Reader(t, k, false), ChainThen(c, num, rest))
         == ReadLines(Reader(AppendAll(t, b, c), k', false), rest)
    decreases |c|
  {
    hide ReadLines, EntryThen, Insert, AppendAll, EraseChain, Dec;
    if c == [] {
      k' := k;
      AppendNone(t, b);
    } else {
      EntryReadBack(t, k, c[0], num, ChainThen(c[1..], num, rest));
      var u := Insert(t, c[0].key, c[0].bytes);
      k' := ChainReadBack(u, Scan(Dec(c[0].key), "", 0), b, c[1..], num, rest);
      AppendStep(t, b, c);
    }
  }

  ghost predicate AllFit(chains: seq<seq<Entry>>) {
    forall b, j :: 0 <= b < |chains| && 0 <= j < |chains[b]| ==> Fits(chains[b][j])
  }

  /** The table rebuilt once the first b buckets of the image have been read. */
  function Rebuilt(t: Table, b: nat): (r: Table)
    requires b <= |t.chains|
    ensures |r.chains| == |t.chains|
  {
    Table(Erase(t).chains[..b] + Empty(|t.chains| - b).chains, TotalBytes(t.chains[..b]))
  }

  lemma RebuiltNext(t: Table, b: nat)
    requires b < |t.chains|
    ensures AppendAll(Rebuilt(t, b), b, t.chains[b]) == Rebuilt(t, b + 1)
  {
    var left, right := AppendAll(Rebuilt(t, b), b, t.chains[b]), Rebuilt(t, b + 1);
    assert [] + EraseChain(t.chains[b]) == EraseChain(t.chains[b]);
    forall i | 0 <= i < |t.chains| ensures left.chains[i] == right.chains[i] {
    }
    assert left.chains == right.chains;
    TotalBytesSnoc(t.chains[..b], t.chains[b]);
    assert t.chains[..b + 1] == t.chains[..b] + [t.chains[b]];
  }

  lemma {:induction false} TotalBytesSnoc(chains: seq<seq<Entry>>, c: seq<Entry>)
    ensures TotalBytes(chains + [c]) == TotalBytes(chains) + ChainBytes(c)
  {
    if chains != [] {
      TotalBytesSnoc(chains[1..], c);
      assert (chains + [c])[1..] == chains[1..] + [c];
    }
  }

  lemma {:induction false} ChainsReadBack(t: Table, b: nat, k: Scan, num: Status -> int)
    requires Placed(t.chains) && AllFit(t.chains) && b <= |t.chains|
    ensures ReadLines(Reader(Rebuilt(t, b), k, false), ChainsThen(t.chains[b..], num, LAST_LINE)).table
         == Rebuilt(t, |t.chains|)
    decreases |t.chains| - b
  {
    hide ReadLines, ChainThen, Rebuilt, AppendAll, ReadPieces;
    if b == |t.chains| {
      LastLineReadBack(Reader(Rebuilt(t, b), k, false));
    } else {
      assert t.chains[b..][1..] == t.chains[b + 1..];
      var k' := ChainReadBack(Rebuilt(t, b), k, b, t.chains[b], num, ChainsThen(t.chains[b + 1..], num, LAST_LINE));
      RebuiltNext(t, b);
      ChainsReadBack(t, b + 1, k', num);
    }
  }

  lemma LastLineReadBack(r: Reader)
    requires |r.table.chains| > 0 && !r.done
    ensures ReadLines(r, LAST_LINE).table == r.table
  {
    hide ReadLines, ReadPieces;
    assert LAST_LINE + "" == LAST_LINE;
    ReadsLineFirst(r, LAST_LINE, "");
    EndOfText(ReadPieces(r, LAST_LINE));
    ReadLastLine(r);
  }

  lemma ReadLastLine(r: Reader)
    requires |r.table.chains| > 0 && !r.done
    ensures IsLine(LAST_LINE) && ReadPieces(r, LAST_LINE) == r.(done := true)
  {
    hide Insert, CStr;
    assert CStr(LAST_LINE) == LAST_LINE;
    NotPrefix("DATA_END", LAST_LINE, 0);
  }

  lemma EndOfText(r: Reader)
    requires |r.table.chains| > 0
    ensures ReadLines(r, "") == r
  {
  }

  /** Importing the export of a well-formed table whose tasks fit rebuilds every bucket's chain
      in order, with the same keys, bytes and total size; only the statuses are lost. */
  lemma RoundTrip(t: Table, num: Status -> int)
    requires Wf(t) && AllFit(t.chains)
    ensures Import(|t.chains|, Export(t, num)) == Erase(t)
  {
    var n := |t.chains|;
    assert t.chains[0..] == t.chains && t.chains[..n] == t.chains;
    assert Rebuilt(t, 0) == Empty(n);
    assert Rebuilt(t, n) == Erase(t);
    ChainsReadBack(t, 0, START, num);
  }

  /** Whatever follows the last line of an image is not read. */
  lemma RoundTripThen(t: Table, num: Status -> int, more: string)
    requires Wf(t) && AllFit(t.chains)
    ensures Import(|t.chains|, Export(t, num) + more) == Erase(t)
  {
    hide ReadLines, ChainsThen;
    RoundTrip(t, num);
    var start := Reader(Empty(|t.chains|), START, false);
    ChainsSplit(t.chains, num, LAST_LINE);
    ChainsSplit(t.chains, num, LAST_LINE + more);
    var body := ChainsThen(t.chains, num, "");
    assert body + LAST_LINE + more == body + (LAST_LINE + more);
    EndsAlike(t, num, start, more);
  }

  lemma {:induction false} ChainsSplit(chains: seq<seq<Entry>>, num: Status -> int, rest: string)
    ensures ChainsThen(chains, num, rest) == ChainsThen(chains, num, "") + rest
    decreases |chains|
  {
    hide ChainThen;
    if chains != [] {
      ChainsSplit(chains[1..], num, rest);
      ChainSplit(chains[0], num, ChainsThen(chains[1..], num, rest));
      ChainSplit(chains[0], num, ChainsThen(chains[1..], num, ""));
      var a, b := ChainThen(chains[0], num, ""), ChainsThen(chains[1..], num, "");
      assert a + (b + rest) == (a + b) + rest;
    }
  }

  lemma {:induction false} ChainSplit(c: seq<Entry>, num: Status -> int, rest: string)
    ensures ChainThen(c, num, rest) == ChainThen(c, num, "") + rest
    decreases |c|
  {
    hide EntryThen;
    if c != [] {
      ChainSplit(c[1..], num, rest);
      EntryThenSplit(c[0], num, ChainThen(c[1..], num, rest));
      EntryThenSplit(c[0], num, ChainThen(c[1..], num, ""));
      var a, b := EntryThen(c[0], num, ""), ChainThen(c[1..], num, "");
      assert a + (b + rest) == (a + b) + rest;
    }
  }

  lemma EndsAlike(t: Table, num: Status -> int, start: Reader, more: string)
    requires Placed(t.chains) && AllFit(t.chains) && start == Reader(Empty(|t.chains|), START, false)
    ensures ReadLines(start, ChainsThen(t.chains, num, LAST_LINE + more)).table
         == ReadLines(start, ChainsThen(t.chains, num, LAST_LINE)).table
  {
    hide ReadLines, ChainsThen;
    var q := BucketsRead(t, 0, START, num, LAST_LINE);
    var q' := BucketsRead(t, 0, START, num, LAST_LINE + more);
    assert t.chains[0..] == t.chains && Rebuilt(t, 0) == Empty(|t.chains|);
    LastLineThen(Reader(Rebuilt(t, |t.chains|), q', false), more);
    LastLineReadBack(Reader(Rebuilt(t, |t.chains|), q, false));
  }

  lemma {:induction false} BucketsRead(t: Table, b: nat, k: Scan, num: Status -> int, rest: string) returns (k': Scan)
    requires Placed(t.chains) && AllFit(t.chains) && b <= |t.chains|
    ensures ReadLines(Reader(Rebuilt(t, b), k, false), ChainsThen(t.chains[b..], num, rest))
         == ReadLines(Reader(Rebuilt(t, |t.chains|), k', false), rest)
    decreases |t.chains| - b
  {
    hide ReadLines, ChainThen, Rebuilt, AppendAll;
    if b == |t.chains| {
      k' := k;
    } else {
      assert t.chains[b..][1..] == t.chains[b + 1..];
      var mid := ChainReadBack(Rebuilt(t, b), k, b, t.chains[b], num, ChainsThen(t.chains[b + 1..], num, rest));
      RebuiltNext(t, b);
      k' := BucketsRead(t, b + 1, mid, num, rest);
    }
  }

  lemma LastLineThen(r: Reader, more: string)
    requires |r.table.chains| > 0 && !r.done
    ensures ReadLines(r, LAST_LINE + more).table == r.table
  {
    hide ReadLines, ReadPieces;
    ReadLastLine(r);
    ReadsLineFirst(r, LAST_LINE, more);
    DoneReads(ReadPieces(r, LAST_LINE), more);
  }

  // ---------- tasks that do not fit ----------

  /** Longest task that a request's 1024-byte buffer holds with its NUL. */
  const TASK_BUFFER_MAX: nat := 1023

  /** No stored text is longer than the longest task one fgets can deliver. */
  ghost predicate ShortTable(t: Table) {
    forall b, j :: 0 <= b < |t.chains| && 0 <= j < |t.chains[b]| ==> |CStr(t.chains[b][j].bytes)| <= TASK_MAX
  }

  ghost predicate ShortReader(r: Reader) {
    |r.table.chains| > 0 && |r.scan.data| <= TASK_MAX && ShortTable(r.table)
  }

  lemma InsertKeepsShort(t: Table, key: nat, data: string, len: nat)
    requires |t.chains| > 0 && ShortTable(t) && |data| <= TASK_MAX
    ensures ShortTable(Insert(t, key, Padded(data, len)))
  {
    var p := Padded(data, len);
    if len > |data| {
      assert p[|data|] == '\0';
      CStrStops(p, |data|);
    }
    hide CStr, Padded;
  }

  lemma DataIsShort(line: string)
    requires |line| < LINE_MAX || ("Data: " <= line && |line| == LINE_MAX)
    ensures |ScanData(line)| <= TASK_MAX
  {
    hide Until;
    if "Data: " <= line {
      LabelBlank("Data: ", line);
      BlankIsSkipped(line[5..]);
    }
    hide SkipSpace;
  }

  lemma LabelBlank(p: string, line: string)
    requires p == "Data: " && p <= line
    ensures |line| > 5 && line[5..] != "" && line[5..][0] == ' '
  {
    assert line[5] == p[5];
  }

  lemma BlankIsSkipped(s: string)
    requires s != "" && s[0] == ' '
    ensures |SkipSpace(s)| < |s|
  {
  }

  /** A piece short enough, or one that begins with the printed label and its blank. */
  lemma PieceKeepsShort(r: Reader, raw: string)
    requires ShortReader(r) && |raw| <= LINE_MAX
    requires |raw| < LINE_MAX || "Data: " <= raw
    ensures ShortReader(ReadLine(r, raw))
  {
    hide ReadLine, ScanData, StrToULong, Padded, Insert, CStr, ShortTable;
    var line := CStr(raw);
    LineChanges(r, raw);
    if |line| < LINE_MAX || line == raw {
      DataIsShort(line);
    }
    InsertKeepsShort(r.table, StrToULong(r.scan.keyText), r.scan.data, r.scan.len);
  }

  lemma LineChanges(r: Reader, raw: string)
    requires |r.table.chains| > 0
    ensures var q := ReadLine(r, raw);
      && (q.scan.data == "" || q.scan.data == r.scan.data || q.scan.data == ScanData(CStr(raw)))
      && (q.table == r.table || q.table == Insert(r.table, StrToULong(r.scan.keyText), Padded(r.scan.data, r.scan.len)))
    ensures |CStr(raw)| < |raw| || CStr(raw) == raw
  {
    hide Kind, ScanKey, ScanData, ScanLength, StrToULong, Padded, Insert, CStr;
  }

  /** Every line of an image of tasks that fit their request buffer. */
  lemma LineKeepsShort(r: Reader, line: string)
    requires ShortReader(r)
    requires |line| < LINE_MAX || ("Data: " <= line && |line| < 2 * LINE_MAX)
    ensures ShortReader(ReadPieces(r, line))
  {
    if line != "" && !r.done {
      if |line| <= LINE_MAX {
        PieceKeepsShort(r, line);
      } else {
        var head, tail := line[..LINE_MAX], line[LINE_MAX..];
        assert "Data: " <= head;
        PieceKeepsShort(r, head);
        var q := ReadLine(r, head);
        if !q.done {
          PieceKeepsShort(q, tail);
        }
        hide ReadLine, ShortReader;
        assert ReadPieces(r, line) == ReadPieces(q, tail);
      }
    }
  }

  ghost predicate Clean(e: Entry) {
    CleanTask(e.bytes) && |e.bytes| <= TASK_BUFFER_MAX && 0 < e.key <= ULONG_MAX
  }

  /** The lines of one entry are text lines of the right lengths. */
  lemma EntryLines(e: Entry, num: Status -> int)
    requires Clean(e)
    ensures IsLine(KeyLine(e.key)) && |KeyLine(e.key)| < LINE_MAX
    ensures IsLine(DataLine(e.bytes)) && "Data: " <= DataLine(e.bytes) && |DataLine(e.bytes)| < 2 * LINE_MAX
    ensures IsLine(LengthLine(|e.bytes|)) && |LengthLine(|e.bytes|)| < LINE_MAX
    ensures IsLine(StatusLine(Int32(num(e.status)))) && |StatusLine(Int32(num(e.status)))| < LINE_MAX
    ensures IsLine(END_LINE)
  {
    hide KeyLine, LengthLine, StatusLine, DataLine, IsLine, CStr, Dec;
    NumberLines(e.key, |e.bytes|, Int32(num(e.status)));
    DataLineShape(e.bytes);
    LineShape("DATA_END", "");
    assert "DATA_END" + "" + "\r\n" == END_LINE;
  }

  lemma DataLineShape(s: string)
    requires CleanTask(s) && |s| <= TASK_BUFFER_MAX
    ensures IsLine(DataLine(s)) && "Data: " <= DataLine(s) && |DataLine(s)| < 2 * LINE_MAX
  {
    hide CStr;
    LineShape("Data: ", s);
    hide IsLine;
    var p := "Data: ";
    PrefixSplit(p, s + "\r\n");
    assert DataLine(s) == p + (s + "\r\n");
  }

  lemma NumberLines(key: nat, len: nat, v: int)
    requires key <= ULONG_MAX && len <= ULONG_MAX && LONG_MIN <= v <= LONG_MAX
    ensures IsLine(KeyLine(key)) && |KeyLine(key)| < LINE_MAX
    ensures IsLine(LengthLine(len)) && |LengthLine(len)| < LINE_MAX
    ensures IsLine(StatusLine(v)) && |StatusLine(v)| < LINE_MAX
  {
    DecShort(key, 20);
    DecShort(len, 20);
    IntTextShort(v);
    hide Dec, CStr, IntText;
    LineShape("Key: ", Dec(key));
    LineShape("data_len: ", Dec(len));
    LineShape("Status: ", IntText(v));
    hide IsLine;
  }

  lemma EntryKeepsShort(r: Reader, e: Entry, num: Status -> int, rest: string) returns (q: Reader)
    requires ShortReader(r) && Clean(e)
    ensures ShortReader(q) && |q.table.chains| == |r.table.chains|
    ensures ReadLines(r, EntryThen(e, num, rest)) == ReadLines(q, rest)
  {
    EntryLines(e, num);
    HasBuckets(r);
    hide ReadLines, ReadPieces, ShortReader, KeyLine, DataLine, LengthLine, StatusLine, IsLine, Clean;
    var v := Int32(num(e.status));
    var status := StatusLine(v) + (END_LINE + rest);
    var length := LengthLine(|e.bytes|) + status;
    var a := ReadPieces(r, KeyLine(e.key));
    LineKeepsShort(r, KeyLine(e.key));
    ReadsLineFirst(r, KeyLine(e.key), DataLine(e.bytes) + length);
    var b := ReadPieces(a, DataLine(e.bytes));
    LineKeepsShort(a, DataLine(e.bytes));
    ReadsLineFirst(a, DataLine(e.bytes), length);
    var c := ReadPieces(b, LengthLine(|e.bytes|));
    LineKeepsShort(b, LengthLine(|e.bytes|));
    ReadsLineFirst(b, LengthLine(|e.bytes|), status);
    var d := ReadPieces(c, StatusLine(v));
    LineKeepsShort(c, StatusLine(v));
    ReadsLineFirst(c, StatusLine(v), END_LINE + rest);
    q := ReadPieces(d, END_LINE);
    LineKeepsShort(d, END_LINE);
    ReadsLineFirst(d, END_LINE, rest);
  }

  lemma HasBuckets(r: Reader)
    requires ShortReader(r)
    ensures |r.table.chains| > 0
  {
  }

  lemma {:induction false} ChainKeepsShort(r: Reader, c: seq<Entry>, num: Status -> int, rest: string)
    returns (q: Reader)
    requires ShortReader(r) && forall j :: 0 <= j < |c| ==> Clean(c[j])
    ensures ShortReader(q) && |q.table.chains| == |r.table.chains| > 0
    ensures ReadLines(r, ChainThen(c, num, rest)) == ReadLines(q, rest)
    decreases |c|
  {
    HasBuckets(r);
    hide ReadLines, EntryThen, ShortReader, Clean;
    if c == [] {
      q := r;
    } else {
      var s := EntryKeepsShort(r, c[0], num, ChainThen(c[1..], num, rest));
      q := ChainKeepsShort(s, c[1..], num, rest);
    }
  }

  lemma {:induction false} ChainsKeepShort(r: Reader, chains: seq<seq<Entry>>, num: Status -> int)
    requires ShortReader(r)
    requires forall b, j :: 0 <= b < |chains| && 0 <= j < |chains[b]| ==> Clean(chains[b][j])
    ensures |r.table.chains| > 0 && ShortTable(ReadLines(r, ChainsThen(chains, num, LAST_LINE)).table)
    decreases |chains|
  {
    HasBuckets(r);
    hide ReadLines, ChainThen, ShortReader, Clean;
    if chains == [] {
      IsShort(r);
      if r.done {
        DoneReads(r, LAST_LINE);
      } else {
        LastLineReadBack(r);
      }
    } else {
      var q := ChainKeepsShort(r, chains[0], num, ChainsThen(chains[1..], num, LAST_LINE));
      ChainsKeepShort(q, chains[1..], num);
    }
  }

  lemma IsShort(r: Reader)
    requires ShortReader(r)
    ensures ShortTable(r.table)
  {
  }

  lemma DoneReads(r: Reader, text: string)
    requires |r.table.chains| > 0 && r.done
    ensures ReadLines(r, text) == r
  {
  }

  /** For tables of tasks as requests carry them, export and import are inverse (up to status)
      exactly when every task has at most 1017 characters: of a longer one the image delivers
      only a part. */
  lemma RoundTripIff(t: Table, num: Status -> int)
    requires Wf(t)
    requires forall b, j :: 0 <= b < |t.chains| && 0 <= j < |t.chains[b]| ==> Clean(t.chains[b][j])
    ensures Import(|t.chains|, Export(t, num)) == Erase(t) <==>
      forall b, j :: 0 <= b < |t.chains| && 0 <= j < |t.chains[b]| ==> |t.chains[b][j].bytes| <= TASK_MAX
  {
    if forall b, j :: 0 <= b < |t.chains| && 0 <= j < |t.chains[b]| ==> |t.chains[b][j].bytes| <= TASK_MAX {
      RoundTrip(t, num);
    } else {
      var b, j :| 0 <= b < |t.chains| && 0 <= j < |t.chains[b]| && |t.chains[b][j].bytes| > TASK_MAX;
      var r := Reader(Empty(|t.chains|), START, false);
      ChainsKeepShort(r, t.chains, num);
      hide ReadLines;
      assert Clean(t.chains[b][j]);
      assert Erase(t).chains[b][j].bytes == t.chains[b][j].bytes;
      assert CStr(t.chains[b][j].bytes) == t.chains[b][j].bytes;
    }
  }
}
