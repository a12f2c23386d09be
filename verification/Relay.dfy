/** The command relay: the manager prints a command, a factory parses it and prints another
    message, and a server parses that (src/replication_manager.c, src/factory.c, src/server.c). */
module Relay {
  import opened Types
  import opened Text
  import opened SockReader
  import opened ManagerSpec

  // ---------- key-value messages ----------

  datatype Field = Field(key: string, value: string)

  /** MAX_REQ_FIELDS */
  const FIELDS_MAX: nat := 20

  function Line(f: Field): string { f.key + ": " + f.value + "\r\n" }

  /** A message followed by whatever comes next on the connection. */
  function Render(fs: seq<Field>, rest: string): string {
    if fs == [] then "\r\n" + rest else Line(fs[0]) + Render(fs[1..], rest)
  }

  /** sscanf with "%[^:]: %[^\r\n]": both parts must be non-empty. */
  function ScanField(raw: string): Option<Field> {
    var line := CStr(raw);
    var key := Until(line, {':'});
    if key == "" || |key| == |line| then None
    else
      var value := Until(SkipSpace(line[|key| + 1..]), {'\r', '\n'});
      if value == "" then None else Some(Field(key, value))
  }

  /** The reading loop: fields up to an empty line; None when the connection ends first, a line
      is malformed or there are too many of them. */
  function ParseMsg(stream: string, count: nat): Option<seq<Field>>
    decreases |stream|
  {
    var line := NextLine(stream, MAXMSGSIZE);
    if line == "" then None
    else if line == "\r\n" then Some([])
    else if count >= FIELDS_MAX then None
    else match ScanField(line)
      case None => None
      case Some(f) =>
        match ParseMsg(stream[|line|..], count + 1)
        case None => None
        case Some(fs) => Some([f] + fs)
  }

  predicate Plain(s: string) {
    forall i :: 0 <= i < |s| ==> s[i] != '\r' && s[i] != '\n' && s[i] != '\0'
  }

  /** A field that survives printing and scanning. */
  predicate Good(f: Field) {
    && f.key != "" && f.value != "" && Plain(f.key) && Plain(f.value)
    && ':' !in f.key && !IsSpace(f.value[0])
    && |f.key| + |f.value| + 4 <= MAXMSGSIZE
  }

  lemma ScanBack(f: Field)
    requires Good(f)
    ensures ScanField(Line(f)) == Some(f)
  {
    hide Until, SkipSpace, CStr;
    var field := f.value + "\r\n";
    NoNulLine(f);
    LineParts(f.key, f.value);
    UntilStop(f.key, ": " + field, {':'});
    SkipBlankField(field);
    UntilStop(f.value, "\r\n", {'\r', '\n'});
  }

  lemma LineParts(key: string, value: string)
    ensures var line := Line(Field(key, value));
      line == key + (": " + (value + "\r\n")) && |key| < |line|
      && line[|key| + 1..] == " " + (value + "\r\n")
  {
  }

  lemma NoNulLine(f: Field)
    requires Good(f)
    ensures CStr(Line(f)) == Line(f)
  {
    hide CStr;
    assert forall i :: 0 <= i < |Line(f)| ==> Line(f)[i] != '\0';
  }

  lemma SkipBlankField(s: string)
    requires s != "" && !IsSpace(s[0])
    ensures SkipSpace(" " + s) == s
  {
    assert (" " + s)[1..] == s;
    assert SkipSpace(" " + s) == SkipSpace(s);
  }

  lemma LineIsRead(f: Field, rest: string)
    requires Good(f)
    ensures NextLine(Line(f) + rest, MAXMSGSIZE) == Line(f)
    ensures (Line(f) + rest)[|Line(f)|..] == rest
    ensures Line(f) != "\r\n" && Line(f) != ""
  {
    var body := f.key + ": " + f.value + "\r";
    assert Line(f) == body + "\n";
    assert forall i :: 0 <= i < |body| ==> body[i] != '\n';
    NextLineEnds(body, rest, MAXMSGSIZE);
    hide NextLine;
    assert |Line(f)| > 2;
  }

  /** A printed message is read back field by field. */
  lemma {:induction false} ReadBack(fs: seq<Field>, rest: string, count: nat)
    requires forall i :: 0 <= i < |fs| ==> Good(fs[i])
    requires count + |fs| <= FIELDS_MAX
    ensures ParseMsg(Render(fs, rest), count) == Some(fs)
    decreases |fs|
  {
    hide NextLine, ScanField, Line, Good;
    if fs == [] {
      EmptyLineIsRead(rest);
    } else {
      var f, more := fs[0], fs[1..];
      LineIsRead(f, Render(more, rest));
      ScanBack(f);
      ReadBack(more, rest, count + 1);
      assert [f] + more == fs;
    }
  }

  lemma EmptyLineIsRead(rest: string)
    ensures NextLine("\r\n" + rest, MAXMSGSIZE) == "\r\n"
  {
    NextLineEnds("\r", rest, MAXMSGSIZE);
    assert "\r" + "\n" == "\r\n" && "\r" + "\n" + rest == "\r\n" + rest;
    hide NextLine;
  }

  /** A message of more fields than the limit is refused, one within it is read back. */
  lemma {:induction false} ReadBackIff(fs: seq<Field>, rest: string, count: nat)
    requires count <= FIELDS_MAX && forall i :: 0 <= i < |fs| ==> Good(fs[i])
    ensures ParseMsg(Render(fs, rest), count) == if count + |fs| <= FIELDS_MAX then Some(fs) else None
    decreases |fs|
  {
    hide NextLine, ScanField, Line, Good;
    if count + |fs| <= FIELDS_MAX {
      ReadBack(fs, rest, count);
    } else {
      LineIsRead(fs[0], Render(fs[1..], rest));
      if count < FIELDS_MAX {
        ScanBack(fs[0]);
        ReadBackIff(fs[1..], rest, count + 1);
      }
    }
  }

  lemma {:induction false} NoLineEnd(s: string, limit: nat)
    requires '\n' !in s && |s| <= limit
    ensures NextLine(s, limit) == s
    decreases |s|
  {
    if s != "" {
      NoLineEnd(s[1..], limit - 1);
    }
  }

  lemma ParsesNothing(stream: string, count: nat)
    requires '\n' !in stream && |stream| <= MAXMSGSIZE
    ensures ParseMsg(stream, count) == None
  {
    hide ScanField;
    NoLineEnd(stream, MAXMSGSIZE);
    assert stream[|stream|..] == "";
    assert ParseMsg("", count + 1) == None by {
      NoLineEnd("", MAXMSGSIZE);
    }
    assert "\r\n"[1] == '\n';
  }

  /** A message whose connection ends before the empty line is never acted on, however much of it has
      arrived. */
  lemma {:induction false} CutOffIsDropped(fs: seq<Field>, k: nat, count: nat)
    requires k < |Render(fs, "")| && forall i :: 0 <= i < |fs| ==> Good(fs[i])
    ensures ParseMsg(Render(fs, "")[..k], count) == None
    decreases |fs|
  {
    hide NextLine, ScanField, Line, Good;
    if fs == [] {
      assert "\r\n" + "" == "\r\n";
      assert forall i :: 0 <= i < k ==> "\r\n"[..k][i] == '\r';
      ParsesNothing("\r\n"[..k], count);
    } else {
      var line, more := Line(fs[0]), Render(fs[1..], "");
      var cut := (line + more)[..k];
      LineEndsOnce(fs[0]);
      if k < |line| {
        assert cut == line[..k];
        ParsesNothing(cut, count);
      } else {
        assert cut == line + more[..k - |line|];
        LineIsRead(fs[0], more[..k - |line|]);
        CutOffIsDropped(fs[1..], k - |line|, count + 1);
      }
    }
  }

  lemma LineEndsOnce(f: Field)
    requires Good(f)
    ensures |Line(f)| <= MAXMSGSIZE && forall k :: 0 <= k < |Line(f)| ==> '\n' !in Line(f)[..k]
  {
    var line := Line(f);
    assert forall i :: 0 <= i < |line| - 1 ==> line[i] != '\n';
  }

  // ---------- hop 1: the manager prints, the factory parses ----------

  function ModeCode(m: Mode): int {
    match m case UnknownRep => 0 case ActiveRep => 1 case PassiveRep => 2
  }

  function StateCode(s: State): int {
    match s
    case UnknownState => 0
    case Quiesce => 1
    case ActiveRunning => 2
    case ActiveRecover => 3
    case PassivePrimary => 4
    case PassiveBackup => 5
    case PassivePreprimary => 6
  }

  function ReqCode(c: Cmd): int {
    match c
    case Startup => 0
    case ChangeState(_) => 1
    case SendChkpt => 2
    case QuiesceBegin => 3
    case QuiesceStop => 4
  }

  function Num(key: string, v: int): Field { Field(key, IntText(v)) }

  /** The checkpoint fields travel with a promotion and with ACTIVE_RUNNING. */
  predicate CarriesPeers(state: State) {
    state == PassivePreprimary || state == ActiveRunning
  }

  function PeerFields(freq: int, p1: Peer, p2: Peer): seq<Field> {
    [Num("Checkpoint freq", freq), Num("Replica 1 ID", p1.id), Field("Replica 1 IP", p1.ip),
     Num("Replica 1 Port", p1.port), Num("Replica 2 ID", p2.id), Field("Replica 2 IP", p2.ip),
     Num("Replica 2 Port", p2.port)]
  }

  /** What the manager writes to the factory of replica r; `own` is the address it knows for the
      replica's server. */
  function ManagerFields(r: int, cmd: Cmd, own: Peer): seq<Field> {
    [Num("Replica ID", r), Num("Factory Req", ReqCode(cmd))]
    + match cmd
      case Startup => [Field("Server IP", own.ip), Num("Server Port", own.port)]
      case ChangeState(msg) =>
        [Num("REP MODE", ModeCode(msg.mode)), Num("Server State", StateCode(msg.state))]
        + if CarriesPeers(msg.state) then PeerFields(msg.freq, msg.peer1, msg.peer2) else []
      case _ => []
  }

  /** What a client's request carries besides its type, and the length of a payload. */
  datatype Body = Body(
    client: int, reqNo: int, task: string, date: string, status: int, key: nat, size: nat)

  /** factory_message, and client_ctx_t with the parts of its request. */
  datatype Record = Record(
    replicaId: int, req: int, msgType: int, mode: int, state: int, freq: int,
    id1: int, ip1: string, port1: int, id2: int, ip2: string, port2: int, body: Body)

  function SetNum(o: Option<int>, f: int -> Record): Option<Record> {
    match o case None => None case Some(v) => Some(f(v))
  }

  /** parse_rep_manager_kv: one field into the message; unknown keys are ignored. */
  function FactoryKv(m: Record, f: Field): Option<Record> {
    var n := StrToInt(f.value);
    if f.key == "Replica ID" then SetNum(n, v => m.(replicaId := v))
    else if f.key == "Factory Req" then SetNum(n, v => m.(req := v))
    else if f.key == "REP MODE" then SetNum(n, v => m.(mode := v))
    else if f.key == "Server State" then SetNum(n, v => m.(state := v))
    else PeerKv(m, f)
  }

  const PEER_KEYS: set<string> := {"Replica 1 ID", "Replica 1 IP", "Replica 1 Port", "Replica 2 ID", "Replica 2 IP",
                                   "Replica 2 Port", "Checkpoint freq"}

  /** The buffer of an address. */
  const ADDRESS_MAX: nat := 1024

  /** What is copied of a value in a buffer of k characters. */
  function Cut(s: string, k: nat): string {
    if |s| <= k then s else s[..k]
  }

  /** The branches on peers and frequency are the same in the factory and in the server. */
  function PeerKv(m: Record, f: Field): Option<Record> {
    var n := StrToInt(f.value);
    if f.key == "Replica 1 ID" then SetNum(n, v => m.(id1 := v))
    else if f.key == "Replica 1 IP" then Some(m.(ip1 := Cut(f.value, ADDRESS_MAX)))
    else if f.key == "Replica 1 Port" then SetNum(n, v => m.(port1 := v))
    else if f.key == "Replica 2 ID" then SetNum(n, v => m.(id2 := v))
    else if f.key == "Replica 2 IP" then Some(m.(ip2 := Cut(f.value, ADDRESS_MAX)))
    else if f.key == "Replica 2 Port" then SetNum(n, v => m.(port2 := v))
    else if f.key == "Checkpoint freq" then SetNum(n, v => m.(freq := v))
    else Some(m)
  }

  // ---------- hop 2: the factory prints, the server parses ----------

  const MSG_REP_MGR := 7
  const MSG_SEND_CHKPT := 8
  const MSG_QUIESCE_START := 9
  const MSG_QUIESCE_STOP := 10

  function ServerHeader(msgType: int): seq<Field> {
    [Num("Client ID", 0), Num("Request No", 0), Num("Message Type", msgType)]
  }

  /** fill_change_state_buf and the other three buffers the factory fills. */
  function FactoryFields(m: Record, msgType: int): seq<Field> {
    if msgType != MSG_REP_MGR then ServerHeader(msgType)
    else
      ServerHeader(msgType) + [Num("REP MODE", m.mode), Num("Server State", m.state)]
      + if m.state == StateCode(PassivePreprimary) || m.state == StateCode(ActiveRunning)
        then PeerFields(m.freq, Peer(m.id1, m.ip1, m.port1), Peer(m.id2, m.ip2, m.port2)) else []
  }

  /** What the factory of replica `own` does with a parsed message. */
  datatype Action = Spawn | SendToServer(text: string) | Nothing

  /** handle_rep_man_command */
  function FactoryAct(m: Record, own: int, rest: string): Action {
    if m.replicaId != own then Nothing
    else if m.req == ReqCode(Startup) then Spawn
    else if m.req == 1 then SendToServer(Render(FactoryFields(m, MSG_REP_MGR), rest))
    else if m.req == ReqCode(SendChkpt) then SendToServer(Render(FactoryFields(m, MSG_SEND_CHKPT), rest))
    else if m.req == ReqCode(QuiesceBegin) then SendToServer(Render(FactoryFields(m, MSG_QUIESCE_START), rest))
    else if m.req == ReqCode(QuiesceStop) then SendToServer(Render(FactoryFields(m, MSG_QUIESCE_STOP), rest))
    else Nothing
  }

  /** What a factory does with the bytes it reads; `junk` is whatever its uninitialised message
      held before. */
  function FactoryHears(text: string, own: int, junk: Record, rest: string): Action {
    match ParseMsg(text, 0)
    case None => Nothing
    case Some(fs) =>
      match Fill(Factory, junk, fs)
      case None => Nothing
      case Some(m) => FactoryAct(m, own, rest)
  }

  /** The request a server starts from. */
  const FRESH := Record(0, 0, 0, 0, 0, DEFAULT_FREQ, DEFAULT_PEER1.id, DEFAULT_PEER1.ip, DEFAULT_PEER1.port,
                        DEFAULT_PEER2.id, DEFAULT_PEER2.ip, DEFAULT_PEER2.port,
                        Body(0, 0, "", "", 0, 0, 0))

  /** The keys of client requests and of the message header. A number is stored in an int; for the
      payload size that is the low half of a 64-bit field that was zero. */
  function BodyKv(m: Record, f: Field): Option<Record> {
    var b, n := m.body, StrToInt(f.value);
    if f.key == "Client ID" then SetNum(n, v => m.(body := b.(client := v)))
    else if f.key == "Message Type" then SetNum(n, v => m.(msgType := v))
    else if f.key == "Task" || f.key == "New Task" then Some(m.(body := b.(task := Cut(f.value, 1024))))
    else if f.key == "Task status" || f.key == "New status" then SetNum(n, v => m.(body := b.(status := v)))
    else if f.key == "Due date" || f.key == "New Date" then Some(m.(body := b.(date := Cut(f.value, 32))))
    else if f.key == "Key" then Some(m.(body := b.(key := StrToULong(f.value))))
    else if f.key == "Request No" then SetNum(n, v => m.(body := b.(reqNo := v)))
    else SetNum(n, v => m.(body := b.(size := v % 0x1_0000_0000)))
  }

  const BODY_KEYS: set<string> := {"Client ID", "Message Type", "Task", "New Task", "Task status", "New status",
                                   "Due date", "New Date", "Key", "Request No", "Data Length"}

  /** parse_kv */
  function ServerKv(m: Record, f: Field): Option<Record> {
    var n := StrToInt(f.value);
    if f.key in BODY_KEYS then BodyKv(m, f)
    else if f.key == "REP MODE" then SetNum(n, v => m.(mode := v))
    else if f.key == "Server State" then SetNum(n, v => m.(state := v))
    else PeerKv(m, f)
  }

  /** The two parsers. */
  datatype Side = Factory | Server

  function Kv(side: Side, m: Record, f: Field): Option<Record> {
    match side case Factory => FactoryKv(m, f) case Server => ServerKv(m, f)
  }

  /** All fields of a message, one after the other; a malformed number ends the parse. */
  function Fill(side: Side, m: Record, fs: seq<Field>): Option<Record>
    decreases |fs|
  {
    if fs == [] then Some(m)
    else match Kv(side, m, fs[0])
      case None => None
      case Some(k) => Fill(side, k, fs[1..])
  }

  function ServerHears(text: string): Option<Record> {
    match ParseMsg(text, 0)
    case None => None
    case Some(fs) => Fill(Server, FRESH, fs)
  }

  // ---------- the round trip ----------

  predicate IsInt32(v: int) { -0x8000_0000 <= v < 0x8000_0000 }

  /** Addresses as the manager keeps them: at most 20 characters, not starting with a blank. */
  predicate GoodIp(ip: string) {
    ip != "" && |ip| <= 20 && Plain(ip) && !IsSpace(ip[0])
  }

  predicate GoodPeer(p: Peer) {
    GoodIp(p.ip) && IsInt32(p.id) && IsInt32(p.port)
  }

  lemma GoodNum(key: string, v: int)
    requires key != "" && Plain(key) && ':' !in key && |key| <= 100
    requires LONG_MIN <= v <= LONG_MAX
    ensures Good(Num(key, v))
  {
    IntTextShort(v);
    hide IntText;
  }

  lemma NumBack(v: int)
    requires IsInt32(v)
    ensures StrToInt(IntText(v)) == Some(v)
  {
    hide StrToInt, IntText;
    StrToIntReadBack(v);
  }

  lemma FirstPeerKvs(m: Record, v: int, s: string)
    requires IsInt32(v) && |s| <= ADDRESS_MAX
    ensures PeerKv(m, Num("Replica 1 ID", v)) == Some(m.(id1 := v))
    ensures PeerKv(m, Num("Replica 1 Port", v)) == Some(m.(port1 := v))
    ensures PeerKv(m, Field("Replica 1 IP", s)) == Some(m.(ip1 := s))
  {
    hide IntText, StrToInt;
    NumBack(v);
  }

  lemma SecondPeerKvs(m: Record, v: int, s: string)
    requires IsInt32(v) && |s| <= ADDRESS_MAX
    ensures PeerKv(m, Num("Replica 2 ID", v)) == Some(m.(id2 := v))
    ensures PeerKv(m, Num("Replica 2 Port", v)) == Some(m.(port2 := v))
    ensures PeerKv(m, Field("Replica 2 IP", s)) == Some(m.(ip2 := s))
  {
    hide IntText, StrToInt;
    NumBack(v);
  }

  lemma FreqKv(m: Record, v: int)
    requires LONG_MIN <= v <= LONG_MAX
    ensures PeerKv(m, Num("Checkpoint freq", v)) == if v == LONG_MIN then None else Some(m.(freq := Int32(v)))
  {
    hide IntText, StrToInt;
    StrToIntReadBack(v);
  }

  /** Keys of the peer block pass the earlier branches of both parsers. */
  lemma PeerKeysPass(m: Record, f: Field)
    requires f.key in PEER_KEYS
    ensures FactoryKv(m, f) == PeerKv(m, f) && ServerKv(m, f) == PeerKv(m, f)
  {
    hide PeerKv, StrToInt;
  }

  lemma FactoryKvs(m: Record, v: int)
    requires IsInt32(v)
    ensures FactoryKv(m, Num("Replica ID", v)) == Some(m.(replicaId := v))
    ensures FactoryKv(m, Num("Factory Req", v)) == Some(m.(req := v))
    ensures FactoryKv(m, Num("REP MODE", v)) == Some(m.(mode := v))
    ensures FactoryKv(m, Num("Server State", v)) == Some(m.(state := v))
  {
    hide IntText, StrToInt;
    NumBack(v);
  }

  lemma ServerKvs(m: Record, v: int)
    requires IsInt32(v)
    ensures ServerKv(m, Num("Client ID", v)) == Some(m.(body := m.body.(client := v)))
    ensures ServerKv(m, Num("Request No", v)) == Some(m.(body := m.body.(reqNo := v)))
    ensures ServerKv(m, Num("Message Type", v)) == Some(m.(msgType := v))
    ensures ServerKv(m, Num("REP MODE", v)) == Some(m.(mode := v))
    ensures ServerKv(m, Num("Server State", v)) == Some(m.(state := v))
  {
    hide IntText, StrToInt;
    NumBack(v);
  }

  lemma FillOne(side: Side, m: Record, f: Field, rest: seq<Field>, k: Record)
    requires Kv(side, m, f) == Some(k)
    ensures Fill(side, m, [f] + rest) == Fill(side, k, rest)
  {
    assert ([f] + rest)[0] == f && ([f] + rest)[1..] == rest;
    hide Kv;
  }

  function WithPeers(m: Record, freq: int, p1: Peer, p2: Peer): Record {
    m.(freq := freq, id1 := p1.id, ip1 := p1.ip, port1 := p1.port, id2 := p2.id, ip2 := p2.ip, port2 := p2.port)
  }

  lemma PeerPart(side: Side, m: Record, f: Field)
    requires f.key in PEER_KEYS
    ensures Kv(side, m, f) == PeerKv(m, f)
  {
    PeerKeysPass(m, f);
    hide PeerKv, FactoryKv, ServerKv;
  }

  /** Reading back the first and the second peer. */
  lemma FillPeer1(side: Side, m: Record, p: Peer, rest: seq<Field>)
    requires GoodPeer(p)
    ensures Fill(side, m, [Num("Replica 1 ID", p.id)]
                          + ([Field("Replica 1 IP", p.ip)] + ([Num("Replica 1 Port", p.port)] + rest)))
         == Fill(side, m.(id1 := p.id, ip1 := p.ip, port1 := p.port), rest)
  {
    hide Kv, PeerKv, Fill, IntText;
    var f1, f2, f3 := Num("Replica 1 ID", p.id), Field("Replica 1 IP", p.ip), Num("Replica 1 Port", p.port);
    var m1 := m.(id1 := p.id);
    var m2 := m1.(ip1 := p.ip);
    FirstPeerKvs(m, p.id, p.ip);
    FirstPeerKvs(m1, p.id, p.ip);
    FirstPeerKvs(m2, p.port, p.ip);
    PeerPart(side, m, f1);
    PeerPart(side, m1, f2);
    PeerPart(side, m2, f3);
    FillOne(side, m, f1, [f2] + ([f3] + rest), m1);
    FillOne(side, m1, f2, [f3] + rest, m2);
    FillOne(side, m2, f3, rest, m2.(port1 := p.port));
  }

  lemma FillPeer2(side: Side, m: Record, p: Peer)
    requires GoodPeer(p)
    ensures Fill(side, m, [Num("Replica 2 ID", p.id)]
                          + ([Field("Replica 2 IP", p.ip)] + ([Num("Replica 2 Port", p.port)] + [])))
         == Some(m.(id2 := p.id, ip2 := p.ip, port2 := p.port))
  {
    var m3 := m.(id2 := p.id, ip2 := p.ip, port2 := p.port);
    assert Fill(side, m3, []) == Some(m3);
    hide Kv, PeerKv, Fill, IntText;
    var f1, f2, f3 := Num("Replica 2 ID", p.id), Field("Replica 2 IP", p.ip), Num("Replica 2 Port", p.port);
    var m1 := m.(id2 := p.id);
    var m2 := m1.(ip2 := p.ip);
    SecondPeerKvs(m, p.id, p.ip);
    SecondPeerKvs(m1, p.id, p.ip);
    SecondPeerKvs(m2, p.port, p.ip);
    PeerPart(side, m, f1);
    PeerPart(side, m1, f2);
    PeerPart(side, m2, f3);
    FillOne(side, m, f1, [f2] + ([f3] + []), m1);
    FillOne(side, m1, f2, [f3] + [], m2);
    FillOne(side, m2, f3, [], m3);
  }

  /** The peer block of either message fills the seven fields, unless the frequency is LONG_MIN. */
  lemma FillPeers(side: Side, m: Record, freq: int, p1: Peer, p2: Peer)
    requires GoodPeer(p1) && GoodPeer(p2) && LONG_MIN <= freq <= LONG_MAX
    ensures Fill(side, m, PeerFields(freq, p1, p2))
         == if freq == LONG_MIN then None else Some(WithPeers(m, Int32(freq), p1, p2))
  {
    var second := [Num("Replica 2 ID", p2.id)]
                  + ([Field("Replica 2 IP", p2.ip)] + ([Num("Replica 2 Port", p2.port)] + []));
    var first := [Num("Replica 1 ID", p1.id)]
                 + ([Field("Replica 1 IP", p1.ip)] + ([Num("Replica 1 Port", p1.port)] + second));
    var f := Num("Checkpoint freq", freq);
    assert PeerFields(freq, p1, p2) == [f] + first;
    FreqKv(m, freq);
    PeerPart(side, m, f);
    if freq == LONG_MIN {
      assert ([f] + first)[0] == f;
      hide Kv, PeerKv;
    } else {
      hide Kv, PeerKv, Fill, IntText;
      var m1 := m.(freq := Int32(freq));
      FillOne(side, m, f, first, m1);
      FillPeer1(side, m1, p1, second);
      FillPeer2(side, m1.(id1 := p1.id, ip1 := p1.ip, port1 := p1.port), p2);
    }
  }

  /** The heads of the messages. */
  lemma FillFactoryHead(m: Record, r: int, req: int, rest: seq<Field>)
    requires IsInt32(r) && IsInt32(req)
    ensures Fill(Factory, m, [Num("Replica ID", r), Num("Factory Req", req)] + rest)
         == Fill(Factory, m.(replicaId := r, req := req), rest)
  {
    hide FactoryKv, Fill, IntText;
    var f, g := Num("Replica ID", r), Num("Factory Req", req);
    FactoryKvs(m, r);
    FactoryKvs(m.(replicaId := r), req);
    FillOne(Factory, m, f, [g] + rest, m.(replicaId := r));
    FillOne(Factory, m.(replicaId := r), g, rest, m.(replicaId := r, req := req));
    assert [f, g] + rest == [f] + ([g] + rest);
  }

  lemma FillModeState(side: Side, m: Record, mode: int, state: int, rest: seq<Field>)
    requires IsInt32(mode) && IsInt32(state)
    ensures Fill(side, m, [Num("REP MODE", mode), Num("Server State", state)] + rest)
         == Fill(side, m.(mode := mode, state := state), rest)
  {
    hide FactoryKv, ServerKv, Fill, IntText;
    var f, g := Num("REP MODE", mode), Num("Server State", state);
    FactoryKvs(m, mode);
    ServerKvs(m, mode);
    FactoryKvs(m.(mode := mode), state);
    ServerKvs(m.(mode := mode), state);
    FillOne(side, m, f, [g] + rest, m.(mode := mode));
    FillOne(side, m.(mode := mode), g, rest, m.(mode := mode, state := state));
    assert [f, g] + rest == [f] + ([g] + rest);
  }

  /** A server's request after the header of a control message. */
  function Headed(m: Record, msgType: int): Record {
    m.(msgType := msgType, body := m.body.(client := 0, reqNo := 0))
  }

  lemma FillServerHead(m: Record, msgType: int, rest: seq<Field>)
    requires IsInt32(msgType)
    ensures Fill(Server, m, ServerHeader(msgType) + rest) == Fill(Server, Headed(m, msgType), rest)
  {
    hide ServerKv, Fill, IntText;
    var f, g, h := Num("Client ID", 0), Num("Request No", 0), Num("Message Type", msgType);
    var m1 := m.(body := m.body.(client := 0));
    var m2 := m1.(body := m1.body.(reqNo := 0));
    ServerKvs(m, 0);
    ServerKvs(m1, 0);
    ServerKvs(m2, msgType);
    FillOne(Server, m, f, [g] + ([h] + rest), m1);
    FillOne(Server, m1, g, [h] + rest, m2);
    FillOne(Server, m2, h, rest, m2.(msgType := msgType));
    assert ServerHeader(msgType) + rest == [f] + ([g] + ([h] + rest));
  }

  // ---------- every field of a message survives ----------

  ghost predicate AllGood(fs: seq<Field>) {
    forall i :: 0 <= i < |fs| ==> Good(fs[i])
  }

  lemma GoodPeersBlock(freq: int, p1: Peer, p2: Peer)
    requires GoodPeer(p1) && GoodPeer(p2) && LONG_MIN <= freq <= LONG_MAX
    ensures AllGood(PeerFields(freq, p1, p2))
  {
    hide IntText, Num;
    GoodNum("Checkpoint freq", freq);
    GoodNum("Replica 1 ID", p1.id);
    GoodNum("Replica 1 Port", p1.port);
    GoodNum("Replica 2 ID", p2.id);
    GoodNum("Replica 2 Port", p2.port);
    GoodText("Replica 1 IP", p1.ip);
    GoodText("Replica 2 IP", p2.ip);
    hide Good;
  }

  lemma GoodText(key: string, ip: string)
    requires key != "" && Plain(key) && ':' !in key && |key| <= 100 && GoodIp(ip)
    ensures Good(Field(key, ip))
  {
  }

  lemma GoodModeState(mode: int, state: int)
    requires IsInt32(mode) && IsInt32(state)
    ensures AllGood([Num("REP MODE", mode), Num("Server State", state)])
  {
    hide IntText, Num;
    GoodNum("REP MODE", mode);
    GoodNum("Server State", state);
    hide Good;
  }

  lemma GoodFactoryHead(r: int, req: int)
    requires IsInt32(r) && IsInt32(req)
    ensures AllGood([Num("Replica ID", r), Num("Factory Req", req)])
  {
    hide IntText, Num;
    GoodNum("Replica ID", r);
    GoodNum("Factory Req", req);
    hide Good;
  }

  lemma GoodServerHead(msgType: int)
    requires IsInt32(msgType)
    ensures AllGood(ServerHeader(msgType))
  {
    hide IntText, Num;
    GoodNum("Client ID", 0);
    GoodNum("Request No", 0);
    GoodNum("Message Type", msgType);
    hide Good;
  }

  /** Addresses as the manager keeps them, which may be empty. */
  predicate Address(ip: string) {
    ip == "" || GoodIp(ip)
  }

  predicate Reachable(p: Peer) {
    Address(p.ip) && IsInt32(p.id) && IsInt32(p.port)
  }

  /** A command as the manager can hold it. */
  predicate Sendable(cmd: Cmd, own: Peer) {
    match cmd
    case Startup => Reachable(own)
    case ChangeState(msg) =>
      CarriesPeers(msg.state) ==> Reachable(msg.peer1) && Reachable(msg.peer2) && LONG_MIN <= msg.freq <= LONG_MAX
    case _ => true
  }

  /** A command that carries no empty address. */
  predicate Complete(cmd: Cmd, own: Peer) {
    match cmd
    case Startup => GoodPeer(own)
    case ChangeState(msg) =>
      CarriesPeers(msg.state) ==> GoodPeer(msg.peer1) && GoodPeer(msg.peer2) && LONG_MIN <= msg.freq <= LONG_MAX
    case _ => true
  }

  lemma ManagerFieldsGood(r: int, cmd: Cmd, own: Peer)
    requires IsInt32(r) && Complete(cmd, own)
    ensures AllGood(ManagerFields(r, cmd, own)) && |ManagerFields(r, cmd, own)| <= FIELDS_MAX
  {
    hide Good, IntText, GoodIp;
    GoodFactoryHead(r, ReqCode(cmd));
    match cmd
    case Startup =>
      GoodText("Server IP", own.ip);
      GoodNum("Server Port", own.port);
    case ChangeState(msg) =>
      GoodModeState(ModeCode(msg.mode), StateCode(msg.state));
      if CarriesPeers(msg.state) {
        GoodPeersBlock(msg.freq, msg.peer1, msg.peer2);
      }
    case _ =>
  }

  lemma FactoryFieldsGood(m: Record, msgType: int)
    requires IsInt32(msgType) && (msgType == MSG_REP_MGR ==> Printable(m))
    ensures AllGood(FactoryFields(m, msgType)) && |FactoryFields(m, msgType)| <= FIELDS_MAX
  {
    GoodServerHead(msgType);
    if msgType == MSG_REP_MGR {
      GoodModeState(m.mode, m.state);
      if m.state == 6 || m.state == 2 {
        GoodPeersBlock(m.freq, Peer(m.id1, m.ip1, m.port1), Peer(m.id2, m.ip2, m.port2));
      }
    }
    hide Good, IntText;
  }

  /** A role change the factory can print so that it is read back. */
  predicate Printable(m: Record) {
    IsInt32(m.mode) && IsInt32(m.state) && (m.state == 6 || m.state == 2 ==>
      GoodPeer(Peer(m.id1, m.ip1, m.port1)) && GoodPeer(Peer(m.id2, m.ip2, m.port2)) && IsInt32(m.freq))
  }

  // ---------- both hops ----------

  /** The factory's message after parsing what the manager printed. */
  function Parsed(junk: Record, r: int, cmd: Cmd): Record {
    var head := junk.(replicaId := r, req := ReqCode(cmd));
    match cmd
    case ChangeState(msg) =>
      var k := head.(mode := ModeCode(msg.mode), state := StateCode(msg.state));
      if CarriesPeers(msg.state) then WithPeers(k, Int32(msg.freq), msg.peer1, msg.peer2) else k
    case _ => head
  }

  /** The one command text a factory cannot read back: a frequency of LONG_MIN. */
  predicate Unreadable(cmd: Cmd) {
    cmd.ChangeState? && CarriesPeers(cmd.msg.state) && cmd.msg.freq == LONG_MIN
  }

  lemma FillNothing(side: Side, m: Record)
    ensures Fill(side, m, []) == Some(m)
  {
  }

  lemma IgnoredKeys(m: Record, f: Field, g: Field)
    requires f.key == "Server IP" && g.key == "Server Port"
    ensures Fill(Factory, m, [f, g]) == Some(m)
  {
    assert Kv(Factory, m, f) == Some(m) == Kv(Factory, m, g);
    assert [f, g] == [f] + ([g] + []);
    FillOne(Factory, m, f, [g] + [], m);
    FillOne(Factory, m, g, [], m);
    FillNothing(Factory, m);
  }

  lemma FactoryParses(junk: Record, r: int, cmd: Cmd, own: Peer)
    requires IsInt32(r) && Complete(cmd, own)
    ensures Fill(Factory, junk, ManagerFields(r, cmd, own))
         == if Unreadable(cmd) then None else Some(Parsed(junk, r, cmd))
  {
    hide Fill, Kv, PeerFields, GoodPeer;
    var head := junk.(replicaId := r, req := ReqCode(cmd));
    match cmd
    case Startup =>
      FillFactoryHead(junk, r, 0, [Field("Server IP", own.ip), Num("Server Port", own.port)]);
      IgnoredKeys(head, Field("Server IP", own.ip), Num("Server Port", own.port));
    case ChangeState(msg) =>
      var peers := if CarriesPeers(msg.state) then PeerFields(msg.freq, msg.peer1, msg.peer2) else [];
      var ms := [Num("REP MODE", ModeCode(msg.mode)), Num("Server State", StateCode(msg.state))];
      FillFactoryHead(junk, r, 1, ms + peers);
      FillModeState(Factory, head, ModeCode(msg.mode), StateCode(msg.state), peers);
      var k := head.(mode := ModeCode(msg.mode), state := StateCode(msg.state));
      if CarriesPeers(msg.state) {
        FillPeers(Factory, k, msg.freq, msg.peer1, msg.peer2);
      } else {
        FillNothing(Factory, k);
      }
    case _ =>
      FillFactoryHead(junk, r, ReqCode(cmd), []);
      FillNothing(Factory, head);
  }

  /** What the server of replica r knows after the relay of a command that is not a start-up. */
  function Told(cmd: Cmd): Record
    requires !cmd.Startup?
  {
    match cmd
    case ChangeState(msg) =>
      var k := FRESH.(msgType := MSG_REP_MGR, mode := ModeCode(msg.mode), state := StateCode(msg.state));
      if CarriesPeers(msg.state) then WithPeers(k, Int32(msg.freq), msg.peer1, msg.peer2) else k
    case SendChkpt => FRESH.(msgType := MSG_SEND_CHKPT)
    case QuiesceBegin => FRESH.(msgType := MSG_QUIESCE_START)
    case QuiesceStop => FRESH.(msgType := MSG_QUIESCE_STOP)
  }

  lemma ServerParses(junk: Record, r: int, cmd: Cmd)
    requires !cmd.Startup? && Complete(cmd, DEFAULT_PEER2) && !Unreadable(cmd)
    ensures Fill(Server, FRESH, FactoryFields(Parsed(junk, r, cmd), Told(cmd).msgType)) == Some(Told(cmd))
  {
    hide Fill, Kv, PeerFields, GoodPeer, ServerHeader;
    var m, t := Parsed(junk, r, cmd), Told(cmd).msgType;
    var head := Headed(FRESH, t);
    assert head == FRESH.(msgType := t);
    if cmd.ChangeState? {
      var msg := cmd.msg;
      var carries := m.state == StateCode(PassivePreprimary) || m.state == StateCode(ActiveRunning);
      assert carries == CarriesPeers(msg.state);
      var peers := if carries then PeerFields(m.freq, Peer(m.id1, m.ip1, m.port1), Peer(m.id2, m.ip2, m.port2)) else [];
      var ms := [Num("REP MODE", m.mode), Num("Server State", m.state)];
      assert FactoryFields(m, t) == ServerHeader(t) + (ms + peers);
      FillServerHead(FRESH, t, ms + peers);
      FillModeState(Server, head, m.mode, m.state, peers);
      var k := head.(mode := m.mode, state := m.state);
      if carries {
        FillPeers(Server, k, m.freq, Peer(m.id1, m.ip1, m.port1), Peer(m.id2, m.ip2, m.port2));
      } else {
        FillNothing(Server, k);
      }
    } else {
      assert FactoryFields(m, t) == ServerHeader(t) + [];
      FillServerHead(FRESH, t, []);
      FillNothing(Server, head);
    }
  }

  lemma ParsedIsPrintable(junk: Record, r: int, cmd: Cmd)
    requires cmd.ChangeState? && Complete(cmd, DEFAULT_PEER2) && !Unreadable(cmd)
    ensures Printable(Parsed(junk, r, cmd))
  {
    hide GoodPeer;
  }

  lemma FactoryHop(r: int, cmd: Cmd, own: Peer, junk: Record, rest: string, rest': string)
    requires IsInt32(r) && Complete(cmd, own)
    ensures FactoryHears(Render(ManagerFields(r, cmd, own), rest), r, junk, rest')
         == if Unreadable(cmd) then Nothing else FactoryAct(Parsed(junk, r, cmd), r, rest')
  {
    ManagerFieldsGood(r, cmd, own);
    FactoryParses(junk, r, cmd, own);
    hide ParseMsg, Fill, Render, ManagerFields, FactoryAct, Parsed, Complete, Good;
    ReadBack(ManagerFields(r, cmd, own), rest, 0);
  }

  lemma ServerHop(r: int, cmd: Cmd, junk: Record, rest: string)
    requires !cmd.Startup? && Complete(cmd, DEFAULT_PEER2) && !Unreadable(cmd)
    ensures ServerHears(Render(FactoryFields(Parsed(junk, r, cmd), Told(cmd).msgType), rest)) == Some(Told(cmd))
  {
    var m, t := Parsed(junk, r, cmd), Told(cmd).msgType;
    if cmd.ChangeState? {
      ParsedIsPrintable(junk, r, cmd);
    }
    FactoryFieldsGood(m, t);
    ServerParses(junk, r, cmd);
    hide ParseMsg, Fill, Render, FactoryFields, Parsed, Complete, Good;
    ReadBack(FactoryFields(m, t), rest, 0);
  }

  /** A field printed without a value. */
  predicate Blank(f: Field) {
    f.key != "" && f.value == "" && Plain(f.key) && ':' !in f.key && |f.key| + 4 <= MAXMSGSIZE
  }

  lemma BlankIsRead(f: Field, rest: string)
    requires Blank(f)
    ensures NextLine(Line(f) + rest, MAXMSGSIZE) == Line(f) && Line(f) != "\r\n" && Line(f) != ""
  {
    var body := f.key + ": " + f.value + "\r";
    assert Line(f) == body + "\n";
    NoNewline(f.key);
    hide Plain;
    NextLineEnds(body, rest, MAXMSGSIZE);
    hide NextLine;
    assert |Line(f)| > 2;
  }

  lemma NoNewline(key: string)
    requires Plain(key)
    ensures '\n' !in key && '\0' !in key
  {
  }

  lemma BlankIsMalformed(f: Field)
    requires Blank(f)
    ensures ScanField(Line(f)) == None
  {
    hide Until, SkipSpace, CStr;
    NoNewline(f.key);
    BlankText(f.key);
    UntilStop(f.key, ": " + ("" + "\r\n"), {':'});
    LineParts(f.key, "");
    NothingButBlanks();
  }

  lemma BlankText(key: string)
    requires '\0' !in key
    ensures CStr(Line(Field(key, ""))) == Line(Field(key, ""))
  {
    hide CStr;
    var line := Line(Field(key, ""));
    assert forall i :: 0 <= i < |line| ==> line[i] != '\0';
  }

  lemma NothingButBlanks()
    ensures Until(SkipSpace(" " + ("" + "\r\n")), {'\r', '\n'}) == ""
  {
    assert (" " + ("" + "\r\n"))[1..] == "\r\n" && "\r\n"[1..] == "\n" && "\n"[1..] == "";
    assert SkipSpace("\n") == "";
  }

  /** A blank field ends the parse, wherever it stands. */
  lemma {:induction false} ReadBlank(fs: seq<Field>, k: nat, rest: string, count: nat)
    requires k < |fs| && Blank(fs[k]) && forall i :: 0 <= i < k ==> Good(fs[i])
    ensures ParseMsg(Render(fs, rest), count) == None
    decreases k
  {
    hide NextLine, ScanField, Line, Good, Blank;
    var f, more := fs[0], fs[1..];
    if k == 0 {
      BlankIsRead(f, Render(more, rest));
      BlankIsMalformed(f);
    } else {
      LineIsRead(f, Render(more, rest));
      ScanBack(f);
      ReadBlank(more, k - 1, rest, count + 1);
    }
  }

  lemma IsBlankOrGood(key: string, ip: string)
    requires key != "" && Plain(key) && ':' !in key && |key| <= 100 && Address(ip)
    ensures if ip == "" then Blank(Field(key, ip)) else Good(Field(key, ip))
  {
  }

  lemma FirstAddress(ip: string)
    requires Address(ip)
    ensures if ip == "" then Blank(Field("Replica 1 IP", ip)) else Good(Field("Replica 1 IP", ip))
  {
    hide Good, Blank, GoodIp;
    IsBlankOrGood("Replica 1 IP", ip);
  }

  lemma SecondAddress(ip: string)
    requires Address(ip)
    ensures if ip == "" then Blank(Field("Replica 2 IP", ip)) else Good(Field("Replica 2 IP", ip))
  {
    hide Good, Blank, GoodIp;
    IsBlankOrGood("Replica 2 IP", ip);
  }

  lemma GoodPeerNumbers(freq: int, p1: Peer, p2: Peer)
    requires Reachable(p1) && Reachable(p2) && LONG_MIN <= freq <= LONG_MAX
    ensures var fs := PeerFields(freq, p1, p2); Good(fs[0]) && Good(fs[1]) && Good(fs[3]) && Good(fs[4])
  {
    hide Good, IntText;
    GoodNum("Checkpoint freq", freq);
    GoodNum("Replica 1 ID", p1.id);
    GoodNum("Replica 1 Port", p1.port);
    GoodNum("Replica 2 ID", p2.id);
  }

  lemma BlankInPeers(freq: int, p1: Peer, p2: Peer)
    requires Reachable(p1) && Reachable(p2) && LONG_MIN <= freq <= LONG_MAX && (p1.ip == "" || p2.ip == "")
    ensures |PeerFields(freq, p1, p2)| == 7
    ensures var fs, k := PeerFields(freq, p1, p2), if p1.ip == "" then 2 else 5;
      Blank(fs[k]) && forall i :: 0 <= i < k ==> Good(fs[i])
  {
    hide Good, Blank, IntText, Num, GoodIp;
    var fs := PeerFields(freq, p1, p2);
    GoodPeerNumbers(freq, p1, p2);
    FirstAddress(p1.ip);
    SecondAddress(p2.ip);
    assert fs[2] == Field("Replica 1 IP", p1.ip) && fs[5] == Field("Replica 2 IP", p2.ip);
  }

  lemma {:induction false} BlankLater(head: seq<Field>, fs: seq<Field>, k: nat)
    requires AllGood(head) && k < |fs| && Blank(fs[k]) && forall i :: 0 <= i < k ==> Good(fs[i])
    ensures Blank((head + fs)[|head| + k]) && forall i :: 0 <= i < |head| + k ==> Good((head + fs)[i])
  {
    hide Good, Blank;
  }

  lemma BlankStartup(r: int, own: Peer)
    requires IsInt32(r) && own.ip == ""
    ensures var fs := ManagerFields(r, Startup, own);
      |fs| > 2 && Blank(fs[2]) && forall i :: 0 <= i < 2 ==> Good(fs[i])
  {
    hide Good, Blank, IntText;
    GoodFactoryHead(r, 0);
    IsBlankOrGood("Server IP", own.ip);
    var tail := [Field("Server IP", own.ip), Num("Server Port", own.port)];
    BlankLater([Num("Replica ID", r), Num("Factory Req", 0)], tail, 0);
  }

  lemma BlankChange(r: int, msg: RepMgrMsg, own: Peer) returns (k: nat)
    requires IsInt32(r) && CarriesPeers(msg.state) && Reachable(msg.peer1) && Reachable(msg.peer2)
    requires LONG_MIN <= msg.freq <= LONG_MAX && (msg.peer1.ip == "" || msg.peer2.ip == "")
    ensures var fs := ManagerFields(r, ChangeState(msg), own);
      k < |fs| && Blank(fs[k]) && forall i :: 0 <= i < k ==> Good(fs[i])
  {
    hide Good, Blank, IntText, PeerFields, GoodIp, Num, AllGood;
    GoodFactoryHead(r, 1);
    GoodModeState(ModeCode(msg.mode), StateCode(msg.state));
    BlankInPeers(msg.freq, msg.peer1, msg.peer2);
    var head := [Num("Replica ID", r), Num("Factory Req", 1)];
    var ms := [Num("REP MODE", ModeCode(msg.mode)), Num("Server State", StateCode(msg.state))];
    var ps := PeerFields(msg.freq, msg.peer1, msg.peer2);
    var n := if msg.peer1.ip == "" then 2 else 5;
    BlankLater(ms, ps, n);
    BlankLater(head, ms + ps, 2 + n);
    k := 4 + n;
    assert ManagerFields(r, ChangeState(msg), own) == head + (ms + ps);
  }

  /** Where a command that carries an empty address has its first blank field. */
  lemma FirstBlank(r: int, cmd: Cmd, own: Peer) returns (k: nat)
    requires IsInt32(r) && Sendable(cmd, own) && !Complete(cmd, own)
    ensures var fs := ManagerFields(r, cmd, own);
      k < |fs| && Blank(fs[k]) && forall i :: 0 <= i < k ==> Good(fs[i])
  {
    hide Good, Blank, IntText, PeerFields, GoodIp, ManagerFields;
    if cmd.Startup? {
      k := 2;
      BlankStartup(r, own);
    } else {
      k := BlankChange(r, cmd.msg, own);
    }
  }

  lemma BlankNotHeard(r: int, cmd: Cmd, own: Peer, junk: Record, rest: string, rest': string, other: int)
    requires IsInt32(r) && Sendable(cmd, own) && !Complete(cmd, own)
    ensures FactoryHears(Render(ManagerFields(r, cmd, own), rest), other, junk, rest') == Nothing
  {
    hide ParseMsg, Fill, Render, ManagerFields, Complete, Sendable, Good, Blank;
    var k := FirstBlank(r, cmd, own);
    ReadBlank(ManagerFields(r, cmd, own), k, rest, 0);
  }

  /** A command reaches its server unless it carries an empty address, which makes its line
      malformed, or a frequency of LONG_MIN. */
  predicate Relayed(cmd: Cmd, own: Peer) {
    Complete(cmd, own) && !Unreadable(cmd)
  }

  /** The command relay: whatever the manager sends, whatever the factory's message held before
      and whatever follows on the two connections, the factory of that replica drops a command that
      is not relayed, and otherwise spawns the server or sends it a message that it reads as
      exactly the command the manager chose. */
  lemma RelayRoundTrip(r: int, cmd: Cmd, own: Peer, junk: Record, rest: string, rest': string)
    requires IsInt32(r) && Sendable(cmd, own)
    ensures var act := FactoryHears(Render(ManagerFields(r, cmd, own), rest), r, junk, rest');
      if !Relayed(cmd, own) then act == Nothing
      else if cmd.Startup? then act == Spawn
      else act.SendToServer? && ServerHears(act.text) == Some(Told(cmd))
  {
    assert !cmd.Startup? && Complete(cmd, own) ==> Complete(cmd, DEFAULT_PEER2);
    hide ServerHears, FactoryHears, Render, FactoryFields, ManagerFields, Sendable, Complete;
    hide FactoryAct, Parsed, Told;
    if !Complete(cmd, own) {
      BlankNotHeard(r, cmd, own, junk, rest, rest', r);
    } else {
      FactoryHop(r, cmd, own, junk, rest, rest');
      ActionIs(r, cmd, junk, rest');
      if !cmd.Startup? && !Unreadable(cmd) {
        ServerHop(r, cmd, junk, rest');
      }
    }
  }

  lemma ActionIs(r: int, cmd: Cmd, junk: Record, rest: string)
    ensures var m := Parsed(junk, r, cmd);
      FactoryAct(m, r, rest)
      == if cmd.Startup? then Spawn else SendToServer(Render(FactoryFields(m, Told(cmd).msgType), rest))
  {
    hide Render, FactoryFields;
  }

  /** Any other factory ignores the command. */
  lemma NotRelayed(r: int, cmd: Cmd, own: Peer, junk: Record, rest: string, rest': string, other: int)
    requires IsInt32(r) && Sendable(cmd, own) && other != r
    ensures FactoryHears(Render(ManagerFields(r, cmd, own), rest), other, junk, rest') == Nothing
  {
    hide ParseMsg, Fill, Render, ManagerFields, Complete, Sendable, Good, FactoryFields;
    if !Complete(cmd, own) {
      BlankNotHeard(r, cmd, own, junk, rest, rest', other);
    } else {
      ManagerFieldsGood(r, cmd, own);
      FactoryParses(junk, r, cmd, own);
      assert Parsed(junk, r, cmd).replicaId == r;
      hide Parsed;
      ReadBack(ManagerFields(r, cmd, own), rest, 0);
    }
  }

  // ---------- as the server's request ----------

  function ModeOf(code: int): Mode {
    if code == 1 then ActiveRep else if code == 2 then PassiveRep else UnknownRep
  }

  function StateOf(code: int): State {
    match code
    case 1 => Quiesce
    case 2 => ActiveRunning
    case 3 => ActiveRecover
    case 4 => PassivePrimary
    case 5 => PassiveBackup
    case 6 => PassivePreprimary
    case _ => UnknownState
  }

  /** The role change a server reads out of its request. */
  function RoleChange(m: Record): RepMgrMsg {
    RepMgrMsg(ModeOf(m.mode), StateOf(m.state), m.freq, Peer(m.id1, m.ip1, m.port1), Peer(m.id2, m.ip2, m.port2))
  }

  /** A role change arrives as the message the manager chose, its frequency cut to an int; what
      is not carried has the server's defaults. */
  lemma RoleChangeArrives(msg: RepMgrMsg)
    ensures RoleChange(Told(ChangeState(msg)))
         == if CarriesPeers(msg.state) then msg.(freq := Int32(msg.freq)) else PlainMsg(msg.mode, msg.state)
  {
  }
}
