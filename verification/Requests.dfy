/** From message text to effect: what a server makes of the message it has read, for the requests of
    clients (src/client.c), for commands relayed by a factory, and for checkpoints. */
module Requests {
  import opened Types
  import opened Text
  import opened SockReader
  import opened ManagerSpec
  import opened Relay
  import Table
  import Checkpoint
  import Storage
  import Transfer
  import S = ServerSpec
  import C = Cluster
  import Server

  /** generate_key: the key of an addition, from the client and the task. */
  type Digest = (int, string) -> nat

  // ---------- the server's dispatch ----------

  /** The request in a message that is not about quiescence; `payload` is what followed it. */
  function RequestOf(m: Record, payload: string, digest: Digest): Request {
    match m.msgType
    case 0 => MsgInvalid
    case 1 => MsgAdd(digest(m.body.client, m.body.task), m.body.task)
    case 2 => MsgModify(m.body.key, Set(m.body.status))
    case 3 => MsgGetAll
    case 4 => MsgRemove(m.body.key)
    case 5 => MsgHeartbeat
    case 6 => MsgChkPt(payload)
    case 7 => MsgRepMgr(RoleChange(m))
    case 8 => MsgSendChkpt
    case _ => MsgUnknown
  }

  /** What a live server does with a message: quiescence at once, everything else is queued. */
  function Arrive(s: S.Srv, m: Record, payload: string, digest: Digest): S.Srv {
    if m.msgType == MSG_QUIESCE_START then S.Step(s, S.QuiesceStart)
    else if m.msgType == MSG_QUIESCE_STOP then S.Step(s, S.QuiesceStop)
    else S.Step(s, S.Recv(RequestOf(m, payload, digest)))
  }

  /** The end of handle_connection. */
  method Dispatch(server: Server.Server, m: Record, payload: string, digest: Digest)
    requires server.Valid() && !server.aborted
    modifies server, server.heap
    ensures server.Valid() && fresh(server.heap - old(server.heap))
    ensures server.View() == Arrive(old(server.View()), m, payload, digest)
  {
    hide Server.Server.Valid, Server.Server.Nrl, Server.Server.Ctrl, Server.Server.Table;
    hide S.PutInQuiescence, S.RemoveFromQuiescence, S.Receive, RequestOf;
    if m.msgType == MSG_QUIESCE_START {
      server.PutInQuiescence();
    } else if m.msgType == MSG_QUIESCE_STOP {
      server.RemoveFromQuiescence();
    } else {
      var ret := server.EnqueueClientReq(RequestOf(m, payload, digest));
    }
  }

  // ---------- commands through the factory's text ----------

  /** What becomes of a replica's server when its factory acts. */
  function Obeys(srv: Option<S.Srv>, act: Action, cfg: C.Config, digest: Digest): Option<S.Srv>
    requires cfg.buckets > 0
  {
    match act
    case Spawn =>
      (match srv
       case None => Some(S.Boot(cfg.nrlLimit, cfg.ctrlLimit, cfg.buckets))
       case Some(_) => srv)
    case SendToServer(text) =>
      (match srv
       case None => None
       case Some(s) =>
         match ServerHears(text)
         case None => srv
         case Some(m) => C.Alive(Arrive(s, m, "", digest)))
    case Nothing => srv
  }

  lemma ToldArrives(s: S.Srv, cmd: Cmd, cfg: C.Config, digest: Digest)
    requires cfg.buckets > 0 && !cmd.Startup?
    ensures C.Relay(Some(s), cmd, cfg) == C.Alive(Arrive(s, Told(cmd), "", digest))
  {
    if cmd.ChangeState? {
      RoleChangeArrives(cmd.msg);
    }
    hide S.Step;
  }

  /** A command in the cluster has exactly the effect of its text: the manager prints it, the factory
      parses and acts on it, and a server that is up reads, dispatches and obeys the message, for
      quiescence at once. A command that is not relayed has no effect. */
  lemma CommandIsText(srv: Option<S.Srv>, r: int, cmd: Cmd, own: Peer, junk: Record, rest: string, rest': string,
                      cfg: C.Config, digest: Digest)
    requires cfg.buckets > 0 && IsInt32(r) && Sendable(cmd, own)
    ensures Obeys(srv, FactoryHears(Render(ManagerFields(r, cmd, own), rest), r, junk, rest'), cfg, digest)
         == if Relayed(cmd, own) then C.Relay(srv, cmd, cfg) else srv
  {
    RelayRoundTrip(r, cmd, own, junk, rest, rest');
    hide FactoryHears, Render, ManagerFields, Sendable, Relayed, ServerHears, Arrive, Told;
    if !cmd.Startup? && srv.Some? {
      ToldArrives(srv.value, cmd, cfg, digest);
    }
  }

  // ---------- client requests ----------

  /** What a client asks for, with the texts as the user typed them. */
  datatype ClientMsg =
    | AddTask(task: string, status: int, date: string)
    | RemoveTask(key: string)
    | ModifyTask(flags: int, key: string, task: string, date: string, status: int)

  function Header(no: int, client: int, msgType: int): seq<Field> {
    [Num("Request No", no), Num("Client ID", client), Num("Message Type", msgType)]
  }

  /** The messages a client prints. */
  function ClientFields(no: int, client: int, c: ClientMsg): seq<Field> {
    match c
    case AddTask(task, status, date) =>
      Header(no, client, 1) + [Field("Task", task), Num("Task status", status), Field("Due date", date)]
    case RemoveTask(key) => Header(no, client, 4) + [Field("Key", key)]
    case ModifyTask(flags, key, task, date, status) =>
      Header(no, client, 2) + [Num("Flags", flags), Field("Key", key), Field("New Task", task),
                               Field("New Date", date), Num("New status", status)]
  }

  /** Typed text: one line, and short enough for its buffer. */
  predicate Typed(s: string, max: nat) {
    Plain(s) && |s| <= max
  }

  /** A client's request: texts of its buffers, numbers of its fields. */
  predicate Asked(c: ClientMsg) {
    match c
    case AddTask(task, status, date) => Typed(task, 1023) && Typed(date, 31) && IsInt32(status)
    case RemoveTask(key) => Typed(key, 1023)
    case ModifyTask(flags, key, task, date, status) =>
      Typed(key, 1023) && Typed(task, 1023) && Typed(date, 31) && IsInt32(flags) && IsInt32(status)
  }

  /** Some text of the request holds nothing but blanks. */
  predicate LeavesBlank(c: ClientMsg) {
    match c
    case AddTask(task, _, date) => SkipSpace(task) == "" || SkipSpace(date) == ""
    case RemoveTask(key) => SkipSpace(key) == ""
    case ModifyTask(_, key, task, date, _) => SkipSpace(key) == "" || SkipSpace(task) == "" || SkipSpace(date) == ""
  }

  /** The server's record of a client's request; leading blanks are gone. */
  function ClientTold(no: int, client: int, c: ClientMsg): Record {
    match c
    case AddTask(task, status, date) =>
      FRESH.(msgType := 1, body := Body(client, no, SkipSpace(task), SkipSpace(date), status, 0, 0))
    case RemoveTask(key) =>
      FRESH.(msgType := 4, body := Body(client, no, "", "", 0, StrToULong(key), 0))
    case ModifyTask(flags, key, task, date, status) =>
      FRESH.(msgType := 2, body := Body(client, no, SkipSpace(task), SkipSpace(date), status, StrToULong(key), 0))
  }

  // ---------- fields with leading blanks ----------

  /** A field that can be printed on one line. */
  predicate OneLine(f: Field) {
    f.key != "" && Plain(f.key) && ':' !in f.key && Plain(f.value) && |f.key| + |f.value| + 4 <= MAXMSGSIZE
  }

  lemma OneLineIsRead(f: Field, rest: string)
    requires OneLine(f)
    ensures NextLine(Line(f) + rest, MAXMSGSIZE) == Line(f) && Line(f) != "\r\n" && Line(f) != ""
    ensures (Line(f) + rest)[|Line(f)|..] == rest
    ensures CStr(Line(f)) == Line(f)
  {
    var body := f.key + ": " + f.value + "\r";
    assert Line(f) == body + "\n";
    assert forall i :: 0 <= i < |body| ==> body[i] != '\n' && body[i] != '\0';
    NextLineEnds(body, rest, MAXMSGSIZE);
    hide NextLine, CStr;
    assert |Line(f)| > 2;
  }

  lemma {:induction false} SkipThenEnd(v: string)
    requires Plain(v)
    ensures SkipSpace(v + "\r\n") == if SkipSpace(v) == "" then "" else SkipSpace(v) + "\r\n"
    ensures Plain(SkipSpace(v))
  {
    if v == "" {
      assert "" + "\r\n" == "\r\n" && "\r\n"[1..] == "\n" && "\n"[1..] == "";
      assert SkipSpace("\n") == "";
    } else {
      assert (v + "\r\n")[0] == v[0] && (v + "\r\n")[1..] == v[1..] + "\r\n";
      if IsSpace(v[0]) {
        SkipThenEnd(v[1..]);
      }
    }
  }

  /** A value loses its leading blanks; one of blanks alone makes the line malformed. */
  lemma ScanTrims(f: Field)
    requires OneLine(f)
    ensures ScanField(Line(f))
         == if SkipSpace(f.value) == "" then None else Some(Field(f.key, SkipSpace(f.value)))
  {
    OneLineIsRead(f, "");
    ScanParts(f.key, f.value);
  }

  lemma ScanParts(key: string, value: string)
    requires key != "" && ':' !in key && Plain(value) && CStr(Line(Field(key, value))) == Line(Field(key, value))
    ensures ScanField(Line(Field(key, value)))
         == if SkipSpace(value) == "" then None else Some(Field(key, SkipSpace(value)))
  {
    hide CStr, Until, SkipSpace, NextLine;
    LineParts(key, value);
    UntilStop(key, ": " + (value + "\r\n"), {':'});
    SkipThenEnd(value);
    BlankSkipped(value + "\r\n");
    var v := SkipSpace(value);
    UntilStop(v, "\r\n", {'\r', '\n'});
    UntilNothing();
  }

  lemma BlankSkipped(s: string)
    ensures SkipSpace(" " + s) == SkipSpace(s)
  {
    assert (" " + s)[1..] == s;
  }

  lemma UntilNothing()
    ensures Until("", {'\r', '\n'}) == ""
  {
  }

  /** The fields as scanned, unless one is blank. */
  function Trimmed(fs: seq<Field>): Option<seq<Field>>
    decreases |fs|
  {
    if fs == [] then Some([])
    else if SkipSpace(fs[0].value) == "" then None
    else match Trimmed(fs[1..])
      case None => None
      case Some(more) => Some([Field(fs[0].key, SkipSpace(fs[0].value))] + more)
  }

  lemma {:induction false} ReadTrims(fs: seq<Field>, rest: string, count: nat)
    requires count + |fs| <= FIELDS_MAX && forall i :: 0 <= i < |fs| ==> OneLine(fs[i])
    ensures ParseMsg(Render(fs, rest), count) == Trimmed(fs)
    decreases |fs|
  {
    hide NextLine, ScanField, Line, OneLine, SkipSpace, CStr;
    if fs == [] {
      EmptyLineIsRead(rest);
    } else {
      OneLineIsRead(fs[0], Render(fs[1..], rest));
      ScanTrims(fs[0]);
      ReadTrims(fs[1..], rest, count + 1);
    }
  }

  lemma TrimmedCons(f: Field, fs: seq<Field>)
    ensures Trimmed([f] + fs)
         == if SkipSpace(f.value) == "" then None
            else match Trimmed(fs)
              case None => None
              case Some(more) => Some([Field(f.key, SkipSpace(f.value))] + more)
  {
    assert ([f] + fs)[1..] == fs;
    hide SkipSpace;
  }

  lemma NumTrims(key: string, v: int)
    ensures SkipSpace(Num(key, v).value) == IntText(v) && IntText(v) != ""
  {
    var s := IntText(v);
    assert s[0] == '-' || '0' <= s[0] <= '9';
    hide IntText;
  }

  // ---------- one field after the other ----------

  /** A field followed by others, read by the server. */
  function Reads(m: Record, fs: seq<Field>): Option<Record> {
    match Trimmed(fs) case None => None case Some(gs) => Fill(Server, m, gs)
  }

  lemma ReadsText(m: Record, f: Field, fs: seq<Field>, k: Record)
    requires SkipSpace(f.value) != "" ==> ServerKv(m, Field(f.key, SkipSpace(f.value))) == Some(k)
    ensures Reads(m, [f] + fs) == if SkipSpace(f.value) == "" then None else Reads(k, fs)
  {
    hide SkipSpace, ServerKv, Trimmed, Fill;
    TrimmedCons(f, fs);
    if SkipSpace(f.value) != "" && Trimmed(fs).Some? {
      FillOne(Server, m, Field(f.key, SkipSpace(f.value)), Trimmed(fs).value, k);
    }
  }

  lemma ReadsNum(m: Record, key: string, v: int, fs: seq<Field>, k: Record)
    requires ServerKv(m, Num(key, v)) == Some(k)
    ensures Reads(m, [Num(key, v)] + fs) == Reads(k, fs)
  {
    NumTrims(key, v);
    hide SkipSpace, ServerKv, Trimmed, Fill, IntText;
    ReadsText(m, Num(key, v), fs, k);
  }

  lemma ReadsNothing(m: Record)
    ensures Reads(m, []) == Some(m)
  {
    FillNothing(Server, m);
  }

  lemma ReadsHeader(no: int, client: int, msgType: int, fs: seq<Field>)
    requires IsInt32(no) && IsInt32(client) && IsInt32(msgType)
    ensures Reads(FRESH, Header(no, client, msgType) + fs)
         == Reads(FRESH.(msgType := msgType, body := FRESH.body.(client := client, reqNo := no)), fs)
  {
    hide Reads, ServerKv, IntText;
    var f, g, h := Num("Request No", no), Num("Client ID", client), Num("Message Type", msgType);
    var m1 := FRESH.(body := FRESH.body.(reqNo := no));
    var m2 := m1.(body := m1.body.(client := client));
    ServerKvs(FRESH, no);
    ServerKvs(m1, client);
    ServerKvs(m2, msgType);
    ReadsNum(FRESH, "Request No", no, [g] + ([h] + fs), m1);
    ReadsNum(m1, "Client ID", client, [h] + fs, m2);
    ReadsNum(m2, "Message Type", msgType, fs, m2.(msgType := msgType));
    assert Header(no, client, msgType) + fs == [f] + ([g] + ([h] + fs));
  }

  lemma StatusKvs(m: Record, v: int)
    requires IsInt32(v)
    ensures ServerKv(m, Num("Task status", v)) == Some(m.(body := m.body.(status := v)))
    ensures ServerKv(m, Num("New status", v)) == Some(m.(body := m.body.(status := v)))
    ensures ServerKv(m, Num("Flags", v)) == Some(m)
  {
    hide IntText, StrToInt, PeerKv;
    NumBack(v);
    FlagsIgnored(m, v);
  }

  lemma FlagsIgnored(m: Record, v: int)
    ensures PeerKv(m, Num("Flags", v)) == Some(m)
  {
    hide IntText, StrToInt;
  }

  lemma TextKvs(m: Record, s: string)
    ensures ServerKv(m, Field("Key", s)) == Some(m.(body := m.body.(key := StrToULong(s))))
    ensures |s| <= 1024 ==>
      ServerKv(m, Field("Task", s)) == Some(m.(body := m.body.(task := s))) == ServerKv(m, Field("New Task", s))
    ensures |s| <= 32 ==>
      ServerKv(m, Field("Due date", s)) == Some(m.(body := m.body.(date := s))) == ServerKv(m, Field("New Date", s))
  {
    hide StrToInt, StrToULong;
  }

  lemma ULongTrims(s: string)
    ensures StrToULong(SkipSpace(s)) == StrToULong(s)
  {
    SkipTwice(s);
    hide SkipSpace, SignedULong;
  }

  lemma {:induction false} SkipTwice(s: string)
    ensures SkipSpace(SkipSpace(s)) == SkipSpace(s)
  {
    if s != "" && IsSpace(s[0]) {
      SkipTwice(s[1..]);
    }
  }

  lemma ReadsAdd(no: int, client: int, c: ClientMsg)
    requires IsInt32(no) && IsInt32(client) && c.AddTask? && Asked(c)
    ensures Reads(FRESH, ClientFields(no, client, c))
         == if LeavesBlank(c) then None else Some(ClientTold(no, client, c))
  {
    hide Reads, ServerKv, IntText, SkipSpace;
    var m0 := FRESH.(msgType := 1, body := FRESH.body.(client := client, reqNo := no));
    var task, date := SkipSpace(c.task), SkipSpace(c.date);
    var m1 := m0.(body := m0.body.(task := task));
    var m2 := m1.(body := m1.body.(status := c.status));
    var m3 := m2.(body := m2.body.(date := date));
    var f, g, h := Field("Task", c.task), Num("Task status", c.status), Field("Due date", c.date);
    ReadsHeader(no, client, 1, [f] + ([g] + ([h] + [])));
    TextKvs(m0, task);
    ReadsText(m0, f, [g] + ([h] + []), m1);
    StatusKvs(m1, c.status);
    ReadsNum(m1, "Task status", c.status, [h] + [], m2);
    TextKvs(m2, date);
    ReadsText(m2, h, [], m3);
    ReadsNothing(m3);
    assert [f, g, h] == [f] + ([g] + ([h] + []));
  }

  lemma ReadsRemove(no: int, client: int, c: ClientMsg)
    requires IsInt32(no) && IsInt32(client) && c.RemoveTask? && Asked(c)
    ensures Reads(FRESH, ClientFields(no, client, c))
         == if LeavesBlank(c) then None else Some(ClientTold(no, client, c))
  {
    hide Reads, ServerKv, IntText, SkipSpace, StrToULong;
    var m0 := FRESH.(msgType := 4, body := FRESH.body.(client := client, reqNo := no));
    var m1 := m0.(body := m0.body.(key := StrToULong(c.key)));
    var f := Field("Key", c.key);
    ULongTrims(c.key);
    ReadsHeader(no, client, 4, [f] + []);
    TextKvs(m0, SkipSpace(c.key));
    ReadsText(m0, f, [], m1);
    ReadsNothing(m1);
    assert [f] == [f] + [];
  }

  lemma ReadsModify(no: int, client: int, c: ClientMsg)
    requires IsInt32(no) && IsInt32(client) && c.ModifyTask? && Asked(c)
    ensures Reads(FRESH, ClientFields(no, client, c))
         == if LeavesBlank(c) then None else Some(ClientTold(no, client, c))
  {
    hide Reads, ServerKv, IntText, SkipSpace, StrToULong;
    var m0 := FRESH.(msgType := 2, body := FRESH.body.(client := client, reqNo := no));
    var task, date := SkipSpace(c.task), SkipSpace(c.date);
    var m1 := m0.(body := m0.body.(key := StrToULong(c.key)));
    var m2 := m1.(body := m1.body.(task := task));
    var m3 := m2.(body := m2.body.(date := date));
    var m4 := m3.(body := m3.body.(status := c.status));
    var e, f, g := Num("Flags", c.flags), Field("Key", c.key), Field("New Task", c.task);
    var h, i := Field("New Date", c.date), Num("New status", c.status);
    var tail2 := [h] + ([i] + []);
    var tail1 := [f] + ([g] + tail2);
    ULongTrims(c.key);
    ReadsHeader(no, client, 2, [e] + tail1);
    StatusKvs(m0, c.flags);
    ReadsNum(m0, "Flags", c.flags, tail1, m0);
    TextKvs(m0, SkipSpace(c.key));
    ReadsText(m0, f, [g] + tail2, m1);
    TextKvs(m1, task);
    ReadsText(m1, g, tail2, m2);
    TextKvs(m2, date);
    ReadsText(m2, h, [i] + [], m3);
    StatusKvs(m3, c.status);
    ReadsNum(m3, "New status", c.status, [], m4);
    ReadsNothing(m4);
    assert [e, f, g, h, i] == [e] + tail1;
  }

  // ---------- every field fits its line ----------

  ghost predicate AllOneLine(fs: seq<Field>) {
    forall i :: 0 <= i < |fs| ==> OneLine(fs[i])
  }

  lemma NumOneLine(key: string, v: int)
    requires key != "" && Plain(key) && ':' !in key && |key| <= 100 && IsInt32(v)
    ensures OneLine(Num(key, v))
  {
    GoodNum(key, v);
    hide IntText;
  }

  lemma TextOneLine(key: string, s: string)
    requires key != "" && Plain(key) && ':' !in key && |key| <= 100 && Typed(s, 1023)
    ensures OneLine(Field(key, s))
  {
  }

  lemma HeaderOneLine(no: int, client: int, msgType: int)
    requires IsInt32(no) && IsInt32(client) && IsInt32(msgType)
    ensures AllOneLine(Header(no, client, msgType))
  {
    hide IntText, OneLine;
    NumOneLine("Request No", no);
    NumOneLine("Client ID", client);
    NumOneLine("Message Type", msgType);
  }

  lemma BodyOneLine(c: ClientMsg)
    requires Asked(c)
    ensures c.AddTask? ==>
      AllOneLine([Field("Task", c.task), Num("Task status", c.status), Field("Due date", c.date)])
    ensures c.RemoveTask? ==> AllOneLine([Field("Key", c.key)])
  {
    hide IntText, OneLine;
    match c
    case AddTask(task, status, date) =>
      TextOneLine("Task", task);
      NumOneLine("Task status", status);
      TextOneLine("Due date", date);
    case RemoveTask(key) => TextOneLine("Key", key);
    case _ =>
  }

  lemma ModifyOneLine(c: ClientMsg)
    requires Asked(c) && c.ModifyTask?
    ensures AllOneLine([Num("Flags", c.flags), Field("Key", c.key), Field("New Task", c.task),
                        Field("New Date", c.date), Num("New status", c.status)])
  {
    hide IntText, OneLine;
    NumOneLine("Flags", c.flags);
    TextOneLine("Key", c.key);
    TextOneLine("New Task", c.task);
    TextOneLine("New Date", c.date);
    NumOneLine("New status", c.status);
  }

  lemma ClientOneLine(no: int, client: int, c: ClientMsg)
    requires IsInt32(no) && IsInt32(client) && Asked(c)
    ensures AllOneLine(ClientFields(no, client, c)) && |ClientFields(no, client, c)| <= FIELDS_MAX
  {
    hide OneLine, IntText;
    match c
    case AddTask(_, _, _) => HeaderOneLine(no, client, 1); BodyOneLine(c);
    case RemoveTask(_) => HeaderOneLine(no, client, 4); BodyOneLine(c);
    case ModifyTask(_, _, _, _, _) => HeaderOneLine(no, client, 2); ModifyOneLine(c);
  }

  // ---------- the round trip ----------

  /** A client's request arrives: whatever follows it on the connection, the server reads type, number
      and client, task, date, status and key as the client sent them, but for leading blanks; or it
      drops the request, exactly if one of its texts is blank. */
  lemma ClientRoundTrip(no: int, client: int, c: ClientMsg, rest: string)
    requires IsInt32(no) && IsInt32(client) && Asked(c)
    ensures ServerHears(Render(ClientFields(no, client, c), rest))
         == if LeavesBlank(c) then None else Some(ClientTold(no, client, c))
  {
    hide ParseMsg, Render, Fill, ClientFields, ClientTold, LeavesBlank, Asked, OneLine, Trimmed;
    ClientOneLine(no, client, c);
    ReadsClient(no, client, c);
    ReadTrims(ClientFields(no, client, c), rest, 0);
  }

  lemma ReadsClient(no: int, client: int, c: ClientMsg)
    requires IsInt32(no) && IsInt32(client) && Asked(c)
    ensures Reads(FRESH, ClientFields(no, client, c))
         == if LeavesBlank(c) then None else Some(ClientTold(no, client, c))
  {
    hide Reads, ClientFields, LeavesBlank, ClientTold, Asked;
    match c
    case AddTask(_, _, _) => ReadsAdd(no, client, c);
    case RemoveTask(_) => ReadsRemove(no, client, c);
    case ModifyTask(_, _, _, _, _) => ReadsModify(no, client, c);
  }

  /** What the request asks of the table: an addition of the task under its digest, and a removal or
      a change of status under the number that was typed. The new task and date of a modification
      arrive, but are not part of it. */
  function ClientRequest(client: int, c: ClientMsg, digest: Digest): Request {
    match c
    case AddTask(task, _, _) => MsgAdd(digest(client, SkipSpace(task)), SkipSpace(task))
    case RemoveTask(key) => MsgRemove(StrToULong(key))
    case ModifyTask(_, key, _, _, status) => MsgModify(StrToULong(key), Set(status))
  }

  /** A client's request, sent as text to a live server, is queued as exactly that request. */
  lemma ClientIsServed(s: S.Srv, no: int, client: int, c: ClientMsg, rest: string, payload: string, digest: Digest)
    requires IsInt32(no) && IsInt32(client) && Asked(c) && !LeavesBlank(c)
    ensures var m := ServerHears(Render(ClientFields(no, client, c), rest));
      && m.Some? && m.value.body.size == 0
      && Arrive(s, m.value, payload, digest) == S.Step(s, S.Recv(ClientRequest(client, c, digest)))
  {
    hide ServerHears, Render, ClientFields, ClientTold, ClientRequest, RequestOf, S.Step, Asked, LeavesBlank;
    ClientRoundTrip(no, client, c, rest);
    ToldIsRequest(no, client, c, payload, digest);
  }

  lemma ToldIsRequest(no: int, client: int, c: ClientMsg, payload: string, digest: Digest)
    ensures var m := ClientTold(no, client, c);
      && m.msgType in {1, 2, 4} && m.body.size == 0
      && RequestOf(m, payload, digest) == ClientRequest(client, c, digest)
  {
    hide SkipSpace, StrToULong;
  }

  /** A key typed as a number is that number. */
  lemma TypedNumber(k: nat)
    requires k <= ULONG_MAX
    ensures StrToULong(Dec(k)) == k
  {
    StrToULongDec(k, "");
    assert Dec(k) + "" == Dec(k);
  }

  /** A removal of key k, typed by a client, drops the oldest entry under k and nothing else, once it
      is executed; an addition appends under its digest; a modification sets the oldest status. */
  lemma ClientEffect(t: Table.Table, client: int, c: ClientMsg, digest: Digest, k: nat)
    requires Table.Wf(t)
    ensures var held, after := Table.At(t, k), Table.At(Storage.Handle(t, ClientRequest(client, c, digest)), k);
      match c
      case AddTask(task, _, _) =>
        after == if k == digest(client, SkipSpace(task)) && k != 0
                 then held + [Table.Entry(k, SkipSpace(task), Unset)] else held
      case RemoveTask(key) =>
        after == if k == StrToULong(key) && held != [] then held[1..] else held
      case ModifyTask(_, key, _, _, status) =>
        after == if k == StrToULong(key) && held != [] then [held[0].(status := Set(status))] + held[1..] else held
  {
    hide Storage.Handle, Table.At, SkipSpace, StrToULong, Table.Wf;
    Storage.HandleOnKey(t, ClientRequest(client, c, digest), k);
  }

  // ---------- checkpoints ----------

  /** A checkpoint received over a connection is the request that rebuilds the exported table. */
  lemma CheckpointIsServed(t: Table.Table, u: S.Db, num: Status -> int, sender: int, number: nat, more: string,
                           digest: Digest)
    requires Table.Wf(t) && Checkpoint.AllFit(t.chains) && |u.chains| == |t.chains|
    requires IsInt32(sender) && number <= ULONG_MAX && |Checkpoint.Export(t, num)| <= Transfer.INT_MAX
    ensures var r := Transfer.Receive(Transfer.Sent(sender, number, Checkpoint.Export(t, num)) + more);
      && r.Complete?
      && Storage.Handle(u, RequestOf(r.message, r.payload, digest)) == Table.Erase(t)
  {
    hide Transfer.Receive, Transfer.Sent, Checkpoint.Export, Checkpoint.Import, Checkpoint.AllFit;
    hide Table.Wf, Table.Erase, RequestOf, Storage.Handle;
    Transfer.TableArrives(t, num, sender, number, more);
    var r := Transfer.Receive(Transfer.Sent(sender, number, Checkpoint.Export(t, num)) + more);
    CheckpointOf(u, r.message, r.payload, digest);
  }

  lemma CheckpointOf(u: S.Db, m: Record, payload: string, digest: Digest)
    requires m.msgType == Transfer.MSG_CHK_PT
    ensures Storage.Handle(u, RequestOf(m, payload, digest)) == Checkpoint.Import(|u.chains|, payload)
  {
    hide Checkpoint.Import;
  }
}
