/** The loops that read a command from a connection into a message, field by field, in the
    factory and in the server, and the factory's dispatch on it. */
module MessageReader {
  import opened Types
  import opened Text
  import opened SockReader
  import opened Relay

  /** Reading and filling interleaved, as the loops do it. */
  function ReadInto(side: Side, m: Record, stream: string, count: nat): Option<Record>
    decreases |stream|
  {
    var line := NextLine(stream, MAXMSGSIZE);
    if line == "" then None
    else if line == "\r\n" then Some(m)
    else if count >= FIELDS_MAX then None
    else match ScanField(line)
      case None => None
      case Some(f) =>
        match Kv(side, m, f)
        case None => None
        case Some(k) => ReadInto(side, k, stream[|line|..], count + 1)
  }

  /** Interleaving makes no difference: the message is filled from all fields or not at all. */
  lemma {:induction false} ReadIntoIs(side: Side, m: Record, stream: string, count: nat)
    ensures ReadInto(side, m, stream, count)
         == match ParseMsg(stream, count) case None => None case Some(fs) => Fill(side, m, fs)
    decreases |stream|
  {
    hide NextLine, ScanField, Kv;
    var line := NextLine(stream, MAXMSGSIZE);
    if line != "" && line != "\r\n" && count < FIELDS_MAX && ScanField(line).Some? {
      var f, rest := ScanField(line).value, stream[|line|..];
      if Kv(side, m, f).Some? {
        ReadIntoIs(side, Kv(side, m, f).value, rest, count + 1);
      }
      if ParseMsg(rest, count + 1).Some? {
        var fs := ParseMsg(rest, count + 1).value;
        assert ([f] + fs)[0] == f && ([f] + fs)[1..] == fs;
      }
    }
  }

  /** What a connection still holds once a message has been read from it. */
  function AfterMsg(stream: string): string
    decreases |stream|
  {
    var line := NextLine(stream, MAXMSGSIZE);
    if line == "" || line == "\r\n" then stream[|line|..] else AfterMsg(stream[|line|..])
  }

  /** factory_message, or a server's request, filled in place. */
  class Message {
    var replicaId: int
    var req: int
    var msgType: int
    var mode: int
    var state: int
    var freq: int
    var id1: int
    var ip1: string
    var port1: int
    var id2: int
    var ip2: string
    var port2: int
    var body: Body

    function View(): Record
      reads this
    {
      Record(replicaId, req, msgType, mode, state, freq, id1, ip1, port1, id2, ip2, port2, body)
    }

    /** The server's initialiser; the factory's message starts with anything in it. */
    constructor (r: Record)
      ensures View() == r
    {
      replicaId, req, msgType, mode, state, freq := r.replicaId, r.req, r.msgType, r.mode, r.state, r.freq;
      id1, ip1, port1, id2, ip2, port2 := r.id1, r.ip1, r.port1, r.id2, r.ip2, r.port2;
      body := r.body;
    }

    /** The branches for frequency and peers. */
    method PeerField(key: string, value: string) returns (ok: bool)
      modifies this
      ensures ok <==> PeerKv(old(View()), Field(key, value)).Some?
      ensures ok ==> PeerKv(old(View()), Field(key, value)) == Some(View())
    {
      hide StrToInt;
      if key == "Replica 1 IP" {
        ip1 := Cut(value, ADDRESS_MAX);
        return true;
      }
      if key == "Replica 2 IP" {
        ip2 := Cut(value, ADDRESS_MAX);
        return true;
      }
      var known := key in {"Replica 1 ID", "Replica 1 Port", "Replica 2 ID", "Replica 2 Port", "Checkpoint freq"};
      if !known {
        return true;
      }
      var n := StrToInt(value);
      if n.None? {
        return false;
      }
      if key == "Replica 1 ID" {
        id1 := n.value;
      } else if key == "Replica 1 Port" {
        port1 := n.value;
      } else if key == "Replica 2 ID" {
        id2 := n.value;
      } else if key == "Replica 2 Port" {
        port2 := n.value;
      } else {
        freq := n.value;
      }
      ok := true;
    }

    /** parse_rep_manager_kv */
    method FactoryField(key: string, value: string) returns (ok: bool)
      modifies this
      ensures ok <==> FactoryKv(old(View()), Field(key, value)).Some?
      ensures ok ==> FactoryKv(old(View()), Field(key, value)) == Some(View())
    {
      hide StrToInt, PeerKv;
      var known := key in {"Replica ID", "Factory Req", "REP MODE", "Server State"};
      if !known {
        ok := PeerField(key, value);
        return;
      }
      var n := StrToInt(value);
      if n.None? {
        return false;
      }
      if key == "Replica ID" {
        replicaId := n.value;
      } else if key == "Factory Req" {
        req := n.value;
      } else if key == "REP MODE" {
        mode := n.value;
      } else {
        state := n.value;
      }
      ok := true;
    }

    /** The branches of parse_kv for the header, client requests and the payload. */
    method BodyField(key: string, value: string) returns (ok: bool)
      requires key in BODY_KEYS
      modifies this
      ensures ok <==> BodyKv(old(View()), Field(key, value)).Some?
      ensures ok ==> BodyKv(old(View()), Field(key, value)) == Some(View())
    {
      hide StrToInt, StrToULong;
      if key == "Task" || key == "New Task" {
        body := body.(task := Cut(value, 1024));
        return true;
      }
      if key == "Due date" || key == "New Date" {
        body := body.(date := Cut(value, 32));
        return true;
      }
      if key == "Key" {
        body := body.(key := StrToULong(value));
        return true;
      }
      var n := StrToInt(value);
      if n.None? {
        return false;
      }
      if key == "Client ID" {
        body := body.(client := n.value);
      } else if key == "Message Type" {
        msgType := n.value;
      } else if key == "Task status" || key == "New status" {
        body := body.(status := n.value);
      } else if key == "Request No" {
        body := body.(reqNo := n.value);
      } else {
        body := body.(size := n.value % 0x1_0000_0000);
      }
      ok := true;
    }

    /** parse_kv */
    method ServerField(key: string, value: string) returns (ok: bool)
      modifies this
      ensures ok <==> ServerKv(old(View()), Field(key, value)).Some?
      ensures ok ==> ServerKv(old(View()), Field(key, value)) == Some(View())
    {
      hide StrToInt, PeerKv, BodyKv;
      if key in BODY_KEYS {
        ok := BodyField(key, value);
        return;
      }
      var known := key == "REP MODE" || key == "Server State";
      if !known {
        ok := PeerField(key, value);
        return;
      }
      var n := StrToInt(value);
      if n.None? {
        return false;
      }
      if key == "REP MODE" {
        mode := n.value;
      } else {
        state := n.value;
      }
      ok := true;
    }

    method SetField(side: Side, f: Field) returns (ok: bool)
      modifies this
      ensures ok <==> Kv(side, old(View()), f).Some?
      ensures ok ==> Kv(side, old(View()), f) == Some(View())
    {
      hide FactoryKv, ServerKv;
      if side == Factory {
        ok := FactoryField(f.key, f.value);
      } else {
        ok := ServerField(f.key, f.value);
      }
    }

    /** The reading loop of handle_replication_manager_message and of handle_connection. */
    method Read(side: Side, conn: BufferedSocket, msgBuf: array<char>) returns (ok: bool)
      requires conn.Valid() && msgBuf.Length == MAXMSGSIZE && msgBuf != conn.buf
      modifies this, conn, conn.fd, conn.buf, msgBuf
      ensures conn.Valid()
      ensures var parsed := ParseMsg(old(conn.Pending()), 0);
        var filled := if parsed.None? then None else Fill(side, old(View()), parsed.value);
        (ok <==> filled.Some?) && (ok ==> filled == Some(View()))
      ensures ok ==> conn.Pending() == AfterMsg(old(conn.Pending()))
    {
      hide NextLine, ScanField, Kv, ParseMsg, Fill;
      ReadIntoIs(side, View(), conn.Pending(), 0);
      var count := 0;
      while true
        invariant conn.Valid()
        invariant ReadInto(side, View(), conn.Pending(), count)
               == ReadInto(side, old(View()), old(conn.Pending()), 0)
        invariant AfterMsg(conn.Pending()) == AfterMsg(old(conn.Pending()))
        decreases |conn.Pending()|
      {
        ghost var stream := conn.Pending();
        var n := conn.SockReadLine(msgBuf, MAXMSGSIZE);
        var line := msgBuf[..n];
        if n == 0 {
          return false;
        }
        if line == "\r\n" {
          return true;
        }
        if count >= FIELDS_MAX {
          return false;
        }
        var f := ScanField(line);
        if f.None? {
          return false;
        }
        var good := SetField(side, f.value);
        if !good {
          return false;
        }
        count := count + 1;
      }
    }
  }

  /** handle_replication_manager_message: what the factory of replica `own` does with the bytes of
      one connection. */
  method HandleRepManager(conn: BufferedSocket, msgBuf: array<char>, own: int, message: Message)
    returns (act: Action)
    requires conn.Valid() && msgBuf.Length == MAXMSGSIZE && msgBuf != conn.buf
    modifies message, conn, conn.fd, conn.buf, msgBuf
    ensures act == FactoryHears(old(conn.Pending()), own, old(message.View()), "")
  {
    hide ParseMsg, Fill, FactoryFields, Render;
    var ok := message.Read(Factory, conn, msgBuf);
    if !ok {
      return Nothing;
    }
    if message.replicaId != own {
      act := Nothing;
    } else if message.req == 0 {
      act := Spawn;
    } else if message.req == 1 {
      act := SendToServer(Render(FactoryFields(message.View(), MSG_REP_MGR), ""));
    } else if message.req == 2 {
      act := SendToServer(Render(FactoryFields(message.View(), MSG_SEND_CHKPT), ""));
    } else if message.req == 3 {
      act := SendToServer(Render(FactoryFields(message.View(), MSG_QUIESCE_START), ""));
    } else if message.req == 4 {
      act := SendToServer(Render(FactoryFields(message.View(), MSG_QUIESCE_STOP), ""));
    } else {
      act := Nothing;
    }
  }
}
