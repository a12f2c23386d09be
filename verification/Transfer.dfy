/** A checkpoint on its way from the exporting server to the importing one: header and image as one
    byte stream (write_check_point of src/chkpt.c), read by the field loop and the payload loop of
    handle_connection (src/server.c) and imported. */
module Transfer {
  import opened Types
  import opened Text
  import opened SockReader
  import opened Relay
  import opened MessageReader
  import Table
  import Checkpoint

  const MSG_CHK_PT := 6

  /** The header for an image of len bytes; `number` counts the checkpoints sent. */
  function HeaderFields(sender: int, number: nat, len: nat): seq<Field> {
    [Num("Client ID", sender), Field("Request No", Dec(number)), Num("Message Type", MSG_CHK_PT),
     Field("Data Length", Dec(len))]
  }

  /** What the exporting server writes on the connection. */
  function Sent(sender: int, number: nat, image: string): string {
    Render(HeaderFields(sender, number, |image|), image)
  }

  /** How receiving ends: the connection is dropped; the payload loop never ends, as the stream is
      too short; it copies a negative number of bytes; or the payload is complete. */
  datatype Received = Dropped | Starved | Overrun | Complete(message: Record, payload: string)

  /** The number of bytes to read is the 64-bit size cut to an int. */
  function Payload(m: Record, stream: string): Received {
    var toread := Int32(m.body.size);
    if toread < 0 then Overrun
    else if |stream| < toread then Starved
    else Complete(m, stream[..toread])
  }

  function Receive(stream: string): Received {
    match ParseMsg(stream, 0)
    case None => Dropped
    case Some(fs) =>
      match Fill(Server, FRESH, fs)
      case None => Dropped
      case Some(m) => Payload(m, AfterMsg(stream))
  }

  /** The header and payload loops of handle_connection. */
  method HandleConnection(conn: BufferedSocket, msgBuf: array<char>) returns (r: Received)
    requires conn.Valid() && msgBuf.Length == MAXMSGSIZE && msgBuf != conn.buf
    modifies conn, conn.fd, conn.buf, msgBuf
    ensures r == Receive(old(conn.Pending()))
  {
    hide ParseMsg, Fill, AfterMsg, NextLine;
    var message := new Message(FRESH);
    var ok := message.Read(Server, conn, msgBuf);
    if !ok {
      return Dropped;
    }
    ghost var stream := conn.Pending();
    var toread := Int32(message.body.size);
    if toread < 0 {
      return Overrun;
    }
    var data, done := ReadPayload(conn, msgBuf, toread);
    if !done {
      return Starved;
    }
    r := Complete(message.View(), data[..]);
    assert data[..] == stream[..toread];
  }

  // ---------- the header ----------

  /** Any printed natural number is accepted as an int, cut to 32 bits after saturating at 64. */
  lemma DecToInt(n: nat)
    ensures StrToInt(Dec(n)) == Some(Int32(ClampLong(n)))
  {
    MagnitudeReadBack(n);
    hide Dec, Magnitude0;
    StrToLongSigned(Dec(n), n);
  }

  lemma GoodDec(key: string, n: nat)
    requires key != "" && Plain(key) && ':' !in key && |key| <= 100 && n <= ULONG_MAX
    ensures Good(Field(key, Dec(n)))
  {
    DecShort(n, 20);
    hide Dec;
  }

  lemma HeaderGood(sender: int, number: nat, len: nat)
    requires IsInt32(sender) && number <= ULONG_MAX && len <= ULONG_MAX
    ensures AllGood(HeaderFields(sender, number, len)) && |HeaderFields(sender, number, len)| == 4
  {
    hide IntText, Dec, Num, Good;
    GoodNum("Client ID", sender);
    GoodDec("Request No", number);
    GoodNum("Message Type", MSG_CHK_PT);
    GoodDec("Data Length", len);
  }

  /** The payload size after the header. */
  function SizeOf(len: nat): nat {
    Int32(ClampLong(len)) % 0x1_0000_0000
  }

  function HeaderRead(sender: int, number: nat, len: nat): Record {
    FRESH.(msgType := MSG_CHK_PT,
           body := FRESH.body.(client := sender, reqNo := Int32(ClampLong(number)), size := SizeOf(len)))
  }

  lemma HeaderKvs(m: Record, n: nat)
    ensures ServerKv(m, Field("Request No", Dec(n))) == Some(m.(body := m.body.(reqNo := Int32(ClampLong(n)))))
    ensures ServerKv(m, Field("Data Length", Dec(n))) == Some(m.(body := m.body.(size := SizeOf(n))))
  {
    DecToInt(n);
    hide StrToInt, Dec;
  }

  lemma HeaderFills(sender: int, number: nat, len: nat)
    requires IsInt32(sender)
    ensures Fill(Server, FRESH, HeaderFields(sender, number, len)) == Some(HeaderRead(sender, number, len))
  {
    hide ServerKv, Fill, IntText, Dec, Int32, ClampLong;
    var a, b := Num("Client ID", sender), Field("Request No", Dec(number));
    var c, d := Num("Message Type", MSG_CHK_PT), Field("Data Length", Dec(len));
    var m1 := FRESH.(body := FRESH.body.(client := sender));
    var m2 := m1.(body := m1.body.(reqNo := Int32(ClampLong(number))));
    var m3 := m2.(msgType := MSG_CHK_PT);
    var m4 := m3.(body := m3.body.(size := SizeOf(len)));
    ServerKvs(FRESH, sender);
    HeaderKvs(m1, number);
    ServerKvs(m2, MSG_CHK_PT);
    HeaderKvs(m3, len);
    FillOne(Server, FRESH, a, [b] + ([c] + ([d] + [])), m1);
    FillOne(Server, m1, b, [c] + ([d] + []), m2);
    FillOne(Server, m2, c, [d] + [], m3);
    FillOne(Server, m3, d, [], m4);
    FillNothing(Server, m4);
    assert HeaderFields(sender, number, len) == [a] + ([b] + ([c] + ([d] + [])));
  }

  /** What follows a printed message on the connection is still there after reading it. */
  lemma {:induction false} AfterRendered(fs: seq<Field>, rest: string)
    requires AllGood(fs)
    ensures AfterMsg(Render(fs, rest)) == rest
    decreases |fs|
  {
    hide NextLine, Line, Good;
    if fs == [] {
      EmptyLineIsRead(rest);
      assert ("\r\n" + rest)[2..] == rest;
    } else {
      LineIsRead(fs[0], Render(fs[1..], rest));
      AfterRendered(fs[1..], rest);
    }
  }

  /** Whatever follows the image, the receiver reads the header the sender wrote, and then as many
      bytes as its reading of the length says. */
  lemma HeaderArrives(sender: int, number: nat, len: nat, rest: string)
    requires IsInt32(sender) && number <= ULONG_MAX && len <= ULONG_MAX
    ensures Receive(Render(HeaderFields(sender, number, len), rest)) == Payload(HeaderRead(sender, number, len), rest)
  {
    hide ParseMsg, Fill, AfterMsg, Render, HeaderFields, Good, HeaderRead, Payload;
    var fs := HeaderFields(sender, number, len);
    HeaderGood(sender, number, len);
    HeaderFills(sender, number, len);
    ReadBack(fs, rest, 0);
    AfterRendered(fs, rest);
  }

  // ---------- the image ----------

  const INT_MAX: nat := 0x7FFF_FFFF

  lemma SizeReadBack(len: nat)
    requires len <= ULONG_MAX
    ensures Int32(SizeOf(len)) == Int32(ClampLong(len))
    ensures Int32(ClampLong(len)) == len <==> len <= INT_MAX
  {
    Int32Cut(ClampLong(len));
  }

  lemma Int32Cut(v: int)
    ensures -0x8000_0000 <= Int32(v) < 0x8000_0000
    ensures Int32(Int32(v) % 0x1_0000_0000) == Int32(v)
    ensures -0x8000_0000 <= v < 0x8000_0000 ==> Int32(v) == v
  {
    var w := Int32(v);
    if w < 0 {
      assert w % 0x1_0000_0000 == w + 0x1_0000_0000;
    }
  }

  /** The payload is the image sent, whatever follows it, if and only if the image has fewer than
      2^31 bytes: its length is read as an int. */
  lemma ImageArrivesIff(sender: int, number: nat, image: string, more: string)
    requires IsInt32(sender) && number <= ULONG_MAX && |image| <= ULONG_MAX
    ensures Receive(Render(HeaderFields(sender, number, |image|), image + more))
         == Complete(HeaderRead(sender, number, |image|), image)
      <==> |image| <= INT_MAX
  {
    HeaderArrives(sender, number, |image|, image + more);
    SizeReadBack(|image|);
    hide Receive, Render, HeaderFields, Int32, ClampLong, SizeOf;
    var toread := Int32(SizeOf(|image|));
    assert HeaderRead(sender, number, |image|).body.size == SizeOf(|image|);
    if |image| <= INT_MAX {
      assert (image + more)[..toread] == image;
    } else if 0 <= toread <= |image + more| {
      assert |(image + more)[..toread]| == toread != |image|;
    }
  }

  /** A table sent as a checkpoint is rebuilt by its receiver, with every chain in order and up to
      status, whatever else follows on the connection. */
  lemma TableArrives(t: Table.Table, num: Status -> int, sender: int, number: nat, more: string)
    requires Table.Wf(t) && Checkpoint.AllFit(t.chains)
    requires IsInt32(sender) && number <= ULONG_MAX && |Checkpoint.Export(t, num)| <= INT_MAX
    ensures var r := Receive(Sent(sender, number, Checkpoint.Export(t, num)) + more);
      && r.Complete? && r.message.msgType == MSG_CHK_PT
      && Checkpoint.Import(|t.chains|, r.payload) == Table.Erase(t)
  {
    var image := Checkpoint.Export(t, num);
    hide Checkpoint.Export, Checkpoint.Import, Receive, HeaderFields, Table.Wf, Checkpoint.AllFit;
    Checkpoint.RoundTrip(t, num);
    ImageArrivesIff(sender, number, image, more);
    RenderThen(HeaderFields(sender, number, |image|), image, more);
  }

  lemma {:induction false} RenderThen(fs: seq<Field>, rest: string, more: string)
    ensures Render(fs, rest) + more == Render(fs, rest + more)
    decreases |fs|
  {
    hide Line;
    if fs == [] {
      assert "\r\n" + rest + more == "\r\n" + (rest + more);
    } else {
      RenderThen(fs[1..], rest, more);
      var line := Line(fs[0]);
      assert (line + Render(fs[1..], rest)) + more == line + (Render(fs[1..], rest) + more);
    }
  }

  /** The buffer of sock_buf_read. */
  const BUFFER: nat := 8192

  /** The whole transfer over a socket, for every pattern of short and interrupted reads: what the
      receiver imports is the table that was exported. */
  method ReceiveCheckpoint(fd: Socket, ghost t: Table.Table, ghost num: Status -> int,
                           ghost sender: int, ghost number: nat, ghost more: string)
    returns (image: string)
    requires Table.Wf(t) && Checkpoint.AllFit(t.chains)
    requires IsInt32(sender) && number <= ULONG_MAX && |Checkpoint.Export(t, num)| <= INT_MAX
    requires fd.stream == Sent(sender, number, Checkpoint.Export(t, num)) + more
    modifies fd
    ensures Checkpoint.Import(|t.chains|, image) == Table.Erase(t)
  {
    hide Checkpoint.Export, Checkpoint.Import, Receive, Table.Wf, Checkpoint.AllFit, Sent;
    var conn := new BufferedSocket(fd, BUFFER);
    var msgBuf := new char[MAXMSGSIZE](_ => '\0');
    var r := HandleConnection(conn, msgBuf);
    TableArrives(t, num, sender, number, more);
    image := r.payload;
  }
}
