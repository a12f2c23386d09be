/** Buffered reading from a socket (src/util.c) and the payload loop over it (src/server.c),
    for every pattern of short and interrupted reads. */
module SockReader {
  import opened Types
  import opened Text

  /** How the kernel answers one read: interrupted, or with at most k bytes. */
  datatype ReadEvent = Interrupted | AtMost(k: nat)

  /** A connected socket: what the peer will have sent by the time it closes, and how the
      coming reads are going to be cut. A read past the scripted events is not cut. */
  class Socket {
    var stream: string
    var script: seq<ReadEvent>

    constructor (stream: string, script: seq<ReadEvent>)
      ensures this.stream == stream && this.script == script
    {
      this.stream := stream;
      this.script := script;
    }

    /** read(2): -1 when interrupted, 0 at the end of the stream, otherwise some bytes. */
    method Read(buf: array<char>, at: nat, n: nat) returns (nread: int)
      requires n > 0 && at + n <= buf.Length
      modifies this, buf
      ensures -1 <= nread <= n
      ensures nread == 0 <==> old(stream) == "" && nread != -1
      ensures nread == -1 ==> |script| < old(|script|) && stream == old(stream) && buf[..] == old(buf[..])
      ensures nread >= 0 ==> nread <= old(|stream|) && stream == old(stream)[nread..]
      ensures nread >= 0 ==> buf[..] == old(buf[..at]) + old(stream)[..nread] + old(buf[at + nread..])
      ensures |script| <= old(|script|)
    {
      var limit := n;
      if script != [] {
        var e := script[0];
        script := script[1..];
        if e.Interrupted? {
          return -1;
        }
        limit := if e.k == 0 then 1 else if e.k < n then e.k else n;
      }
      nread := if limit < |stream| then limit else |stream|;
      forall i | 0 <= i < nread {
        buf[at + i] := stream[i];
      }
      stream := stream[nread..];
    }
  }

  function Min(a: nat, b: nat): nat {
    if a < b then a else b
  }

  /** sock_readn: reads until n bytes or the end of the stream, restarting interrupted reads. */
  method SockReadN(fd: Socket, buf: array<char>, n: nat) returns (count: nat)
    requires n <= buf.Length
    modifies fd, buf
    ensures count == Min(n, old(|fd.stream|))
    ensures fd.stream == old(fd.stream)[count..]
    ensures buf[..count] == old(fd.stream)[..count]
  {
    var nleft, ptr := n, 0;
    ghost var all := fd.stream;
    while nleft > 0
      invariant 0 <= nleft <= n && ptr == n - nleft
      invariant ptr <= |all| && fd.stream == all[ptr..]
      invariant buf[..ptr] == all[..ptr]
      decreases nleft, |fd.script|
    {
      var nread := fd.Read(buf, ptr, nleft);
      if nread < 0 {
        nread := 0;
      } else if nread == 0 {
        break;
      }
      assert all[..ptr] + all[ptr..][..nread] == all[..ptr + nread];
      assert all[ptr..][nread..] == all[ptr + nread..];
      nleft := nleft - nread;
      ptr := ptr + nread;
    }
    count := n - nleft;
  }

  /** What a buffer position leaves to be read, ahead of the stream. */
  function Left(b: string, ptr: nat, pend: nat, stream: string): string
    requires ptr + pend <= |b|
  {
    b[ptr..ptr + pend] + stream
  }

  lemma AfterTaking(b: string, ptr: nat, pend: nat, stream: string, n: nat)
    requires ptr + pend <= |b| && pend > 0 && n > 0
    ensures var k := Min(n, pend);
      b[ptr..ptr + k] <= Left(b, ptr, pend, stream) && b[ptr..ptr + k] != ""
    ensures pend <= n || pend >= 2 * n ==>
      var k := Min(n, pend);
      AfterTake(b, ptr, pend, stream, n) == Left(b, ptr, pend, stream)[k..]
  {
  }

  lemma AfterTakeIs(b: string, ptr: nat, there: nat, stream: string, n: nat)
    requires n > 0 && ptr + there <= |b|
    ensures var left := there - Min(n, there);
      AfterTake(b, ptr, there, stream, n) == Left(b, ptr + Min(n, left), left, stream)
    ensures |b[ptr..ptr + Min(n, there)]| == Min(n, there)
  {
    hide Left;
  }

  /** sock_buf_read */
  class BufferedSocket {
    const fd: Socket
    const buf: array<char>
    var bufPtr: nat
    var bytesPend: nat

    ghost predicate Valid()
      reads this
    {
      buf.Length > 0 && bufPtr + bytesPend <= buf.Length
    }

    /** Everything the program has not been given yet. */
    ghost function Pending(): string
      requires Valid()
      reads this, fd, buf
    {
      Left(buf[..], bufPtr, bytesPend, fd.stream)
    }

    /** init_buf_fd */
    constructor (fd: Socket, capacity: nat)
      requires capacity > 0
      ensures Valid() && this.fd == fd && fresh(buf)
      ensures Pending() == fd.stream
    {
      this.fd := fd;
      buf := new char[capacity](_ => '\0');
      bufPtr, bytesPend := 0, 0;
    }

    method Refill()
      requires Valid()
      modifies this, fd, buf
      ensures Valid() && Pending() == old(Pending())
      ensures old(bytesPend) > 0 ==> bytesPend == old(bytesPend) && bufPtr == old(bufPtr)
      ensures bytesPend == 0 <==> Pending() == ""
    {
      if bytesPend == 0 {
        bytesPend := SockReadN(fd, buf, buf.Length);
        bufPtr := 0;
        assert buf[..][0..bytesPend] == buf[..bytesPend];
      }
    }

    /** sock_read. The count is shrunk before the pointer is moved, so the pointer moves by
        min(n, bytes left) instead of min(n, bytes there were). */
    method SockRead(n: nat) returns (bytes: string)
      requires Valid() && n > 0
      modifies this, fd, buf
      ensures Valid()
      ensures bytes <= old(Pending()) && |bytes| <= n
      ensures bytes == "" <==> old(Pending()) == ""
      ensures n == 1 ==> Pending() == old(Pending())[|bytes|..]
    {
      Refill();
      if bytesPend != 0 {
        bytes := TakeBuffered(n);
      } else {
        bytes := "";
      }
    }

    /** sock_readline: one line, or n characters, or whatever is left. */
    method SockReadLine(out: array<char>, n: nat) returns (len: nat)
      requires Valid() && n <= out.Length && out != buf
      modifies this, fd, buf, out
      ensures Valid()
      ensures len <= n && out[..len] == NextLine(old(Pending()), n)
      ensures Pending() == old(Pending())[len..]
    {
      ghost var all := Pending();
      var nleft := n;
      while nleft > 0
        invariant Valid() && 0 <= nleft <= n && n - nleft <= |all|
        invariant Pending() == all[n - nleft..]
        invariant out[..n - nleft] == all[..n - nleft] && '\n' !in all[..n - nleft]
      {
        ghost var m := n - nleft;
        NextLineResumes(all, m, n);
        var c := SockRead(1);
        if c == "" {
          assert NextLine(all[m..], nleft) == "";
          return n - nleft;
        }
        hide NextLine;
        NextChar(all, m, n, c);
        out[n - nleft] := c[0];
        nleft := nleft - 1;
        if c[0] == '\n' {
          return n - nleft;
        }
      }
      NextLineResumes(all, n, n);
      assert NextLine(all[n..], 0) == "";
      return n;
    }

    method TakeBuffered(n: nat) returns (bytes: string)
      requires Valid() && n > 0 && bytesPend > 0
      modifies this
      ensures Valid()
      ensures bytes != "" && bytes <= old(Pending()) && |bytes| == Min(n, old(bytesPend))
      ensures Pending() == AfterTake(buf[..], old(bufPtr), old(bytesPend), fd.stream, n)
      ensures old(bytesPend) <= n || old(bytesPend) >= 2 * n ==> Pending() == old(Pending())[|bytes|..]
    {
      hide Left, AfterTake;
      var k := Min(n, bytesPend);
      bytes := buf[..][bufPtr..bufPtr + k];
      AfterTaking(buf[..], bufPtr, bytesPend, fd.stream, n);
      AfterTakeIs(buf[..], bufPtr, bytesPend, fd.stream, n);
      bytesPend := bytesPend - k;
      bufPtr := bufPtr + Min(n, bytesPend);
    }
  }

  lemma NextChar(all: string, m: nat, n: nat, c: string)
    requires m < n && m <= |all| && c != "" && |c| <= 1 && c <= all[m..]
    requires '\n' !in all[..m]
    ensures m < |all| && c[0] == all[m] && all[..m + 1] == all[..m] + c
    ensures c[0] == '\n' ==> NextLine(all, n) == all[..m + 1]
    ensures c[0] != '\n' ==> '\n' !in all[..m + 1]
  {
    NextLineResumes(all, m, n);
    assert c == all[m..m + 1];
  }

  /** sizeof(struct message_modify) */
  const MAXMSGSIZE: nat := 2088

  /** The payload loop of handle_connection. Reading 0 bytes leaves every variable of the loop
      as it was, and at the end of the stream every later read is 0 bytes too, so the loop then
      never ends: that outcome is reported as done == false. */
  method ReadPayload(conn: BufferedSocket, msgBuf: array<char>, size: nat)
    returns (data: array<char>, done: bool)
    requires conn.Valid() && msgBuf.Length == MAXMSGSIZE && msgBuf != conn.buf
    modifies conn, conn.fd, conn.buf, msgBuf
    ensures conn.Valid() && fresh(data) && data.Length == size
    ensures done <==> size <= |old(conn.Pending())|
    ensures done ==> data[..] == old(conn.Pending())[..size]
    ensures done ==> |conn.Pending()| <= |old(conn.Pending())| - size
  {
    data := new char[size](_ => '\0');
    ghost var all := conn.Pending();
    var toread, nread := size, 0;
    if size == 0 {
      return data, true;
    }
    while true
      invariant conn.Valid() && fresh(data) && data.Length == size
      invariant 0 < toread == size - nread && nread <= |all|
      invariant conn.Pending() == all[nread..] && data[..nread] == all[..nread]
      decreases toread
    {
      var n := ReadPiece(conn, msgBuf, data, nread, toread, all);
      var k := Min(toread, n);
      if n == 0 {
        return data, false;
      }
      nread := nread + n;
      toread := toread - k;
      if toread == 0 {
        assert data[..] == data[..size];
        return data, true;
      }
    }
  }

  /** One turn of the loop: a line is read and its wanted part copied behind the data so far. */
  method ReadPiece(conn: BufferedSocket, msgBuf: array<char>, data: array<char>, nread: nat, toread: nat,
                   ghost all: string)
    returns (n: nat)
    requires conn.Valid() && msgBuf.Length == MAXMSGSIZE && msgBuf != conn.buf
    requires data != msgBuf && data != conn.buf && nread + toread == data.Length
    requires nread <= |all| && conn.Pending() == all[nread..] && data[..nread] == all[..nread]
    modifies conn, conn.fd, conn.buf, msgBuf, data
    ensures conn.Valid() && nread + n <= |all| && conn.Pending() == all[nread + n..]
    ensures n == 0 <==> nread == |all|
    ensures data[..nread + Min(toread, n)] == all[..nread + Min(toread, n)]
  {
    hide NextLine;
    n := conn.SockReadLine(msgBuf, MAXMSGSIZE);
    PieceOf(all, nread, n);
    var k := Min(toread, n);
    assert msgBuf[..k] == msgBuf[..n][..k] == all[nread..nread + n][..k] == all[nread..nread + k];
    CopyPiece(data, nread, msgBuf, k, all);
  }

  lemma PieceOf(all: string, at: nat, n: nat)
    requires at <= |all| && n == |NextLine(all[at..], MAXMSGSIZE)|
    ensures at + n <= |all| && NextLine(all[at..], MAXMSGSIZE) == all[at..at + n]
    ensures all[at..][n..] == all[at + n..]
    ensures n == 0 <==> at == |all|
  {
  }

  /** memcpy of the first k bytes of msgBuf to data + at. */
  method CopyPiece(data: array<char>, at: nat, msgBuf: array<char>, k: nat, ghost all: string)
    requires data != msgBuf && at + k <= data.Length && k <= msgBuf.Length && at + k <= |all|
    requires data[..at] == all[..at] && msgBuf[..k] == all[at..at + k]
    modifies data
    ensures data[..at + k] == all[..at + k]
  {
    forall i | 0 <= i < k {
      data[at + i] := msgBuf[i];
    }
    assert forall i :: 0 <= i < k ==> data[at + i] == old(msgBuf[..k])[i];
  }

  /** The misplaced pointer is harmless, whatever the buffer and the stream hold, if and only if
      there were at most n bytes or at least 2n: otherwise some buffer makes it give back bytes that
      were given already, or skip some. */
  lemma AdvanceIsRightIff(n: nat, there: nat)
    requires n > 0 && there > 0
    ensures (forall b: string, ptr: nat, stream: string :: ptr + there <= |b| ==>
               AfterTake(b, ptr, there, stream, n) == Left(b, ptr, there, stream)[Min(n, there)..])
            <==> there <= n || there >= 2 * n
  {
    var k := Min(n, there);
    if there <= n || there >= 2 * n {
      forall b: string, ptr: nat, stream: string | ptr + there <= |b|
        ensures AfterTake(b, ptr, there, stream, n) == Left(b, ptr, there, stream)[k..]
      {
        AfterTaking(b, ptr, there, stream, n);
      }
    } else {
      var b := seq(there, i => if i == n then 'x' else 'y');
      assert Left(b, 0, there, "")[n..][0] == 'x';
      assert AfterTake(b, 0, there, "", n)[0] == 'y';
    }
  }

  /** What a buffer of `there` bytes at ptr leaves to be read once TakeBuffered has moved on. */
  function AfterTake(b: string, ptr: nat, there: nat, stream: string, n: nat): string
    requires n > 0 && ptr + there <= |b|
  {
    var left := there - Min(n, there);
    Left(b, ptr + Min(n, left), left, stream)
  }
}
