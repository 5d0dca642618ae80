/** A reading buffer over a socket that delivers its bytes in arbitrary chunks. */
module SocketBuffers {
  import opened Wrappers
  import opened ByteStrings

  function Flatten(chunks: seq<Bytes>): Bytes {
    if chunks == [] then [] else chunks[0] + Flatten(chunks[1..])
  }

  predicate NonEmpty(chunks: seq<Bytes>) {
    [] !in chunks
  }

  /** What the peer will send before it closes, split at arbitrary points. */
  class Socket {
    var incoming: seq<Bytes>

    constructor (incoming: seq<Bytes>)
      ensures this.incoming == incoming
    {
      this.incoming := incoming;
    }

    /** At most `size` bytes of what has arrived; nothing once the peer has closed. */
    method Recv(size: nat) returns (data: Bytes)
      requires size > 0 && NonEmpty(incoming)
      modifies this
      ensures NonEmpty(incoming) && |data| <= size
      ensures data + Flatten(incoming) == Flatten(old(incoming))
      ensures data == [] <==> old(incoming) == []
      ensures data == [] ==> incoming == []
    {
      if incoming == [] { return []; }
      var chunk := incoming[0];
      assert forall c | c in incoming[1..] :: c in incoming;
      assert chunk in incoming;
      if |chunk| <= size {
        data, incoming := chunk, incoming[1..];
      } else {
        data := chunk[..size];
        ghost var tail := Flatten(incoming[1..]);
        assert chunk + tail == data + (chunk[size..] + tail);
        incoming := [chunk[size..]] + incoming[1..];
        assert incoming[1..] == old(incoming)[1..];
      }
    }
  }

  /** A byte string with a cursor. */
  class BytesIO {
    var data: Bytes
    var pos: nat

    constructor ()
      ensures data == [] && pos == 0
    {
      data, pos := [], 0;
    }

    method Seek(p: nat)
      modifies this
      ensures data == old(data) && pos == p
    {
      pos := p;
    }

    /** Overwrites from the cursor on, filling a gap before it with zeros. */
    method Write(bytes: Bytes)
      modifies this
      ensures pos == old(pos) + |bytes|
      ensures old(pos) == old(|data|) ==> data == old(data) + bytes
      ensures |data| == if pos <= old(|data|) then old(|data|) else pos
      ensures data[old(pos)..pos] == bytes
      ensures forall i | 0 <= i < |data| && !(old(pos) <= i < pos) ::
        data[i] == if i < old(|data|) then old(data)[i] else 0
    {
      var before := if pos <= |data| then data[..pos] else data + seq(pos - |data|, _ => 0);
      var after := if pos + |bytes| <= |data| then data[pos + |bytes|..] else [];
      data, pos := before + bytes + after, pos + |bytes|;
    }

    method Read(n: nat) returns (bytes: Bytes)
      requires pos <= |data|
      modifies this
      ensures data == old(data) && pos == old(pos) + |bytes|
      ensures bytes == old(data[pos..if pos + n <= |data| then pos + n else |data|])
    {
      var end := if pos + n <= |data| then pos + n else |data|;
      bytes, pos := data[pos..end], end;
    }

    /** Up to and including the next line feed, or to the end. */
    method ReadLine() returns (bytes: Bytes)
      requires pos <= |data|
      modifies this
      ensures data == old(data) && pos == old(pos) + |bytes|
      ensures bytes == FirstLine(old(data[pos..]))
    {
      bytes := FirstLine(data[pos..]);
      pos := pos + |bytes|;
    }

    method Truncate()
      requires pos <= |data|
      modifies this
      ensures data == old(data[..pos]) && pos == old(pos)
    {
      data := data[..pos];
    }
  }

  function FirstLine(s: Bytes): (line: Bytes)
    ensures line <= s
  {
    var i := FirstLF(s);
    if i < |s| then s[..i + 1] else s
  }

  predicate EndsWithCRLF(s: Bytes) {
    |s| >= 2 && s[|s| - 2..] == CRLF
  }

  lemma {:induction false} FirstLFStays(s: Bytes, more: Bytes)
    requires FirstLF(s) < |s|
    ensures FirstLF(s + more) == FirstLF(s)
  {
    if s[0] != LF {
      assert (s + more)[1..] == s[1..] + more;
      FirstLFStays(s[1..], more);
    }
  }

  /** A buffered line that is complete is the line of the whole stream. */
  lemma CompleteLine(s: Bytes, more: Bytes)
    requires EndsWithCRLF(FirstLine(s))
    ensures
      var line := FirstLine(s);
      ReadLine(s + more) == Ok(line[..|line| - 2], s[|line|..] + more)
  {
    var line := FirstLine(s);
    assert line[|line| - 1] == LF && line[|line| - 2] == CR;
    FirstLFStays(s, more);
    var i := FirstLF(s);
    assert (s + more)[..i - 1] == line[..|line| - 2];
    assert (s + more)[i + 1..] == s[|line|..] + more;
  }

  lemma IncompleteLine(s: Bytes)
    requires !EndsWithCRLF(FirstLine(s))
    ensures ReadLine(s) == Fail(Closed)
  {
    var i := FirstLF(s);
    assert 0 < i < |s| ==> FirstLine(s)[i - 1..] == [s[i - 1], LF];
  }

  lemma TakenFromBuffer(unread: Bytes, later: Bytes, n: nat)
    requires n <= |unread|
    ensures (unread + later)[..n] == unread[..n] && (unread + later)[n..] == unread[n..] + later
  {}

  class SocketBuffer {
    const sock: Socket
    const socketReadSize: nat
    const buffer: BytesIO
    /** Bytes written to the buffer from the socket, and bytes read from the buffer. */
    var bytesWritten: nat
    var bytesRead: nat

    ghost predicate Valid()
      reads this, sock, buffer
    {
      && socketReadSize > 0 && NonEmpty(sock.incoming)
      && bytesRead <= bytesWritten == |buffer.data|
    }

    /** What has arrived and was not read yet. */
    ghost function Unread(): Bytes
      reads this, buffer
      requires bytesRead <= |buffer.data|
    {
      buffer.data[bytesRead..]
    }

    /** Everything a reader can still get. */
    ghost function Stream(): Bytes
      reads this, sock, buffer
      requires Valid()
    {
      Unread() + Flatten(sock.incoming)
    }

    constructor (sock: Socket, socketReadSize: nat)
      requires socketReadSize > 0 && NonEmpty(sock.incoming)
      ensures Valid() && this.sock == sock && this.socketReadSize == socketReadSize && fresh(buffer)
      ensures Stream() == Flatten(sock.incoming)
    {
      this.sock, this.socketReadSize := sock, socketReadSize;
      buffer := new BytesIO();
      bytesWritten, bytesRead := 0, 0;
      new;
      assert [] + Flatten(sock.incoming) == Flatten(sock.incoming);
    }

    method Length() returns (n: nat)
      requires Valid()
      ensures n == |Unread()|
    {
      n := bytesWritten - bytesRead;
    }

    /** Moves at least `length` bytes, or one chunk, from the socket to the buffer. */
    method ReadFromSocket(length: Option<nat>) returns (ok: bool)
      requires Valid() && (length.Some? ==> length.value > 0)
      modifies this, sock, buffer
      ensures Valid() && Stream() == old(Stream()) && bytesRead == old(bytesRead)
      ensures |Flatten(sock.incoming)| <= |Flatten(old(sock.incoming))|
      ensures ok ==> |Unread()| > |old(Unread())|
      ensures ok && length.Some? ==> |Unread()| >= |old(Unread())| + length.value
      ensures !ok ==> sock.incoming == []
      ensures !ok && length.Some? ==> |Unread()| < |old(Unread())| + length.value
      ensures !ok && length.None? ==> Unread() == old(Unread())
    {
      buffer.Seek(bytesWritten);
      var marker := 0;
      while true
        invariant Valid() && Stream() == old(Stream()) && bytesRead == old(bytesRead)
        invariant buffer.pos == bytesWritten == old(bytesWritten) + marker
        invariant marker == 0 ==> Unread() == old(Unread())
        invariant marker > 0 ==> length.Some? && marker < length.value
        decreases |Flatten(sock.incoming)|
      {
        ghost var unread := Unread();
        var data := sock.Recv(socketReadSize);
        if data == [] { return false; }
        buffer.Write(data);
        bytesWritten := bytesWritten + |data|;
        marker := marker + |data|;
        assert Unread() == unread + data;
        assert Stream() == unread + (data + Flatten(sock.incoming));
        if length.Some? && length.value > marker { continue; }
        break;
      }
      return true;
    }

    /** The next `length` bytes of the stream. With `readTerminator` two more are taken off it and dropped. */
    method Read(length: nat, readTerminator: bool) returns (r: Outcome<Bytes>)
      requires Valid()
      modifies this, sock, buffer
      ensures Valid()
      ensures
        var s := old(Stream());
        var n := if readTerminator then length + 2 else length;
        if n <= |s| then r == Got(s[..length]) && Stream() == s[n..]
        else r == Failed(Closed) && Stream() == s
    {
      var n := if readTerminator then length + 2 else length;
      ghost var s := Stream();
      var available := Length();
      if n > available {
        var ok := ReadFromSocket(Some(n - available));
        if !ok { return Failed(Closed); }
      }
      var data := Take(n);
      assert data[..length] == s[..length];
      return Got(if readTerminator then data[..|data| - 2] else data);
    }

    /** The next bytes of the buffer, which is purged once it has been read to its end, so that it does not grow
        for ever. */
    method Take(n: nat) returns (data: Bytes)
      requires Valid() && n <= |Unread()|
      modifies this, buffer
      ensures Valid() && |data| == n && data == old(Stream())[..n] && Stream() == old(Stream())[n..]
    {
      hide Flatten;
      ghost var unread, later := Unread(), Flatten(sock.incoming);
      buffer.Seek(bytesRead);
      data := buffer.Read(n);
      bytesRead := bytesRead + |data|;
      TakenFromBuffer(unread, later, n);
      if bytesRead == bytesWritten { Purge(); }
    }

    /** The line at the front of the stream, as the plain reader has it. */
    method ReadLine() returns (r: Outcome<Bytes>)
      requires Valid()
      modifies this, sock, buffer
      ensures Valid()
      ensures
        var s := old(Stream());
        match ByteStrings.ReadLine(s)
        case Ok(line, rest) => r == Got(line) && Stream() == rest
        case Fail(e) => r == Failed(e) && Stream() == s
    {
      hide FirstLine, ByteStrings.ReadLine;
      ghost var s := Stream();
      buffer.Seek(bytesRead);
      var data := buffer.ReadLine();
      while !EndsWithCRLF(data)
        invariant Valid() && Stream() == s && data == FirstLine(Unread())
        decreases |Flatten(sock.incoming)|
      {
        var ok := ReadFromSocket(None);
        if !ok {
          assert Unread() + [] == Unread();
          IncompleteLine(s);
          return Failed(Closed);
        }
        buffer.Seek(bytesRead);
        data := buffer.ReadLine();
      }
      ghost var unread := Unread();
      ghost var later := Flatten(sock.incoming);
      CompleteLine(unread, later);
      bytesRead := bytesRead + |data|;
      assert Unread() == unread[|data|..];
      if bytesRead == bytesWritten { Purge(); }
      return Got(data[..|data| - 2]);
    }

    method Purge()
      requires Valid() && bytesRead == bytesWritten
      modifies this, buffer
      ensures Valid() && Stream() == old(Stream()) && buffer.data == []
    {
      buffer.Seek(0);
      buffer.Truncate();
      bytesWritten, bytesRead := 0, 0;
    }
  }
}
