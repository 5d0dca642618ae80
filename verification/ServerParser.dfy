/** The server's reading loop, over the stream of one connection. */
module ServerParser {
  import opened ByteStrings
  import opened Wire
  import opened ServerWire
  import opened CommandEncodings

  /** `stream` is everything the peer sends before it closes. */
  class StreamReader {
    var stream: Bytes

    constructor (stream: Bytes)
      ensures this.stream == stream
    {
      this.stream := stream;
    }

    method ReadExactly(n: nat) returns (r: Outcome<Bytes>)
      modifies this
      ensures n <= |old(stream)| ==> r == Got(old(stream)[..n]) && stream == old(stream)[n..]
      ensures n > |old(stream)| ==> r == Failed(Closed)
    {
      if n > |stream| { return Failed(Closed); }
      r, stream := Got(stream[..n]), stream[n..];
    }

    /** What comes before the next line end. */
    method ReadUntilCRLF() returns (r: Outcome<Bytes>)
      modifies this
      ensures Agrees(ReadUntil(old(stream)), r, stream)
    {
      var line := ReadUntil(stream);
      if line.Fail? { return Failed(line.error); }
      r, stream := Got(line.value), line.rest;
    }
  }

  class CommandProtocol {
    const reader: StreamReader
    /** The commands handed to the protocol so far. */
    var received: seq<seq<Value>>

    constructor (reader: StreamReader)
      ensures this.reader == reader && received == []
    {
      this.reader, received := reader, [];
    }

    method ReadNumber() returns (r: Outcome<int>)
      modifies reader
      ensures Agrees(ServerWire.ReadNumber(old(reader.stream)), r, reader.stream)
    {
      var line := reader.ReadUntilCRLF();
      if line.Failed? { return Failed(line.error); }
      var n := ParseInt(line.value);
      return if n.Some? then Got(n.value) else Failed(Malformed);
    }

    method ReadFloat() returns (r: Outcome<Bytes>)
      modifies reader
      ensures Agrees(ServerWire.ReadFloat(old(reader.stream)), r, reader.stream)
    {
      var line := reader.ReadUntilCRLF();
      if line.Failed? { return Failed(line.error); }
      return Got(Strip(line.value));
    }

    method ReadBytes() returns (r: Outcome<Value>)
      modifies reader
      ensures Agrees(ReadString(old(reader.stream)), r, reader.stream)
    {
      var len := ReadNumber();
      if len.Failed? { return Failed(len.error); }
      ghost var s := reader.stream;
      var line := reader.ReadExactly(if len.value + 2 > 2 then len.value + 2 else 2);
      if line.Failed? { return Failed(line.error); }
      var data := line.value;
      assert data[|data| - 2..] == [data[|data| - 2], data[|data| - 1]];
      assert s[|data| - 2..|data|] == data[|data| - 2..];
      if data[|data| - 1] != LF { return Failed(Malformed); }
      if data[|data| - 2] != CR { return Failed(Malformed); }
      if len.value < 0 { return Got(Null); }
      assert data[..|data| - 2] == s[..len.value];
      if len.value == 0 { return Got(Blob([])); }
      return Got(Blob(data[..|data| - 2]));
    }

    method ReadArray() returns (r: Outcome<seq<Value>>)
      modifies reader
      ensures Agrees(ServerWire.ReadArray(old(reader.stream)), r, reader.stream)
      decreases |reader.stream|, 0
    {
      hide ServerWire.ReadNumber;
      var len := ReadNumber();
      if len.Failed? { return Failed(len.error); }
      var left := len.value;
      ghost var all := ReadItems(left, reader.stream);
      NothingPrefixed(all);
      var items: seq<Value> := [];
      while left != 0
        invariant |reader.stream| < |old(reader.stream)|
        invariant all == Prefixed(items, ReadItems(left, reader.stream))
        decreases |reader.stream|
      {
        ItemsStep(items, left, reader.stream);
        var c := reader.ReadExactly(1);
        if c.Failed? { return Failed(c.error); }
        var value := ReceiveResp(c.value[0]);
        if value.Failed? { return Failed(value.error); }
        items, left := items + [value.value], left - 1;
      }
      assert items + [] == items;
      return Got(items);
    }

    method ReceiveResp(c: byte) returns (r: Outcome<Value>)
      modifies reader
      ensures Agrees(ReadBody(c, old(reader.stream)), r, reader.stream)
      decreases |reader.stream|, 1
    {
      match c
      case 58 =>
        var n := ReadNumber();
        return if n.Got? then Got(Int(n.value)) else Failed(n.error);
      case 36 =>
        r := ReadBytes();
      case 42 =>
        var items := ReadArray();
        return if items.Got? then Got(List(items.value)) else Failed(items.error);
      case 44 =>
        var text := ReadFloat();
        return if text.Got? then Got(Float(text.value)) else Failed(text.error);
      case _ =>
        return Failed(Malformed);
    }

    /** Reads commands until the stream ends or a failure stops the loop. */
    method ReceiveCommands() returns (error: Error)
      modifies this, reader
      ensures
        var (commands, e) := ReadCommands(old(reader.stream));
        received == old(received) + commands && error == e
    {
      hide ReadCommands, ReadBody, ReadUntil, StripAll, Split;
      ghost var all := received + ReadCommands(reader.stream).0;
      while true
        invariant received + ReadCommands(reader.stream).0 == all
        invariant ReadCommands(reader.stream).1 == ReadCommands(old(reader.stream)).1
        decreases |reader.stream|
      {
        ghost var s := reader.stream;
        CommandsStep(received, s);
        var c := reader.ReadExactly(1);
        if c.Failed? { return c.error; }
        assert c.value == [s[0]];
        var args: seq<Value>;
        if IsMark(c.value[0]) {
          var value := ReceiveResp(c.value[0]);
          if value.Failed? { return value.error; }
          args := ArgsOf(value.value);
        } else {
          var line := reader.ReadUntilCRLF();
          if line.Failed? { return line.error; }
          args := StripAll(Split(c.value + line.value + CRLF));
        }
        if args == [] { return Malformed; }
        received := received + [args];
      }
    }
  }

  lemma CommandsStep(received: seq<seq<Value>>, s: Bytes)
    ensures
      match ReadCommand(s)
      case Fail(e) => received + ReadCommands(s).0 == received && ReadCommands(s).1 == e
      case Ok(args, rest) =>
        if args == [] then received + ReadCommands(s).0 == received && ReadCommands(s).1 == Malformed
        else
          && received + ReadCommands(s).0 == received + [args] + ReadCommands(rest).0
          && ReadCommands(s).1 == ReadCommands(rest).1
  {}

  lemma ItemsStep(items: seq<Value>, n: int, s: Bytes)
    requires n != 0
    ensures Read(s).Fail? ==> ReadItems(n, s) == Fail(Read(s).error)
    ensures Read(s).Ok? ==>
      Prefixed(items, ReadItems(n, s)) == Prefixed(items + [Read(s).value], ReadItems(n - 1, Read(s).rest))
  {
    if Read(s).Ok? && ReadItems(n - 1, Read(s).rest).Ok? {
      var tail := ReadItems(n - 1, Read(s).rest);
      assert items + ([Read(s).value] + tail.value) == items + [Read(s).value] + tail.value;
    }
  }

  /** A pipeline of commands of both kinds is delivered as sent. */
  method DeliversPipeline(cs: seq<Sent>) returns (protocol: CommandProtocol)
    requires forall c | c in cs :: Sendable(c)
    ensures fresh(protocol) && protocol.received == Delivered(cs)
  {
    PipelineSplits(cs, []);
    assert Pipeline(cs) + [] == Pipeline(cs) && Delivered(cs) + [] == Delivered(cs);
    var reader := new StreamReader(Pipeline(cs));
    protocol := new CommandProtocol(reader);
    var error := protocol.ReceiveCommands();
  }
}
