/** The client's parser, reading from a socket buffer. */
module ClientParser {
  import opened Wrappers
  import opened ByteStrings
  import opened SocketBuffers
  import opened Wire
  import opened RoundTrips
  import opened Replies

  class LiveLockConnection {
    const buffer: SocketBuffer

    ghost predicate Valid()
      reads this, buffer, buffer.sock, buffer.buffer
    {
      buffer.Valid()
    }

    ghost function Stream(): Bytes
      reads this, buffer, buffer.sock, buffer.buffer
      requires Valid()
    {
      buffer.Stream()
    }

    constructor (buffer: SocketBuffer)
      requires buffer.Valid()
      ensures this.buffer == buffer
    {
      this.buffer := buffer;
    }

    method ReadInt() returns (r: Outcome<int>)
      requires Valid()
      modifies buffer, buffer.sock, buffer.buffer
      ensures Valid() && Agrees(ByteStrings.ReadInt(old(Stream())), r, Stream())
    {
      var line := buffer.ReadLine();
      if line.Failed? { return Failed(line.error); }
      var n := ParseInt(line.value);
      return if n.Some? then Got(n.value) else Failed(Malformed);
    }

    method ReadBool() returns (r: Outcome<bool>)
      requires Valid()
      modifies buffer, buffer.sock, buffer.buffer
      ensures Valid() && Agrees(ParseBool(old(Stream())), r, Stream())
    {
      var line := buffer.ReadLine();
      if line.Failed? { return Failed(line.error); }
      if line.value == [116] { return Got(true); }
      if line.value == [102] { return Got(false); }
      return Failed(Malformed);
    }

    method ReadFloat() returns (r: Outcome<Bytes>)
      requires Valid()
      modifies buffer, buffer.sock, buffer.buffer
      ensures Valid() && Agrees(ParseFloat(old(Stream())), r, Stream())
    {
      var line := buffer.ReadLine();
      if line.Failed? { return Failed(line.error); }
      return Got(Strip(line.value));
    }

    method ReadBytes() returns (r: Outcome<Option<Bytes>>)
      requires Valid()
      modifies buffer, buffer.sock, buffer.buffer
      ensures Valid() && Agrees(ReadCounted(old(Stream())), r, Stream())
    {
      var len := ReadInt();
      if len.Failed? { return Failed(len.error); }
      if len.value < 0 { return Got(None); }
      ghost var s := Stream();
      var line := buffer.Read(if len.value + 2 > 2 then len.value + 2 else 2, false);
      if line.Failed? { return Failed(line.error); }
      var data := line.value;
      CountedEnd(s, len.value);
      if data[|data| - 1] != LF { return Failed(Malformed); }
      if data[|data| - 2] != CR { return Failed(Malformed); }
      assert data[..|data| - 2] == s[..len.value];
      if len.value == 0 { return Got(Some([])); }
      return Got(Some(data[..|data| - 2]));
    }

    method ReadArray() returns (r: Outcome<seq<Value>>)
      requires Valid()
      modifies buffer, buffer.sock, buffer.buffer
      ensures Valid() && Agrees(ParseArray(old(Stream())), r, Stream())
      decreases |Stream()|, 0
    {
      hide ByteStrings.ReadInt;
      var len := ReadInt();
      if len.Failed? { return Failed(len.error); }
      var left := len.value;
      ghost var all := ParseItems(left, Stream());
      NothingPrefixed(all);
      var items: seq<Value> := [];
      while left != 0
        invariant Valid() && |Stream()| < |old(Stream())|
        invariant all == Prefixed(items, ParseItems(left, Stream()))
        decreases |Stream()|
      {
        ItemsStep(items, left, Stream());
        var c := buffer.Read(1, false);
        if c.Failed? { return Failed(c.error); }
        var value := ReceiveResp(c.value[0]);
        if value.Failed? { return Failed(value.error); }
        items, left := items + [value.value], left - 1;
      }
      assert items + [] == items;
      return Got(items);
    }

    method ReadDict() returns (r: Outcome<seq<Pair>>)
      requires Valid()
      modifies buffer, buffer.sock, buffer.buffer
      ensures Valid() && Agrees(ParseDict(old(Stream())), r, Stream())
      decreases |Stream()|, 0
    {
      hide ByteStrings.ReadInt, ParsePairs, ParseBody, Put, Hashable;
      var len := ReadInt();
      if len.Failed? { return Failed(len.error); }
      var left := len.value;
      ghost var all := ParsePairs(left, Stream(), []);
      var pairs: seq<Pair> := [];
      while left != 0
        invariant Valid() && |Stream()| < |old(Stream())|
        invariant all == ParsePairs(left, Stream(), pairs)
        decreases |Stream()|
      {
        DictStep(left, Stream(), pairs);
        var c := buffer.Read(1, false);
        if c.Failed? { return Failed(c.error); }
        var key := ReceiveResp(c.value[0]);
        if key.Failed? { return Failed(key.error); }
        c := buffer.Read(1, false);
        if c.Failed? { return Failed(c.error); }
        var value := ReceiveResp(c.value[0]);
        if value.Failed? { return Failed(value.error); }
        if !Hashable(key.value) { return Failed(Malformed); }
        pairs, left := Put(pairs, key.value, value.value), left - 1;
      }
      DictDone(Stream(), pairs);
      return Got(pairs);
    }

    method ReceiveResp(c: byte) returns (r: Outcome<Value>)
      requires Valid()
      modifies buffer, buffer.sock, buffer.buffer
      ensures Valid() && Agrees(ParseBody(c, old(Stream())), r, Stream())
      decreases |Stream()|, 1
    {
      match c
      case 58 =>
        var n := ReadInt();
        return if n.Got? then Got(Int(n.value)) else Failed(n.error);
      case 94 =>
        var data := ReadBytes();
        return if data.Got? then Got(BlobOrNull(data.value)) else Failed(data.error);
      case 42 =>
        var items := ReadArray();
        return if items.Got? then Got(List(items.value)) else Failed(items.error);
      case 36 =>
        var data := ReadBytes();
        return if data.Got? then Got(StrOrNull(data.value)) else Failed(data.error);
      case 37 =>
        var pairs := ReadDict();
        return if pairs.Got? then Got(Dict(pairs.value)) else Failed(pairs.error);
      case 35 =>
        var b := ReadBool();
        return if b.Got? then Got(Bool(b.value)) else Failed(b.error);
      case 44 =>
        var text := ReadFloat();
        return if text.Got? then Got(Float(text.value)) else Failed(text.error);
      case _ =>
        return Failed(Malformed);
    }

    method ReadResponse() returns (r: Outcome<Response>)
      requires Valid()
      modifies buffer, buffer.sock, buffer.buffer
      ensures Valid() && Agrees(ReadReply(old(Stream())), r, Stream())
    {
      var start := buffer.Read(1, false);
      if start.Failed? { return Failed(start.error); }
      var c := start.value[0];
      if IsMark(c) {
        var value := ReceiveResp(c);
        return if value.Got? then Got(Data(value.value)) else Failed(value.error);
      } else if c == 43 {
        var line := buffer.ReadLine();
        return if line.Got? then Got(Plain(line.value)) else Failed(line.error);
      } else if c == 45 {
        var line := buffer.ReadLine();
        if line.Failed? { return Failed(line.error); }
        var code := FirstField(line.value);
        var message := Strip(Without(line.value, code));
        if code == [] { return Got(Raised(None, message)); }
        var n := ParseInt(code);
        return if n.Some? then Got(Raised(Some(n.value), message)) else Failed(Malformed);
      } else {
        return Failed(Malformed);
      }
    }
  }

  lemma CountedEnd(s: Bytes, n: nat)
    ensures n + 2 <= |s| ==> s[n..n + 2] == [s[n], s[n + 1]] && s[..n + 2][..n] == s[..n]
  {}

  lemma DictDone(s: Bytes, pairs: seq<Pair>)
    ensures ParsePairs(0, s, pairs) == Ok(pairs, s)
  {}

  /** One turn of the dictionary loop, read by read. */
  lemma DictStep(n: int, s: Bytes, pairs: seq<Pair>)
    requires n != 0
    ensures s == [] ==> ParsePairs(n, s, pairs) == Fail(Closed)
    ensures s != [] ==>
      var k := ParseBody(s[0], s[1..]);
      if k.Fail? then ParsePairs(n, s, pairs) == Fail(k.error)
      else if k.rest == [] then ParsePairs(n, s, pairs) == Fail(Closed)
      else
        var v := ParseBody(k.rest[0], k.rest[1..]);
        if v.Fail? then ParsePairs(n, s, pairs) == Fail(v.error)
        else if !Hashable(k.value) then ParsePairs(n, s, pairs) == Fail(Malformed)
        else ParsePairs(n, s, pairs) == ParsePairs(n - 1, v.rest, Put(pairs, k.value, v.value))
  {
    hide ParseBody, Hashable, Put;
  }

  lemma ItemsStep(items: seq<Value>, n: int, s: Bytes)
    requires n != 0
    ensures Parse(s).Fail? ==> ParseItems(n, s) == Fail(Parse(s).error)
    ensures Parse(s).Ok? ==>
      Prefixed(items, ParseItems(n, s)) == Prefixed(items + [Parse(s).value], ParseItems(n - 1, Parse(s).rest))
  {
    if Parse(s).Ok? && ParseItems(n - 1, Parse(s).rest).Ok? {
      var tail := ParseItems(n - 1, Parse(s).rest);
      assert items + ([Parse(s).value] + tail.value) == items + [Parse(s).value] + tail.value;
    }
  }

  /** However the encoding of a value and what follows it are split into chunks, the client reads the value back
      and leaves the stream right behind it; it fails precisely when a dictionary in the value is keyed by a
      sequence. */
  method ReadsBack(v: Value, rest: Bytes, chunks: seq<Bytes>, readSize: nat)
    returns (r: Outcome<Value>, connection: LiveLockConnection)
    requires WellFormed(v) && Printable(v) && readSize > 0
    requires NonEmpty(chunks) && Flatten(chunks) == Encoding(v) + rest
    ensures fresh(connection) && connection.Valid()
    ensures ScalarKeys(v) ==> r == Got(Norm(v)) && connection.Stream() == rest
    ensures !ScalarKeys(v) ==> r == Failed(Malformed)
  {
    RoundTrip(v, rest);
    var sock := new Socket(chunks);
    var buffer := new SocketBuffer(sock, readSize);
    connection := new LiveLockConnection(buffer);
    var c := buffer.Read(1, false);
    r := connection.ReceiveResp(c.value[0]);
  }
}
