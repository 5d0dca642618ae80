/** What the server reads: its own smaller parser, and the inline form of a command. */
module ServerWire {
  import opened ByteStrings
  import opened Wire

  function FirstCRLF(s: Bytes): (i: nat)
    ensures i <= |s|
  {
    if |s| < 2 then |s|
    else if s[0] == CR && s[1] == LF then 0
    else 1 + FirstCRLF(s[1..])
  }

  /** Unlike the client's line, this one may have a line feed inside. */
  function ReadUntil(s: Bytes): (r: Parsed<Bytes>)
    ensures r.Ok? ==> |r.rest| < |s|
  {
    var i := FirstCRLF(s);
    if i + 2 <= |s| then Ok(s[..i], s[i + 2..]) else Fail(Closed)
  }

  function ReadNumber(s: Bytes): (r: Parsed<int>)
    ensures r.Ok? ==> |r.rest| < |s|
  {
    match ReadUntil(s)
    case Fail(e) => Fail(e)
    case Ok(line, rest) =>
      match ParseInt(line)
      case Some(n) => Ok(n, rest)
      case None => Fail(Malformed)
  }

  function ReadFloat(s: Bytes): (r: Parsed<Bytes>)
    ensures r.Ok? ==> |r.rest| < |s|
  {
    match ReadUntil(s)
    case Fail(e) => Fail(e)
    case Ok(line, rest) => Ok(Strip(line), rest)
  }

  /** A counted string. The terminator is read even where a negative count stands for null. */
  function ReadString(s: Bytes): (r: Parsed<Value>)
    ensures r.Ok? ==> |r.rest| < |s|
  {
    match ReadNumber(s)
    case Fail(e) => Fail(e)
    case Ok(n, rest) =>
      var size: nat := if n < 0 then 0 else n;
      if |rest| < size + 2 then Fail(Closed)
      else if rest[size..size + 2] != CRLF then Fail(Malformed)
      else Ok(if n < 0 then Null else Blob(rest[..size]), rest[size + 2..])
  }

  function ReadArray(s: Bytes): (r: Parsed<seq<Value>>)
    ensures r.Ok? ==> |r.rest| < |s|
    decreases |s|, 0
  {
    match ReadNumber(s)
    case Fail(e) => Fail(e)
    case Ok(n, rest) => ReadItems(n, rest)
  }

  function AsList(items: seq<Value>): Value {
    List(items)
  }

  function ReadBody(c: byte, s: Bytes): (r: Parsed<Value>)
    ensures r.Ok? ==> |r.rest| < |s|
    decreases |s|, 1
  {
    match c
    case 58 => Mapped(ReadNumber(s), n => Int(n))
    case 36 => ReadString(s)
    case 42 => Mapped(ReadArray(s), AsList)
    case 44 => Mapped(ReadFloat(s), text => Float(text))
    case _ => Fail(Malformed)
  }

  function Read(s: Bytes): (r: Parsed<Value>)
    ensures r.Ok? ==> |r.rest| < |s|
    decreases |s|, 2
  {
    if s == [] then Fail(Closed) else ReadBody(s[0], s[1..])
  }

  function ReadItems(n: int, s: Bytes): (r: Parsed<seq<Value>>)
    ensures r.Ok? ==> |r.rest| <= |s|
    decreases |s|, 3
  {
    if n == 0 then Ok([], s) else
      match Read(s)
      case Fail(e) => Fail(e)
      case Ok(v, rest) =>
        match ReadItems(n - 1, rest)
        case Fail(e) => Fail(e)
        case Ok(vs, rest') => Ok([v] + vs, rest')
  }

  function Split(s: Bytes): (parts: seq<Bytes>)
    ensures parts != []
  {
    if s == [] then [[]]
    else
      var parts := Split(s[1..]);
      if s[0] == SPACE then [[]] + parts else [[s[0]] + parts[0]] + parts[1..]
  }

  function StripAll(parts: seq<Bytes>): seq<Value> {
    if parts == [] then [] else [Blob(Strip(parts[0]))] + StripAll(parts[1..])
  }

  predicate IsMark(c: byte) {
    c == 58 || c == 42 || c == 36 || c == 44
  }

  function ArgsOf(v: Value): seq<Value> {
    if v.List? then v.items else [v]
  }

  /** One command, as the list of its name and arguments. */
  function ReadCommand(s: Bytes): (r: Parsed<seq<Value>>)
    ensures r.Ok? ==> |r.rest| < |s|
  {
    if s == [] then Fail(Closed)
    else if IsMark(s[0]) then Mapped(ReadBody(s[0], s[1..]), ArgsOf)
    else Mapped(ReadUntil(s[1..]), line => StripAll(Split([s[0]] + line + CRLF)))
  }

  /** Every command delivered until the connection closes or a failure ends the reading loop. A list without a name
      fails. */
  function ReadCommands(s: Bytes): (seq<seq<Value>>, Error)
    decreases |s|
  {
    match ReadCommand(s)
    case Fail(e) => ([], e)
    case Ok(args, rest) =>
      if args == [] then ([], Malformed)
      else var (commands, e) := ReadCommands(rest); ([args] + commands, e)
  }

  // What the printer's output becomes.

  /** No line end inside, though there may be single carriage returns and line feeds. */
  predicate OneLine(text: Bytes) {
    forall i | 0 <= i < |text| - 1 :: !(text[i] == CR && text[i + 1] == LF)
  }

  lemma {:induction false} FirstCRLFAfter(text: Bytes, rest: Bytes)
    requires OneLine(text)
    ensures FirstCRLF(text + CRLF + rest) == |text|
  {
    if text == [] {
      assert text + CRLF + rest == CRLF + rest;
    } else {
      var s := text + CRLF + rest;
      assert s[1..] == text[1..] + CRLF + rest;
      assert s[0] == text[0] && s[1] == if |text| > 1 then text[1] else CR;
      FirstCRLFAfter(text[1..], rest);
    }
  }

  /** A line goes up to the first carriage return that a line feed follows, over any single ones. */
  lemma UntilReads(text: Bytes, rest: Bytes)
    requires OneLine(text)
    ensures ReadUntil(text + CRLF + rest) == Ok(text, rest)
  {
    FirstCRLFAfter(text, rest);
    var s := text + CRLF + rest;
    assert s[..|text|] == text && s[|text| + 2..] == rest;
  }

  lemma NoFeedIsOneLine(text: Bytes)
    requires LF !in text
    ensures OneLine(text)
  {
    forall i | 0 <= i < |text| ensures text[i] != LF {
      assert text[i] in text;
    }
  }

  lemma NumberReads(n: int, rest: Bytes)
    ensures ReadNumber(IntText(n) + CRLF + rest) == Ok(n, rest)
  {
    IntTextParses(n);
    NoFeedIsOneLine(IntText(n));
    UntilReads(IntText(n), rest);
  }

  lemma StringReads(data: Bytes, rest: Bytes)
    ensures ReadString(IntText(|data|) + CRLF + data + CRLF + rest) == Ok(Blob(data), rest)
  {
    var tail := data + CRLF + rest;
    assert tail[..|data|] == data && tail[|data|..|data| + 2] == CRLF && tail[|data| + 2..] == rest;
    NumberReads(|data|, tail);
    hide IntText, ReadNumber;
    assert IntText(|data|) + CRLF + data + CRLF + rest == IntText(|data|) + CRLF + tail;
  }

  /** The values the server's parser has a mark for. Null shares one, but its reader takes two bytes too many. */
  predicate ServerReads(v: Value)
    decreases v
  {
    match v
    case Int(_) => true
    case Str(_) => true
    case Float(_) => true
    case List(items) => ServerReadsAll(items)
    case Tuple(items) => ServerReadsAll(items)
    case _ => false
  }

  predicate ServerReadsAll(vs: seq<Value>)
    decreases vs
  {
    vs != [] ==> ServerReads(vs[0]) && ServerReadsAll(vs[1..])
  }

  /** The server keeps text as bytes. */
  function ServerNorm(v: Value): Value
    decreases v
  {
    match v
    case Str(utf8) => Blob(utf8)
    case List(items) => List(ServerNormAll(items))
    case Tuple(items) => List(ServerNormAll(items))
    case _ => v
  }

  function ServerNormAll(vs: seq<Value>): seq<Value>
    decreases vs
  {
    if vs == [] then [] else [ServerNorm(vs[0])] + ServerNormAll(vs[1..])
  }

  /** A negative count reads on until the stream ends or fails; it never gives an array. */
  lemma {:induction false} NegativeArrayFails(n: int, s: Bytes)
    requires n < 0
    ensures ReadItems(n, s).Fail?
    decreases |s|
  {
    if Read(s).Ok? { NegativeArrayFails(n - 1, Read(s).rest); }
  }

  /** The reader failed, or it ran over a line end that is not part of the value. */
  predicate RanOver<T>(r: Parsed<T>, rest: Bytes) {
    r.Ok? ==> |rest| >= 2 && rest[..2] == CRLF && r.rest == rest[2..]
  }

  lemma ServerScalar(v: Value, rest: Bytes)
    requires WellFormed(v) && Pack(v).Some? && !v.List? && !v.Tuple?
    ensures
      var r := Read(Pack(v).value + rest);
      if ServerReads(v) then r == Ok(ServerNorm(v), rest) else RanOver(r, rest)
  {
    hide IntText, ReadNumber, ReadUntil, ReadString, Strip;
    var s := Pack(v).value + rest;
    match v
    case Null =>
      NullRunsOver(rest);
      assert s[1..] == [MINUS, 49] + CRLF + rest;
    case Int(n) =>
      NumberReads(n, rest);
      assert s[1..] == IntText(n) + CRLF + rest;
    case Str(utf8) =>
      StringReads(utf8, rest);
      assert s[1..] == IntText(|utf8|) + CRLF + utf8 + CRLF + rest;
    case Float(text) =>
      NoFeedIsOneLine(text);
      UntilReads(text, rest);
      assert s[1..] == text + CRLF + rest;
    case _ =>
  }

  lemma MinusOneReads(rest: Bytes)
    ensures ReadNumber([45, 49] + CRLF + rest) == Ok(-1, rest)
  {
    assert IntText(-1) == [45, 49];
    NumberReads(-1, rest);
  }

  lemma DollarReads(s: Bytes)
    requires s != [] && s[0] == 36
    ensures Read(s) == ReadString(s[1..])
  {}

  /** Reading a null takes two bytes that are not part of it, and they must be a line end. */
  lemma NullTakesTwoMore(rest: Bytes)
    ensures Read([36, 45, 49, 13, 10] + rest) ==
      if |rest| < 2 then Fail(Closed) else if rest[..2] == [13, 10] then Ok(Null, rest[2..]) else Fail(Malformed)
  {
    hide Read, ReadNumber, ReadString;
    MinusOneReads(rest);
    var s := [45, 49] + CRLF + rest;
    NegativeStringReads(s, -1, rest);
    DollarReads([36] + s);
    NullBytes(rest);
    assert ([36] + s)[1..] == s;
  }

  lemma NullBytes(rest: Bytes)
    ensures [36, 45, 49, 13, 10] + rest == [36] + ([45, 49] + CRLF + rest)
  {
    assert [36, 45, 49, 13, 10] == [36] + ([45, 49] + CRLF);
  }

  lemma NegativeStringReads(s: Bytes, n: int, rest: Bytes)
    requires n < 0 && ReadNumber(s) == Ok(n, rest)
    ensures ReadString(s) ==
      if |rest| < 2 then Fail(Closed) else if rest[..2] == [13, 10] then Ok(Null, rest[2..]) else Fail(Malformed)
  {
    hide ReadNumber;
    assert |rest| >= 2 ==> rest[0..2] == rest[..2];
  }

  lemma NullRunsOver(rest: Bytes)
    ensures RanOver(ReadString([MINUS, 49] + CRLF + rest), rest)
  {
    assert IntText(-1) == [MINUS, 49];
    NumberReads(-1, rest);
  }

  lemma ListReads(s: Bytes, n: int, tail: Bytes, rest: Bytes)
    requires s != [] && s[0] == 42 && ReadNumber(s[1..]) == Ok(n, tail)
    ensures Read(s) == Mapped(ReadItems(n, tail), AsList)
    ensures RanOver(ReadItems(n, tail), rest) ==> RanOver(Read(s), rest)
  {
    assert ReadArray(s[1..]) == ReadItems(n, tail);
  }

  lemma MarkFirst(v: Value)
    requires Pack(v).Some?
    ensures Pack(v).value != [] && Pack(v).value[0] != CR
  {}

  lemma {:induction false} ServerParsesBack(v: Value, rest: Bytes)
    requires WellFormed(v) && Pack(v).Some?
    ensures
      var r := Read(Pack(v).value + rest);
      if ServerReads(v) then r == Ok(ServerNorm(v), rest) else RanOver(r, rest)
    decreases v, 1
  {
    match v
    case List(items) => ServerRoundTripList(v, items, rest);
    case Tuple(items) => ServerRoundTripList(v, items, rest);
    case _ => ServerScalar(v, rest);
  }

  lemma {:induction false} ServerRoundTripList(v: Value, items: seq<Value>, rest: Bytes)
    requires WellFormedAll(items) && PackAll(items).Some? && (v == List(items) || v == Tuple(items))
    requires Pack(v).Some? && Pack(v).value == Line(42, IntText(|items|)) + PackAll(items).value
    ensures
      var r := Read(Pack(v).value + rest);
      if ServerReadsAll(items) then r == Ok(List(ServerNormAll(items)), rest) else RanOver(r, rest)
    decreases v, 0
  {
    hide IntText, ReadNumber, ReadItems, Read, PackAll, RanOver;
    var s := Pack(v).value + rest;
    ServerRoundTripItems(items, rest);
    NumberReads(|items|, PackAll(items).value + rest);
    assert s[1..] == IntText(|items|) + CRLF + (PackAll(items).value + rest);
    ListReads(s, |items|, PackAll(items).value + rest, rest);
  }

  lemma ItemsReadOn(n: int, s: Bytes, rest: Bytes)
    requires n != 0
    ensures Read(s).Ok? && RanOver(ReadItems(n - 1, Read(s).rest), rest) ==> RanOver(ReadItems(n, s), rest)
    ensures Read(s).Fail? ==> ReadItems(n, s).Fail?
    ensures Read(s).Ok? ==>
      var tail := ReadItems(n - 1, Read(s).rest);
      if tail.Ok? then ReadItems(n, s) == Ok([Read(s).value] + tail.value, tail.rest) else ReadItems(n, s).Fail?
  {}

  lemma {:induction false} ServerRoundTripItems(vs: seq<Value>, rest: Bytes)
    requires WellFormedAll(vs) && PackAll(vs).Some?
    ensures
      var r := ReadItems(|vs|, PackAll(vs).value + rest);
      if ServerReadsAll(vs) then r == Ok(ServerNormAll(vs), rest) else RanOver(r, rest)
    decreases vs
  {
    if vs == [] {
      assert PackAll(vs).value + rest == rest;
    } else {
      var tail := PackAll(vs[1..]).value + rest;
      var s := PackAll(vs).value + rest;
      ItemsSplit(vs, rest);
      ServerParsesBack(vs[0], tail);
      ItemsReadOn(|vs|, s, rest);
      if ServerReads(vs[0]) {
        ServerRoundTripItems(vs[1..], rest);
        hide Read, ReadItems, Pack, PackAll, RanOver;
      } else if |vs| == 1 {
        hide Read, ReadItems, Pack;
        assert tail == rest;
      } else {
        MarkFirst(vs[1]);
        ItemsSplit(vs[1..], rest);
        hide Read, ReadItems, Pack, PackAll;
        assert tail != [] && tail[0] != CR;
      }
    }
  }

  /** The server reads exactly what was printed, whatever follows, precisely when the value has no null, boolean, byte
      string or dictionary in it. */
  lemma ServerRoundTrip(v: Value, rest: Bytes)
    requires WellFormed(v) && Printable(v)
    ensures
      var r := Read(Encoding(v) + rest);
      if ServerReads(v) then r == Ok(ServerNorm(v), rest) else RanOver(r, rest)
  {
    PrintsIff(v);
    ServerParsesBack(v, rest);
  }
}
