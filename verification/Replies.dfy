/** The server's short replies, and what the client makes of them. */
module Replies {
  import opened Wrappers
  import opened ByteStrings
  import Wire
  import RoundTrips
  import Commands

  /** `Raised` is the exception that carries an error reply to the caller. */
  datatype Response = Plain(text: Bytes) | Data(value: Wire.Value) | Raised(code: Option<int>, message: Bytes)

  // The server's side.

  function ErrorText(code: nat): Option<string> {
    match code
    case 1 => Some("CONN required first")
    case 2 => Some("Wrong number of arguments")
    case 3 => Some("Already has client id")
    case 4 => Some("Unknown command")
    case 5 => Some("Wrong or no password")
    case 6 => Some("RESP protocol error")
    case 7 => Some("Server error")
    case 8 => Some("Key does not exists")
    case 9 => Some("Server terminating")
    case _ => None
  }

  predicate Letter(c: char) {
    'a' <= c <= 'z' || 'A' <= c <= 'Z'
  }

  predicate Letters(s: string) {
    forall c | c in s :: Letter(c) || c == ' '
  }

  function Ascii(s: string): Bytes
    requires Letters(s)
  {
    seq(|s|, i requires 0 <= i < |s| => assert s[i] in s; s[i] as int as byte)
  }

  lemma ErrorTable()
    ensures ErrorText(1) == Some("CONN required first") && ErrorText(2) == Some("Wrong number of arguments")
    ensures ErrorText(3) == Some("Already has client id") && ErrorText(4) == Some("Unknown command")
    ensures ErrorText(5) == Some("Wrong or no password") && ErrorText(6) == Some("RESP protocol error")
    ensures ErrorText(7) == Some("Server error") && ErrorText(8) == Some("Key does not exists")
    ensures ErrorText(9) == Some("Server terminating")
  {}

  lemma LowCodeLetters(code: nat)
    requires 1 <= code <= 4
    ensures Letters(ErrorText(code).value)
  {
    assert Letters("CONN required first");
    assert Letters("Wrong number of arguments");
    assert Letters("Already has client id");
    assert Letters("Unknown command");
  }

  lemma HighCodeLetters(code: nat)
    requires 5 <= code <= 9
    ensures Letters(ErrorText(code).value)
  {
    assert Letters("Wrong or no password");
    assert Letters("RESP protocol error");
    assert Letters("Server error");
    assert Letters("Key does not exists");
    assert Letters("Server terminating");
  }

  lemma ErrorTextLetters(code: nat)
    requires ErrorText(code).Some?
    ensures Letters(ErrorText(code).value)
  {
    hide Letters;
    if code <= 4 { LowCodeLetters(code); } else { HighCodeLetters(code); }
  }

  lemma ErrorTextEnds(code: nat)
    requires ErrorText(code).Some?
    ensures
      var s := ErrorText(code).value;
      s != "" && Letter(s[0]) && Letter(s[|s| - 1])
  {}

  /** A short reply as it is written to the connection; `encode` is the text encoding of a reply's text. */
  function ReplyBytes(reply: Commands.Reply, encode: string -> Bytes): Option<Bytes> {
    match reply
    case Text(text) => Some([43] + encode(text) + CRLF)
    case Error(code) =>
      (match ErrorText(code)
       case Some(s) => (ErrorTextLetters(code); Some([45] + IntText(code) + [SPACE] + Ascii(s) + CRLF))
       case None => None)
    case Data => None
  }

  // The client's side.

  function FirstField(s: Bytes): Bytes {
    if s == [] || s[0] == SPACE then [] else [s[0]] + FirstField(s[1..])
  }

  /** The text without any occurrence of `pattern`. */
  function Without(s: Bytes, pattern: Bytes): Bytes {
    if s == [] || pattern == [] then s
    else if pattern <= s then Without(s[|pattern|..], pattern)
    else [s[0]] + Without(s[1..], pattern)
  }

  predicate IsMark(c: byte) {
    c == 58 || c == 42 || c == 36 || c == 44 || c == 94 || c == 35 || c == 37
  }

  function ReadError(s: Bytes): Parsed<Response> {
    match ReadLine(s)
    case Fail(e) => Fail(e)
    case Ok(line, rest) =>
      var code := FirstField(line);
      var message := Strip(Without(line, code));
      if code == [] then Ok(Raised(None, message), rest)
      else match ParseInt(code)
        case Some(n) => Ok(Raised(Some(n), message), rest)
        case None => Fail(Malformed)
  }

  function ReadReply(s: Bytes): Parsed<Response> {
    if s == [] then Fail(Closed)
    else if IsMark(s[0]) then Wire.Mapped(Wire.ParseBody(s[0], s[1..]), v => Data(v))
    else if s[0] == 43 then Wire.Mapped(ReadLine(s[1..]), line => Plain(line))
    else if s[0] == 45 then ReadError(s[1..])
    else Fail(Malformed)
  }

  // What arrives.

  /** A line comes back whole, and the reader stops right behind it, precisely when no line feed is inside. */
  lemma TextArrivesIff(text: Bytes, rest: Bytes)
    ensures ReadReply([43] + text + CRLF + rest) == Ok(Plain(text), rest) <==> LF !in text
  {
    var s := text + CRLF + rest;
    assert ([43] + text + CRLF + rest)[1..] == s;
    if LF !in text {
      LineReads(text, rest);
    } else {
      var k :| 0 <= k < |text| && text[k] == LF;
      assert s[k] == LF;
      forall j | 0 <= j < FirstLF(s) ensures s[j] != LF {
        assert s[..FirstLF(s)][j] in s[..FirstLF(s)];
      }
    }
  }

  lemma {:induction false} NothingToRemove(s: Bytes, pattern: Bytes)
    requires pattern != [] && pattern[0] !in s
    ensures Without(s, pattern) == s
  {
    if s != [] {
      assert s[0] in s && forall b | b in s[1..] :: b in s;
      NothingToRemove(s[1..], pattern);
    }
  }

  lemma AsciiShape(s: string)
    requires Letters(s)
    ensures |Ascii(s)| == |s|
    ensures forall i | 0 <= i < |s| :: Ascii(s)[i] as int == s[i] as int
    ensures forall b | b in Ascii(s) :: b == SPACE || 65 <= b <= 122
  {
    forall b | b in Ascii(s) ensures b == SPACE || 65 <= b <= 122 {
      var i :| 0 <= i < |s| && Ascii(s)[i] == b;
      assert s[i] in s;
    }
  }

  lemma ErrorMessage(code: nat)
    requires ErrorText(code).Some?
    ensures Letters(ErrorText(code).value)
    ensures
      var message := Ascii(ErrorText(code).value);
      message != [] && !IsSpace(message[0]) && !IsSpace(message[|message| - 1])
    ensures forall d | d in Ascii(ErrorText(code).value) :: d == SPACE || 65 <= d <= 122
  {
    ErrorTextLetters(code);
    ErrorTextEnds(code);
    hide ErrorText;
    AsciiShape(ErrorText(code).value);
  }

  /** An error reply raises an exception with the code and the message the server looked up. */
  lemma ErrorArrives(code: nat, encode: string -> Bytes, rest: Bytes)
    requires ErrorText(code).Some?
    ensures
      var s := ErrorText(code).value;
      var reply := ReplyBytes(Commands.Error(code), encode);
      Letters(s) && reply.Some? && ReadReply(reply.value + rest) == Ok(Raised(Some(code), Ascii(s)), rest)
  {
    hide ErrorText, IntText, Ascii, Letters, ParseInt, ReadLine, Strip, FirstField, Without, IsSpace;
    ErrorMessage(code);
    var number, message := IntText(code), Ascii(ErrorText(code).value);
    var line := number + [SPACE] + message;
    IntTextParses(code);
    LineReads(line, rest);
    ErrorLineParses(code, message);
    var reply := ReplyBytes(Commands.Error(code), encode).value;
    assert (reply + rest)[1..] == line + CRLF + rest;
  }

  lemma ErrorLineParses(code: nat, message: Bytes)
    requires message != [] && !IsSpace(message[0]) && !IsSpace(message[|message| - 1])
    requires forall d | d in message :: !(48 <= d <= 57)
    ensures
      var line := IntText(code) + [SPACE] + message;
      IntText(code) != [] && FirstField(line) == IntText(code) && Strip(Without(line, IntText(code))) == message
  {
    var number := IntText(code);
    var line := number + [SPACE] + message;
    hide Digits, Strip, Without;
    assert SPACE !in number;
    WordEndsAtSpace(number, message);
    StripsLeadingSpace(message);
    assert number[0] in number;
    assert number[0] !in [SPACE] + message;
    RemovesOnce(number, [SPACE] + message);
    assert line == number + ([SPACE] + message);
  }

  lemma RemovesOnce(pattern: Bytes, s: Bytes)
    requires pattern != [] && pattern[0] !in s
    ensures Without(pattern + s, pattern) == s
  {
    assert (pattern + s)[|pattern|..] == s && pattern <= pattern + s;
    NothingToRemove(s, pattern);
  }

  lemma StripsLeadingSpace(message: Bytes)
    requires message != [] && !IsSpace(message[0]) && !IsSpace(message[|message| - 1])
    ensures Strip([SPACE] + message) == message
  {
    assert ([SPACE] + message)[1..] == message;
    assert StripLeft([SPACE] + message) == StripLeft(message);
  }

  /** A data reply arrives as the value that was sent, whatever follows, unless a dictionary in it is keyed by a
      sequence. */
  lemma DataArrivesIff(v: Wire.Value, rest: Bytes)
    requires Wire.WellFormed(v) && Wire.Printable(v)
    ensures
      var r := ReadReply(Wire.Encoding(v) + rest);
      if RoundTrips.ScalarKeys(v) then r == Ok(Data(RoundTrips.Norm(v)), rest) else r == Fail(Malformed)
  {
    RoundTrips.RoundTrip(v, rest);
    Wire.PrintsIff(v);
    StartsWithMark(v);
  }

  lemma StartsWithMark(v: Wire.Value)
    requires Wire.Pack(v).Some?
    ensures Wire.Pack(v).value != [] && IsMark(Wire.Pack(v).value[0])
  {}

  /** Short replies, byte by byte. */
  lemma ReplySamples(encode: string -> Bytes)
    requires encode("1") == [49] && encode("0") == [48]
    ensures ReplyBytes(Commands.Text("1"), encode) == Some([43, 49, 13, 10])
    ensures ReplyBytes(Commands.Text("0"), encode) == Some([43, 48, 13, 10])
    ensures ReplyBytes(Commands.Error(7), encode) ==
      Some([45, 55, 32, 83, 101, 114, 118, 101, 114, 32, 101, 114, 114, 111, 114, 13, 10])  // -7 Server error
  {
    assert [43] + encode("1") + CRLF == [43, 49, 13, 10] && [43] + encode("0") + CRLF == [43, 48, 13, 10];
    assert IntText(7) == [55];
    ErrorTextLetters(7);
    assert Ascii("Server error") == [83, 101, 114, 118, 101, 114, 32, 101, 114, 114, 111, 114];
    var bytes := [45] + IntText(7) + [SPACE] + Ascii("Server error") + CRLF;
    assert bytes == [45, 55, 32, 83, 101, 114, 118, 101, 114, 32, 101, 114, 114, 111, 114, 13, 10];
  }

  /** The answers that a lock object takes for yes and no. */
  lemma YesAndNoArrive(encode: string -> Bytes, rest: Bytes)
    requires encode("1") == [49] && encode("0") == [48]
    ensures
      var yes, no := ReplyBytes(Commands.Text("1"), encode), ReplyBytes(Commands.Text("0"), encode);
      && yes.Some? && ReadReply(yes.value + rest) == Ok(Plain([49]), rest)
      && no.Some? && ReadReply(no.value + rest) == Ok(Plain([48]), rest)
  {
    TextArrivesIff([49], rest);
    TextArrivesIff([48], rest);
  }

  /** Every occurrence of the code is taken out of an error line, not only the first. */
  lemma {:induction false} AllOccurrencesGo(s: Bytes, pattern: Bytes, more: Bytes)
    requires pattern != [] && pattern[0] !in s
    ensures Without(s + pattern + more, pattern) == s + Without(more, pattern)
  {
    var all := s + pattern + more;
    if s == [] {
      assert all == pattern + more && all[|pattern|..] == more && pattern <= all;
      assert Without(all, pattern) == Without(more, pattern);
    } else {
      assert s[0] in s && forall b | b in s[1..] :: b in s;
      assert all[1..] == s[1..] + pattern + more && all[0] == s[0];
      AllOccurrencesGo(s[1..], pattern, more);
      assert Without(all, pattern) == [s[0]] + Without(all[1..], pattern);
      hide Without;
      assert [s[0]] + (s[1..] + Without(more, pattern)) == s + Without(more, pattern);
    }
  }

  /** A reply that starts with none of the marks, a plus or a minus is refused. */
  lemma UnknownReplyFails(s: Bytes)
    requires s != [] && s[0] !in {58, 42, 36, 44, 94, 35, 37, 43, 45}
    ensures ReadReply(s) == Fail(Malformed)
  {}

  /** The first word of an error line is its code: none, a number, or a failure of the client itself. */
  lemma ErrorLineReads(word: Bytes, message: Bytes, rest: Bytes)
    requires SPACE !in word && LF !in word && LF !in message
    ensures
      var r := ReadReply([45] + word + [32] + message + [13, 10] + rest);
      if word == [] then r == Ok(Raised(None, Strip([32] + message)), rest)
      else if ParseInt(word).None? then r == Fail(Malformed)
      else r.Ok? && r.rest == rest && r.value.Raised? && r.value.code == Some(ParseInt(word).value)
  {
    var line := word + [32] + message;
    LineReads(line, rest);
    WordEndsAtSpace(word, message);
    hide ParseInt, Strip, Without, FirstField, ReadLine;
    assert ([45] + word + [32] + message + [13, 10] + rest)[1..] == line + CRLF + rest;
    if word == [] {
      assert line == [32] + message;
      NothingIsTakenOut(line);
    }
  }

  lemma NothingIsTakenOut(s: Bytes)
    ensures Without(s, []) == s
  {}

  lemma {:induction false} WordEndsAtSpace(word: Bytes, rest: Bytes)
    requires SPACE !in word
    ensures FirstField(word + [32] + rest) == word
  {
    if word == [] {
      assert word + [32] + rest == [32] + rest;
      assert FirstField([32] + rest) == [];
    } else {
      assert word[0] in word && forall b | b in word[1..] :: b in word;
      assert (word + [32] + rest)[1..] == word[1..] + [32] + rest;
      WordEndsAtSpace(word[1..], rest);
    }
  }
}
