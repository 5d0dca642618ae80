/** Byte strings: decimal numbers, and reading a number, a line or a counted string off the front of one. */
module ByteStrings {
  import opened Wrappers

  newtype byte = x: int | 0 <= x < 256
  type Bytes = seq<byte>

  const CR: byte := 13
  const LF: byte := 10
  const CRLF: Bytes := [CR, LF]
  const MINUS: byte := 45
  const SPACE: byte := 32

  // Decimal numbers.

  function Digits(n: nat): (s: Bytes)
    ensures s != [] && forall d | d in s :: 48 <= d <= 57
  {
    var last := (48 + n % 10) as byte;
    if n < 10 then [last] else Digits(n / 10) + [last]
  }

  function IntText(n: int): Bytes {
    if n < 0 then [MINUS] + Digits(-n) else Digits(n)
  }

  predicate IsSpace(b: byte) {
    b == SPACE || 9 <= b <= 13 || 28 <= b <= 31
  }

  function StripLeft(s: Bytes): Bytes {
    if s != [] && IsSpace(s[0]) then StripLeft(s[1..]) else s
  }

  function StripRight(s: Bytes): Bytes {
    if s != [] && IsSpace(s[|s| - 1]) then StripRight(s[..|s| - 1]) else s
  }

  function Strip(s: Bytes): Bytes {
    StripRight(StripLeft(s))
  }

  function ParseDigits(s: Bytes): Option<nat> {
    if s == [] then None
    else if !(48 <= s[|s| - 1] <= 57) then None
    else
      var last := s[|s| - 1] as nat - 48;
      if |s| == 1 then Some(last)
      else match ParseDigits(s[..|s| - 1])
        case Some(n) => Some(10 * n + last)
        case None => None
  }

  function Signed(negative: bool, n: nat): int {
    var m: int := n;
    if negative then -m else m
  }

  /** `int` of a stripped text: an optional sign and decimal digits. */
  function ParseInt(text: Bytes): Option<int> {
    var s := Strip(text);
    if s != [] && (s[0] == MINUS || s[0] == 43) then
      match ParseDigits(s[1..])
      case Some(n) => Some(Signed(s[0] == MINUS, n))
      case None => None
    else
      match ParseDigits(s)
      case Some(n) => Some(n)
      case None => None
  }

  lemma {:induction false} DigitsParse(n: nat)
    ensures ParseDigits(Digits(n)) == Some(n)
  {
    if n >= 10 {
      DigitsParse(n / 10);
      assert Digits(n)[..|Digits(n)| - 1] == Digits(n / 10);
    }
  }

  lemma StripsToItself(s: Bytes)
    requires s != [] && !IsSpace(s[0]) && !IsSpace(s[|s| - 1])
    ensures Strip(s) == s
  {}

  lemma IntTextParses(n: int)
    ensures ParseInt(IntText(n)) == Some(n) && LF !in IntText(n)
  {
    var s := IntText(n);
    var digits := Digits(if n < 0 then -n else n);
    DigitsParse(if n < 0 then -n else n);
    assert digits[|digits| - 1] in digits && digits[0] in digits;
    StripsToItself(s);
    hide Strip, Digits, ParseDigits;
    assert n < 0 ==> s[1..] == digits;
  }

  /** White space as `str.strip` knows it, within ASCII. */
  predicate IsWhite(b: byte) {
    b in {9, 10, 11, 12, 13, 28, 29, 30, 31, 32}
  }

  predicate AllWhite(s: Bytes) {
    forall b | b in s :: IsWhite(b)
  }

  predicate Trimmed(s: Bytes) {
    s != [] ==> !IsWhite(s[0]) && !IsWhite(s[|s| - 1])
  }

  lemma {:induction false} StripsLeftWhite(a: Bytes, t: Bytes)
    requires AllWhite(a)
    ensures StripLeft(a + t) == StripLeft(t)
  {
    if a == [] {
      assert a + t == t;
    } else {
      assert a[0] in a && forall b | b in a[1..] :: b in a;
      assert (a + t)[1..] == a[1..] + t;
      StripsLeftWhite(a[1..], t);
    }
  }

  lemma {:induction false} StripsRightWhite(t: Bytes, b: Bytes)
    requires AllWhite(b)
    ensures StripRight(t + b) == StripRight(t)
  {
    if b == [] {
      assert t + b == t;
    } else {
      var init := b[..|b| - 1];
      assert b[|b| - 1] in b && forall x | x in init :: x in b;
      assert (t + b)[..|t + b| - 1] == t + init;
      StripsRightWhite(t, init);
    }
  }

  /** Stripping takes off the white space around a text, and nothing else. */
  lemma StripTrims(a: Bytes, t: Bytes, b: Bytes)
    requires AllWhite(a) && AllWhite(b) && Trimmed(t)
    ensures Strip(a + t + b) == t
  {
    if t == [] {
      assert forall x | x in a + t + b :: x in a || x in b;
      StripsLeftWhite(a + t + b, []);
      assert a + t + b + [] == a + t + b;
      assert StripLeft([]) == [];
    } else {
      assert a + t + b == a + (t + b);
      StripsLeftWhite(a, t + b);
      StripsRightWhite(t, b);
    }
  }

  predicate Decimal(s: Bytes) {
    s != [] && forall d | d in s :: 48 <= d <= 57
  }

  lemma {:induction false} ParseDigitsIff(s: Bytes)
    ensures ParseDigits(s).Some? <==> Decimal(s)
  {
    if s != [] {
      var init := s[..|s| - 1];
      assert s == init + [s[|s| - 1]] && s[|s| - 1] in s && forall d | d in init :: d in s;
      if init != [] { ParseDigitsIff(init); }
    }
  }

  /** Zeros in front change nothing; with `DigitsParse` this gives the value of every string of digits. */
  lemma {:induction false} LeadingZero(s: Bytes)
    requires Decimal(s)
    ensures ParseDigits([48] + s) == ParseDigits(s)
  {
    var s' := [48] + s;
    var init := s[..|s| - 1];
    assert s'[..|s'| - 1] == [48] + init && s'[|s'| - 1] == s[|s| - 1] && s[|s| - 1] in s;
    if init != [] {
      assert forall d | d in init :: d in s;
      LeadingZero(init);
    } else {
      assert [48] + init == [48];
      assert ParseDigits([48]) == Some(0);
    }
  }

  /** `int` on a text with its white space taken off. */
  lemma StrippedParses(text: Bytes, t: Bytes)
    requires Strip(text) == t
    ensures t == [] || (t[0] != MINUS && t[0] != 43) ==>
      ParseInt(text) == if ParseDigits(t).Some? then Some(ParseDigits(t).value) else None
    ensures t != [] && (t[0] == MINUS || t[0] == 43) ==>
      var n := ParseDigits(t[1..]);
      ParseInt(text) == if n.Some? then Some(Signed(t[0] == MINUS, n.value)) else None
  {
    hide Strip, ParseDigits;
  }

  /** A number is a string of digits with an optional sign, between white space. */
  lemma NumberParses(a: Bytes, t: Bytes, b: Bytes)
    requires AllWhite(a) && AllWhite(b) && Decimal(t)
    ensures ParseDigits(t).Some?
    ensures ParseInt(a + t + b) == ParseInt(a + ([43] + t) + b) == Some(ParseDigits(t).value)
    ensures var n: int := ParseDigits(t).value; ParseInt(a + ([45] + t) + b) == Some(-n)
  {
    assert t[0] in t && t[|t| - 1] in t;
    ParseDigitsIff(t);
    StripTrims(a, t, b);
    StripTrims(a, [43] + t, b);
    StripTrims(a, [45] + t, b);
    hide Strip, ParseDigits, ParseInt, AllWhite;
    StrippedParses(a + t + b, t);
    StrippedParses(a + ([43] + t) + b, [43] + t);
    StrippedParses(a + ([45] + t) + b, [45] + t);
    assert ([43] + t)[1..] == t && ([45] + t)[1..] == t;
  }

  /** ... and nothing else is. */
  lemma OnlyNumbersParse(text: Bytes)
    ensures
      var t := Strip(text);
      ParseInt(text).Some? ==> Decimal(t) || (t != [] && (t[0] == 43 || t[0] == 45) && Decimal(t[1..]))
  {
    StrippedParses(text, Strip(text));
    ParseDigitsIff(Strip(text));
    if Strip(text) != [] { ParseDigitsIff(Strip(text)[1..]); }
    hide Strip, ParseDigits, ParseInt, Decimal;
  }

  // Reading.

  datatype Error = Closed | Malformed
  datatype Parsed<T> = Ok(value: T, rest: Bytes) | Fail(error: Error)

  datatype Outcome<+T> = Got(value: T) | Failed(error: Error)

  /** A method's outcome and the stream it leaves are those of the plain reader. On a failure the connection is
      dropped. */
  ghost predicate Agrees<T>(p: Parsed<T>, r: Outcome<T>, stream: Bytes) {
    match p
    case Ok(v, rest) => r == Got(v) && stream == rest
    case Fail(e) => r == Failed(e)
  }

  function FirstLF(s: Bytes): (i: nat)
    ensures i <= |s| && LF !in s[..i] && (i < |s| ==> s[i] == LF)
  {
    if s == [] || s[0] == LF then 0 else
      var i := 1 + FirstLF(s[1..]);
      assert s[..i] == [s[0]] + s[1..][..i - 1];
      i
  }

  /** The bytes up to the next line end. A line feed that no carriage return precedes keeps the reader waiting until the
      connection closes. */
  function ReadLine(s: Bytes): (r: Parsed<Bytes>)
    ensures r.Ok? ==> |r.rest| < |s|
  {
    var i := FirstLF(s);
    if 0 < i < |s| && s[i - 1] == CR then Ok(s[..i - 1], s[i + 1..]) else Fail(Closed)
  }

  function ReadInt(s: Bytes): (r: Parsed<int>)
    ensures r.Ok? ==> |r.rest| < |s|
  {
    match ReadLine(s)
    case Fail(e) => Fail(e)
    case Ok(line, rest) =>
      match ParseInt(line)
      case Some(n) => Ok(n, rest)
      case None => Fail(Malformed)
  }

  /** A counted string. A negative count stands for null. */
  function ReadCounted(s: Bytes): (r: Parsed<Option<Bytes>>)
    ensures r.Ok? ==> |r.rest| < |s|
  {
    match ReadInt(s)
    case Fail(e) => Fail(e)
    case Ok(n, rest) =>
      if n < 0 then Ok(None, rest)
      else if |rest| < n + 2 then Fail(Closed)
      else if rest[n..n + 2] != CRLF then Fail(Malformed)
      else Ok(Some(rest[..n]), rest[n + 2..])
  }

  lemma {:induction false} FirstLFAfter(text: Bytes, rest: Bytes)
    requires LF !in text
    ensures FirstLF(text + [LF] + rest) == |text|
  {
    if text == [] {
      assert text + [LF] + rest == [LF] + rest;
    } else {
      assert (text + [LF] + rest)[1..] == text[1..] + [LF] + rest;
      FirstLFAfter(text[1..], rest);
    }
  }

  /** A line feed without a carriage return before it is no line end; the reader waits for more until the stream
      ends. */
  lemma BareLineFeedIsNoEnd(text: Bytes, rest: Bytes)
    requires LF !in text && (text != [] ==> text[|text| - 1] != CR)
    ensures ReadLine(text + [LF] + rest) == Fail(Closed)
  {
    FirstLFAfter(text, rest);
  }

  lemma LineReads(text: Bytes, rest: Bytes)
    requires LF !in text
    ensures ReadLine(text + CRLF + rest) == Ok(text, rest)
  {
    var s := text + CRLF + rest;
    assert s == (text + [CR]) + [LF] + rest;
    FirstLFAfter(text + [CR], rest);
    assert s[..|text|] == text && s[|text| + 2..] == rest;
  }

  lemma IntReads(n: int, rest: Bytes)
    ensures ReadInt(IntText(n) + CRLF + rest) == Ok(n, rest)
  {
    IntTextParses(n);
    LineReads(IntText(n), rest);
  }

  lemma CountedReads(data: Bytes, rest: Bytes)
    ensures ReadCounted(IntText(|data|) + CRLF + data + CRLF + rest) == Ok(Some(data), rest)
  {
    var tail := data + CRLF + rest;
    assert tail[..|data|] == data && tail[|data|..|data| + 2] == CRLF && tail[|data| + 2..] == rest;
    IntReads(|data|, tail);
    hide IntText, ReadInt;
    assert IntText(|data|) + CRLF + data + CRLF + rest == IntText(|data|) + CRLF + tail;
  }
}
