/** The wire format: the client's printer and a parser over plain byte strings. */
module Wire {
  import opened Wrappers
  import opened ByteStrings

  /** Text is carried as its UTF-8 bytes, a floating-point number as its text. `Other` is any type that cannot be
      sent. */
  datatype Value =
    | Null
    | Int(n: int)
    | Str(utf8: Bytes)
    | Blob(data: Bytes)
    | Bool(b: bool)
    | Float(text: Bytes)
    | List(items: seq<Value>)
    | Tuple(items: seq<Value>)
    | Dict(pairs: seq<Pair>)
    | Other
  datatype Pair = Pair(key: Value, value: Value)

  // The printer.

  function Line(mark: byte, text: Bytes): Bytes {
    [mark] + text + CRLF
  }

  function Counted(mark: byte, data: Bytes): Bytes {
    Line(mark, IntText(|data|)) + data + CRLF
  }

  /** The key types the printer lets through. */
  predicate PrintableKey(k: Value) {
    k.Tuple? || k.List? || k.Int? || k.Float? || k.Str?
  }

  /** None where the printer raises. */
  function Pack(v: Value): Option<Bytes>
    decreases v
  {
    match v
    case Null => Some([36, MINUS, 49] + CRLF)
    case Int(n) => Some(Line(58, IntText(n)))
    case Str(utf8) => Some(Counted(36, utf8))
    case Blob(data) => Some(Counted(94, data))
    case Bool(b) => Some(Line(35, [if b then 116 else 102]))
    case Float(text) => Some(Line(44, text))
    case List(items) => Prepend(Line(42, IntText(|items|)), PackAll(items))
    case Tuple(items) => Prepend(Line(42, IntText(|items|)), PackAll(items))
    case Dict(pairs) => Prepend(Line(37, IntText(|pairs|)), PackPairs(pairs))
    case Other => None
  }

  function Prepend(head: Bytes, tail: Option<Bytes>): Option<Bytes> {
    if tail.Some? then Some(head + tail.value) else None
  }

  function PackAll(vs: seq<Value>): Option<Bytes>
    decreases vs
  {
    if vs == [] then Some([])
    else if Pack(vs[0]).None? then None
    else Prepend(Pack(vs[0]).value, PackAll(vs[1..]))
  }

  function PackPair(p: Pair): Option<Bytes>
    decreases p
  {
    if !PrintableKey(p.key) || Pack(p.key).None? then None
    else Prepend(Pack(p.key).value, Pack(p.value))
  }

  function PackPairs(ps: seq<Pair>): Option<Bytes>
    decreases ps
  {
    if ps == [] then Some([])
    else if PackPair(ps[0]).None? then None
    else Prepend(PackPair(ps[0]).value, PackPairs(ps[1..]))
  }

  lemma ItemsSplit(vs: seq<Value>, rest: Bytes)
    requires vs != [] && PackAll(vs).Some?
    ensures Pack(vs[0]).Some? && PackAll(vs[1..]).Some?
    ensures PackAll(vs).value + rest == Pack(vs[0]).value + (PackAll(vs[1..]).value + rest)
  {
    hide Pack;
  }

  // What prints.

  /** Nothing of a type that cannot be sent is in the value, and dictionaries are keyed by sequences, numbers and
      text. */
  predicate Printable(v: Value)
    decreases v
  {
    match v
    case Other => false
    case List(items) => AllPrintable(items)
    case Tuple(items) => AllPrintable(items)
    case Dict(pairs) => PairsPrintable(pairs)
    case _ => true
  }

  predicate AllPrintable(vs: seq<Value>)
    decreases vs
  {
    vs != [] ==> Printable(vs[0]) && AllPrintable(vs[1..])
  }

  predicate PairPrintable(p: Pair)
    decreases p
  {
    && (match p.key
        case Tuple(_) => true
        case List(_) => true
        case Int(_) => true
        case Float(_) => true
        case Str(_) => true
        case _ => false)
    && Printable(p.key) && Printable(p.value)
  }

  predicate PairsPrintable(ps: seq<Pair>)
    decreases ps
  {
    ps != [] ==> PairPrintable(ps[0]) && PairsPrintable(ps[1..])
  }

  /** The printer raises on everything else, and on nothing of these. */
  lemma {:induction false} PrintsIff(v: Value)
    ensures Pack(v).Some? <==> Printable(v)
    decreases v
  {
    match v
    case List(items) => AllPrintIff(items);
    case Tuple(items) => AllPrintIff(items);
    case Dict(pairs) => PairsPrintIff(pairs);
    case _ =>
  }

  lemma {:induction false} AllPrintIff(vs: seq<Value>)
    ensures PackAll(vs).Some? <==> AllPrintable(vs)
    decreases vs
  {
    if vs != [] {
      PrintsIff(vs[0]);
      AllPrintIff(vs[1..]);
    }
  }

  lemma {:induction false} PairsPrintIff(ps: seq<Pair>)
    ensures PackPairs(ps).Some? <==> PairsPrintable(ps)
    decreases ps
  {
    if ps != [] {
      assert ps[0].key < ps[0] && ps[0].value < ps[0];
      PrintsIff(ps[0].key);
      PrintsIff(ps[0].value);
      PairsPrintIff(ps[1..]);
    }
  }

  function Encoding(v: Value): Bytes
    requires Printable(v)
  {
    PrintsIff(v);
    Pack(v).value
  }

  predicate PrintsAs(v: Value, bytes: Bytes) {
    Pack(v).Some? && Pack(v).value == bytes
  }

  /** One value of each kind, byte by byte. */
  lemma ScalarSamples()
    ensures PrintsAs(Null, [36, 45, 49, 13, 10])                   // $-1
    ensures PrintsAs(Int(-12), [58, 45, 49, 50, 13, 10])           // :-12
    ensures PrintsAs(Int(7), [58, 55, 13, 10])                     // :7
    ensures PrintsAs(Str([97, 98]), [36, 50, 13, 10, 97, 98, 13, 10])
    ensures PrintsAs(Blob([0]), [94, 49, 13, 10, 0, 13, 10])
    ensures PrintsAs(Bool(true), [35, 116, 13, 10]) && PrintsAs(Bool(false), [35, 102, 13, 10])
    ensures PrintsAs(Float([53]), [44, 53, 13, 10])
  {
    assert Digits(12) == [49, 50] && IntText(-12) == [45, 49, 50];
    assert IntText(2) == [50] && IntText(1) == [49] && IntText(7) == [55];
  }

  lemma ContainerSamples()
    ensures PrintsAs(List([Int(7)]), [42, 49, 13, 10, 58, 55, 13, 10])
    ensures PrintsAs(Dict([Pair(Int(7), Bool(true))]), [37, 49, 13, 10, 58, 55, 13, 10, 35, 116, 13, 10])
  {
    ScalarSamples();
    assert IntText(1) == [49];
    hide Digits, IntText;
    var one, yes: Bytes := [58, 55, 13, 10], [35, 116, 13, 10];
    assert PackAll([]) == Some([]) && PackPairs([]) == Some([]);
    assert [Int(7)][1..] == [] && one + [] == one;
    assert PackAll([Int(7)]) == Some(one);
    var p := Pair(Int(7), Bool(true));
    assert [p][1..] == [] && one + yes + [] == one + yes;
    assert PackPair(p) == Some(one + yes);
    assert PackPairs([p]) == Some(one + yes);
  }

  // The parser.

  /** What a dictionary of the client accepts as a key. */
  predicate Hashable(k: Value) {
    !k.List? && !k.Dict?
  }

  function Put(pairs: seq<Pair>, k: Value, v: Value): seq<Pair> {
    if pairs == [] then [Pair(k, v)]
    else if pairs[0].key == k then [Pair(k, v)] + pairs[1..]
    else [pairs[0]] + Put(pairs[1..], k, v)
  }

  function ParseArray(s: Bytes): (r: Parsed<seq<Value>>)
    ensures r.Ok? ==> |r.rest| < |s|
    decreases |s|, 0
  {
    match ReadInt(s)
    case Fail(e) => Fail(e)
    case Ok(n, rest) => ParseItems(n, rest)
  }

  function ParseDict(s: Bytes): (r: Parsed<seq<Pair>>)
    ensures r.Ok? ==> |r.rest| < |s|
    decreases |s|, 0
  {
    match ReadInt(s)
    case Fail(e) => Fail(e)
    case Ok(n, rest) => ParsePairs(n, rest, [])
  }

  function ParseBool(s: Bytes): (r: Parsed<bool>)
    ensures r.Ok? ==> |r.rest| < |s|
  {
    match ReadLine(s)
    case Fail(e) => Fail(e)
    case Ok(line, rest) => if line == [116] then Ok(true, rest) else if line == [102] then Ok(false, rest)
      else Fail(Malformed)
  }

  function ParseFloat(s: Bytes): (r: Parsed<Bytes>)
    ensures r.Ok? ==> |r.rest| < |s|
  {
    match ReadLine(s)
    case Fail(e) => Fail(e)
    case Ok(line, rest) => Ok(Strip(line), rest)
  }

  function Mapped<T, U>(p: Parsed<T>, f: T -> U): (r: Parsed<U>)
    ensures p.Ok? ==> r == Ok(f(p.value), p.rest)
    ensures p.Fail? ==> r == Fail(p.error)
  {
    match p
    case Ok(v, rest) => Ok(f(v), rest)
    case Fail(e) => Fail(e)
  }

  function BlobOrNull(data: Option<Bytes>): Value {
    if data.Some? then Blob(data.value) else Null
  }

  function StrOrNull(data: Option<Bytes>): Value {
    if data.Some? then Str(data.value) else Null
  }

  /** A value whose type byte `c` has been read. */
  function ParseBody(c: byte, s: Bytes): (r: Parsed<Value>)
    ensures r.Ok? ==> |r.rest| < |s|
    decreases |s|, 1
  {
    match c
    case 58 => Mapped(ReadInt(s), n => Int(n))
    case 94 => Mapped(ReadCounted(s), BlobOrNull)
    case 42 => Mapped(ParseArray(s), items => List(items))
    case 36 => Mapped(ReadCounted(s), StrOrNull)
    case 37 => Mapped(ParseDict(s), pairs => Dict(pairs))
    case 35 => Mapped(ParseBool(s), b => Bool(b))
    case 44 => Mapped(ParseFloat(s), text => Float(text))
    case _ => Fail(Malformed)
  }

  function Parse(s: Bytes): (r: Parsed<Value>)
    ensures r.Ok? ==> |r.rest| < |s|
    decreases |s|, 2
  {
    if s == [] then Fail(Closed) else ParseBody(s[0], s[1..])
  }

  /** The array loop. It counts down to zero, so that a negative count reads on for as long as values come. */
  function ParseItems(n: int, s: Bytes): (r: Parsed<seq<Value>>)
    ensures r.Ok? ==> |r.rest| <= |s|
    decreases |s|, 3
  {
    if n == 0 then Ok([], s) else
      match Parse(s)
      case Fail(e) => Fail(e)
      case Ok(v, rest) =>
        match ParseItems(n - 1, rest)
        case Fail(e) => Fail(e)
        case Ok(vs, rest') => Ok([v] + vs, rest')
  }

  /** An array loop's result, with the items it had before. */
  function Prefixed(items: seq<Value>, p: Parsed<seq<Value>>): Parsed<seq<Value>> {
    if p.Ok? then Ok(items + p.value, p.rest) else p
  }

  lemma NothingPrefixed(p: Parsed<seq<Value>>)
    ensures Prefixed([], p) == p
  {
    if p.Ok? { assert [] + p.value == p.value; }
  }

  /** The dictionary loop, with the pairs read so far. */
  function ParsePairs(n: int, s: Bytes, pairs: seq<Pair>): (r: Parsed<seq<Pair>>)
    ensures r.Ok? ==> |r.rest| <= |s|
    decreases |s|, 3
  {
    if n == 0 then Ok(pairs, s) else
      match Parse(s)
      case Fail(e) => Fail(e)
      case Ok(k, rest) =>
        match Parse(rest)
        case Fail(e) => Fail(e)
        case Ok(v, rest') => if !Hashable(k) then Fail(Malformed) else ParsePairs(n - 1, rest', Put(pairs, k, v))
  }

  function Keys(ps: seq<Pair>): set<Value> {
    set p | p in ps :: p.key
  }

  /** A value as the client can hold it: a dictionary has no key twice, and float text is one trimmed line. */
  predicate WellFormed(v: Value)
    decreases v
  {
    match v
    case Float(text) => LF !in text && Strip(text) == text
    case List(items) => WellFormedAll(items)
    case Tuple(items) => WellFormedAll(items)
    case Dict(pairs) => WellFormedPairs(pairs)
    case _ => true
  }

  predicate WellFormedAll(vs: seq<Value>)
    decreases vs
  {
    vs != [] ==> WellFormed(vs[0]) && WellFormedAll(vs[1..])
  }

  predicate WellFormedPair(p: Pair)
    decreases p
  {
    WellFormed(p.key) && WellFormed(p.value)
  }

  predicate WellFormedPairs(ps: seq<Pair>)
    decreases ps
  {
    ps != [] ==> WellFormedPair(ps[0]) && ps[0].key !in Keys(ps[1..]) && WellFormedPairs(ps[1..])
  }

  /** Members are judged one by one. */
  lemma {:induction false} MembersAreWellFormed(vs: seq<Value>)
    ensures WellFormedAll(vs) <==> forall v | v in vs :: WellFormed(v)
    ensures AllPrintable(vs) <==> forall v | v in vs :: Printable(v)
  {
    if vs != [] {
      assert vs[0] in vs && forall v :: v in vs <==> v == vs[0] || v in vs[1..];
      MembersAreWellFormed(vs[1..]);
      assert WellFormedAll(vs) <==> WellFormed(vs[0]) && WellFormedAll(vs[1..]);
      assert AllPrintable(vs) <==> Printable(vs[0]) && AllPrintable(vs[1..]);
      hide WellFormed, WellFormedAll, Printable, AllPrintable;
    }
  }
}
