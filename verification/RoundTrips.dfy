/** Printing and then parsing gives the value back. */
module RoundTrips {
  import opened Wrappers
  import opened ByteStrings
  import opened Wire

  /** What the parser can give back: tuples return as lists. */
  function Norm(v: Value): Value
    decreases v
  {
    match v
    case List(items) => List(NormAll(items))
    case Tuple(items) => List(NormAll(items))
    case Dict(pairs) => Dict(NormPairs(pairs))
    case _ => v
  }

  function NormAll(vs: seq<Value>): seq<Value>
    decreases vs
  {
    if vs == [] then [] else [Norm(vs[0])] + NormAll(vs[1..])
  }

  function NormPair(p: Pair): Pair
    decreases p
  {
    Pair(Norm(p.key), Norm(p.value))
  }

  function NormPairs(ps: seq<Pair>): seq<Pair>
    decreases ps
  {
    if ps == [] then [] else [NormPair(ps[0])] + NormPairs(ps[1..])
  }

  /** No dictionary in the value has a sequence for a key: such a key would come back as a list. */
  predicate ScalarKeys(v: Value)
    decreases v
  {
    match v
    case List(items) => ScalarKeysAll(items)
    case Tuple(items) => ScalarKeysAll(items)
    case Dict(pairs) => ScalarKeysPairs(pairs)
    case _ => true
  }

  predicate ScalarKeysAll(vs: seq<Value>)
    decreases vs
  {
    vs != [] ==> ScalarKeys(vs[0]) && ScalarKeysAll(vs[1..])
  }

  predicate ScalarKeysPair(p: Pair)
    decreases p
  {
    !p.key.List? && !p.key.Tuple? && ScalarKeys(p.value)
  }

  predicate ScalarKeysPairs(ps: seq<Pair>)
    decreases ps
  {
    ps != [] ==> ScalarKeysPair(ps[0]) && ScalarKeysPairs(ps[1..])
  }

  lemma {:induction false} PutNewKey(pairs: seq<Pair>, k: Value, v: Value)
    requires k !in Keys(pairs)
    ensures Put(pairs, k, v) == pairs + [Pair(k, v)]
  {
    if pairs != [] {
      assert pairs[0] in pairs && forall p | p in pairs[1..] :: p in pairs;
      PutNewKey(pairs[1..], k, v);
    }
  }

  /** What the parser makes of an encoding of `v` that `rest` follows. */
  function Expected(v: Value, rest: Bytes): Parsed<Value> {
    if ScalarKeys(v) then Ok(Norm(v), rest) else Fail(Malformed)
  }

  /** A dictionary keeps its keys apart and in place: an old key gets the new value, a new one comes last. */
  lemma {:induction false} PutReplaces(ps: seq<Pair>, k: Value, v: Value)
    requires forall i, j | 0 <= i < j < |ps| :: ps[i].key != ps[j].key
    ensures
      var qs := Put(ps, k, v);
      && (forall i, j | 0 <= i < j < |qs| :: qs[i].key != qs[j].key)
      && |qs| == |ps| + (if k in Keys(ps) then 0 else 1) && Pair(k, v) in qs
      && (forall i | 0 <= i < |ps| :: qs[i] == if ps[i].key == k then Pair(k, v) else ps[i])
      && (k !in Keys(ps) ==> qs[|ps|] == Pair(k, v))
  {
    if ps != [] && ps[0].key != k {
      PutReplaces(ps[1..], k, v);
      assert Keys(ps) == {ps[0].key} + Keys(ps[1..]) by { KeysOfRest(ps); }
      var qs, tail := Put(ps, k, v), Put(ps[1..], k, v);
      assert qs == [ps[0]] + tail;
      forall j | 0 <= j < |tail| ensures tail[j].key != ps[0].key {
        assert j < |ps[1..]| ==> tail[j].key == ps[1..][j].key == ps[j + 1].key;
      }
      assert Pair(k, v) in tail;
    } else if ps != [] {
      assert ps[0] in ps && k in Keys(ps);
      assert Put(ps, k, v)[0] == Pair(k, v);
    }
  }

  lemma KeysOfRest(ps: seq<Pair>)
    requires ps != []
    ensures Keys(ps) == {ps[0].key} + Keys(ps[1..])
  {
    assert ps == [ps[0]] + ps[1..];
    assert forall p :: p in ps <==> p == ps[0] || p in ps[1..];
  }

  // What malformed and unusual encodings come to.

  /** Any negative count stands for null, for text and for bytes. */
  lemma NegativeCountIsNull(n: int, rest: Bytes)
    requires n < 0
    ensures Parse([36] + IntText(n) + CRLF + rest) == Parse([94] + IntText(n) + CRLF + rest) == Ok(Null, rest)
  {
    var s := IntText(n) + CRLF + rest;
    IntReads(n, rest);
    hide IntText, ReadInt;
    assert ([36] + IntText(n) + CRLF + rest)[1..] == s && ([94] + IntText(n) + CRLF + rest)[1..] == s;
  }

  /** Counted bytes must be there, and a line end behind them. */
  lemma CountedNeedsItsEnd(n: nat, rest: Bytes)
    ensures |rest| < n + 2 ==> ReadCounted(IntText(n) + CRLF + rest) == Fail(Closed)
    ensures |rest| >= n + 2 && rest[n..n + 2] != [13, 10] ==> ReadCounted(IntText(n) + CRLF + rest) == Fail(Malformed)
  {
    IntReads(n, rest);
    hide IntText, ReadInt;
  }

  /** Only `t` and `f` are truth values. */
  lemma OnlyTwoBools(line: Bytes, rest: Bytes)
    requires LF !in line
    ensures Parse([35] + line + [13, 10] + rest) ==
      if line == [116] then Ok(Bool(true), rest) else if line == [102] then Ok(Bool(false), rest) else Fail(Malformed)
  {
    LineReads(line, rest);
    assert ([35] + line + [13, 10] + rest)[1..] == line + CRLF + rest;
  }

  lemma UnknownMarkFails(s: Bytes)
    requires s != [] && s[0] !in {58, 42, 36, 37, 44, 94, 35}
    ensures Parse(s) == Fail(Malformed)
  {}

  /** A negative count reads on until the stream ends or fails; it never gives an array or a dictionary. */
  lemma {:induction false} NegativeArrayFails(n: int, s: Bytes)
    requires n < 0
    ensures ParseItems(n, s).Fail?
    decreases |s|
  {
    if Parse(s).Ok? { NegativeArrayFails(n - 1, Parse(s).rest); }
  }

  lemma {:induction false} NegativeDictFails(n: int, s: Bytes, pairs: seq<Pair>)
    requires n < 0
    ensures ParsePairs(n, s, pairs).Fail?
    decreases |s|
  {
    var k := Parse(s);
    if k.Ok? && Parse(k.rest).Ok? && Hashable(k.value) {
      var v := Parse(k.rest);
      NegativeDictFails(n - 1, v.rest, Put(pairs, k.value, v.value));
    }
  }

  lemma NullText()
    ensures IntText(-1) == [MINUS, 49]
  {}

  lemma NullReads(s: Bytes, rest: Bytes)
    requires ReadInt(s) == Ok(-1, rest)
    ensures ReadCounted(s) == Ok(None, rest)
  {
    hide ReadInt;
  }

  lemma RoundTripScalar(v: Value, rest: Bytes)
    requires WellFormed(v) && Pack(v).Some? && !v.List? && !v.Tuple? && !v.Dict?
    ensures Pack(v).value != [] && Parse(Pack(v).value + rest) == Ok(v, rest)
  {
    hide IntText, ReadInt, ReadLine, ReadCounted, Strip;
    var s := Pack(v).value + rest;
    match v
    case Null =>
      NullText();
      IntReads(-1, rest);
      NullReads(IntText(-1) + CRLF + rest, rest);
      assert s[1..] == IntText(-1) + CRLF + rest;
    case Int(n) =>
      IntReads(n, rest);
      assert s[1..] == IntText(n) + CRLF + rest;
    case Str(utf8) =>
      CountedReads(utf8, rest);
      assert s[1..] == IntText(|utf8|) + CRLF + utf8 + CRLF + rest;
    case Blob(data) =>
      CountedReads(data, rest);
      assert s[1..] == IntText(|data|) + CRLF + data + CRLF + rest;
    case Bool(b) =>
      var text: Bytes := [if b then 116 else 102];
      LineReads(text, rest);
      assert s[1..] == text + CRLF + rest;
    case Float(text) =>
      LineReads(text, rest);
      assert s[1..] == text + CRLF + rest;
  }

  lemma {:induction false} ParsesBack(v: Value, rest: Bytes)
    requires WellFormed(v) && Pack(v).Some?
    ensures Pack(v).value != [] && Parse(Pack(v).value + rest) == Expected(v, rest)
    decreases v
  {
    hide IntText, ReadInt, ReadLine, ReadCounted, Strip, ParseItems, ParsePairs, PackAll, PackPairs;
    var s := Pack(v).value + rest;
    match v
    case List(items) =>
      RoundTripItems(items, rest);
      IntReads(|items|, PackAll(items).value + rest);
      assert s[1..] == IntText(|items|) + CRLF + (PackAll(items).value + rest);
      assert ParseArray(s[1..]) == ParseItems(|items|, PackAll(items).value + rest);
    case Tuple(items) =>
      RoundTripItems(items, rest);
      IntReads(|items|, PackAll(items).value + rest);
      assert s[1..] == IntText(|items|) + CRLF + (PackAll(items).value + rest);
      assert ParseArray(s[1..]) == ParseItems(|items|, PackAll(items).value + rest);
    case Dict(pairs) =>
      RoundTripPairs(pairs, [], rest);
      IntReads(|pairs|, PackPairs(pairs).value + rest);
      assert s[1..] == IntText(|pairs|) + CRLF + (PackPairs(pairs).value + rest);
      assert ParseDict(s[1..]) == ParsePairs(|pairs|, PackPairs(pairs).value + rest, []);
      assert [] + NormPairs(pairs) == NormPairs(pairs);
    case _ =>
      RoundTripScalar(v, rest);
  }

  lemma {:induction false} RoundTripItems(vs: seq<Value>, rest: Bytes)
    requires WellFormedAll(vs) && PackAll(vs).Some?
    ensures ParseItems(|vs|, PackAll(vs).value + rest) ==
      if ScalarKeysAll(vs) then Ok(NormAll(vs), rest) else Fail(Malformed)
    decreases vs
  {
    if vs == [] {
      assert PackAll(vs).value + rest == rest;
    } else {
      ItemsSplit(vs, rest);
      ParsesBack(vs[0], PackAll(vs[1..]).value + rest);
      RoundTripItems(vs[1..], rest);
    }
  }

  lemma MoveKey(ps: seq<Pair>, done: seq<Pair>, v: Value)
    requires ps != [] && ps[0].key !in Keys(ps[1..]) && Keys(ps) !! Keys(done)
    ensures Put(done, ps[0].key, v) == done + [Pair(ps[0].key, v)]
    ensures Keys(ps[1..]) !! Keys(done + [Pair(ps[0].key, v)])
  {
    assert ps[0] in ps && forall p | p in ps[1..] :: p in ps;
    assert ps[0].key in Keys(ps);
    PutNewKey(done, ps[0].key, v);
    assert Keys(done + [Pair(ps[0].key, v)]) == Keys(done) + {ps[0].key};
  }

  lemma NormKeepsKind(k: Value)
    ensures Hashable(Norm(k)) <==> !k.List? && !k.Tuple? && !k.Dict?
    ensures PrintableKey(k) && Hashable(Norm(k)) ==> Norm(k) == k && ScalarKeys(k)
  {}

  /** The next two values read are a key the client accepts and a value. */
  predicate PairAt(s: Bytes, k: Value, v: Value, rest: Bytes) {
    Parse(s).Ok? && Parse(s).value == k && Hashable(k) && Parse(Parse(s).rest) == Ok(v, rest)
  }

  predicate BadPairAt(s: Bytes) {
    || Parse(s) == Fail(Malformed)
    || (Parse(s).Ok? && Parse(Parse(s).rest) == Fail(Malformed))
    || (Parse(s).Ok? && Parse(Parse(s).rest).Ok? && !Hashable(Parse(s).value))
  }

  lemma PairsStep(n: int, s: Bytes, done: seq<Pair>)
    requires n != 0
    ensures BadPairAt(s) ==> ParsePairs(n, s, done) == Fail(Malformed)
    ensures forall k, v, rest :: PairAt(s, k, v, rest) ==>
      ParsePairs(n, s, done) == ParsePairs(n - 1, rest, Put(done, k, v))
  {}

  lemma NormPairsSplit(done: seq<Pair>, ps: seq<Pair>)
    requires ps != []
    ensures done + [NormPair(ps[0])] + NormPairs(ps[1..]) == done + NormPairs(ps)
  {
    hide NormPair;
  }

  lemma PairsSplit(ps: seq<Pair>, rest: Bytes)
    requires ps != [] && PackPairs(ps).Some?
    ensures PackPair(ps[0]).Some? && PackPairs(ps[1..]).Some?
    ensures PackPairs(ps).value + rest == PackPair(ps[0]).value + (PackPairs(ps[1..]).value + rest)
  {
    hide PackPair;
  }

  lemma {:induction false} RoundTripPairs(ps: seq<Pair>, done: seq<Pair>, rest: Bytes)
    requires WellFormedPairs(ps) && PackPairs(ps).Some? && Keys(ps) !! Keys(done)
    ensures ParsePairs(|ps|, PackPairs(ps).value + rest, done) ==
      if ScalarKeysPairs(ps) then Ok(done + NormPairs(ps), rest) else Fail(Malformed)
    decreases ps
  {
    if ps == [] {
      assert PackPairs(ps).value + rest == rest;
      assert done + NormPairs(ps) == done;
    } else {
      PairsSplit(ps, rest);
      hide PackPair, PackPairs, ScalarKeysPair, WellFormedPair, PairAt, BadPairAt, NormPair, Keys, ParsePairs;
      assert ps[0].key < ps[0] && ps[0].value < ps[0];
      RoundTripPair(ps[0], PackPairs(ps[1..]).value + rest);
      PairsStep(|ps|, PackPairs(ps).value + rest, done);
      if ScalarKeysPair(ps[0]) {
        var done' := done + [NormPair(ps[0])];
        MoveKey(ps, done, Norm(ps[0].value));
        RoundTripPairs(ps[1..], done', rest);
        NormPairsSplit(done, ps);
      }
    }
  }

  lemma PairSplits(p: Pair, rest: Bytes)
    requires PackPair(p).Some?
    ensures Pack(p.key).Some? && Pack(p.value).Some?
    ensures PackPair(p).value + rest == Pack(p.key).value + (Pack(p.value).value + rest)
  {
    hide Pack;
  }

  lemma {:induction false} RoundTripPair(p: Pair, rest: Bytes)
    requires WellFormedPair(p) && PackPair(p).Some?
    ensures ScalarKeysPair(p) <==> PairAt(PackPair(p).value + rest, p.key, Norm(p.value), rest)
    ensures !ScalarKeysPair(p) ==> BadPairAt(PackPair(p).value + rest)
    ensures ScalarKeysPair(p) ==> NormPair(p) == Pair(p.key, Norm(p.value))
    decreases p
  {
    PairSplits(p, rest);
    hide Pack, PackPair;
    ParsesBack(p.key, Pack(p.value).value + rest);
    ParsesBack(p.value, rest);
    NormKeepsKind(p.key);
  }

  /** The parser reads exactly the encoding and gives the value back, whatever follows, precisely when no
      dictionary has a sequence for a key. */
  lemma RoundTrip(v: Value, rest: Bytes)
    requires WellFormed(v) && Printable(v)
    ensures Parse(Encoding(v) + rest) == if ScalarKeys(v) then Ok(Norm(v), rest) else Fail(Malformed)
    ensures Encoding(v) != []
  {
    PrintsIff(v);
    ParsesBack(v, rest);
  }

  /** A dictionary keyed by an empty tuple is printed, and the reader then fails on the key. */
  lemma TupleKeyIsRefused()
    ensures
      var v := Dict([Pair(Tuple([]), Null)]);
      Pack(v).Some? && Parse(Pack(v).value) == Fail(Malformed)
  {
    var v := Dict([Pair(Tuple([]), Null)]);
    assert PackAll([]) == Some([]);
    assert PackPair(Pair(Tuple([]), Null)).Some?;
    assert PackPairs([Pair(Tuple([]), Null)]).Some?;
    assert WellFormedPairs([Pair(Tuple([]), Null)]);
    assert !ScalarKeysPairs([Pair(Tuple([]), Null)]);
    ParsesBack(v, []);
    assert Pack(v).value + [] == Pack(v).value;
  }

  /** The printer cannot tell a tuple from a list. */
  lemma {:induction false} NormPrintsAlike(v: Value)
    ensures Pack(Norm(v)) == Pack(v)
    decreases v
  {
    match v
    case List(items) => NormAllPrintsAlike(items);
    case Tuple(items) => NormAllPrintsAlike(items);
    case Dict(pairs) => NormPairsPrintsAlike(pairs);
    case _ =>
  }

  lemma {:induction false} NormAllPrintsAlike(vs: seq<Value>)
    ensures PackAll(NormAll(vs)) == PackAll(vs) && |NormAll(vs)| == |vs|
    decreases vs
  {
    if vs != [] {
      NormPrintsAlike(vs[0]);
      NormAllPrintsAlike(vs[1..]);
    }
  }

  lemma {:induction false} NormPairsPrintsAlike(ps: seq<Pair>)
    ensures PackPairs(NormPairs(ps)) == PackPairs(ps) && |NormPairs(ps)| == |ps|
    decreases ps
  {
    if ps != [] {
      assert ps[0].key < ps[0] && ps[0].value < ps[0];
      NormPrintsAlike(ps[0].key);
      NormPrintsAlike(ps[0].value);
      NormPairsPrintsAlike(ps[1..]);
    }
  }

  // Encodings tell values apart, also those the reader refuses.

  function Mark(v: Value): byte {
    match v
    case Null => 36
    case Int(_) => 58
    case Str(_) => 36
    case Blob(_) => 94
    case Bool(_) => 35
    case Float(_) => 44
    case List(_) => 42
    case Tuple(_) => 42
    case Dict(_) => 37
    case Other => 0
  }

  /** The text on the first line of an encoding. */
  function HeadText(v: Value): Bytes {
    match v
    case Null => IntText(-1)
    case Int(n) => IntText(n)
    case Str(utf8) => IntText(|utf8|)
    case Blob(data) => IntText(|data|)
    case Bool(b) => [if b then 116 else 102]
    case Float(text) => text
    case List(items) => IntText(|items|)
    case Tuple(items) => IntText(|items|)
    case Dict(pairs) => IntText(|pairs|)
    case Other => []
  }

  /** What follows the first line. */
  function Body(v: Value): Option<Bytes> {
    match v
    case Str(utf8) => Some(utf8 + CRLF)
    case Blob(data) => Some(data + CRLF)
    case List(items) => PackAll(items)
    case Tuple(items) => PackAll(items)
    case Dict(pairs) => PackPairs(pairs)
    case _ => Some([])
  }

  lemma HeadAndBody(v: Value)
    requires Pack(v).Some?
    ensures Body(v).Some? && Pack(v).value == Line(Mark(v), HeadText(v)) + Body(v).value
  {
    NullText();
    hide IntText, PackAll, PackPairs;
    match v
    case Str(utf8) => assert Counted(36, utf8) == Line(36, IntText(|utf8|)) + (utf8 + CRLF);
    case Blob(data) => assert Counted(94, data) == Line(94, IntText(|data|)) + (data + CRLF);
    case _ =>
  }

  lemma SameLine(s: Bytes, x: Bytes, t: Bytes, y: Bytes)
    requires LF !in s && LF !in t && s + CRLF + x == t + CRLF + y
    ensures s == t && x == y
  {
    LineReads(s, x);
    LineReads(t, y);
  }

  lemma SameNumber(m: int, n: int)
    requires IntText(m) == IntText(n)
    ensures m == n
  {
    IntTextParses(m);
    IntTextParses(n);
  }

  lemma HeadTextIsALine(v: Value)
    requires WellFormed(v)
    ensures LF !in HeadText(v)
  {
    match v
    case Int(n) => IntTextParses(n);
    case Str(utf8) => IntTextParses(|utf8|);
    case Blob(data) => IntTextParses(|data|);
    case List(items) => IntTextParses(|items|);
    case Tuple(items) => IntTextParses(|items|);
    case Dict(pairs) => IntTextParses(|pairs|);
    case Null => IntTextParses(-1);
    case _ =>
  }

  lemma SameHead(v: Value, x: Bytes, w: Value, y: Bytes)
    requires WellFormed(v) && WellFormed(w) && Pack(v).Some? && Pack(w).Some?
    requires Pack(v).value + x == Pack(w).value + y
    ensures Mark(v) == Mark(w) && HeadText(v) == HeadText(w)
    ensures Body(v).Some? && Body(w).Some? && Body(v).value + x == Body(w).value + y
  {
    HeadAndBody(v);
    HeadAndBody(w);
    HeadTextIsALine(v);
    HeadTextIsALine(w);
    hide Pack, WellFormed, HeadText, Body, Mark, Line;
    Peel(Mark(v), HeadText(v), Body(v).value, x);
    Peel(Mark(w), HeadText(w), Body(w).value, y);
    SameLine(HeadText(v), Body(v).value + x, HeadText(w), Body(w).value + y);
  }

  lemma Peel(mark: byte, text: Bytes, body: Bytes, rest: Bytes)
    ensures
      var s := Line(mark, text) + body + rest;
      s[0] == mark && s[1..] == text + CRLF + (body + rest)
  {}

  lemma SameData(s: Bytes, x: Bytes, t: Bytes, y: Bytes)
    requires |s| == |t| && s + CRLF + x == t + CRLF + y
    ensures s == t && x == y
  {
    assert s == (s + CRLF + x)[..|s|] && t == (t + CRLF + y)[..|t|];
    assert x == (s + CRLF + x)[|s| + 2..] && y == (t + CRLF + y)[|t| + 2..];
  }

  lemma SameScalar(v: Value, x: Bytes, w: Value, y: Bytes)
    requires Pack(v).Some? && Pack(w).Some? && Mark(v) == Mark(w) && HeadText(v) == HeadText(w)
    requires Body(v).Some? && Body(w).Some? && Body(v).value + x == Body(w).value + y
    requires !v.List? && !v.Tuple? && !v.Dict?
    ensures v == w && x == y
  {
    hide IntText;
    assert [] + x == x && [] + y == y;
    match v
    case Null => if w.Str? { SameNumber(-1, |w.utf8|); }
    case Int(n) => SameNumber(n, w.n);
    case Str(utf8) =>
      SameNumber(|utf8|, if w.Null? then -1 else |w.utf8|);
      SameData(utf8, x, w.utf8, y);
    case Blob(data) =>
      SameNumber(|data|, |w.data|);
      SameData(data, x, w.data, y);
    case Bool(_) =>
    case Float(_) =>
  }

  /** Equal streams begin with encodings of like values and go on alike, also where the reader would refuse them. */
  lemma {:induction false} SameStream(v: Value, x: Bytes, w: Value, y: Bytes)
    requires WellFormed(v) && WellFormed(w) && Pack(v).Some? && Pack(w).Some?
    requires Pack(v).value + x == Pack(w).value + y
    ensures Norm(v) == Norm(w) && x == y
    decreases v, 1
  {
    SameHead(v, x, w, y);
    if v.List? || v.Tuple? {
      SameNumber(|v.items|, |w.items|);
      SameItems(v.items, x, w.items, y);
    } else if v.Dict? {
      SameNumber(|v.pairs|, |w.pairs|);
      SamePairs(v.pairs, x, w.pairs, y);
    } else {
      SameScalar(v, x, w, y);
    }
  }

  lemma {:induction false} SameItems(vs: seq<Value>, x: Bytes, ws: seq<Value>, y: Bytes)
    requires WellFormedAll(vs) && WellFormedAll(ws) && PackAll(vs).Some? && PackAll(ws).Some?
    requires |vs| == |ws| && PackAll(vs).value + x == PackAll(ws).value + y
    ensures NormAll(vs) == NormAll(ws) && x == y
    decreases vs
  {
    if vs == [] {
      assert [] + x == x && [] + y == y;
    } else {
      ItemsSplit(vs, x);
      ItemsSplit(ws, y);
      hide Pack, PackAll, Norm, WellFormed;
      SameStream(vs[0], PackAll(vs[1..]).value + x, ws[0], PackAll(ws[1..]).value + y);
      SameItems(vs[1..], x, ws[1..], y);
    }
  }

  lemma {:induction false} SamePairs(ps: seq<Pair>, x: Bytes, qs: seq<Pair>, y: Bytes)
    requires WellFormedPairs(ps) && WellFormedPairs(qs) && PackPairs(ps).Some? && PackPairs(qs).Some?
    requires |ps| == |qs| && PackPairs(ps).value + x == PackPairs(qs).value + y
    ensures NormPairs(ps) == NormPairs(qs) && x == y
    decreases ps
  {
    if ps == [] {
      assert [] + x == x && [] + y == y;
    } else {
      PairsSplit(ps, x);
      PairsSplit(qs, y);
      hide PackPair, PackPairs, NormPair, WellFormedPair;
      SamePair(ps[0], PackPairs(ps[1..]).value + x, qs[0], PackPairs(qs[1..]).value + y);
      SamePairs(ps[1..], x, qs[1..], y);
    }
  }

  lemma {:induction false} SamePair(p: Pair, x: Bytes, q: Pair, y: Bytes)
    requires WellFormedPair(p) && WellFormedPair(q) && PackPair(p).Some? && PackPair(q).Some?
    requires PackPair(p).value + x == PackPair(q).value + y
    ensures NormPair(p) == NormPair(q) && x == y
    decreases p
  {
    PairSplits(p, x);
    PairSplits(q, y);
    hide Pack, PackPair;
    SameStream(p.key, Pack(p.value).value + x, q.key, Pack(q.value).value + y);
    SameStream(p.value, x, q.value, y);
  }

  /** A stream has one reading: the first value on it, and where that value ends, are determined. */
  lemma SelfDelimiting(v: Value, x: Bytes, w: Value, y: Bytes)
    requires WellFormed(v) && WellFormed(w) && Printable(v) && Printable(w)
    ensures Encoding(v) + x == Encoding(w) + y <==> Norm(v) == Norm(w) && x == y
  {
    PrintsIff(v);
    PrintsIff(w);
    if Encoding(v) + x == Encoding(w) + y {
      SameStream(v, x, w, y);
    }
    NormPrintsAlike(v);
    NormPrintsAlike(w);
  }

  /** No encoding is a proper prefix of another. */
  lemma PrefixFree(v: Value, w: Value)
    requires WellFormed(v) && WellFormed(w) && Printable(v) && Printable(w) && Encoding(v) <= Encoding(w)
    ensures Norm(v) == Norm(w) && Encoding(v) == Encoding(w)
  {
    hide Encoding, Norm, WellFormed, Printable;
    var x := Encoding(w)[|Encoding(v)|..];
    assert Encoding(v) + x == Encoding(w) + [];
    SelfDelimiting(v, x, w, []);
    assert Encoding(v) + x == Encoding(v) && Encoding(w) + [] == Encoding(w);
  }
}
