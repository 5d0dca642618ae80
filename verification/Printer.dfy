/** The printer as the client and the server run it: it gathers pieces in a list and joins them. */
module Printer {
  import opened Wrappers
  import opened ByteStrings
  import opened Wire

  function Join(parts: seq<Bytes>): Bytes {
    if parts == [] then [] else parts[0] + Join(parts[1..])
  }

  lemma {:induction false} JoinOneMore(parts: seq<Bytes>, x: Bytes)
    ensures Join(parts + [x]) == Join(parts) + x
  {
    if parts == [] {
      assert [x][1..] == [];
    } else {
      assert (parts + [x])[1..] == parts[1..] + [x];
      JoinOneMore(parts[1..], x);
    }
  }

  lemma JoinAfter(header: Bytes, parts: seq<Bytes>)
    ensures Join([header] + parts) == header + Join(parts)
  {
    assert ([header] + parts)[1..] == parts;
  }

  lemma PrependLaws(x: Bytes, y: Bytes, tail: Option<Bytes>)
    ensures Prepend([], tail) == tail && Prepend(x, Some([])) == Some(x)
    ensures Prepend(x, Prepend(y, tail)) == Prepend(x + y, tail)
  {
    assert x + [] == x;
    if tail.Some? {
      assert [] + tail.value == tail.value;
      assert x + (y + tail.value) == x + y + tail.value;
    }
  }

  lemma TwoMore(parts: seq<Bytes>, x: Bytes, y: Bytes, tail: Option<Bytes>)
    ensures Prepend(Join(parts), Prepend(x + y, tail)) == Prepend(Join(parts + [x] + [y]), tail)
    ensures Prepend(x, Some(y)) == Some(x + y)
  {
    JoinOneMore(parts, x);
    JoinOneMore(parts + [x], y);
    PrependLaws(Join(parts), x + y, tail);
    assert Join(parts) + x + y == Join(parts) + (x + y);
  }

  method PackArray(items: seq<Value>) returns (r: Option<Bytes>)
    ensures r == Prepend(Line(42, IntText(|items|)), PackAll(items))
    decreases items, 0
  {
    var parts: seq<Bytes> := [];
    assert items[0..] == items;
    PrependLaws([], [], PackAll(items));
    for i := 0 to |items|
      invariant |parts| == i
      invariant PackAll(items) == Prepend(Join(parts), PackAll(items[i..]))
    {
      assert items[i..][0] == items[i] && items[i..][1..] == items[i + 1..];
      var part := PackResp(items[i]);
      if part.None? { return None; }
      JoinOneMore(parts, part.value);
      PrependLaws(Join(parts), part.value, PackAll(items[i + 1..]));
      parts := parts + [part.value];
    }
    var header := Line(42, IntText(|parts|));
    JoinAfter(header, parts);
    PrependLaws(header, Join(parts), Some([]));
    PrependLaws(Join(parts), [], Some([]));
    parts := [header] + parts;
    return Some(Join(parts));
  }

  method PackDict(pairs: seq<Pair>) returns (r: Option<Bytes>)
    ensures r == Prepend(Line(37, IntText(|pairs|)), PackPairs(pairs))
    decreases pairs, 0
  {
    var parts: seq<Bytes> := [];
    assert pairs[0..] == pairs;
    PrependLaws([], [], PackPairs(pairs));
    for i := 0 to |pairs|
      invariant PackPairs(pairs) == Prepend(Join(parts), PackPairs(pairs[i..]))
    {
      assert pairs[i..][0] == pairs[i] && pairs[i..][1..] == pairs[i + 1..];
      assert pairs[i].key < pairs[i] && pairs[i].value < pairs[i];
      if !PrintableKey(pairs[i].key) { return None; }
      var key := PackResp(pairs[i].key);
      if key.None? { return None; }
      var value := PackResp(pairs[i].value);
      if value.None? { return None; }
      TwoMore(parts, key.value, value.value, PackPairs(pairs[i + 1..]));
      hide Join, Prepend, Pack;
      parts := parts + [key.value] + [value.value];
    }
    var header := Line(37, IntText(|pairs|));
    JoinAfter(header, parts);
    PrependLaws(header, Join(parts), Some([]));
    PrependLaws(Join(parts), [], Some([]));
    parts := [header] + parts;
    return Some(Join(parts));
  }

  method PackResp(v: Value) returns (r: Option<Bytes>)
    ensures r == Pack(v)
    decreases v, 1
  {
    match v
    case Null => return Some([36, MINUS, 49] + CRLF);
    case Str(utf8) => return Some(Counted(36, utf8));
    case Int(n) => return Some(Line(58, IntText(n)));
    case List(items) => r := PackArray(items);
    case Tuple(items) => r := PackArray(items);
    case Dict(pairs) => r := PackDict(pairs);
    case Float(text) => return Some(Line(44, text));
    case Bool(b) =>
      assert [35] + [if b then 116 else 102] == [35, if b then 116 else 102];
      return Some(if b then [35, 116] + CRLF else [35, 102] + CRLF);
    case Blob(data) => return Some(Counted(94, data));
    case Other => return None;
  }
}
