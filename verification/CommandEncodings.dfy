/** The two ways a client may send a command, and how the server takes a pipeline of them apart. */
module CommandEncodings {
  import opened ByteStrings
  import opened Wire
  import opened ServerWire

  /** No white space. */
  predicate IsToken(t: Bytes) {
    forall b | b in t :: b !in {9, 10, 11, 12, 13, 28, 29, 30, 31, 32}
  }

  /** What can be said on one line: no white space, and a name that does not start like a packed value, with one of
      `:*$,`. */
  predicate Speakable(args: seq<Bytes>) {
    && args != [] && args[0] != [] && args[0][0] !in {58, 42, 36, 44}
    && forall t | t in args :: IsToken(t)
  }

  /** A command that starts with one of these four is read as a packed value, an array standing for its items. */
  lemma MarkedIsPacked(s: Bytes)
    requires s != [] && s[0] in {58, 42, 36, 44}
    ensures
      match Read(s)
      case Ok(v, rest) => ReadCommand(s) == Ok(if v.List? then v.items else [v], rest)
      case Fail(e) => ReadCommand(s) == Fail(e)
  {}

  function Spaced(args: seq<Bytes>): Bytes
    requires args != []
  {
    if |args| == 1 then args[0] else args[0] + [SPACE] + Spaced(args[1..])
  }

  function Inline(args: seq<Bytes>): Bytes
    requires args != []
  {
    Spaced(args) + CRLF
  }

  function Strs(args: seq<Bytes>): seq<Value> {
    if args == [] then [] else [Str(args[0])] + Strs(args[1..])
  }

  function Blobs(args: seq<Bytes>): seq<Value> {
    if args == [] then [] else [Blob(args[0])] + Blobs(args[1..])
  }

  lemma {:induction false} StrsPack(args: seq<Bytes>)
    ensures |Strs(args)| == |args| && PackAll(Strs(args)).Some?
    ensures WellFormedAll(Strs(args)) && ServerReadsAll(Strs(args)) && ServerNormAll(Strs(args)) == Blobs(args)
  {
    if args != [] { StrsPack(args[1..]); }
  }

  function Packed(args: seq<Bytes>): Bytes {
    StrsPack(args);
    Pack(List(Strs(args))).value
  }

  // One line.

  lemma StripsToken(t: Bytes)
    requires IsToken(t)
    ensures Strip(t) == t && Strip(t + CRLF) == t
  {
    if t == [] {
      assert CRLF[1..] == [LF] && [LF][1..] == [];
      assert StripLeft(CRLF) == StripLeft([LF]) == StripLeft([]);
      assert t + CRLF == CRLF;
    } else {
      assert t[0] in t && t[|t| - 1] in t;
      assert (t + CRLF)[..|t| + 1] == t + [CR] && (t + [CR])[..|t|] == t;
      assert (t + CRLF)[|t| + 1] == LF && (t + [CR])[|t|] == CR;
      assert StripRight(t + CRLF) == StripRight(t + [CR]) == StripRight(t);
    }
  }

  lemma {:induction false} SplitsOff(t: Bytes, more: Bytes)
    requires IsToken(t)
    ensures Split(t + [SPACE] + more) == [t] + Split(more)
  {
    if t == [] {
      assert t + [SPACE] + more == [SPACE] + more && ([SPACE] + more)[1..] == more;
    } else {
      assert t[0] in t && forall b | b in t[1..] :: b in t;
      assert (t + [SPACE] + more)[1..] == t[1..] + [SPACE] + more;
      SplitsOff(t[1..], more);
      assert [t[0]] + t[1..] == t && ([t[1..]] + Split(more))[1..] == Split(more);
    }
  }

  lemma {:induction false} SplitsLast(t: Bytes)
    requires SPACE !in t
    ensures Split(t) == [t]
  {
    if t != [] {
      assert t[0] in t && [t[0]] + t[1..] == t;
      SplitsLast(t[1..]);
    }
  }

  lemma {:induction false} SplitSpaced(args: seq<Bytes>)
    requires args != [] && forall t | t in args :: IsToken(t)
    ensures StripAll(Split(Spaced(args) + CRLF)) == Blobs(args) && LF !in Spaced(args)
  {
    var t := args[0];
    assert t in args;
    StripsToken(t);
    if |args| == 1 {
      SplitsLast(t + CRLF);
    } else {
      assert forall a | a in args[1..] :: a in args;
      SplitSpaced(args[1..]);
      SplitsOff(t, Spaced(args[1..]) + CRLF);
      assert Spaced(args) + CRLF == t + [SPACE] + (Spaced(args[1..]) + CRLF);
    }
  }

  lemma InlineReads(args: seq<Bytes>, rest: Bytes)
    requires Speakable(args)
    ensures ReadCommand(Inline(args) + rest) == Ok(Blobs(args), rest)
  {
    var line := Spaced(args);
    SplitSpaced(args);
    assert line[0] == args[0][0];
    assert forall b | b in line[1..] :: b in line;
    NoFeedIsOneLine(line[1..]);
    UntilReads(line[1..], rest);
    assert (Inline(args) + rest)[1..] == line[1..] + CRLF + rest;
    assert [line[0]] + line[1..] == line;
  }

  lemma PackedReads(args: seq<Bytes>, rest: Bytes)
    ensures ReadCommand(Packed(args) + rest) == Ok(Blobs(args), rest)
  {
    StrsPack(args);
    ServerParsesBack(List(Strs(args)), rest);
    assert (Packed(args) + rest)[0] == 42;
  }

  /** The inline line and the packed array decode to the same arguments, and the reader consumes exactly the command. */
  lemma EncodingsAgree(args: seq<Bytes>, rest: Bytes)
    requires Speakable(args)
    ensures ReadCommand(Inline(args) + rest) == ReadCommand(Packed(args) + rest) == Ok(Blobs(args), rest)
  {
    InlineReads(args, rest);
    PackedReads(args, rest);
  }

  // Pipelines.

  datatype Sent = Sent(args: seq<Bytes>, inline: bool)

  predicate Sendable(c: Sent) {
    c.args != [] && (c.inline ==> Speakable(c.args))
  }

  function Encoded(c: Sent): Bytes
    requires Sendable(c)
  {
    if c.inline then Inline(c.args) else Packed(c.args)
  }

  function Pipeline(cs: seq<Sent>): Bytes
    requires forall c | c in cs :: Sendable(c)
  {
    if cs == [] then [] else Encoded(cs[0]) + Pipeline(cs[1..])
  }

  function Delivered(cs: seq<Sent>): seq<seq<Value>> {
    if cs == [] then [] else [Blobs(cs[0].args)] + Delivered(cs[1..])
  }

  /** However commands of both kinds are mixed, the server delivers exactly their arguments, in order, and then
      whatever the rest of the stream holds. */
  lemma {:induction false} PipelineSplits(cs: seq<Sent>, rest: Bytes)
    requires forall c | c in cs :: Sendable(c)
    ensures
      var (later, e) := ReadCommands(rest);
      ReadCommands(Pipeline(cs) + rest) == (Delivered(cs) + later, e)
  {
    if cs == [] {
      assert Pipeline(cs) + rest == rest;
      assert Delivered(cs) + ReadCommands(rest).0 == ReadCommands(rest).0;
    } else {
      assert forall c | c in cs[1..] :: c in cs;
      assert cs[0] in cs;
      var tail := Pipeline(cs[1..]) + rest;
      assert Pipeline(cs) + rest == Encoded(cs[0]) + tail;
      PipelineSplits(cs[1..], rest);
      CommandSplitsOff(cs[0], tail, Delivered(cs[1..]), ReadCommands(rest).0);
      hide ReadCommand, ReadCommands, Encoded, Sendable, Blobs;
      assert Delivered(cs) == [Blobs(cs[0].args)] + Delivered(cs[1..]);
    }
  }

  lemma CommandSplitsOff(c: Sent, tail: Bytes, delivered: seq<seq<Value>>, later: seq<seq<Value>>)
    requires Sendable(c) && ReadCommands(tail).0 == delivered + later
    ensures ReadCommands(Encoded(c) + tail) == ([Blobs(c.args)] + delivered + later, ReadCommands(tail).1)
  {
    hide Speakable, Inline, Packed, ReadCommand;
    if c.inline { InlineReads(c.args, tail); } else { PackedReads(c.args, tail); }
    assert [Blobs(c.args)] + (delivered + later) == [Blobs(c.args)] + delivered + later;
  }

  function ArgsSent(cs: seq<Sent>): seq<seq<Bytes>> {
    seq(|cs|, i requires 0 <= i < |cs| => cs[i].args)
  }

  lemma {:induction false} BlobsDistinct(a: seq<Bytes>, b: seq<Bytes>)
    requires Blobs(a) == Blobs(b)
    ensures a == b
  {
    if a != [] && b != [] {
      assert Blobs(a)[0] == Blobs(b)[0] && Blobs(a)[1..] == Blobs(b)[1..];
      BlobsDistinct(a[1..], b[1..]);
    }
  }

  lemma {:induction false} DeliveredDistinct(cs: seq<Sent>, ds: seq<Sent>)
    requires Delivered(cs) == Delivered(ds)
    ensures ArgsSent(cs) == ArgsSent(ds)
  {
    if cs != [] && ds != [] {
      assert Delivered(cs)[0] == Delivered(ds)[0] && Delivered(cs)[1..] == Delivered(ds)[1..];
      BlobsDistinct(cs[0].args, ds[0].args);
      DeliveredDistinct(cs[1..], ds[1..]);
      assert ArgsSent(cs) == [cs[0].args] + ArgsSent(cs[1..]);
      assert ArgsSent(ds) == [ds[0].args] + ArgsSent(ds[1..]);
    }
  }

  /** The bytes of a pipeline determine the commands in it. */
  lemma SplitIsUnique(cs: seq<Sent>, ds: seq<Sent>)
    requires forall c | c in cs :: Sendable(c)
    requires forall d | d in ds :: Sendable(d)
    requires Pipeline(cs) == Pipeline(ds)
    ensures ArgsSent(cs) == ArgsSent(ds)
  {
    PipelineSplits(cs, []);
    PipelineSplits(ds, []);
    assert Pipeline(cs) + [] == Pipeline(ds) + [];
    assert ReadCommands([]).0 == [];
    assert Delivered(cs) + [] == Delivered(cs) && Delivered(ds) + [] == Delivered(ds);
    DeliveredDistinct(cs, ds);
  }
}
