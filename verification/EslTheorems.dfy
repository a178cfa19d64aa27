/** Event-socket framing: independence of TCP chunking, and reading back what was sent. */
module EslTheorems {
  import opened Bytes
  import opened Esl
  import opened StreamSplitter
  import opened Wrappers

  // ---- The pure parser on a whole byte stream --------------------------------------------------

  function Line(s: seq<byte>): Read<seq<byte>, seq<byte>> {
    match Find(s, NEWLINE)
    case None => Read(Err(SocketClosed), s)
    case Some(at) => Read(Ok(s[..at]), s[at + 1..])
  }

  function HeaderBlock(headers: Headers, s: seq<byte>): Read<Headers, seq<byte>>
    decreases |s|
  {
    var line := Line(s);
    match line.result
    case Err(e) => Read(Err(e), line.left)
    case Ok(l) => if l == [] then Read(Ok(headers), line.left) else HeaderBlock(AddLine(headers, l), line.left)
  }

  function Body(n: int, s: seq<byte>): Read<seq<byte>, seq<byte>> {
    if |s| < n then Read(Err(SocketClosed), s) else Read(Ok(s[..Bound(s, n)]), s[Bound(s, n)..])
  }

  function Parse(lib: Library, s: seq<byte>): Read<Frame, seq<byte>> {
    var block := HeaderBlock(map[], s);
    match block.result
    case Err(e) => Read(Err(e), block.left)
    case Ok(headers) =>
      if CONTENT_LENGTH !in headers then Read(Ok(Frame(headers, None)), block.left)
      else match lib.parseInt(headers[CONTENT_LENGTH])
           case None => Read(Err(BadLength), block.left)
           case Some(n) => WithBody(headers, Body(n, block.left))
  }

  // ---- Chunking does not matter ----------------------------------------------------------------

  function Flatten<T>(r: Read<T, Wire>): Read<T, seq<byte>> {
    Read(r.result, Flat(r.left))
  }

  lemma FlatOfBuffered(w: Wire, at: nat)
    requires at <= |w.buffered|
    ensures Flat(w)[..at] == w.buffered[..at]
    ensures Flat(w)[at..] == Flat(Wire(w.buffered[at..], w.incoming))
  {
  }

  /** A line, and what is left, whatever the chunks. */
  lemma {:induction false} LineIndependent(w: Wire)
    ensures Flatten(LineFrom(w)) == Line(Flat(w))
    decreases |w.incoming|
  {
    if Find(w.buffered, NEWLINE).Some? {
      var at := Find(w.buffered, NEWLINE).value;
      FindStable(w.buffered, NEWLINE, Concat(w.incoming));
      FlatOfBuffered(w, at);
      FlatOfBuffered(w, at + 1);
    } else if w.incoming == [] {
      assert w.buffered + [] == w.buffered;
    } else {
      PullKeepsFlat(w);
      LineIndependent(Pull(w));
    }
  }

  lemma {:induction false} HeadersIndependent(headers: Headers, w: Wire)
    ensures Flatten(HeadersFrom(headers, w)) == HeaderBlock(headers, Flat(w))
    decreases |Flat(w)|
  {
    LineIndependent(w);
    LineShrinks(w);
    var line := LineFrom(w);
    if line.result.Ok? && line.result.value != [] {
      HeadersIndependent(AddLine(headers, line.result.value), line.left);
    }
  }

  /** A body of non-negative length, whatever the chunks; of negative length, when nothing but what
      is dropped from the end has arrived. */
  lemma {:induction false} BodyIndependent(n: int, w: Wire)
    requires n >= 0 || |Flat(w)| + n <= 0
    ensures Flatten(BodyFrom(n, w)) == Body(n, Flat(w))
    decreases |w.incoming|
  {
    if |w.buffered| >= n {
      FlatOfBuffered(w, Bound(w.buffered, n));
    } else if w.incoming == [] {
      assert w.buffered + [] == w.buffered;
    } else {
      PullKeepsFlat(w);
      BodyIndependent(n, Pull(w));
    }
  }

  /** The announced length is not negative, or counts back past everything that is left. */
  predicate Steady(lib: Library, s: seq<byte>) {
    var block := HeaderBlock(map[], s);
    block.result.Ok? && CONTENT_LENGTH in block.result.value ==>
      match lib.parseInt(block.result.value[CONTENT_LENGTH])
      case None => true
      case Some(n) => n >= 0 || |block.left| + n <= 0
  }

  lemma FrameIndependent(lib: Library, w: Wire)
    requires Steady(lib, Flat(w))
    ensures Flatten(FrameFrom(lib, w)) == Parse(lib, Flat(w))
  {
    HeadersIndependent(map[], w);
    var block := HeadersFrom(map[], w);
    if block.result.Ok? && CONTENT_LENGTH in block.result.value {
      var n := lib.parseInt(block.result.value[CONTENT_LENGTH]);
      if n.Some? {
        BodyIndependent(n.value, block.left);
      }
    }
  }

  /** What is already buffered is parsed without receiving more. */
  lemma {:induction false} HeadersInBuffer(headers: Headers, b: seq<byte>, incoming: seq<seq<byte>>)
    requires HeaderBlock(headers, b).result.Ok?
    ensures HeadersFrom(headers, Wire(b, incoming)) ==
            Read(HeaderBlock(headers, b).result, Wire(HeaderBlock(headers, b).left, incoming))
    decreases |b|
  {
    var line := Line(b);
    assert LineFrom(Wire(b, incoming)) == Read(line.result, Wire(line.left, incoming));
    if line.result.value != [] {
      HeadersInBuffer(AddLine(headers, line.result.value), line.left, incoming);
    }
  }

  lemma SplitLine(s: seq<byte>)
    requires Find(s, NEWLINE).Some?
    ensures var at := Find(s, NEWLINE).value;
            NoNewline(s[..at]) && s == s[..at] + (NEWLINE + s[at + 1..])
  {
    var at := Find(s, NEWLINE).value;
    NewlineHere(s, at);
    forall i | 0 <= i < at
      ensures s[i] != 10
    {
      NewlineHere(s, i);
    }
    assert s[at..] == NEWLINE + s[at + 1..];
    Halves(s, at);
  }

  lemma NewlineHere(s: seq<byte>, i: nat)
    requires i < |s|
    ensures MatchAt(s, NEWLINE, i) <==> s[i] == 10
  {
    assert s[i..i + 1][0] == s[i];
  }

  /** A header block does not depend on what follows it. */
  lemma {:induction false} BlockAlone(headers: Headers, s: seq<byte>) returns (block: seq<byte>)
    requires HeaderBlock(headers, s).result.Ok?
    ensures block + HeaderBlock(headers, s).left == s
    ensures HeaderBlock(headers, block) == Read(HeaderBlock(headers, s).result, [])
    decreases |s|
  {
    var at := Find(s, NEWLINE).value;
    var line, rest := s[..at], s[at + 1..];
    SplitLine(s);
    if at == 0 {
      block := NEWLINE;
      NewlineAfter([], []);
      assert NEWLINE == [] + (NEWLINE + []);
      assert s == NEWLINE + rest;
    } else {
      var later := BlockAlone(AddLine(headers, line), rest);
      block := line + (NEWLINE + later);
      NewlineAfter(line, later);
      ShiftTail(line, NEWLINE, later, HeaderBlock(headers, s).left);
    }
  }

  lemma NoMatch(s: seq<byte>, pattern: seq<byte>, i: nat, k: nat)
    requires k < |pattern| && (i + k < |s| ==> s[i + k] != pattern[k])
    ensures !MatchAt(s, pattern, i)
  {
    assert i + |pattern| <= |s| ==> s[i..i + |pattern|][k] == s[i + k];
  }

  ghost predicate ChunksIrrelevant(lib: Library, s: seq<byte>) {
    forall w: Wire :: Flat(w) == s ==> Flatten(FrameFrom(lib, w)) == Parse(lib, s)
  }

  /** The stream arrives with a chunk boundary right after the header block. */
  lemma CutAfterHeaders(s: seq<byte>) returns (w: Wire)
    requires HeaderBlock(map[], s).result.Ok?
    ensures Flat(w) == s
    ensures HeadersFrom(map[], w) == Read(HeaderBlock(map[], s).result, Wire([], [HeaderBlock(map[], s).left]))
  {
    var left := HeaderBlock(map[], s).left;
    var block := BlockAlone(map[], s);
    w := Wire(block, [left]);
    ConcatOne(left);
    HeadersInBuffer(map[], block, [left]);
  }

  /** A negative length that reaches back: with nothing buffered after the headers it takes nothing. */
  lemma ReachesBack(lib: Library, s: seq<byte>) returns (w: Wire)
    requires !Steady(lib, s)
    ensures Flat(w) == s
    ensures FrameFrom(lib, w).result == Ok(Frame(HeaderBlock(map[], s).result.value, Some([])))
  {
    var block := HeaderBlock(map[], s);
    w := CutAfterHeaders(s);
    var n := lib.parseInt(block.result.value[CONTENT_LENGTH]).value;
    assert BodyFrom(n, Wire([], [block.left])) == Read(Ok([]), Wire([], [block.left]));
  }

  /** With everything buffered it takes something. */
  lemma TakesSomething(lib: Library, s: seq<byte>)
    requires !Steady(lib, s)
    ensures Parse(lib, s).result.Ok? && Parse(lib, s).result.value.body.Some?
    ensures Parse(lib, s).result.value.body.value != []
  {
    var block := HeaderBlock(map[], s);
    var n := lib.parseInt(block.result.value[CONTENT_LENGTH]).value;
    assert 0 < Bound(block.left, n) <= |block.left|;
  }

  lemma SteadyIrrelevant(lib: Library, s: seq<byte>)
    requires Steady(lib, s)
    ensures ChunksIrrelevant(lib, s)
  {
    forall w: Wire | Flat(w) == s
      ensures Flatten(FrameFrom(lib, w)) == Parse(lib, s)
    {
      FrameIndependent(lib, w);
    }
  }

  /** A reply or event read from any chunks is what the pure parser gives on the whole stream, and
      leaves exactly what it leaves, if and only if a negative Content-Length, which slices from
      the end of whatever has been received, does not reach back into what follows the headers. */
  lemma ChunksMatterExactly(lib: Library, s: seq<byte>)
    ensures ChunksIrrelevant(lib, s) <==> Steady(lib, s)
  {
    if Steady(lib, s) {
      SteadyIrrelevant(lib, s);
    } else {
      var w := ReachesBack(lib, s);
      TakesSomething(lib, s);
      assert Flatten(FrameFrom(lib, w)).result == FrameFrom(lib, w).result;
    }
  }

  // ---- Sequences of reads ------------------------------------------------------------------------

  /** The reads a session makes: a bare header block, or one with a body. */
  datatype Op = ReadBlock | ReadFrame

  function AsFrame<W>(r: Read<Headers, W>): Read<Frame, W> {
    Read(if r.result.Ok? then Ok(Frame(r.result.value, None)) else Err(r.result.error), r.left)
  }

  function Perform(lib: Library, op: Op, w: Wire): Read<Frame, Wire> {
    if op == ReadBlock then AsFrame(HeadersFrom(map[], w)) else FrameFrom(lib, w)
  }

  function Expected(lib: Library, op: Op, s: seq<byte>): Read<Frame, seq<byte>> {
    if op == ReadBlock then AsFrame(HeaderBlock(map[], s)) else Parse(lib, s)
  }

  /** Results of a sequence of reads, failed ones included, and what they leave. */
  datatype Results<W> = Results(all: seq<Result<Frame, Error>>, left: W)

  function PerformAll(lib: Library, ops: seq<Op>, w: Wire): Results<Wire>
    decreases ops
  {
    if ops == [] then Results([], w)
    else
      var first := Perform(lib, ops[0], w);
      var later := PerformAll(lib, ops[1..], first.left);
      Results([first.result] + later.all, later.left)
  }

  function ExpectedAll(lib: Library, ops: seq<Op>, s: seq<byte>): Results<seq<byte>>
    decreases ops
  {
    if ops == [] then Results([], s)
    else
      var first := Expected(lib, ops[0], s);
      var later := ExpectedAll(lib, ops[1..], first.left);
      Results([first.result] + later.all, later.left)
  }

  predicate SteadyAll(lib: Library, ops: seq<Op>, s: seq<byte>)
    decreases ops
  {
    ops != [] ==> (ops[0] == ReadFrame ==> Steady(lib, s)) && SteadyAll(lib, ops[1..], Expected(lib, ops[0], s).left)
  }

  /** Never desynchronised: any sequence of reads over any chunks returns what the pure parser
      returns on the whole stream, and leaves what it leaves. */
  lemma {:induction false} ReadsIndependent(lib: Library, ops: seq<Op>, w: Wire)
    requires SteadyAll(lib, ops, Flat(w))
    ensures PerformAll(lib, ops, w).all == ExpectedAll(lib, ops, Flat(w)).all
    ensures Flat(PerformAll(lib, ops, w).left) == ExpectedAll(lib, ops, Flat(w)).left
    decreases ops
  {
    if ops != [] {
      if ops[0] == ReadFrame {
        FrameIndependent(lib, w);
      } else {
        HeadersIndependent(map[], w);
      }
      ReadsIndependent(lib, ops[1..], Perform(lib, ops[0], w).left);
    }
  }

  // ---- Reading back what send_event writes --------------------------------------------------------

  ghost predicate NoNewline(s: seq<byte>) {
    forall i :: 0 <= i < |s| ==> s[i] != 10
  }

  /** A header that a line can carry: no newline, and no ": " in the key. */
  ghost predicate Clean(p: Pair) {
    NoNewline(p.key) && NoNewline(p.value) && Find(p.key, COLON) == None
  }

  ghost predicate AllClean(ps: seq<Pair>) {
    forall i :: 0 <= i < |ps| ==> Clean(ps[i])
  }

  function Fields(headers: Headers, ps: seq<Pair>): Headers
    decreases ps
  {
    if ps == [] then headers else Fields(headers[ps[0].key := ps[0].value], ps[1..])
  }

  lemma NewlineAfter(line: seq<byte>, rest: seq<byte>)
    requires NoNewline(line)
    ensures Find(line + (NEWLINE + rest), NEWLINE) == Some(|line|)
    ensures Line(line + (NEWLINE + rest)) == Read(Ok(line), rest)
  {
    var s := line + (NEWLINE + rest);
    assert s[|line|..|line| + 1] == NEWLINE;
    forall i: nat | i < |line|
      ensures !MatchAt(s, NEWLINE, i)
    {
      NoMatch(s, NEWLINE, i, 0);
    }
    FindIs(s, NEWLINE, |line|);
    assert s[..|line|] == line && s[|line| + 1..] == rest;
  }

  lemma ColonAfter(p: Pair)
    requires Clean(p)
    ensures Find(HeaderLine(p), COLON) == Some(|p.key|)
    ensures HeaderLine(p)[..|p.key|] == p.key && HeaderLine(p)[|p.key| + 2..] == p.value
  {
    var s := HeaderLine(p);
    assert s[|p.key|..|p.key| + 2] == COLON;
    forall i: nat | i < |p.key|
      ensures !MatchAt(s, COLON, i)
    {
      if i + 2 <= |p.key| {
        assert s[i..i + 2] == p.key[i..i + 2];
        assert !MatchAt(p.key, COLON, i);
      } else {
        NoMatch(s, COLON, i, 1);
      }
    }
    FindIs(s, COLON, |p.key|);
  }

  lemma LineOfPair(p: Pair)
    requires Clean(p)
    ensures NoNewline(HeaderLine(p)) && HeaderLine(p) != []
  {
  }

  /** Each line with its newline. */
  function Terminated(lines: seq<seq<byte>>): seq<byte> {
    if lines == [] then [] else lines[0] + (NEWLINE + Terminated(lines[1..]))
  }

  lemma {:induction false} JoinIsTerminated(lines: seq<seq<byte>>, rest: seq<byte>)
    requires lines != []
    ensures Join(lines) + (BLANK_LINE + rest) == Terminated(lines) + (NEWLINE + rest)
  {
    assert BLANK_LINE + rest == NEWLINE + (NEWLINE + rest);
    if |lines| == 1 {
      assert lines[1..] == [] && NEWLINE + [] == NEWLINE;
      Reassociate(lines[0], NEWLINE, NEWLINE + rest);
    } else {
      JoinIsTerminated(lines[1..], rest);
      ShiftTail(lines[0], NEWLINE, Join(lines[1..]), BLANK_LINE + rest);
      ShiftTail(lines[0], NEWLINE, Terminated(lines[1..]), NEWLINE + rest);
    }
  }

  lemma ShiftTail(a: seq<byte>, b: seq<byte>, c: seq<byte>, d: seq<byte>)
    ensures (a + (b + c)) + d == a + (b + (c + d))
  {
    Reassociate(a, b + c, d);
    Reassociate(b, c, d);
  }

  /** A block of header lines is read as its fields, whatever follows it. */
  lemma {:induction false} BlockOfPairs(headers: Headers, ps: seq<Pair>, rest: seq<byte>)
    requires AllClean(ps)
    ensures HeaderBlock(headers, Terminated(HeaderLines(ps)) + (NEWLINE + rest)) == Read(Ok(Fields(headers, ps)), rest)
    decreases ps
  {
    if ps == [] {
      NewlineAfter([], rest);
      assert [] + (NEWLINE + rest) == NEWLINE + rest;
    } else {
      var line := HeaderLine(ps[0]);
      var more := Terminated(HeaderLines(ps)[1..]) + (NEWLINE + rest);
      LineOfPair(ps[0]);
      ColonAfter(ps[0]);
      NewlineAfter(line, more);
      ShiftTail(line, NEWLINE, Terminated(HeaderLines(ps)[1..]), NEWLINE + rest);
      BlockOfPairs(headers[ps[0].key := ps[0].value], ps[1..], rest);
    }
  }

  lemma IgnoredLine(headers: Headers, line: seq<byte>, rest: seq<byte>)
    requires NoNewline(line) && line != [] && Find(line, COLON) == None
    ensures HeaderBlock(headers, line + (NEWLINE + rest)) == HeaderBlock(headers, rest)
  {
    NewlineAfter(line, rest);
  }

  lemma NoColon(line: seq<byte>)
    requires forall i :: 0 <= i < |line| ==> line[i] != 58
    ensures Find(line, COLON) == None
  {
    forall i: nat
      ensures !MatchAt(line, COLON, i)
    {
      NoMatch(line, COLON, i, 0);
    }
  }

  /** ASCII, without newline or colon. */
  predicate IsWord(s: string) {
    forall i :: 0 <= i < |s| ==> s[i] < '\U{80}' && s[i] != '\n' && s[i] != ':'
  }

  lemma WordIsClean(s: string)
    requires IsWord(s)
    ensures NoNewline(Ascii(s)) && Find(Ascii(s), COLON) == None
  {
    NoColon(Ascii(s));
  }

  lemma Words()
    ensures IsWord("sendevent CUSTOM") && IsWord("Event-Subclass") && IsWord("Content-Length")
  {
  }

  lemma {:induction false} DecimalHasNoNewline(n: nat)
    ensures NoNewline(Decimal(n))
  {
    if n >= 10 {
      DecimalHasNoNewline(n / 10);
    }
  }

  lemma {:induction false} FieldsAppend(headers: Headers, a: seq<Pair>, b: seq<Pair>)
    ensures Fields(headers, a + b) == Fields(Fields(headers, a), b)
    decreases a
  {
    if a == [] {
      assert a + b == b;
    } else {
      assert (a + b)[1..] == a[1..] + b;
      FieldsAppend(headers[a[0].key := a[0].value], a[1..], b);
    }
  }

  lemma {:induction false} FieldsKeys(headers: Headers, ps: seq<Pair>, key: seq<byte>)
    requires key !in headers && forall i :: 0 <= i < |ps| ==> ps[i].key != key
    ensures key !in Fields(headers, ps)
    decreases ps
  {
    if ps != [] {
      FieldsKeys(headers[ps[0].key := ps[0].value], ps[1..], key);
    }
  }

  /** ASCII digits, at least one. */
  ghost predicate IsNumeral(b: seq<byte>) {
    b != [] && forall i :: 0 <= i < |b| ==> 48 <= b[i] <= 57
  }

  /** The number that digits spell. */
  function Numeral(b: seq<byte>): int {
    if b == [] then 0 else Numeral(b[..|b| - 1]) * 10 + (b[|b| - 1] as int - 48)
  }

  /** `int` reads digits as the number they spell. */
  ghost predicate ReadsDecimals(lib: Library) {
    forall b :: IsNumeral(b) ==> lib.parseInt(b) == Some(Numeral(b))
  }

  lemma {:induction false} DecimalSpells(n: nat)
    ensures IsNumeral(Decimal(n)) && Numeral(Decimal(n)) == n
  {
    if n >= 10 {
      DecimalSpells(n / 10);
      assert Decimal(n)[..|Decimal(n)| - 1] == Decimal(n / 10);
    } else {
      assert Decimal(n)[..0] == [];
    }
  }

  /** What `send_event` may be given. */
  ghost predicate Sendable(subclass: seq<byte>, headers: seq<Pair>, body: seq<byte>) {
    && NoNewline(subclass) && AllClean(headers)
    && (body == [] ==> forall i :: 0 <= i < |headers| ==> headers[i].key != CONTENT_LENGTH)
  }

  lemma CleanAppend(a: seq<Pair>, b: seq<Pair>)
    requires AllClean(a) && AllClean(b)
    ensures AllClean(a + b)
  {
  }

  lemma CleanWord(word: string, value: seq<byte>)
    requires IsWord(word) && NoNewline(value)
    ensures AllClean([Pair(Ascii(word), value)])
  {
    WordIsClean(word);
  }

  lemma PairsClean(subclass: seq<byte>, headers: seq<Pair>, body: seq<byte>)
    requires Sendable(subclass, headers, body)
    ensures AllClean(EventPairs(subclass, headers, body))
  {
    Words();
    CleanWord("Event-Subclass", subclass);
    var start := [Pair(Ascii("Event-Subclass"), subclass)];
    CleanAppend(start, headers);
    if body == [] {
      CleanAppend(start + headers, []);
    } else {
      DecimalHasNoNewline(|body|);
      CleanWord("Content-Length", Decimal(|body|));
      CleanAppend(start + headers, [Pair(CONTENT_LENGTH, Decimal(|body|))]);
    }
  }

  /** A command line without ": ", header lines and a blank line. */
  lemma CommandReadBack(command: seq<byte>, ps: seq<Pair>, body: seq<byte>, rest: seq<byte>)
    requires NoNewline(command) && command != [] && Find(command, COLON) == None && AllClean(ps)
    ensures HeaderBlock(map[], (Join([command] + HeaderLines(ps)) + (BLANK_LINE + body)) + rest) ==
            Read(Ok(Fields(map[], ps)), body + rest)
  {
    var lines := HeaderLines(ps);
    var all := [command] + lines;
    assert all[1..] == lines;
    Reassociate(Join(all), BLANK_LINE + body, rest);
    Reassociate(BLANK_LINE, body, rest);
    JoinIsTerminated(all, body + rest);
    ShiftTail(command, NEWLINE, Terminated(lines), NEWLINE + (body + rest));
    IgnoredLine(map[], command, Terminated(lines) + (NEWLINE + (body + rest)));
    BlockOfPairs(map[], ps, body + rest);
  }

  lemma HeadersReadBack(subclass: seq<byte>, headers: seq<Pair>, body: seq<byte>, rest: seq<byte>)
    requires Sendable(subclass, headers, body)
    ensures HeaderBlock(map[], EventBytes(subclass, headers, body) + rest) ==
            Read(Ok(Fields(map[], EventPairs(subclass, headers, body))), body + rest)
  {
    Words();
    WordIsClean("sendevent CUSTOM");
    PairsClean(subclass, headers, body);
    CommandReadBack(Ascii("sendevent CUSTOM"), EventPairs(subclass, headers, body), body, rest);
  }

  lemma LastWins(ps: seq<Pair>, p: Pair)
    ensures p.key in Fields(map[], ps + [p]) && Fields(map[], ps + [p])[p.key] == p.value
  {
    FieldsAppend(map[], ps, [p]);
  }

  lemma LengthField(subclass: seq<byte>, headers: seq<Pair>, body: seq<byte>)
    requires Sendable(subclass, headers, body)
    ensures var fields := Fields(map[], EventPairs(subclass, headers, body));
            if body == [] then CONTENT_LENGTH !in fields
            else CONTENT_LENGTH in fields && fields[CONTENT_LENGTH] == Decimal(|body|)
  {
    var first := Pair(Ascii("Event-Subclass"), subclass);
    if body == [] {
      WordsDiffer();
      KeyNowhere(first, headers, CONTENT_LENGTH);
      assert ([first] + headers) + [] == [first] + headers;
    } else {
      LastWins([first] + headers, Pair(CONTENT_LENGTH, Decimal(|body|)));
    }
  }

  lemma WordsDiffer()
    ensures Ascii("Event-Subclass") != CONTENT_LENGTH
  {
    assert Ascii("Event-Subclass")[0] != CONTENT_LENGTH[0];
  }

  lemma KeyNowhere(first: Pair, headers: seq<Pair>, key: seq<byte>)
    requires first.key != key && forall i :: 0 <= i < |headers| ==> headers[i].key != key
    ensures key !in Fields(map[], [first] + headers)
  {
    FieldsKeys(map[], [first] + headers, key);
  }

  /** What `send_event` writes, arriving in any chunks and followed by anything, is read back as
      the same headers and body, and what follows is left untouched. */
  lemma EventReadBack(lib: Library, subclass: seq<byte>, headers: seq<Pair>, body: seq<byte>, rest: seq<byte>, w: Wire)
    requires ReadsDecimals(lib) && Sendable(subclass, headers, body)
    requires Flat(w) == EventBytes(subclass, headers, body) + rest
    ensures Flatten(FrameFrom(lib, w)) ==
            Read(Ok(Frame(Fields(map[], EventPairs(subclass, headers, body)),
                          if body == [] then None else Some(body))), rest)
  {
    HeadersReadBack(subclass, headers, body, rest);
    LengthField(subclass, headers, body);
    DecimalSpells(|body|);
    FrameIndependent(lib, w);
    if body == [] {
      assert body + rest == rest;
    } else {
      assert (body + rest)[..|body|] == body && (body + rest)[|body|..] == rest;
    }
  }

  /** A header line, and the ends of lines and blocks, as text. */
  lemma AsText(key: string, value: string)
    ensures HeaderLine(Pair(Ascii(key), Ascii(value))) == Ascii(key + (": " + value))
    ensures NEWLINE == Ascii("\n") && BLANK_LINE == Ascii("\n\n")
  {
    assert COLON == Ascii(": ");
    AsciiAppend(": ", value);
    AsciiAppend(key, ": " + value);
  }

  lemma AsciiAppend(a: string, b: string)
    ensures Ascii(a + b) == Ascii(a) + Ascii(b)
  {
  }

  /** A header block announcing -1 bytes, and two bytes more: read whole, the body is the first of
      them; read with a chunk boundary after the headers, it is empty. */
  lemma NegativeLengthDepends(lib: Library) returns (whole: Wire, cut: Wire)
    requires lib.parseInt(Ascii("-1")) == Some(-1)
    ensures Flat(whole) == Flat(cut) == Terminated(HeaderLines([Pair(CONTENT_LENGTH, Ascii("-1"))])) + (NEWLINE + [97, 98])
    ensures FrameFrom(lib, whole).result.Ok? && FrameFrom(lib, whole).result.value.body == Some([97])
    ensures FrameFrom(lib, cut).result.Ok? && FrameFrom(lib, cut).result.value.body == Some([])
  {
    var ps := [Pair(CONTENT_LENGTH, Ascii("-1"))];
    var s := Terminated(HeaderLines(ps)) + (NEWLINE + [97, 98]);
    MinusOne();
    BlockOfPairs(map[], ps, [97, 98]);
    OneField(ps[0]);
    whole := Wire(s, []);
    assert s + [] == s;
    HeadersInBuffer(map[], s, []);
    BodyFromEnd(lib, whole, ps[0].value);
    cut := ReachesBack(lib, s);
  }

  lemma MinusOne()
    ensures AllClean([Pair(CONTENT_LENGTH, Ascii("-1"))])
  {
    Words();
    WordIsClean("-1");
    CleanWord("Content-Length", Ascii("-1"));
  }

  lemma OneField(p: Pair)
    ensures Fields(map[], [p]) == map[p.key := p.value]
  {
    assert [p][1..] == [];
  }

  lemma BodyFromEnd(lib: Library, w: Wire, length: seq<byte>)
    requires lib.parseInt(length) == Some(-1)
    requires HeadersFrom(map[], w) == Read(Ok(map[CONTENT_LENGTH := length]), Wire([97, 98], []))
    ensures FrameFrom(lib, w).result == Ok(Frame(map[CONTENT_LENGTH := length], Some([97])))
  {
    var b: seq<byte> := [97, 98];
    assert Bound(b, -1) == 1 && b[..1] == [97];
  }

  // ---- The event inside a body ---------------------------------------------------------------------

  ghost predicate Solid(lines: seq<seq<byte>>) {
    lines == [] || (NoNewline(lines[0]) && lines[0] != [] && Solid(lines[1..]))
  }

  lemma {:induction false} LinesOfJoin(lines: seq<seq<byte>>)
    requires lines != [] && Solid(lines)
    ensures Lines(Join(lines)) == lines
  {
    if |lines| == 1 {
      NoNewlineFound(lines[0]);
    } else {
      NewlineAfter(lines[0], Join(lines[1..]));
      LinesOfJoin(lines[1..]);
      var s := Join(lines);
      assert s[..|lines[0]|] == lines[0] && s[|lines[0]| + 1..] == Join(lines[1..]);
    }
  }

  lemma NoNewlineFound(s: seq<byte>)
    requires NoNewline(s)
    ensures Find(s, NEWLINE) == None
  {
    forall i: nat
      ensures !MatchAt(s, NEWLINE, i)
    {
      NoMatch(s, NEWLINE, i, 0);
    }
  }

  lemma {:induction false} BlankAfterLine(line: seq<byte>, body: seq<byte>)
    requires NoNewline(line)
    ensures Find(line + (BLANK_LINE + body), BLANK_LINE) == Some(|line|)
  {
    var s := line + (BLANK_LINE + body);
    if line == [] {
      assert s[..2] == BLANK_LINE;
    } else {
      assert s[..2][0] == line[0];
      assert s[1..] == line[1..] + (BLANK_LINE + body);
      BlankAfterLine(line[1..], body);
    }
  }

  lemma BlankLater(first: byte, rest: seq<byte>)
    requires Find(rest, BLANK_LINE).Some? && (first != 10 || rest[0] != 10)
    ensures Find([first] + rest, BLANK_LINE) == Some(1 + Find(rest, BLANK_LINE).value)
  {
    var s := [first] + rest;
    assert s[..2] == [first, rest[0]];
    assert s[1..] == rest;
  }

  lemma HeadFirst(a: seq<byte>, b: seq<byte>)
    requires a != []
    ensures a + b == [a[0]] + (a[1..] + b)
  {
  }

  lemma {:induction false} BlankPastLine(line: seq<byte>, more: seq<byte>)
    requires NoNewline(line) && more != [] && more[0] != 10 && Find(more, BLANK_LINE).Some?
    ensures Find(line + (NEWLINE + more), BLANK_LINE) == Some(|line| + 1 + Find(more, BLANK_LINE).value)
  {
    if line == [] {
      assert line + (NEWLINE + more) == NEWLINE + more;
      BlankLater(10, more);
    } else {
      var tail := line[1..] + (NEWLINE + more);
      BlankPastLine(line[1..], more);
      assert line[0] != 10;
      HeadFirst(line, NEWLINE + more);
      BlankLater(line[0], tail);
    }
  }

  lemma JoinStart(lines: seq<seq<byte>>, rest: seq<byte>)
    requires lines != [] && Solid(lines)
    ensures var s := Join(lines) + rest;
            s != [] && s[0] != 10
  {
    assert Join(lines)[0] == lines[0][0];
  }

  lemma JoinStep(lines: seq<seq<byte>>, rest: seq<byte>)
    requires |lines| > 1
    ensures Join(lines) + rest == lines[0] + (NEWLINE + (Join(lines[1..]) + rest))
    ensures |Join(lines)| == |lines[0]| + 1 + |Join(lines[1..])|
  {
    ShiftTail(lines[0], NEWLINE, Join(lines[1..]), rest);
  }

  lemma SolidFirst(lines: seq<seq<byte>>)
    requires |lines| > 1 && Solid(lines)
    ensures NoNewline(lines[0]) && lines[1..] != [] && Solid(lines[1..])
  {
  }

  lemma BlankAfterFirst(lines: seq<seq<byte>>, body: seq<byte>)
    requires |lines| > 1 && Solid(lines)
    requires Find(Join(lines[1..]) + (BLANK_LINE + body), BLANK_LINE) == Some(|Join(lines[1..])|)
    ensures Find(Join(lines) + (BLANK_LINE + body), BLANK_LINE) == Some(|Join(lines)|)
  {
    SolidFirst(lines);
    JoinStart(lines[1..], BLANK_LINE + body);
    JoinStep(lines, BLANK_LINE + body);
    BlankPastLine(lines[0], Join(lines[1..]) + (BLANK_LINE + body));
  }

  lemma {:induction false} BlankAfterJoin(lines: seq<seq<byte>>, body: seq<byte>)
    requires lines != [] && Solid(lines)
    ensures Find(Join(lines) + (BLANK_LINE + body), BLANK_LINE) == Some(|Join(lines)|)
  {
    if |lines| == 1 {
      BlankAfterLine(lines[0], body);
    } else {
      BlankAfterJoin(lines[1..], body);
      BlankAfterFirst(lines, body);
    }
  }

  function Unquoted(lib: Library, ps: seq<Pair>): seq<Pair> {
    if ps == [] then [] else [Pair(ps[0].key, lib.unquote(ps[0].value))] + Unquoted(lib, ps[1..])
  }

  lemma {:induction false} EventFields(lib: Library, headers: Headers, ps: seq<Pair>)
    requires AllClean(ps)
    ensures EventHeaders(lib, headers, HeaderLines(ps)) == Fields(headers, Unquoted(lib, ps))
    decreases ps
  {
    if ps != [] {
      ColonAfter(ps[0]);
      var next := headers[ps[0].key := lib.unquote(ps[0].value)];
      EventFields(lib, next, ps[1..]);
      assert HeaderLines(ps)[1..] == HeaderLines(ps[1..]) && Unquoted(lib, ps)[1..] == Unquoted(lib, ps[1..]);
    }
  }

  lemma {:induction false} LinesAreClean(ps: seq<Pair>)
    requires AllClean(ps)
    ensures Solid(HeaderLines(ps))
  {
    if ps != [] {
      LineOfPair(ps[0]);
      LinesAreClean(ps[1..]);
    }
  }

  lemma AroundBlank(a: seq<byte>, body: seq<byte>)
    ensures (a + (BLANK_LINE + body))[..|a|] == a && (a + (BLANK_LINE + body))[|a| + 2..] == body
  {
  }

  /** An event serialised as header lines, a blank line and a body is taken apart into exactly
      these: the body may hold anything, blank lines included. */
  lemma EventTakenApart(lib: Library, ps: seq<Pair>, body: seq<byte>)
    requires ps != [] && AllClean(ps)
    ensures EventOf(lib, Join(HeaderLines(ps)) + (BLANK_LINE + body)) == Event(Fields(map[], Unquoted(lib, ps)), body)
  {
    var lines := HeaderLines(ps);
    LinesAreClean(ps);
    BlankAfterJoin(lines, body);
    LinesOfJoin(lines);
    EventFields(lib, map[], ps);
    AroundBlank(Join(lines), body);
  }

  lemma NoBlankInside(lines: seq<seq<byte>>)
    requires lines != [] && Solid(lines)
    ensures Find(Join(lines), BLANK_LINE) == None
  {
    BlankAfterJoin(lines, []);
    if Find(Join(lines), BLANK_LINE).Some? {
      FindStable(Join(lines), BLANK_LINE, BLANK_LINE + []);
      assert false;
    }
  }

  /** ... and one without a body into its headers. */
  lemma BareEventTakenApart(lib: Library, ps: seq<Pair>)
    requires ps != [] && AllClean(ps)
    ensures EventOf(lib, Join(HeaderLines(ps))) == Event(Fields(map[], Unquoted(lib, ps)), [])
  {
    LinesAreClean(ps);
    NoBlankInside(HeaderLines(ps));
    LinesOfJoin(HeaderLines(ps));
    EventFields(lib, map[], ps);
  }

  // ---- What the session returns ----------------------------------------------------------------------

  /** A block of header lines, and the bytes after its blank line. */
  function Framed(ps: seq<Pair>, data: seq<byte>): seq<byte> {
    Terminated(HeaderLines(ps)) + (NEWLINE + data)
  }

  /** The last Content-Length among the headers announces this many bytes. */
  predicate Announces(ps: seq<Pair>, n: nat) {
    CONTENT_LENGTH in Fields(map[], ps) && Fields(map[], ps)[CONTENT_LENGTH] == Decimal(n)
  }

  /** A frame with a body, in any chunks and whatever follows it. */
  lemma FrameReadBack(lib: Library, ps: seq<Pair>, data: seq<byte>, rest: seq<byte>, w: Wire)
    requires ReadsDecimals(lib) && AllClean(ps) && Announces(ps, |data|)
    requires Flat(w) == Framed(ps, data + rest)
    ensures Flatten(FrameFrom(lib, w)) == Read(Ok(Frame(Fields(map[], ps), Some(data))), rest)
  {
    BlockOfPairs(map[], ps, data + rest);
    DecimalSpells(|data|);
    FrameIndependent(lib, w);
    assert (data + rest)[..|data|] == data && (data + rest)[|data|..] == rest;
  }

  /** A frame without a body likewise. */
  lemma BlockReadBack(lib: Library, ps: seq<Pair>, rest: seq<byte>, w: Wire)
    requires AllClean(ps) && CONTENT_LENGTH !in Fields(map[], ps)
    requires Flat(w) == Framed(ps, rest)
    ensures Flatten(FrameFrom(lib, w)) == Read(Ok(Frame(Fields(map[], ps), None)), rest)
  {
    BlockOfPairs(map[], ps, rest);
    FrameIndependent(lib, w);
  }

  /** An event as it is serialised: header lines, and its own body after a blank line if it has one. */
  function Serialised(event: seq<Pair>, body: Option<seq<byte>>): seq<byte> {
    Join(HeaderLines(event)) + if body.Some? then BLANK_LINE + body.value else []
  }

  lemma SerialisedTakenApart(lib: Library, event: seq<Pair>, body: Option<seq<byte>>)
    requires event != [] && AllClean(event)
    ensures EventOf(lib, Serialised(event, body)) ==
            Event(Fields(map[], Unquoted(lib, event)), if body.Some? then body.value else [])
  {
    if body.Some? {
      EventTakenApart(lib, event, body.value);
    } else {
      BareEventTakenApart(lib, event);
      assert Join(HeaderLines(event)) + [] == Join(HeaderLines(event));
    }
  }

  /** A frame whose body is a serialised event makes `recv_event` return that event, over any chunks,
      and leave what follows. */
  lemma EventReceived(lib: Library, ps: seq<Pair>, event: seq<Pair>, body: Option<seq<byte>>, rest: seq<byte>, w: Wire)
    requires ReadsDecimals(lib) && AllClean(ps) && Announces(ps, |Serialised(event, body)|)
    requires event != [] && AllClean(event)
    requires Flat(w) == Framed(ps, Serialised(event, body) + rest)
    ensures var f := FrameFrom(lib, w);
            && f.result.Ok? && Flat(f.left) == rest
            && Received(lib, f.result.value) ==
               Event(Fields(map[], Unquoted(lib, event)), if body.Some? then body.value else [])
  {
    FrameReadBack(lib, ps, Serialised(event, body), rest, w);
    SerialisedTakenApart(lib, event, body);
  }

  /** What `send_cmd` returns: the reply's headers, and its body, stripped, as one more. */
  lemma ReplyReceived(lib: Library, ps: seq<Pair>, data: seq<byte>, rest: seq<byte>, w: Wire)
    requires ReadsDecimals(lib) && AllClean(ps) && Announces(ps, |data|)
    requires Flat(w) == Framed(ps, data + rest)
    ensures var f := FrameFrom(lib, w);
            && f.result.Ok? && Flat(f.left) == rest
            && Reply(lib, f.result.value) == Fields(map[], ps)[BODY := lib.strip(data)]
  {
    FrameReadBack(lib, ps, data, rest, w);
  }

  /** ... or the headers alone. */
  lemma BareReplyReceived(lib: Library, ps: seq<Pair>, rest: seq<byte>, w: Wire)
    requires AllClean(ps) && CONTENT_LENGTH !in Fields(map[], ps)
    requires Flat(w) == Framed(ps, rest)
    ensures var f := FrameFrom(lib, w);
            f.result.Ok? && Flat(f.left) == rest && Reply(lib, f.result.value) == Fields(map[], ps)
  {
    BlockReadBack(lib, ps, rest, w);
  }
}
