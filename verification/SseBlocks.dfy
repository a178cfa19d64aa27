/** Server-sent event blocks of the Doubao Responses stream, cut from byte chunks. */
module SseBlocks {
  import opened Bytes
  import opened StreamSplitter
  import opened Wrappers

  const CR: byte := 13
  const BLANK_LINE: seq<byte> := [10, 10]

  /** `from_utf8(chunk).unwrap_or("")`: a chunk that is not UTF-8 by itself is dropped whole. */
  function Decoded(chunk: seq<byte>): seq<byte> {
    if ValidUtf8(chunk) then chunk else []
  }

  /** `retain(|c| c != '\r')`. */
  function Strip(s: seq<byte>): seq<byte> {
    if s == [] then [] else (if s[0] == CR then [] else [s[0]]) + Strip(s[1..])
  }

  lemma {:induction false} StripAppend(a: seq<byte>, b: seq<byte>)
    ensures Strip(a + b) == Strip(a) + Strip(b)
  {
    if a == [] {
      assert a + b == b;
    } else {
      assert (a + b)[1..] == a[1..] + b;
      StripAppend(a[1..], b);
    }
  }

  lemma {:induction false} StripNothing(s: seq<byte>)
    requires CR !in s
    ensures Strip(s) == s
  {
    if s != [] {
      StripNothing(s[1..]);
    }
  }

  lemma {:induction false} Stripped(s: seq<byte>)
    ensures CR !in Strip(s)
  {
    if s != [] {
      Stripped(s[1..]);
    }
  }

  /** A block ends with its blank line. */
  function Cut(s: seq<byte>): (n: Option<nat>)
    ensures n.Some? ==> 2 <= n.value <= |s|
  {
    match Find(s, BLANK_LINE)
    case None => None
    case Some(at) => Some(at + 2)
  }

  lemma CutIsStable()
    ensures WellFormed(Cut)
    ensures forall s :: StableAt(Cut, s)
  {
    forall s: seq<byte>, x: seq<byte> | Cut(s).Some?
      ensures Cut(s + x) == Cut(s)
    {
      FindStable(s, BLANK_LINE, x);
    }
  }

  /** All blocks of a text at once, each with its blank line, and what is left. */
  function Batch(text: seq<byte>): Split<byte> {
    CutIsStable();
    Drain(Cut, text)
  }

  /** What one received chunk adds to the buffer. */
  function Received(chunks: seq<seq<byte>>): seq<seq<byte>> {
    if chunks == [] then [] else [Strip(Decoded(chunks[0]))] + Received(chunks[1..])
  }

  function Streamed(buffer: seq<byte>, chunks: seq<seq<byte>>): Split<byte> {
    CutIsStable();
    Feed(Cut, buffer, Received(chunks))
  }

  /** The blocks as the event parser sees them, without the blank line. */
  function Contents(units: seq<seq<byte>>): seq<seq<byte>> {
    if units == [] then []
    else [if |units[0]| >= 2 then units[0][..|units[0]| - 2] else units[0]] + Contents(units[1..])
  }

  lemma {:induction false} ContentsAppend(a: seq<seq<byte>>, b: seq<seq<byte>>)
    ensures Contents(a + b) == Contents(a) + Contents(b)
  {
    if a == [] {
      assert a + b == b;
    } else {
      assert (a + b)[1..] == a[1..] + b;
      ContentsAppend(a[1..], b);
    }
  }

  lemma BatchStep(text: seq<byte>)
    requires Cut(text).Some?
    ensures var n := Cut(text).value;
            Batch(text) == Split([text[..n]] + Batch(text[n..]).units, Batch(text[n..]).rest)
  {
  }

  lemma BatchConserves(text: seq<byte>)
    ensures Concat(Batch(text).units) + Batch(text).rest == text
    ensures Cut(Batch(text).rest) == None
  {
    CutIsStable();
    DrainConserves(Cut, text);
  }

  class Reader {
    var buffer: seq<byte>

    ghost predicate Valid()
      reads this
    {
      CR !in buffer
    }

    constructor ()
      ensures Valid() && buffer == []
    {
      buffer := [];
    }

    /** One chunk: decode, append, strip carriage returns, then drain block by block. */
    method Receive(chunk: seq<byte>) returns (blocks: seq<seq<byte>>)
      requires Valid()
      modifies this
      ensures Valid()
      ensures var all := Batch(old(buffer) + Strip(Decoded(chunk)));
              blocks == Contents(all.units) && buffer == all.rest
    {
      StripAppend(buffer, Decoded(chunk));
      StripNothing(buffer);
      Stripped(buffer + Decoded(chunk));
      buffer := buffer + Decoded(chunk);
      if CR in buffer {
        buffer := Strip(buffer);
      } else {
        StripNothing(buffer);
      }
      blocks := DrainBlocks();
    }

    method DrainBlocks() returns (blocks: seq<seq<byte>>)
      requires Valid()
      modifies this
      ensures Valid()
      ensures blocks == Contents(Batch(old(buffer)).units) && buffer == Batch(old(buffer)).rest
    {
      ghost var whole := Batch(buffer);
      ghost var done: seq<seq<byte>> := [];
      blocks := [];
      while true
        invariant Valid()
        invariant whole == Split(done + Batch(buffer).units, Batch(buffer).rest)
        invariant blocks == Contents(done)
        decreases |buffer|
      {
        var pos := Find(buffer, BLANK_LINE);
        if pos == None {
          break;
        }
        BatchStep(buffer);
        ghost var unit := buffer[..pos.value + 2];
        assert unit[..pos.value] == buffer[..pos.value];
        var block := buffer[..pos.value];
        buffer := buffer[pos.value..][2..];
        ContentsAppend(done, [unit]);
        Reassociate(done, [unit], Batch(buffer).units);
        done := done + [unit];
        blocks := blocks + [block];
      }
      assert done + [] == done;
    }
  }

  // ---- Independence of the chunks ------------------------------------------------------------

  ghost predicate AllText(chunks: seq<seq<byte>>) {
    forall i :: 0 <= i < |chunks| ==> ValidUtf8(chunks[i])
  }

  lemma {:induction false} ReceivedAll(chunks: seq<seq<byte>>)
    requires AllText(chunks)
    ensures Concat(Received(chunks)) == Strip(Concat(chunks))
  {
    if chunks != [] {
      assert Decoded(chunks[0]) == chunks[0];
      ReceivedAll(chunks[1..]);
      ConcatCons(Strip(chunks[0]), Received(chunks[1..]));
      StripAppend(chunks[0], Concat(chunks[1..]));
    }
  }

  /** Something other than ASCII stands in bytes that are not UTF-8. */
  lemma {:induction false} NotAscii(b: seq<byte>)
    requires !ValidUtf8(b)
    ensures exists i :: 0 <= i < |b| && b[i] >= 0x80
  {
    if b[0] < 0x80 {
      NotAscii(b[1..]);
      var i :| 0 <= i < |b[1..]| && b[1..][i] >= 0x80;
      assert b[i + 1] >= 0x80;
    }
  }

  lemma {:induction false} StripKeeps(b: seq<byte>, i: nat)
    requires i < |b| && b[i] != CR
    ensures Strip(b) != []
  {
    if b[0] == CR {
      StripKeeps(b[1..], i - 1);
    }
  }

  lemma {:induction false} ReceivedLess(chunks: seq<seq<byte>>)
    ensures |Concat(Received(chunks))| <= |Strip(Concat(chunks))|
    ensures !AllText(chunks) ==> |Concat(Received(chunks))| < |Strip(Concat(chunks))|
  {
    if chunks != [] {
      ReceivedLess(chunks[1..]);
      ConcatCons(Strip(Decoded(chunks[0])), Received(chunks[1..]));
      StripAppend(chunks[0], Concat(chunks[1..]));
      if !ValidUtf8(chunks[0]) {
        NotAscii(chunks[0]);
        var i :| 0 <= i < |chunks[0]| && chunks[0][i] >= 0x80;
        StripKeeps(chunks[0], i);
      }
    }
  }

  lemma StreamedIsBatchOfReceived(chunks: seq<seq<byte>>)
    ensures Streamed([], chunks) == Batch(Concat(Received(chunks)))
  {
    CutIsStable();
    FeedIsDrain(Cut, [], Received(chunks));
    assert [] + Concat(Received(chunks)) == Concat(Received(chunks));
  }

  /** Blocks and leftover are those of the whole response, exactly when every chunk is UTF-8 by
      itself: a chunk that ends inside a character loses all its bytes. */
  lemma ChunksMatterExactly(chunks: seq<seq<byte>>)
    ensures Streamed([], chunks) == Batch(Strip(Concat(chunks))) <==> AllText(chunks)
  {
    StreamedIsBatchOfReceived(chunks);
    if AllText(chunks) {
      ReceivedAll(chunks);
    } else {
      ReceivedLess(chunks);
      BatchConserves(Concat(Received(chunks)));
      BatchConserves(Strip(Concat(chunks)));
    }
  }

  /** A well-formed response loses its only character to a cut inside it. */
  lemma CutInsideCharacter()
    ensures ValidUtf8([0xC3, 0xA9]) && Streamed([], [[0xC3], [0xA9]]) == Split([], [])
  {
    var chunks: seq<seq<byte>> := [[0xC3], [0xA9]];
    assert Utf8Lead([0xC3, 0xA9]) == 2 && [0xC3, 0xA9][2..] == [];
    NothingReceived(chunks);
    StreamedIsBatchOfReceived(chunks);
    assert Cut([]) == None;
  }

  lemma {:induction false} NothingReceived(chunks: seq<seq<byte>>)
    requires forall i :: 0 <= i < |chunks| ==> !ValidUtf8(chunks[i])
    ensures Concat(Received(chunks)) == []
  {
    if chunks != [] {
      NothingReceived(chunks[1..]);
      ConcatCons([], Received(chunks[1..]));
    }
  }

  // ---- Blocks as a server writes them ----------------------------------------------------------

  /** Each block with its blank line. */
  function Framed(blocks: seq<seq<byte>>): seq<byte> {
    if blocks == [] then [] else blocks[0] + (BLANK_LINE + Framed(blocks[1..]))
  }

  /** A block has no carriage return, no empty line inside and no line feed at its end. */
  predicate Carried(block: seq<byte>) {
    CR !in block && Find(block + [10], BLANK_LINE) == None
  }

  ghost predicate AllCarried(blocks: seq<seq<byte>>) {
    forall i :: 0 <= i < |blocks| ==> Carried(blocks[i])
  }

  /** The text with its lines ended by CR LF, or by LF alone. */
  function Ended(text: seq<byte>, crlf: bool): seq<byte> {
    if text == [] then [] else (if crlf && text[0] == 10 then [13, 10] else [text[0]]) + Ended(text[1..], crlf)
  }

  lemma {:induction false} StripEnded(text: seq<byte>, crlf: bool)
    requires CR !in text
    ensures Strip(Ended(text, crlf)) == text
  {
    if text != [] {
      var first := if crlf && text[0] == 10 then [13, 10] else [text[0]];
      StripFirst(text[0], crlf);
      StripAppend(first, Ended(text[1..], crlf));
      StripEnded(text[1..], crlf);
    }
  }

  lemma StripFirst(c: byte, crlf: bool)
    requires c != 13
    ensures Strip(if crlf && c == 10 then [13, 10] else [c]) == [c]
  {
    var one: seq<byte>, two: seq<byte> := [c], [13, c];
    assert one[1..] == [] && two[1..] == one;
    assert Strip(one) == one && Strip(two) == [] + one;
  }

  lemma CutAfter(block: seq<byte>, more: seq<byte>)
    requires Carried(block)
    ensures Cut(block + (BLANK_LINE + more)) == Some(|block| + 2)
  {
    var s, short := block + (BLANK_LINE + more), block + [10];
    assert s[|block|..|block| + 2] == BLANK_LINE;
    forall i: nat | i < |block|
      ensures !MatchAt(s, BLANK_LINE, i)
    {
      assert s[i..i + 2] == short[i..i + 2];
      assert !MatchAt(short, BLANK_LINE, i);
    }
    FindIs(s, BLANK_LINE, |block|);
  }

  lemma AroundBlank(block: seq<byte>, more: seq<byte>)
    ensures (block + (BLANK_LINE + more))[..|block| + 2] == block + BLANK_LINE
    ensures (block + (BLANK_LINE + more))[|block| + 2..] == more
    ensures (block + BLANK_LINE)[..|block|] == block
  {
  }

  lemma {:induction false} BatchOfFramed(blocks: seq<seq<byte>>, rest: seq<byte>)
    requires AllCarried(blocks) && Find(rest, BLANK_LINE) == None
    ensures var all := Batch(Framed(blocks) + rest);
            Contents(all.units) == blocks && all.rest == rest
  {
    if blocks == [] {
      assert [] + rest == rest;
    } else {
      var block, more := blocks[0], Framed(blocks[1..]) + rest;
      BatchOfFramed(blocks[1..], rest);
      Reassociate(block, BLANK_LINE + Framed(blocks[1..]), rest);
      Reassociate(BLANK_LINE, Framed(blocks[1..]), rest);
      CutAfter(block, more);
      AroundBlank(block, more);
      BatchStep(block + (BLANK_LINE + more));
      FirstContent(block, Batch(more).units);
    }
  }

  lemma FirstContent(block: seq<byte>, units: seq<seq<byte>>)
    ensures Contents([block + BLANK_LINE] + units) == [block] + Contents(units)
  {
    assert (block + BLANK_LINE)[..|block|] == block;
    assert ([block + BLANK_LINE] + units)[1..] == units;
  }

  /** Blocks written with either line end, in any chunks that are UTF-8 by themselves, come out as they
      were, and what follows the last blank line is kept. */
  lemma BlocksReadBack(blocks: seq<seq<byte>>, rest: seq<byte>, crlf: bool, chunks: seq<seq<byte>>)
    requires AllCarried(blocks) && CR !in Framed(blocks) + rest && Find(rest, BLANK_LINE) == None
    requires AllText(chunks) && Concat(chunks) == Ended(Framed(blocks) + rest, crlf)
    ensures var r := Streamed([], chunks);
            Contents(r.units) == blocks && r.rest == rest
  {
    StripEnded(Framed(blocks) + rest, crlf);
    ChunksMatterExactly(chunks);
    BatchOfFramed(blocks, rest);
  }
}
