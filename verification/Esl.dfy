/** The event-socket session of the brain: framing of lines, header blocks and bodies. */
module Esl {
  import opened Bytes
  import opened StreamSplitter
  import opened Wrappers

  type Headers = map<seq<byte>, seq<byte>>

  datatype Error = SocketClosed | BadLength

  /** Library calls whose results the framing does not depend on: `int`, `str.strip`, URL unquoting. */
  datatype Library = Library(
    parseInt: seq<byte> -> Option<int>,
    strip: seq<byte> -> seq<byte>,
    unquote: seq<byte> -> seq<byte>)

  function Ascii(s: string): (b: seq<byte>)
    ensures |b| == |s|
  {
    seq(|s|, i requires 0 <= i < |s| => if s[i] < '\U{80}' then s[i] as int as byte else 63)
  }

  const NEWLINE: seq<byte> := [10]
  const BLANK_LINE: seq<byte> := [10, 10]
  const COLON: seq<byte> := [58, 32]
  const CONTENT_LENGTH := Ascii("Content-Length")
  const BODY := Ascii("_body")

  /** A read either returns a value or raises; either way it leaves something to read. */
  datatype Read<+T, +W> = Read(result: Result<T, Error>, left: W)

  // ---- Reading from what has arrived and what is still to come ------------------------------------

  /** Bytes received and not consumed, and the chunks `recv` will return until the peer closes. */
  datatype Wire = Wire(buffered: seq<byte>, incoming: seq<seq<byte>>)

  function Flat(w: Wire): seq<byte> {
    w.buffered + Concat(w.incoming)
  }

  function Pull(w: Wire): Wire
    requires w.incoming != []
  {
    Wire(w.buffered + w.incoming[0], w.incoming[1..])
  }

  function LineFrom(w: Wire): Read<seq<byte>, Wire>
    decreases |w.incoming|
  {
    match Find(w.buffered, NEWLINE)
    case Some(at) => Read(Ok(w.buffered[..at]), Wire(w.buffered[at + 1..], w.incoming))
    case None => if w.incoming == [] then Read(Err(SocketClosed), w) else LineFrom(Pull(w))
  }

  /** A line counts as a header when it holds ": "; a later line for the same key wins. */
  function AddLine(headers: Headers, line: seq<byte>): Headers {
    match Find(line, COLON)
    case None => headers
    case Some(at) => headers[line[..at] := line[at + 2..]]
  }

  lemma PullKeepsFlat(w: Wire)
    requires w.incoming != []
    ensures Flat(Pull(w)) == Flat(w)
  {
    Reassociate(w.buffered, w.incoming[0], Concat(w.incoming[1..]));
  }

  lemma LineShrinks(w: Wire)
    ensures LineFrom(w).result.Ok? ==> |Flat(LineFrom(w).left)| < |Flat(w)|
    decreases |w.incoming|
  {
    if Find(w.buffered, NEWLINE) == None && w.incoming != [] {
      PullKeepsFlat(w);
      LineShrinks(Pull(w));
    }
  }

  function HeadersFrom(headers: Headers, w: Wire): Read<Headers, Wire>
    decreases |Flat(w)|
  {
    var line := LineFrom(w);
    LineShrinks(w);
    match line.result
    case Err(e) => Read(Err(e), line.left)
    case Ok(l) => if l == [] then Read(Ok(headers), line.left) else HeadersFrom(AddLine(headers, l), line.left)
  }

  /** Python's `b[:n]` and `b[n:]`: a negative bound counts from the end. */
  function Bound(b: seq<byte>, n: int): (k: nat)
    ensures k <= |b|
  {
    if n > |b| then |b| else if n >= 0 then n else if |b| + n > 0 then |b| + n else 0
  }

  function BodyFrom(n: int, w: Wire): Read<seq<byte>, Wire>
    decreases |w.incoming|
  {
    if |w.buffered| >= n then
      var k := Bound(w.buffered, n);
      Read(Ok(w.buffered[..k]), Wire(w.buffered[k..], w.incoming))
    else if w.incoming == [] then Read(Err(SocketClosed), w)
    else BodyFrom(n, Pull(w))
  }

  /** A header block and, if it has a Content-Length, the body. */
  datatype Frame = Frame(headers: Headers, body: Option<seq<byte>>)

  function FrameFrom(lib: Library, w: Wire): Read<Frame, Wire> {
    var block := HeadersFrom(map[], w);
    match block.result
    case Err(e) => Read(Err(e), block.left)
    case Ok(headers) =>
      if CONTENT_LENGTH !in headers then Read(Ok(Frame(headers, None)), block.left)
      else match lib.parseInt(headers[CONTENT_LENGTH])
           case None => Read(Err(BadLength), block.left)
           case Some(n) => WithBody(headers, BodyFrom(n, block.left))
  }

  function WithBody<W>(headers: Headers, body: Read<seq<byte>, W>): Read<Frame, W> {
    match body.result
    case Err(e) => Read(Err(e), body.left)
    case Ok(b) => Read(Ok(Frame(headers, Some(b))), body.left)
  }

  /** What `send_cmd` returns. */
  function Reply(lib: Library, f: Frame): Headers {
    if f.body == None then f.headers else f.headers[BODY := lib.strip(f.body.value)]
  }

  datatype Event = Event(headers: Headers, body: seq<byte>)

  /** `s.split(b"\n")`. */
  function Lines(s: seq<byte>): seq<seq<byte>>
    decreases |s|
  {
    match Find(s, NEWLINE)
    case None => [s]
    case Some(at) => [s[..at]] + Lines(s[at + 1..])
  }

  function AddEventLine(lib: Library, headers: Headers, line: seq<byte>): Headers {
    match Find(line, COLON)
    case None => headers
    case Some(at) => headers[line[..at] := lib.unquote(line[at + 2..])]
  }

  function EventHeaders(lib: Library, headers: Headers, lines: seq<seq<byte>>): Headers
    decreases lines
  {
    if lines == [] then headers else EventHeaders(lib, AddEventLine(lib, headers, lines[0]), lines[1..])
  }

  /** The event inside a frame's body: header lines, then perhaps a blank line and its own body. */
  function EventOf(lib: Library, data: seq<byte>): Event {
    match Find(data, BLANK_LINE)
    case None => Event(EventHeaders(lib, map[], Lines(data)), [])
    case Some(at) => Event(EventHeaders(lib, map[], Lines(data[..at])), data[at + 2..])
  }

  /** What `recv_event` returns. */
  function Received(lib: Library, f: Frame): Event {
    EventOf(lib, if f.body == None then [] else f.body.value)
  }

  // ---- Writing -----------------------------------------------------------------------------------

  function Join(lines: seq<seq<byte>>): seq<byte> {
    if lines == [] then [] else if |lines| == 1 then lines[0] else lines[0] + (NEWLINE + Join(lines[1..]))
  }

  datatype Pair = Pair(key: seq<byte>, value: seq<byte>)

  function HeaderLine(p: Pair): seq<byte> {
    p.key + (COLON + p.value)
  }

  function HeaderLines(ps: seq<Pair>): seq<seq<byte>> {
    if ps == [] then [] else [HeaderLine(ps[0])] + HeaderLines(ps[1..])
  }

  /** The decimal digits of `n`. */
  function Decimal(n: nat): (b: seq<byte>)
    ensures b != []
  {
    if n < 10 then [(48 + n) as byte] else Decimal(n / 10) + [(48 + n % 10) as byte]
  }

  /** The headers `send_event` writes, in order. */
  function EventPairs(subclass: seq<byte>, headers: seq<Pair>, body: seq<byte>): seq<Pair> {
    ([Pair(Ascii("Event-Subclass"), subclass)] + headers)
    + (if body == [] then [] else [Pair(CONTENT_LENGTH, Decimal(|body|))])
  }

  function EventBytes(subclass: seq<byte>, headers: seq<Pair>, body: seq<byte>): seq<byte> {
    Join([Ascii("sendevent CUSTOM")] + HeaderLines(EventPairs(subclass, headers, body))) + (BLANK_LINE + body)
  }

  lemma {:induction false} HeaderLinesAppend(a: seq<Pair>, b: seq<Pair>)
    ensures HeaderLines(a + b) == HeaderLines(a) + HeaderLines(b)
  {
    if a == [] {
      assert a + b == b;
    } else {
      assert (a + b)[1..] == a[1..] + b;
      HeaderLinesAppend(a[1..], b);
    }
  }

  lemma ConcatOne(chunk: seq<byte>)
    ensures Concat([chunk]) == chunk
  {
    ConcatCons(chunk, []);
  }

  // ---- The session as it runs -----------------------------------------------------------------------

  class Session {
    const lib: Library
    var buf: seq<seq<byte>>
    var incoming: seq<seq<byte>>
    var sent: seq<byte>

    ghost function Now(): Wire
      reads this
    {
      Wire(Concat(buf), incoming)
    }

    constructor (lib: Library, incoming: seq<seq<byte>>)
      ensures Now() == Wire([], incoming) && sent == [] && this.lib == lib
    {
      this.lib, this.incoming, buf, sent := lib, incoming, [], [];
    }

    method Send(data: seq<byte>)
      modifies this`sent
      ensures sent == old(sent) + data
    {
      sent := sent + data;
    }

    /** Append one received chunk to the buffer; false when the peer has closed. */
    method ReceiveChunk() returns (ok: bool)
      modifies this`buf, this`incoming
      ensures ok == (old(incoming) != [])
      ensures ok ==> Now() == Pull(old(Now()))
      ensures !ok ==> Now() == old(Now())
    {
      if incoming == [] {
        return false;
      }
      ConcatAppend(buf, [incoming[0]]);
      ConcatOne(incoming[0]);
      buf, incoming := buf + [incoming[0]], incoming[1..];
      ok := true;
    }

    method Keep(rest: seq<byte>)
      modifies this`buf
      ensures Concat(buf) == rest
    {
      buf := [];
      buf := buf + [rest];
      ConcatOne(rest);
    }

    method ReadLine() returns (r: Result<seq<byte>, Error>)
      modifies this`buf, this`incoming
      ensures LineFrom(old(Now())) == Read(r, Now())
    {
      while Find(Concat(buf), NEWLINE) == None
        invariant LineFrom(Now()) == LineFrom(old(Now()))
        decreases |incoming|
      {
        var more := ReceiveChunk();
        if !more {
          return Err(SocketClosed);
        }
      }
      var joined := Concat(buf);
      var at := Find(joined, NEWLINE).value;
      Keep(joined[at + 1..]);
      r := Ok(joined[..at]);
    }

    method ReadHeaders() returns (r: Result<Headers, Error>)
      modifies this`buf, this`incoming
      ensures HeadersFrom(map[], old(Now())) == Read(r, Now())
    {
      var headers: Headers := map[];
      while true
        invariant HeadersFrom(headers, Now()) == HeadersFrom(map[], old(Now()))
        decreases |Flat(Now())|
      {
        LineShrinks(Now());
        var line := ReadLine();
        if line.IsFailure() {
          return Err(line.error);
        }
        if line.value == [] {
          break;
        }
        headers := AddLine(headers, line.value);
      }
      r := Ok(headers);
    }

    method ReadBody(n: int) returns (r: Result<seq<byte>, Error>)
      modifies this`buf, this`incoming
      ensures BodyFrom(n, old(Now())) == Read(r, Now())
    {
      while |Concat(buf)| < n
        invariant BodyFrom(n, Now()) == BodyFrom(n, old(Now()))
        decreases |incoming|
      {
        var more := ReceiveChunk();
        if !more {
          return Err(SocketClosed);
        }
      }
      var joined := Concat(buf);
      var k := Bound(joined, n);
      Keep(joined[k..]);
      r := Ok(joined[..k]);
    }

    /** The part `send_cmd` and `recv_event` share. */
    method ReadFrame() returns (r: Result<Frame, Error>)
      modifies this`buf, this`incoming
      ensures FrameFrom(lib, old(Now())) == Read(r, Now())
    {
      var headers :- ReadHeaders();
      if CONTENT_LENGTH !in headers {
        return Ok(Frame(headers, None));
      }
      var n := lib.parseInt(headers[CONTENT_LENGTH]);
      if n == None {
        return Err(BadLength);
      }
      var body :- ReadBody(n.value);
      r := Ok(Frame(headers, Some(body)));
    }

    method SendCmd(cmd: seq<byte>) returns (r: Result<Headers, Error>)
      modifies this
      ensures sent == old(sent) + (cmd + BLANK_LINE)
      ensures var f := FrameFrom(lib, old(Now()));
              Now() == f.left && r == if f.result.Ok? then Ok(Reply(lib, f.result.value)) else Err(f.result.error)
    {
      Send(cmd + BLANK_LINE);
      var frame :- ReadFrame();
      var headers := frame.headers;
      if frame.body != None {
        headers := headers[BODY := lib.strip(frame.body.value)];
      }
      r := Ok(headers);
    }

    method RecvEvent() returns (r: Result<Event, Error>)
      modifies this`buf, this`incoming
      ensures var f := FrameFrom(lib, old(Now()));
              Now() == f.left && r == if f.result.Ok? then Ok(Received(lib, f.result.value)) else Err(f.result.error)
    {
      var frame :- ReadFrame();
      var data := if frame.body == None then [] else frame.body.value;
      var event := ParseEvent(data);
      r := Ok(event);
    }

    method ParseEvent(data: seq<byte>) returns (event: Event)
      ensures event == EventOf(lib, data)
    {
      var headerPart, body := data, [];
      var blank := Find(data, BLANK_LINE);
      if blank != None {
        headerPart, body := data[..blank.value], data[blank.value + 2..];
      }
      var headers: Headers := map[];
      var lines := Lines(headerPart);
      var i := 0;
      while i < |lines|
        invariant 0 <= i <= |lines|
        invariant EventHeaders(lib, headers, lines[i..]) == EventHeaders(lib, map[], lines)
      {
        assert lines[i..][0] == lines[i] && lines[i..][1..] == lines[i + 1..];
        headers := AddEventLine(lib, headers, lines[i]);
        i := i + 1;
      }
      event := Event(headers, body);
    }

    method SendEvent(subclass: seq<byte>, headers: seq<Pair>, body: seq<byte>) returns (r: Result<Headers, Error>)
      modifies this
      ensures sent == old(sent) + EventBytes(subclass, headers, body)
      ensures HeadersFrom(map[], old(Now())) == Read(r, Now())
    {
      var lines := EventLines(subclass, headers, body);
      Send(Join(lines) + (BLANK_LINE + body));
      r := ReadHeaders();
    }
  }

  method EventLines(subclass: seq<byte>, headers: seq<Pair>, body: seq<byte>) returns (lines: seq<seq<byte>>)
    ensures lines == [Ascii("sendevent CUSTOM")] + HeaderLines(EventPairs(subclass, headers, body))
  {
    ghost var start := [Pair(Ascii("Event-Subclass"), subclass)];
    ghost var command := [Ascii("sendevent CUSTOM")];
    lines := [Ascii("sendevent CUSTOM"), HeaderLine(Pair(Ascii("Event-Subclass"), subclass))];
    assert start[1..] == [] && start + headers[..0] == start;
    assert lines == command + HeaderLines(start);
    var i := 0;
    while i < |headers|
      invariant 0 <= i <= |headers|
      invariant lines == command + HeaderLines(start + headers[..i])
    {
      assert start + headers[..i + 1] == (start + headers[..i]) + [headers[i]];
      OneMoreLine(command, start + headers[..i], headers[i]);
      lines := lines + [HeaderLine(headers[i])];
      i := i + 1;
    }
    assert headers[..i] == headers;
    if body != [] {
      OneMoreLine(command, start + headers, Pair(CONTENT_LENGTH, Decimal(|body|)));
      lines := lines + [HeaderLine(Pair(CONTENT_LENGTH, Decimal(|body|)))];
    } else {
      assert (start + headers) + [] == start + headers;
    }
  }

  lemma OneMoreLine(command: seq<seq<byte>>, ps: seq<Pair>, p: Pair)
    ensures (command + HeaderLines(ps)) + [HeaderLine(p)] == command + HeaderLines(ps + [p])
  {
    HeaderLinesAppend(ps, [p]);
    assert HeaderLines([p]) == [HeaderLine(p)];
    Reassociate(command, HeaderLines(ps), [HeaderLine(p)]);
  }
}
