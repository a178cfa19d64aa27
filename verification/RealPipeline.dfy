/** The Python brain's second implementation of the Volcano frame. */
module RealPipeline {
  import opened Wrappers
  import opened Bytes
  import opened TtsWsCodec
  import opened CodecTheorems
  import opened StreamSplitter

  /** What `_parse_frame` returns; a `None` result below stands for a raised exception. */
  datatype Frame = Frame(
    msgType: nat,
    flag: nat,
    seqNo: Option<i32>,
    error: Option<u32>,
    event: Option<i32>,
    sid: seq<byte>,
    cid: seq<byte>,
    payload: seq<byte>)

  // ---- Python slices clamp to the end of the data -----------------------------------

  function Front(b: seq<byte>, n: nat): seq<byte> {
    if |b| < n then b else b[..n]
  }

  function Back(b: seq<byte>, n: nat): seq<byte> {
    if |b| < n then [] else b[n..]
  }

  /** `struct.unpack(">I", rest[:4])` and the bytes after it. */
  function Unpack(rest: seq<byte>): Option<(u32, seq<byte>)> {
    if |rest| < 4 then None else Some((BeToU32(rest[..4]), rest[4..]))
  }

  function UnpackPrefixed(rest: seq<byte>): Option<(seq<byte>, seq<byte>)> {
    match Unpack(rest)
    case None => None
    case Some((n, r)) => Some((Front(r, n), Back(r, n)))
  }

  predicate HasSeqNo(msgType: nat, flag: nat) {
    && (msgType == 0x1 || msgType == 0x9 || msgType == 0xC || msgType == 0x2 || msgType == 0xB)
    && (flag == 0x1 || flag == 0x3)
  }

  predicate SkipsSession(event: int) {
    event in {1, 2, 50, 51, 52}
  }

  predicate CarriesConnect(event: int) {
    event in {50, 51, 52}
  }

  function PayloadFrame(f: Frame, rest: seq<byte>): Option<Frame> {
    match UnpackPrefixed(rest)
    case None => None
    case Some((p, _)) => Some(f.(payload := p))
  }

  function ConnectFrame(f: Frame, event: i32, rest: seq<byte>): Option<Frame> {
    if !CarriesConnect(event) then PayloadFrame(f, rest)
    else
      match UnpackPrefixed(rest)
      case None => None
      case Some((c, r)) => PayloadFrame(f.(cid := c), r)
  }

  function SessionFrame(f: Frame, event: i32, rest: seq<byte>): Option<Frame> {
    if SkipsSession(event) then ConnectFrame(f, event, rest)
    else
      match UnpackPrefixed(rest)
      case None => None
      case Some((s, r)) => ConnectFrame(f.(sid := s), event, r)
  }

  function EventFrame(f: Frame, rest: seq<byte>): Option<Frame> {
    if f.flag != WITH_EVENT then PayloadFrame(f, rest)
    else
      match Unpack(rest)
      case None => None
      case Some((u, r)) => SessionFrame(f.(event := Some(BitsI32(u))), BitsI32(u), r)
  }

  function NumberFrame(f: Frame, rest: seq<byte>): Option<Frame> {
    if HasSeqNo(f.msgType, f.flag) then
      match Unpack(rest)
      case None => None
      case Some((u, r)) => EventFrame(f.(seqNo := Some(BitsI32(u))), r)
    else if f.msgType == ERROR then
      match Unpack(rest)
      case None => None
      case Some((u, r)) => EventFrame(f.(error := Some(u)), r)
    else EventFrame(f, rest)
  }

  function FrameOf(data: seq<byte>): Option<Frame> {
    if |data| < 2 then None
    else NumberFrame(Frame(data[1] / 16, data[1] % 16, None, None, None, [], [], []), Back(data, 4))
  }

  /** `_parse_frame` as it runs: a position that only moves forward, past the end if need be. */
  method ParseFrame(data: seq<byte>) returns (r: Option<Frame>)
    ensures r == FrameOf(data)
  {
    if |data| < 2 { return None; }
    var f := Frame(data[1] / 16, data[1] % 16, None, None, None, [], [], []);
    var pos := 4;
    if f.msgType in {0x1, 0x9, 0xC, 0x2, 0xB} && f.flag in {0x1, 0x3} {
      var word := Word(data, pos);
      if word == None { return None; }
      f := f.(seqNo := Some(BitsI32(word.value)));
      pos := pos + 4;
    } else if f.msgType == 0xF {
      var word := Word(data, pos);
      if word == None { return None; }
      f := f.(error := word);
      pos := pos + 4;
    }
    r := ParseEvent(data, pos, f);
  }

  method ParseEvent(data: seq<byte>, start: nat, header: Frame) returns (r: Option<Frame>)
    ensures r == EventFrame(header, Back(data, start))
  {
    var f, pos := header, start;
    if f.flag == WITH_EVENT {
      var word := Word(data, pos);
      if word == None { return None; }
      pos := pos + 4;
      r := ParseIds(data, pos, f.(event := Some(BitsI32(word.value))), BitsI32(word.value));
    } else {
      r := ParsePayload(data, pos, f);
    }
  }

  method ParseIds(data: seq<byte>, start: nat, header: Frame, event: i32) returns (r: Option<Frame>)
    ensures r == SessionFrame(header, event, Back(data, start))
  {
    var f, pos := header, start;
    if event !in {1, 2, 50, 51, 52} {
      var sid := Prefixed(data, pos);
      if sid == None { return None; }
      f, pos := f.(sid := sid.value.0), sid.value.1;
    }
    if event in {50, 51, 52} {
      var cid := Prefixed(data, pos);
      if cid == None { return None; }
      f, pos := f.(cid := cid.value.0), cid.value.1;
    }
    r := ParsePayload(data, pos, f);
  }

  method ParsePayload(data: seq<byte>, pos: nat, header: Frame) returns (r: Option<Frame>)
    ensures r == PayloadFrame(header, Back(data, pos))
  {
    var payload := Prefixed(data, pos);
    if payload == None { return None; }
    r := Some(header.(payload := payload.value.0));
  }

  /** A length, the slice it announces, and the position after it. */
  method Prefixed(data: seq<byte>, pos: nat) returns (r: Option<(seq<byte>, nat)>)
    ensures UnpackPrefixed(Back(data, pos)) == if r == None then None else Some((r.value.0, Back(data, r.value.1)))
  {
    var word := Word(data, pos);
    if word == None { return None; }
    var length: nat := word.value;
    BackBack(data, pos + 4, length);
    r := Some((Front(Back(data, pos + 4), length), pos + 4 + length));
  }

  /** `struct.unpack` of `data[pos:pos + 4]`. */
  method Word(data: seq<byte>, pos: nat) returns (r: Option<u32>)
    ensures Unpack(Back(data, pos)) == if r == None then None else Some((r.value, Back(data, pos + 4)))
  {
    var slice := Front(Back(data, pos), 4);
    if |slice| != 4 { return None; }
    assert slice == data[pos..pos + 4];
    assert Back(data, pos)[4..] == Back(data, pos + 4);
    r := Some(BeToU32(slice));
  }

  lemma BackBack(data: seq<byte>, a: nat, b: nat)
    ensures Back(Back(data, a), b) == Back(data, a + b)
  {
  }

  // ---- Agreement with the Rust reader --------------------------------------------------

  /** The frame the Rust message `m` corresponds to, when the event number on the wire is `raw`. */
  function FrameFor(m: Message, raw: i32): Frame {
    Frame(m.msgType, m.flag,
          if HasSequence(m) then Some(m.sequence) else None,
          if m.msgType == ERROR then Some(m.errorCode) else None,
          if m.flag == WITH_EVENT then Some(raw) else None,
          m.sessionId, m.connectId, m.payload)
  }

  lemma UnpackPrefixedEmitted(b: seq<byte>, rest: seq<byte>)
    requires |b| < TWO_32
    ensures UnpackPrefixed(LenPrefixed(b) + rest) == Some((b, rest))
  {
    TakeLenPrefixedEmitted(b, rest);
  }

  lemma SkipsLikeRust(raw: i32)
    ensures SkipsSession(raw) <==> OmitsSessionIdReader(EventOf(raw))
    ensures CarriesConnect(raw) <==> CarriesConnectId(EventOf(raw))
  {
  }

  lemma ConnectFrameEmitted(f: Frame, m: Message, raw: i32, tail: seq<byte>)
    requires Readable(m) && m.event == EventOf(raw) && f.cid == []
    ensures ConnectFrame(f, raw, ReadConnectId(m) + tail) == PayloadFrame(f.(cid := m.connectId), tail)
  {
    SkipsLikeRust(raw);
    UnpackPrefixedEmitted(m.connectId, tail);
    assert [] + tail == tail;
  }

  lemma SessionFrameEmitted(f: Frame, m: Message, raw: i32, tail: seq<byte>)
    requires Readable(m) && m.event == EventOf(raw) && f.cid == [] && f.sid == []
    ensures SessionFrame(f, raw, ReadSessionId(m) + (ReadConnectId(m) + tail))
         == PayloadFrame(f.(sid := m.sessionId, cid := m.connectId), tail)
  {
    SkipsLikeRust(raw);
    var r := ReadConnectId(m) + tail;
    UnpackPrefixedEmitted(m.sessionId, r);
    assert [] + r == r;
    ConnectFrameEmitted(f.(sid := m.sessionId), m, raw, tail);
  }

  lemma EventFrameEmitted(f: Frame, m: Message, raw: i32, tail: seq<byte>)
    requires Readable(m) && m.event == EventOf(raw) && f.flag == m.flag
    requires f.event == None && f.cid == [] && f.sid == []
    ensures EventFrame(f, ReadIds(m, raw) + tail)
         == PayloadFrame(f.(event := if m.flag == WITH_EVENT then Some(raw) else None,
                            sid := m.sessionId, cid := m.connectId), tail)
  {
    if m.flag == WITH_EVENT {
      ReadIdsAppend(m, raw, tail);
      TakeU32Emitted(I32Bits(raw), ReadSessionId(m) + (ReadConnectId(m) + tail));
      SessionFrameEmitted(f.(event := Some(raw)), m, raw, tail);
    } else {
      assert ReadIds(m, raw) + tail == tail;
    }
  }

  lemma NumberFrameEmitted(f: Frame, m: Message, raw: i32, tail: seq<byte>)
    requires Readable(m) && m.event == EventOf(raw)
    requires f == Frame(m.msgType, m.flag, None, None, None, [], [], [])
    ensures NumberFrame(f, Number(m) + (ReadIds(m, raw) + tail))
         == PayloadFrame(FrameFor(m, raw).(payload := []), tail)
  {
    var r := ReadIds(m, raw) + tail;
    NumberFrameReads(f, m, r);
    var g := f.(seqNo := FrameFor(m, raw).seqNo, error := FrameFor(m, raw).error);
    EventFrameEmitted(g, m, raw, tail);
    SameFields(g, m, raw);
  }

  lemma NumberFrameReads(f: Frame, m: Message, r: seq<byte>)
    requires f == Frame(m.msgType, m.flag, None, None, None, [], [], []) && Supported(m)
    ensures NumberFrame(f, Number(m) + r)
         == EventFrame(f.(seqNo := FrameFor(m, 0).seqNo, error := FrameFor(m, 0).error), r)
  {
    if HasSequence(m) {
      TakeU32Emitted(I32Bits(m.sequence), r);
    } else if m.msgType == ERROR {
      TakeU32Emitted(m.errorCode, r);
    } else {
      assert [] + r == r;
    }
  }

  lemma SameFields(g: Frame, m: Message, raw: i32)
    requires g == Frame(m.msgType, m.flag, FrameFor(m, raw).seqNo, FrameFor(m, raw).error, None, [], [], [])
    ensures g.(event := if m.flag == WITH_EVENT then Some(raw) else None, sid := m.sessionId, cid := m.connectId)
         == FrameFor(m, raw).(payload := [])
  {
  }

  /** Python on a frame whose payload field is `tail`, well formed or not. */
  lemma FrameWithTail(m: Message, pad: seq<byte>, raw: i32, tail: seq<byte>)
    requires Readable(m) && m.event == EventOf(raw) && m.headerSize == 1 && |pad| == PadLength(m)
    ensures FrameOf(Header(m, pad) + (Number(m) + (ReadIds(m, raw) + tail)))
         == PayloadFrame(FrameFor(m, raw).(payload := []), tail)
  {
    FrameOfHeader(m, pad, Number(m) + (ReadIds(m, raw) + tail));
    NumberFrameEmitted(Frame(m.msgType, m.flag, None, None, None, [], [], []), m, raw, tail);
  }

  lemma FrameOfHeader(m: Message, pad: seq<byte>, rest: seq<byte>)
    requires m.headerSize == 1 && |pad| == 1
    ensures FrameOf(Header(m, pad) + rest)
         == NumberFrame(Frame(m.msgType, m.flag, None, None, None, [], [], []), rest)
  {
    var data := Header(m, pad) + rest;
    TypeAndFlag(m, pad);
    assert data[1] == Header(m, pad)[1];
    assert Back(data, 4) == rest;
  }

  lemma TypeAndFlag(m: Message, pad: seq<byte>)
    ensures Header(m, pad)[1] / 16 == m.msgType && Header(m, pad)[1] % 16 == m.flag
  {
  }

  lemma EmittedFrame(m: Message, pad: seq<byte>, raw: i32, rest: seq<byte>)
    requires Readable(m) && m.event == EventOf(raw) && m.headerSize == 1 && |pad| == PadLength(m)
    ensures FrameOf(Emit(m, pad, raw) + rest) == Some(FrameFor(m, raw))
  {
    EmitAppend(m, pad, raw, rest);
    FrameWithTail(m, pad, raw, LenPrefixed(m.payload) + rest);
    UnpackPrefixedEmitted(m.payload, rest);
  }

  /** On every four-byte-header frame Rust accepts, Python returns the same fields, and the event
      number Rust maps unknown values of to `NONE`; Python also ignores whatever follows. */
  lemma ParsersAgree(data: seq<byte>, extra: seq<byte>)
    requires Parsed(data).Ok? && Parsed(data).value.headerSize == 1
    ensures FrameOf(data + extra) == Some(FrameFor(Parsed(data).value, EventNumber(data)))
    ensures Parsed(data).value.event == EventOf(EventNumber(data))
  {
    ParsedIsEmission(data);
    EmittedFrame(Parsed(data).value, Padding(data), EventNumber(data), extra);
  }

  // ---- Where Python is more lenient -------------------------------------------------------

  lemma UnpackPrefixedCut(b: seq<byte>, n: nat)
    requires |b| < TWO_32 && n <= |b|
    ensures UnpackPrefixed(U32ToBe(|b|) + b[..n]) == Some((b[..n], []))
  {
    var cut := U32ToBe(|b|) + b[..n];
    U32BeInverse(|b|);
    assert cut[..4] == U32ToBe(|b|) && cut[4..] == b[..n];
    assert Front(b[..n], |b|) == b[..n] && Back(b[..n], |b|) == [];
  }

  lemma CutPayload(a: seq<byte>, b: seq<byte>, n: nat)
    requires |b| < TWO_32 && n <= |b|
    ensures (a + LenPrefixed(b))[..|a| + 4 + n] == a + (U32ToBe(|b|) + b[..n])
  {
  }

  /** Cutting bytes off the payload of an accepted frame: Rust rejects what is left, Python
      silently returns the shorter payload. */
  lemma TruncatedFrame(data: seq<byte>, cut: nat)
    requires Parsed(data).Ok? && Parsed(data).value.headerSize == 1
    requires 0 < cut <= |Parsed(data).value.payload|
    ensures cut + 7 <= |data|
    ensures Parsed(data[..|data| - cut]) == Err(UnexpectedEof)
    ensures FrameOf(data[..|data| - cut])
         == Some(FrameFor(Parsed(data).value, EventNumber(data))
                 .(payload := Parsed(data).value.payload[..|Parsed(data).value.payload| - cut]))
  {
    PythonShortens(data, cut);
    CutRejected(data, cut);
  }

  lemma PythonShortens(data: seq<byte>, cut: nat)
    requires Parsed(data).Ok? && Parsed(data).value.headerSize == 1
    requires cut <= |Parsed(data).value.payload|
    ensures cut + 7 <= |data|
    ensures FrameOf(data[..|data| - cut])
         == Some(FrameFor(Parsed(data).value, EventNumber(data))
                 .(payload := Parsed(data).value.payload[..|Parsed(data).value.payload| - cut]))
  {
    ParsedIsEmission(data);
    ShortData(data, Parsed(data).value, Padding(data), EventNumber(data), cut);
  }

  lemma ShortData(data: seq<byte>, m: Message, pad: seq<byte>, raw: i32, cut: nat)
    requires Readable(m) && m.event == EventOf(raw) && m.headerSize == 1 && |pad| == PadLength(m)
    requires data == Emit(m, pad, raw) && cut <= |m.payload|
    ensures cut + 7 <= |data|
    ensures FrameOf(data[..|data| - cut]) == Some(FrameFor(m, raw).(payload := m.payload[..|m.payload| - cut]))
  {
    var n := |m.payload| - cut;
    DataCut(data, m, pad, raw, n, cut);
    ShortFrame(data[..|data| - cut], m, pad, raw, n);
  }

  lemma DataCut(data: seq<byte>, m: Message, pad: seq<byte>, raw: i32, n: nat, cut: nat)
    requires Sized(m) && data == Emit(m, pad, raw) && n + cut == |m.payload|
    ensures cut + 7 <= |data| && data[..|data| - cut] == CutEmission(m, pad, raw, n)
  {
    EmissionCut(m, pad, raw, n);
  }

  lemma ShortFrame(short: seq<byte>, m: Message, pad: seq<byte>, raw: i32, n: nat)
    requires Readable(m) && m.event == EventOf(raw) && m.headerSize == 1 && |pad| == PadLength(m)
    requires n <= |m.payload| && short == CutEmission(m, pad, raw, n)
    ensures FrameOf(short) == Some(FrameFor(m, raw).(payload := m.payload[..n]))
  {
    CutEmissionFrame(m, pad, raw, n);
  }

  lemma CutRejected(data: seq<byte>, cut: nat)
    requires Parsed(data).Ok? && 0 < cut && cut + 7 <= |data|
    ensures Parsed(data[..|data| - cut]) == Err(UnexpectedEof)
  {
    Halves(data, |data| - cut);
    ProperPrefixRejected(data[..|data| - cut], data[|data| - cut..]);
  }

  /** The emission with only `n` bytes of the payload it announces. */
  function CutEmission(m: Message, pad: seq<byte>, raw: i32, n: nat): seq<byte>
    requires Sized(m) && n <= |m.payload|
  {
    Header(m, pad) + (Number(m) + (ReadIds(m, raw) + (U32ToBe(|m.payload|) + m.payload[..n])))
  }

  lemma CutEmissionFrame(m: Message, pad: seq<byte>, raw: i32, n: nat)
    requires Readable(m) && m.event == EventOf(raw) && m.headerSize == 1 && |pad| == PadLength(m)
    requires n <= |m.payload|
    ensures FrameOf(CutEmission(m, pad, raw, n)) == Some(FrameFor(m, raw).(payload := m.payload[..n]))
  {
    FrameWithTail(m, pad, raw, U32ToBe(|m.payload|) + m.payload[..n]);
    UnpackPrefixedCut(m.payload, n);
  }

  lemma EmissionCut(m: Message, pad: seq<byte>, raw: i32, n: nat)
    requires Sized(m) && n <= |m.payload|
    ensures var e, cut := Emit(m, pad, raw), |m.payload| - n;
            && |e| >= 7 + cut
            && e[..|e| - cut] == CutEmission(m, pad, raw, n)
  {
    var a := Header(m, pad) + (Number(m) + ReadIds(m, raw));
    CutPayload(a, m.payload, n);
    EmissionParts(Header(m, pad), Number(m), ReadIds(m, raw), LenPrefixed(m.payload));
    EmissionParts(Header(m, pad), Number(m), ReadIds(m, raw), U32ToBe(|m.payload|) + m.payload[..n]);
  }

  lemma EmissionParts(h: seq<byte>, n: seq<byte>, r: seq<byte>, p: seq<byte>)
    ensures h + (n + r) + p == h + (n + (r + p))
  {
  }

  // ---- The writer --------------------------------------------------------------------------

  predicate SkipsSessionWriter(event: int) {
    event in {1, 2, 50, 51}
  }

  /** The control frame `_marshal_control` builds, or `None` where `struct.pack` raises. */
  method MarshalControl(event: i32, sid: seq<byte>, payload: seq<byte>) returns (r: Option<seq<byte>>)
    ensures r.Some? <==> (SkipsSessionWriter(event) || |sid| < TWO_32) && |payload| < TWO_32
    ensures r.Some? ==> r.value == ControlFrame(event, sid, payload)
  {
    var out: seq<byte> := [0x11, 0x14, 0x10, 0x00];
    out := out + U32ToBe(I32Bits(event));
    if !SkipsSessionWriter(event) {
      if |sid| >= TWO_32 { return None; }
      out := out + (U32ToBe(|sid|) + sid);
    }
    if |payload| >= TWO_32 { return None; }
    out := out + (U32ToBe(|payload|) + payload);
    r := Some(out);
  }

  function ControlFrame(event: i32, sid: seq<byte>, payload: seq<byte>): seq<byte>
    requires SkipsSessionWriter(event) || |sid| < TWO_32
    requires |payload| < TWO_32
  {
    var head: seq<byte> := [0x11, 0x14, 0x10, 0x00];
    head + U32ToBe(I32Bits(event))
    + (if SkipsSessionWriter(event) then [] else LenPrefixed(sid)) + LenPrefixed(payload)
  }

  function ControlMessage(event: EventType, sid: Utf8, payload: seq<byte>): Message {
    DEFAULT.(msgType := FULL_CLIENT_REQUEST, flag := WITH_EVENT, event := event, sessionId := sid, payload := payload)
  }

  /** Both writers succeed on the same control messages and produce the same bytes. */
  lemma WritersAgree(event: EventType, sid: Utf8, payload: seq<byte>)
    ensures Marshalled(ControlMessage(event, sid, payload)).Ok?
       <==> (SkipsSessionWriter(event) || |sid| < TWO_32) && |payload| < TWO_32
    ensures Marshalled(ControlMessage(event, sid, payload)).Ok? ==>
              Marshalled(ControlMessage(event, sid, payload)).value == ControlFrame(event, sid, payload)
  {
    WriterSkipsLikeRust(event);
    if Marshalled(ControlMessage(event, sid, payload)).Ok? {
      ControlBytes(event, sid, payload);
    }
  }

  /** The Rust reader reads Python's control frame back, with the fields `ReadBack` says, but for the
      two connection events whose payload it takes for an id. */
  lemma ControlFrameReadBack(event: EventType, sid: Utf8, payload: seq<byte>)
    requires (SkipsSessionWriter(event) || |sid| < TWO_32) && |payload| < TWO_32
    ensures Parsed(ControlFrame(event, sid, payload)) ==
            if event == CONNECTION_STARTED || event == CONNECTION_FAILED then Err(UnexpectedEof)
            else Ok(ReadBack(ControlMessage(event, sid, payload)))
  {
    ControlBytes(event, sid, payload);
    ReadingBack(ControlMessage(event, sid, payload));
  }

  lemma ControlBytes(event: EventType, sid: Utf8, payload: seq<byte>)
    requires SkipsSessionWriter(event) || |sid| < TWO_32
    requires |payload| < TWO_32
    ensures Marshalled(ControlMessage(event, sid, payload)) == Ok(ControlFrame(event, sid, payload))
  {
    var m := ControlMessage(event, sid, payload);
    WriterSkipsLikeRust(event);
    ControlHeader(m);
    var s := if WritesSessionId(m) then LenPrefixed(sid) else [];
    ControlParts(Header(m, Zeros(1)), U32ToBe(event), s, LenPrefixed(payload));
  }

  lemma WriterSkipsLikeRust(event: EventType)
    ensures SkipsSessionWriter(event) <==> OmitsSessionIdWriter(event)
  {
  }

  lemma ControlHeader(m: Message)
    requires m.version == 1 && m.headerSize == 1 && m.msgType == FULL_CLIENT_REQUEST && m.flag == WITH_EVENT
    requires m.serialization == 1 && m.compression == 0
    ensures Header(m, Zeros(1)) == [0x11, 0x14, 0x10, 0x00]
  {
  }

  lemma ControlParts(h: seq<byte>, e: seq<byte>, s: seq<byte>, p: seq<byte>)
    ensures h + (e + s) + [] + p == h + e + s + p
  {
  }
}
