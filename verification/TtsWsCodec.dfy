/** The Volcano binary frame: what `marshal` writes, what `unmarshal` reads. */
module TtsWsCodec {
  import opened Wrappers
  import opened Bytes
  import StreamSplitter

  // ---- Data model --------------------------------------------------------------
  // Every enumeration of the wire format is the set of its discriminants.

  type MsgType = n: nat | n in {0x0, 0x1, 0x2, 0x9, 0xB, 0xC, 0xF}
  const FULL_CLIENT_REQUEST: MsgType := 0x1
  const AUDIO_ONLY_CLIENT: MsgType := 0x2
  const FULL_SERVER_RESPONSE: MsgType := 0x9
  const AUDIO_ONLY_SERVER: MsgType := 0xB
  const FRONT_END_RESULT_SERVER: MsgType := 0xC
  const ERROR: MsgType := 0xF

  type Flag = n: nat | n <= 4
  const POSITIVE_SEQ: Flag := 1
  const NEGATIVE_SEQ: Flag := 3
  const WITH_EVENT: Flag := 4

  type Version = n: nat | 1 <= n <= 4 witness 1
  type HeaderSize = n: nat | 1 <= n <= 4 witness 1
  type Serialization = n: nat | n in {0x0, 0x1, 0x3, 0xF}
  type Compression = n: nat | n in {0x0, 0x1, 0xF}

  predicate KnownEvent(v: int) {
    v in {0, 1, 2, 50, 51, 52, 100, 101, 102, 150, 151, 152, 153, 154, 200, 201, 250, 300,
          350, 351, 352, 364, 359, 360, 361, 362, 450, 451, 459, 500, 550, 559,
          650, 651, 652, 653, 654, 655}
  }

  type EventType = v: i32 | KnownEvent(v)
  const NONE: EventType := 0
  const START_CONNECTION: EventType := 1
  const FINISH_CONNECTION: EventType := 2
  const CONNECTION_STARTED: EventType := 50
  const CONNECTION_FAILED: EventType := 51
  const CONNECTION_FINISHED: EventType := 52

  /** The reader keeps known events and maps every other number to `NONE`. */
  function EventOf(v: i32): EventType {
    if KnownEvent(v) then v else NONE
  }

  predicate OmitsSessionIdWriter(e: EventType) {
    e == START_CONNECTION || e == FINISH_CONNECTION || e == CONNECTION_STARTED || e == CONNECTION_FAILED
  }

  predicate OmitsSessionIdReader(e: EventType) {
    OmitsSessionIdWriter(e) || e == CONNECTION_FINISHED
  }

  predicate CarriesConnectId(e: EventType) {
    e == CONNECTION_STARTED || e == CONNECTION_FAILED || e == CONNECTION_FINISHED
  }

  datatype Message = Message(
    version: Version,
    headerSize: HeaderSize,
    msgType: MsgType,
    flag: Flag,
    serialization: Serialization,
    compression: Compression,
    event: EventType,
    sessionId: Utf8,
    connectId: Utf8,
    sequence: i32,
    errorCode: u32,
    payload: seq<byte>)

  const DEFAULT := Message(1, 1, 0, 0, 1, 0, NONE, [], [], 0, 0, [])

  datatype CodecError =
    | UnexpectedEof
    | HeaderTooShort
    | UnknownMsgType(n: nat)
    | UnknownFlag(n: nat)
    | UnknownVersion(n: nat)
    | UnknownHeaderSize(n: nat)
    | UnknownSerialization(n: nat)
    | UnknownCompression(n: nat)
    | UnsupportedMsgType(n: nat)
    | UnexpectedTrailing(n: nat)
    | LengthTooLarge

  predicate SeqCapable(t: MsgType) {
    || t == FULL_CLIENT_REQUEST || t == FULL_SERVER_RESPONSE || t == FRONT_END_RESULT_SERVER
    || t == AUDIO_ONLY_CLIENT || t == AUDIO_ONLY_SERVER
  }

  predicate HasSequence(m: Message) {
    SeqCapable(m.msgType) && (m.flag == POSITIVE_SEQ || m.flag == NEGATIVE_SEQ)
  }

  // ---- What the writer produces --------------------------------------------------

  function Header(m: Message, pad: seq<byte>): seq<byte> {
    var v: int, t: int, s: int := m.version, m.msgType, m.serialization;
    [v * 16 + m.headerSize, t * 16 + m.flag, s * 16 + m.compression] + pad
  }

  function Zeros(n: nat): (b: seq<byte>)
    ensures |b| == n
  {
    seq(n, _ => 0)
  }

  function PadLength(m: Message): (n: nat)
    ensures 1 <= n <= 13
  {
    4 * m.headerSize - 3
  }

  function LenPrefixed(b: seq<byte>): seq<byte>
    requires |b| < TWO_32
  {
    U32ToBe(|b|) + b
  }

  function Number(m: Message): seq<byte> {
    if HasSequence(m) then U32ToBe(I32Bits(m.sequence))
    else if m.msgType == ERROR then U32ToBe(m.errorCode)
    else []
  }

  predicate Supported(m: Message) {
    SeqCapable(m.msgType) || m.msgType == ERROR
  }

  predicate WritesSessionId(m: Message) {
    m.flag == WITH_EVENT && !OmitsSessionIdWriter(m.event)
  }

  function WrittenIds(m: Message): seq<byte>
    requires WritesSessionId(m) ==> |m.sessionId| < TWO_32
  {
    if m.flag != WITH_EVENT then []
    else U32ToBe(m.event) + if WritesSessionId(m) then LenPrefixed(m.sessionId) else []
  }

  function Marshalled(m: Message): Result<seq<byte>, CodecError> {
    if WritesSessionId(m) && |m.sessionId| >= TWO_32 then Err(LengthTooLarge)
    else if !Supported(m) then Err(UnsupportedMsgType(m.msgType))
    else if |m.payload| >= TWO_32 then Err(LengthTooLarge)
    else Ok(Header(m, Zeros(PadLength(m))) + WrittenIds(m) + Number(m) + LenPrefixed(m.payload))
  }

  // ---- What the reader accepts ---------------------------------------------------
  // Each stage takes the unread bytes and returns what it read and what is left.

  type Read<+T> = Result<(T, seq<byte>), CodecError>

  function Take(rest: seq<byte>, n: nat): Read<seq<byte>> {
    if |rest| < n then Err(UnexpectedEof) else Ok((rest[..n], rest[n..]))
  }

  function TakeU32(rest: seq<byte>): Read<u32> {
    if |rest| < 4 then Err(UnexpectedEof) else Ok((BeToU32(rest[..4]), rest[4..]))
  }

  function TakeLenPrefixed(rest: seq<byte>): Read<seq<byte>> {
    var (size, rest) :- TakeU32(rest);
    Take(rest, size)
  }

  function TakeString(rest: seq<byte>): Read<Utf8> {
    var (b, rest) :- TakeLenPrefixed(rest);
    if ValidUtf8(b) then Ok((b, rest)) else Err(UnexpectedEof)
  }

  /** The three meaningful header bytes, their nibbles checked in the reader's order. */
  function HeaderOfBytes(b0: byte, b1: byte, b2: byte): Result<Message, CodecError> {
    var msgType, flag := b1 / 16, b1 % 16;
    if msgType !in {0x0, 0x1, 0x2, 0x9, 0xB, 0xC, 0xF} then Err(UnknownMsgType(msgType))
    else if flag > 4 then Err(UnknownFlag(flag))
    else
      var version, headerSize := b0 / 16, b0 % 16;
      if !(1 <= version <= 4) then Err(UnknownVersion(version))
      else if !(1 <= headerSize <= 4) then Err(UnknownHeaderSize(headerSize))
      else
        var serialization, compression := b2 / 16, b2 % 16;
        if serialization !in {0x0, 0x1, 0x3, 0xF} then Err(UnknownSerialization(serialization))
        else if compression !in {0x0, 0x1, 0xF} then Err(UnknownCompression(compression))
        else
          Ok(DEFAULT.(version := version, headerSize := headerSize, msgType := msgType, flag := flag,
                      serialization := serialization, compression := compression))
  }

  function TakeHeader(data: seq<byte>): Read<Message> {
    if |data| < 3 then Err(HeaderTooShort)
    else
      var m :- HeaderOfBytes(data[0], data[1], data[2]);
      var (_, rest) :- Take(data[3..], PadLength(m));
      Ok((m, rest))
  }

  function TakeNumber(m: Message, rest: seq<byte>): Read<Message> {
    if SeqCapable(m.msgType) then
      if HasSequence(m) then
        var (u, rest) :- TakeU32(rest);
        Ok((m.(sequence := BitsI32(u)), rest))
      else Ok((m, rest))
    else if m.msgType == ERROR then
      var (u, rest) :- TakeU32(rest);
      Ok((m.(errorCode := u), rest))
    else Err(UnsupportedMsgType(m.msgType))
  }

  function TakeSessionId(m: Message, rest: seq<byte>): Read<Message> {
    if OmitsSessionIdReader(m.event) then Ok((m, rest))
    else
      var (s, rest) :- TakeString(rest);
      Ok((m.(sessionId := s), rest))
  }

  function TakeConnectId(m: Message, rest: seq<byte>): Read<Message> {
    if !CarriesConnectId(m.event) then Ok((m, rest))
    else
      var (s, rest) :- TakeString(rest);
      Ok((m.(connectId := s), rest))
  }

  function TakeBothIds(m: Message, rest: seq<byte>): Read<Message> {
    var (m, rest) :- TakeSessionId(m, rest);
    TakeConnectId(m, rest)
  }

  function TakeIds(m: Message, rest: seq<byte>): Read<Message> {
    if m.flag != WITH_EVENT then Ok((m, rest))
    else
      var (u, rest) :- TakeU32(rest);
      TakeBothIds(m.(event := EventOf(BitsI32(u))), rest)
  }

  function TakePayload(m: Message, rest: seq<byte>): Read<Message> {
    var (payload, rest) :- TakeLenPrefixed(rest);
    Ok((m.(payload := payload), rest))
  }

  function TakeBody(m: Message, rest: seq<byte>): Read<Message> {
    var (m, rest) :- TakeIds(m, rest);
    TakePayload(m, rest)
  }

  function TakeFields(m: Message, rest: seq<byte>): Read<Message> {
    var (m, rest) :- TakeNumber(m, rest);
    TakeBody(m, rest)
  }

  function TakeMessage(data: seq<byte>): Read<Message> {
    var (m, rest) :- TakeHeader(data);
    TakeFields(m, rest)
  }

  function Parsed(data: seq<byte>): Result<Message, CodecError> {
    var (m, rest) :- TakeMessage(data);
    if rest != [] then Err(UnexpectedTrailing(|rest|)) else Ok(m)
  }

  // ---- The writer and the reader as they run ------------------------------------------

  method Marshal(m: Message) returns (r: Result<seq<byte>, CodecError>)
    ensures r == Marshalled(m)
  {
    var out := WriteHeader(m);
    out :- WriteIds(m, out);
    out :- WriteNumber(m, out);
    r := WritePayload(m, out);
  }

  method WriteHeader(m: Message) returns (out: seq<byte>)
    ensures out == Header(m, Zeros(PadLength(m)))
  {
    var v: int, t: int, s: int := m.version, m.msgType, m.serialization;
    out := [];
    out := out + [v * 16 + m.headerSize];
    out := out + [t * 16 + m.flag];
    out := out + [s * 16 + m.compression];
    var headerBytes := 4 * m.headerSize;
    out := out + Zeros(headerBytes - |out|);
  }

  method WriteIds(m: Message, written: seq<byte>) returns (r: Result<seq<byte>, CodecError>)
    ensures r == if WritesSessionId(m) && |m.sessionId| >= TWO_32 then Err(LengthTooLarge)
                 else Ok(written + WrittenIds(m))
  {
    var out := written;
    if m.flag == WITH_EVENT {
      out := out + U32ToBe(I32Bits(m.event));
      out :- WriteSessionId(m, out);
      IdsAppended(m, written);
    } else {
      assert written + [] == written;
    }
    r := Ok(out);
  }

  lemma IdsAppended(m: Message, written: seq<byte>)
    requires m.flag == WITH_EVENT && (WritesSessionId(m) ==> |m.sessionId| < TWO_32)
    ensures WritesSessionId(m) ==>
              (written + U32ToBe(I32Bits(m.event))) + LenPrefixed(m.sessionId) == written + WrittenIds(m)
    ensures !WritesSessionId(m) ==> written + U32ToBe(I32Bits(m.event)) == written + WrittenIds(m)
  {
    var e := U32ToBe(m.event);
    if WritesSessionId(m) {
      StreamSplitter.Reassociate(written, e, LenPrefixed(m.sessionId));
    } else {
      assert e + [] == e;
    }
  }

  method WriteNumber(m: Message, written: seq<byte>) returns (r: Result<seq<byte>, CodecError>)
    ensures r == if Supported(m) then Ok(written + Number(m)) else Err(UnsupportedMsgType(m.msgType))
  {
    if SeqCapable(m.msgType) {
      if m.flag == POSITIVE_SEQ || m.flag == NEGATIVE_SEQ {
        return Ok(written + U32ToBe(I32Bits(m.sequence)));
      }
      assert written + [] == written;
      return Ok(written);
    } else if m.msgType == ERROR {
      return Ok(written + U32ToBe(m.errorCode));
    } else {
      return Err(UnsupportedMsgType(m.msgType));
    }
  }

  method WriteSessionId(m: Message, written: seq<byte>) returns (r: Result<seq<byte>, CodecError>)
    ensures r == if OmitsSessionIdWriter(m.event) then Ok(written)
                 else if |m.sessionId| >= TWO_32 then Err(LengthTooLarge)
                 else Ok(written + LenPrefixed(m.sessionId))
  {
    if OmitsSessionIdWriter(m.event) {
      return Ok(written);
    }
    if |m.sessionId| >= TWO_32 {
      return Err(LengthTooLarge);
    }
    var out := written + U32ToBe(|m.sessionId|);
    out := out + m.sessionId;
    assert out == written + LenPrefixed(m.sessionId);
    r := Ok(out);
  }

  method WritePayload(m: Message, written: seq<byte>) returns (r: Result<seq<byte>, CodecError>)
    ensures r == if |m.payload| >= TWO_32 then Err(LengthTooLarge) else Ok(written + LenPrefixed(m.payload))
  {
    if |m.payload| >= TWO_32 {
      return Err(LengthTooLarge);
    }
    var out := written + U32ToBe(|m.payload|);
    out := out + m.payload;
    assert out == written + LenPrefixed(m.payload);
    r := Ok(out);
  }

  /** `r` is the value the stage `spec` reads, and `now` is what it leaves. */
  ghost predicate Delivers<T>(r: Result<T, CodecError>, spec: Read<T>, now: seq<byte>) {
    match spec
    case Ok((v, rest)) => r == Ok(v) && now == rest
    case Err(e) => r == Err(e)
  }

  class Cursor {
    const buf: seq<byte>
    var pos: nat

    ghost predicate Valid()
      reads this
    {
      pos <= |buf|
    }

    ghost function Rest(): seq<byte>
      requires Valid()
      reads this
    {
      buf[pos..]
    }

    constructor (buf: seq<byte>)
      ensures Valid() && Rest() == buf && pos == 0 && this.buf == buf
    {
      this.buf := buf;
      pos := 0;
    }

    function Remaining(): nat
      requires Valid()
      reads this
    {
      |buf| - pos
    }

    method Read(n: nat) returns (r: Result<seq<byte>, CodecError>)
      requires Valid()
      modifies this
      ensures Valid() && Delivers(r, Take(old(Rest()), n), Rest())
      ensures pos == old(pos) + if r.Ok? then n else 0
    {
      if Remaining() < n {
        return Err(UnexpectedEof);
      }
      assert buf[pos..pos + n] == Rest()[..n] && buf[pos + n..] == Rest()[n..];
      r := Ok(buf[pos..pos + n]);
      pos := pos + n;
    }

    method ReadU32Be() returns (r: Result<u32, CodecError>)
      requires Valid()
      modifies this
      ensures Valid() && Delivers(r, TakeU32(old(Rest())), Rest())
    {
      var b :- Read(4);
      r := Ok(BeToU32(b));
    }

    method ReadI32Be() returns (r: Result<i32, CodecError>)
      requires Valid()
      modifies this
      ensures Valid()
      ensures match TakeU32(old(Rest()))
              case Ok((u, rest)) => r == Ok(BitsI32(u)) && Rest() == rest
              case Err(e) => r == Err(e)
    {
      var b :- Read(4);
      r := Ok(BitsI32(BeToU32(b)));
    }

    method ReadU8() returns (r: Result<byte, CodecError>)
      requires Valid()
      modifies this
      ensures Valid()
      ensures if old(Remaining()) == 0 then r == Err(UnexpectedEof)
              else r == Ok(old(Rest())[0]) && Rest() == old(Rest())[1..]
    {
      var b :- Read(1);
      r := Ok(b[0]);
    }

    method ReadLenPrefixed() returns (r: Result<seq<byte>, CodecError>)
      requires Valid()
      modifies this
      ensures Valid() && Delivers(r, TakeLenPrefixed(old(Rest())), Rest())
    {
      var size :- ReadU32Be();
      if Remaining() < size {
        return Err(UnexpectedEof);
      }
      r := Read(size);
    }

    method ReadLenPrefixedString() returns (r: Result<Utf8, CodecError>)
      requires Valid()
      modifies this
      ensures Valid() && Delivers(r, TakeString(old(Rest())), Rest())
    {
      var b :- ReadLenPrefixed();
      r := if ValidUtf8(b) then Ok(b) else Err(UnexpectedEof);
    }
  }

  method Unmarshal(data: seq<byte>) returns (r: Result<Message, CodecError>)
    ensures r == Parsed(data)
  {
    var cur := new Cursor(data);
    var m :- ReadMessage(cur);
    if cur.Remaining() != 0 {
      return Err(UnexpectedTrailing(cur.Remaining()));
    }
    r := Ok(m);
  }

  method ReadMessage(cur: Cursor) returns (r: Result<Message, CodecError>)
    requires cur.Valid() && cur.pos == 0
    modifies cur
    ensures cur.Valid() && Delivers(r, TakeMessage(cur.buf), cur.Rest())
  {
    if |cur.buf| < 3 {
      return Err(HeaderTooShort);
    }
    var header :- ReadHeader(cur);
    r := ReadFields(cur, header);
  }

  method ReadHeader(cur: Cursor) returns (r: Result<Message, CodecError>)
    requires cur.Valid() && cur.pos == 0 && |cur.buf| >= 3
    modifies cur
    ensures cur.Valid() && Delivers(r, TakeHeader(cur.buf), cur.Rest())
  {
    var m :- ReadHeaderBytes(cur);
    var _ :- cur.Read(4 * m.headerSize - 3);
    r := Ok(m);
  }

  /** Three bytes are present, so the reads do not fail. */
  method ReadHeaderBytes(cur: Cursor) returns (r: Result<Message, CodecError>)
    requires cur.Valid() && cur.pos == 0 && |cur.buf| >= 3
    modifies cur
    ensures cur.Valid() && r == HeaderOfBytes(cur.buf[0], cur.buf[1], cur.buf[2])
    ensures r.Ok? ==> cur.pos == 3
  {
    var msgType, flag := cur.buf[1] / 16, cur.buf[1] % 16;
    if msgType !in {0x0, 0x1, 0x2, 0x9, 0xB, 0xC, 0xF} { return Err(UnknownMsgType(msgType)); }
    if flag > 4 { return Err(UnknownFlag(flag)); }
    var b0 := cur.ReadU8();
    var version, headerSize := b0.value / 16, b0.value % 16;
    if !(1 <= version <= 4) { return Err(UnknownVersion(version)); }
    if !(1 <= headerSize <= 4) { return Err(UnknownHeaderSize(headerSize)); }
    var _ := cur.ReadU8();
    var b2 := cur.ReadU8();
    var serialization, compression := b2.value / 16, b2.value % 16;
    if serialization !in {0x0, 0x1, 0x3, 0xF} { return Err(UnknownSerialization(serialization)); }
    if compression !in {0x0, 0x1, 0xF} { return Err(UnknownCompression(compression)); }
    r := Ok(DEFAULT.(version := version, headerSize := headerSize, msgType := msgType, flag := flag,
                     serialization := serialization, compression := compression));
  }

  method ReadFields(cur: Cursor, header: Message) returns (r: Result<Message, CodecError>)
    requires cur.Valid()
    modifies cur
    ensures cur.Valid() && Delivers(r, TakeFields(header, old(cur.Rest())), cur.Rest())
  {
    var m := header;
    if SeqCapable(m.msgType) {
      if m.flag == POSITIVE_SEQ || m.flag == NEGATIVE_SEQ {
        var n :- cur.ReadI32Be();
        m := m.(sequence := n);
      }
    } else if m.msgType == ERROR {
      var n :- cur.ReadU32Be();
      m := m.(errorCode := n);
    } else {
      return Err(UnsupportedMsgType(m.msgType));
    }
    m :- ReadBody(cur, m);
    r := Ok(m);
  }

  method ReadBody(cur: Cursor, header: Message) returns (r: Result<Message, CodecError>)
    requires cur.Valid()
    modifies cur
    ensures cur.Valid() && Delivers(r, TakeBody(header, old(cur.Rest())), cur.Rest())
  {
    var m := header;
    if m.flag == WITH_EVENT {
      var value :- cur.ReadI32Be();
      m :- ReadBothIds(cur, m.(event := EventOf(value)));
    }
    var payload :- cur.ReadLenPrefixed();
    r := Ok(m.(payload := payload));
  }

  method ReadBothIds(cur: Cursor, header: Message) returns (r: Result<Message, CodecError>)
    requires cur.Valid()
    modifies cur
    ensures cur.Valid() && Delivers(r, TakeBothIds(header, old(cur.Rest())), cur.Rest())
  {
    var m := header;
    if !OmitsSessionIdReader(m.event) {
      var s :- cur.ReadLenPrefixedString();
      m := m.(sessionId := s);
    }
    if CarriesConnectId(m.event) {
      var s :- cur.ReadLenPrefixedString();
      m := m.(connectId := s);
    }
    r := Ok(m);
  }

  // ---- The reader's own language ---------------------------------------------------
  // `Emit` writes in the reader's order; `pad` and `raw` are the bytes the reader forgets.

  function ReadSessionId(m: Message): seq<byte>
    requires |m.sessionId| < TWO_32
  {
    if OmitsSessionIdReader(m.event) then [] else LenPrefixed(m.sessionId)
  }

  function ReadConnectId(m: Message): seq<byte>
    requires |m.connectId| < TWO_32
  {
    if CarriesConnectId(m.event) then LenPrefixed(m.connectId) else []
  }

  function ReadIds(m: Message, raw: i32): seq<byte>
    requires |m.sessionId| < TWO_32 && |m.connectId| < TWO_32
  {
    if m.flag != WITH_EVENT then []
    else
      U32ToBe(I32Bits(raw)) + ReadSessionId(m) + ReadConnectId(m)
  }

  predicate Sized(m: Message) {
    |m.sessionId| < TWO_32 && |m.connectId| < TWO_32 && |m.payload| < TWO_32
  }

  function Emit(m: Message, pad: seq<byte>, raw: i32): seq<byte>
    requires Sized(m)
  {
    Header(m, pad) + (Number(m) + (ReadIds(m, raw) + LenPrefixed(m.payload)))
  }

  /** What holds of every message the reader returns: a field it did not read has its default. */
  predicate Readable(m: Message) {
    && Supported(m) && Sized(m)
    && (m.sequence != 0 ==> HasSequence(m))
    && (m.errorCode != 0 ==> m.msgType == ERROR)
    && (m.event != NONE ==> m.flag == WITH_EVENT)
    && (m.sessionId != [] ==> m.flag == WITH_EVENT && !OmitsSessionIdReader(m.event))
    && (m.connectId != [] ==> m.flag == WITH_EVENT && CarriesConnectId(m.event))
  }

  lemma TakeU32Emitted(n: u32, rest: seq<byte>)
    ensures TakeU32(U32ToBe(n) + rest) == Ok((n, rest))
  {
    U32BeInverse(n);
    assert (U32ToBe(n) + rest)[..4] == U32ToBe(n) && (U32ToBe(n) + rest)[4..] == rest;
  }

  lemma TakeLenPrefixedEmitted(b: seq<byte>, rest: seq<byte>)
    requires |b| < TWO_32
    ensures TakeLenPrefixed(LenPrefixed(b) + rest) == Ok((b, rest))
  {
    assert LenPrefixed(b) + rest == U32ToBe(|b|) + (b + rest);
    TakeU32Emitted(|b|, b + rest);
    assert (b + rest)[..|b|] == b && (b + rest)[|b|..] == rest;
  }

  lemma TakeU32Exact(rest: seq<byte>)
    requires TakeU32(rest).Ok?
    ensures rest == U32ToBe(TakeU32(rest).value.0) + TakeU32(rest).value.1
  {
    BeU32Inverse(rest[..4]);
  }

  lemma TakeLenPrefixedExact(rest: seq<byte>)
    requires TakeLenPrefixed(rest).Ok?
    ensures var (b, left) := TakeLenPrefixed(rest).value;
            |b| < TWO_32 && rest == LenPrefixed(b) + left
  {
    TakeU32Exact(rest);
  }

  lemma Nibbles(high: int, low: int)
    requires 0 <= low < 16
    ensures (high * 16 + low) / 16 == high && (high * 16 + low) % 16 == low
  {
  }

  lemma HeaderOfBytesEmitted(m: Message)
    ensures var h := Header(m, []);
            |h| == 3 && HeaderOfBytes(h[0], h[1], h[2]) == Ok(Blank(m))
  {
    Nibbles(m.version, m.headerSize);
    Nibbles(m.msgType, m.flag);
    Nibbles(m.serialization, m.compression);
  }

  lemma TakeHeaderEmitted(m: Message, pad: seq<byte>, rest: seq<byte>)
    requires |pad| == PadLength(m)
    ensures TakeHeader(Header(m, pad) + rest) == Ok((Blank(m), rest))
  {
    var data, h := Header(m, pad) + rest, Header(m, []);
    HeaderOfBytesEmitted(m);
    assert data[0] == h[0] && data[1] == h[1] && data[2] == h[2];
    assert data[3..] == pad + rest && (pad + rest)[|pad|..] == rest;
  }

  lemma TakeNumberEmitted(h: Message, m: Message, rest: seq<byte>)
    requires Readable(m)
    requires h.msgType == m.msgType && h.flag == m.flag && h.sequence == 0 && h.errorCode == 0
    ensures TakeNumber(h, Number(m) + rest)
         == Ok((h.(sequence := m.sequence, errorCode := m.errorCode), rest))
  {
    if HasSequence(m) {
      TakeU32Emitted(I32Bits(m.sequence), rest);
    } else if m.msgType == ERROR {
      TakeU32Emitted(m.errorCode, rest);
    } else {
      assert Number(m) + rest == rest;
    }
  }

  lemma TakeSessionIdEmitted(h: Message, m: Message, rest: seq<byte>)
    requires |m.sessionId| < TWO_32 && h.event == m.event && h.sessionId == []
    requires OmitsSessionIdReader(m.event) ==> m.sessionId == []
    ensures TakeSessionId(h, ReadSessionId(m) + rest) == Ok((h.(sessionId := m.sessionId), rest))
  {
    TakeLenPrefixedEmitted(m.sessionId, rest);
    assert [] + rest == rest;
  }

  lemma TakeConnectIdEmitted(h: Message, m: Message, rest: seq<byte>)
    requires |m.connectId| < TWO_32 && h.event == m.event && h.connectId == []
    requires !CarriesConnectId(m.event) ==> m.connectId == []
    ensures TakeConnectId(h, ReadConnectId(m) + rest) == Ok((h.(connectId := m.connectId), rest))
  {
    TakeLenPrefixedEmitted(m.connectId, rest);
    assert [] + rest == rest;
  }

  lemma TakeBothIdsEmitted(h: Message, m: Message, rest: seq<byte>)
    requires Readable(m) && h.event == m.event && h.sessionId == [] && h.connectId == []
    ensures TakeBothIds(h, ReadSessionId(m) + (ReadConnectId(m) + rest))
         == Ok((h.(sessionId := m.sessionId, connectId := m.connectId), rest))
  {
    TakeSessionIdEmitted(h, m, ReadConnectId(m) + rest);
    TakeConnectIdEmitted(h.(sessionId := m.sessionId), m, rest);
  }

  lemma ReadIdsAppend(m: Message, raw: i32, rest: seq<byte>)
    requires |m.sessionId| < TWO_32 && |m.connectId| < TWO_32 && m.flag == WITH_EVENT
    ensures ReadIds(m, raw) + rest
         == U32ToBe(I32Bits(raw)) + (ReadSessionId(m) + (ReadConnectId(m) + rest))
  {
  }

  lemma TakeIdsEmitted(h: Message, m: Message, raw: i32, rest: seq<byte>)
    requires Readable(m) && (m.flag == WITH_EVENT ==> m.event == EventOf(raw))
    requires h.flag == m.flag && h.event == NONE && h.sessionId == [] && h.connectId == []
    ensures TakeIds(h, ReadIds(m, raw) + rest)
         == Ok((h.(event := m.event, sessionId := m.sessionId, connectId := m.connectId), rest))
  {
    if m.flag == WITH_EVENT {
      var r1 := ReadSessionId(m) + (ReadConnectId(m) + rest);
      assert ReadIds(m, raw) + rest == U32ToBe(I32Bits(raw)) + r1 by {
        ReadIdsAppend(m, raw, rest);
      }
      TakeU32Emitted(I32Bits(raw), r1);
      TakeBothIdsEmitted(h.(event := m.event), m, rest);
    } else {
      assert ReadIds(m, raw) + rest == rest;
    }
  }

  function Blank(m: Message): Message {
    DEFAULT.(version := m.version, headerSize := m.headerSize, msgType := m.msgType, flag := m.flag,
             serialization := m.serialization, compression := m.compression)
  }

  lemma TakeBodyEmitted(h: Message, m: Message, raw: i32, rest: seq<byte>)
    requires Readable(m) && (m.flag == WITH_EVENT ==> m.event == EventOf(raw))
    requires h == Blank(m).(sequence := m.sequence, errorCode := m.errorCode)
    ensures TakeBody(h, ReadIds(m, raw) + (LenPrefixed(m.payload) + rest)) == Ok((m, rest))
  {
    TakeIdsEmitted(h, m, raw, LenPrefixed(m.payload) + rest);
    TakeLenPrefixedEmitted(m.payload, rest);
  }

  lemma TakeFieldsEmitted(m: Message, raw: i32, rest: seq<byte>)
    requires Readable(m) && (m.flag == WITH_EVENT ==> m.event == EventOf(raw))
    ensures TakeFields(Blank(m), Number(m) + (ReadIds(m, raw) + (LenPrefixed(m.payload) + rest)))
         == Ok((m, rest))
  {
    TakeNumberEmitted(Blank(m), m, ReadIds(m, raw) + (LenPrefixed(m.payload) + rest));
    TakeBodyEmitted(Blank(m).(sequence := m.sequence, errorCode := m.errorCode), m, raw, rest);
  }

  /** The reader undoes its own writer, whatever follows the frame. */
  lemma ReadsWhatItEmits(m: Message, pad: seq<byte>, raw: i32, rest: seq<byte>)
    requires Readable(m) && |pad| == PadLength(m) && (m.flag == WITH_EVENT ==> m.event == EventOf(raw))
    ensures TakeMessage(Emit(m, pad, raw) + rest) == Ok((m, rest))
  {
    EmitAppend(m, pad, raw, rest);
    TakeHeaderEmitted(m, pad, Number(m) + (ReadIds(m, raw) + (LenPrefixed(m.payload) + rest)));
    TakeFieldsEmitted(m, raw, rest);
  }

  lemma EmitAppend(m: Message, pad: seq<byte>, raw: i32, rest: seq<byte>)
    requires Sized(m)
    ensures Emit(m, pad, raw) + rest
         == Header(m, pad) + (Number(m) + (ReadIds(m, raw) + (LenPrefixed(m.payload) + rest)))
  {
  }

  // ---- Everything the reader accepts is an emission ---------------------------------

  /** The header bytes after the first three; the reader skips them. */
  function Padding(data: seq<byte>): seq<byte> {
    if |data| < 3 || data[0] % 16 == 0 || |data| < 4 * (data[0] % 16) then []
    else data[3..4 * (data[0] % 16)]
  }

  /** The event number on the wire, or `NONE` where the reader does not get to one. */
  function EventField(m: Message, rest: seq<byte>): i32 {
    var n := TakeNumber(m, rest);
    if m.flag == WITH_EVENT && n.Ok? && TakeU32(n.value.1).Ok? then BitsI32(TakeU32(n.value.1).value.0)
    else NONE
  }

  function EventNumber(data: seq<byte>): i32 {
    var h := TakeHeader(data);
    if h.Ok? then EventField(h.value.0, h.value.1) else NONE
  }

  lemma ByteNibbles(b: byte)
    ensures b / 16 * 16 + b % 16 == b
  {
  }

  lemma HeaderOfBytesExact(b0: byte, b1: byte, b2: byte)
    requires HeaderOfBytes(b0, b1, b2).Ok?
    ensures var m := HeaderOfBytes(b0, b1, b2).value;
            m == Blank(m) && m.headerSize == b0 % 16 && Header(m, []) == [b0, b1, b2]
  {
    ByteNibbles(b0);
    ByteNibbles(b1);
    ByteNibbles(b2);
  }

  lemma HeaderPads(m: Message, pad: seq<byte>)
    ensures Header(m, pad) == Header(m, []) + pad
  {
  }

  lemma CutHeader(data: seq<byte>, n: nat)
    requires 3 + n <= |data|
    ensures data == ([data[0], data[1], data[2]] + data[3..3 + n]) + data[3..][n..]
  {
  }

  lemma TakeHeaderExact(data: seq<byte>)
    requires TakeHeader(data).Ok?
    ensures var (h, rest) := TakeHeader(data).value;
            h == Blank(h) && |Padding(data)| == PadLength(h) && data == Header(h, Padding(data)) + rest
  {
    var h := TakeHeader(data).value.0;
    HeaderOfBytesExact(data[0], data[1], data[2]);
    CutHeader(data, PadLength(h));
    HeaderPads(h, Padding(data));
  }

  lemma TakeNumberExact(h: Message, rest: seq<byte>)
    requires TakeNumber(h, rest).Ok? && h.sequence == 0 && h.errorCode == 0
    ensures var (m, left) := TakeNumber(h, rest).value;
            && rest == Number(m) + left && Supported(m)
            && m == h.(sequence := m.sequence, errorCode := m.errorCode)
            && (m.sequence != 0 ==> HasSequence(m)) && (m.errorCode != 0 ==> m.msgType == ERROR)
  {
    if HasSequence(h) {
      TakeU32Exact(rest);
      SignedBits(TakeU32(rest).value.0);
    } else if h.msgType == ERROR {
      TakeU32Exact(rest);
    } else {
      assert [] + rest == rest;
    }
  }

  lemma TakeSessionIdExact(h: Message, rest: seq<byte>)
    requires TakeSessionId(h, rest).Ok? && h.sessionId == []
    ensures var (m, left) := TakeSessionId(h, rest).value;
            && m == h.(sessionId := m.sessionId) && |m.sessionId| < TWO_32
            && (OmitsSessionIdReader(m.event) ==> m.sessionId == [])
            && rest == ReadSessionId(m) + left
  {
    if TakeLenPrefixed(rest).Ok? {
      TakeLenPrefixedExact(rest);
    }
    assert [] + rest == rest;
  }

  lemma TakeConnectIdExact(h: Message, rest: seq<byte>)
    requires TakeConnectId(h, rest).Ok? && h.connectId == []
    ensures var (m, left) := TakeConnectId(h, rest).value;
            && m == h.(connectId := m.connectId) && |m.connectId| < TWO_32
            && (!CarriesConnectId(m.event) ==> m.connectId == [])
            && rest == ReadConnectId(m) + left
  {
    if TakeLenPrefixed(rest).Ok? {
      TakeLenPrefixedExact(rest);
    }
    assert [] + rest == rest;
  }

  lemma TakeBothIdsExact(h: Message, rest: seq<byte>)
    requires TakeBothIds(h, rest).Ok? && h.sessionId == [] && h.connectId == []
    ensures var (m, left) := TakeBothIds(h, rest).value;
            && m == h.(sessionId := m.sessionId, connectId := m.connectId)
            && |m.sessionId| < TWO_32 && |m.connectId| < TWO_32
            && (OmitsSessionIdReader(m.event) ==> m.sessionId == [])
            && (!CarriesConnectId(m.event) ==> m.connectId == [])
            && rest == ReadSessionId(m) + (ReadConnectId(m) + left)
  {
    TakeSessionIdExact(h, rest);
    var (m, left) := TakeSessionId(h, rest).value;
    TakeConnectIdExact(m, left);
  }

  lemma TakeIdsExact(h: Message, rest: seq<byte>)
    requires TakeIds(h, rest).Ok? && h.event == NONE && h.sessionId == [] && h.connectId == []
    ensures var (m, left) := TakeIds(h, rest).value;
            && m == h.(event := m.event, sessionId := m.sessionId, connectId := m.connectId)
            && |m.sessionId| < TWO_32 && |m.connectId| < TWO_32
            && (m.flag != WITH_EVENT ==> m.event == NONE && m.sessionId == [] && m.connectId == [])
            && (OmitsSessionIdReader(m.event) ==> m.sessionId == [])
            && (!CarriesConnectId(m.event) ==> m.connectId == [])
            && (m.flag == WITH_EVENT ==> TakeU32(rest).Ok?)
            && var raw := if m.flag == WITH_EVENT then BitsI32(TakeU32(rest).value.0) else NONE;
               m.event == EventOf(raw) && rest == ReadIds(m, raw) + left
  {
    if h.flag == WITH_EVENT {
      TakeU32Exact(rest);
      var (u, r1) := TakeU32(rest).value;
      var h1 := h.(event := EventOf(BitsI32(u)));
      TakeBothIdsExact(h1, r1);
      var (m, left) := TakeBothIds(h1, r1).value;
      ReadIdsAppend(m, BitsI32(u), left);
    } else {
      assert [] + rest == rest;
    }
  }

  lemma TakeBodyExact(h: Message, rest: seq<byte>)
    requires TakeBody(h, rest).Ok? && h.event == NONE && h.sessionId == [] && h.connectId == []
    ensures h.flag == WITH_EVENT ==> TakeU32(rest).Ok?
    ensures var (m, left) := TakeBody(h, rest).value;
            var raw := if h.flag == WITH_EVENT then BitsI32(TakeU32(rest).value.0) else NONE;
            && m == h.(event := m.event, sessionId := m.sessionId, connectId := m.connectId, payload := m.payload)
            && Sized(m) && m.event == EventOf(raw)
            && (m.flag != WITH_EVENT ==> m.event == NONE && m.sessionId == [] && m.connectId == [])
            && (OmitsSessionIdReader(m.event) ==> m.sessionId == [])
            && (!CarriesConnectId(m.event) ==> m.connectId == [])
            && rest == ReadIds(m, raw) + (LenPrefixed(m.payload) + left)
  {
    TakeIdsExact(h, rest);
    TakeLenPrefixedExact(TakeIds(h, rest).value.1);
  }

  lemma TakeFieldsExact(h: Message, rest: seq<byte>)
    requires TakeFields(h, rest).Ok? && h == Blank(h)
    ensures var (m, left) := TakeFields(h, rest).value;
            && Readable(m) && h == Blank(m)
            && m.event == EventOf(EventField(h, rest))
            && (m.flag != WITH_EVENT ==> EventField(h, rest) == NONE)
            && rest == Number(m) + (ReadIds(m, EventField(h, rest)) + (LenPrefixed(m.payload) + left))
  {
    TakeNumberExact(h, rest);
    var (n, r2) := TakeNumber(h, rest).value;
    TakeBodyExact(n, r2);
  }

  lemma HeaderOfBlank(m: Message, pad: seq<byte>)
    ensures Header(Blank(m), pad) == Header(m, pad) && PadLength(Blank(m)) == PadLength(m)
  {
  }

  /** The converse of `ReadsWhatItEmits`: an accepted frame is the emission of what was read. */
  lemma AcceptsOnlyEmissions(data: seq<byte>)
    requires TakeMessage(data).Ok?
    ensures Readable(TakeMessage(data).value.0)
    ensures |Padding(data)| == PadLength(TakeMessage(data).value.0)
    ensures TakeMessage(data).value.0.event == EventOf(EventNumber(data))
    ensures TakeMessage(data).value.0.flag != WITH_EVENT ==> EventNumber(data) == NONE
    ensures data == Emit(TakeMessage(data).value.0, Padding(data), EventNumber(data)) + TakeMessage(data).value.1
  {
    var (h, rest) := TakeHeader(data).value;
    var (m, left) := TakeFields(h, rest).value;
    TakeHeaderExact(data);
    TakeFieldsExact(h, rest);
    HeaderOfBlank(m, Padding(data));
    EmitAppend(m, Padding(data), EventField(h, rest), left);
  }
}
