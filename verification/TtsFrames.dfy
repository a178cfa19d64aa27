/** What the bytes of a server frame mean to the session, by the positions and numbers of the wire
    format. */
module TtsFrames {
  import opened Bytes
  import opened TtsSession
  import opened TtsWsCodec
  import opened Wrappers

  /** The four bytes at `i`, most significant first. */
  function Word(b: seq<byte>, i: nat): int
    requires i + 4 <= |b|
  {
    var b0: int, b1: int, b2: int, b3: int := b[i], b[i + 1], b[i + 2], b[i + 3];
    b0 * 0x100_0000 + b1 * 0x1_0000 + b2 * 0x100 + b3
  }

  lemma WordIs(b: seq<byte>, i: nat)
    requires i + 4 <= |b|
    ensures BeToU32(b[i..][..4]) == Word(b, i)
  {
    var w := b[i..][..4];
    assert w[0] == b[i] && w[1] == b[i + 1] && w[2] == b[i + 2] && w[3] == b[i + 3];
    assert w[..2][0] == w[0] && w[..2][1] == w[1] && w[2..][0] == w[2] && w[2..][1] == w[3];
  }

  /** Where the fixed header ends: the low nibble of the first byte counts words. */
  function HeaderEnd(b: seq<byte>): nat
    requires b != []
  {
    4 * (b[0] % 16)
  }

  lemma HeaderNibbles(b0: byte, b1: byte, b2: byte)
    requires HeaderOfBytes(b0, b1, b2).Ok?
    ensures var h := HeaderOfBytes(b0, b1, b2).value;
            h.headerSize == b0 % 16 && h.msgType == b1 / 16 && h.flag == b1 % 16
  {
  }

  lemma HeaderTaken(b: seq<byte>)
    requires TakeHeader(b).Ok?
    ensures |b| >= 4 && 4 <= HeaderEnd(b) <= |b|
    ensures var (h, rest) := TakeHeader(b).value;
            h.msgType == b[1] / 16 && h.flag == b[1] % 16 && rest == b[HeaderEnd(b)..]
  {
    HeaderNibbles(b[0], b[1], b[2]);
    var h := TakeHeader(b).value.0;
    assert b[3..][PadLength(h)..] == b[HeaderEnd(b)..];
  }

  /** The header of an accepted frame, and the fields read after it. */
  lemma HeaderRead(b: seq<byte>) returns (h: Message)
    requires Parsed(b).Ok?
    ensures |b| >= 4 && 4 <= HeaderEnd(b) <= |b|
    ensures h == Blank(h) && h.msgType == b[1] / 16 && h.flag == b[1] % 16
    ensures TakeFields(h, b[HeaderEnd(b)..]) == Ok((Parsed(b).value, []))
  {
    HeaderTaken(b);
    TakeHeaderExact(b);
    h := TakeHeader(b).value.0;
  }

  /** What an accepted frame holds after its header: the message's fields, and the event number on the wire. */
  ghost predicate Holds(b: seq<byte>, m: Message, raw: i32) {
    && |b| >= 4 && 4 <= HeaderEnd(b) <= |b|
    && m.msgType == b[1] / 16 && m.flag == b[1] % 16 && Readable(m) && m.event == EventOf(raw)
    && (m.flag != WITH_EVENT ==> raw == NONE)
    && b[HeaderEnd(b)..] == Number(m) + (ReadIds(m, raw) + LenPrefixed(m.payload))
  }

  lemma FieldsRead(b: seq<byte>) returns (raw: i32)
    requires Parsed(b).Ok?
    ensures Holds(b, Parsed(b).value, raw)
  {
    var h := HeaderRead(b);
    var rest := b[HeaderEnd(b)..];
    TakeFieldsExact(h, rest);
    raw := EventField(h, rest);
    assert LenPrefixed(Parsed(b).value.payload) + [] == LenPrefixed(Parsed(b).value.payload);
  }

  /** A word, wherever it stands. */
  lemma WordAt(n: u32, b: seq<byte>, i: nat, tail: seq<byte>)
    requires i <= |b| && b[i..] == U32ToBe(n) + tail
    ensures i + 4 <= |b| && Word(b, i) == n && b[i + 4..] == tail
  {
    assert b[i..][..4] == U32ToBe(n) && b[i..][4..] == tail && b[i..][4..] == b[i + 4..];
    U32BeInverse(n);
    WordIs(b, i);
  }

  lemma PrefixedAt(field: seq<byte>, b: seq<byte>, i: nat, tail: seq<byte>)
    requires i <= |b| && |field| < TWO_32 && b[i..] == LenPrefixed(field) + tail
    ensures i + 4 <= |b| && Word(b, i) == |field| && i + 4 + |field| <= |b|
    ensures b[i + 4..i + 4 + |field|] == field && b[i + 4 + |field|..] == tail
  {
    assert LenPrefixed(field) + tail == U32ToBe(|field|) + (field + tail);
    WordAt(|field|, b, i, field + tail);
    assert b[i + 4..][..|field|] == field && b[i + 4..][|field|..] == tail;
  }

  lemma PayloadAt(payload: seq<byte>, b: seq<byte>, i: nat)
    requires i <= |b| && |payload| < TWO_32 && b[i..] == LenPrefixed(payload)
    ensures i + 4 <= |b| && b[i + 4..] == payload
  {
    assert LenPrefixed(payload) + [] == LenPrefixed(payload);
    PrefixedAt(payload, b, i, []);
  }

  /** A frame that is not accepted is ignored; the type nibble tells audio and errors from the rest. */
  lemma TypeMeans(b: seq<byte>)
    ensures Parsed(b).Err? ==> Classify(b) == Ignored
    ensures Parsed(b).Ok? ==> |b| >= 4
    ensures Parsed(b).Ok? && b[1] / 16 == 0xB ==> Classify(b) == Audio(Parsed(b).value.payload)
    ensures Parsed(b).Ok? && b[1] / 16 == 0xF ==> Classify(b) == ServerError
    ensures Parsed(b).Ok? && b[1] / 16 !in {0x9, 0xB, 0xF} ==> Classify(b) == Ignored
  {
    if Parsed(b).Ok? {
      var _ := FieldsRead(b);
    }
  }

  /** What a server response stands for, by its event number; without the event flag it has none. */
  function Response(event: int): Frame {
    if event == 150 then SessionUp
    else if event == 152 || event == 153 || event == 51 then SessionDown
    else if event == 351 then SentenceEnd
    else Ignored
  }

  lemma EventFirst(m: Message, raw: i32)
    requires Sized(m) && m.flag == WITH_EVENT && Number(m) == []
    ensures Number(m) + (ReadIds(m, raw) + LenPrefixed(m.payload)) ==
            U32ToBe(I32Bits(raw)) + (ReadSessionId(m) + (ReadConnectId(m) + LenPrefixed(m.payload)))
  {
    ReadIdsAppend(m, raw, LenPrefixed(m.payload));
    assert [] + (ReadIds(m, raw) + LenPrefixed(m.payload)) == ReadIds(m, raw) + LenPrefixed(m.payload);
  }

  lemma EventAt(b: seq<byte>, m: Message, raw: i32)
    requires Holds(b, m, raw) && m.flag == WITH_EVENT && Number(m) == []
    ensures var start := HeaderEnd(b);
            && start + 4 <= |b| && Word(b, start) == I32Bits(raw)
            && b[start + 4..] == ReadSessionId(m) + (ReadConnectId(m) + LenPrefixed(m.payload))
  {
    EventFirst(m, raw);
    WordAt(I32Bits(raw), b, HeaderEnd(b), ReadSessionId(m) + (ReadConnectId(m) + LenPrefixed(m.payload)));
  }

  lemma ResponseOf(b: seq<byte>, raw: i32)
    requires Parsed(b).Ok? && Parsed(b).value.msgType == FULL_SERVER_RESPONSE && Parsed(b).value.event == EventOf(raw)
    ensures Classify(b) == Response(I32Bits(raw))
  {
  }

  lemma ResponseMeans(b: seq<byte>)
    requires Parsed(b).Ok? && |b| >= 4 && b[1] / 16 == 0x9
    ensures b[1] % 16 != 4 ==> Classify(b) == Ignored
    ensures b[1] % 16 == 4 ==>
              HeaderEnd(b) + 4 <= |b| && Classify(b) == Response(Word(b, HeaderEnd(b)))
  {
    var raw := FieldsRead(b);
    ResponseOf(b, raw);
    if b[1] % 16 == 4 {
      EventAt(b, Parsed(b).value, raw);
    }
  }

  /** Where the payload of an audio frame starts: after its sequence number, or after its event and
      one identifier; events 1 and 2 have no identifier. */
  predicate PayloadStarts(b: seq<byte>, at: nat)
    requires |b| >= 2
  {
    var flag, fields := b[1] % 16, HeaderEnd(b);
    if flag == 1 || flag == 3 then at == fields + 8
    else if flag != 4 then at == fields + 4
    else if fields + 4 > |b| then false
    else if Word(b, fields) == 1 || Word(b, fields) == 2 then at == fields + 8
    else fields + 8 <= |b| && at == fields + 8 + Word(b, fields + 4) + 4
  }

  lemma AudioMeans(b: seq<byte>) returns (at: nat)
    requires Parsed(b).Ok? && |b| >= 4 && b[1] / 16 == 0xB
    ensures PayloadStarts(b, at) && at <= |b| && Classify(b) == Audio(b[at..])
  {
    var raw := FieldsRead(b);
    TypeMeans(b);
    at := AudioAt(b, Parsed(b).value, raw);
  }

  lemma AudioAt(b: seq<byte>, m: Message, raw: i32) returns (at: nat)
    requires Holds(b, m, raw) && m.msgType == AUDIO_ONLY_SERVER
    ensures PayloadStarts(b, at) && at <= |b| && b[at..] == m.payload
  {
    var fields := HeaderEnd(b);
    if m.flag == WITH_EVENT {
      EventAt(b, m, raw);
      at := AfterIds(b, m, raw);
    } else if HasSequence(m) {
      at := fields + 8;
      NumberedAt(b, m);
    } else {
      at := fields + 4;
      assert [] + ([] + LenPrefixed(m.payload)) == LenPrefixed(m.payload);
      PayloadAt(m.payload, b, fields);
    }
  }

  lemma NumberedAt(b: seq<byte>, m: Message)
    requires |b| >= 4 && HeaderEnd(b) <= |b| && Sized(m)
    requires b[HeaderEnd(b)..] == U32ToBe(I32Bits(m.sequence)) + ([] + LenPrefixed(m.payload))
    ensures HeaderEnd(b) + 8 <= |b| && b[HeaderEnd(b) + 8..] == m.payload
  {
    assert [] + LenPrefixed(m.payload) == LenPrefixed(m.payload);
    WordAt(I32Bits(m.sequence), b, HeaderEnd(b), LenPrefixed(m.payload));
    PayloadAt(m.payload, b, HeaderEnd(b) + 4);
  }

  /** The reader takes no identifier for exactly the events 1 and 2. */
  lemma NoIdFor(m: Message, raw: i32)
    requires m.event == EventOf(raw)
    ensures m.event == START_CONNECTION || m.event == FINISH_CONNECTION <==> I32Bits(raw) == 1 || I32Bits(raw) == 2
  {
  }

  lemma AfterIds(b: seq<byte>, m: Message, raw: i32) returns (at: nat)
    requires Sized(m) && m.event == EventOf(raw)
    requires |b| >= 4 && b[1] % 16 == 4 && HeaderEnd(b) + 4 <= |b| && Word(b, HeaderEnd(b)) == I32Bits(raw)
    requires b[HeaderEnd(b) + 4..] == ReadSessionId(m) + (ReadConnectId(m) + LenPrefixed(m.payload))
    ensures PayloadStarts(b, at) && at <= |b| && b[at..] == m.payload
  {
    var ids, id := HeaderEnd(b) + 4, if CarriesConnectId(m.event) then m.connectId else m.sessionId;
    NoIdFor(m, raw);
    OneId(m);
    if I32Bits(raw) == 1 || I32Bits(raw) == 2 {
      assert b[ids..] == LenPrefixed(m.payload);
      PayloadAt(m.payload, b, ids);
      at := ids + 4;
    } else {
      assert b[ids..] == LenPrefixed(id) + LenPrefixed(m.payload);
      at := AfterId(b, ids, id, m.payload);
    }
  }

  lemma AfterId(b: seq<byte>, ids: nat, id: seq<byte>, payload: seq<byte>) returns (at: nat)
    requires |id| < TWO_32 && |payload| < TWO_32
    requires ids <= |b| && b[ids..] == LenPrefixed(id) + LenPrefixed(payload)
    ensures ids + 4 <= |b| && at == ids + 4 + Word(b, ids) + 4 && at <= |b| && b[at..] == payload
  {
    PrefixedAt(id, b, ids, LenPrefixed(payload));
    PayloadAt(payload, b, ids + 4 + |id|);
    at := ids + 4 + |id| + 4;
  }

  /** At most one identifier precedes the payload. */
  lemma OneId(m: Message)
    requires Sized(m)
    ensures ReadSessionId(m) + (ReadConnectId(m) + LenPrefixed(m.payload)) ==
            if m.event == START_CONNECTION || m.event == FINISH_CONNECTION then LenPrefixed(m.payload)
            else LenPrefixed(if CarriesConnectId(m.event) then m.connectId else m.sessionId) + LenPrefixed(m.payload)
  {
    assert [] + LenPrefixed(m.payload) == LenPrefixed(m.payload);
    var connect := LenPrefixed(m.connectId) + LenPrefixed(m.payload);
    assert [] + connect == connect;
  }

  // ---- Two frames, byte by byte ------------------------------------------------------------------

  /** SessionStarted, with an empty session id and payload. */
  const STARTED: seq<byte> := [0x11, 0x94, 0x10, 0] + ([0, 0, 0, 150] + ([0, 0, 0, 0] + [0, 0, 0, 0]))

  /** An audio frame without samples. */
  const NO_SAMPLES: seq<byte> := [0x11, 0xB0, 0x10, 0] + [0, 0, 0, 0]

  lemma SmallWord(n: byte)
    ensures U32ToBe(n) == [0, 0, 0, n]
  {
  }

  lemma NothingPrefixed()
    ensures LenPrefixed([]) == [0, 0, 0, 0]
  {
    SmallWord(0);
  }

  lemma StartedMeans()
    ensures Classify(STARTED) == SessionUp
  {
    var m := DEFAULT.(msgType := FULL_SERVER_RESPONSE, flag := WITH_EVENT, event := 150);
    StartedEmitted(m);
    EmittedParsed(m, [0], 150, STARTED);
    ResponseOf(STARTED, 150);
  }

  lemma StartedEmitted(m: Message)
    requires m == DEFAULT.(msgType := FULL_SERVER_RESPONSE, flag := WITH_EVENT, event := 150)
    ensures Emit(m, [0], 150) == STARTED
  {
    var last := LenPrefixed(m.payload);
    NothingPrefixed();
    SmallWord(150);
    assert Header(m, [0]) == [0x11, 0x94, 0x10, 0];
    EventFirst(m, 150);
    assert [] + last == last;
  }

  lemma AudioOf(b: seq<byte>)
    requires Parsed(b).Ok? && Parsed(b).value.msgType == AUDIO_ONLY_SERVER
    ensures Classify(b) == Audio(Parsed(b).value.payload)
  {
  }

  /** What is emitted is classified by its message. */
  lemma EmittedParsed(m: Message, pad: seq<byte>, raw: i32, b: seq<byte>)
    requires Readable(m) && |pad| == PadLength(m) && (m.flag == WITH_EVENT ==> m.event == EventOf(raw))
    requires b == Emit(m, pad, raw)
    ensures Parsed(b) == Ok(m)
  {
    ReadsWhatItEmits(m, pad, raw, []);
    assert b + [] == b;
  }

  lemma NoSamplesMeans()
    ensures Classify(NO_SAMPLES) == Audio([])
  {
    var m := DEFAULT.(msgType := AUDIO_ONLY_SERVER);
    NoSamplesEmitted(m);
    EmittedParsed(m, [0], NONE, NO_SAMPLES);
    AudioOf(NO_SAMPLES);
  }

  lemma NoSamplesEmitted(m: Message)
    requires m == DEFAULT.(msgType := AUDIO_ONLY_SERVER)
    ensures Emit(m, [0], NONE) == NO_SAMPLES
  {
    NothingPrefixed();
    assert Header(m, [0]) == [0x11, 0xB0, 0x10, 0];
    assert [] + ([] + LenPrefixed(m.payload)) == LenPrefixed(m.payload);
  }
}
