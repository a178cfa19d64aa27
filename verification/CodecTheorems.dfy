/** What `marshal` and `unmarshal` mean to each other. */
module CodecTheorems {
  import opened Wrappers
  import opened Bytes
  import opened TtsWsCodec

  // ---- Self-delimiting frames ---------------------------------------------------

  lemma ParsedIsEmission(data: seq<byte>)
    requires Parsed(data).Ok?
    ensures var m := Parsed(data).value;
            && Readable(m) && |Padding(data)| == PadLength(m)
            && m.event == EventOf(EventNumber(data))
            && (m.flag != WITH_EVENT ==> EventNumber(data) == NONE)
            && data == Emit(m, Padding(data), EventNumber(data))
  {
    AcceptsOnlyEmissions(data);
    var e := Emit(Parsed(data).value, Padding(data), EventNumber(data));
    assert e + [] == e;
  }

  /** A frame followed by anything is rejected, and the error counts what follows. */
  lemma TrailingBytesRejected(data: seq<byte>, extra: seq<byte>)
    requires Parsed(data).Ok? && extra != []
    ensures Parsed(data + extra) == Err(UnexpectedTrailing(|extra|))
  {
    ParsedIsEmission(data);
    ReadsWhatItEmits(Parsed(data).value, Padding(data), EventNumber(data), extra);
  }

  // A stage that succeeds on `a + b` either succeeds the same way on `a` alone, or runs out of bytes there.

  ghost predicate Starves<T>(short: Read<T>, long: Read<T>, b: seq<byte>) {
    long.Ok? ==>
      || short == Err(UnexpectedEof)
      || (short.Ok? && short.value.0 == long.value.0 && short.value.1 + b == long.value.1)
  }

  lemma TakeStarves(a: seq<byte>, b: seq<byte>, n: nat)
    ensures Starves(Take(a, n), Take(a + b, n), b)
  {
    if |a| >= n {
      assert (a + b)[..n] == a[..n] && (a + b)[n..] == a[n..] + b;
    }
  }

  lemma TakeU32Starves(a: seq<byte>, b: seq<byte>)
    ensures Starves(TakeU32(a), TakeU32(a + b), b)
  {
    if |a| >= 4 {
      assert (a + b)[..4] == a[..4];
    }
  }

  lemma TakeLenPrefixedStarves(a: seq<byte>, b: seq<byte>)
    ensures Starves(TakeLenPrefixed(a), TakeLenPrefixed(a + b), b)
  {
    TakeU32Starves(a, b);
    if TakeU32(a).Ok? {
      TakeStarves(TakeU32(a).value.1, b, TakeU32(a).value.0);
    }
  }

  lemma TakeIdsStarve(m: Message, a: seq<byte>, b: seq<byte>)
    ensures Starves(TakeIds(m, a), TakeIds(m, a + b), b)
  {
    if m.flag == WITH_EVENT {
      TakeU32Starves(a, b);
      if TakeU32(a).Ok? {
        var (u, a1) := TakeU32(a).value;
        TakeBothIdsStarve(m.(event := EventOf(BitsI32(u))), a1, b);
      }
    }
  }

  lemma TakeBothIdsStarve(m: Message, a: seq<byte>, b: seq<byte>)
    ensures Starves(TakeBothIds(m, a), TakeBothIds(m, a + b), b)
  {
    TakeSessionIdStarves(m, a, b);
    if TakeSessionId(m, a).Ok? {
      var (n, a1) := TakeSessionId(m, a).value;
      TakeConnectIdStarves(n, a1, b);
    }
  }

  lemma TakeSessionIdStarves(m: Message, a: seq<byte>, b: seq<byte>)
    ensures Starves(TakeSessionId(m, a), TakeSessionId(m, a + b), b)
  {
    TakeLenPrefixedStarves(a, b);
  }

  lemma TakeConnectIdStarves(m: Message, a: seq<byte>, b: seq<byte>)
    ensures Starves(TakeConnectId(m, a), TakeConnectId(m, a + b), b)
  {
    TakeLenPrefixedStarves(a, b);
  }

  lemma TakeNumberStarves(m: Message, a: seq<byte>, b: seq<byte>)
    ensures Starves(TakeNumber(m, a), TakeNumber(m, a + b), b)
  {
    TakeU32Starves(a, b);
  }

  lemma TakeBodyStarves(m: Message, a: seq<byte>, b: seq<byte>)
    ensures Starves(TakeBody(m, a), TakeBody(m, a + b), b)
  {
    TakeIdsStarve(m, a, b);
    if TakeIds(m, a).Ok? {
      TakeLenPrefixedStarves(TakeIds(m, a).value.1, b);
    }
  }

  lemma TakeFieldsStarve(m: Message, a: seq<byte>, b: seq<byte>)
    ensures Starves(TakeFields(m, a), TakeFields(m, a + b), b)
  {
    TakeNumberStarves(m, a, b);
    if TakeNumber(m, a).Ok? {
      var (n, a1) := TakeNumber(m, a).value;
      TakeBodyStarves(n, a1, b);
    }
  }

  lemma TakeHeaderStarves(a: seq<byte>, b: seq<byte>)
    requires |a| >= 3
    ensures Starves(TakeHeader(a), TakeHeader(a + b), b)
  {
    assert (a + b)[0] == a[0] && (a + b)[1] == a[1] && (a + b)[2] == a[2];
    assert (a + b)[3..] == a[3..] + b;
    if HeaderOfBytes(a[0], a[1], a[2]).Ok? {
      TakeStarves(a[3..], b, PadLength(HeaderOfBytes(a[0], a[1], a[2]).value));
    }
  }

  /** No proper prefix of a frame is a frame, and the reader says exactly why. */
  lemma ProperPrefixRejected(a: seq<byte>, b: seq<byte>)
    requires Parsed(a + b).Ok? && b != []
    ensures Parsed(a) == Err(if |a| < 3 then HeaderTooShort else UnexpectedEof)
  {
    if |a| >= 3 {
      TakeHeaderStarves(a, b);
      if TakeHeader(a).Ok? {
        var (m, rest) := TakeHeader(a).value;
        TakeFieldsStarve(m, rest, b);
      }
      if Parsed(a).Ok? {
        TrailingBytesRejected(a, b);
      }
    }
  }

  // ---- What reading back a written frame gives -------------------------------------

  predicate ErrorWithEvent(m: Message) {
    m.msgType == ERROR && m.flag == WITH_EVENT
  }

  /** `m` as it comes back: fields that are not on the wire return to their defaults,
      and the session id of ConnectionFinished comes back as a connect id. */
  function ReadBack(m: Message): Message {
    var ids := m.flag == WITH_EVENT;
    m.(event := if ids then m.event else NONE,
       sessionId := if ids && !OmitsSessionIdReader(m.event) then m.sessionId else [],
       connectId := if ids && m.event == CONNECTION_FINISHED then m.sessionId else [],
       sequence := if HasSequence(m) then m.sequence else 0,
       errorCode := if m.msgType == ERROR then m.errorCode else 0)
  }

  /** The writer's frame is, byte for byte, the reader's frame for `ReadBack(m)`. */
  lemma WritesReadBack(m: Message)
    requires Marshalled(m).Ok? && !ErrorWithEvent(m)
    requires m.flag == WITH_EVENT ==> m.event != CONNECTION_STARTED && m.event != CONNECTION_FAILED
    ensures Readable(ReadBack(m))
    ensures Marshalled(m).value == Emit(ReadBack(m), Zeros(PadLength(m)), m.event)
  {
    var pad := Zeros(PadLength(m));
    WritesReadBackIds(m);
    SameHeader(m, ReadBack(m), pad);
    MarshalledIs(m);
    Regroup(Header(m, pad), WrittenIds(m), Number(m), ReadIds(ReadBack(m), m.event), LenPrefixed(m.payload));
  }

  lemma SameHeader(m: Message, n: Message, pad: seq<byte>)
    requires Blank(m) == Blank(n)
    ensures Header(m, pad) == Header(n, pad)
  {
  }

  lemma MarshalledIs(m: Message)
    requires Marshalled(m).Ok?
    ensures WritesSessionId(m) ==> |m.sessionId| < TWO_32
    ensures |m.payload| < TWO_32
    ensures Marshalled(m).value == Header(m, Zeros(PadLength(m))) + WrittenIds(m) + Number(m) + LenPrefixed(m.payload)
  {
  }

  lemma Regroup(h: seq<byte>, w: seq<byte>, n: seq<byte>, r: seq<byte>, p: seq<byte>)
    requires w + n == n + r
    ensures h + w + n + p == h + (n + (r + p))
  {
    assert h + w + n + p == h + (w + n) + p;
  }

  lemma WritesReadBackIds(m: Message)
    requires Marshalled(m).Ok? && !ErrorWithEvent(m)
    requires m.flag == WITH_EVENT ==> m.event != CONNECTION_STARTED && m.event != CONNECTION_FAILED
    ensures Sized(ReadBack(m)) && Number(ReadBack(m)) == Number(m)
    ensures WrittenIds(m) + Number(m) == Number(m) + ReadIds(ReadBack(m), m.event)
  {
    assert ReadIds(ReadBack(m), m.event) == WrittenIds(m);
    assert WrittenIds(m) == [] || Number(m) == [];
  }

  /** Exact outcome of `unmarshal(marshal(m))` for every frame but the error frames with an event. */
  lemma ReadingBack(m: Message)
    requires Marshalled(m).Ok? && !ErrorWithEvent(m)
    ensures Parsed(Marshalled(m).value) ==
            if m.flag == WITH_EVENT && (m.event == CONNECTION_STARTED || m.event == CONNECTION_FAILED)
            then Err(UnexpectedEof)
            else Ok(ReadBack(m))
  {
    if m.flag == WITH_EVENT && (m.event == CONNECTION_STARTED || m.event == CONNECTION_FAILED) {
      PayloadTakenForConnectId(m);
    } else {
      WritesReadBack(m);
      var data := Marshalled(m).value;
      assert data == data + [];
      ReadsWhatItEmits(ReadBack(m), Zeros(PadLength(m)), m.event, []);
    }
  }

  /** ConnectionStarted and ConnectionFailed: the payload is read as the connect id, and no payload is left. */
  lemma PayloadTakenForConnectId(m: Message)
    requires Marshalled(m).Ok? && SeqCapable(m.msgType) && m.flag == WITH_EVENT
    requires m.event == CONNECTION_STARTED || m.event == CONNECTION_FAILED
    ensures Parsed(Marshalled(m).value) == Err(UnexpectedEof)
  {
    var pad, p := Zeros(PadLength(m)), LenPrefixed(m.payload);
    assert Marshalled(m).value == Header(m, pad) + (U32ToBe(m.event) + p);
    TakeHeaderEmitted(m, pad, U32ToBe(m.event) + p);
    PayloadTakenForConnectIdFields(m);
  }

  lemma PayloadTakenForConnectIdFields(m: Message)
    requires |m.payload| < TWO_32 && SeqCapable(m.msgType) && m.flag == WITH_EVENT
    requires m.event == CONNECTION_STARTED || m.event == CONNECTION_FAILED
    ensures TakeFields(Blank(m), U32ToBe(m.event) + LenPrefixed(m.payload)) == Err(UnexpectedEof)
  {
    var p := LenPrefixed(m.payload);
    TakeU32Emitted(m.event, p);
    TakeLenPrefixedEmitted(m.payload, []);
    assert p + [] == p;
    assert TakeLenPrefixed([]) == Err(UnexpectedEof);
  }

  // ---- Error frames with an event: written event first, read error code first --------

  function Repeat(w: seq<byte>, n: nat): (r: seq<byte>)
    ensures |r| == n * |w|
  {
    if n == 0 then [] else w + Repeat(w, n - 1)
  }

  lemma {:induction false} RepeatCommutes(w: seq<byte>, n: nat)
    ensures Repeat(w, n) + w == w + Repeat(w, n)
  {
    if n > 0 {
      RepeatCommutes(w, n - 1);
      assert Repeat(w, n) + w == w + (Repeat(w, n - 1) + w);
    }
  }

  /** A word that moves past `s` unchanged tiles `s`; otherwise it comes out rotated. */
  lemma {:induction false} MovesPast(s: seq<byte>, v: seq<byte>, w: seq<byte>)
    requires |v| == |w| == 4 && s + v == w + s
    ensures v == w[|s| % 4..] + w[..|s| % 4]
    ensures |s| % 4 == 0 ==> s == Repeat(w, |s| / 4)
    decreases |s|
  {
    if |s| < 4 {
      Rotated(s, v, w);
    } else {
      var t := s[4..];
      StripWord(s, v, w);
      MovesPast(t, v, w);
    }
  }

  lemma Rotated(s: seq<byte>, v: seq<byte>, w: seq<byte>)
    requires |v| == |w| == 4 && |s| < 4 && s + v == w + s
    ensures v == w[|s|..] + w[..|s|]
    ensures |s| == 0 ==> s == Repeat(w, 0)
  {
    forall i | 0 <= i < 4
      ensures v[i] == (w[|s|..] + w[..|s|])[i]
    {
      assert v[i] == (s + v)[|s| + i] == (w + s)[|s| + i];
      if |s| + i >= 4 {
        assert s[|s| + i - 4] == (s + v)[|s| + i - 4] == (w + s)[|s| + i - 4];
      }
    }
  }

  lemma StripWord(s: seq<byte>, v: seq<byte>, w: seq<byte>)
    requires |v| == |w| == 4 <= |s| && s + v == w + s
    ensures s == w + s[4..] && s[4..] + v == w + s[4..]
  {
    assert s[..4] == (s + v)[..4] == (w + s)[..4] == w;
    assert (s + v)[4..] == s[4..] + v;
    assert (w + s)[4..] == s;
  }

  lemma SmallWord(n: u32)
    requires n < 0x1_0000
    ensures U32ToBe(n)[0] == 0 && U32ToBe(n)[1] == 0
    ensures U32ToBe(n) == [0, 0, 0, 0] <==> n == 0
  {
    U32BeInverse(n);
    U32BeInverse(0);
  }

  /** `Marshalled` and `Emit` agree on an error frame exactly when these id bytes agree. */
  lemma ErrorFrameEquation(m: Message)
    requires Marshalled(m).Ok? && ErrorWithEvent(m) && Parsed(Marshalled(m).value) == Ok(m)
    ensures Readable(m)
    ensures var raw := EventNumber(Marshalled(m).value);
            && m.event == EventOf(raw)
            && WrittenIds(m) + U32ToBe(m.errorCode) == U32ToBe(m.errorCode) + ReadIds(m, raw)
  {
    var data := Marshalled(m).value;
    ParsedIsEmission(data);
    StripFrame(Header(m, Zeros(PadLength(m))), Header(m, Padding(data)), LenPrefixed(m.payload),
               WrittenIds(m), U32ToBe(m.errorCode), ReadIds(m, EventNumber(data)));
  }

  lemma StripFrame(h: seq<byte>, k: seq<byte>, p: seq<byte>, w: seq<byte>, c: seq<byte>, r: seq<byte>)
    requires |h| == |k| && h + w + c + p == k + (c + (r + p))
    ensures w + c == c + r
  {
    var all := h + w + c + p;
    assert |w| == |r|;
    assert w + c == all[|h|..|all| - |p|];
    assert c + r == all[|h|..|all| - |p|];
  }

  lemma StripEqual(a: seq<byte>, b: seq<byte>, x: seq<byte>, y: seq<byte>)
    requires |a| == |b| && a + x == b + y
    ensures a == b && x == y
  {
    assert a == (a + x)[..|a|] && b == (b + y)[..|a|];
    assert x == (a + x)[|a|..] && y == (b + y)[|a|..];
  }

  function WrittenSessionId(m: Message): seq<byte>
    requires |m.sessionId| < TWO_32
  {
    if WritesSessionId(m) then LenPrefixed(m.sessionId) else []
  }

  lemma ErrorFrameIds(m: Message, raw: i32)
    requires |m.sessionId| < TWO_32 && |m.connectId| < TWO_32 && m.flag == WITH_EVENT
    requires WrittenIds(m) + U32ToBe(m.errorCode) == U32ToBe(m.errorCode) + ReadIds(m, raw)
    ensures m.errorCode == m.event
    ensures WrittenSessionId(m) + U32ToBe(m.event) == ReadIds(m, raw)
  {
    var e, c, s := U32ToBe(m.event), U32ToBe(m.errorCode), WrittenSessionId(m);
    assert WrittenIds(m) + c == e + (s + c);
    StripEqual(e, c, s + c, ReadIds(m, raw));
    SameWord(m.event, m.errorCode);
  }

  lemma ErrorFrameNecessary(m: Message)
    requires Marshalled(m).Ok? && ErrorWithEvent(m) && Parsed(Marshalled(m).value) == Ok(m)
    ensures RoundTrips(m)
  {
    ErrorFrameEquation(m);
    var raw := EventNumber(Marshalled(m).value);
    ErrorFrameIds(m, raw);
    if WritesSessionId(m) {
      SessionIdTiled(m, raw);
    } else {
      assert |ReadIds(m, raw)| == 4;
    }
  }

  lemma SameWord(a: u32, b: u32)
    requires U32ToBe(a) == U32ToBe(b)
    ensures a == b
  {
    U32BeInverse(a);
    U32BeInverse(b);
  }

  lemma SessionIdTiled(m: Message, raw: i32)
    requires Readable(m) && ErrorWithEvent(m) && m.event == EventOf(raw) && WritesSessionId(m)
    requires LenPrefixed(m.sessionId) + U32ToBe(m.event) == ReadIds(m, raw)
    ensures m.event != CONNECTION_FINISHED && m.event % 4 == 0
    ensures m.sessionId == Repeat(U32ToBe(m.event), m.event / 4)
  {
    var s, e, l := m.sessionId, U32ToBe(m.event), U32ToBe(|m.sessionId|);
    var bits := U32ToBe(I32Bits(raw));
    assert LenPrefixed(s) + e == l + (s + e);
    assert ReadIds(m, raw) == bits + (ReadSessionId(m) + ReadConnectId(m));
    StripEqual(l, bits, s + e, ReadSessionId(m) + ReadConnectId(m));
    SameWord(|s|, I32Bits(raw));
    if m.event != CONNECTION_FINISHED {
      assert s + e == l + s;
      MovesPast(s, e, l);
      TiledLength(s, m.event, raw);
    }
  }

  lemma ZeroWord(n: u32)
    requires forall i :: 0 <= i < 4 ==> U32ToBe(n)[i] == 0
    ensures n == 0
  {
    assert U32ToBe(n) == U32ToBe(0);
    SameWord(n, 0);
  }

  lemma TiledLength(s: seq<byte>, event: EventType, raw: i32)
    requires |s| < TWO_32 && |s| == I32Bits(raw) && event == EventOf(raw)
    requires var e, l, r := U32ToBe(event), U32ToBe(|s|), |s| % 4; e == l[r..] + l[..r]
    ensures event == |s| && |s| % 4 == 0
  {
    SmallWord(event);
    if !KnownEvent(raw) {
      var e, l, r := U32ToBe(event), U32ToBe(|s|), |s| % 4;
      forall i | 0 <= i < 4
        ensures l[i] == 0
      {
        assert l[i] == e[if i >= r then i - r else i + 4 - r];
      }
      ZeroWord(|s|);
    } else {
      SmallWord(|s|);
    }
  }

  // ---- The round trips ------------------------------------------------------------------

  /** The messages `marshal` and `unmarshal` preserve: only fields on the wire are set, and the
      event is one for which the two orders of fields agree. An error frame with an event is
      preserved only in the coincidence that its error code equals its event number and its
      session id repeats that number. */
  predicate RoundTrips(m: Message) {
    && m.connectId == []
    && (m.sequence != 0 ==> HasSequence(m))
    && (m.errorCode != 0 ==> m.msgType == ERROR)
    && if m.flag != WITH_EVENT then m.event == NONE && m.sessionId == []
       else
         && m.event != CONNECTION_STARTED && m.event != CONNECTION_FAILED
         && (OmitsSessionIdReader(m.event) ==> m.sessionId == [])
         && (m.msgType == ERROR ==> m.errorCode == m.event && m.event != CONNECTION_FINISHED)
         && (m.msgType == ERROR && !OmitsSessionIdReader(m.event) ==>
               m.event % 4 == 0 && m.sessionId == Repeat(U32ToBe(m.event), m.event / 4))
  }

  lemma RoundTripIds(m: Message)
    requires Marshalled(m).Ok? && RoundTrips(m) && ErrorWithEvent(m)
    ensures Readable(m)
    ensures WrittenIds(m) + Number(m) == Number(m) + ReadIds(m, m.event)
  {
    if !OmitsSessionIdReader(m.event) {
      assert |m.sessionId| == m.event;
      RepeatCommutes(U32ToBe(m.event), m.event / 4);
      WordPastPrefixed(U32ToBe(m.event), m.sessionId);
    }
  }

  lemma WordPastPrefixed(e: seq<byte>, s: seq<byte>)
    requires s + e == e + s
    ensures e + (e + s) + e == e + (e + (e + s))
  {
    assert e + (e + s) + e == e + (e + (s + e));
  }

  lemma MarshalsInReaderOrder(m: Message)
    requires Marshalled(m).Ok? && RoundTrips(m)
    ensures Readable(m) && Marshalled(m).value == Emit(m, Zeros(PadLength(m)), m.event)
  {
    if ErrorWithEvent(m) {
      RoundTripIds(m);
      Regroup(Header(m, Zeros(PadLength(m))), WrittenIds(m), Number(m), ReadIds(m, m.event), LenPrefixed(m.payload));
    } else {
      assert ReadBack(m) == m;
      WritesReadBack(m);
    }
  }

  /** `unmarshal(marshal(m)) == m`, exactly on `RoundTrips`. */
  lemma MarshalRoundTrip(m: Message)
    requires Marshalled(m).Ok?
    ensures Parsed(Marshalled(m).value) == Ok(m) <==> RoundTrips(m)
  {
    if RoundTrips(m) {
      MarshalsInReaderOrder(m);
      var e := Emit(m, Zeros(PadLength(m)), m.event);
      ReadsWhatItEmits(m, Zeros(PadLength(m)), m.event, []);
      assert e + [] == e;
    } else if Parsed(Marshalled(m).value) == Ok(m) {
      if ErrorWithEvent(m) {
        ErrorFrameNecessary(m);
      } else {
        ReadingBack(m);
      }
      assert false;
    }
  }

  /** The bytes the reader does not check are the ones the writer would write. */
  predicate Canonical(data: seq<byte>) {
    Padding(data) == Zeros(|Padding(data)|) && KnownEvent(EventNumber(data))
  }

  /** `marshal(unmarshal(b)) == b`, exactly on canonical frames of preserved messages. */
  lemma UnmarshalRoundTrip(data: seq<byte>)
    requires Parsed(data).Ok?
    ensures Marshalled(Parsed(data).value) == Ok(data)
       <==> Canonical(data) && RoundTrips(Parsed(data).value)
  {
    var m := Parsed(data).value;
    if RoundTrips(m) {
      ParsedIsEmission(data);
      SizedMarshals(m);
      RemarshalsCanonical(m, data);
    } else if Marshalled(m) == Ok(data) {
      MarshalRoundTrip(m);
    }
  }

  lemma RemarshalsCanonical(m: Message, data: seq<byte>)
    requires Marshalled(m).Ok? && RoundTrips(m) && Readable(m) && |Padding(data)| == PadLength(m)
    requires m.event == EventOf(EventNumber(data)) && data == Emit(m, Padding(data), EventNumber(data))
    requires m.flag != WITH_EVENT ==> EventNumber(data) == NONE
    ensures Marshalled(m) == Ok(data) <==> Canonical(data)
  {
    MarshalsInReaderOrder(m);
    EmitInjective(m, Padding(data), EventNumber(data));
  }

  lemma SizedMarshals(m: Message)
    requires Readable(m)
    ensures Marshalled(m).Ok?
  {
  }

  lemma EmitInjective(m: Message, pad: seq<byte>, raw: i32)
    requires Sized(m) && |pad| == PadLength(m)
    requires m.event == EventOf(raw) && (m.flag != WITH_EVENT ==> raw == NONE)
    ensures Emit(m, pad, raw) == Emit(m, Zeros(PadLength(m)), m.event)
       <==> pad == Zeros(PadLength(m)) && KnownEvent(raw)
  {
    var z := Zeros(PadLength(m));
    if Emit(m, pad, raw) == Emit(m, z, m.event) {
      var n, p := Number(m), LenPrefixed(m.payload);
      StripEqual(Header(m, pad), Header(m, z), n + (ReadIds(m, raw) + p), n + (ReadIds(m, m.event) + p));
      StripEqual(n, n, ReadIds(m, raw) + p, ReadIds(m, m.event) + p);
      assert pad == Header(m, pad)[3..] == Header(m, z)[3..] == z;
      if m.flag == WITH_EVENT {
        SameEvent(m, raw);
      }
    }
  }

  lemma SameEvent(m: Message, raw: i32)
    requires Sized(m) && m.flag == WITH_EVENT
    requires ReadIds(m, raw) + LenPrefixed(m.payload) == ReadIds(m, m.event) + LenPrefixed(m.payload)
    ensures raw == m.event
  {
    var a, b := I32Bits(raw), I32Bits(m.event);
    assert U32ToBe(a) == (ReadIds(m, raw) + LenPrefixed(m.payload))[..4];
    assert U32ToBe(b) == (ReadIds(m, m.event) + LenPrefixed(m.payload))[..4];
    SameWord(a, b);
  }

  // ---- Malformed headers --------------------------------------------------------------------------

  predicate GoodType(t: int) {
    t <= 2 || t == 9 || t == 11 || t == 12 || t == 15
  }

  /** The first of the six nibbles, in this order, that is none of its values decides the error. */
  lemma HeaderErrors(b: seq<byte>)
    requires |b| >= 3
    ensures var msgType, flag, version, size := b[1] / 16, b[1] % 16, b[0] / 16, b[0] % 16;
            var serialization, compression := b[2] / 16, b[2] % 16;
            && (!GoodType(msgType) ==> Parsed(b) == Err(UnknownMsgType(msgType)))
            && (GoodType(msgType) ==>
                  && (flag > 4 ==> Parsed(b) == Err(UnknownFlag(flag)))
                  && (flag <= 4 ==>
                        && (version == 0 || version > 4 ==> Parsed(b) == Err(UnknownVersion(version)))
                        && (1 <= version <= 4 ==>
                              && (size == 0 || size > 4 ==> Parsed(b) == Err(UnknownHeaderSize(size)))
                              && (1 <= size <= 4 && serialization !in {0, 1, 3, 15} ==>
                                    Parsed(b) == Err(UnknownSerialization(serialization)))
                              && (1 <= size <= 4 && serialization in {0, 1, 3, 15} && compression !in {0, 1, 15} ==>
                                    Parsed(b) == Err(UnknownCompression(compression))))))
  {
  }

  /** A header that passes, and is complete, of the one type without a layout. */
  lemma NoLayout(b: seq<byte>)
    requires |b| == 4 && b[0] == 0x11 && b[1] < 5 && b[2] == 0x10
    ensures Parsed(b) == Err(UnsupportedMsgType(0))
  {
  }
}
