/** `encode_wav` of the orchestrator against the WAV reader of the MIMO provider. */
module Wav {
  import opened Wrappers
  import opened Bytes
  import opened MimoTts

  // ---- The writer ----------------------------------------------------------------------

  /** The sixteen bytes of a 16-bit PCM fmt chunk. */
  function FmtFields(channels: u16, rate: u32, byteRate: u32, align: u16): seq<byte> {
    U16ToLe(1) + (U16ToLe(channels) + (U32ToLe(rate) + (U32ToLe(byteRate) + (U16ToLe(align) + U16ToLe(16)))))
  }

  /** The one the encoder writes; `u32` arithmetic wraps. */
  function FmtBody(rate: u32): seq<byte> {
    FmtFields(1, rate, rate * 2 % TWO_32, 2)
  }

  function DataSize(audio: seq<i16>): u32 {
    |audio| * 2 % TWO_32
  }

  /** A chunk: identifier, announced size, contents. */
  function ChunkBytes(id: seq<byte>, size: u32, body: seq<byte>): seq<byte> {
    id + (U32ToLe(size) + body)
  }

  function RiffHeader(fileSize: u32): (h: seq<byte>)
    ensures |h| == 12
  {
    RIFF + (U32ToLe(fileSize) + WAVE)
  }

  function TwoChunks(audio: seq<i16>, rate: u32): seq<byte> {
    ChunkBytes(FMT, 16, FmtBody(rate)) + ChunkBytes(DATA, DataSize(audio), LeOfPcm(audio))
  }

  function Encoded(audio: seq<i16>, rate: u32): seq<byte> {
    RiffHeader((36 + DataSize(audio)) % TWO_32) + TwoChunks(audio, rate)
  }

  method EncodeWav(audio: seq<i16>, rate: u32) returns (wav: seq<byte>)
    ensures wav == Encoded(audio, rate)
  {
    var dataSize: u32 := |audio| * 2 % TWO_32;
    var fileSize: u32 := (36 + dataSize) % TWO_32;
    wav := RIFF;
    wav := wav + U32ToLe(fileSize);
    wav := wav + WAVE;
    wav := wav + FMT;
    wav := wav + U32ToLe(16);
    ghost var header := wav;
    assert header == RiffHeader(fileSize) + (FMT + U32ToLe(16));
    var fmt: seq<byte> := WriteFmt(rate);
    wav := wav + fmt;
    wav := wav + DATA;
    wav := wav + U32ToLe(dataSize);
    var pcm := WriteI16Le(audio);
    wav := wav + pcm;
    Assemble(RiffHeader(fileSize), FMT, U32ToLe(16), FmtBody(rate), DATA, U32ToLe(dataSize), LeOfPcm(audio));
  }

  lemma Assemble(h: seq<byte>, f: seq<byte>, n: seq<byte>, b: seq<byte>, d: seq<byte>, s: seq<byte>, p: seq<byte>)
    ensures h + (f + n) + b + d + s + p == h + ((f + (n + b)) + (d + (s + p)))
  {
  }

  lemma SmallWord(n: u16)
    ensures U32ToLe(n) == U16ToLe(n) + [0, 0]
  {
  }

  lemma FmtBytes()
    ensures FmtBody(8000) == [1, 0, 1, 0, 0x40, 0x1F, 0, 0, 0x80, 0x3E, 0, 0, 2, 0, 16, 0]
  {
    SmallWord(8000);
    SmallWord(16000);
    assert U32ToLe(8000) == [0x40, 0x1F, 0, 0] && U32ToLe(16000) == [0x80, 0x3E, 0, 0];
    assert U16ToLe(1) == [1, 0] && U16ToLe(2) == [2, 0] && U16ToLe(16) == [16, 0];
  }

  lemma RiffBytes()
    ensures RiffHeader(38) == [0x52, 0x49, 0x46, 0x46, 38, 0, 0, 0, 0x57, 0x41, 0x56, 0x45]
  {
    SmallWord(38);
  }

  lemma ChunkOf(id: seq<byte>, size: u16, body: seq<byte>)
    ensures ChunkBytes(id, size, body) == id + (U16ToLe(size) + ([0, 0] + body))
  {
    SmallWord(size);
  }

  /** One sample at 8 kHz, byte by byte. */
  lemma OneSampleFile()
    ensures Encoded([0x102], 8000) ==
            [0x52, 0x49, 0x46, 0x46, 38, 0, 0, 0, 0x57, 0x41, 0x56, 0x45]
            + (([0x66, 0x6D, 0x74, 0x20] + ([16, 0] + ([0, 0]
                + [1, 0, 1, 0, 0x40, 0x1F, 0, 0, 0x80, 0x3E, 0, 0, 2, 0, 16, 0])))
               + ([0x64, 0x61, 0x74, 0x61] + ([2, 0] + ([0, 0] + [2, 1]))))
  {
    var audio: seq<i16> := [0x102];
    assert audio[1..] == [];
    assert LeOfPcm(audio) == [2, 1] && DataSize(audio) == 2;
    RiffBytes();
    FmtBytes();
    ChunkOf(FMT, 16, FmtBody(8000));
    ChunkOf(DATA, 2, [2, 1]);
    assert U16ToLe(16) == [16, 0] && U16ToLe(2) == [2, 0];
  }

  method WriteFmt(rate: u32) returns (b: seq<byte>)
    ensures b == FmtBody(rate)
  {
    b := U16ToLe(1);
    b := b + U16ToLe(1);
    b := b + U32ToLe(rate);
    b := b + U32ToLe(rate * 2 % TWO_32);
    b := b + U16ToLe(2);
    b := b + U16ToLe(16);
  }

  // ---- Reading fields off the front -------------------------------------------------------

  lemma TakeFront(a: seq<byte>, rest: seq<byte>)
    ensures Take(a + rest, |a|) == Ok((a, rest))
  {
  }

  lemma TakeU16Front(n: u16, rest: seq<byte>)
    ensures TakeU16(U16ToLe(n) + rest) == Ok((n, rest))
  {
    U16LeInverse(n);
    assert (U16ToLe(n) + rest)[..2] == U16ToLe(n) && (U16ToLe(n) + rest)[2..] == rest;
  }

  lemma TakeU32Front(n: u32, rest: seq<byte>)
    ensures TakeU32(U32ToLe(n) + rest) == Ok((n, rest))
  {
    U32LeInverse(n);
    assert (U32ToLe(n) + rest)[..4] == U32ToLe(n) && (U32ToLe(n) + rest)[4..] == rest;
  }

  lemma NextChunkFront(id: seq<byte>, size: u32, body: seq<byte>, rest: seq<byte>, seen: Seen)
    requires |id| == 4
    ensures |ChunkBytes(id, size, body) + rest| >= 8
    ensures NextChunk(ChunkBytes(id, size, body) + rest, seen) == Chunk(id, size, body + rest, seen)
  {
    var b := ChunkBytes(id, size, body) + rest;
    U32LeInverse(size);
    assert b[..4] == id && b[4..8] == U32ToLe(size) && b[8..] == body + rest;
  }

  lemma FmtFront(channels: u16, rate: u32, byteRate: u32, align: u16, rest: seq<byte>, seen: Seen)
    ensures FmtChunk(16, FmtFields(channels, rate, byteRate, align) + rest, seen) ==
            Ok((seen.(rate := rate, channels := channels), rest))
  {
    var r6 := U16ToLe(16) + rest;
    var r5 := U16ToLe(align) + r6;
    var r4 := U32ToLe(byteRate) + r5;
    var r3 := U32ToLe(rate) + r4;
    var r2 := U16ToLe(channels) + r3;
    FmtNested(U16ToLe(1), U16ToLe(channels), U32ToLe(rate), U32ToLe(byteRate), U16ToLe(align), U16ToLe(16), rest);
    TakeU16Front(1, r2);
    TakeU16Front(channels, r3);
    TakeU32Front(rate, r4);
    TakeU32Front(byteRate, r5);
    TakeU16Front(align, r6);
    TakeU16Front(16, rest);
  }

  lemma FmtNested(a: seq<byte>, b: seq<byte>, c: seq<byte>, d: seq<byte>, e: seq<byte>, f: seq<byte>, rest: seq<byte>)
    ensures (a + (b + (c + (d + (e + f))))) + rest == a + (b + (c + (d + (e + (f + rest)))))
  {
  }

  // ---- The round trip ------------------------------------------------------------------------

  lemma RiffBodyOfHeader(fileSize: u32, body: seq<byte>)
    ensures RiffBody(RiffHeader(fileSize) + body) == Ok(body)
  {
    assert RiffHeader(fileSize) + body == RIFF + (U32ToLe(fileSize) + (WAVE + body));
    TakeFront(RIFF, U32ToLe(fileSize) + (WAVE + body));
    TakeU32Front(fileSize, WAVE + body);
    TakeFront(WAVE, body);
  }

  lemma ReadsDataChunk(samples: seq<i16>, seen: Seen)
    requires 2 * |samples| < TWO_32 && seen.channels <= 2
    ensures Chunks(ChunkBytes(DATA, |LeOfPcm(samples)|, LeOfPcm(samples)), seen) ==
            Ok(seen.(pcm := Some(if seen.channels == 2 then Downmix(samples) else samples)))
  {
    var pcm := LeOfPcm(samples);
    var data := ChunkBytes(DATA, |pcm|, pcm);
    NextChunkFront(DATA, |pcm|, pcm, [], seen);
    assert data + [] == data;
    PcmRoundTrip(samples);
    TakeFront(pcm, []);
    NothingLeft(seen.(pcm := Some(if seen.channels == 2 then Downmix(samples) else samples)));
  }

  lemma NothingLeft(seen: Seen)
    ensures Chunks([], seen) == Ok(seen)
  {
  }

  lemma ReadsFmtChunk(channels: u16, rate: u32, byteRate: u32, align: u16, rest: seq<byte>)
    ensures Chunks(ChunkBytes(FMT, 16, FmtFields(channels, rate, byteRate, align)) + rest, START)
         == Chunks(rest, Seen(rate, channels, None))
  {
    NextChunkFront(FMT, 16, FmtFields(channels, rate, byteRate, align), rest, START);
    FmtFront(channels, rate, byteRate, align, rest, START);
  }

  lemma DecodesEncoded(audio: seq<i16>, rate: u32)
    requires rate > 0 && 2 * |audio| < TWO_32
    ensures Decoded(Encoded(audio, rate)) == Ok((audio, rate))
  {
    RiffBodyOfHeader((36 + DataSize(audio)) % TWO_32, TwoChunks(audio, rate));
    ReadsTwoChunks(audio, rate);
  }

  lemma DataSizeFits(audio: seq<i16>)
    requires 2 * |audio| < TWO_32
    ensures DataSize(audio) == |LeOfPcm(audio)|
  {
    NoWrap(|audio| * 2);
  }

  lemma NoWrap(n: nat)
    requires n < TWO_32
    ensures n % TWO_32 == n
  {
  }

  lemma ReadsTwoChunks(audio: seq<i16>, rate: u32)
    requires 2 * |audio| < TWO_32
    ensures Chunks(TwoChunks(audio, rate), START) == Ok(Seen(rate, 1, Some(audio)))
  {
    DataSizeFits(audio);
    ReadsFmtChunk(1, rate, rate * 2 % TWO_32, 2, ChunkBytes(DATA, DataSize(audio), LeOfPcm(audio)));
    ReadsDataChunk(audio, Seen(rate, 1, None));
  }

  /** A data chunk's size is a `u32`, so no file holds more samples than that. */
  lemma {:induction false} DecodedFits(rest: seq<byte>, seen: Seen)
    requires seen.pcm.Some? ==> 2 * |seen.pcm.value| < TWO_32
    ensures Chunks(rest, seen).Ok? && Chunks(rest, seen).value.pcm.Some? ==>
              2 * |Chunks(rest, seen).value.pcm.value| < TWO_32
    decreases |rest|
  {
    if |rest| >= 8 && NextChunk(rest, seen).Ok? {
      var (next, left) := NextChunk(rest, seen).value;
      DecodedFits(left, next);
    }
  }

  /** `decode_wav_to_pcm(encode_wav(audio, rate)) == (audio, rate)`, exactly when the rate is
      positive and the data size fits its field. */
  lemma WavRoundTrip(audio: seq<i16>, rate: u32)
    ensures Decoded(Encoded(audio, rate)) == Ok((audio, rate)) <==> rate > 0 && 2 * |audio| < TWO_32
  {
    if rate > 0 && 2 * |audio| < TWO_32 {
      DecodesEncoded(audio, rate);
    } else if Decoded(Encoded(audio, rate)) == Ok((audio, rate)) {
      DecodedFits(RiffBody(Encoded(audio, rate)).value, START);
      assert false;
    }
  }

  // ---- Files of one and two channels ------------------------------------------------------------

  function PcmChunks(channels: u16, rate: u32, byteRate: u32, align: u16, samples: seq<i16>): seq<byte>
    requires 2 * |samples| < TWO_32
  {
    ChunkBytes(FMT, 16, FmtFields(channels, rate, byteRate, align))
    + ChunkBytes(DATA, |LeOfPcm(samples)|, LeOfPcm(samples))
  }

  lemma ReadsPcmChunks(channels: u16, rate: u32, byteRate: u32, align: u16, samples: seq<i16>)
    requires 2 * |samples| < TWO_32 && channels <= 2
    ensures Chunks(PcmChunks(channels, rate, byteRate, align, samples), START) ==
            Ok(Seen(rate, channels, Some(if channels == 2 then Downmix(samples) else samples)))
  {
    ReadsFmtChunk(channels, rate, byteRate, align, ChunkBytes(DATA, |LeOfPcm(samples)|, LeOfPcm(samples)));
    ReadsDataChunk(samples, Seen(rate, channels, None));
  }

  lemma DecodesBody(fileSize: u32, body: seq<byte>, rate: u32, channels: u16, pcm: seq<i16>)
    requires rate > 0 && Chunks(body, START) == Ok(Seen(rate, channels, Some(pcm)))
    ensures Decoded(RiffHeader(fileSize) + body) == Ok((pcm, rate))
  {
    RiffBodyOfHeader(fileSize, body);
  }

  /** `mean` is half of `l + r`, truncated toward zero. */
  predicate IsMean(l: int, r: int, mean: int) {
    if l + r >= 0 then 0 <= mean && 0 <= l + r - 2 * mean <= 1
    else mean <= 0 && 0 <= 2 * mean - (l + r) <= 1
  }

  lemma AverageIsMean(l: i16, r: i16)
    ensures IsMean(l, r, Average(l, r))
  {
  }

  /** `mono` holds the means of the pairs of `samples`; an unpaired last sample is dropped. */
  ghost predicate AreMeans(samples: seq<i16>, mono: seq<i16>) {
    |mono| == |samples| / 2
    && forall i :: 0 <= i < |mono| ==> IsMean(samples[2 * i], samples[2 * i + 1], mono[i])
  }

  lemma {:induction false} DownmixIsMeans(samples: seq<i16>)
    ensures AreMeans(samples, Downmix(samples))
  {
    if |samples| >= 2 {
      var mono, later := Downmix(samples), Downmix(samples[2..]);
      DownmixIsMeans(samples[2..]);
      AverageIsMean(samples[0], samples[1]);
      forall i | 0 <= i < |mono|
        ensures IsMean(samples[2 * i], samples[2 * i + 1], mono[i])
      {
        if i > 0 {
          assert IsMean(samples[2..][2 * (i - 1)], samples[2..][2 * (i - 1) + 1], later[i - 1]);
        }
      }
    }
  }

  /** A file of two channels decodes to the means of its pairs, one of fewer to its samples, with any
      byte rate, alignment and file size in its header. */
  lemma ChannelsRead(fileSize: u32, channels: u16, rate: u32, byteRate: u32, align: u16, samples: seq<i16>)
    requires 2 * |samples| < TWO_32 && channels <= 2 && rate > 0
    ensures var r := Decoded(RiffHeader(fileSize) + PcmChunks(channels, rate, byteRate, align, samples));
            && r.Ok? && r.value.1 == rate
            && (channels < 2 ==> r.value.0 == samples)
            && (channels == 2 ==> AreMeans(samples, r.value.0))
  {
    var pcm := if channels == 2 then Downmix(samples) else samples;
    ReadsPcmChunks(channels, rate, byteRate, align, samples);
    DecodesBody(fileSize, PcmChunks(channels, rate, byteRate, align, samples), rate, channels, pcm);
    DownmixIsMeans(samples);
  }

  // ---- Unknown chunks do not matter --------------------------------------------------------------

  /** The loop, started at `seen`, passes position `n` of `rest` between two chunks. */
  ghost predicate Boundary(rest: seq<byte>, seen: Seen, n: nat)
    requires n <= |rest|
    decreases |rest|
  {
    n == 0 ||
    (|rest| >= 8 && NextChunk(rest, seen).Ok? &&
     var (next, left) := NextChunk(rest, seen).value;
     var used := |rest| - |left|;
     used <= n && Boundary(left, next, n - used))
  }

  /** A chunk only looks at the bytes it consumes. */
  lemma ChunkLocal(id: seq<byte>, size: u32, a: seq<byte>, x: seq<byte>, y: seq<byte>, seen: Seen)
    requires Chunk(id, size, a + x, seen).Ok? && |Chunk(id, size, a + x, seen).value.1| == |x|
    ensures Chunk(id, size, a + x, seen).value.1 == x
    ensures Chunk(id, size, a + y, seen) == Ok((Chunk(id, size, a + x, seen).value.0, y))
  {
    if id == FMT {
      FmtLocal(size, a, x, y, seen);
    } else {
      TakeLocal(a, x, y, size);
    }
  }

  lemma TakeLocal(a: seq<byte>, x: seq<byte>, y: seq<byte>, n: nat)
    requires n <= |a|
    ensures Take(a + x, n) == Ok((a[..n], a[n..] + x)) && Take(a + y, n) == Ok((a[..n], a[n..] + y))
  {
    assert (a + x)[..n] == a[..n] == (a + y)[..n];
    assert (a + x)[n..] == a[n..] + x && (a + y)[n..] == a[n..] + y;
  }

  lemma FmtLocal(size: u32, a: seq<byte>, x: seq<byte>, y: seq<byte>, seen: Seen)
    requires FmtChunk(size, a + x, seen).Ok? && |FmtChunk(size, a + x, seen).value.1| == |x|
    ensures FmtChunk(size, a + x, seen).value.1 == x
    ensures FmtChunk(size, a + y, seen) == Ok((FmtChunk(size, a + x, seen).value.0, y))
  {
    FmtAt(size, a + x, seen);
    FmtAt(size, a + y, seen);
    assert (a + x)[..16] == a[..16] == (a + y)[..16];
    assert (a + x)[|a|..] == x && (a + y)[|a|..] == y;
  }

  /** The fmt chunk by position: a pure function of sixteen bytes, then a skip. */
  lemma FmtAt(size: u32, b: seq<byte>, seen: Seen)
    requires |b| >= 16
    ensures var skip := if size > 16 then size - 16 else 0;
            FmtChunk(size, b, seen) ==
            if LeToU16(b[..16][..2]) != 1 then Err(UnsupportedFormat(LeToU16(b[..16][..2])))
            else if LeToU16(b[..16][14..]) != 16 then Err(UnsupportedBits(LeToU16(b[..16][14..])))
            else if |b| < 16 + skip then Err(UnexpectedEof)
            else Ok((seen.(rate := LeToU32(b[..16][4..8]), channels := LeToU16(b[..16][2..4])), b[16 + skip..]))
  {
    assert b[2..][..2] == b[..16][2..4] && b[2..][2..] == b[4..];
    assert b[..16][..2] == b[..2];
    assert b[4..][..4] == b[..16][4..8] && b[4..][4..] == b[8..];
    assert b[8..][4..] == b[12..] && b[12..][2..] == b[14..];
    assert b[14..][..2] == b[..16][14..] && b[14..][2..] == b[16..];
    var skip := if size > 16 then size - 16 else 0;
    assert |b| >= 16 + skip ==> b[16..][skip..] == b[16 + skip..];
  }

  /** Inserting a chunk of any other kind at a chunk boundary changes nothing the loop returns. */
  lemma {:induction false} InsertChunk(rest: seq<byte>, seen: Seen, n: nat, id: seq<byte>, junk: seq<byte>)
    requires n <= |rest| && Boundary(rest, seen, n)
    requires |id| == 4 && id != FMT && id != DATA && |junk| < TWO_32
    ensures Chunks(rest[..n] + (ChunkBytes(id, |junk|, junk) + rest[n..]), seen) == Chunks(rest, seen)
    decreases |rest|
  {
    var extra := ChunkBytes(id, |junk|, junk) + rest[n..];
    var longer := rest[..n] + extra;
    if n == 0 {
      assert longer == ChunkBytes(id, |junk|, junk) + rest;
      NextChunkFront(id, |junk|, junk, rest, seen);
      TakeFront(junk, rest);
    } else {
      var (next, left) := NextChunk(rest, seen).value;
      var used := |rest| - |left|;
      var later := left[..n - used] + (ChunkBytes(id, |junk|, junk) + left[n - used..]);
      NextChunkLocal(rest, seen, used, later);
      InsertedAfter(rest, used, n, ChunkBytes(id, |junk|, junk));
      InsertChunk(left, next, n - used, id, junk);
    }
  }

  lemma InsertedAfter(rest: seq<byte>, used: nat, n: nat, extra: seq<byte>)
    requires used <= n <= |rest|
    ensures rest[..n] + (extra + rest[n..])
         == rest[..used] + (rest[used..][..n - used] + (extra + rest[used..][n - used..]))
  {
  }

  lemma NextChunkLocal(rest: seq<byte>, seen: Seen, used: nat, y: seq<byte>)
    requires |rest| >= 8 && NextChunk(rest, seen).Ok? && used == |rest| - |NextChunk(rest, seen).value.1|
    ensures NextChunk(rest, seen).value.1 == rest[used..]
    ensures |rest[..used] + y| >= 8
    ensures NextChunk(rest[..used] + y, seen) == Ok((NextChunk(rest, seen).value.0, y))
  {
    var a, x, b := rest[8..used], rest[used..], rest[..used] + y;
    assert rest[8..] == a + x && b[8..] == a + y;
    assert b[..4] == rest[..4] && b[4..8] == rest[4..8];
    ChunkLocal(rest[..4], LeToU32(rest[4..8]), a, x, y, seen);
  }

  /** The same for a whole file, after its RIFF header. */
  lemma UnknownChunkIgnored(fileSize: u32, body: seq<byte>, n: nat, id: seq<byte>, junk: seq<byte>)
    requires n <= |body| && Boundary(body, START, n)
    requires |id| == 4 && id != FMT && id != DATA && |junk| < TWO_32
    ensures Decoded(RiffHeader(fileSize) + (body[..n] + (ChunkBytes(id, |junk|, junk) + body[n..])))
         == Decoded(RiffHeader(fileSize) + body)
  {
    RiffBodyOfHeader(fileSize, body);
    RiffBodyOfHeader(fileSize, body[..n] + (ChunkBytes(id, |junk|, junk) + body[n..]));
    InsertChunk(body, START, n, id, junk);
  }
}
