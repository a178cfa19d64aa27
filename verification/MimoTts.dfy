/** The WAV reader of the MIMO provider: a loop over chunks in any order, of any kind. */
module MimoTts {
  import opened Wrappers
  import opened Bytes

  const RIFF: seq<byte> := [0x52, 0x49, 0x46, 0x46]
  const WAVE: seq<byte> := [0x57, 0x41, 0x56, 0x45]
  const FMT: seq<byte> := [0x66, 0x6D, 0x74, 0x20]
  const DATA: seq<byte> := [0x64, 0x61, 0x74, 0x61]

  datatype WavError =
    | UnexpectedEof
    | NotRiff
    | NotWave
    | UnsupportedFormat(n: u16)
    | UnsupportedBits(n: u16)
    | UnsupportedChannels(n: u16)
    | NoDataChunk
    | NoSampleRate

  type Read<+T> = Result<(T, seq<byte>), WavError>

  /** What the chunk loop has seen so far. */
  datatype Seen = Seen(rate: u32, channels: u16, pcm: Option<seq<i16>>)

  function Take(rest: seq<byte>, n: nat): (r: Read<seq<byte>>)
    ensures r.Ok? <==> n <= |rest|
    ensures r.Ok? ==> r.value == (rest[..n], rest[n..])
  {
    if |rest| < n then Err(UnexpectedEof) else Ok((rest[..n], rest[n..]))
  }

  function TakeU16(rest: seq<byte>): Read<u16> {
    if |rest| < 2 then Err(UnexpectedEof) else Ok((LeToU16(rest[..2]), rest[2..]))
  }

  function TakeU32(rest: seq<byte>): Read<u32> {
    if |rest| < 4 then Err(UnexpectedEof) else Ok((LeToU32(rest[..4]), rest[4..]))
  }

  /** Rust's `i32` division rounds toward zero. */
  function Average(l: i16, r: i16): i16 {
    var sum: int := l + r;
    if sum >= 0 then sum / 2 else -(-sum / 2)
  }

  function Downmix(s: seq<i16>): (m: seq<i16>)
    ensures |m| == |s| / 2
  {
    if |s| < 2 then [] else [Average(s[0], s[1])] + Downmix(s[2..])
  }

  function FmtChunk(size: u32, rest: seq<byte>, seen: Seen): Read<Seen> {
    var (format, rest) :- TakeU16(rest);
    if format != 1 then Err(UnsupportedFormat(format))
    else
      var (channels, rest) :- TakeU16(rest);
      var (rate, rest) :- TakeU32(rest);
      var (_, rest) :- TakeU32(rest);
      var (_, rest) :- TakeU16(rest);
      var (bits, rest) :- TakeU16(rest);
      if bits != 16 then Err(UnsupportedBits(bits))
      else
        var (_, rest) :- Take(rest, if size > 16 then size - 16 else 0);
        Ok((seen.(rate := rate, channels := channels), rest))
  }

  function DataChunk(size: u32, rest: seq<byte>, seen: Seen): Read<Seen> {
    var (raw, rest) :- Take(rest, size);
    if seen.channels > 2 then Err(UnsupportedChannels(seen.channels))
    else
      var samples := PcmOfLe(raw);
      Ok((seen.(pcm := Some(if seen.channels == 2 then Downmix(samples) else samples)), rest))
  }

  function Chunk(id: seq<byte>, size: u32, rest: seq<byte>, seen: Seen): (r: Read<Seen>)
    ensures r.Ok? ==> |r.value.1| <= |rest|
  {
    if id == FMT then FmtChunk(size, rest, seen)
    else if id == DATA then DataChunk(size, rest, seen)
    else
      var (_, rest) :- Take(rest, size);
      Ok((seen, rest))
  }

  /** One round of the loop on at least eight bytes. */
  function NextChunk(rest: seq<byte>, seen: Seen): (r: Read<Seen>)
    requires |rest| >= 8
    ensures r.Ok? ==> |r.value.1| <= |rest| - 8
  {
    Chunk(rest[..4], LeToU32(rest[4..8]), rest[8..], seen)
  }

  function Chunks(rest: seq<byte>, seen: Seen): Result<Seen, WavError>
    decreases |rest|
  {
    if |rest| < 4 then Ok(seen)
    else if |rest| < 8 then Err(UnexpectedEof)
    else
      var (seen, rest) :- NextChunk(rest, seen);
      Chunks(rest, seen)
  }

  const START := Seen(0, 0, None)

  function RiffBody(bytes: seq<byte>): Result<seq<byte>, WavError> {
    var (riff, rest) :- Take(bytes, 4);
    if riff != RIFF then Err(NotRiff)
    else
      var (_, rest) :- TakeU32(rest);
      var (wave, rest) :- Take(rest, 4);
      if wave != WAVE then Err(NotWave) else Ok(rest)
  }

  function Finish(seen: Seen): Result<(seq<i16>, u32), WavError> {
    if seen.pcm.None? then Err(NoDataChunk)
    else if seen.rate == 0 then Err(NoSampleRate)
    else Ok((seen.pcm.value, seen.rate))
  }

  function Decoded(bytes: seq<byte>): Result<(seq<i16>, u32), WavError> {
    var body :- RiffBody(bytes);
    var seen :- Chunks(body, START);
    Finish(seen)
  }

  // ---- The reader as it runs ---------------------------------------------------------------

  class Cursor {
    const data: seq<byte>
    var pos: nat

    ghost predicate Valid()
      reads this
    {
      pos <= |data|
    }

    ghost function Rest(): seq<byte>
      requires Valid()
      reads this
    {
      data[pos..]
    }

    constructor (data: seq<byte>)
      ensures Valid() && Rest() == data
    {
      this.data := data;
      pos := 0;
    }

    method ReadExact(n: nat) returns (r: Result<seq<byte>, WavError>)
      requires Valid()
      modifies this
      ensures Valid()
      ensures match Take(old(Rest()), n)
              case Ok((b, rest)) => r == Ok(b) && Rest() == rest
              case Err(e) => r == Err(e) && pos == old(pos)
    {
      if pos + n > |data| {
        return Err(UnexpectedEof);
      }
      assert data[pos..pos + n] == Rest()[..n] && data[pos + n..] == Rest()[n..];
      r := Ok(data[pos..pos + n]);
      pos := pos + n;
    }

    method ReadLeU16() returns (r: Result<u16, WavError>)
      requires Valid()
      modifies this
      ensures Valid()
      ensures match TakeU16(old(Rest()))
              case Ok((n, rest)) => r == Ok(n) && Rest() == rest
              case Err(e) => r == Err(e)
    {
      var b :- ReadExact(2);
      r := Ok(LeToU16(b));
    }

    method ReadLeU32() returns (r: Result<u32, WavError>)
      requires Valid()
      modifies this
      ensures Valid()
      ensures match TakeU32(old(Rest()))
              case Ok((n, rest)) => r == Ok(n) && Rest() == rest
              case Err(e) => r == Err(e)
    {
      var b :- ReadExact(4);
      r := Ok(LeToU32(b));
    }

    /** Skip `n` bytes through a 4096-byte discard buffer. */
    method Skip(n: nat) returns (r: Result<(), WavError>)
      requires Valid()
      modifies this
      ensures Valid()
      ensures if n <= |old(Rest())| then r == Ok(()) && Rest() == old(Rest())[n..] else r == Err(UnexpectedEof)
    {
      ghost var start, before := pos, Rest();
      var remaining := n;
      while remaining > 0
        invariant Valid() && pos == start + (n - remaining)
        invariant before == data[start..]
      {
        var step := if remaining < 4096 then remaining else 4096;
        var _ :- ReadExact(step);
        remaining := remaining - step;
      }
      assert before[n..] == data[start + n..];
      r := Ok(());
    }
  }

  method DecodeWavToPcm(bytes: seq<byte>) returns (r: Result<(seq<i16>, u32), WavError>)
    ensures r == Decoded(bytes)
  {
    var cursor := new Cursor(bytes);
    var _ :- ReadRiff(cursor);
    var seen :- ReadChunks(cursor);
    if seen.pcm.None? { return Err(NoDataChunk); }
    if seen.rate == 0 { return Err(NoSampleRate); }
    r := Ok((seen.pcm.value, seen.rate));
  }

  method ReadRiff(cursor: Cursor) returns (r: Result<(), WavError>)
    requires cursor.Valid()
    modifies cursor
    ensures cursor.Valid()
    ensures match RiffBody(old(cursor.Rest()))
            case Ok(body) => r.Ok? && cursor.Rest() == body
            case Err(e) => r == Err(e)
  {
    var riffId :- cursor.ReadExact(4);
    if riffId != RIFF { return Err(NotRiff); }
    var _ :- cursor.ReadLeU32();
    var waveId :- cursor.ReadExact(4);
    if waveId != WAVE { return Err(NotWave); }
    r := Ok(());
  }

  method ReadChunks(cursor: Cursor) returns (r: Result<Seen, WavError>)
    requires cursor.Valid()
    modifies cursor
    ensures r == Chunks(old(cursor.Rest()), START)
  {
    var seen := START;
    ghost var body := cursor.Rest();
    while true
      invariant cursor.Valid()
      invariant Chunks(body, START) == Chunks(cursor.Rest(), seen)
      decreases |cursor.Rest()|
    {
      ghost var before := cursor.Rest();
      var id := cursor.ReadExact(4);
      if id.Err? {
        break;
      }
      var size :- cursor.ReadLeU32();
      assert before[4..][..4] == before[4..8] && before[4..][4..] == before[8..];
      seen :- ReadChunk(cursor, id.value, size, seen);
    }
    r := Ok(seen);
  }

  method ReadChunk(cursor: Cursor, id: seq<byte>, size: u32, before: Seen) returns (r: Result<Seen, WavError>)
    requires cursor.Valid()
    modifies cursor
    ensures cursor.Valid()
    ensures match Chunk(id, size, old(cursor.Rest()), before)
            case Ok((seen, rest)) => r == Ok(seen) && cursor.Rest() == rest
            case Err(e) => r == Err(e)
  {
    if id == FMT {
      r := ReadFmt(cursor, size, before);
    } else if id == DATA {
      var raw :- cursor.ReadExact(size);
      var samples := PcmOfLe(raw);
      if before.channels == 2 {
        samples := DownmixInPairs(samples);
      } else if before.channels > 2 {
        return Err(UnsupportedChannels(before.channels));
      }
      r := Ok(before.(pcm := Some(samples)));
    } else {
      var _ :- cursor.Skip(size);
      r := Ok(before);
    }
  }

  method ReadFmt(cursor: Cursor, size: u32, before: Seen) returns (r: Result<Seen, WavError>)
    requires cursor.Valid()
    modifies cursor
    ensures cursor.Valid()
    ensures match FmtChunk(size, old(cursor.Rest()), before)
            case Ok((seen, rest)) => r == Ok(seen) && cursor.Rest() == rest
            case Err(e) => r == Err(e)
  {
    var format :- cursor.ReadLeU16();
    if format != 1 { return Err(UnsupportedFormat(format)); }
    var seen := before;
    var channels :- cursor.ReadLeU16();
    seen := seen.(channels := channels);
    var rate :- cursor.ReadLeU32();
    seen := seen.(rate := rate);
    var _ :- cursor.ReadLeU32();
    var _ :- cursor.ReadLeU16();
    var bits :- cursor.ReadLeU16();
    if bits != 16 { return Err(UnsupportedBits(bits)); }
    if size > 16 {
      var _ :- cursor.Skip(size - 16);
    }
    r := Ok(seen);
  }

  method DownmixInPairs(samples: seq<i16>) returns (mono: seq<i16>)
    ensures mono == Downmix(samples)
  {
    mono := [];
    var i := 0;
    while i + 2 <= |samples|
      invariant 0 <= i <= |samples|
      invariant mono + Downmix(samples[i..]) == Downmix(samples)
    {
      assert samples[i..][2..] == samples[i + 2..];
      mono := mono + [Average(samples[i], samples[i + 1])];
      i := i + 2;
    }
  }
}
