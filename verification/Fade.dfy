/** Playback toward the caller: the audio ring is drained into media frames, and an interruption
    fades out instead of cutting. */
module Fade {
  import opened Arithmetic
  import opened Bytes
  import opened StreamSplitter

  /** `fade_out_ms * 8000 / 1000` in 32 bits: the product wraps. */
  function FadeSamples(fadeMs: u32): (n: nat)
    ensures n <= 4294967
    ensures fadeMs <= 536870 ==> n == 8 * fadeMs
  {
    fadeMs * 8000 % 0x1_0000_0000 / 1000
  }

  function Abs(x: int): nat {
    if x < 0 then -x else x
  }

  /** `x * gain / total`, truncated toward zero. */
  function Scale(x: i16, gain: nat, total: nat): (y: i16)
    requires gain <= total && total > 0
    ensures Abs(y) <= Abs(x)
  {
    ScaleBound(Abs(x), gain, total);
    if x >= 0 then Abs(x) * gain / total else -(Abs(x) * gain / total)
  }

  lemma ScaleBound(a: nat, gain: nat, total: nat)
    requires gain <= total && total > 0
    ensures 0 <= a * gain / total <= a
    ensures gain == total ==> a * gain / total == a
  {
    var n := a * gain;
    assert n >= 0;
    assert n <= a * total by {
      assert a * total - n == a * (total - gain);
    }
    Quotient(n, total, a);
  }

  /** The `k`-th sample popped since the fade began. */
  function Faded(x: i16, k: nat, total: nat): (y: i16)
    ensures Abs(y) <= Abs(x)
    ensures k >= total ==> y == 0
    ensures k == 0 && total > 0 ==> y == x
  {
    if k >= total then 0
    else
      ScaleBound(Abs(x), total, total);
      Scale(x, total - k, total)
  }

  function FadedFrom(s: seq<i16>, k: nat, total: nat): (r: seq<i16>)
    ensures |r| == |s|
    ensures forall i :: 0 <= i < |s| ==> r[i] == Faded(s[i], k + i, total)
  {
    seq(|s|, i requires 0 <= i < |s| => Faded(s[i], k + i, total))
  }

  // ---- One read ---------------------------------------------------------------------------------

  datatype Playback = Playback(ring: seq<i16>, remaining: nat)

  const RING_CAPACITY := 160_000

  /** Samples that find no room in the ring are dropped. */
  function Fitting(ring: seq<i16>, samples: seq<i16>): seq<i16> {
    samples[..Min(|samples|, if |ring| < RING_CAPACITY then RING_CAPACITY - |ring| else 0)]
  }

  function AfterPush(p: Playback, samples: seq<i16>): Playback {
    p.(ring := p.ring + Fitting(p.ring, samples))
  }

  /** Samples taken from the ring by a read of `n`. */
  function Popped(p: Playback, n: nat): seq<i16> {
    p.ring[..Min(n, |p.ring|)]
  }

  /** What the caller hears of them. */
  function Heard(p: Playback, total: nat, n: nat): seq<i16>
    requires p.remaining <= total
  {
    if p.remaining > 0 then FadedFrom(Popped(p, n), total - p.remaining, total) else Popped(p, n)
  }

  function AfterRead(p: Playback, n: nat): Playback {
    var written := Min(n, |p.ring|);
    if p.remaining > 0 && written > 0 && p.remaining <= written then Playback([], 0)
    else if p.remaining > 0 then Playback(p.ring[written..], p.remaining - written)
    else Playback(p.ring[written..], 0)
  }

  function AfterClear(p: Playback, total: nat): Playback {
    if total > 0 then p.(remaining := total) else p.(ring := [])
  }

  class CallState {
    const fadeOutTotal: nat
    var ring: seq<i16>
    var fadeOutRemaining: nat

    ghost predicate Valid()
      reads this
    {
      fadeOutRemaining <= fadeOutTotal && |ring| <= 160_000
    }

    ghost function Now(): Playback
      reads this
    {
      Playback(ring, fadeOutRemaining)
    }

    constructor (fadeMs: u32)
      ensures Valid() && Now() == Playback([], 0) && fadeOutTotal == FadeSamples(fadeMs)
    {
      fadeOutTotal, ring, fadeOutRemaining := FadeSamples(fadeMs), [], 0;
    }

    /** The synthesizer's side of the ring. */
    method Push(samples: seq<i16>)
      requires Valid()
      modifies this
      ensures Valid() && Now() == AfterPush(old(Now()), samples)
    {
      ring := ring + samples[..Min(|samples|, RING_CAPACITY - |ring|)];
    }

    method ClearTts()
      requires Valid()
      modifies this
      ensures Valid() && Now() == AfterClear(old(Now()), fadeOutTotal)
    {
      if fadeOutTotal > 0 {
        fadeOutRemaining := fadeOutTotal;
      } else {
        ring := [];
      }
    }

    /** `read_frame`: drain the ring into `buf`, then apply the fade in place. */
    method ReadFrame(buf: array<i16>)
      requires Valid()
      modifies this, buf
      ensures Valid() && Now() == AfterRead(old(Now()), buf.Length)
      ensures buf[..] == Heard(old(Now()), fadeOutTotal, buf.Length)
                         + Silence(buf.Length - |Popped(old(Now()), buf.Length)|)
    {
      var written := Pop(buf);
      assert buf[..written] == Popped(old(Now()), buf.Length);
      if fadeOutRemaining > 0 && written > 0 {
        ApplyFade(buf, written);
        if fadeOutRemaining <= written {
          fadeOutRemaining := 0;
          ring := [];
        } else {
          fadeOutRemaining := fadeOutRemaining - written;
        }
      }
      assert buf[..] == buf[..written] + buf[written..];
    }

    method Pop(buf: array<i16>) returns (written: nat)
      modifies this`ring, buf
      ensures written == Min(buf.Length, |old(ring)|) && ring == old(ring)[written..]
      ensures buf[..written] == old(ring)[..written] && buf[written..] == Silence(buf.Length - written)
    {
      written := Min(buf.Length, |ring|);
      for i := 0 to written
        invariant buf[..i] == ring[..i]
        modifies buf
      {
        buf[i] := ring[i];
        assert buf[..i + 1] == buf[..i] + [buf[i]] && ring[..i + 1] == ring[..i] + [ring[i]];
      }
      ring := ring[written..];
      for i := written to buf.Length
        invariant buf[..written] == old(ring)[..written]
        invariant forall j :: written <= j < i ==> buf[j] == 0
        modifies buf
      {
        buf[i] := 0;
      }
    }

    /** Gain on the samples the fade still covers, zero on the rest of those popped. */
    method ApplyFade(buf: array<i16>, written: nat)
      requires Valid() && 0 < fadeOutRemaining && written <= buf.Length
      modifies buf
      ensures buf[..written] == FadedFrom(old(buf[..written]), fadeOutTotal - fadeOutRemaining, fadeOutTotal)
      ensures buf[written..] == old(buf[written..])
    {
      var fadeSamples := Min(written, fadeOutRemaining);
      var k := fadeOutTotal - fadeOutRemaining;
      for i := 0 to fadeSamples
        invariant forall j :: 0 <= j < i ==> buf[j] == Faded(old(buf[j]), k + j, fadeOutTotal)
        invariant forall j :: i <= j < buf.Length ==> buf[j] == old(buf[j])
      {
        buf[i] := Scale(buf[i], fadeOutRemaining - i, fadeOutTotal);
      }
      for i := fadeSamples to written
        invariant forall j :: 0 <= j < i ==> buf[j] == Faded(old(buf[j]), k + j, fadeOutTotal)
        invariant forall j :: i <= j < buf.Length ==> buf[j] == old(buf[j])
      {
        buf[i] := 0;
      }
    }
  }

  // ---- Runs between two calls of clear_tts ---------------------------------------------------------

  datatype Op = Push(samples: seq<i16>) | Read(size: nat)

  /** Where a run ends, what it popped, and what of that was heard. */
  datatype Trace = Trace(p: Playback, popped: seq<i16>, heard: seq<i16>)

  function Run(p: Playback, total: nat, ops: seq<Op>): Trace
    requires p.remaining <= total
    decreases ops
  {
    if ops == [] then Trace(p, [], [])
    else match ops[0]
         case Push(s) => Run(AfterPush(p, s), total, ops[1..])
         case Read(n) =>
           var later := Run(AfterRead(p, n), total, ops[1..]);
           Trace(later.p, Popped(p, n) + later.popped, Heard(p, total, n) + later.heard)
  }

  function Pushed(ops: seq<Op>): seq<i16>
    decreases ops
  {
    if ops == [] then [] else (if ops[0].Push? then ops[0].samples else []) + Pushed(ops[1..])
  }

  function After(p: Playback, op: Op): Playback {
    match op
    case Push(s) => AfterPush(p, s)
    case Read(n) => AfterRead(p, n)
  }

  /** What of it finds room in the ring. */
  function Entered(p: Playback, ops: seq<Op>): seq<i16>
    decreases ops
  {
    if ops == [] then []
    else (if ops[0].Push? then Fitting(p.ring, ops[0].samples) else []) + Entered(After(p, ops[0]), ops[1..])
  }

  /** Everything pushed finds room. */
  predicate Roomy(p: Playback, ops: seq<Op>)
    decreases ops
  {
    ops != [] ==>
      && (ops[0].Push? ==> |p.ring| + |ops[0].samples| <= 160_000)
      && Roomy(After(p, ops[0]), ops[1..])
  }

  /** Only a push that does not fit loses samples, and then its last ones. */
  lemma {:induction false} NothingDropped(p: Playback, ops: seq<Op>)
    requires Roomy(p, ops)
    ensures Entered(p, ops) == Pushed(ops)
    decreases ops
  {
    if ops != [] {
      NothingDropped(After(p, ops[0]), ops[1..]);
    }
  }

  lemma PushKeepsFront(p: Playback, samples: seq<i16>)
    requires |p.ring| <= 160_000
    ensures var q := AfterPush(p, samples);
            && p.ring <= q.ring <= p.ring + samples && |q.ring| <= 160_000
            && (q.ring == p.ring + samples || |q.ring| == 160_000)
  {
    var n := |Fitting(p.ring, samples)|;
    assert (p.ring + samples)[..|p.ring| + n] == p.ring + samples[..n];
  }

  /** The fade is under way until the run ends, except that its last read may complete it. */
  predicate Fading(p: Playback, ops: seq<Op>)
    decreases ops
  {
    p.remaining > 0 &&
    (ops != [] ==>
       match ops[0]
       case Push(s) => Fading(AfterPush(p, s), ops[1..])
       case Read(n) => ops[1..] == [] || Fading(AfterRead(p, n), ops[1..]))
  }

  /** What a gain of `gain / total` makes of a sample, said by multiplication: the product truncated
      toward zero. */
  predicate ScaledBy(x: int, y: int, gain: int, total: int) {
    if x >= 0 then y >= 0 && 0 <= x * gain - y * total < total
    else y <= 0 && 0 <= y * total - x * gain < total
  }

  lemma Negated(a: int, gain: int, q: int, total: int)
    ensures (0 - a) * gain == -(a * gain) && (0 - q) * total == -(q * total)
  {
  }

  /** The quotient of a product, its remainder, and both negated. */
  lemma Truncated(a: nat, gain: nat, total: nat)
    requires total > 0
    ensures a * gain >= 0
    ensures var q := a * gain / total;
            0 <= a * gain - q * total < total && 0 <= (0 - q) * total - (0 - a) * gain < total
  {
    var n := a * gain;
    assert n >= 0;
    Fundamental(n, total);
    Negated(a, gain, n / total, total);
  }

  lemma ScaleMeans(x: i16, gain: nat, total: nat)
    requires gain <= total && total > 0
    ensures ScaledBy(x, Scale(x, gain, total), gain, total)
  {
    Truncated(Abs(x), gain, total);
    ScaleBound(Abs(x), gain, total);
  }

  lemma FadedAppend(a: seq<i16>, b: seq<i16>, k: nat, total: nat)
    ensures FadedFrom(a + b, k, total) == FadedFrom(a, k, total) + FadedFrom(b, k + |a|, total)
  {
  }

  /** What holds of a run during a fade. */
  ghost predicate FadeLaw(p: Playback, total: nat, pushed: seq<i16>, t: Trace)
    requires p.remaining <= total
  {
    && t.heard == FadedFrom(t.popped, total - p.remaining, total)
    && t.p.remaining <= p.remaining
    && (t.p.remaining > 0 ==> t.popped + t.p.ring == p.ring + pushed && |t.popped| == p.remaining - t.p.remaining)
    && (t.p.remaining == 0 ==> t.p.ring == [] && |t.popped| >= p.remaining && t.popped <= p.ring + pushed)
  }

  lemma {:induction false} FadingRun(p: Playback, total: nat, ops: seq<Op>)
    requires p.remaining <= total && Fading(p, ops)
    ensures FadeLaw(p, total, Entered(p, ops), Run(p, total, ops))
    decreases ops
  {
    if ops == [] {
      assert [] + p.ring == p.ring + [];
    } else {
      var rest := ops[1..];
      match ops[0]
      case Push(s) =>
        FadingRun(AfterPush(p, s), total, rest);
        Reassociate(p.ring, Fitting(p.ring, s), Entered(AfterPush(p, s), rest));
      case Read(n) =>
        var next := AfterRead(p, n);
        assert [] + Entered(next, rest) == Entered(next, rest);
        var later := Run(next, total, rest);
        if rest == [] {
          assert Popped(p, n) + [] == Popped(p, n) && Heard(p, total, n) + [] == Heard(p, total, n);
          LastRead(p, total, n);
        } else {
          FadingRun(next, total, rest);
          EarlierRead(p, total, n, Entered(next, rest), later);
        }
    }
  }

  lemma LastRead(p: Playback, total: nat, n: nat)
    requires 0 < p.remaining <= total
    ensures FadeLaw(p, total, [], Trace(AfterRead(p, n), Popped(p, n), Heard(p, total, n)))
  {
    assert Popped(p, n) + p.ring[|Popped(p, n)|..] == p.ring + [];
  }

  /** A read that leaves the fade under way. */
  lemma ReadDuringFade(p: Playback, n: nat)
    requires p.remaining > 0 && AfterRead(p, n).remaining > 0
    ensures Popped(p, n) + AfterRead(p, n).ring == p.ring
    ensures |Popped(p, n)| == p.remaining - AfterRead(p, n).remaining
  {
  }

  lemma EarlierHeard(p: Playback, total: nat, n: nat, popped: seq<i16>)
    requires 0 < p.remaining <= total && AfterRead(p, n).remaining > 0
    ensures AfterRead(p, n).remaining <= total
    ensures Heard(p, total, n) + FadedFrom(popped, total - AfterRead(p, n).remaining, total) ==
            FadedFrom(Popped(p, n) + popped, total - p.remaining, total)
  {
    FadedAppend(Popped(p, n), popped, total - p.remaining, total);
  }

  lemma EarlierRead(p: Playback, total: nat, n: nat, pushed: seq<i16>, later: Trace)
    requires 0 < p.remaining <= total
    requires AfterRead(p, n).remaining > 0 && FadeLaw(AfterRead(p, n), total, pushed, later)
    ensures FadeLaw(p, total, pushed, Trace(later.p, Popped(p, n) + later.popped, Heard(p, total, n) + later.heard))
  {
    var first, left := Popped(p, n), AfterRead(p, n).ring;
    ReadDuringFade(p, n);
    EarlierHeard(p, total, n, later.popped);
    EarlierPopped(p.ring, first, left, pushed, later.popped, later.p.ring);
  }

  /** What was popped first comes before what was popped later, in the same stream. */
  lemma EarlierPopped(ring: seq<i16>, first: seq<i16>, left: seq<i16>, pushed: seq<i16>, popped: seq<i16>, last: seq<i16>)
    requires first + left == ring
    ensures popped + last == left + pushed ==> (first + popped) + last == ring + pushed
    ensures popped <= left + pushed ==> first + popped <= ring + pushed
  {
    if popped + last == left + pushed {
      Regroup(first, popped, last, left, pushed);
    }
    if popped <= left + pushed {
      PrefixCons(first, popped, left + pushed);
      Reassociate(first, left, pushed);
    }
  }

  lemma Regroup(a: seq<i16>, b: seq<i16>, c: seq<i16>, d: seq<i16>, e: seq<i16>)
    requires b + c == d + e
    ensures (a + b) + c == (a + d) + e
  {
    Reassociate(a, b, c);
    Reassociate(a, d, e);
  }

  lemma PrefixCons(a: seq<i16>, b: seq<i16>, c: seq<i16>)
    requires b <= c
    ensures a + b <= a + c
  {
  }

  lemma FadedMeans(popped: seq<i16>, total: nat)
    requires total > 0
    ensures var heard := FadedFrom(popped, 0, total);
            && (forall k :: 0 <= k < |popped| && k < total ==> ScaledBy(popped[k], heard[k], total - k, total))
            && (forall k :: total <= k < |popped| ==> heard[k] == 0)
  {
    forall k | 0 <= k < |popped| && k < total
      ensures ScaledBy(popped[k], FadedFrom(popped, 0, total)[k], total - k, total)
    {
      ScaleMeans(popped[k], total - k, total);
    }
  }

  /** From `clear_tts` until the fade completes, whatever the frame sizes, pushes and underruns: the
      k-th sample popped is scaled by (total - k) / total and the rest of the completing frame is
      zero; completing leaves the ring empty; until then nothing is lost. */
  lemma FadeOut(p: Playback, total: nat, ops: seq<Op>)
    requires total > 0 && Fading(AfterClear(p, total), ops)
    ensures var t := Run(AfterClear(p, total), total, ops);
            && |t.heard| == |t.popped|
            && (forall k :: 0 <= k < |t.popped| && k < total ==> ScaledBy(t.popped[k], t.heard[k], total - k, total))
            && (forall k :: total <= k < |t.popped| ==> t.heard[k] == 0)
            && (forall k :: 0 <= k < |t.popped| ==> Abs(t.heard[k]) <= Abs(t.popped[k]))
            && (t.p.remaining == 0 <==> |t.popped| >= total)
            && (t.p.remaining > 0 ==> t.popped + t.p.ring == p.ring + Entered(AfterClear(p, total), ops))
            && (t.p.remaining == 0 ==> t.p.ring == [])
  {
    FadingRun(AfterClear(p, total), total, ops);
    FadedMeans(Run(AfterClear(p, total), total, ops).popped, total);
  }

  /** Two ways of reading the same audio through a fade agree as far as both go. */
  lemma FrameSizesIrrelevant(p: Playback, total: nat, ops: seq<Op>, ops': seq<Op>)
    requires total > 0 && Fading(AfterClear(p, total), ops) && Fading(AfterClear(p, total), ops')
    requires Entered(AfterClear(p, total), ops) == Entered(AfterClear(p, total), ops')
    requires |Run(AfterClear(p, total), total, ops).popped| <= |Run(AfterClear(p, total), total, ops').popped|
    ensures Run(AfterClear(p, total), total, ops).heard <= Run(AfterClear(p, total), total, ops').heard
  {
    FadingRun(AfterClear(p, total), total, ops);
    FadingRun(AfterClear(p, total), total, ops');
    var a, b := Run(AfterClear(p, total), total, ops), Run(AfterClear(p, total), total, ops');
    ShorterPrefix(a.popped, b.popped, p.ring + Entered(AfterClear(p, total), ops));
    FadedPrefix(a.popped, b.popped, total);
  }

  lemma FadedPrefix(a: seq<i16>, b: seq<i16>, total: nat)
    requires a <= b
    ensures FadedFrom(a, 0, total) <= FadedFrom(b, 0, total)
  {
    assert b == a + b[|a|..];
    FadedAppend(a, b[|a|..], 0, total);
  }

  /** With no fade under way the caller hears the audio as it was pushed. */
  lemma {:induction false} PlainPlayback(p: Playback, total: nat, ops: seq<Op>)
    requires p.remaining == 0
    ensures var t := Run(p, total, ops);
            t.heard == t.popped && t.p.remaining == 0 && t.popped + t.p.ring == p.ring + Entered(p, ops)
    decreases ops
  {
    if ops == [] {
      assert [] + p.ring == p.ring + [];
    } else {
      match ops[0]
      case Push(s) =>
        PlainPlayback(AfterPush(p, s), total, ops[1..]);
        Reassociate(p.ring, Fitting(p.ring, s), Entered(AfterPush(p, s), ops[1..]));
      case Read(n) =>
        var first, next := Popped(p, n), AfterRead(p, n);
        PlainPlayback(next, total, ops[1..]);
        var later := Run(next, total, ops[1..]);
        assert first + p.ring[|first|..] == p.ring;
        assert [] + Entered(next, ops[1..]) == Entered(next, ops[1..]);
        Reassociate(first, p.ring[|first|..], Entered(next, ops[1..]));
        Reassociate(first, later.popped, later.p.ring);
    }
  }

  /** Where no fade is configured an interruption cuts at once: nothing pushed before it is heard. */
  lemma HardCut(p: Playback, ops: seq<Op>)
    requires p.remaining == 0
    ensures var t := Run(AfterClear(p, 0), 0, ops);
            t.heard == t.popped && t.popped + t.p.ring == Entered(AfterClear(p, 0), ops)
  {
    PlainPlayback(AfterClear(p, 0), 0, ops);
    assert [] + Entered(AfterClear(p, 0), ops) == Entered(AfterClear(p, 0), ops);
  }
}
