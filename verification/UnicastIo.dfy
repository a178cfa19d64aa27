/** The UDP media path of fswtch_unicast: datagrams, the receive channel, and the staging FIFO. */
module UnicastIo {
  import opened Bytes
  import opened StreamSplitter

  const FRAME_CHANNEL_CAP := 256
  const RECV_BUFFER_CAP_SAMPLES := 81_920
  const UDP_BUF_BYTES := 2048

  // ---- One read -------------------------------------------------------------------------

  datatype Media = Media(channel: seq<seq<i16>>, staging: seq<i16>)

  /** Everything received and not yet taken, oldest first. */
  function Pending(m: Media): seq<i16> {
    m.staging + Concat(m.channel)
  }

  function Overflow(m: Media): nat {
    if |Pending(m)| > RECV_BUFFER_CAP_SAMPLES then |Pending(m)| - RECV_BUFFER_CAP_SAMPLES else 0
  }

  /** The samples a read of `n` drops, and the ones it delivers. */
  function DroppedBy(m: Media): seq<i16> {
    Pending(m)[..Overflow(m)]
  }

  function DeliveredBy(m: Media, n: nat): (d: seq<i16>)
    ensures |d| <= n
  {
    var kept := Pending(m)[Overflow(m)..];
    kept[..Min(|kept|, n)]
  }

  function AfterRead(m: Media, n: nat): Media {
    Media([], Pending(m)[Overflow(m) + |DeliveredBy(m, n)|..])
  }

  function FrameRead(m: Media, n: nat): seq<i16> {
    DeliveredBy(m, n) + Silence(n - |DeliveredBy(m, n)|)
  }

  class CallState {
    var sendTx: seq<seq<i16>>
    var recvRx: seq<seq<i16>>
    var recvBuffer: seq<i16>

    constructor ()
      ensures sendTx == [] && View() == Media([], [])
    {
      sendTx, recvRx, recvBuffer := [], [], [];
    }

    ghost function View(): Media
      reads this
    {
      Media(recvRx, recvBuffer)
    }

    /** Drain the channel, cap the staging buffer oldest-first, fill `buf`, pad with silence. */
    method StageAndFill(buf: array<i16>)
      modifies this`recvRx, this`recvBuffer, buf
      ensures buf[..] == FrameRead(old(View()), buf.Length)
      ensures View() == AfterRead(old(View()), buf.Length)
    {
      ghost var m, n := View(), buf.Length;
      Drain();
      DropOldest();
      ghost var kept := recvBuffer;
      Fill(buf);
      assert recvBuffer == Pending(m)[Overflow(m)..][Min(|kept|, n)..];
    }

    /** `while let Ok(chunk) = try_recv()`. */
    method Drain()
      modifies this`recvRx, this`recvBuffer
      ensures recvRx == [] && recvBuffer == Pending(old(View()))
    {
      ghost var m := View();
      while recvRx != []
        invariant recvBuffer + Concat(recvRx) == Pending(m)
        decreases |recvRx|
      {
        var chunk := recvRx[0];
        recvRx := recvRx[1..];
        assert recvBuffer + (chunk + Concat(recvRx)) == Pending(m);
        recvBuffer := recvBuffer + chunk;
      }
      assert recvBuffer + [] == recvBuffer;
    }

    method DropOldest()
      modifies this`recvBuffer
      ensures var b := old(recvBuffer);
              recvBuffer == if |b| > RECV_BUFFER_CAP_SAMPLES then b[|b| - RECV_BUFFER_CAP_SAMPLES..] else b
    {
      ghost var b, dropped := recvBuffer, 0;
      while |recvBuffer| > RECV_BUFFER_CAP_SAMPLES
        invariant dropped <= |b| && recvBuffer == b[dropped..]
        invariant dropped > 0 ==> |recvBuffer| >= RECV_BUFFER_CAP_SAMPLES
        decreases |recvBuffer|
      {
        recvBuffer := recvBuffer[1..];
        dropped := dropped + 1;
      }
    }

    method Fill(buf: array<i16>)
      modifies this`recvBuffer, buf
      ensures var b, k := old(recvBuffer), Min(|old(recvBuffer)|, buf.Length);
              recvBuffer == b[k..] && buf[..] == b[..k] + Silence(buf.Length - k)
    {
      ghost var b := recvBuffer;
      var available := Min(|recvBuffer|, buf.Length);
      for i := 0 to available
        invariant recvBuffer == b[i..] && buf[..i] == b[..i]
      {
        buf[i] := recvBuffer[0];
        recvBuffer := recvBuffer[1..];
      }
      for i := available to buf.Length
        invariant recvBuffer == b[available..] && buf[..available] == b[..available]
        invariant forall j :: available <= j < i ==> buf[j] == 0
      {
        buf[i] := 0;
      }
      assert buf[..] == buf[..available] + Silence(buf.Length - available);
    }

    /** Forward caller audio to the send task; a full channel drops the frame. */
    method TryEnqueue(samples: seq<i16>)
      modifies this`sendTx
      ensures sendTx == if |old(sendTx)| < 256 then old(sendTx) + [samples] else old(sendTx)
    {
      if |sendTx| < FRAME_CHANNEL_CAP {
        sendTx := sendTx + [samples];
      }
    }
  }

  // ---- Runs: enqueues by the receive task and reads by the media thread, interleaved ---------

  datatype Op = Enqueue(chunk: seq<i16>) | Read(n: nat)

  datatype Taken = Delivered(sample: i16) | Dropped(sample: i16)

  function After(m: Media, op: Op): Media {
    match op
    case Enqueue(chunk) => m.(channel := m.channel + [chunk])
    case Read(n) => AfterRead(m, n)
  }

  function AfterAll(m: Media, ops: seq<Op>): Media
    decreases ops
  {
    if ops == [] then m else AfterAll(After(m, ops[0]), ops[1..])
  }

  function Got(op: Op): seq<i16> {
    if op.Enqueue? then op.chunk else []
  }

  function Received(ops: seq<Op>): seq<i16> {
    if ops == [] then []
    else Got(ops[0]) + Received(ops[1..])
  }

  function AsDropped(s: seq<i16>): (t: seq<Taken>)
    ensures |t| == |s|
  {
    seq(|s|, i requires 0 <= i < |s| => Dropped(s[i]))
  }

  function AsDelivered(s: seq<i16>): (t: seq<Taken>)
    ensures |t| == |s|
  {
    seq(|s|, i requires 0 <= i < |s| => Delivered(s[i]))
  }

  /** The fate of the samples one operation takes out of the FIFO. */
  function Fates(m: Media, op: Op): seq<Taken> {
    if op.Read? then AsDropped(DroppedBy(m)) + AsDelivered(DeliveredBy(m, op.n)) else []
  }

  /** The fate of every sample that has left the FIFO, in the order they left. */
  function Log(m: Media, ops: seq<Op>): seq<Taken>
    decreases ops
  {
    if ops == [] then [] else Fates(m, ops[0]) + Log(After(m, ops[0]), ops[1..])
  }

  function Samples(log: seq<Taken>): (s: seq<i16>)
    ensures |s| == |log|
  {
    seq(|log|, i requires 0 <= i < |log| => log[i].sample)
  }

  /** What the caller hears, silence aside. */
  function Heard(log: seq<Taken>): seq<i16> {
    if log == [] then []
    else (if log[0].Delivered? then [log[0].sample] else []) + Heard(log[1..])
  }

  lemma SamplesOfFates(m: Media, op: Op)
    ensures Samples(Fates(m, op)) == if op.Read? then DroppedBy(m) + DeliveredBy(m, op.n) else []
  {
  }

  lemma SamplesAppend(a: seq<Taken>, b: seq<Taken>)
    ensures Samples(a + b) == Samples(a) + Samples(b)
  {
  }

  lemma StepConserves(m: Media, op: Op)
    ensures Samples(Fates(m, op)) + Pending(After(m, op)) == Pending(m) + Got(op)
  {
    match op
    case Enqueue(chunk) => EnqueueConserves(m, chunk);
    case Read(n) => ReadConserves(m, n);
  }

  lemma EnqueueConserves(m: Media, chunk: seq<i16>)
    ensures Samples(Fates(m, Enqueue(chunk))) + Pending(After(m, Enqueue(chunk))) == Pending(m) + chunk
  {
    ConcatAppend(m.channel, [chunk]);
    assert Concat([chunk]) == chunk;
  }

  lemma ReadConserves(m: Media, n: nat)
    ensures Samples(Fates(m, Read(n))) + Pending(After(m, Read(n))) == Pending(m) + []
  {
    SamplesOfFates(m, Read(n));
    ReadExact(m, n);
  }

  /** Two conserving steps conserve. */
  lemma Chain(out1: seq<i16>, out2: seq<i16>, p0: seq<i16>, p1: seq<i16>, p2: seq<i16>, in1: seq<i16>, in2: seq<i16>)
    requires out1 + p1 == p0 + in1 && out2 + p2 == p1 + in2
    ensures (out1 + out2) + p2 == p0 + (in1 + in2)
  {
    calc {
      (out1 + out2) + p2;
      out1 + (out2 + p2);
      out1 + (p1 + in2);
      (out1 + p1) + in2;
      (p0 + in1) + in2;
      p0 + (in1 + in2);
    }
  }

  /** Conservation: what left, then what is staged, then what is in the channel, is exactly what
      was there plus what was received, in order. */
  lemma {:induction false} Conservation(m: Media, ops: seq<Op>)
    ensures Samples(Log(m, ops)) + Pending(AfterAll(m, ops)) == Pending(m) + Received(ops)
    decreases ops
  {
    if ops == [] {
      assert [] + Pending(m) == Pending(m) + [];
    } else {
      var m1, tail := After(m, ops[0]), ops[1..];
      StepConserves(m, ops[0]);
      Conservation(m1, tail);
      SamplesAppend(Fates(m, ops[0]), Log(m1, tail));
      Chain(Samples(Fates(m, ops[0])), Samples(Log(m1, tail)), Pending(m), Pending(m1),
            Pending(AfterAll(m1, tail)), Got(ops[0]), Received(tail));
    }
  }

  /** A read drops only above the cap, only the oldest, and only down to the cap; it pads with
      silence only when that empties the FIFO. */
  lemma ReadExact(m: Media, n: nat)
    ensures |DroppedBy(m)| == 0 <==> |Pending(m)| <= 81_920
    ensures DroppedBy(m) != [] ==> |Pending(m)| - |DroppedBy(m)| == 81_920
    ensures |FrameRead(m, n)| == n
    ensures DeliveredBy(m, n) <= FrameRead(m, n)
    ensures |DeliveredBy(m, n)| < n ==> Pending(AfterRead(m, n)) == []
    ensures Pending(m) == DroppedBy(m) + DeliveredBy(m, n) + Pending(AfterRead(m, n))
    ensures |Pending(AfterRead(m, n))| <= 81_920
  {
    assert Pending(AfterRead(m, n)) == AfterRead(m, n).staging;
  }

  /** Every read of the run finds at most the cap staged. */
  ghost predicate NeverOverflows(m: Media, ops: seq<Op>)
    decreases ops
  {
    ops == [] ||
    ((ops[0].Read? ==> |Pending(m)| <= 81_920) && NeverOverflows(After(m, ops[0]), ops[1..]))
  }

  lemma {:induction false} HeardAppend(a: seq<Taken>, b: seq<Taken>)
    ensures Heard(a + b) == Heard(a) + Heard(b)
  {
    if a == [] {
      assert a + b == b;
    } else {
      assert (a + b)[0] == a[0] && (a + b)[1..] == a[1..] + b;
      HeardAppend(a[1..], b);
      var h := if a[0].Delivered? then [a[0].sample] else [];
      assert h + (Heard(a[1..]) + Heard(b)) == (h + Heard(a[1..])) + Heard(b);
    }
  }

  lemma {:induction false} HeardOfDropped(d: seq<i16>)
    ensures Heard(AsDropped(d)) == []
  {
    if d != [] {
      assert AsDropped(d)[1..] == AsDropped(d[1..]);
      HeardOfDropped(d[1..]);
    }
  }

  lemma {:induction false} HeardOfDelivered(s: seq<i16>)
    ensures Heard(AsDelivered(s)) == s
  {
    if s != [] {
      assert AsDelivered(s)[1..] == AsDelivered(s[1..]);
      HeardOfDelivered(s[1..]);
    }
  }

  lemma HeardOfFates(m: Media, op: Op)
    ensures Heard(Fates(m, op)) == if op.Read? then DeliveredBy(m, op.n) else []
  {
    if op.Read? {
      HeardAppend(AsDropped(DroppedBy(m)), AsDelivered(DeliveredBy(m, op.n)));
      HeardOfDropped(DroppedBy(m));
      HeardOfDelivered(DeliveredBy(m, op.n));
    }
  }

  /** While the reader keeps up, the caller hears the received stream itself, in order. */
  lemma {:induction false} LosslessWhileKeepingUp(m: Media, ops: seq<Op>)
    requires NeverOverflows(m, ops)
    ensures Heard(Log(m, ops)) + Pending(AfterAll(m, ops)) == Pending(m) + Received(ops)
    decreases ops
  {
    if ops == [] {
      assert [] + Pending(m) == Pending(m) + [];
    } else {
      var m1, tail := After(m, ops[0]), ops[1..];
      StepConserves(m, ops[0]);
      SamplesOfFates(m, ops[0]);
      HeardOfFates(m, ops[0]);
      assert Heard(Fates(m, ops[0])) == Samples(Fates(m, ops[0]));
      LosslessWhileKeepingUp(m1, tail);
      HeardAppend(Fates(m, ops[0]), Log(m1, tail));
      Chain(Heard(Fates(m, ops[0])), Heard(Log(m1, tail)), Pending(m), Pending(m1),
            Pending(AfterAll(m1, tail)), Got(ops[0]), Received(tail));
    }
  }

  /** The frames carry exactly the heard samples; the rest of a frame is silence, and only where
      the FIFO could not supply it. */
  lemma {:induction false} FramesCarryHeard(m: Media, ops: seq<Op>)
    ensures Heard(Log(m, ops)) == HeardInFrames(m, ops)
    decreases ops
  {
    if ops != [] {
      var m1, tail := After(m, ops[0]), ops[1..];
      FramesCarryHeard(m1, tail);
      HeardOfFates(m, ops[0]);
      HeardAppend(Fates(m, ops[0]), Log(m1, tail));
      if ops[0].Enqueue? {
        assert [] + HeardInFrames(m1, tail) == HeardInFrames(m1, tail);
      }
    }
  }

  /** The frames with their silence cut off: a frame of `n` keeps what the FIFO could supply. */
  function HeardInFrames(m: Media, ops: seq<Op>): seq<i16>
    decreases ops
  {
    if ops == [] then []
    else if ops[0].Enqueue? then HeardInFrames(After(m, ops[0]), ops[1..])
    else
      var supply := Min(Min(|Pending(m)|, RECV_BUFFER_CAP_SAMPLES), ops[0].n);
      FrameRead(m, ops[0].n)[..supply] + HeardInFrames(After(m, ops[0]), ops[1..])
  }

  // ---- Datagrams --------------------------------------------------------------------------

  datatype Datagram = Datagram(source: nat, bytes: seq<byte>)

  /** What the receive task forwards: datagrams of the peer only, cut to its buffer, as samples. */
  function Accepted(remote: nat, ds: seq<Datagram>): seq<seq<i16>> {
    if ds == [] then []
    else
      (if ds[0].source == remote then [PcmOfLe(ds[0].bytes[..Min(|ds[0].bytes|, UDP_BUF_BYTES)])] else [])
      + Accepted(remote, ds[1..])
  }

  function FromPeer(remote: nat, ds: seq<Datagram>): seq<seq<byte>> {
    if ds == [] then []
    else (if ds[0].source == remote then [ds[0].bytes] else []) + FromPeer(remote, ds[1..])
  }

  /** Whatever strangers send in between, the peer's frames arrive as written, provided each fits
      the receive buffer. */
  lemma {:induction false} PeerFramesArrive(remote: nat, ds: seq<Datagram>, frames: seq<seq<i16>>)
    requires |FromPeer(remote, ds)| == |frames|
    requires forall i :: 0 <= i < |frames| ==>
               FromPeer(remote, ds)[i] == LeOfPcm(frames[i]) && 2 * |frames[i]| <= 2048
    ensures Accepted(remote, ds) == frames
  {
    if ds != [] {
      var sent, later := FromPeer(remote, ds), FromPeer(remote, ds[1..]);
      if ds[0].source == remote {
        assert sent[0] == ds[0].bytes == LeOfPcm(frames[0]);
        assert sent[1..] == later;
        assert forall i :: 0 <= i < |later| ==> later[i] == sent[i + 1];
        PcmRoundTrip(frames[0]);
        assert ds[0].bytes[..|ds[0].bytes|] == ds[0].bytes;
        PeerFramesArrive(remote, ds[1..], frames[1..]);
      } else {
        assert sent == later;
        PeerFramesArrive(remote, ds[1..], frames);
      }
    }
  }
}
