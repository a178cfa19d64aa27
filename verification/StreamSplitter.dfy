/** Incremental splitting: when does draining a buffer chunk by chunk equal one batch split? */
module StreamSplitter {
  import opened Wrappers

  /** A cut finds the end of the first unit in a buffer, if the buffer holds one. */
  type Cutter<!T> = seq<T> -> Option<nat>

  ghost predicate WellFormed<T(!new)>(cut: Cutter<T>) {
    forall s: seq<T> :: cut(s).Some? ==> 0 < cut(s).value <= |s|
  }

  function Concat<T>(chunks: seq<seq<T>>): seq<T> {
    if chunks == [] then [] else chunks[0] + Concat(chunks[1..])
  }

  datatype Split<T> = Split(units: seq<seq<T>>, rest: seq<T>)

  /** Take units off the front until the buffer holds none. */
  function Drain<T(!new)>(cut: Cutter<T>, s: seq<T>): Split<T>
    requires WellFormed(cut)
    decreases |s|
  {
    if cut(s) == None then Split([], s)
    else
      var n := cut(s).value;
      var later := Drain(cut, s[n..]);
      Split([s[..n]] + later.units, later.rest)
  }

  /** Draining conserves the buffer and leaves no unit in it. */
  lemma {:induction false} DrainConserves<T(!new)>(cut: Cutter<T>, s: seq<T>)
    requires WellFormed(cut)
    ensures Concat(Drain(cut, s).units) + Drain(cut, s).rest == s
    ensures cut(Drain(cut, s).rest) == None
    decreases |s|
  {
    if cut(s) == None {
      assert [] + s == s;
    } else {
      var n := cut(s).value;
      DrainConserves(cut, s[n..]);
      var later := Drain(cut, s[n..]);
      ConcatCons(s[..n], later.units);
      Reassociate(s[..n], Concat(later.units), later.rest);
      Halves(s, n);
    }
  }

  lemma Halves<T>(s: seq<T>, n: nat)
    requires n <= |s|
    ensures s[..n] + s[n..] == s
  {
  }

  lemma ConcatCons<T>(head: seq<T>, tail: seq<seq<T>>)
    ensures Concat([head] + tail) == head + Concat(tail)
  {
    assert ([head] + tail)[1..] == tail;
  }

  lemma Reassociate<T>(a: seq<T>, b: seq<T>, c: seq<T>)
    ensures (a + b) + c == a + (b + c)
  {
  }

  lemma ShorterPrefix<T>(a: seq<T>, b: seq<T>, whole: seq<T>)
    requires a <= whole && b <= whole && |a| <= |b|
    ensures a <= b
  {
  }

  /** Append each chunk to the buffer and drain it. */
  function Feed<T(!new)>(cut: Cutter<T>, buffer: seq<T>, chunks: seq<seq<T>>): Split<T>
    requires WellFormed(cut)
    decreases chunks
  {
    if chunks == [] then Split([], buffer)
    else
      var first := Drain(cut, buffer + chunks[0]);
      var later := Feed(cut, first.rest, chunks[1..]);
      Split(first.units + later.units, later.rest)
  }

  // ---- Stability ----------------------------------------------------------------------

  /** The cut in `s` stays where it is whatever is appended. */
  ghost predicate StableAt<T(!new)>(cut: Cutter<T>, s: seq<T>) {
    forall x: seq<T> :: cut(s).Some? ==> cut(s + x) == cut(s)
  }

  /** Every cut that draining `s` makes is stable. */
  ghost predicate StableThrough<T(!new)>(cut: Cutter<T>, s: seq<T>)
    requires WellFormed(cut)
    decreases |s|
  {
    cut(s).Some? ==> StableAt(cut, s) && StableThrough(cut, s[cut(s).value..])
  }

  lemma {:induction false} AlwaysStable<T(!new)>(cut: Cutter<T>, s: seq<T>)
    requires WellFormed(cut) && forall t: seq<T> :: StableAt(cut, t)
    ensures StableThrough(cut, s)
    decreases |s|
  {
    if cut(s).Some? {
      AlwaysStable(cut, s[cut(s).value..]);
    }
  }

  lemma ConcatAppend<T>(a: seq<seq<T>>, b: seq<seq<T>>)
    ensures Concat(a + b) == Concat(a) + Concat(b)
  {
    if a == [] {
      assert a + b == b;
    } else {
      assert (a + b)[1..] == a[1..] + b;
      ConcatAppend(a[1..], b);
    }
  }

  /** Draining now and later is draining once, if what is drained now is stable. */
  lemma {:induction false} DrainInTwo<T(!new)>(cut: Cutter<T>, s: seq<T>, x: seq<T>)
    requires WellFormed(cut) && StableThrough(cut, s)
    ensures var now := Drain(cut, s);
            var later := Drain(cut, now.rest + x);
            Drain(cut, s + x) == Split(now.units + later.units, later.rest)
    decreases |s|
  {
    if cut(s).Some? {
      var n := cut(s).value;
      assert cut(s + x) == cut(s);
      assert (s + x)[..n] == s[..n] && (s + x)[n..] == s[n..] + x;
      DrainInTwo(cut, s[n..], x);
      var now := Drain(cut, s[n..]);
      Reassociate([s[..n]], now.units, Drain(cut, now.rest + x).units);
    } else {
      assert [] + Drain(cut, s + x).units == Drain(cut, s + x).units;
    }
  }

  /** Chunked processing equals batch processing for a cut that is always stable. */
  lemma {:induction false} FeedIsDrain<T(!new)>(cut: Cutter<T>, buffer: seq<T>, chunks: seq<seq<T>>)
    requires WellFormed(cut) && cut(buffer) == None
    requires forall s: seq<T> :: StableAt(cut, s)
    ensures Feed(cut, buffer, chunks) == Drain(cut, buffer + Concat(chunks))
    decreases chunks
  {
    if chunks == [] {
      assert buffer + [] == buffer;
    } else {
      var s := buffer + chunks[0];
      AlwaysStable(cut, s);
      DrainConserves(cut, s);
      FeedIsDrain(cut, Drain(cut, s).rest, chunks[1..]);
      DrainInTwo(cut, s, Concat(chunks[1..]));
      Reassociate(buffer, chunks[0], Concat(chunks[1..]));
    }
  }

  /** Nothing is lost or reordered, stable or not. */
  lemma {:induction false} FeedConserves<T(!new)>(cut: Cutter<T>, buffer: seq<T>, chunks: seq<seq<T>>)
    requires WellFormed(cut) && cut(buffer) == None
    ensures Concat(Feed(cut, buffer, chunks).units) + Feed(cut, buffer, chunks).rest == buffer + Concat(chunks)
    ensures cut(Feed(cut, buffer, chunks).rest) == None
    decreases chunks
  {
    if chunks == [] {
      assert [] + buffer == buffer + [];
    } else {
      var first := Drain(cut, buffer + chunks[0]);
      DrainConserves(cut, buffer + chunks[0]);
      FeedConserves(cut, first.rest, chunks[1..]);
      var later := Feed(cut, first.rest, chunks[1..]);
      ConcatAppend(first.units, later.units);
      Rebracket(Concat(first.units), Concat(later.units), later.rest, first.rest, Concat(chunks[1..]), buffer, chunks[0]);
    }
  }

  lemma Rebracket<T>(u: seq<T>, v: seq<T>, r: seq<T>, m: seq<T>, c: seq<T>, b: seq<T>, d: seq<T>)
    requires v + r == m + c && u + m == b + d
    ensures (u + v) + r == b + (d + c)
  {
    calc {
      (u + v) + r;
      u + (v + r);
      u + (m + c);
      (u + m) + c;
      (b + d) + c;
      b + (d + c);
    }
  }

  // ---- First occurrence of a pattern -------------------------------------------------------

  predicate MatchAt<T(==)>(s: seq<T>, pattern: seq<T>, i: nat) {
    i + |pattern| <= |s| && s[i..i + |pattern|] == pattern
  }

  /** Position of the first occurrence of `pattern`. */
  function Find<T(==)>(s: seq<T>, pattern: seq<T>): (r: Option<nat>)
    ensures r.Some? ==> MatchAt(s, pattern, r.value)
    ensures forall i: nat :: (r.Some? ==> i < r.value) ==> !MatchAt(s, pattern, i)
  {
    if |s| < |pattern| then None
    else if s[..|pattern|] == pattern then Some(0)
    else
      assert forall i: nat :: i > 0 && i + |pattern| <= |s| ==>
          MatchAt(s, pattern, i) == MatchAt(s[1..], pattern, i - 1) by {
        forall i: nat | i > 0 && i + |pattern| <= |s|
          ensures MatchAt(s, pattern, i) == MatchAt(s[1..], pattern, i - 1)
        {
          MatchInTail(s, pattern, i);
        }
      }
      var later := Find(s[1..], pattern);
      if later.Some? then Some(later.value + 1) else None
  }

  lemma MatchInTail<T>(s: seq<T>, pattern: seq<T>, i: nat)
    requires 0 < i && i + |pattern| <= |s|
    ensures MatchAt(s, pattern, i) == MatchAt(s[1..], pattern, i - 1)
  {
    SliceOfTail(s, i, |pattern|);
  }

  lemma SliceOfTail<T>(s: seq<T>, i: nat, n: nat)
    requires 0 < i && i + n <= |s|
    ensures s[i..i + n] == s[1..][i - 1..i - 1 + n]
  {
    var whole, tail := s[i..i + n], s[1..][i - 1..i - 1 + n];
    assert |whole| == |tail| == n;
    assert forall k :: 0 <= k < n ==> whole[k] == tail[k];
  }

  lemma FindIs<T>(s: seq<T>, pattern: seq<T>, at: nat)
    requires MatchAt(s, pattern, at) && forall i: nat :: i < at ==> !MatchAt(s, pattern, i)
    ensures Find(s, pattern) == Some(at)
  {
  }

  lemma FindStable<T>(s: seq<T>, pattern: seq<T>, x: seq<T>)
    requires Find(s, pattern).Some?
    ensures Find(s + x, pattern) == Find(s, pattern)
  {
    var at := Find(s, pattern).value;
    forall i: nat | i <= at
      ensures MatchAt(s + x, pattern, i) == MatchAt(s, pattern, i)
    {
      assert (s + x)[i..i + |pattern|] == s[i..i + |pattern|];
    }
    FindIs(s + x, pattern, at);
  }
}
