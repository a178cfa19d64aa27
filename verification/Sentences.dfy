/** The orchestrator's sentence splitter over streamed text deltas. */
module Sentences {
  import opened Wrappers
  import opened Chars
  import opened StreamSplitter

  // ---- The boundary -----------------------------------------------------------------------

  /** Ends a sentence wherever it stands: ideographic full stop, full-width ! and ?, newline. */
  predicate AlwaysEnds(c: char) {
    c == '\U{3002}' || c == '\U{FF01}' || c == '\U{FF1F}' || c == '\n'
  }

  predicate IsTerminator(c: char) {
    c == '.' || c == '!' || c == '?'
  }

  predicate IsBreak(c: char) {
    c == ' ' || c == '\n' || c == '\t' || c == '\r'
  }

  /** A terminator counts only before a break, which it takes along, or at the end of the text. */
  function Boundary(text: string): Option<nat> {
    if text == [] then None
    else if AlwaysEnds(text[0]) then Some(1)
    else if IsTerminator(text[0]) && |text| == 1 then Some(1)
    else if IsTerminator(text[0]) && IsBreak(text[1]) then Some(2)
    else
      var later := Boundary(text[1..]);
      if later.Some? then Some(later.value + 1) else None
  }

  lemma BoundaryShift(text: string, i: nat)
    requires i < |text|
    ensures text[i..][0] == text[i] && text[i..][1..] == text[i + 1..]
    ensures i + 1 < |text| ==> text[i..][1] == text[i + 1]
  {
  }

  /** The first character alone, or with its successor, ends a sentence. */
  function EndsHere(text: string, i: nat): Option<nat>
    requires i < |text|
  {
    if AlwaysEnds(text[i]) then Some(1)
    else if !IsTerminator(text[i]) then None
    else if i + 1 == |text| then Some(1)
    else if IsBreak(text[i + 1]) then Some(2)
    else None
  }

  lemma BoundaryFrom(text: string, i: nat)
    requires i < |text|
    ensures Boundary(text[i..]) ==
            if EndsHere(text, i).Some? then EndsHere(text, i)
            else match Boundary(text[i + 1..]) case None => None case Some(n) => Some(n + 1)
  {
    BoundaryShift(text, i);
  }

  method EndOfSentence(text: string, i: nat) returns (r: Option<nat>)
    requires i < |text|
    ensures r == EndsHere(text, i)
  {
    var ch := text[i];
    if AlwaysEnds(ch) {
      return Some(1);
    }
    if IsTerminator(ch) {
      if i + 1 == |text| {
        return Some(1);
      }
      if IsBreak(text[i + 1]) {
        return Some(2);
      }
    }
    r := None;
  }

  /** The first position where a sentence ends decides. */
  lemma {:induction false} FirstEnd(text: string, from: nat, i: nat)
    requires from <= i <= |text| && forall j :: from <= j < i ==> EndsHere(text, j) == None
    ensures i == |text| ==> Boundary(text[from..]) == None
    ensures i < |text| && EndsHere(text, i).Some? ==> Boundary(text[from..]) == Some(i - from + EndsHere(text, i).value)
    decreases i - from
  {
    if from < |text| {
      BoundaryFrom(text, from);
    }
    if from < i {
      FirstEnd(text, from + 1, i);
    }
  }

  method FindSentenceBoundary(text: string) returns (r: Option<nat>)
    ensures r == Boundary(text)
  {
    var i := 0;
    assert text[0..] == text;
    while i < |text|
      invariant 0 <= i <= |text|
      invariant forall j :: 0 <= j < i ==> EndsHere(text, j) == None
    {
      var end := EndOfSentence(text, i);
      if end != None {
        FirstEnd(text, 0, i);
        return Some(i + end.value);
      }
      i := i + 1;
    }
    FirstEnd(text, 0, i);
    r := None;
  }

  /** A sentence ends at an ideographic full stop, a full-width exclamation or question mark and a line
      feed, and at '.', '!' and '?' before a blank, line feed, tab or carriage return, or at the end. */
  predicate EndsAt(text: string, i: nat)
    requires i < |text|
  {
    var code := text[i] as int;
    || code == 0x3002 || code == 0xFF01 || code == 0xFF1F || code == 0x0A
    || ((code == 0x2E || code == 0x21 || code == 0x3F) && (i + 1 == |text| || BreaksAt(text, i + 1)))
  }

  predicate BreaksAt(text: string, i: nat)
    requires i < |text|
  {
    var code := text[i] as int;
    code == 0x20 || code == 0x0A || code == 0x09 || code == 0x0D
  }

  lemma EndsHereMeans(text: string, i: nat)
    requires i < |text|
    ensures EndsHere(text, i) ==
            if !EndsAt(text, i) then None
            else if text[i] as int < 0x80 && text[i] != '\n' && i + 1 < |text| then Some(2)
            else Some(1)
  {
  }

  /** The first boundary of a text is right after the first character at which a sentence ends, taking
      along the break that follows an ASCII one. */
  lemma FirstBoundary(text: string, i: nat)
    requires i <= |text| && forall j :: 0 <= j < i ==> !EndsAt(text, j)
    requires i < |text| ==> EndsAt(text, i)
    ensures Boundary(text) ==
            if i == |text| then None
            else if text[i] as int < 0x80 && text[i] != '\n' && i + 1 < |text| then Some(i + 2)
            else Some(i + 1)
  {
    forall j | 0 <= j < i
      ensures EndsHere(text, j) == None
    {
      EndsHereMeans(text, j);
    }
    if i < |text| {
      EndsHereMeans(text, i);
    }
    FirstEnd(text, 0, i);
    assert text[0..] == text;
  }

  lemma {:induction false} BoundaryInside(text: string)
    ensures Boundary(text).Some? ==> 0 < Boundary(text).value <= |text|
  {
    if text != [] {
      BoundaryInside(text[1..]);
    }
  }

  lemma BoundaryWellFormed()
    ensures WellFormed(Boundary)
  {
    forall s: string
      ensures Boundary(s).Some? ==> 0 < Boundary(s).value <= |s|
    {
      BoundaryInside(s);
    }
  }

  predicate EndsInTerminator(text: string) {
    text != [] && IsTerminator(text[|text| - 1])
  }

  /** Only a terminator at the very end of the text gives a boundary that more text can undo. */
  lemma {:induction false} BoundaryStable(text: string, more: string)
    requires !EndsInTerminator(text) && Boundary(text).Some?
    ensures Boundary(text + more) == Boundary(text)
  {
    assert (text + more)[0] == text[0];
    assert (text + more)[1..] == text[1..] + more;
    if Boundary(text).value > 2 || (|text| > 1 && Boundary(text[1..]).Some?) {
      BoundaryStable(text[1..], more);
    }
  }

  lemma {:induction false} NoBoundaryNoTerminator(text: string)
    requires Boundary(text) == None
    ensures !EndsInTerminator(text)
  {
    if |text| > 1 {
      NoBoundaryNoTerminator(text[1..]);
    }
  }

  lemma {:induction false} DrainStable(text: string)
    requires WellFormed(Boundary) && !EndsInTerminator(text)
    ensures StableThrough(Boundary, text)
    decreases |text|
  {
    if Boundary(text).Some? {
      forall more: string
        ensures Boundary(text + more) == Boundary(text)
      {
        BoundaryStable(text, more);
      }
      DrainStable(text[Boundary(text).value..]);
    }
  }

  // ---- The splitter as it runs ----------------------------------------------------------------

  /** The sentences handed to the synthesizer: blank ones are dropped. */
  function Spoken(sentences: seq<string>): seq<string> {
    if sentences == [] then []
    else (if IsBlank(sentences[0]) then [] else [sentences[0]]) + Spoken(sentences[1..])
  }

  lemma {:induction false} SpokenAppend(a: seq<string>, b: seq<string>)
    ensures Spoken(a + b) == Spoken(a) + Spoken(b)
  {
    if a == [] {
      assert a + b == b;
    } else {
      assert (a + b)[1..] == a[1..] + b;
      SpokenAppend(a[1..], b);
    }
  }

  /** All sentences of a text at once, and what is left. */
  function Batch(text: string): Split<char> {
    BoundaryWellFormed();
    Drain(Boundary, text)
  }

  /** The sentences of a text that arrives in deltas. */
  function Streamed(buffer: string, deltas: seq<string>): Split<char> {
    BoundaryWellFormed();
    Feed(Boundary, buffer, deltas)
  }

  lemma BatchStep(text: string)
    requires Boundary(text).Some?
    ensures var n := Boundary(text).value;
            0 < n <= |text| && Batch(text) == Split([text[..n]] + Batch(text[n..]).units, Batch(text[n..]).rest)
  {
    BoundaryInside(text);
  }

  function Before(sentences: seq<string>, n: nat): seq<string> {
    if n < |sentences| then sentences[..n] else sentences
  }

  lemma BeforeSnoc(sentences: seq<string>, sentence: string, n: nat)
    ensures Before(sentences + [sentence], n) ==
            if |sentences| < n then Before(sentences, n) + [sentence] else Before(sentences, n)
  {
  }

  class Splitter {
    var buffer: string

    constructor ()
      ensures buffer == ""
    {
      buffer := "";
    }

    /** `on_text_delta`: append, then drain sentence by sentence. The cancellation token is found
        cancelled from the sentence numbered `cancelledAt` on; draining goes on regardless. */
    method OnTextDelta(delta: string, cancelledAt: nat) returns (spoken: seq<string>)
      modifies this
      ensures spoken == Spoken(Before(Batch(old(buffer) + delta).units, cancelledAt))
      ensures buffer == Batch(old(buffer) + delta).rest
    {
      buffer := buffer + delta;
      ghost var whole := Batch(buffer);
      ghost var done: seq<string> := [];
      spoken := [];
      var drained := 0;
      while true
        invariant drained == |done|
        invariant whole == Split(done + Batch(buffer).units, Batch(buffer).rest)
        invariant spoken == Spoken(Before(done, cancelledAt))
        decreases |buffer|
      {
        var sentence := TakeSentence();
        if sentence == None {
          break;
        }
        OneMore(done, sentence.value, Batch(buffer).units, cancelledAt);
        done := done + [sentence.value];
        var cancelled := drained >= cancelledAt;
        drained := drained + 1;
        if IsBlank(sentence.value) || cancelled {
          continue;
        }
        spoken := spoken + [sentence.value];
      }
      assert done + [] == done;
    }

    method TakeSentence() returns (sentence: Option<string>)
      modifies this
      ensures sentence == None ==> buffer == old(buffer) && Batch(buffer) == Split([], buffer)
      ensures sentence.Some? ==>
                && |buffer| < |old(buffer)|
                && Batch(old(buffer)) == Split([sentence.value] + Batch(buffer).units, Batch(buffer).rest)
    {
      var boundary := FindSentenceBoundary(buffer);
      if boundary == None {
        return None;
      }
      BatchStep(buffer);
      sentence := Some(buffer[..boundary.value]);
      buffer := buffer[boundary.value..];
    }
  }

  lemma OneMore(done: seq<string>, sentence: string, later: seq<string>, n: nat)
    ensures done + ([sentence] + later) == (done + [sentence]) + later
    ensures Spoken(Before(done + [sentence], n)) ==
            if |done| < n && !IsBlank(sentence) then Spoken(Before(done, n)) + [sentence] else Spoken(Before(done, n))
  {
    Reassociate(done, [sentence], later);
    BeforeSnoc(done, sentence, n);
    if |done| < n {
      SpokenAppend(Before(done, n), [sentence]);
      SpokenOne(sentence);
      assert Spoken(Before(done, n)) + [] == Spoken(Before(done, n));
    }
  }

  lemma SpokenOne(sentence: string)
    ensures Spoken([sentence]) == if IsBlank(sentence) then [] else [sentence]
  {
    assert [sentence][1..] == [];
  }

  // ---- Independence of the cuts between deltas ---------------------------------------------------

  /** No delta ends in an ASCII terminator unless nothing follows it. */
  ghost predicate Harmless(deltas: seq<string>) {
    deltas == [] ||
    ((EndsInTerminator(deltas[0]) ==> Concat(deltas[1..]) == []) && Harmless(deltas[1..]))
  }

  lemma BatchConserves(text: string)
    ensures Concat(Batch(text).units) + Batch(text).rest == text
    ensures Boundary(Batch(text).rest) == None
  {
    BoundaryWellFormed();
    DrainConserves(Boundary, text);
  }

  /** A text that does not end in a terminator can be drained before the rest arrives. */
  lemma BatchInTwo(text: string, more: string)
    requires !EndsInTerminator(text)
    ensures var now := Batch(text);
            var later := Batch(now.rest + more);
            Batch(text + more) == Split(now.units + later.units, later.rest)
  {
    BoundaryWellFormed();
    DrainStable(text);
    DrainInTwo(Boundary, text, more);
  }

  lemma StreamedStep(buffer: string, deltas: seq<string>)
    requires deltas != []
    ensures var now := Batch(buffer + deltas[0]);
            var later := Streamed(now.rest, deltas[1..]);
            Streamed(buffer, deltas) == Split(now.units + later.units, later.rest)
  {
  }

  lemma {:induction false} EmptyDeltas(buffer: string, deltas: seq<string>)
    requires Boundary(buffer) == None && Concat(deltas) == []
    ensures Streamed(buffer, deltas) == Split([], buffer)
    ensures Harmless(deltas)
  {
    if deltas != [] {
      assert deltas[0] == [] && Concat(deltas[1..]) == [];
      assert buffer + deltas[0] == buffer;
      EmptyDeltas(buffer, deltas[1..]);
    }
  }

  lemma LastDelta(buffer: string, deltas: seq<string>)
    requires deltas != [] && Concat(deltas[1..]) == []
    ensures Streamed(buffer, deltas) == Batch(buffer + deltas[0])
  {
    BatchConserves(buffer + deltas[0]);
    StreamedStep(buffer, deltas);
    EmptyDeltas(Batch(buffer + deltas[0]).rest, deltas[1..]);
    assert Batch(buffer + deltas[0]).units + [] == Batch(buffer + deltas[0]).units;
  }

  lemma {:induction false} HarmlessIsBatch(buffer: string, deltas: seq<string>)
    requires Boundary(buffer) == None && Harmless(deltas)
    ensures Streamed(buffer, deltas) == Batch(buffer + Concat(deltas))
    decreases deltas
  {
    if deltas == [] {
      assert buffer + [] == buffer;
    } else {
      var text, tail := buffer + deltas[0], Concat(deltas[1..]);
      Reassociate(buffer, deltas[0], tail);
      if tail == [] {
        assert text + [] == text;
        LastDelta(buffer, deltas);
      } else {
        NoBoundaryNoTerminator(buffer);
        LastOfSuffix(buffer, deltas[0]);
        BatchInTwo(text, tail);
        StreamedStep(buffer, deltas);
        BatchConserves(text);
        HarmlessIsBatch(Batch(text).rest, deltas[1..]);
      }
    }
  }

  /** Where `units` cut the text they concatenate to. */
  ghost predicate CutsAt(units: seq<string>, p: nat) {
    exists k :: 0 <= k <= |units| && |Concat(units[..k])| == p
  }

  lemma CutsAtCons(head: string, later: seq<string>, p: nat)
    requires CutsAt([head] + later, p) && p > 0
    ensures p == |head| || (p > |head| && CutsAt(later, p - |head|))
  {
    var units := [head] + later;
    var k :| 0 <= k <= |units| && |Concat(units[..k])| == p;
    assert units[..k] == [head] + later[..k - 1];
    ConcatCons(head, later[..k - 1]);
    if k > 1 {
      assert |Concat(later[..k - 1])| == p - |head|;
    } else {
      assert later[..0] == [];
    }
  }

  /** No boundary of the whole text falls right after a terminator that has a successor. */
  lemma {:induction false} NoCutInside(text: string, p: nat)
    requires 0 < p < |text| && IsTerminator(text[p - 1])
    ensures !CutsAt(Batch(text).units, p)
    decreases |text|
  {
    if CutsAt(Batch(text).units, p) {
      if Boundary(text).Some? {
        BatchStep(text);
        BoundaryNotAt(text, p);
        var n := Boundary(text).value;
        CutsAtCons(text[..n], Batch(text[n..]).units, p);
        NoCutInside(text[n..], p - n);
      }
      assert false;
    }
  }

  lemma {:induction false} BoundaryNotAt(text: string, p: nat)
    requires 0 < p < |text| && IsTerminator(text[p - 1])
    ensures Boundary(text) != Some(p)
  {
    if p > 1 {
      BoundaryNotAt(text[1..], p - 1);
    }
  }

  lemma NothingLeft(text: string)
    requires EndsInTerminator(text)
    ensures Batch(text).rest == [] && Concat(Batch(text).units) == text
  {
    BatchConserves(text);
    NoBoundaryNoTerminator(Batch(text).rest);
    LastOfSuffix(Concat(Batch(text).units), Batch(text).rest);
  }

  lemma LastOfSuffix(a: string, b: string)
    ensures b != [] ==> EndsInTerminator(a + b) == EndsInTerminator(b)
    ensures b == [] ==> a + b == a
  {
  }

  /** A delta that ends in a terminator, with text to follow, is cut where the batch is not. */
  lemma CutTooEarly(text: string, tail: string, later: seq<string>)
    requires EndsInTerminator(text) && tail != []
    ensures Batch(text).units + later != Batch(text + tail).units
  {
    NothingLeft(text);
    var units := Batch(text).units + later;
    assert units[..|Batch(text).units|] == Batch(text).units;
    assert CutsAt(units, |text|);
    assert (text + tail)[|text| - 1] == text[|text| - 1];
    NoCutInside(text + tail, |text|);
  }

  lemma {:induction false} HarmfulIsNotBatch(buffer: string, deltas: seq<string>)
    requires Boundary(buffer) == None && !Harmless(deltas)
    ensures Streamed(buffer, deltas).units != Batch(buffer + Concat(deltas)).units
    decreases deltas
  {
    var text, tail := buffer + deltas[0], Concat(deltas[1..]);
    Reassociate(buffer, deltas[0], tail);
    StreamedStep(buffer, deltas);
    BatchConserves(text);
    var rest := Batch(text).rest;
    if tail == [] {
      EmptyDeltas(rest, deltas[1..]);
      assert false;
    } else if EndsInTerminator(deltas[0]) {
      CutTooEarly(text, tail, Streamed(rest, deltas[1..]).units);
    } else {
      NoBoundaryNoTerminator(buffer);
      LastOfSuffix(buffer, deltas[0]);
      BatchInTwo(text, tail);
      HarmfulIsNotBatch(rest, deltas[1..]);
      Prepend(Batch(text).units, Streamed(rest, deltas[1..]).units, Batch(rest + tail).units);
    }
  }

  lemma Prepend(a: seq<string>, b: seq<string>, c: seq<string>)
    requires b != c
    ensures a + b != a + c
  {
    assert b == (a + b)[|a|..] && c == (a + c)[|a|..];
  }

  /** The sentences do not depend on how the text was cut into deltas, exactly when no delta that
      ends in an ASCII '.', '!' or '?' is followed by more text. */
  lemma CutsMatterExactly(deltas: seq<string>)
    ensures Streamed("", deltas).units == Batch(Concat(deltas)).units <==> Harmless(deltas)
  {
    assert "" + Concat(deltas) == Concat(deltas);
    if Harmless(deltas) {
      HarmlessIsBatch("", deltas);
    } else {
      HarmfulIsNotBatch("", deltas);
    }
  }

  /** Whatever the cuts: sentences and leftover are the text, and the leftover holds no boundary. */
  lemma SplitterConserves(deltas: seq<string>)
    ensures var r := Streamed("", deltas);
            Concat(r.units) + r.rest == Concat(deltas) && Boundary(r.rest) == None
  {
    BoundaryWellFormed();
    FeedConserves(Boundary, "", deltas);
    assert "" + Concat(deltas) == Concat(deltas);
  }
}
