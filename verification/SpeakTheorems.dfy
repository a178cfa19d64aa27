/** What a speak call with well-formed JSON arguments makes the stream handler say. */
module SpeakTheorems {
  import opened Chars
  import opened DoubaoResponses
  import opened JsonStrings
  import opened StreamSplitter
  import opened Wrappers

  // ---- The raw value is read unit by unit ----------------------------------------------------

  /** Neither a quote nor a backslash. */
  predicate NoMark(s: string) {
    s == [] || (s[0] != '"' && s[0] != '\\' && NoMark(s[1..]))
  }

  lemma {:induction false} RawPlain(s: string, rest: string)
    requires NoMark(s)
    ensures Raw(s + rest, false) == Then(s, Raw(rest, false))
  {
    if s == [] {
      assert s + rest == rest;
      ThenNothing(Raw(rest, false));
    } else {
      assert (s + rest)[0] == s[0] && (s + rest)[1..] == s[1..] + rest;
      RawPlain(s[1..], rest);
      ThenThen([s[0]], s[1..], Raw(rest, false));
      assert [s[0]] + s[1..] == s;
    }
  }

  /** An escape is taken whole when its second character is ASCII. */
  lemma RawEscape(e: char, rest: string)
    requires Width(e) == 1
    ensures Raw(['\\', e] + rest, false) == Then(['\\', e], Raw(rest, false))
  {
    var v := ['\\', e] + rest;
    assert v[0] == '\\' && v[1] == e && v[..2] == ['\\', e] && v[2..] == rest;
  }

  lemma {:induction false} DigitsAreUnmarked(d: string)
    requires Digits(d).Some?
    ensures forall i :: 0 <= i < |d| ==> d[i] != '"' && d[i] != '\\'
  {
    if d != [] {
      DigitsAreUnmarked(d[..|d| - 1]);
      assert forall i :: 0 <= i < |d| - 1 ==> d[i] == d[..|d| - 1][i];
    }
  }

  lemma {:induction false} Unmarked(s: string)
    requires forall i :: 0 <= i < |s| ==> s[i] != '"' && s[i] != '\\'
    ensures NoMark(s)
  {
    if s != [] {
      Unmarked(s[1..]);
    }
  }

  lemma RawUnit(u: Unit, rest: string)
    requires ValidUnit(u)
    ensures Raw(EncodeUnit(u) + rest, false) == Then(EncodeUnit(u), Raw(rest, false))
  {
    match u
    case Plain(c) => RawPlain([c], rest);
    case Short(e) => RawEscape(e, rest);
    case Hex(d) =>
      DigitsAreUnmarked(d);
      Unmarked(d);
      Reassociate(['\\', 'u'], d, rest);
      RawEscape('u', d + rest);
      RawPlain(d, rest);
      ThenThen(['\\', 'u'], d, Raw(rest, false));
  }

  lemma {:induction false} RawUnits(us: seq<Unit>, rest: string)
    requires ValidUnits(us)
    ensures Raw(Encode(us) + rest, false) == Then(Encode(us), Raw(rest, false))
  {
    if us == [] {
      assert [] + rest == rest;
      ThenNothing(Raw(rest, false));
    } else {
      Reassociate(EncodeUnit(us[0]), Encode(us[1..]), rest);
      RawUnit(us[0], Encode(us[1..]) + rest);
      RawUnits(us[1..], rest);
      ThenThen(EncodeUnit(us[0]), Encode(us[1..]), Raw(rest, false));
    }
  }

  /** A unit cut after `k` characters is torn exactly when only its backslash has arrived. */
  lemma RawPartOfUnit(u: Unit, k: nat)
    requires ValidUnit(u) && k < |EncodeUnit(u)|
    ensures Raw(EncodeUnit(u)[..k], false) == if k == 1 then None else Some(EncodeUnit(u)[..k])
  {
    var part := EncodeUnit(u)[..k];
    if k >= 2 {
      var d := u.digits[..k - 2];
      DigitsAreUnmarked(u.digits);
      Unmarked(d);
      assert part == ['\\', 'u'] + d && d + [] == d;
      RawEscape('u', d);
      RawPlain(d, []);
    }
  }

  /** The raw value cut after `n` characters. */
  lemma RawOfCut(us: seq<Unit>, i: nat, k: nat)
    requires i < |us| && ValidUnits(us[..i]) && ValidUnit(us[i]) && k < |EncodeUnit(us[i])|
    ensures var cut := Encode(us[..i]) + EncodeUnit(us[i])[..k];
            Raw(cut, false) == if k == 1 then None else Some(cut)
  {
    RawUnits(us[..i], EncodeUnit(us[i])[..k]);
    RawPartOfUnit(us[i], k);
  }

  lemma RawQuoted(us: seq<Unit>, after: string)
    requires ValidUnits(us)
    ensures Raw(Encode(us) + ("\"" + after), false) == Some(Encode(us))
    ensures Raw(Encode(us), false) == Some(Encode(us))
  {
    RawUnits(us, "\"" + after);
    RawUnits(us, []);
    assert Encode(us) + [] == Encode(us);
  }

  /** Every proper prefix of an encoding ends inside, or right before, one of its units. */
  lemma {:induction false} FindCut(us: seq<Unit>, n: nat) returns (i: nat, k: nat)
    requires ValidUnits(us) && n < |Encode(us)|
    ensures i < |us| && ValidUnits(us[..i]) && ValidUnit(us[i]) && k < |EncodeUnit(us[i])|
    ensures Encode(us)[..n] == Encode(us[..i]) + EncodeUnit(us[i])[..k]
  {
    var first := EncodeUnit(us[0]);
    if n < |first| {
      i, k := 0, n;
      assert Encode(us)[..n] == first[..n] && us[..0] == [] && [] + first[..n] == first[..n];
    } else {
      var j;
      j, k := FindCut(us[1..], n - |first|);
      i := j + 1;
      assert us[..i][0] == us[0] && us[..i][1..] == us[1..][..j];
      assert Encode(us)[..n] == first + Encode(us[1..])[..n - |first|];
      Reassociate(first, Encode(us[1..][..j]), EncodeUnit(us[i])[..k]);
    }
  }

  // ---- The arguments around the value ----------------------------------------------------------

  /** The arguments up to the opening quote of the value. */
  function Lead(before: string, ws1: string, ws2: string): string {
    before + (Key("text") + Opening(ws1, ws2))
  }

  function Opening(ws1: string, ws2: string): string {
    ws1 + (":" + (ws2 + "\""))
  }

  /** The first quoted field name is the one right after `before`; white space around the colon. */
  ghost predicate Leads(before: string, ws1: string, ws2: string) {
    IsBlank(ws1) && IsBlank(ws2) && Find(before + Key("text"), Key("text")) == Some(|before|)
  }

  lemma {:induction false} NoColonBefore(ws: string, rest: string)
    requires IsBlank(ws)
    ensures Find(ws + (":" + rest), ":") == Some(|ws|)
  {
    var s := ws + (":" + rest);
    assert s[|ws|..|ws| + 1] == ":";
    forall i: nat | i < |ws|
      ensures !MatchAt(s, ":", i)
    {
      assert s[i..i + 1][0] == ws[i] && ws[i] in ws;
    }
    FindIs(s, ":", |ws|);
  }

  lemma AfterColonOpens(ws1: string, ws2: string, value: string)
    requires IsBlank(ws1) && IsBlank(ws2)
    ensures AfterColon(Opening(ws1, ws2) + value) == "\"" + value
  {
    var rest := (ws2 + "\"") + value;
    Reassociate(ws2, "\"", value);
    OpeningThen(ws1, ws2, value);
    NoColonBefore(ws1, rest);
    var s := ws1 + (":" + rest);
    assert s[|ws1| + 1..] == rest;
    TrimThrough(ws2, "\"" + value);
  }

  lemma OpeningThen(ws1: string, ws2: string, value: string)
    ensures Opening(ws1, ws2) + value == ws1 + (":" + ((ws2 + "\"") + value))
  {
    Reassociate(ws1, ":" + (ws2 + "\""), value);
    Reassociate(":", ws2 + "\"", value);
  }

  lemma LeadThen(before: string, ws1: string, ws2: string, value: string)
    ensures Lead(before, ws1, ws2) + value == (before + Key("text")) + (Opening(ws1, ws2) + value)
  {
    Reassociate(before, Key("text"), Opening(ws1, ws2));
    Reassociate(before + Key("text"), Opening(ws1, ws2), value);
  }

  /** Past the lead, what is read depends on the value alone. */
  lemma ReadsPastLead(before: string, ws1: string, ws2: string, value: string)
    requires Leads(before, ws1, ws2)
    ensures AfterKey(Lead(before, ws1, ws2) + value, "text") == Some(Opening(ws1, ws2) + value)
    ensures AfterColon(Opening(ws1, ws2) + value) == "\"" + value
  {
    LeadThen(before, ws1, ws2, value);
    assert (before + Key("text"))[|before| + |Key("text")|..] == "";
    AfterKeyGrows(before + Key("text"), Opening(ws1, ws2) + value, "text");
    assert "" + (Opening(ws1, ws2) + value) == Opening(ws1, ws2) + value;
    AfterColonOpens(ws1, ws2, value);
  }

  lemma ExtractedPastLead(before: string, ws1: string, ws2: string, value: string)
    requires Leads(before, ws1, ws2)
    ensures Extracted(Lead(before, ws1, ws2) + value, "text") ==
            match Raw(value, false) case None => Torn case Some(v) => Field(v)
  {
    ReadsPastLead(before, ws1, ws2, value);
    assert ("\"" + value)[1..] == value;
  }

  /** Before the opening quote has arrived nothing is read. */
  lemma NothingBeforeLead(before: string, ws1: string, ws2: string, p: string, q: string)
    requires Leads(before, ws1, ws2) && p + q == Lead(before, ws1, ws2) && q != []
    ensures Extracted(p, "text") == NoField
  {
    ReadsPastLead(before, ws1, ws2, []);
    assert Lead(before, ws1, ws2) + [] == Lead(before, ws1, ws2);
    if AfterKey(p, "text").Some? && AfterColon(AfterKey(p, "text").value) != [] {
      AfterKeyGrows(p, q, "text");
      AfterColonGrows(AfterKey(p, "text").value, q);
      assert false;
    }
  }

  // ---- Which cuts panic ------------------------------------------------------------------------

  /** `p` ends right after the backslash of one of the value's escapes. */
  ghost predicate InsideEscape(p: string, lead: string, us: seq<Unit>) {
    exists i :: 0 <= i < |us| && EndsAtBackslash(p, lead, us, i)
  }

  predicate EndsAtBackslash(p: string, lead: string, us: seq<Unit>, i: nat)
    requires i < |us|
  {
    !us[i].Plain? && p == lead + (Encode(us[..i]) + "\\")
  }

  lemma {:induction false} ValidPart(us: seq<Unit>, i: nat)
    requires ValidUnits(us) && i < |us|
    ensures ValidUnits(us[..i]) && ValidUnit(us[i])
  {
    if i > 0 {
      ValidPart(us[1..], i - 1);
      assert us[..i][0] == us[0] && us[..i][1..] == us[1..][..i - 1];
    }
  }

  lemma BackslashPanics(p: string, before: string, ws1: string, ws2: string, us: seq<Unit>, i: nat)
    requires Leads(before, ws1, ws2) && ValidUnits(us) && i < |us|
    requires EndsAtBackslash(p, Lead(before, ws1, ws2), us, i)
    ensures Extracted(p, "text") == Torn
  {
    ValidPart(us, i);
    assert EncodeUnit(us[i])[..1] == "\\";
    RawOfCut(us, i, 1);
    ExtractedPastLead(before, ws1, ws2, Encode(us[..i]) + "\\");
  }

  /** A prefix of the arguments is torn only inside an escape of the value. */
  lemma PanicsOnlyInsideEscape(p: string, q: string, before: string, ws1: string, ws2: string, us: seq<Unit>,
                               after: string)
    requires Leads(before, ws1, ws2) && ValidUnits(us)
    requires p + q == Lead(before, ws1, ws2) + (Encode(us) + ("\"" + after))
    requires Extracted(p, "text") == Torn
    ensures InsideEscape(p, Lead(before, ws1, ws2), us)
  {
    var lead := Lead(before, ws1, ws2);
    if |p| < |lead| {
      assert p + lead[|p|..] == lead by {
        assert (p + q)[..|p|] == p && (lead + (Encode(us) + ("\"" + after)))[..|p|] == lead[..|p|];
      }
      NothingBeforeLead(before, ws1, ws2, p, lead[|p|..]);
    } else {
      var v := p[|lead|..];
      SplitPrefix(p, q, lead, Encode(us) + ("\"" + after));
      ExtractedPastLead(before, ws1, ws2, v);
      CutsOfValue(v, q, us, after);
      if i :| 0 <= i < |us| && !us[i].Plain? && v == Encode(us[..i]) + "\\" {
        assert EndsAtBackslash(p, lead, us, i);
      }
    }
  }

  lemma CutsOfValue(v: string, q: string, us: seq<Unit>, after: string)
    requires ValidUnits(us) && v + q == Encode(us) + ("\"" + after)
    ensures Raw(v, false) == None ==> exists i :: 0 <= i < |us| && !us[i].Plain? && v == Encode(us[..i]) + "\\"
  {
    if |v| < |Encode(us)| {
      var i, k := FindCut(us, |v|);
      SplitPrefix(Encode(us), "\"" + after, v, q);
      RawOfCut(us, i, k);
      if k == 1 {
        assert !us[i].Plain? && EncodeUnit(us[i])[..1] == "\\";
      }
    } else {
      SplitPrefix(v, q, Encode(us), "\"" + after);
      PastValue(us, v[|Encode(us)|..], q, after);
    }
  }

  lemma PastValue(us: seq<Unit>, w: string, q: string, after: string)
    requires ValidUnits(us) && w + q == "\"" + after
    ensures Raw(Encode(us) + w, false) == Some(Encode(us))
  {
    if w == [] {
      assert Encode(us) + [] == Encode(us);
      RawQuoted(us, after);
    } else {
      assert (w + q)[0] == w[0] && w == "\"" + w[1..];
      RawQuoted(us, w[1..]);
    }
  }

  /** Two cuts of the same text. */
  lemma SplitPrefix(p: string, q: string, a: string, b: string)
    requires p + q == a + b && |a| <= |p|
    ensures p == a + p[|a|..] && p[|a|..] + q == b && a == p[..|a|]
  {
    assert (p + q)[..|a|] == p[..|a|] && (a + b)[..|a|] == a;
    assert (p + q)[|a|..] == p[|a|..] + q && (a + b)[|a|..] == b;
    assert p[..|a|] + p[|a|..] == p;
  }

  lemma TornExactly(p: string, q: string, before: string, ws1: string, ws2: string, us: seq<Unit>, after: string)
    requires Leads(before, ws1, ws2) && ValidUnits(us)
    requires p + q == Lead(before, ws1, ws2) + (Encode(us) + ("\"" + after))
    ensures Extracted(p, "text") == Torn <==> InsideEscape(p, Lead(before, ws1, ws2), us)
  {
    if Extracted(p, "text") == Torn {
      PanicsOnlyInsideEscape(p, q, before, ws1, ws2, us, after);
    }
    if InsideEscape(p, Lead(before, ws1, ws2), us) {
      var i :| 0 <= i < |us| && EndsAtBackslash(p, Lead(before, ws1, ws2), us, i);
      BackslashPanics(p, before, ws1, ws2, us, i);
    }
  }

  // ---- The call as a whole ----------------------------------------------------------------------

  ghost predicate TornAfter(args: string, es: seq<Event>, n: nat)
    requires n <= |es|
  {
    Extracted(args + Args(es[..n]), "text") == Torn
  }

  lemma ArgsStep1(args: string, es: seq<Event>, n: nat)
    requires 0 < n <= |es|
    ensures args + Args(es[..n]) == (args + Args(es[..1])) + Args(es[1..][..n - 1])
  {
    assert es[..n][..1] == es[..1] && es[..n][1..] == es[1..][..n - 1];
    ArgsOne(es[..n]);
    Reassociate(args, Args(es[..1]), Args(es[1..][..n - 1]));
  }

  ghost predicate SomewhereTorn(args: string, es: seq<Event>) {
    exists n :: 0 <= n <= |es| && TornAfter(args, es, n)
  }

  lemma TornLater(args: string, es: seq<Event>)
    requires es != [] && SomewhereTorn(args + Args(es[..1]), es[1..])
    ensures SomewhereTorn(args, es)
  {
    var next := args + Args(es[..1]);
    var n :| 0 <= n <= |es[1..]| && TornAfter(next, es[1..], n);
    ArgsStep1(args, es, n + 1);
    assert TornAfter(args, es, n + 1);
  }

  lemma TornFirst(args: string, es: seq<Event>)
    requires es != [] && SomewhereTorn(args, es) && Extracted(args, "text") != Torn
    ensures SomewhereTorn(args + Args(es[..1]), es[1..])
  {
    var next := args + Args(es[..1]);
    var n :| 0 <= n <= |es| && TornAfter(args, es, n);
    assert es[..0] == [] && args + "" == args;
    ArgsStep1(args, es, n);
    assert TornAfter(next, es[1..], n - 1);
  }

  lemma TornNow(args: string, es: seq<Event>)
    requires Extracted(args, "text") == Torn
    ensures SomewhereTorn(args, es)
  {
    assert es[..0] == [] && args + "" == args;
    assert TornAfter(args, es, 0);
  }

  lemma {:induction false} TearsSomewhere(args: string, es: seq<Event>)
    requires Extracted(args, "text") != Torn
    ensures Tears(args, es) <==> SomewhereTorn(args, es)
    decreases es
  {
    if es == [] {
      assert es[..0] == [] && args + "" == args;
    } else {
      var next := args + Args(es[..1]);
      if Extracted(next, "text") == Torn {
        TornNow(next, es[1..]);
      } else {
        TearsSomewhere(next, es[1..]);
      }
      if SomewhereTorn(next, es[1..]) {
        TornLater(args, es);
      }
      if SomewhereTorn(args, es) {
        TornFirst(args, es);
      }
    }
  }

  lemma {:induction false} ArgsCut(es: seq<Event>, n: nat)
    requires n <= |es|
    ensures Args(es) == Args(es[..n]) + Args(es[n..])
  {
    if n > 0 {
      ArgsOne(es);
      ArgsOne(es[..n]);
      assert es[..n][..1] == es[..1] && es[..n][1..] == es[1..][..n - 1] && es[1..][n - 1..] == es[n..];
      ArgsCut(es[1..], n - 1);
      Reassociate(Args(es[..1]), Args(es[1..][..n - 1]), Args(es[n..]));
    } else {
      assert es[..0] == [] && es[0..] == es && [] + Args(es) == Args(es);
    }
  }

  /** Some event ends right after the backslash of an escape of the value. */
  ghost predicate SomeCutInsideEscape(es: seq<Event>, lead: string, us: seq<Unit>) {
    exists n :: 0 <= n <= |es| && CutInsideEscape(es, n, lead, us)
  }

  ghost predicate CutInsideEscape(es: seq<Event>, n: nat, lead: string, us: seq<Unit>)
    requires n <= |es|
  {
    InsideEscape(Args(es[..n]), lead, us)
  }

  /** A speak call whose arguments hold the text value as JSON, in any deltas: the handler panics
      exactly when a delta ends right after the backslash of an escape of the value; otherwise it
      forwards exactly the raw value, escapes not undone. */
  lemma SpeaksRawValue(st: State, es: seq<Event>, before: string, ws1: string, ws2: string, us: seq<Unit>, after: string)
    requires OneCall(es) && Leads(before, ws1, ws2) && ValidUnits(us)
    requires Args(es) == Lead(before, ws1, ws2) + (Encode(us) + ("\"" + after))
    ensures var run := Run(st, [ItemAdded(true, SPEAK)] + es);
            && (run == Panicked <==> SomeCutInsideEscape(es, Lead(before, ws1, ws2), us))
            && (run.Ran? ==> run.ofCalls == Encode(us))
  {
    ForwardsWholeCall(st, es);
    ExtractedPastLead(before, ws1, ws2, Encode(us) + ("\"" + after));
    RawQuoted(us, after);
    NothingKnown();
    TearsSomewhere("", es);
    forall n | 0 <= n <= |es|
      ensures TornAfter("", es, n) <==> CutInsideEscape(es, n, Lead(before, ws1, ws2), us)
    {
      ArgsCut(es, n);
      assert "" + Args(es[..n]) == Args(es[..n]);
      TornExactly(Args(es[..n]), Args(es[n..]), before, ws1, ws2, us, after);
    }
  }

  const FIRST_DELTA := "{\"text\":\"\\"
  const SECOND_DELTA := "n\"}"
  const CUT_AT_BACKSLASH := [ArgsDelta(FIRST_DELTA), ArgsDelta(SECOND_DELTA)]

  /** Two deltas that make up the arguments {"text":"\n"}, cut after the backslash: the handler panics. */
  lemma CutAtBackslashPanics()
    ensures Args(CUT_AT_BACKSLASH) == FIRST_DELTA + SECOND_DELTA
    ensures Run(INITIAL, [ItemAdded(true, SPEAK)] + CUT_AT_BACKSLASH) == Panicked
  {
    var es, us, lead := CUT_AT_BACKSLASH, [Short('n')], Lead("{", "", "");
    ArgsOfTwo(FIRST_DELTA, SECOND_DELTA);
    BraceParts(us);
    LeadsFromBrace();
    CutOfOneEscape(es, "{", "", "", us, "}");
  }

  lemma ArgsOfTwo(a: string, b: string)
    ensures Args([ArgsDelta(a), ArgsDelta(b)]) == a + b
    ensures Args([ArgsDelta(a), ArgsDelta(b)][..1]) == a
  {
    var es := [ArgsDelta(a), ArgsDelta(b)];
    ArgsOne(es);
    ArgsOne(es[1..]);
    assert es[1..][1..] == [] && b + "" == b;
  }

  lemma BraceParts(us: seq<Unit>)
    requires us == [Short('n')]
    ensures FIRST_DELTA == Lead("{", "", "") + "\\"
    ensures FIRST_DELTA + SECOND_DELTA == Lead("{", "", "") + (Encode(us) + ("\"" + "}"))
  {
    var lead := "{\"text\":\"";
    assert Lead("{", "", "") == lead;
    assert us[1..] == [] && Encode(us) == "\\n";
    assert FIRST_DELTA == lead + "\\";
    assert FIRST_DELTA + SECOND_DELTA == lead + ("\\n" + ("\"" + "}"));
  }

  /** A value that is one escape, cut after its backslash by the first event. */
  lemma CutOfOneEscape(es: seq<Event>, before: string, ws1: string, ws2: string, us: seq<Unit>, after: string)
    requires OneCall(es) && es != [] && Leads(before, ws1, ws2) && ValidUnits(us) && us != [] && !us[0].Plain?
    requires Args(es) == Lead(before, ws1, ws2) + (Encode(us) + ("\"" + after))
    requires Args(es[..1]) == Lead(before, ws1, ws2) + "\\"
    ensures Run(INITIAL, [ItemAdded(true, SPEAK)] + es) == Panicked
  {
    SpeaksRawValue(INITIAL, es, before, ws1, ws2, us, after);
    assert us[..0] == [] && [] + "\\" == "\\";
    assert EndsAtBackslash(Args(es[..1]), Lead(before, ws1, ws2), us, 0);
    assert CutInsideEscape(es, 1, Lead(before, ws1, ws2), us);
  }

  lemma LeadsFromBrace()
    ensures Leads("{", "", "")
  {
    var s := "{" + Key("text");
    assert s[1..1 + |Key("text")|] == Key("text");
    assert s[0] == '{' && Key("text")[0] == '"';
    assert s[0..|Key("text")|][0] == '{';
    FindIs(s, Key("text"), 1);
  }

  /** The raw value is the text it stands for exactly when it has no escape. */
  lemma {:induction false} RawIsText(us: seq<Unit>)
    requires ValidUnits(us)
    ensures |Encode(us)| >= |us|
    ensures Encode(us) == Text(us) <==> forall i :: 0 <= i < |us| ==> us[i].Plain?
  {
    TextLength(us);
    EncodeLength(us);
    if forall i :: 0 <= i < |us| ==> us[i].Plain? {
      PlainIsText(us);
    }
  }

  lemma {:induction false} EncodeLength(us: seq<Unit>)
    requires ValidUnits(us)
    ensures |Encode(us)| >= |us|
    ensures |Encode(us)| == |us| ==> forall i :: 0 <= i < |us| ==> us[i].Plain?
  {
    if us != [] {
      EncodeLength(us[1..]);
      if |Encode(us)| == |us| {
        forall i | 0 <= i < |us|
          ensures us[i].Plain?
        {
          assert i > 0 ==> us[i] == us[1..][i - 1];
        }
      }
    }
  }

  lemma {:induction false} PlainIsText(us: seq<Unit>)
    requires ValidUnits(us) && forall i :: 0 <= i < |us| ==> us[i].Plain?
    ensures Encode(us) == Text(us)
  {
    if us != [] {
      PlainIsText(us[1..]);
    }
  }
}
