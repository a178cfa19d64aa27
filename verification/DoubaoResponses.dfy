/** Tool-argument streaming: the spoken text of a call is forwarded while its arguments arrive. */
module DoubaoResponses {
  import opened Chars
  import opened JsonStrings
  import opened StreamSplitter
  import opened Wrappers

  // ---- Byte offsets into a string -----------------------------------------------------------

  /** `char::len_utf8`. */
  function Width(c: char): (w: nat)
    ensures 1 <= w <= 4
  {
    if c < '\U{80}' then 1 else if c < '\U{800}' then 2 else if c < '\U{10000}' then 3 else 4
  }

  /** `str::len`, in bytes. */
  function Size(s: string): (n: nat)
    ensures n >= |s|
  {
    if s == [] then 0 else Width(s[0]) + Size(s[1..])
  }

  /** `&s[..n]`: panics (None) when byte `n` is past the end or inside a character. */
  function SliceTo(s: string, n: int): Option<string> {
    if n == 0 then Some([])
    else if n < 0 || s == [] then None
    else
      var later := SliceTo(s[1..], n - Width(s[0]));
      if later == None then None else Some([s[0]] + later.value)
  }

  /** `&s[n..]`: panics likewise. */
  function SliceFrom(s: string, n: int): Option<string> {
    if n == 0 then Some(s)
    else if n < 0 || s == [] then None
    else SliceFrom(s[1..], n - Width(s[0]))
  }

  lemma {:induction false} SizeAppend(a: string, b: string)
    ensures Size(a + b) == Size(a) + Size(b)
  {
    if a == [] {
      assert a + b == b;
    } else {
      assert (a + b)[1..] == a[1..] + b;
      SizeAppend(a[1..], b);
    }
  }

  lemma {:induction false} SliceAt(a: string, b: string)
    ensures SliceTo(a + b, Size(a)) == Some(a) && SliceFrom(a + b, Size(a)) == Some(b)
  {
    if a == [] {
      assert a + b == b;
    } else {
      assert (a + b)[0] == a[0] && (a + b)[1..] == a[1..] + b;
      SliceAt(a[1..], b);
      assert [a[0]] + a[1..] == a;
    }
  }

  /** Past the end, and inside the last character, there is no slice. */
  lemma {:induction false} NoSlice(s: string, n: int)
    requires n > Size(s) || (s != [] && Size(s[..|s| - 1]) < n < Size(s))
    ensures SliceTo(s, n) == None
  {
    if s != [] {
      if |s| > 1 {
        assert s[..|s| - 1][0] == s[0] && s[..|s| - 1][1..] == s[1..][..|s[1..]| - 1];
      } else {
        assert s[..0] == [] && s[1..] == [];
      }
      if n > Size(s) || |s| > 1 {
        NoSlice(s[1..], n - Width(s[0]));
      }
    }
  }

  // ---- The value of a string field in incomplete JSON ------------------------------------------

  /** Torn: the scan panics. */
  datatype Reading = NoField | Torn | Field(value: string)

  /** The raw value, escapes and all, up to the closing quote or as far as it has arrived; None
      when it breaks off right after a backslash or after an escaped non-ASCII character, the
      latter being what `torn` says of the characters before `value`. */
  function Raw(value: string, torn: bool): Option<string> {
    if value == [] then (if torn then None else Some([]))
    else if value[0] == '"' then Some([])
    else if value[0] != '\\' then Then([value[0]], Raw(value[1..], false))
    else if |value| == 1 then None
    else Then(value[..2], Raw(value[2..], Width(value[1]) > 1))
  }

  function Then(head: string, later: Option<string>): Option<string> {
    if later == None then None else Some(head + later.value)
  }

  lemma ThenThen(a: string, b: string, later: Option<string>)
    ensures Then(a, Then(b, later)) == Then(a + b, later)
  {
    if later.Some? {
      Reassociate(a, b, later.value);
    }
  }

  lemma ThenNothing(later: Option<string>)
    ensures Then([], later) == later
  {
    if later.Some? {
      assert [] + later.value == later.value;
    }
  }

  /** What follows the key's first colon, wherever that is, without leading whitespace. */
  function AfterColon(afterKey: string): string {
    match Find(afterKey, ":")
    case None => []
    case Some(at) => TrimStart(afterKey[at + 1..])
  }

  function ReadingOf(afterColon: string): Reading {
    if afterColon == [] || afterColon[0] != '"' then NoField
    else match Raw(afterColon[1..], false)
         case None => Torn
         case Some(value) => Field(value)
  }

  function Key(field: string): string {
    "\"" + field + "\""
  }

  /** What follows the first occurrence of the quoted field name. */
  function AfterKey(json: string, field: string): Option<string> {
    match Find(json, Key(field))
    case None => None
    case Some(at) => Some(json[at + |Key(field)|..])
  }

  function Extracted(json: string, field: string): Reading {
    match AfterKey(json, field)
    case None => NoField
    case Some(afterKey) => ReadingOf(AfterColon(afterKey))
  }

  method ExtractPartialJsonString(json: string, field: string) returns (r: Reading)
    ensures r == Extracted(json, field)
  {
    var key := Key(field);
    var keyPos := Find(json, key);
    if keyPos == None {
      return NoField;
    }
    r := ReadAfterKey(json[keyPos.value + |key|..]);
  }

  method ReadAfterKey(afterKey: string) returns (r: Reading)
    ensures r == ReadingOf(AfterColon(afterKey))
  {
    var colonPos := Find(afterKey, ":");
    if colonPos == None {
      return NoField;
    }
    var afterColon := TrimStart(afterKey[colonPos.value + 1..]);
    if afterColon == [] || afterColon[0] != '"' {
      return NoField;
    }
    var value := ReadValue(afterColon[1..]);
    r := if value == None then Torn else Field(value.value);
  }

  /** The scan: `at` is the byte offset of character `k`, `end` how far the value counts. */
  method ReadValue(value: string) returns (r: Option<string>)
    ensures r == Raw(value, false)
  {
    var k, at, end := 0, 0, 0;
    assert value[0..] == value;
    ThenNothing(Raw(value, false));
    while k < |value|
      invariant 0 <= k <= |value| && at == Size(value[..k])
      invariant end == 0 ==> k == 0
      invariant end > at ==> k == |value|
      invariant end < at ==> k > 0 && Size(value[..k - 1]) < end
      invariant Raw(value, false) == Then(value[..k], Raw(value[k..], end != at))
    {
      var i, ch := at, value[k];
      RawStep(value, k, end != at);
      TakeOne(value, k);
      k, at := k + 1, at + Width(ch);
      if ch == '\\' {
        if k < |value| {
          TakeOne(value, k);
          k, at := k + 1, at + Width(value[k]);
        }
        end := i + 2;
        continue;
      }
      if ch == '"' {
        SliceAt(value[..k - 1], value[k - 1..]);
        assert value == value[..k - 1] + value[k - 1..];
        return SliceTo(value, i);
      }
      end := i + Width(ch);
    }
    assert value[..k] == value && value[k..] == [];
    if end > 0 {
      if end == at {
        SliceAt(value, []);
        assert value + [] == value;
      } else {
        NoSlice(value, end);
      }
      return SliceTo(value, end);
    }
    r := Some([]);
  }

  lemma TakeOne(s: string, k: nat)
    requires k < |s|
    ensures Size(s[..k + 1]) == Size(s[..k]) + Width(s[k])
  {
    assert s[..k + 1] == s[..k] + [s[k]];
    SizeAppend(s[..k], [s[k]]);
  }

  lemma RawStep(s: string, k: nat, torn: bool)
    requires k < |s|
    ensures s[k] != '\\' && s[k] != '"' ==>
              Then(s[..k], Raw(s[k..], torn)) == Then(s[..k + 1], Raw(s[k + 1..], false))
    ensures s[k] == '"' ==> Then(s[..k], Raw(s[k..], torn)) == Some(s[..k])
    ensures s[k] == '\\' && k + 1 == |s| ==> Then(s[..k], Raw(s[k..], torn)) == None
    ensures s[k] == '\\' && k + 1 < |s| ==>
              Then(s[..k], Raw(s[k..], torn)) == Then(s[..k + 2], Raw(s[k + 2..], Width(s[k + 1]) > 1))
  {
    var rest := s[k..];
    assert rest[0] == s[k] && rest[1..] == s[k + 1..];
    if s[k] == '"' {
      assert s[..k] + [] == s[..k];
    } else if s[k] != '\\' {
      assert s[..k + 1] == s[..k] + [s[k]];
      ThenThen(s[..k], [s[k]], Raw(s[k + 1..], false));
    } else if k + 1 < |s| {
      assert rest[1] == s[k + 1] && rest[2..] == s[k + 2..] && s[..k + 2] == s[..k] + rest[..2];
      ThenThen(s[..k], rest[..2], Raw(s[k + 2..], Width(s[k + 1]) > 1));
    }
  }

  /** A value that breaks off right after an escaped character panics when that is not ASCII: the
      offset it is cut at lies inside the character. */
  lemma TornByEscapedCharacter(c: char)
    ensures Raw(['\\', c], false) == if c as int >= 0x80 then None else Some(['\\', c])
  {
    assert ['\\', c][2..] == [];
    assert ['\\', c][..2] + [] == ['\\', c];
  }

  // ---- What arrives later extends what was read before -------------------------------------------

  lemma {:induction false} RawGrows(value: string, more: string, torn: bool)
    requires Raw(value, torn).Some?
    ensures Raw(value + more, torn).Some? ==> Raw(value, torn).value <= Raw(value + more, torn).value
  {
    if value != [] && value[0] != '"' {
      assert (value + more)[0] == value[0];
      if value[0] != '\\' {
        assert (value + more)[1..] == value[1..] + more;
        RawGrows(value[1..], more, false);
      } else {
        assert (value + more)[1] == value[1];
        assert (value + more)[2..] == value[2..] + more && (value + more)[..2] == value[..2];
        RawGrows(value[2..], more, Width(value[1]) > 1);
      }
    }
  }

  lemma {:induction false} TrimStartGrows(s: string, more: string)
    requires TrimStart(s) != []
    ensures TrimStart(s + more) == TrimStart(s) + more
  {
    assert (s + more)[0] == s[0] && (s + more)[1..] == s[1..] + more;
    if IsWhitespace(s[0]) {
      TrimStartGrows(s[1..], more);
    }
  }

  lemma AfterColonGrows(afterKey: string, more: string)
    requires AfterColon(afterKey) != []
    ensures AfterColon(afterKey + more) == AfterColon(afterKey) + more
  {
    var at := Find(afterKey, ":").value;
    FindStable(afterKey, ":", more);
    assert (afterKey + more)[at + 1..] == afterKey[at + 1..] + more;
    TrimStartGrows(afterKey[at + 1..], more);
  }

  lemma ReadingGrows(s: string, more: string)
    requires ReadingOf(s).Field?
    ensures !ReadingOf(s + more).NoField?
    ensures ReadingOf(s + more).Field? ==> ReadingOf(s).value <= ReadingOf(s + more).value
  {
    assert (s + more)[0] == s[0] && (s + more)[1..] == s[1..] + more;
    RawGrows(s[1..], more, false);
  }

  lemma TailGrows(s: string, more: string, n: nat)
    requires n <= |s|
    ensures (s + more)[n..] == s[n..] + more
  {
  }

  lemma AfterKeyGrows(json: string, more: string, field: string)
    requires AfterKey(json, field).Some?
    ensures AfterKey(json + more, field) == Some(AfterKey(json, field).value + more)
  {
    FindStable(json, Key(field), more);
    TailGrows(json, more, Find(json, Key(field)).value + |Key(field)|);
  }

  /** Prefix monotonicity: once a value is read, more input gives an extension of it or a panic,
      never a different value and never none. */
  lemma ExtractedGrows(json: string, more: string, field: string)
    requires Extracted(json, field).Field?
    ensures !Extracted(json + more, field).NoField?
    ensures Extracted(json + more, field).Field? ==> Extracted(json, field).value <= Extracted(json + more, field).value
  {
    AfterKeyGrows(json, more, field);
    var afterKey := AfterKey(json, field).value;
    AfterColonGrows(afterKey, more);
    ReadingGrows(AfterColon(afterKey), more);
  }

  // ---- The stream loop ---------------------------------------------------------------------------

  /** Events as parsed from their blocks. */
  datatype Event =
    | TextDelta(text: string)
    | ItemAdded(isCall: bool, name: Option<string>)
    | ArgsDelta(delta: string)
    | ItemDone(call: Option<DoneCall>)
    | Other

  /** A finished function call; absent fields fall back. */
  datatype DoneCall = DoneCall(name: Option<string>, arguments: Option<string>)

  datatype ToolCall = ToolCall(name: string, arguments: string)

  datatype State = State(
    pendingName: Option<string>,
    pendingArgs: string,
    forwarded: nat, // in bytes
    fullReply: string,
    toolCalls: seq<ToolCall>)

  const SPEAK := Some("speak")
  const INITIAL := State(None, "", 0, "", [])

  /** Forward the part of `text` past what was forwarded; None when the slice panics. */
  function Forward(st: State, text: string): Option<(State, string)> {
    if Size(text) <= st.forwarded then Some((st, ""))
    else match SliceFrom(text, st.forwarded)
         case None => None
         case Some(added) => Some((st.(forwarded := Size(text), fullReply := st.fullReply + added), added))
  }

  function OnArgs(st: State, delta: string): Option<(State, string)> {
    var grown := st.(pendingArgs := st.pendingArgs + delta);
    if st.pendingName != SPEAK then Some((grown, ""))
    else match Extracted(grown.pendingArgs, "text")
         case NoField => Some((grown, ""))
         case Torn => None
         case Field(text) => Forward(grown, text)
  }

  function Finish(st: State, call: Option<DoneCall>): State {
    State(None, "", 0, st.fullReply,
          match call
          case None => st.toolCalls
          case Some(c) =>
            st.toolCalls + [ToolCall(if c.name.Some? then c.name.value else "",
                                     if c.arguments.Some? then c.arguments.value else st.pendingArgs)])
  }

  /** One event: the new state and the text handed to the synthesizer ("" when it is not called);
      None when the handler panics. */
  function Step(st: State, e: Event): Option<(State, string)> {
    match e
    case TextDelta(text) => Some((st.(fullReply := st.fullReply + text), text))
    case ItemAdded(isCall, name) =>
      Some((if isCall then st.(pendingName := name, pendingArgs := "", forwarded := 0) else st, ""))
    case ArgsDelta(delta) => OnArgs(st, delta)
    case ItemDone(call) => Some((Finish(st, call), ""))
    case Other => Some((st, ""))
  }

  class ResponseStream {
    var fullReply: string
    var toolCalls: seq<ToolCall>
    var pendingName: Option<string>
    var pendingArgs: string
    var forwardedTextLen: nat

    ghost function Now(): State
      reads this
    {
      State(pendingName, pendingArgs, forwardedTextLen, fullReply, toolCalls)
    }

    constructor ()
      ensures Now() == INITIAL
    {
      fullReply, toolCalls, pendingName, pendingArgs, forwardedTextLen := "", [], None, "", 0;
    }

    /** `ok` is false when the handler panics. */
    method OnEvent(e: Event) returns (ok: bool, spoken: string)
      modifies this
      ensures ok <==> Step(old(Now()), e).Some?
      ensures ok ==> Step(old(Now()), e) == Some((Now(), spoken))
    {
      ok, spoken := true, "";
      match e
      case TextDelta(text) =>
        fullReply := fullReply + text;
        spoken := text;
      case ItemAdded(isCall, name) =>
        if isCall {
          pendingName := name;
          pendingArgs := "";
          forwardedTextLen := 0;
        }
      case ArgsDelta(delta) =>
        ok, spoken := OnArgsDelta(delta);
      case ItemDone(call) =>
        if call.Some? {
          var name := if call.value.name.Some? then call.value.name.value else "";
          var args := if call.value.arguments.Some? then call.value.arguments.value else pendingArgs;
          toolCalls := toolCalls + [ToolCall(name, args)];
        }
        pendingName := None;
        pendingArgs := "";
        forwardedTextLen := 0;
      case Other =>
    }

    method OnArgsDelta(delta: string) returns (ok: bool, spoken: string)
      modifies this
      ensures ok <==> OnArgs(old(Now()), delta).Some?
      ensures ok ==> OnArgs(old(Now()), delta) == Some((Now(), spoken))
    {
      ok, spoken := true, "";
      pendingArgs := pendingArgs + delta;
      if pendingName == SPEAK {
        var textSoFar := ExtractPartialJsonString(pendingArgs, "text");
        match textSoFar
        case NoField =>
        case Torn =>
          ok := false;
        case Field(text) =>
          if Size(text) > forwardedTextLen {
            var newText := SliceFrom(text, forwardedTextLen);
            if newText == None {
              return false, "";
            }
            forwardedTextLen := Size(text);
            fullReply := fullReply + newText.value;
            spoken := newText.value;
          }
      }
    }
  }

  // ---- Nothing spoken twice, nothing left out --------------------------------------------------------

  /** The text of a speak call that its arguments so far determine. */
  function Known(args: string): string {
    var r := Extracted(args, "text");
    if r.Field? then r.value else ""
  }

  /** Of a speak call, what is determined has been forwarded. */
  predicate Caught(st: State) {
    st.pendingName == SPEAK ==>
      !Extracted(st.pendingArgs, "text").Torn? && st.forwarded == Size(Known(st.pendingArgs))
  }

  lemma NothingKnown()
    ensures Extracted("", "text") == NoField
  {
    assert |Key("text")| == 6;
  }

  lemma PrefixSlice(a: string, b: string)
    requires a <= b
    ensures Size(a) <= Size(b) && (Size(b) == Size(a) ==> b == a)
    ensures SliceFrom(b, Size(a)) == Some(b[|a|..])
  {
    assert b == a + b[|a|..];
    SizeAppend(a, b[|a|..]);
    SliceAt(a, b[|a|..]);
    assert a + [] == a;
  }

  lemma ForwardsSuffix(st: State, known: string, text: string)
    requires known <= text && st.forwarded == Size(known)
    ensures Forward(st, text) ==
            Some((st.(forwarded := Size(text), fullReply := st.fullReply + text[|known|..]), text[|known|..]))
  {
    PrefixSlice(known, text);
    if Size(text) <= st.forwarded {
      assert text[|known|..] == "" && st.fullReply + "" == st.fullReply;
      assert st.forwarded == Size(text);
    }
  }

  /** What one delta of a speak call leaves when it does not panic. */
  predicate Forwards(st: State, delta: string, next: State, spoken: string) {
    && Caught(next) && next.pendingName == SPEAK
    && next.pendingArgs == st.pendingArgs + delta
    && next.fullReply == st.fullReply + spoken
    && Known(next.pendingArgs) == Known(st.pendingArgs) + spoken
  }

  /** No value yet: nothing was known before either. */
  lemma ArgsWithoutField(st: State, args: string, delta: string)
    requires Caught(st) && st.pendingName == SPEAK && args == st.pendingArgs + delta
    requires Extracted(args, "text") == NoField
    ensures Forwards(st, delta, st.(pendingArgs := args), "")
  {
    if Extracted(st.pendingArgs, "text").Field? {
      ExtractedGrows(st.pendingArgs, delta, "text");
    }
    assert st.fullReply + "" == st.fullReply;
  }

  lemma KnownGrows(args: string, delta: string, text: string)
    requires Extracted(args, "text") != Torn && Extracted(args + delta, "text") == Field(text)
    ensures Known(args) <= text
  {
    if Extracted(args, "text").Field? {
      ExtractedGrows(args, delta, "text");
    }
  }

  lemma FieldForwarded(st: State, args: string, delta: string, text: string, known: string)
    requires st.pendingName == SPEAK && args == st.pendingArgs + delta
    requires Extracted(args, "text") == Field(text) && known == Known(st.pendingArgs) && known <= text
    ensures var spoken := text[|known|..];
            Forwards(st, delta, st.(pendingArgs := args, forwarded := Size(text), fullReply := st.fullReply + spoken), spoken)
  {
    assert known + text[|known|..] == text;
  }

  lemma ArgsWithField(st: State, args: string, delta: string, text: string)
    requires Caught(st) && st.pendingName == SPEAK && args == st.pendingArgs + delta
    requires Extracted(args, "text") == Field(text)
    ensures var grown := st.(pendingArgs := args);
            Forward(grown, text).Some? && Forwards(st, delta, Forward(grown, text).value.0, Forward(grown, text).value.1)
  {
    var known := Known(st.pendingArgs);
    KnownGrows(st.pendingArgs, delta, text);
    ForwardsSuffix(st.(pendingArgs := args), known, text);
    FieldForwarded(st, args, delta, text, known);
  }

  /** One delta of a speak call panics exactly when the arguments so far are torn, and otherwise
      forwards exactly what has become known. */
  lemma ArgsStep(st: State, delta: string)
    requires Caught(st) && st.pendingName == SPEAK
    ensures OnArgs(st, delta) == None <==> Extracted(st.pendingArgs + delta, "text") == Torn
    ensures OnArgs(st, delta).Some? ==> Forwards(st, delta, OnArgs(st, delta).value.0, OnArgs(st, delta).value.1)
  {
    var args := st.pendingArgs + delta;
    match Extracted(args, "text")
    case NoField => ArgsWithoutField(st, args, delta);
    case Torn =>
    case Field(text) => ArgsWithField(st, args, delta, text);
  }

  lemma StepCaught(st: State, e: Event)
    requires Caught(st) && Step(st, e).Some?
    ensures Caught(Step(st, e).value.0)
    ensures Step(st, e).value.0.fullReply == st.fullReply + Step(st, e).value.1
  {
    NothingKnown();
    assert st.fullReply + "" == st.fullReply;
    if e.ArgsDelta? && st.pendingName == SPEAK {
      ArgsStep(st, e.delta);
    }
  }

  // ---- Whole runs ---------------------------------------------------------------------------------

  /** A run of the handler: where it ends, what all events made it say, and what argument deltas did. */
  datatype Outcome = Panicked | Ran(st: State, spoken: string, ofCalls: string)

  function Run(st: State, es: seq<Event>): Outcome
    decreases es
  {
    if es == [] then Ran(st, "", "")
    else match Step(st, es[0])
         case None => Panicked
         case Some((next, spoken)) =>
           match Run(next, es[1..])
           case Panicked => Panicked
           case Ran(last, later, ofCalls) =>
             Ran(last, spoken + later, if es[0].ArgsDelta? then spoken + ofCalls else ofCalls)
  }

  /** The reply returned at the end is what was handed to the synthesizer, piece by piece. */
  lemma {:induction false} ReplyIsWhatWasSpoken(st: State, es: seq<Event>)
    requires Caught(st) && Run(st, es).Ran?
    ensures Run(st, es).st.fullReply == st.fullReply + Run(st, es).spoken
    ensures Caught(Run(st, es).st)
    decreases es
  {
    if es == [] {
      assert st.fullReply + "" == st.fullReply;
    } else {
      StepCaught(st, es[0]);
      var (next, spoken) := Step(st, es[0]).value;
      ReplyIsWhatWasSpoken(next, es[1..]);
      Reassociate(st.fullReply, spoken, Run(next, es[1..]).spoken);
    }
  }

  /** The argument text in a run of events. */
  function Args(es: seq<Event>): string {
    if es == [] then "" else (if es[0].ArgsDelta? then es[0].delta else "") + Args(es[1..])
  }

  /** No item starts or ends. */
  ghost predicate OneCall(es: seq<Event>) {
    forall i :: 0 <= i < |es| ==> es[i].TextDelta? || es[i].ArgsDelta? || es[i].Other?
  }

  /** Some event leaves the arguments torn. */
  predicate Tears(args: string, es: seq<Event>)
    decreases es
  {
    es != [] && (Extracted(args + Args(es[..1]), "text") == Torn || Tears(args + Args(es[..1]), es[1..]))
  }

  lemma ArgsOne(es: seq<Event>)
    requires es != []
    ensures Args(es[..1]) == if es[0].ArgsDelta? then es[0].delta else ""
    ensures Args(es) == Args(es[..1]) + Args(es[1..])
  {
    var d := if es[0].ArgsDelta? then es[0].delta else "";
    assert es[..1][1..] == [] && d + "" == d;
  }

  lemma OtherStep(st: State, e: Event)
    requires e.TextDelta? || e.Other?
    ensures Step(st, e).Some?
    ensures var next := Step(st, e).value.0;
            next.pendingName == st.pendingName && next.pendingArgs == st.pendingArgs && next.forwarded == st.forwarded
  {
  }

  /** What holds of a run of one call's events. */
  ghost predicate Forwarded(st: State, es: seq<Event>) {
    && (Run(st, es) == Panicked <==> Tears(st.pendingArgs, es))
    && (Run(st, es).Ran? ==>
          Known(st.pendingArgs + Args(es)) == Known(st.pendingArgs) + Run(st, es).ofCalls
          && Run(st, es).st.pendingArgs == st.pendingArgs + Args(es))
  }

  lemma ForwardedByDelta(st: State, es: seq<Event>, next: State, spoken: string)
    requires es != [] && es[0].ArgsDelta? && Caught(st) && st.pendingName == SPEAK
    requires Step(st, es[0]) == Some((next, spoken)) && Forwarded(next, es[1..])
    ensures Forwarded(st, es)
  {
    ArgsOne(es);
    ArgsStep(st, es[0].delta);
    Reassociate(st.pendingArgs, es[0].delta, Args(es[1..]));
    if Run(next, es[1..]).Ran? {
      Reassociate(Known(st.pendingArgs), spoken, Run(next, es[1..]).ofCalls);
    }
  }

  lemma ForwardedByOther(st: State, es: seq<Event>, next: State, spoken: string)
    requires es != [] && (es[0].TextDelta? || es[0].Other?)
    requires Caught(st) && st.pendingName == SPEAK
    requires Step(st, es[0]) == Some((next, spoken)) && Forwarded(next, es[1..])
    ensures Forwarded(st, es)
  {
    ArgsOne(es);
    OtherStep(st, es[0]);
    assert st.pendingArgs + "" == st.pendingArgs;
    assert "" + Args(es[1..]) == Args(es[1..]);
  }

  /** From a speak call's state, however its arguments are cut into deltas and whatever text deltas
      come between: the handler panics exactly when some delta leaves the arguments torn, and
      otherwise the pieces forwarded are exactly what the arguments determine by now. */
  lemma {:induction false} ForwardsFrom(st: State, es: seq<Event>)
    requires Caught(st) && st.pendingName == SPEAK && OneCall(es)
    ensures Forwarded(st, es)
    decreases es
  {
    if es == [] {
      assert st.pendingArgs + "" == st.pendingArgs && Known(st.pendingArgs) + "" == Known(st.pendingArgs);
    } else if es[0].ArgsDelta? {
      ArgsOne(es);
      ArgsStep(st, es[0].delta);
      if Step(st, es[0]).Some? {
        var (next, spoken) := Step(st, es[0]).value;
        ForwardsFrom(next, es[1..]);
        ForwardedByDelta(st, es, next, spoken);
      }
    } else {
      OtherStep(st, es[0]);
      var (next, spoken) := Step(st, es[0]).value;
      ForwardsFrom(next, es[1..]);
      ForwardedByOther(st, es, next, spoken);
    }
  }

  /** A speak call from its start, at any point of the stream. */
  lemma ForwardsWholeCall(st: State, es: seq<Event>)
    requires OneCall(es)
    ensures var run := Run(st, [ItemAdded(true, SPEAK)] + es);
            && (run == Panicked <==> Tears("", es))
            && (run.Ran? ==> run.ofCalls == Known(Args(es)) && run.st.pendingArgs == Args(es))
  {
    var es' := [ItemAdded(true, SPEAK)] + es;
    assert es'[1..] == es;
    NothingKnown();
    var next := Step(st, es'[0]).value.0;
    ForwardsFrom(next, es);
    assert "" + Args(es) == Args(es);
    if Run(next, es).Ran? {
      assert "" + Run(next, es).ofCalls == Run(next, es).ofCalls;
    }
  }

  // ---- What a whole response comes to, from its events alone ---------------------------------------

  /** Starts a call, or ends an item: arguments are collected afresh. */
  predicate StartsAfresh(e: Event) {
    e.ItemDone? || (e.ItemAdded? && e.isCall)
  }

  /** How many events precede the arguments being collected. */
  function ItemStart(es: seq<Event>): (n: nat)
    ensures n <= |es|
  {
    if es == [] then 0
    else if StartsAfresh(es[|es| - 1]) then |es|
    else ItemStart(es[..|es| - 1])
  }

  /** The argument text that has arrived for the item under way. */
  function Collected(es: seq<Event>): string {
    Args(es[ItemStart(es)..])
  }

  /** The name of the call under way. */
  function Calling(es: seq<Event>): Option<string> {
    if ItemStart(es) == 0 then None
    else match es[ItemStart(es) - 1]
         case ItemAdded(_, name) => name
         case _ => None
  }

  /** The finished calls in order, each with its own arguments or, failing these, those collected for it. */
  function Finished(es: seq<Event>): seq<ToolCall> {
    if es == [] then []
    else
      var before, e := es[..|es| - 1], es[|es| - 1];
      Finished(before) +
      if e.ItemDone? && e.call.Some? then
        [ToolCall(if e.call.value.name.Some? then e.call.value.name.value else "",
                  if e.call.value.arguments.Some? then e.call.value.arguments.value else Collected(before))]
      else []
  }

  function Beyond(a: string, b: string): string {
    if a <= b then b[|a|..] else []
  }

  /** Text deltas as they come, and of a speak call what each delta newly determines. */
  function Said(es: seq<Event>): string {
    if es == [] then []
    else
      var before, e := es[..|es| - 1], es[|es| - 1];
      Said(before) +
      if e.TextDelta? then e.text
      else if e.ArgsDelta? && Calling(before) == SPEAK then Beyond(Known(Collected(before)), Known(Collected(es)))
      else []
  }

  lemma {:induction false} ArgsAppend(a: seq<Event>, b: seq<Event>)
    ensures Args(a + b) == Args(a) + Args(b)
  {
    if a == [] {
      assert a + b == b;
    } else {
      assert (a + b)[1..] == a[1..] + b;
      ArgsAppend(a[1..], b);
      Reassociate(if a[0].ArgsDelta? then a[0].delta else "", Args(a[1..]), Args(b));
    }
  }

  lemma {:induction false} RunSnoc(st: State, es: seq<Event>, e: Event)
    ensures Run(st, es + [e]).Ran? <==> Run(st, es).Ran? && Step(Run(st, es).st, e).Some?
    ensures Run(st, es + [e]).Ran? ==> Run(st, es + [e]).st == Step(Run(st, es).st, e).value.0
    decreases es
  {
    if es == [] {
      assert es + [e] == [e] && [e][1..] == [];
    } else {
      assert (es + [e])[1..] == es[1..] + [e];
      if Step(st, es[0]).Some? {
        RunSnoc(Step(st, es[0]).value.0, es[1..], e);
      }
    }
  }

  lemma ItemStartSnoc(es: seq<Event>, e: Event)
    ensures ItemStart(es + [e]) == if StartsAfresh(e) then |es| + 1 else ItemStart(es)
    ensures (es + [e])[..|es|] == es && (es + [e])[|es|] == e
  {
    assert (es + [e])[..|es|] == es;
  }

  lemma TailSnoc(es: seq<Event>, e: Event, k: nat)
    requires k <= |es|
    ensures (es + [e])[k..] == es[k..] + [e]
  {
  }

  lemma ArgsOfOne(e: Event)
    ensures Args([e]) == if e.ArgsDelta? then e.delta else ""
  {
    assert [e][..1] == [e];
    ArgsOne([e]);
  }

  lemma CollectedSnoc(es: seq<Event>, e: Event)
    ensures Collected(es + [e]) ==
            if StartsAfresh(e) then "" else Collected(es) + if e.ArgsDelta? then e.delta else ""
  {
    ItemStartSnoc(es, e);
    if StartsAfresh(e) {
      assert (es + [e])[|es| + 1..] == [];
    } else {
      TailSnoc(es, e, ItemStart(es));
      ArgsAppend(es[ItemStart(es)..], [e]);
      ArgsOfOne(e);
    }
  }

  lemma CallingSnoc(es: seq<Event>, e: Event)
    ensures Calling(es + [e]) ==
            if e.ItemDone? then None else if e.ItemAdded? && e.isCall then e.name else Calling(es)
  {
    ItemStartSnoc(es, e);
  }

  lemma FinishedSnoc(es: seq<Event>, e: Event)
    ensures Finished(es + [e]) == Finish(State(None, Collected(es), 0, "", Finished(es)),
                                         if e.ItemDone? then e.call else None).toolCalls
  {
    ItemStartSnoc(es, e);
    assert Finished(es) + [] == Finished(es);
  }

  lemma SaidSnoc(es: seq<Event>, e: Event)
    ensures Said(es + [e]) ==
            Said(es) + if e.TextDelta? then e.text
                       else if e.ArgsDelta? && Calling(es) == SPEAK
                         then Beyond(Known(Collected(es)), Known(Collected(es + [e])))
                       else []
  {
    ItemStartSnoc(es, e);
  }

  /** The state of the handler after `es`. */
  ghost predicate Reflects(st: State, es: seq<Event>) {
    && Caught(st) && st.pendingName == Calling(es) && st.pendingArgs == Collected(es)
    && st.toolCalls == Finished(es) && st.fullReply == Said(es)
  }

  /** One event moves the name, the arguments and the finished calls as it should. */
  lemma StepCollects(st: State, e: Event)
    requires Step(st, e).Some?
    ensures var next := Step(st, e).value.0;
            && next.pendingName == (if e.ItemDone? then None
                                    else if e.ItemAdded? && e.isCall then e.name
                                    else st.pendingName)
            && next.pendingArgs == (if StartsAfresh(e) then ""
                                    else st.pendingArgs + if e.ArgsDelta? then e.delta else "")
            && next.toolCalls == Finish(st, if e.ItemDone? then e.call else None).toolCalls
  {
    assert st.pendingArgs + "" == st.pendingArgs;
  }

  lemma StepSays(st: State, e: Event)
    requires Caught(st) && Step(st, e).Some?
    ensures var (next, spoken) := Step(st, e).value;
            spoken == if e.TextDelta? then e.text
                      else if e.ArgsDelta? && st.pendingName == SPEAK
                        then Beyond(Known(st.pendingArgs), Known(next.pendingArgs))
                      else []
  {
    if e.ArgsDelta? && st.pendingName == SPEAK {
      ArgsStep(st, e.delta);
      BeyondIs(Known(st.pendingArgs), Step(st, e).value.1);
    }
  }

  lemma ReflectsStep(st: State, es: seq<Event>, e: Event)
    requires Reflects(st, es) && Step(st, e).Some?
    ensures Reflects(Step(st, e).value.0, es + [e])
  {
    StepCaught(st, e);
    StepCollects(st, e);
    StepSays(st, e);
    CollectedSnoc(es, e);
    CallingSnoc(es, e);
    FinishedSnoc(es, e);
    SaidSnoc(es, e);
  }

  lemma BeyondIs(a: string, b: string)
    ensures Beyond(a, a + b) == b
  {
  }

  /** For every sequence of events that does not make the handler panic: the calls returned are the
      finished calls in order, and the reply is, event by event, the text deltas and what the
      arguments of speak calls newly determine. */
  lemma {:induction false} ReturnsCallsAndReply(es: seq<Event>)
    requires Run(INITIAL, es).Ran?
    ensures Reflects(Run(INITIAL, es).st, es)
    decreases |es|
  {
    if es != [] {
      var before, e := es[..|es| - 1], es[|es| - 1];
      assert es == before + [e];
      RunSnoc(INITIAL, before, e);
      ReturnsCallsAndReply(before);
      ReflectsStep(Run(INITIAL, before).st, before, e);
    }
  }

  /** Some delta of a speak call leaves its arguments torn. */
  predicate TornSomewhere(es: seq<Event>) {
    es != [] &&
    var before, e := es[..|es| - 1], es[|es| - 1];
    TornSomewhere(before)
    || (e.ArgsDelta? && Calling(before) == SPEAK && Extracted(Collected(es), "text") == Torn)
  }

  lemma StepPanics(st: State, e: Event)
    requires Caught(st)
    ensures Step(st, e) == None <==>
            e.ArgsDelta? && st.pendingName == SPEAK && Extracted(st.pendingArgs + e.delta, "text") == Torn
  {
    if e.ArgsDelta? && st.pendingName == SPEAK {
      ArgsStep(st, e.delta);
    }
  }

  lemma TornSnoc(es: seq<Event>, e: Event)
    ensures TornSomewhere(es + [e]) <==>
            || TornSomewhere(es)
            || (e.ArgsDelta? && Calling(es) == SPEAK && Extracted(Collected(es) + e.delta, "text") == Torn)
  {
    ItemStartSnoc(es, e);
    CollectedSnoc(es, e);
  }

  /** Over any sequence of events the handler panics exactly when some delta of a speak call leaves
      its arguments torn. */
  lemma {:induction false} PanicsExactly(es: seq<Event>)
    ensures Run(INITIAL, es) == Panicked <==> TornSomewhere(es)
    decreases |es|
  {
    if es != [] {
      var before, e := es[..|es| - 1], es[|es| - 1];
      assert es == before + [e];
      PanicsExactly(before);
      RunSnoc(INITIAL, before, e);
      TornSnoc(before, e);
      if Run(INITIAL, before).Ran? {
        ReturnsCallsAndReply(before);
        StepPanics(Run(INITIAL, before).st, e);
      }
    }
  }
}
