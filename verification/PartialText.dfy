/** The orchestrator's reader of the "text" value in a JSON object that is still arriving. */
module PartialText {
  import opened Wrappers
  import opened Chars
  import opened JsonStrings
  import opened StreamSplitter

  const KEY := "\"text\""

  // ---- The value ------------------------------------------------------------------------

  /** `u32::from_str_radix(h, 16)`: an optional plus sign, then at least one digit. */
  function HexValue(h: string): Option<nat> {
    if h == [] then None
    else if h[0] == '+' then (if |h| == 1 then None else Digits(h[1..]))
    else Digits(h)
  }

  /** The character with this code, or nothing for malformed digits and surrogates. */
  function HexChar(h: string): string {
    var v := HexValue(h);
    if v.Some? && (v.value < 0xD800 || 0xE000 <= v.value < 0x110000) then [v.value as char] else []
  }

  function HexTail(value: string): string
    requires |value| >= 2
  {
    if |value| < 6 then value[2..] else value[2..6]
  }

  /** Unescape up to the closing quote, or as far as the value has arrived. */
  function Unescape(value: string): string {
    if value == [] || value[0] == '"' then []
    else if value[0] != '\\' then [value[0]] + Unescape(value[1..])
    else if |value| == 1 then []
    else if value[1] == 'u' then HexChar(HexTail(value)) + Unescape(value[2 + |HexTail(value)|..])
    else [Escaped(value[1])] + Unescape(value[2..])
  }

  function Quoted(afterColon: string): Option<string> {
    var u := TrimStart(afterColon);
    if u == [] || u[0] != '"' then None else Some(u[1..])
  }

  /** What follows the opening quote of the value, if whitespace, a colon, whitespace and a quote
      follow the key. */
  function Opened(afterKey: string): Option<string> {
    var t := TrimStart(afterKey);
    if t == [] || t[0] != ':' then None else Quoted(t[1..])
  }

  function Extracted(accumulated: string): Option<string> {
    match Find(accumulated, KEY)
    case None => None
    case Some(at) =>
      match Opened(accumulated[at + |KEY|..])
      case None => None
      case Some(value) => Some(Unescape(value))
  }

  // ---- The reader as it runs ---------------------------------------------------------------

  method ExtractPartialText(accumulated: string) returns (r: Option<string>)
    ensures r == Extracted(accumulated)
  {
    var at := Find(accumulated, KEY);
    if at == None {
      return None;
    }
    var afterKey := accumulated[at.value + |KEY|..];
    var start := FindOpeningQuote(afterKey);
    if start == None {
      return None;
    }
    var out := ReadValue(afterKey[start.value..]);
    r := Some(out);
  }

  /** What the scan still has to find: a quote, and before it a colon unless that has been seen. */
  function Awaited(s: string, colonSeen: bool): Option<string> {
    if colonSeen then Quoted(s) else Opened(s)
  }

  lemma SkipWhitespace(s: string, i: nat, colonSeen: bool)
    requires i < |s| && IsWhitespace(s[i])
    ensures Awaited(s[i..], colonSeen) == Awaited(s[i + 1..], colonSeen)
  {
    assert s[i..][0] == s[i] && s[i..][1..] == s[i + 1..];
  }

  lemma MeetOther(s: string, i: nat, colonSeen: bool)
    requires i < |s| && !IsWhitespace(s[i])
    ensures Awaited(s[i..], colonSeen) ==
            if colonSeen then (if s[i] == '"' then Some(s[i + 1..]) else None)
            else if s[i] == ':' then Awaited(s[i + 1..], true) else None
  {
    assert s[i..][0] == s[i] && s[i..][1..] == s[i + 1..];
  }

  /** One scan: before the colon only whitespace may come, after it whitespace and then a quote. */
  method FindOpeningQuote(afterKey: string) returns (start: Option<nat>)
    ensures start.Some? ==> start.value <= |afterKey|
    ensures Opened(afterKey) == if start.Some? then Some(afterKey[start.value..]) else None
  {
    var i, colonSeen := 0, false;
    assert afterKey[0..] == afterKey;
    while i < |afterKey|
      invariant 0 <= i <= |afterKey|
      invariant Awaited(afterKey[i..], colonSeen) == Opened(afterKey)
    {
      var ch := afterKey[i];
      if !colonSeen {
        if IsWhitespace(ch) {
          SkipWhitespace(afterKey, i, colonSeen);
          i := i + 1;
          continue;
        }
        MeetOther(afterKey, i, colonSeen);
        if ch == ':' {
          colonSeen := true;
          i := i + 1;
          continue;
        }
        return None;
      }
      if IsWhitespace(ch) {
        SkipWhitespace(afterKey, i, colonSeen);
        i := i + 1;
        continue;
      }
      MeetOther(afterKey, i, colonSeen);
      if ch == '"' {
        return Some(i + 1);
      }
      return None;
    }
    start := None;
  }

  method ReadValue(value: string) returns (out: string)
    ensures out == Unescape(value)
  {
    out := "";
    var i := 0;
    while i < |value|
      invariant 0 <= i <= |value|
      invariant out + Unescape(value[i..]) == Unescape(value)
    {
      var rest := value[i..];
      var ch := value[i];
      if ch == '\\' {
        if i + 1 == |value| {
          break;
        }
        var e := value[i + 1];
        assert rest[1] == e;
        if e == 'u' {
          var hex := HexTail(rest);
          assert rest[2 + |hex|..] == value[i + 2 + |hex|..];
          Reassociate(out, HexChar(hex), Unescape(rest[2 + |hex|..]));
          out := out + HexChar(hex);
          i := i + 2 + |hex|;
        } else {
          assert rest[2..] == value[i + 2..];
          Reassociate(out, [Escaped(e)], Unescape(rest[2..]));
          out := out + [Escaped(e)];
          i := i + 2;
        }
        continue;
      }
      if ch == '"' {
        break;
      }
      assert rest[1..] == value[i + 1..];
      Reassociate(out, [ch], Unescape(rest[1..]));
      out := out + [ch];
      i := i + 1;
    }
  }

  lemma HexHasNoPlus(d: string)
    requires d != [] && Digits(d).Some?
    ensures HexValue(d) == Digits(d)
  {
    FirstIsDigit(d);
  }

  lemma {:induction false} FirstIsDigit(d: string)
    requires d != [] && Digits(d).Some?
    ensures HexDigit(d[0]).Some?
  {
    if |d| > 1 {
      FirstIsDigit(d[..|d| - 1]);
    }
  }

  lemma UnescapeUnit(u: Unit, rest: string)
    requires ValidUnit(u)
    ensures Unescape(EncodeUnit(u) + rest) == [UnitChar(u)] + Unescape(rest)
  {
    var v := EncodeUnit(u) + rest;
    match u
    case Plain(c) => assert v[1..] == rest;
    case Short(e) => assert v[1] == e && v[2..] == rest;
    case Hex(d) =>
      HexHasNoPlus(d);
      assert v[1] == 'u' && HexTail(v) == d && v[6..] == rest;
  }

  lemma {:induction false} UnescapeUnits(us: seq<Unit>, rest: string)
    requires ValidUnits(us)
    ensures Unescape(Encode(us) + rest) == Text(us) + Unescape(rest)
  {
    if us == [] {
      assert [] + rest == rest;
      assert [] + Unescape(rest) == Unescape(rest);
    } else {
      Reassociate(EncodeUnit(us[0]), Encode(us[1..]), rest);
      UnescapeUnit(us[0], Encode(us[1..]) + rest);
      UnescapeUnits(us[1..], rest);
    }
  }

  lemma UnescapeQuoted(us: seq<Unit>, after: string)
    requires ValidUnits(us)
    ensures Unescape(Encode(us) + ("\"" + after)) == Text(us)
  {
    UnescapeUnits(us, "\"" + after);
    assert Text(us) + [] == Text(us);
  }

  lemma OpensValue(ws1: string, ws2: string, value: string)
    requires IsBlank(ws1) && IsBlank(ws2)
    ensures Opened(ws1 + (":" + (ws2 + ("\"" + value)))) == Some(value)
  {
    var quoted := "\"" + value;
    var colon := ":" + (ws2 + quoted);
    TrimThrough(ws1, colon);
    assert colon[1..] == ws2 + quoted;
    TrimThrough(ws2, quoted);
    assert quoted[1..] == value;
  }

  /** The object up to the opening quote of the value; the first key literal ends `before + KEY`. */
  function Head(before: string, ws1: string, ws2: string, value: string): string {
    before + (KEY + (ws1 + (":" + (ws2 + ("\"" + value)))))
  }

  lemma ExtractsValue(before: string, ws1: string, ws2: string, value: string)
    requires IsBlank(ws1) && IsBlank(ws2) && Find(before + KEY, KEY) == Some(|before|)
    ensures Extracted(Head(before, ws1, ws2, value)) == Some(Unescape(value))
  {
    var tail := ws1 + (":" + (ws2 + ("\"" + value)));
    Reassociate(before, KEY, tail);
    FindStable(before + KEY, KEY, tail);
    var all := Head(before, ws1, ws2, value);
    assert all[|before| + |KEY|..] == tail;
    OpensValue(ws1, ws2, value);
  }

  /** Whatever units an encoder chose for a text, the reader makes the text of them. */
  lemma UnescapesMeaning(us: seq<Unit>, text: string, rest: string)
    requires Means(us, text)
    ensures Unescape(Encode(us) + rest) == text + Unescape(rest)
  {
    TextMeans(us, text);
    UnescapeUnits(us, rest);
  }

  /** A complete value under the first "text" key comes back as the text its units stand for. */
  lemma UndoesEscaping(before: string, ws1: string, ws2: string, us: seq<Unit>, text: string, after: string)
    requires Means(us, text)
    requires IsBlank(ws1) && IsBlank(ws2) && Find(before + KEY, KEY) == Some(|before|)
    ensures Extracted(Head(before, ws1, ws2, Encode(us) + ("\"" + after))) == Some(text)
  {
    TextMeans(us, text);
    UnescapeQuoted(us, after);
    ExtractsValue(before, ws1, ws2, Encode(us) + ("\"" + after));
  }

  /** Every text, encoded with its quotes, backslashes and control characters escaped, comes back. */
  lemma EncodedReadBack(before: string, ws1: string, ws2: string, text: string, after: string)
    requires IsBlank(ws1) && IsBlank(ws2) && Find(before + KEY, KEY) == Some(|before|)
    ensures Extracted(Head(before, ws1, ws2, Encode(Escapes(text)) + ("\"" + after))) == Some(text)
  {
    EveryTextEncodes(text);
    UndoesEscaping(before, ws1, ws2, Escapes(text), text, after);
  }

  // ---- Growth while the value arrives ---------------------------------------------------------------

  /** The arriving value is cut after `k` characters of a unit. */
  predicate CutsDigits(u: Unit, k: nat) {
    u.Hex? && 3 <= k <= 5 && u.digits != "0000"
  }

  /** What the reader makes of the first `k` characters of a unit. */
  function Partial(u: Unit, k: nat): string
    requires ValidUnit(u) && k < |EncodeUnit(u)|
  {
    if u.Hex? && k >= 3 then HexChar(u.digits[..k - 2]) else []
  }

  lemma UnescapePartial(u: Unit, k: nat)
    requires ValidUnit(u) && k < |EncodeUnit(u)|
    ensures Unescape(EncodeUnit(u)[..k]) == Partial(u, k)
  {
    var v := EncodeUnit(u)[..k];
    if k >= 2 {
      assert v[1] == 'u' && HexTail(v) == u.digits[..k - 2] && v[2 + |HexTail(v)|..] == [];
    }
  }

  lemma {:induction false} DigitsPrefix(d: string, j: nat)
    requires Digits(d).Some? && j <= |d|
    ensures Digits(d[..j]).Some? && Digits(d[..j]).value <= Digits(d).value
    ensures 0 < j < |d| && Digits(d[..j]).value == Digits(d).value ==> Digits(d).value == 0
    decreases |d|
  {
    if j < |d| {
      var init := d[..|d| - 1];
      assert init[..j] == d[..j];
      DigitsPrefix(init, j);
    } else {
      assert d[..j] == d;
    }
  }

  lemma {:induction false} ZeroDigits(d: string)
    requires Digits(d).Some?
    ensures Digits(d).value == 0 <==> d == seq(|d|, _ => '0')
  {
    if d != [] {
      var init := d[..|d| - 1];
      ZeroDigits(init);
      assert d == init + [d[|d| - 1]];
      assert seq(|d|, _ => '0') == seq(|init|, _ => '0') + ['0'];
      LastDigit(init, d[|d| - 1]);
    }
  }

  lemma LastDigit(init: string, c: char)
    ensures init + [c] == seq(|init|, _ => '0') + ['0'] <==> init == seq(|init|, _ => '0') && c == '0'
  {
    var zeros := seq(|init|, _ => '0');
    assert (init + [c])[..|init|] == init && (init + [c])[|init|] == c;
    assert (zeros + ['0'])[..|init|] == zeros && (zeros + ['0'])[|init|] == '0';
  }

  /** The reading of a cut unit is the start of the unit's character, except inside the digits of
      a non-zero \u escape. */
  lemma PartialIsPrefix(u: Unit, k: nat)
    requires ValidUnit(u) && k < |EncodeUnit(u)|
    ensures Partial(u, k) <= [UnitChar(u)] <==> !CutsDigits(u, k)
  {
    if u.Hex? && k >= 3 {
      var d := u.digits;
      SmallPrefix(d, k - 2);
      HexHasNoPlus(d[..k - 2]);
      PrefixOfDigits(d, k - 2);
      OneCharPrefix(Digits(d[..k - 2]).value as char, Digits(d).value as char);
    }
  }

  lemma OneCharPrefix(a: char, b: char)
    ensures [a] <= [b] <==> a == b
  {
    assert [a][0] == a && [b][0] == b;
  }

  lemma PrefixOfDigits(d: string, j: nat)
    requires |d| == 4 && Digits(d).Some? && 0 < j < 4
    ensures Digits(d[..j]).Some?
    ensures Digits(d[..j]).value == Digits(d).value <==> d == "0000"
  {
    DigitsPrefix(d, j);
    ZeroDigits(d);
    assert seq(4, _ => '0') == "0000";
  }

  /** At most three digits never reach the surrogates. */
  lemma SmallPrefix(d: string, j: nat)
    requires Digits(d).Some? && 0 < j <= 3 && j <= |d|
    ensures Digits(d[..j]).Some? && Digits(d[..j]).value < 0x1000
  {
    DigitsPrefix(d, j);
    DigitsBound(d[..j]);
  }

  lemma AppendPrefix(t: string, p: string, c: char, rest: string)
    requires |p| <= 1
    ensures t + p <= t + ([c] + rest) <==> p <= [c]
  {
    if |p| == 1 {
      assert (t + p)[|t|] == p[0] && (t + ([c] + rest))[|t|] == c;
    }
  }

  /** The object cut after the first `i` units of the value and `k` characters of the next. */
  function Arrived(before: string, ws1: string, ws2: string, us: seq<Unit>, i: nat, k: nat): string
    requires i < |us| && k < |EncodeUnit(us[i])|
  {
    Head(before, ws1, ws2, Encode(us[..i]) + EncodeUnit(us[i])[..k])
  }

  lemma TailParts(us: seq<Unit>, i: nat)
    requires 0 < i < |us|
    ensures us[1..][..i - 1] == us[..i][1..] && us[1..][i - 1..] == us[i..] && us[1..][i - 1] == us[i]
    ensures us[1..][i..] == us[i + 1..] && us[..i][0] == us[0]
  {
  }

  lemma {:induction false} ValidHalves(us: seq<Unit>, i: nat)
    requires ValidUnits(us) && i < |us|
    ensures ValidUnits(us[..i]) && ValidUnits(us[i..]) && ValidUnit(us[i])
  {
    if i == 0 {
      assert us[0..] == us;
    } else {
      ValidHalves(us[1..], i - 1);
      TailParts(us, i);
    }
  }

  lemma TailValid(us: seq<Unit>, i: nat)
    requires i < |us| && ValidUnits(us[i..])
    ensures ValidUnits(us[i + 1..])
  {
    assert us[i..][1..] == us[i + 1..];
  }

  lemma {:induction false} ValidParts(us: seq<Unit>, i: nat)
    requires ValidUnits(us) && i < |us|
    ensures ValidUnits(us[..i]) && ValidUnits(us[i + 1..]) && ValidUnit(us[i])
    ensures Text(us) == Text(us[..i]) + ([UnitChar(us[i])] + Text(us[i + 1..]))
  {
    ValidHalves(us, i);
    TailValid(us, i);
    if i == 0 {
      assert us[..0] == [] && [] + Text(us) == Text(us);
    } else {
      ValidParts(us[1..], i - 1);
      TailParts(us, i);
      Reassociate([UnitChar(us[0])], Text(us[..i][1..]), [UnitChar(us[i])] + Text(us[i + 1..]));
    }
  }

  /** The text that `i` whole units and `k` characters of the next one give. */
  function SoFar(us: seq<Unit>, i: nat, k: nat): string
    requires ValidUnits(us) && i < |us| && k < |EncodeUnit(us[i])|
  {
    ValidParts(us, i);
    Text(us[..i]) + Partial(us[i], k)
  }

  lemma UnescapeSoFar(us: seq<Unit>, i: nat, k: nat)
    requires ValidUnits(us) && i < |us| && k < |EncodeUnit(us[i])|
    ensures Unescape(Encode(us[..i]) + EncodeUnit(us[i])[..k]) == SoFar(us, i, k)
  {
    ValidParts(us, i);
    UnescapeUnits(us[..i], EncodeUnit(us[i])[..k]);
    UnescapePartial(us[i], k);
  }

  lemma ExtractedSoFar(before: string, ws1: string, ws2: string, us: seq<Unit>, i: nat, k: nat)
    requires ValidUnits(us)
    requires IsBlank(ws1) && IsBlank(ws2) && Find(before + KEY, KEY) == Some(|before|)
    requires i < |us| && k < |EncodeUnit(us[i])|
    ensures Extracted(Arrived(before, ws1, ws2, us, i, k)) == Some(SoFar(us, i, k))
  {
    UnescapeSoFar(us, i, k);
    ExtractsValue(before, ws1, ws2, Encode(us[..i]) + EncodeUnit(us[i])[..k]);
  }

  lemma SoFarIsPrefix(us: seq<Unit>, i: nat, k: nat)
    requires ValidUnits(us) && i < |us| && k < |EncodeUnit(us[i])|
    ensures SoFar(us, i, k) <= Text(us) <==> !CutsDigits(us[i], k)
  {
    ValidParts(us, i);
    PartialIsPrefix(us[i], k);
    AppendPrefix(Text(us[..i]), Partial(us[i], k), UnitChar(us[i]), Text(us[i + 1..]));
  }

  lemma ExtractedIsPrefix(before: string, ws1: string, ws2: string, us: seq<Unit>, i: nat, k: nat)
    requires ValidUnits(us)
    requires IsBlank(ws1) && IsBlank(ws2) && Find(before + KEY, KEY) == Some(|before|)
    requires i < |us| && k < |EncodeUnit(us[i])|
    ensures var extracted := Extracted(Arrived(before, ws1, ws2, us, i, k));
            extracted.Some? && (extracted.value <= Text(us) <==> !CutsDigits(us[i], k))
  {
    ExtractedSoFar(before, ws1, ws2, us, i, k);
    SoFarIsPrefix(us, i, k);
  }

  /** At every cut of the value but those inside the digits of a non-zero \u escape, and only at
      those, what has been extracted is a prefix of the whole text: forwarding the new suffix
      after each delta is then sound. */
  lemma GrowsByExtension(before: string, ws1: string, ws2: string, us: seq<Unit>, text: string, i: nat, k: nat)
    requires Means(us, text)
    requires IsBlank(ws1) && IsBlank(ws2) && Find(before + KEY, KEY) == Some(|before|)
    requires i < |us| && k < |EncodeUnit(us[i])|
    ensures var extracted := Extracted(Arrived(before, ws1, ws2, us, i, k));
            extracted.Some? && (extracted.value <= text <==> !CutsDigits(us[i], k))
  {
    TextMeans(us, text);
    ExtractedIsPrefix(before, ws1, ws2, us, i, k);
  }

  /** Of two arrivals, neither inside the digits of a non-zero \u escape, the later one gives an
      extension of what the earlier one gave. */
  lemma LaterExtends(before: string, ws1: string, ws2: string, us: seq<Unit>, i: nat, k: nat, j: nat, m: nat)
    requires ValidUnits(us)
    requires IsBlank(ws1) && IsBlank(ws2) && Find(before + KEY, KEY) == Some(|before|)
    requires i < |us| && k < |EncodeUnit(us[i])| && j < |us| && m < |EncodeUnit(us[j])|
    requires i < j || (i == j && k <= m)
    requires !CutsDigits(us[i], k) && !CutsDigits(us[j], m)
    ensures var earlier := Extracted(Arrived(before, ws1, ws2, us, i, k));
            var later := Extracted(Arrived(before, ws1, ws2, us, j, m));
            earlier.Some? && later.Some? && earlier.value <= later.value
  {
    ExtractedSoFar(before, ws1, ws2, us, i, k);
    ExtractedSoFar(before, ws1, ws2, us, j, m);
    SoFarGrows(us, i, k, j, m);
  }

  lemma SoFarGrows(us: seq<Unit>, i: nat, k: nat, j: nat, m: nat)
    requires ValidUnits(us)
    requires i < |us| && k < |EncodeUnit(us[i])| && j < |us| && m < |EncodeUnit(us[j])|
    requires i < j || (i == j && k <= m)
    requires !CutsDigits(us[i], k) && !CutsDigits(us[j], m)
    ensures SoFar(us, i, k) <= SoFar(us, j, m)
  {
    SoFarIsPrefix(us, i, k);
    SoFarIsPrefix(us, j, m);
    ValidParts(us, i);
    ValidParts(us, j);
    TextLength(us[..i]);
    TextLength(us[..j]);
    assert |Partial(us[i], k)| <= 1;
    assert i == j ==> |Partial(us[i], k)| <= |Partial(us[j], m)| by {
      if i == j {
        PartialGrows(us[i], k, m);
      }
    }
    ShorterPrefix(SoFar(us, i, k), SoFar(us, j, m), Text(us));
  }

  lemma PartialGrows(u: Unit, k: nat, m: nat)
    requires ValidUnit(u) && k <= m < |EncodeUnit(u)|
    ensures |Partial(u, k)| <= |Partial(u, m)|
  {
    if k >= 3 {
      SmallPrefix(u.digits, m - 2);
      HexHasNoPlus(u.digits[..m - 2]);
    }
  }

  /** The object {"text":"\u0041"}, cut one digit short: the reader makes U+0004 of it, and "A" of the whole. */
  lemma CutInsideDigits()
    ensures Extracted("{\"text\":\"\\u004") == Some(['\U{4}'])
    ensures Extracted("{\"text\":\"\\u0041\"}") == Some("A")
  {
    assert Head("{", "", "", "\\u004") == "{\"text\":\"\\u004";
    assert Head("{", "", "", "\\u0041\"}") == "{\"text\":\"\\u0041\"}";
    KeyAfterBrace();
    ThreeDigitsRead();
    ExtractsValue("{", "", "", "\\u004");
    FourDigitsRead();
    ExtractsValue("{", "", "", "\\u0041\"}");
  }

  lemma ThreeDigitsRead()
    ensures Unescape("\\u004") == ['\U{4}']
  {
    var u := Hex("0041");
    FourDigits();
    UnescapePartial(u, 5);
    HexHasNoPlus("004");
    assert EncodeUnit(u)[..5] == "\\u004" && u.digits[..3] == "004";
  }

  lemma FourDigitsRead()
    ensures Unescape("\\u0041\"}") == "A"
  {
    var us := [Hex("0041")];
    FourDigits();
    assert us[1..] == [] && Encode(us) == "\\u0041" && Text(us) == "A";
    UnescapeQuoted(us, "}");
    assert Encode(us) + ("\"" + "}") == "\\u0041\"}";
  }

  lemma FourDigits()
    ensures Digits("004") == Some(4) && Digits("0041") == Some(0x41)
  {
    assert "0041"[..3] == "004" && "004"[..2] == "00" && "00"[..1] == "0" && "0"[..0] == "";
    assert Digits("0") == Some(0) && Digits("00") == Some(0) && Digits("004") == Some(4);
  }

  lemma KeyAfterBrace()
    ensures Find("{" + KEY, KEY) == Some(1)
  {
    var s := "{" + KEY;
    assert s[1..1 + |KEY|] == KEY;
    assert s[0..|KEY|][0] == '{';
    FindIs(s, KEY, 1);
  }
}
