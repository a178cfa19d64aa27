/** JSON strings (section 7 of RFC 8259), without surrogate pairs. */
module JsonStrings {
  import opened Wrappers

  /** The character a two-character escape stands for; unknown ones stand for themselves. */
  function Escaped(c: char): char {
    match c
    case 'n' => '\n'
    case 't' => '\t'
    case 'r' => '\r'
    case 'b' => '\U{8}'
    case 'f' => '\U{C}'
    case _ => c
  }

  function HexDigit(c: char): Option<nat> {
    if '0' <= c <= '9' then Some(c as int - '0' as int)
    else if 'a' <= c <= 'f' then Some(c as int - 'a' as int + 10)
    else if 'A' <= c <= 'F' then Some(c as int - 'A' as int + 10)
    else None
  }

  function Digits(h: string): Option<nat> {
    if h == [] then Some(0)
    else
      var high, low := Digits(h[..|h| - 1]), HexDigit(h[|h| - 1]);
      if high == None || low == None then None else Some(high.value * 16 + low.value)
  }

  // A string is a sequence of units; an encoder may choose any unit that stands for a character.

  datatype Unit = Plain(c: char) | Short(e: char) | Hex(digits: string)

  predicate ValidUnit(u: Unit) {
    match u
    case Plain(c) => c != '"' && c != '\\'
    case Short(e) => e == '"' || e == '\\' || e == '/' || e == 'b' || e == 'f' || e == 'n' || e == 'r' || e == 't'
    case Hex(d) => |d| == 4 && Digits(d).Some? && (Digits(d).value < 0xD800 || 0xE000 <= Digits(d).value < 0x110000)
  }

  predicate ValidUnits(us: seq<Unit>) {
    us == [] || (ValidUnit(us[0]) && ValidUnits(us[1..]))
  }

  function EncodeUnit(u: Unit): string {
    match u
    case Plain(c) => [c]
    case Short(e) => ['\\', e]
    case Hex(d) => ['\\', 'u'] + d
  }

  /** The character a unit stands for. */
  function UnitChar(u: Unit): char
    requires ValidUnit(u)
  {
    match u
    case Plain(c) => c
    case Short(e) => Escaped(e)
    case Hex(d) => Digits(d).value as char
  }

  function Encode(us: seq<Unit>): string {
    if us == [] then [] else EncodeUnit(us[0]) + Encode(us[1..])
  }

  function Text(us: seq<Unit>): string
    requires ValidUnits(us)
  {
    if us == [] then [] else [UnitChar(us[0])] + Text(us[1..])
  }

  // ---- What the units mean, by code point ----------------------------------------------------------

  const LOWER := "0123456789abcdef"
  const UPPER := "0123456789ABCDEF"

  predicate IsDigit(d: char, v: int) {
    0 <= v < 16 && (d == LOWER[v] || d == UPPER[v])
  }

  /** Character `c`, but for quotes and backslashes, stands for itself; eight escapes name a code
      point, and four hexadecimal digits spell one. */
  predicate StandsFor(u: Unit, c: char) {
    var code := c as int;
    match u
    case Plain(p) => c == p && code != 0x22 && code != 0x5C
    case Short(e) =>
      || (e == '"' && code == 0x22) || (e == '\\' && code == 0x5C) || (e == '/' && code == 0x2F)
      || (e == 'b' && code == 0x8) || (e == 'f' && code == 0xC) || (e == 'n' && code == 0xA)
      || (e == 'r' && code == 0xD) || (e == 't' && code == 0x9)
    case Hex(d) =>
      && |d| == 4 && code < 0x1_0000
      && IsDigit(d[0], code / 0x1000) && IsDigit(d[1], code / 0x100 % 0x10)
      && IsDigit(d[2], code / 0x10 % 0x10) && IsDigit(d[3], code % 0x10)
  }

  /** Unit by unit. */
  predicate Means(us: seq<Unit>, text: string) {
    if us == [] then text == [] else text != [] && StandsFor(us[0], text[0]) && Means(us[1..], text[1..])
  }

  lemma LettersApart(d: char, v: int)
    requires 0 <= v < 16
    ensures v < 10 ==> LOWER[v] as int == '0' as int + v && UPPER[v] == LOWER[v]
    ensures v >= 10 ==> LOWER[v] as int == 'a' as int + (v - 10) && UPPER[v] as int == 'A' as int + (v - 10)
  {
    assert LOWER[0] == '0' && LOWER[1] == '1' && LOWER[2] == '2' && LOWER[3] == '3' && LOWER[4] == '4';
    assert LOWER[5] == '5' && LOWER[6] == '6' && LOWER[7] == '7' && LOWER[8] == '8' && LOWER[9] == '9';
    assert UPPER[0] == '0' && UPPER[1] == '1' && UPPER[2] == '2' && UPPER[3] == '3' && UPPER[4] == '4';
    assert UPPER[5] == '5' && UPPER[6] == '6' && UPPER[7] == '7' && UPPER[8] == '8' && UPPER[9] == '9';
    assert LOWER[10] == 'a' && LOWER[11] == 'b' && LOWER[12] == 'c';
    assert LOWER[13] == 'd' && LOWER[14] == 'e' && LOWER[15] == 'f';
    assert UPPER[10] == 'A' && UPPER[11] == 'B' && UPPER[12] == 'C';
    assert UPPER[13] == 'D' && UPPER[14] == 'E' && UPPER[15] == 'F';
  }

  lemma DigitMeans(d: char, v: int)
    requires 0 <= v < 16
    ensures IsDigit(d, v) <==> HexDigit(d) == Some(v)
  {
    LettersApart(d, v);
  }

  lemma DigitsNext(d: string, n: nat)
    requires n < |d|
    ensures Digits(d[..n + 1]) ==
            if Digits(d[..n]) == None || HexDigit(d[n]) == None then None
            else Some(Digits(d[..n]).value * 16 + HexDigit(d[n]).value)
  {
    assert d[..n + 1][..n] == d[..n];
  }

  lemma DigitsOfFour(d: string)
    requires |d| == 4
    ensures Digits(d) ==
            if HexDigit(d[0]) == None || HexDigit(d[1]) == None || HexDigit(d[2]) == None || HexDigit(d[3]) == None
            then None
            else Some(HexDigit(d[0]).value * 0x1000 + HexDigit(d[1]).value * 0x100
                      + HexDigit(d[2]).value * 0x10 + HexDigit(d[3]).value)
  {
    DigitsNext(d, 0);
    DigitsNext(d, 1);
    DigitsNext(d, 2);
    DigitsNext(d, 3);
    assert d[..4] == d && d[..0] == [];
  }

  lemma Nibble(n: nat, q: int, r: int)
    requires 0 <= r < 16
    ensures n == q * 16 + r <==> q == n / 16 && r == n % 16
  {
  }

  lemma Shifted(code: nat)
    ensures code / 0x10 / 0x10 == code / 0x100 && code / 0x100 / 0x10 == code / 0x1000
  {
  }

  lemma Nibbles(code: nat, a: nat, b: nat, c: nat, d: nat)
    requires code < 0x1_0000 && a < 16 && b < 16 && c < 16 && d < 16
    ensures code == a * 0x1000 + b * 0x100 + c * 0x10 + d <==>
            a == code / 0x1000 && b == code / 0x100 % 0x10 && c == code / 0x10 % 0x10 && d == code % 0x10
  {
    Shifted(code);
    Nibble(code, (a * 16 + b) * 16 + c, d);
    Nibble(code / 0x10, a * 16 + b, c);
    Nibble(code / 0x100, a, b);
  }

  /** Four digits spell a code point exactly when the reader makes it of them. */
  lemma HexMeans(d: string, code: int)
    requires |d| == 4 && 0 <= code < 0x1_0000
    ensures IsDigit(d[0], code / 0x1000) && IsDigit(d[1], code / 0x100 % 0x10)
            && IsDigit(d[2], code / 0x10 % 0x10) && IsDigit(d[3], code % 0x10)
            <==> Digits(d) == Some(code)
  {
    DigitsOfFour(d);
    DigitMeans(d[0], code / 0x1000);
    DigitMeans(d[1], code / 0x100 % 0x10);
    DigitMeans(d[2], code / 0x10 % 0x10);
    DigitMeans(d[3], code % 0x10);
    if Digits(d).Some? {
      Nibbles(code, HexDigit(d[0]).value, HexDigit(d[1]).value, HexDigit(d[2]).value, HexDigit(d[3]).value);
    }
  }

  lemma {:induction false} DigitsBound(h: string)
    requires |h| <= 4 && Digits(h).Some?
    ensures Digits(h).value < 0x1_0000
    ensures |h| <= 3 ==> Digits(h).value < 0x1000
    ensures |h| <= 2 ==> Digits(h).value < 0x100
    ensures |h| <= 1 ==> Digits(h).value < 0x10
  {
    if |h| > 0 {
      DigitsBound(h[..|h| - 1]);
    }
  }

  lemma UnitMeans(u: Unit, c: char)
    ensures StandsFor(u, c) <==> ValidUnit(u) && UnitChar(u) == c
  {
    if u.Hex? && |u.digits| == 4 {
      if Digits(u.digits).Some? {
        DigitsBound(u.digits);
      }
      if c as int < 0x1_0000 {
        HexMeans(u.digits, c as int);
      }
    }
  }

  /** The text that units stand for. */
  lemma {:induction false} TextMeans(us: seq<Unit>, text: string)
    ensures Means(us, text) <==> ValidUnits(us) && Text(us) == text
  {
    if us != [] && text != [] {
      UnitMeans(us[0], text[0]);
      TextMeans(us[1..], text[1..]);
      assert text == [text[0]] + text[1..];
    }
  }

  // ---- An encoder ----------------------------------------------------------------------------------

  /** Quotes, backslashes and control characters must be escaped. */
  function Escape(c: char): Unit {
    var code := c as int;
    if c == '"' || c == '\\' then Short(c)
    else if c == '\n' then Short('n')
    else if c == '\t' then Short('t')
    else if c == '\r' then Short('r')
    else if code == 8 then Short('b')
    else if code == 12 then Short('f')
    else if code < 0x20 then Hex(['0', '0', LOWER[code / 0x10], LOWER[code % 0x10]])
    else Plain(c)
  }

  function Escapes(text: string): seq<Unit> {
    if text == [] then [] else [Escape(text[0])] + Escapes(text[1..])
  }

  lemma LowerIsDigit(v: int)
    requires 0 <= v < 16
    ensures IsDigit(LOWER[v], v) && LOWER[v] as int >= 0x20
  {
    LettersApart('0', v);
  }

  lemma ControlMeans(c: char)
    requires c as int < 0x20
    ensures StandsFor(Hex(['0', '0', LOWER[c as int / 0x10], LOWER[c as int % 0x10]]), c)
  {
    assert LOWER[0] == '0';
    LowerIsDigit(c as int / 0x10);
    LowerIsDigit(c as int % 0x10);
  }

  lemma EscapeMeans(c: char)
    ensures StandsFor(Escape(c), c)
    ensures forall d :: d in EncodeUnit(Escape(c)) ==> d as int >= 0x20
  {
    if Escape(c).Hex? {
      ControlMeans(c);
      LowerIsDigit(c as int / 0x10);
      LowerIsDigit(c as int % 0x10);
    }
  }

  /** Every text has an encoding, in which no control character is left. */
  lemma {:induction false} EveryTextEncodes(text: string)
    ensures Means(Escapes(text), text)
    ensures forall d :: d in Encode(Escapes(text)) ==> d as int >= 0x20
  {
    if text != [] {
      EscapeMeans(text[0]);
      EveryTextEncodes(text[1..]);
      assert Escapes(text)[1..] == Escapes(text[1..]);
    }
  }

  lemma {:induction false} TextLength(us: seq<Unit>)
    requires ValidUnits(us)
    ensures |Text(us)| == |us|
  {
    if us != [] {
      TextLength(us[1..]);
    }
  }
}
