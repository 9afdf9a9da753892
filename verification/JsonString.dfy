/** JSON string literals over UTF-16 code units: `JSON.stringify` of a string (ECMA-262,
    QuoteJSONString) and the string rule of `JSON.parse` (section 7 of RFC 8259). */
module JsonString {
  import opened Common

  /** One UTF-16 code unit; a JavaScript string is a sequence of them. */
  type CodeUnit = u: nat | u < 0x1_0000
  type Text = seq<CodeUnit>

  function Unit(c: char): CodeUnit { if c < 128 as char then c as int else 63 }

  /** The code units of an ASCII literal. */
  function Ascii(s: string): (t: Text)
    ensures |t| == |s|
  {
    seq<CodeUnit>(|s|, i requires 0 <= i < |s| => Unit(s[i]))
  }

  const QUOTE: CodeUnit := 34
  const BACKSLASH: CodeUnit := 92

  predicate IsHigh(u: CodeUnit) { 0xD800 <= u < 0xDC00 }
  predicate IsLow(u: CodeUnit) { 0xDC00 <= u < 0xE000 }

  predicate StartsWithPair(s: Text) { |s| >= 2 && IsHigh(s[0]) && IsLow(s[1]) }

  /** Lower-case hexadecimal digit, as in the escape `\u001f`. */
  function HexDigit(n: nat): (u: CodeUnit)
    requires n < 16
  {
    if n < 10 then 48 + n else 87 + n
  }

  /** The value of a hexadecimal digit of either case. */
  function HexValue(u: CodeUnit): (r: Option<nat>)
    ensures r.Some? ==> r.value < 16
  {
    if 48 <= u <= 57 then Some(u - 48)
    else if 97 <= u <= 102 then Some(u - 87)
    else if 65 <= u <= 70 then Some(u - 55)
    else None
  }

  function UnicodeEscape(u: CodeUnit): Text {
    [BACKSLASH, 117, HexDigit(u / 0x1000), HexDigit(u / 0x100 % 16), HexDigit(u / 16 % 16), HexDigit(u % 16)]
  }

  /** How a code unit that is not part of a surrogate pair is written. */
  function EscapeUnit(u: CodeUnit): Text {
    if u == 8 then [BACKSLASH, 98]
    else if u == 9 then [BACKSLASH, 116]
    else if u == 10 then [BACKSLASH, 110]
    else if u == 12 then [BACKSLASH, 102]
    else if u == 13 then [BACKSLASH, 114]
    else if u == QUOTE || u == BACKSLASH then [BACKSLASH, u]
    else if u < 32 || IsHigh(u) || IsLow(u) then UnicodeEscape(u)
    else [u]
  }

  /** The seven short escapes, the long one for other control characters and lone surrogates, and nothing
      else is escaped. */
  lemma EscapesAre(u: CodeUnit)
    ensures EscapeUnit(8) == [92, 98] && EscapeUnit(9) == [92, 116] && EscapeUnit(10) == [92, 110]
            && EscapeUnit(12) == [92, 102] && EscapeUnit(13) == [92, 114] && EscapeUnit(34) == [92, 34]
            && EscapeUnit(92) == [92, 92]
    ensures u !in {8, 9, 10, 12, 13, 34, 92} ==>
              EscapeUnit(u) == if u < 0x20 || 0xD800 <= u <= 0xDFFF then UnicodeEscape(u) else [u]
  {
  }

  /** A hexadecimal digit of either case. */
  lemma HexValueIff(u: CodeUnit, n: nat)
    ensures HexValue(u) == Some(n) <==>
            (n < 10 && u == '0' as int + n)
            || (10 <= n < 16 && (u == 'a' as int + n - 10 || u == 'A' as int + n - 10))
  {
  }

  /** Escapes a whole string; a surrogate pair is copied, a lone surrogate is escaped. */
  function Escape(s: Text): Text {
    if s == [] then []
    else if StartsWithPair(s) then s[..2] + Escape(s[2..])
    else EscapeUnit(s[0]) + Escape(s[1..])
  }

  function Quote(s: Text): Text { [QUOTE] + Escape(s) + [QUOTE] }

  /** What an escape sequence at the head of `t` denotes, and the text after it. */
  function ReadEscape(t: Text): (r: Option<(CodeUnit, Text)>)
    requires t != [] && t[0] == BACKSLASH
    ensures r.Some? ==> |r.value.1| < |t|
  {
    if |t| < 2 then None
    else if t[1] == 98 then Some((8, t[2..]))
    else if t[1] == 116 then Some((9, t[2..]))
    else if t[1] == 110 then Some((10, t[2..]))
    else if t[1] == 102 then Some((12, t[2..]))
    else if t[1] == 114 then Some((13, t[2..]))
    else if t[1] == QUOTE || t[1] == BACKSLASH || t[1] == 47 then Some((t[1], t[2..]))
    else if t[1] == 117 && |t| >= 6 then
      match (HexValue(t[2]), HexValue(t[3]), HexValue(t[4]), HexValue(t[5]))
      case (Some(a), Some(b), Some(c), Some(d)) => Some((a * 0x1000 + b * 0x100 + c * 16 + d, t[6..]))
      case _ => None
    else None
  }

  /** The eight short escapes `JSON.parse` knows, a solidus among them; any other letter but `u` is refused. */
  lemma ReadsShortEscapes(u: CodeUnit, rest: Text)
    ensures ReadEscape([BACKSLASH, u] + rest).Some? && u != 'u' as int ==>
              u in {34, 47, 92, 98, 102, 110, 114, 116}
    ensures u in {34, 47, 92} ==> ReadEscape([BACKSLASH, u] + rest) == Some((u, rest))
    ensures ReadEscape([BACKSLASH, 'b' as int] + rest) == Some((8, rest))
    ensures ReadEscape([BACKSLASH, 't' as int] + rest) == Some((9, rest))
    ensures ReadEscape([BACKSLASH, 'n' as int] + rest) == Some((10, rest))
    ensures ReadEscape([BACKSLASH, 'f' as int] + rest) == Some((12, rest))
    ensures ReadEscape([BACKSLASH, 'r' as int] + rest) == Some((13, rest))
  {
    forall x: CodeUnit ensures ([BACKSLASH, x] + rest)[2..] == rest && ([BACKSLASH, x] + rest)[1] == x {
    }
  }

  /** Reads string contents up to the closing quotation mark, as `JSON.parse` does. */
  function ReadString(t: Text): (r: Option<(Text, Text)>)
    ensures r.Some? ==> |r.value.1| < |t|
    decreases |t|
  {
    if t == [] || t[0] < 32 then None
    else if t[0] == QUOTE then Some(([], t[1..]))
    else if t[0] == BACKSLASH then
      match ReadEscape(t)
      case None => None
      case Some((u, rest)) => Prepend(u, ReadString(rest))
    else Prepend(t[0], ReadString(t[1..]))
  }

  function Prepend(u: CodeUnit, r: Option<(Text, Text)>): Option<(Text, Text)> {
    if r.None? then None else Some(([u] + r.value.0, r.value.1))
  }

  lemma FourHexDigits(u: CodeUnit)
    ensures u == u / 0x1000 * 0x1000 + u / 0x100 % 16 * 0x100 + u / 16 % 16 * 16 + u % 16
    ensures u / 0x1000 < 16
  {
  }

  lemma HexRoundTrip(n: nat)
    requires n < 16
    ensures HexValue(HexDigit(n)) == Some(n)
  {
  }

  lemma HexDigitsOfUnit(u: CodeUnit, rest: Text)
    ensures ReadEscape(UnicodeEscape(u) + rest) == Some((u, rest))
  {
    hide HexDigit, HexValue;
    FourHexDigits(u);
    var a, b, c, d := u / 0x1000, u / 0x100 % 16, u / 16 % 16, u % 16;
    HexRoundTrip(a);
    HexRoundTrip(b);
    HexRoundTrip(c);
    HexRoundTrip(d);
    var e := [BACKSLASH, 117, HexDigit(a), HexDigit(b), HexDigit(c), HexDigit(d)];
    assert UnicodeEscape(u) == e;
    var t := e + rest;
    assert t[6..] == rest;
    assert t[..6] == e;
  }

  /** One escaped unit reads back as that unit. */
  lemma ReadEscapedUnit(u: CodeUnit, rest: Text)
    ensures ReadString(EscapeUnit(u) + rest) == Prepend(u, ReadString(rest))
  {
    var e := EscapeUnit(u);
    var t := e + rest;
    if |e| == 6 {
      HexDigitsOfUnit(u, rest);
    } else if |e| == 2 {
      assert t[2..] == rest;
    } else {
      assert t[1..] == rest;
    }
  }

  /** A unit that needs no escape reads as itself. */
  lemma ReadPlainUnit(u: CodeUnit, rest: Text)
    requires u >= 32 && u != QUOTE && u != BACKSLASH
    ensures ReadString([u] + rest) == Prepend(u, ReadString(rest))
  {
    assert ([u] + rest)[1..] == rest;
  }

  /** `QUOTE` closes the string. */
  lemma ReadClosing(rest: Text)
    ensures ReadString([QUOTE] + rest) == Some(([], rest))
  {
    assert ([QUOTE] + rest)[1..] == rest;
  }

  /** Reading an escaped string returns the string and leaves what follows the closing mark. */
  lemma {:induction false} ReadEscaped(s: Text, rest: Text)
    ensures ReadString(Escape(s) + ([QUOTE] + rest)) == Some((s, rest))
    decreases |s|
  {
    if s == [] {
      assert Escape(s) + ([QUOTE] + rest) == [QUOTE] + rest;
      ReadClosing(rest);
    } else if StartsWithPair(s) {
      ReadEscapedPair(s, rest);
    } else {
      ReadEscapedPlain(s, rest);
    }
  }

  lemma {:induction false} ReadEscapedPlain(s: Text, rest: Text)
    requires s != [] && !StartsWithPair(s)
    ensures ReadString(Escape(s) + ([QUOTE] + rest)) == Some((s, rest))
    decreases |s|, 0
  {
    hide ReadString, EscapeUnit;
    var tail := Escape(s[1..]) + ([QUOTE] + rest);
    ReadEscaped(s[1..], rest);
    ReadEscapedUnit(s[0], tail);
    assert EscapeUnit(s[0]) + Escape(s[1..]) + ([QUOTE] + rest) == EscapeUnit(s[0]) + tail;
    assert s == [s[0]] + s[1..];
  }

  lemma {:induction false} ReadEscapedPair(s: Text, rest: Text)
    requires StartsWithPair(s)
    ensures ReadString(Escape(s) + ([QUOTE] + rest)) == Some((s, rest))
    decreases |s|, 0
  {
    hide ReadString;
    var tail := Escape(s[2..]) + ([QUOTE] + rest);
    ReadEscaped(s[2..], rest);
    ReadPlainUnit(s[1], tail);
    ReadPlainUnit(s[0], [s[1]] + tail);
    assert s[..2] + Escape(s[2..]) + ([QUOTE] + rest) == [s[0]] + ([s[1]] + tail);
    assert s == [s[0]] + ([s[1]] + s[2..]);
  }

  /** A quoted string delimits itself: it can be cut off any text it begins, in one way only. */
  lemma QuoteSeparable(a: Text, b: Text, restA: Text, restB: Text)
    requires Quote(a) + restA == Quote(b) + restB
    ensures a == b && restA == restB
  {
    var ta, tb := Escape(a) + ([QUOTE] + restA), Escape(b) + ([QUOTE] + restB);
    assert Quote(a) + restA == [QUOTE] + ta && Quote(b) + restB == [QUOTE] + tb;
    assert ta == ([QUOTE] + ta)[1..] && tb == ([QUOTE] + tb)[1..];
    ReadEscaped(a, restA);
    ReadEscaped(b, restB);
  }
}
