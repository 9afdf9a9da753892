/** UTF-16 text, its code points, and their UTF-8 bytes (section 3 of RFC 3629). */
module Utf8 {
  import opened Common
  import opened JsonString

  type Byte = b: nat | b < 256
  type CodePoint = c: nat | c < 0x11_0000

  predicate IsSurrogate(c: CodePoint) { 0xD800 <= c < 0xE000 }

  // Code points of UTF-16 text

  function Pair(s: Text): (c: CodePoint)
    requires StartsWithPair(s)
    ensures c >= 0x1_0000
  {
    var high: int, low: int := s[0] - 0xD800, s[1] - 0xDC00;
    0x1_0000 + high * 1024 + low
  }

  /** `Array.from` of a string: its code points; a lone surrogate stands for itself. */
  function Points(s: Text): seq<CodePoint> {
    if s == [] then [] else if StartsWithPair(s) then [Pair(s)] + Points(s[2..]) else [s[0]] + Points(s[1..])
  }

  function Units(c: CodePoint): Text {
    if c < 0x1_0000 then [c] else [0xD800 + (c - 0x1_0000) / 1024, 0xDC00 + (c - 0x1_0000) % 1024]
  }

  /** `join('')`. */
  function Joined(p: seq<CodePoint>): Text {
    if p == [] then [] else Units(p[0]) + Joined(p[1..])
  }

  /** No two neighbours that would read as one pair. */
  predicate Separated(p: seq<CodePoint>) {
    forall i | 0 <= i < |p| - 1 :: !(IsHigh16(p[i]) && IsLow16(p[i + 1]))
  }

  predicate IsHigh16(c: CodePoint) { c < 0x1_0000 && IsHigh(c) }
  predicate IsLow16(c: CodePoint) { c < 0x1_0000 && IsLow(c) }

  lemma {:induction false} PointsSeparated(s: Text)
    ensures Separated(Points(s))
    ensures Points(s) != [] && IsLow16(Points(s)[0]) ==> s != [] && IsLow(s[0])
    decreases |s|
  {
    if s == [] {
    } else if StartsWithPair(s) {
      PointsSeparated(s[2..]);
    } else {
      PointsSeparated(s[1..]);
      var p := Points(s);
      forall i | 0 <= i < |p| - 1 ensures !(IsHigh16(p[i]) && IsLow16(p[i + 1])) {
        if i > 0 {
          assert p[i] == Points(s[1..])[i - 1];
        }
      }
    }
  }

  lemma {:induction false} PairUnits(c: CodePoint, rest: Text)
    requires c >= 0x1_0000
    ensures StartsWithPair(Units(c) + rest) && Pair(Units(c) + rest) == c
  {
  }

  /** Cutting text between code points and joining the pieces neither splits nor makes pairs. */
  lemma {:induction false} PointsOfJoined(p: seq<CodePoint>)
    requires Separated(p)
    ensures Points(Joined(p)) == p
  {
    if p != [] {
      var rest := Joined(p[1..]);
      forall i | 0 <= i < |p[1..]| - 1 ensures !(IsHigh16(p[1..][i]) && IsLow16(p[1..][i + 1])) {
        assert !(IsHigh16(p[i + 1]) && IsLow16(p[i + 2]));
      }
      PointsOfJoined(p[1..]);
      var s := Units(p[0]) + rest;
      if p[0] >= 0x1_0000 {
        PairUnits(p[0], rest);
        assert s[2..] == rest;
      } else {
        assert s[1..] == rest;
        assert !StartsWithPair(s) by {
          if |p| > 1 {
            assert !(IsHigh16(p[0]) && IsLow16(p[1]));
            assert rest == Units(p[1]) + Joined(p[2..]) by { assert p[1..][1..] == p[2..]; }
          }
        }
      }
    }
  }

  lemma {:induction false} JoinedOfPoints(s: Text)
    ensures Joined(Points(s)) == s
    decreases |s|
  {
    if s != [] {
      if StartsWithPair(s) {
        JoinedOfPoints(s[2..]);
        assert Units(Pair(s)) == s[..2];
        assert Points(s)[1..] == Points(s[2..]);
      } else {
        JoinedOfPoints(s[1..]);
        assert Points(s)[1..] == Points(s[1..]);
      }
    }
  }

  /** No lone surrogate. */
  predicate WellFormed(s: Text) { forall i | 0 <= i < |Points(s)| :: !IsSurrogate(Points(s)[i]) }

  lemma WellFormedHead(s: Text, width: nat)
    requires s != [] && width == if StartsWithPair(s) then 2 else 1
    ensures Points(s) == [Points(s)[0]] + Points(s[width..])
    ensures WellFormed(s) <==> !IsSurrogate(Points(s)[0]) && WellFormed(s[width..])
  {
    var p, q := Points(s), Points(s[width..]);
    assert p == [p[0]] + q;
    hide Points, IsSurrogate;
    assert forall i | 0 <= i < |q| :: q[i] == p[i + 1];
  }

  // UTF-8

  function Encode(c: CodePoint): seq<Byte>
    requires !IsSurrogate(c)
  {
    if c < 0x80 then [c]
    else if c < 0x800 then [0xC0 + c / 64, 0x80 + c % 64]
    else if c < 0x1_0000 then [0xE0 + c / 4096, 0x80 + c / 64 % 64, 0x80 + c % 64]
    else [0xF0 + c / 262144, 0x80 + c / 4096 % 64, 0x80 + c / 64 % 64, 0x80 + c % 64]
  }

  predicate Continues(b: Byte) { 0x80 <= b < 0xC0 }

  /** How many bytes a lead byte announces; none for a byte that leads nothing. */
  function LeadLength(b: Byte): nat {
    if b < 0x80 then 1 else if b < 0xC0 then 0 else if b < 0xE0 then 2 else if b < 0xF0 then 3 else if b < 0xF8 then 4
        else 0
  }

  function Digits64(a: int, b: int, c: int, d: int): int { a * 262144 + b * 4096 + c * 64 + d }

  function LowBits(b: Byte): int { b % 64 }

  /** The code point of one whole encoded character, refusing overlong forms and surrogates. */
  function DecodeOne(b: seq<Byte>): Option<CodePoint>
    requires b != [] && |b| == LeadLength(b[0])
  {
    if !(forall i | 1 <= i < |b| :: Continues(b[i])) then None
    else
      var c := if |b| == 1 then b[0] as int
               else if |b| == 2 then Digits64(0, 0, b[0] % 32, LowBits(b[1]))
               else if |b| == 3 then Digits64(0, b[0] % 16, LowBits(b[1]), LowBits(b[2]))
               else Digits64(b[0] % 8, LowBits(b[1]), LowBits(b[2]), LowBits(b[3]));
      var least: int := if |b| == 1 then 0 else if |b| == 2 then 0x80 else if |b| == 3 then 0x800 else 0x1_0000;
      if least <= c < 0x11_0000 && !IsSurrogate(c) then Some(c) else None
  }

  lemma DigitsOf(n: nat)
    ensures n == Digits64(n / 262144, n / 4096 % 64, n / 64 % 64, n % 64)
  {
    assert n == n / 64 * 64 + n % 64;
    assert n / 64 == n / 4096 * 64 + n / 64 % 64;
    assert n / 4096 == n / 262144 * 64 + n / 4096 % 64;
  }

  lemma FromDigits(a: nat, b: nat, c: nat, d: nat)
    requires b < 64 && c < 64 && d < 64
    ensures var n := Digits64(a, b, c, d);
            n % 64 == d && n / 64 % 64 == c && n / 4096 % 64 == b && n / 262144 == a
            && n / 64 == a * 4096 + b * 64 + c && n / 4096 == a * 64 + b
  {
    var n := Digits64(a, b, c, d);
    LastDigit(a * 4096 + b * 64 + c, d);
    LastDigit(a * 64 + b, c);
    LastDigit(a, b);
    DivideTwice(n);
  }

  lemma LastDigit(q: nat, d: nat)
    requires d < 64
    ensures (q * 64 + d) / 64 == q && (q * 64 + d) % 64 == d
  {
  }

  lemma DivideTwice(n: nat)
    ensures n / 4096 == n / 64 / 64 && n / 262144 == n / 64 / 64 / 64
  {
    var q, r := n / 64, n % 64;
    assert n == q * 64 + r;
    var p, s := q / 64, q % 64;
    assert q == p * 64 + s;
    assert n == p * 4096 + (s * 64 + r) && s * 64 + r < 4096;
    Quotient(p, s * 64 + r, 4096);
    var o, t := p / 64, p % 64;
    assert p == o * 64 + t;
    assert n == o * 262144 + (t * 4096 + s * 64 + r) && t * 4096 + s * 64 + r < 262144;
    Quotient(o, t * 4096 + s * 64 + r, 262144);
  }

  lemma Quotient(q: nat, r: nat, d: nat)
    requires r < d
    ensures (q * d + r) / d == q
  {
    var m := (q * d + r) / d;
    assert m * d <= q * d + r < (m + 1) * d;
    NextMultiple(m, q, d);
    NextMultiple(q, m, d);
  }

  lemma NextMultiple(a: int, b: int, d: nat)
    ensures a < b ==> (a + 1) * d <= b * d
  {
  }

  /** Encoding and strict decoding are inverse, in both directions. */
  lemma DecodeEncode(c: CodePoint)
    requires !IsSurrogate(c)
    ensures var b := Encode(c);
            b != [] && |b| == LeadLength(b[0]) && DecodeOne(b) == Some(c)
  {
    hide Digits64, IsSurrogate, LowBits;
    DigitsOf(c);
    var a, b, m, d := c / 262144, c / 4096 % 64, c / 64 % 64, c % 64;
    if c < 0x80 {
    } else if c < 0x800 {
      assert a == 0 && b == 0 && m == c / 64 < 32;
      BitsOf(m, d);
    } else if c < 0x1_0000 {
      assert a == 0 && b == c / 4096 < 16;
      BitsOf(b, m);
      BitsOf(0, d);
    } else {
      assert a < 8;
      BitsOf(a, b);
      BitsOf(m, d);
    }
  }

  lemma BitsOf(lead: nat, low: nat)
    requires low < 64
    ensures 0x80 + low < 256 && LowBits(0x80 + low) == low
    ensures lead < 64 ==> LowBits(0x80 + lead) == lead
    ensures lead < 32 ==> (0xC0 + lead) % 32 == lead
    ensures lead < 16 ==> (0xE0 + lead) % 16 == lead
    ensures lead < 8 ==> (0xF0 + lead) % 8 == lead
  {
  }

  lemma EncodeDecode(b: seq<Byte>)
    requires b != [] && |b| == LeadLength(b[0]) && DecodeOne(b).Some?
    ensures Encode(DecodeOne(b).value) == b
  {
    hide Encode, Digits64, LowBits, IsSurrogate;
    forall i | 1 <= i < |b| ensures b[i] == 0x80 + LowBits(b[i]) && 0 <= LowBits(b[i]) < 64 {
      ContinuationBits(b[i]);
    }
    if |b| == 1 {
      EncodeOne(b[0]);
    } else if |b| == 2 {
      EncodeTwo(b[0] % 32, LowBits(b[1]));
      assert b == [0xC0 + b[0] % 32, b[1]];
    } else if |b| == 3 {
      EncodeThree(b[0] % 16, LowBits(b[1]), LowBits(b[2]));
      assert b == [0xE0 + b[0] % 16, b[1], b[2]];
    } else {
      EncodeFour(b[0] % 8, LowBits(b[1]), LowBits(b[2]), LowBits(b[3]));
      assert b == [0xF0 + b[0] % 8, b[1], b[2], b[3]];
    }
  }

  lemma ContinuationBits(b: Byte)
    requires Continues(b)
    ensures b == 0x80 + LowBits(b) && 0 <= LowBits(b) < 64
  {
  }

  lemma EncodeOne(c: nat)
    requires c < 0x80
    ensures Encode(c) == [c]
  {
  }

  lemma EncodeTwo(c: nat, d: nat)
    requires c < 32 && d < 64 && Digits64(0, 0, c, d) >= 0x80
    ensures Encode(Digits64(0, 0, c, d)) == [0xC0 + c, 0x80 + d]
  {
    FromDigits(0, 0, c, d);
  }

  lemma EncodeThree(b: nat, c: nat, d: nat)
    requires b < 16 && c < 64 && d < 64 && Digits64(0, b, c, d) >= 0x800 && !IsSurrogate(Digits64(0, b, c, d))
    ensures Encode(Digits64(0, b, c, d)) == [0xE0 + b, 0x80 + c, 0x80 + d]
  {
    FromDigits(0, b, c, d);
  }

  lemma EncodeFour(a: nat, b: nat, c: nat, d: nat)
    requires b < 64 && c < 64 && d < 64 && 0x1_0000 <= Digits64(a, b, c, d) < 0x11_0000
    ensures a < 8 && Encode(Digits64(a, b, c, d)) == [0xF0 + a, 0x80 + b, 0x80 + c, 0x80 + d]
  {
    FromDigits(a, b, c, d);
  }

  /** A lone surrogate is written as U+FFFD. */
  function Scalar(c: CodePoint): (r: CodePoint)
    ensures !IsSurrogate(r)
  {
    if IsSurrogate(c) then 0xFFFD else c
  }

  function EncodeAll(p: seq<CodePoint>): seq<Byte> {
    if p == [] then [] else Encode(Scalar(p[0])) + EncodeAll(p[1..])
  }

  /** `Buffer.from(text, 'utf8')`. */
  function Utf8Bytes(s: Text): seq<Byte> { EncodeAll(Points(s)) }

  function DecodeAll(b: seq<Byte>): Option<seq<CodePoint>> {
    if b == [] then Some([])
    else if LeadLength(b[0]) == 0 || LeadLength(b[0]) > |b| then None
    else
      var n := LeadLength(b[0]);
      var c, rest := DecodeOne(b[..n]), DecodeAll(b[n..]);
      if c.None? || rest.None? then None else Some([c.value] + rest.value)
  }

  lemma {:induction false} DecodeEncodedAll(p: seq<CodePoint>)
    ensures DecodeAll(EncodeAll(p)) == Some(Scalars(p))
  {
    if p != [] {
      var head, tail := Encode(Scalar(p[0])), EncodeAll(p[1..]);
      DecodeEncode(Scalar(p[0]));
      DecodeEncodedAll(p[1..]);
      assert (head + tail)[..|head|] == head && (head + tail)[|head|..] == tail;
    }
  }

  function Scalars(p: seq<CodePoint>): seq<CodePoint> {
    if p == [] then [] else [Scalar(p[0])] + Scalars(p[1..])
  }

  lemma {:induction false} ScalarsOf(p: seq<CodePoint>)
    requires forall i | 0 <= i < |p| :: !IsSurrogate(p[i])
    ensures Scalars(p) == p
  {
    if p != [] {
      ScalarsOf(p[1..]);
    }
  }

  /** `buffer.toString('utf8')` of bytes that are UTF-8. */
  function TextOfUtf8(b: seq<Byte>): Option<Text> {
    var p := DecodeAll(b);
    if p.None? then None else Some(Joined(p.value))
  }

  /** Text survives its UTF-8 bytes when it holds no lone surrogate. */
  lemma Utf8RoundTrip(s: Text)
    requires WellFormed(s)
    ensures TextOfUtf8(Utf8Bytes(s)) == Some(s)
  {
    DecodeEncodedAll(Points(s));
    ScalarsOf(Points(s));
    JoinedOfPoints(s);
  }

  lemma {:induction false} EncodeConcat(p: seq<CodePoint>, q: seq<CodePoint>)
    ensures EncodeAll(p + q) == EncodeAll(p) + EncodeAll(q)
  {
    if p == [] {
      assert p + q == q;
    } else {
      assert (p + q)[1..] == p[1..] + q;
      EncodeConcat(p[1..], q);
    }
  }
}
