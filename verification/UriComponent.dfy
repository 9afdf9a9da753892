/** `encodeURIComponent` and `decodeURIComponent` (section 19.2.6 of ECMA-262). */
module UriComponent {
  import opened Common
  import opened HexBytes
  import opened JsonString
  import opened Utf8

  const PERCENT: CodeUnit := 37

  /** Letters, digits and `-_.!~*'()`. */
  predicate Unreserved(u: CodeUnit) {
    65 <= u <= 90 || 97 <= u <= 122 || 48 <= u <= 57 || u == 45 || u == 95 || u == 46 || u == 33 || u == 126
    || 39 <= u <= 42
  }

  /** The characters `encodeURIComponent` leaves alone. */
  lemma UnreservedAre(u: CodeUnit)
    ensures Unreserved(u) <==>
            'A' as int <= u <= 'Z' as int || 'a' as int <= u <= 'z' as int || '0' as int <= u <= '9' as int
            || u in Ascii("-_.!~*'()")
  {
    assert Ascii("-_.!~*'()") == [45, 95, 46, 33, 126, 42, 39, 40, 41];
  }

  function PercentBytes(bytes: seq<Byte>): Text {
    if bytes == [] then [] else [PERCENT] + ByteHex(bytes[0]) + PercentBytes(bytes[1..])
  }

  function After(head: Text, rest: Option<Text>): Option<Text> {
    if rest.None? then None else Some(head + rest.value)
  }

  /** Nothing stands for the `URIError` that a lone surrogate throws. */
  function EncodeComponent(s: Text): Option<Text> {
    if s == [] then Some([])
    else if Unreserved(s[0]) then After([s[0]], EncodeComponent(s[1..]))
    else if IsLow(s[0]) then None
    else if StartsWithPair(s) then After(PercentBytes(Encode(Pair(s))), EncodeComponent(s[2..]))
    else if IsHigh(s[0]) then None
    else After(PercentBytes(Encode(s[0])), EncodeComponent(s[1..]))
  }

  /** The next `n` percent-encoded bytes. */
  function ReadPercents(t: Text, n: nat): (r: Option<seq<Byte>>)
    ensures r.Some? ==> |r.value| == n && 3 * n <= |t|
    decreases n
  {
    if n == 0 then Some([])
    else if |t| < 3 || t[0] != PERCENT then None
    else
      var b, rest := ReadByte(t[1], t[2]), ReadPercents(t[3..], n - 1);
      if b.None? || rest.None? then None else Some([b.value] + rest.value)
  }

  /** The bytes of the encoded character at the head of the text. */
  function ReadCharacter(t: Text): (r: Option<(CodePoint, nat)>)
    ensures r.Some? ==> 0 < r.value.1 && 3 * r.value.1 <= |t|
  {
    var lead := ReadPercents(t, 1);
    if lead.None? || LeadLength(lead.value[0]) == 0 then None
    else
      var bytes := ReadPercents(t, LeadLength(lead.value[0]));
      if bytes.None? || |bytes.value| != LeadLength(bytes.value[0]) || DecodeOne(bytes.value).None? then None
      else Some((DecodeOne(bytes.value).value, |bytes.value|))
  }

  function DecodeComponent(t: Text): Option<Text>
    decreases |t|
  {
    if t == [] then Some([])
    else if t[0] != PERCENT then After([t[0]], DecodeComponent(t[1..]))
    else
      var c := ReadCharacter(t);
      if c.None? then None else After(Units(c.value.0), DecodeComponent(t[3 * c.value.1..]))
  }

  lemma {:induction false} ReadPercentBytes(bytes: seq<Byte>, rest: Text, n: nat)
    requires n <= |bytes|
    ensures |PercentBytes(bytes)| == 3 * |bytes|
    ensures ReadPercents(PercentBytes(bytes) + rest, n) == Some(bytes[..n])
    decreases |bytes|
  {
    hide ByteHex, ReadByte;
    if bytes != [] {
      var t, more := PercentBytes(bytes) + rest, PercentBytes(bytes[1..]) + rest;
      ReadByteHex(bytes[0]);
      assert t == [PERCENT] + ByteHex(bytes[0]) + more;
      assert t[1] == ByteHex(bytes[0])[0] && t[2] == ByteHex(bytes[0])[1] && t[3..] == more;
      ReadPercentBytes(bytes[1..], rest, if n == 0 then 0 else n - 1);
      if n > 0 {
        assert bytes[..n] == [bytes[0]] + bytes[1..][..n - 1];
      }
    }
  }

  /** Encoded text holds nothing but unreserved characters and percent-encoded bytes. */
  lemma {:induction false} EncodedAlphabet(s: Text)
    ensures EncodeComponent(s).Some? ==>
              forall u | u in EncodeComponent(s).value :: Unreserved(u) || u == PERCENT
    decreases |s|
  {
    hide Unreserved, PercentBytes, Encode;
    if s != [] {
      EncodedAlphabet(s[if StartsWithPair(s) then 2 else 1..]);
      if StartsWithPair(s) {
        EncodedAlphabet(s[1..]);
        PercentAlphabet(Encode(Pair(s)));
      } else if !IsHigh(s[0]) && !IsLow(s[0]) {
        PercentAlphabet(Encode(s[0]));
      }
    }
  }

  lemma {:induction false} PercentAlphabet(bytes: seq<Byte>)
    ensures forall u | u in PercentBytes(bytes) :: Unreserved(u) || u == PERCENT
  {
    hide UpperHex;
    if bytes != [] {
      PercentAlphabet(bytes[1..]);
    }
  }

  lemma DecodeCharacter(c: CodePoint, rest: Text)
    requires !IsSurrogate(c)
    ensures DecodeComponent(PercentBytes(Encode(c)) + rest) == After(Units(c), DecodeComponent(rest))
  {
    hide Encode, DecodeOne, ReadPercents, ReadByte, UpperHex;
    var bytes := Encode(c);
    var t := PercentBytes(bytes) + rest;
    DecodeEncode(c);
    ReadPercentBytes(bytes, rest, 1);
    ReadPercentBytes(bytes, rest, |bytes|);
    assert bytes[..|bytes|] == bytes && bytes[..1][0] == bytes[0];
    assert ReadCharacter(t) == Some((c, |bytes|));
    assert t[3 * |bytes|..] == rest;
  }

  /** Encoding throws exactly on a lone surrogate, and decoding gives back what was encoded. */
  lemma {:induction false} ComponentRoundTrip(s: Text)
    ensures EncodeComponent(s).Some? <==> WellFormed(s)
    ensures EncodeComponent(s).Some? ==> DecodeComponent(EncodeComponent(s).value) == Some(s)
    decreases |s|
  {
    hide Encode, DecodeOne, ReadPercents, ReadCharacter, PercentBytes;
    if s != [] {
      var width := if StartsWithPair(s) then 2 else 1;
      ComponentRoundTrip(s[width..]);
      assert s == s[..width] + s[width..];
      WellFormedHead(s, width);
      var c, rest := Points(s)[0], EncodeComponent(s[width..]);
      if !IsSurrogate(c) && rest.Some? {
        if Unreserved(s[0]) {
          var t := [s[0]] + rest.value;
          assert EncodeComponent(s) == Some(t) && t[0] != PERCENT && t[1..] == rest.value;
          assert width == 1 && s[..1] == [s[0]];
        } else {
          DecodeCharacter(c, rest.value);
          UnitsOfHead(s, width);
        }
      }
    }
  }

  lemma UnitsOfHead(s: Text, width: nat)
    requires s != [] && width == if StartsWithPair(s) then 2 else 1
    ensures Units(Points(s)[0]) == s[..width]
  {
  }
}
