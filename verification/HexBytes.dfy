/** A byte as two upper-case hexadecimal digits. */
module HexBytes {
  import opened Common
  import opened JsonString
  import opened Utf8

  function UpperHex(n: nat): (u: CodeUnit)
    requires n < 16
    ensures HexValue(u) == Some(n) && (48 <= u <= 57 || 65 <= u <= 70)
  {
    if n < 10 then 48 + n else 55 + n
  }

  function ByteHex(b: Byte): (t: Text)
    ensures |t| == 2
  {
    [UpperHex(b / 16), UpperHex(b % 16)]
  }

  function ReadByte(high: CodeUnit, low: CodeUnit): Option<Byte> {
    match (HexValue(high), HexValue(low))
    case (Some(h), Some(l)) => Some(h * 16 + l)
    case _ => None
  }

  lemma ReadByteHex(b: Byte)
    ensures ReadByte(ByteHex(b)[0], ByteHex(b)[1]) == Some(b)
  {
    hide UpperHex, HexValue;
    assert b / 16 * 16 + b % 16 == b;
  }
}
