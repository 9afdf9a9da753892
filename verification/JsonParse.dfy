/** `JSON.parse` (section 2 of RFC 8259). A number keeps its text; of a repeated key the last value
    counts. */
module JsonParse {
  import opened Common
  import opened JsonCanon
  import opened JsonString

  const OPEN_BRACE: CodeUnit := 123
  const CLOSE_BRACE: CodeUnit := 125
  const OPEN_BRACKET: CodeUnit := 91
  const CLOSE_BRACKET: CodeUnit := 93

  predicate IsBlank(u: CodeUnit) { u == 9 || u == 10 || u == 13 || u == 32 }

  function SkipBlanks(t: Text): (r: Text)
    ensures |r| <= |t| && (r != [] ==> !IsBlank(r[0]))
  {
    if t != [] && IsBlank(t[0]) then SkipBlanks(t[1..]) else t
  }

  // Numbers

  predicate IsDigit(u: CodeUnit) { 48 <= u <= 57 }

  function DigitCount(t: Text): (n: nat)
    ensures n <= |t|
  {
    if t != [] && IsDigit(t[0]) then 1 + DigitCount(t[1..]) else 0
  }

  /** Length of an integer part: a zero alone, or digits that do not begin with one. */
  function IntegerLength(t: Text): (n: nat)
    ensures n <= |t|
  {
    if t != [] && t[0] == 48 then 1 else DigitCount(t)
  }

  /** Length of `.` and digits, nothing when digits are missing. */
  function FractionLength(t: Text): (n: Option<nat>)
    ensures n.Some? ==> n.value <= |t|
  {
    if t == [] || t[0] != 46 then Some(0)
    else if DigitCount(t[1..]) == 0 then None else Some(1 + DigitCount(t[1..]))
  }

  function ExponentLength(t: Text): (n: Option<nat>)
    ensures n.Some? ==> n.value <= |t|
  {
    if t == [] || (t[0] != 101 && t[0] != 69) then Some(0)
    else
      var sign: nat := if |t| > 1 && (t[1] == 43 || t[1] == 45) then 1 else 0;
      if DigitCount(t[1 + sign..]) == 0 then None else Some(1 + sign + DigitCount(t[1 + sign..]))
  }

  function ReadNumber(t: Text): (r: Option<(Json, Text)>)
    ensures r.Some? ==> |r.value.1| < |t|
  {
    var minus: nat := if t != [] && t[0] == 45 then 1 else 0;
    var whole := IntegerLength(t[minus..]);
    if whole == 0 then None
    else
      var fraction := FractionLength(t[minus + whole..]);
      if fraction.None? then None
      else
        var exponent := ExponentLength(t[minus + whole + fraction.value..]);
        if exponent.None? then None
        else
          var n := minus + whole + fraction.value + exponent.value;
          Some((Num(t[..n]), t[n..]))
  }

  // The number grammar of section 6 of RFC 8259

  predicate Digits(t: Text) { t != [] && forall i | 0 <= i < |t| :: IsDigit(t[i]) }

  predicate Whole(t: Text) { t == [48] || (Digits(t) && t[0] != 48) }

  predicate Fraction(t: Text) { t == [] || (t[0] == 46 && Digits(t[1..])) }

  predicate Exponent(t: Text) {
    t == [] || ((t[0] == 101 || t[0] == 69)
                && (Digits(t[1..]) || (|t| > 1 && (t[1] == 43 || t[1] == 45) && Digits(t[2..]))))
  }

  /** What may not follow a number directly, since it would belong to it. */
  predicate Ends(rest: Text) {
    rest == [] || (!IsDigit(rest[0]) && rest[0] != 46 && rest[0] != 101 && rest[0] != 69)
  }

  predicate EndsDigits(rest: Text) { rest == [] || !IsDigit(rest[0]) }

  lemma {:induction false} CountsDigits(a: Text, b: Text)
    requires (forall i | 0 <= i < |a| :: IsDigit(a[i])) && EndsDigits(b)
    ensures DigitCount(a + b) == |a|
  {
    if a == [] {
      assert a + b == b;
    } else {
      assert (a + b)[1..] == a[1..] + b;
      CountsDigits(a[1..], b);
    }
  }

  lemma {:induction false} CountedDigits(t: Text)
    ensures var n := DigitCount(t);
            (forall i | 0 <= i < n :: IsDigit(t[i])) && (n < |t| ==> !IsDigit(t[n]))
  {
    if t != [] && IsDigit(t[0]) {
      CountedDigits(t[1..]);
    }
  }

  lemma FractionReads(a: Text, b: Text)
    requires Fraction(a) && EndsDigits(b) && (b != [] ==> b[0] != 46)
    ensures FractionLength(a + b) == Some(|a|)
  {
    if a == [] {
      assert a + b == b;
    } else {
      assert (a + b)[1..] == a[1..] + b;
      CountsDigits(a[1..], b);
    }
  }

  lemma ExponentReads(a: Text, b: Text)
    requires Exponent(a) && Ends(b)
    ensures ExponentLength(a + b) == Some(|a|)
  {
    hide DigitCount;
    if a == [] {
      assert a + b == b;
    } else if Digits(a[1..]) {
      assert (a + b)[1..] == a[1..] + b && (a + b)[1] == a[1];
      CountsDigits(a[1..], b);
    } else {
      assert (a + b)[2..] == a[2..] + b && (a + b)[1] == a[1];
      CountsDigits(a[2..], b);
    }
  }

  lemma WholeReads(a: Text, b: Text)
    requires Whole(a) && EndsDigits(b)
    ensures IntegerLength(a + b) == |a|
  {
    CountsDigits(a, b);
    assert (a + b)[0] == a[0];
  }

  lemma CutsOff(a: Text, b: Text, c: Text, d: Text, e: Text)
    ensures a + b + c + d + e == a + (b + (c + (d + e)))
  {
  }

  /** A number is read by cutting off its parts one after another. */
  lemma NumberParts(sign: Text, whole: Text, fraction: Text, exponent: Text, rest: Text)
    requires whole != [] && (sign == [45] || (sign == [] && whole[0] != 45))
    requires IntegerLength(whole + (fraction + (exponent + rest))) == |whole|
    requires FractionLength(fraction + (exponent + rest)) == Some(|fraction|)
    requires ExponentLength(exponent + rest) == Some(|exponent|)
    ensures ReadNumber(sign + whole + fraction + exponent + rest)
            == Some((Num(sign + whole + fraction + exponent), rest))
  {
    hide IntegerLength, FractionLength, ExponentLength;
    var number := sign + whole + fraction + exponent;
    var t := number + rest;
    CutsOff(sign, whole, fraction, exponent, rest);
    assert t[|sign|..] == whole + (fraction + (exponent + rest));
    assert t[|sign| + |whole|..] == fraction + (exponent + rest);
    assert t[|sign| + |whole| + |fraction|..] == exponent + rest;
    assert t[..|number|] == number && t[|number|..] == rest;
  }

  /** Every number of the grammar is read whole, up to what cannot belong to it. */
  lemma NumberReads(sign: Text, whole: Text, fraction: Text, exponent: Text, rest: Text)
    requires (sign == [] || sign == [45]) && Whole(whole) && Fraction(fraction) && Exponent(exponent) && Ends(rest)
    ensures ReadNumber(sign + whole + fraction + exponent + rest)
            == Some((Num(sign + whole + fraction + exponent), rest))
  {
    ExponentReads(exponent, rest);
    FractionReads(fraction, exponent + rest);
    WholeReads(whole, fraction + (exponent + rest));
    hide IntegerLength, FractionLength, ExponentLength, ReadNumber;
    NumberParts(sign, whole, fraction, exponent, rest);
  }

  lemma CutWhole(t: Text) returns (whole: Text, rest: Text)
    requires IntegerLength(t) > 0
    ensures t == whole + rest && Whole(whole) && IntegerLength(t) == |whole|
  {
    CountedDigits(t);
    whole, rest := t[..IntegerLength(t)], t[IntegerLength(t)..];
  }

  lemma CutFraction(t: Text) returns (fraction: Text, rest: Text)
    requires FractionLength(t).Some?
    ensures t == fraction + rest && Fraction(fraction) && FractionLength(t) == Some(|fraction|)
  {
    var n := FractionLength(t).value;
    fraction, rest := t[..n], t[n..];
    if n > 0 {
      CountedDigits(t[1..]);
    }
  }

  lemma CutExponent(t: Text) returns (exponent: Text, rest: Text)
    requires ExponentLength(t).Some?
    ensures t == exponent + rest && Exponent(exponent) && ExponentLength(t) == Some(|exponent|)
  {
    var n := ExponentLength(t).value;
    exponent, rest := t[..n], t[n..];
    if n > 0 {
      CountedDigits(t[1..]);
      CountedDigits(t[2..]);
    }
  }

  /** Whatever is read as a number is one of the grammar. */
  lemma NumberShape(t: Text) returns (sign: Text, whole: Text, fraction: Text, exponent: Text, rest: Text)
    requires ReadNumber(t).Some?
    ensures t == sign + whole + fraction + exponent + rest
    ensures (sign == [] || sign == [45]) && Whole(whole) && Fraction(fraction) && Exponent(exponent)
    ensures ReadNumber(t) == Some((Num(sign + whole + fraction + exponent), rest))
  {
    hide IntegerLength, FractionLength, ExponentLength, Fraction, Exponent, Digits;
    sign := if t != [] && t[0] == 45 then [45] else [];
    var more, tail;
    whole, more := CutWhole(t[|sign|..]);
    assert t[|sign| + |whole|..] == more;
    fraction, tail := CutFraction(more);
    assert t[|sign| + |whole| + |fraction|..] == tail;
    exponent, rest := CutExponent(tail);
    hide ReadNumber;
    NumberParts(sign, whole, fraction, exponent, rest);
    CutsOff(sign, whole, fraction, exponent, rest);
    assert t == sign + t[|sign|..];
  }

  // Values

  predicate HasKey(fields: seq<Field>, key: Text) { exists i | 0 <= i < |fields| :: fields[i].key == key }

  function PlaceOf(fields: seq<Field>, key: Text): (i: nat)
    requires HasKey(fields, key)
    ensures i < |fields| && fields[i].key == key
  {
    if fields[0].key == key then 0 else 1 + PlaceOf(fields[1..], key)
  }

  /** Assigning a property: a known key keeps its place and takes the new value. */
  function Assign(fields: seq<Field>, f: Field): seq<Field> {
    if HasKey(fields, f.key) then fields[PlaceOf(fields, f.key) := f] else fields + [f]
  }

  /** The value an object has under a key. */
  function Property(fields: seq<Field>, key: Text): Option<Json> {
    if fields == [] then None else if fields[0].key == key then Some(fields[0].value) else Property(fields[1..], key)
  }

  /** The object that the members of a text make. */
  function Merged(members: seq<Field>): seq<Field> {
    if members == [] then [] else Assign(Merged(members[..|members| - 1]), members[|members| - 1])
  }

  function ReadLiteral(t: Text, literal: Text, v: Json): (r: Option<(Json, Text)>)
    requires literal != []
    ensures r.Some? ==> |r.value.1| < |t|
  {
    if literal <= t then Some((v, t[|literal|..])) else None
  }

  /** A value after blanks, and the text after it. */
  function ReadValue(text: Text): (r: Option<(Json, Text)>)
    ensures r.Some? ==> |r.value.1| < |text|
    decreases |text|, 0
  {
    var t := SkipBlanks(text);
    if t == [] then None
    else if t[0] == QUOTE then
      var s := ReadString(t[1..]);
      if s.None? then None else Some((Str(s.value.0), s.value.1))
    else if t[0] == OPEN_BRACE then
      var inner := SkipBlanks(t[1..]);
      if inner != [] && inner[0] == CLOSE_BRACE then Some((Obj([]), inner[1..]))
      else
        var members := ReadMembers(inner);
        if members.None? then None else Some((Obj(Merged(members.value.0)), members.value.1))
    else if t[0] == OPEN_BRACKET then
      var inner := SkipBlanks(t[1..]);
      if inner != [] && inner[0] == CLOSE_BRACKET then Some((Arr([]), inner[1..]))
      else
        var items := ReadItems(inner);
        if items.None? then None else Some((Arr(items.value.0), items.value.1))
    else if t[0] == 116 then ReadLiteral(t, Ascii("true"), Bool(true))
    else if t[0] == 102 then ReadLiteral(t, Ascii("false"), Bool(false))
    else if t[0] == 110 then ReadLiteral(t, Ascii("null"), Null)
    else ReadNumber(t)
  }

  /** One `"key": value` of an object. */
  function ReadMember(text: Text): (r: Option<(Field, Text)>)
    ensures r.Some? ==> |r.value.1| < |text|
    decreases |text|, 1
  {
    var t := SkipBlanks(text);
    if t == [] || t[0] != QUOTE then None
    else
      var key := ReadString(t[1..]);
      if key.None? then None
      else
        var colon := SkipBlanks(key.value.1);
        if colon == [] || colon[0] != COLON then None
        else
          var value := ReadValue(colon[1..]);
          if value.None? then None else Some((Field(key.value.0, value.value.0), value.value.1))
  }

  /** Members up to the closing brace. */
  function ReadMembers(text: Text): (r: Option<(seq<Field>, Text)>)
    ensures r.Some? ==> |r.value.1| < |text|
    decreases |text|, 2
  {
    var first := ReadMember(text);
    if first.None? then None
    else
      var rest := SkipBlanks(first.value.1);
      if rest == [] then None
      else if rest[0] == CLOSE_BRACE then Some(([first.value.0], rest[1..]))
      else if rest[0] != COMMA then None
      else
        var more := ReadMembers(rest[1..]);
        if more.None? then None else Some(([first.value.0] + more.value.0, more.value.1))
  }

  /** Items up to the closing bracket. */
  function ReadItems(text: Text): (r: Option<(seq<Json>, Text)>)
    ensures r.Some? ==> |r.value.1| < |text|
    decreases |text|, 2
  {
    var first := ReadValue(text);
    if first.None? then None
    else
      var rest := SkipBlanks(first.value.1);
      if rest == [] then None
      else if rest[0] == CLOSE_BRACKET then Some(([first.value.0], rest[1..]))
      else if rest[0] != COMMA then None
      else
        var more := ReadItems(rest[1..]);
        if more.None? then None else Some(([first.value.0] + more.value.0, more.value.1))
  }

  /** Nothing stands for a `SyntaxError`. */
  function Parse(text: Text): Option<Json> {
    var v := ReadValue(text);
    if v.Some? && SkipBlanks(v.value.1) == [] then Some(v.value.0) else None
  }

  /** An object has each key once, and the members of a text without repeated keys stay as they are. */
  lemma {:induction false} MergedUnique(members: seq<Field>)
    ensures UniqueFields(Merged(members))
    ensures UniqueFields(members) ==> Merged(members) == members
  {
    hide Assign;
    if members != [] {
      var init, last := members[..|members| - 1], members[|members| - 1];
      MergedUnique(init);
      AssignUnique(Merged(init), last);
      assert members == init + [last];
    }
  }

  lemma AssignUnique(fields: seq<Field>, f: Field)
    requires UniqueFields(fields)
    ensures UniqueFields(Assign(fields, f))
    ensures UniqueFields(fields + [f]) ==> Assign(fields, f) == fields + [f]
  {
    var r, more := Assign(fields, f), fields + [f];
    if HasKey(fields, f.key) {
      assert forall i | 0 <= i < |r| :: r[i].key == fields[i].key;
      assert more[PlaceOf(fields, f.key)].key == more[|fields|].key;
    }
  }
}
