/** `JSON.stringify`, and reading back what it printed. */
module JsonText {
  import opened Common
  import opened JsonCanon
  import opened JsonParse
  import opened JsonString

  function Stringify(v: Json): Text {
    match v
    case Num(t) => t
    case Str(s) => Quote(s)
    case Arr(items) => [OPEN_BRACKET] + if items == [] then [CLOSE_BRACKET] else PrintItems(items)
    case Obj(fields) => [OPEN_BRACE] + if fields == [] then [CLOSE_BRACE] else PrintFields(fields)
    case _ => Literal(v)
  }

  /** The items with commas between them and the closing bracket. */
  function PrintItems(items: seq<Json>): Text
    requires items != []
  {
    Stringify(items[0]) + if |items| == 1 then [CLOSE_BRACKET] else [COMMA] + PrintItems(items[1..])
  }

  function PrintFields(fields: seq<Field>): Text
    requires fields != []
  {
    Quote(fields[0].key) + [COLON] + Stringify(fields[0].value)
    + if |fields| == 1 then [CLOSE_BRACE] else [COMMA] + PrintFields(fields[1..])
  }

  /** A number as JSON writes it. */
  predicate NumberToken(t: Text) { NumberText(t) && ReadNumber(t) == Some((Num(t), [])) }

  /** What a JavaScript value that JSON can carry looks like: numbers in JSON's grammar, keys unique. */
  predicate Printable(v: Json) {
    match v
    case Num(t) => NumberToken(t)
    case Arr(items) => forall x | x in items :: Printable(x)
    case Obj(fields) => UniqueFields(fields) && forall f | f in fields :: Printable(f.value)
    case _ => true
  }

  // Numbers end where they are delimited

  predicate NoDigit(rest: Text) { rest == [] || !IsDigit(rest[0]) }

  lemma {:induction false} DigitCountEnds(t: Text, rest: Text)
    requires NoDigit(rest)
    ensures DigitCount(t + rest) == DigitCount(t)
  {
    if t == [] {
      assert t + rest == rest;
    } else {
      assert (t + rest)[1..] == t[1..] + rest;
      DigitCountEnds(t[1..], rest);
    }
  }

  lemma PartsEnd(t: Text, rest: Text)
    requires Delimited(rest)
    ensures IntegerLength(t + rest) == IntegerLength(t)
    ensures FractionLength(t + rest) == FractionLength(t)
    ensures ExponentLength(t + rest) == ExponentLength(t)
  {
    hide IntegerLength, FractionLength, ExponentLength, DigitCount;
    IntegerEnds(t, rest);
    FractionEnds(t, rest);
    ExponentEnds(t, rest);
  }

  lemma IntegerEnds(t: Text, rest: Text)
    requires Delimited(rest)
    ensures IntegerLength(t + rest) == IntegerLength(t)
  {
    hide DigitCount;
    DigitCountEnds(t, rest);
  }

  lemma FractionEnds(t: Text, rest: Text)
    requires Delimited(rest)
    ensures FractionLength(t + rest) == FractionLength(t)
  {
    hide DigitCount;
    if t != [] {
      TailOfConcat(t, rest, 1);
      DigitCountEnds(t[1..], rest);
    }
  }

  lemma ExponentEnds(t: Text, rest: Text)
    requires Delimited(rest)
    ensures ExponentLength(t + rest) == ExponentLength(t)
  {
    if t != [] {
      TailOfConcat(t, rest, 1);
      DigitCountEnds(t[1..], rest);
      if |t| > 1 {
        TailOfConcat(t, rest, 2);
        DigitCountEnds(t[2..], rest);
      } else {
        NoDigitsIn(rest);
      }
    }
    hide DigitCount;
  }

  lemma TailOfConcat(t: Text, rest: Text, k: nat)
    requires k <= |t|
    ensures (t + rest)[k..] == t[k..] + rest
  {
  }

  lemma NoDigitsIn(rest: Text)
    requires Delimited(rest)
    ensures DigitCount(rest) == 0 && DigitCount([]) == 0 && [] + rest == rest
  {
  }

  lemma NumberEnds(t: Text, rest: Text)
    requires NumberToken(t) && Delimited(rest)
    ensures ReadNumber(t + rest) == Some((Num(t), rest))
    ensures t[0] == 45 || IsDigit(t[0])
  {
    hide IntegerLength, FractionLength, ExponentLength;
    var s := t + rest;
    var minus: nat := if t != [] && t[0] == 45 then 1 else 0;
    PartsEnd(t[minus..], rest);
    assert s[minus..] == t[minus..] + rest;
    var whole := IntegerLength(t[minus..]);
    PartsEnd(t[minus + whole..], rest);
    assert s[minus + whole..] == t[minus + whole..] + rest;
    var fraction := FractionLength(t[minus + whole..]).value;
    PartsEnd(t[minus + whole + fraction..], rest);
    assert s[minus + whole + fraction..] == t[minus + whole + fraction..] + rest;
    assert s[..|t|] == t && s[|t|..] == rest;
    IntegerStart(t[minus..]);
  }

  lemma IntegerStart(t: Text)
    requires IntegerLength(t) > 0
    ensures t != [] && IsDigit(t[0])
  {
  }

  // Reading back

  /** The first unit tells what a value is, and is neither blank nor a closing bracket. */
  lemma PrintStart(v: Json, rest: Text)
    requires Printable(v) && Delimited(rest)
    ensures Stringify(v) != [] && !IsBlank(Stringify(v)[0]) && Stringify(v)[0] != CLOSE_BRACKET
    ensures v.Num? ==> Stringify(v)[0] == 45 || IsDigit(Stringify(v)[0])
  {
    if v.Num? {
      NumberEnds(v.text, rest);
    }
  }

  /** A printed value reads back, whatever follows it in a larger text. */
  lemma {:induction false} ReadPrinted(v: Json, rest: Text)
    requires Printable(v) && Delimited(rest)
    ensures ReadValue(Stringify(v) + rest) == Some((v, rest))
    decreases v, 1
  {
    var t := Stringify(v) + rest;
    PrintStart(v, rest);
    match v
    case Null => ReadLiteralOf(v, rest);
    case Bool(_) => ReadLiteralOf(v, rest);
    case Num(text) => ReadNumberOf(text, rest);
    case Str(s) => ReadStringOf(s, rest);
    case Arr(_) => ReadArrayOf(v, rest);
    case Obj(_) => ReadObjectOf(v, rest);
  }

  lemma ReadLiteralOf(v: Json, rest: Text)
    requires v.Null? || v.Bool?
    ensures ReadValue(Literal(v) + rest) == Some((v, rest))
  {
    var t := Literal(v) + rest;
    assert t[|Literal(v)|..] == rest;
    assert t[0] == (if v.Null? then 110 else if v.b then 116 else 102);
    assert SkipBlanks(t) == t;
  }

  lemma ReadNumberOf(text: Text, rest: Text)
    requires NumberToken(text) && Delimited(rest)
    ensures ReadValue(text + rest) == Some((Num(text), rest))
  {
    hide ReadNumber;
    NumberEnds(text, rest);
    assert SkipBlanks(text + rest) == text + rest;
  }

  lemma ReadStringOf(s: Text, rest: Text)
    ensures ReadValue(Quote(s) + rest) == Some((Str(s), rest))
  {
    var t := Quote(s) + rest;
    assert t[0] == QUOTE && t[1..] == Escape(s) + ([QUOTE] + rest);
    assert SkipBlanks(t) == t;
    ReadEscaped(s, rest);
  }

  lemma ReadArrayText(inner: Text, items: seq<Json>, rest: Text)
    requires inner != [] && !IsBlank(inner[0]) && inner[0] != CLOSE_BRACKET && ReadItems(inner) == Some((items, rest))
    ensures ReadValue([OPEN_BRACKET] + inner) == Some((Arr(items), rest))
  {
    hide ReadItems, ReadMembers, ReadNumber;
    var t := [OPEN_BRACKET] + inner;
    assert t[1..] == inner && SkipBlanks(t) == t && SkipBlanks(inner) == inner;
  }

  lemma ReadObjectText(inner: Text, fields: seq<Field>, rest: Text)
    requires inner != [] && !IsBlank(inner[0]) && inner[0] != CLOSE_BRACE && ReadMembers(inner) == Some((fields, rest))
    ensures ReadValue([OPEN_BRACE] + inner) == Some((Obj(Merged(fields)), rest))
  {
    hide ReadItems, ReadMembers, ReadNumber;
    var t := [OPEN_BRACE] + inner;
    assert t[1..] == inner && SkipBlanks(t) == t && SkipBlanks(inner) == inner;
  }

  lemma ReadEmpty(rest: Text)
    ensures ReadValue([OPEN_BRACKET, CLOSE_BRACKET] + rest) == Some((Arr([]), rest))
    ensures ReadValue([OPEN_BRACE, CLOSE_BRACE] + rest) == Some((Obj([]), rest))
  {
    var a, o := [OPEN_BRACKET, CLOSE_BRACKET] + rest, [OPEN_BRACE, CLOSE_BRACE] + rest;
    assert a[1..] == [CLOSE_BRACKET] + rest && a[1..][1..] == rest && SkipBlanks(a) == a
        && SkipBlanks(a[1..]) == a[1..];
    assert o[1..] == [CLOSE_BRACE] + rest && o[1..][1..] == rest && SkipBlanks(o) == o && SkipBlanks(o[1..]) == o[1..];
  }

  lemma {:induction false} ReadArrayOf(v: Json, rest: Text)
    requires v.Arr? && Printable(v) && Delimited(rest)
    ensures ReadValue(Stringify(v) + rest) == Some((v, rest))
    decreases v, 0
  {
    hide ReadValue, ReadItems;
    if v.items == [] {
      ReadEmpty(rest);
      assert Stringify(v) == [OPEN_BRACKET, CLOSE_BRACKET];
    } else {
      var inner := PrintItems(v.items) + rest;
      ReadItemsOf(v.items, rest);
      PrintStart(v.items[0], []);
      assert inner[0] == Stringify(v.items[0])[0];
      ReadArrayText(inner, v.items, rest);
      assert Stringify(v) + rest == [OPEN_BRACKET] + inner;
    }
  }

  /** One item and what follows it: the end of the array, or more items. */
  lemma ReadItemsStep(t: Text, x: Json, after: Text)
    requires ReadValue(t) == Some((x, after)) && after != [] && !IsBlank(after[0])
    ensures after[0] == CLOSE_BRACKET ==> ReadItems(t) == Some(([x], after[1..]))
    ensures after[0] == COMMA && ReadItems(after[1..]).Some? ==>
              ReadItems(t) == Some(([x] + ReadItems(after[1..]).value.0, ReadItems(after[1..]).value.1))
  {
    hide ReadValue;
    assert SkipBlanks(after) == after;
  }

  lemma {:induction false} ReadItemsOf(items: seq<Json>, rest: Text)
    requires items != [] && (forall x | x in items :: Printable(x)) && Delimited(rest)
    ensures ReadItems(PrintItems(items) + rest) == Some((items, rest))
    decreases items, 2
  {
    hide ReadValue, ReadItems, Stringify, Printable;
    var x, t := items[0], PrintItems(items) + rest;
    if |items| == 1 {
      var after := [CLOSE_BRACKET] + rest;
      assert t == Stringify(x) + after && after[1..] == rest && items == [x];
      ReadPrinted(x, after);
      ReadItemsStep(t, x, after);
    } else {
      var more := PrintItems(items[1..]) + rest;
      var after := [COMMA] + more;
      assert t == Stringify(x) + after && after[1..] == more && items == [x] + items[1..];
      ReadPrinted(x, after);
      ReadItemsOf(items[1..], rest);
      ReadItemsStep(t, x, after);
    }
  }

  lemma PrintFieldsStart(fields: seq<Field>)
    requires fields != []
    ensures PrintFields(fields) != [] && PrintFields(fields)[0] == QUOTE
  {
  }

  lemma {:induction false} ReadObjectOf(v: Json, rest: Text)
    requires v.Obj? && Printable(v) && Delimited(rest)
    ensures ReadValue(Stringify(v) + rest) == Some((v, rest))
    decreases v, 0
  {
    hide ReadValue, ReadMembers, Merged, PrintFields;
    if v.fields == [] {
      ReadEmpty(rest);
      assert Stringify(v) == [OPEN_BRACE, CLOSE_BRACE];
    } else {
      var inner := PrintFields(v.fields) + rest;
      ReadFieldsOf(v.fields, rest);
      MergedUnique(v.fields);
      PrintFieldsStart(v.fields);
      assert inner[0] == QUOTE;
      ReadObjectText(inner, v.fields, rest);
      assert Stringify(v) + rest == [OPEN_BRACE] + inner;
    }
  }

  /** One member and what follows it: the end of the object, or more members. */
  lemma ReadMembersStep(t: Text, f: Field, after: Text)
    requires ReadMember(t) == Some((f, after)) && after != [] && !IsBlank(after[0])
    ensures after[0] == CLOSE_BRACE ==> ReadMembers(t) == Some(([f], after[1..]))
    ensures after[0] == COMMA && ReadMembers(after[1..]).Some? ==>
              ReadMembers(t) == Some(([f] + ReadMembers(after[1..]).value.0, ReadMembers(after[1..]).value.1))
  {
    hide ReadMember;
    assert SkipBlanks(after) == after;
  }

  lemma {:induction false} ReadFieldsOf(fields: seq<Field>, rest: Text)
    requires fields != [] && (forall f | f in fields :: Printable(f.value)) && Delimited(rest)
    ensures ReadMembers(PrintFields(fields) + rest) == Some((fields, rest))
    decreases fields, 2
  {
    hide ReadMember, ReadMembers, Stringify, Quote, Printable;
    var f, t := fields[0], PrintFields(fields) + rest;
    if |fields| == 1 {
      var after := [CLOSE_BRACE] + rest;
      assert t == Quote(f.key) + ([COLON] + (Stringify(f.value) + after)) && after[1..] == rest && fields == [f];
      ReadPrinted(f.value, after);
      ReadMemberOf(f, after);
      ReadMembersStep(t, f, after);
    } else {
      var more := PrintFields(fields[1..]) + rest;
      var after := [COMMA] + more;
      assert t == Quote(f.key) + ([COLON] + (Stringify(f.value) + after)) && after[1..] == more
          && fields == [f] + fields[1..];
      ReadPrinted(f.value, after);
      ReadMemberOf(f, after);
      ReadFieldsOf(fields[1..], rest);
      ReadMembersStep(t, f, after);
    }
  }

  lemma ReadMemberOf(f: Field, after: Text)
    requires ReadValue(Stringify(f.value) + after) == Some((f.value, after))
    ensures ReadMember(Quote(f.key) + ([COLON] + (Stringify(f.value) + after))) == Some((f, after))
  {
    hide Stringify, Escape, ReadValue;
    var value := Stringify(f.value) + after;
    var colon := [COLON] + value;
    var t := Quote(f.key) + colon;
    assert t[0] == QUOTE && t[1..] == Escape(f.key) + ([QUOTE] + colon);
    ReadEscaped(f.key, colon);
    assert SkipBlanks(t) == t && SkipBlanks(colon) == colon && colon[1..] == value;
  }

  /** `JSON.parse(JSON.stringify(v))` is `v`. */
  lemma ParseStringify(v: Json)
    requires Printable(v)
    ensures Parse(Stringify(v)) == Some(v)
  {
    hide ReadValue, Stringify;
    ReadPrinted(v, []);
    assert Stringify(v) + [] == Stringify(v);
  }

  // One line

  predicate NoControl(t: Text) { forall i | 0 <= i < |t| :: t[i] >= 32 }

  lemma {:induction false} EscapeNoControl(s: Text)
    ensures NoControl(Escape(s))
    decreases |s|
  {
    if s == [] {
    } else if StartsWithPair(s) {
      EscapeNoControl(s[2..]);
    } else {
      EscapeNoControl(s[1..]);
      assert NoControl(EscapeUnit(s[0]));
    }
  }

  /** Printed JSON has no control characters, so it fits on one line. */
  lemma {:induction false} PrintNoControl(v: Json)
    requires Printable(v)
    ensures NoControl(Stringify(v))
    decreases v, 1
  {
    match v
    case Str(s) => EscapeNoControl(s);
    case Arr(items) =>
      if items != [] {
        ItemsNoControl(items);
      }
    case Obj(fields) =>
      if fields != [] {
        FieldsNoControl(fields);
      }
    case _ =>
  }

  lemma {:induction false} ItemsNoControl(items: seq<Json>)
    requires items != [] && forall x | x in items :: Printable(x)
    ensures NoControl(PrintItems(items))
    decreases items, 2
  {
    hide Stringify;
    PrintNoControl(items[0]);
    if |items| > 1 {
      ItemsNoControl(items[1..]);
    }
  }

  lemma {:induction false} FieldsNoControl(fields: seq<Field>)
    requires fields != [] && forall f | f in fields :: Printable(f.value)
    ensures NoControl(PrintFields(fields))
    decreases fields, 2
  {
    hide Stringify, Escape;
    EscapeNoControl(fields[0].key);
    PrintNoControl(fields[0].value);
    if |fields| > 1 {
      FieldsNoControl(fields[1..]);
    }
  }
}
