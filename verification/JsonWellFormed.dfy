/** Well-formed JSON text: `JSON.stringify` never leaves a lone surrogate (section 25.5.2 of ECMA-262), so
    its output survives every encoding of code points. */
module JsonWellFormed {
  import opened Common
  import opened JsonCanon
  import opened JsonParse
  import opened JsonString
  import opened JsonText
  import opened Utf8

  /** Escaped text holds no lone surrogate. */
  lemma {:induction false} EscapeWellFormed(s: Text, rest: Text)
    requires WellFormed(rest)
    ensures WellFormed(Escape(s) + rest)
    decreases |s|
  {
    hide WellFormed, EscapeUnit, IsHigh, IsLow;
    if s == [] {
      assert Escape(s) + rest == rest;
    } else if StartsWithPair(s) {
      EscapeWellFormed(s[2..], rest);
      PairWellFormed(s[0], s[1], Escape(s[2..]) + rest);
      assert s[..2] == [s[0], s[1]];
      assert Escape(s) + rest == [s[0], s[1]] + (Escape(s[2..]) + rest);
    } else {
      EscapeWellFormed(s[1..], rest);
      assert Escape(s) + rest == EscapeUnit(s[0]) + (Escape(s[1..]) + rest);
      EscapedUnitPlain(s[0]);
      PlainWellFormed(EscapeUnit(s[0]), Escape(s[1..]) + rest);
    }
  }

  lemma PairWellFormed(high: CodeUnit, low: CodeUnit, rest: Text)
    requires IsHigh(high) && IsLow(low) && WellFormed(rest)
    ensures WellFormed([high, low] + rest)
  {
    var t := [high, low] + rest;
    assert t[2..] == rest;
    WellFormedHead(t, 2);
  }

  lemma EscapedUnitPlain(u: CodeUnit)
    ensures EscapeUnit(u) != [] && forall i | 0 <= i < |EscapeUnit(u)| ::
            !IsHigh(EscapeUnit(u)[i]) && !IsLow(EscapeUnit(u)[i])
  {
  }

  lemma {:induction false} PlainWellFormed(head: Text, rest: Text)
    requires forall i | 0 <= i < |head| :: !IsHigh(head[i]) && !IsLow(head[i])
    requires WellFormed(rest)
    ensures WellFormed(head + rest)
  {
    if head == [] {
      assert head + rest == rest;
    } else {
      PlainWellFormed(head[1..], rest);
      assert (head + rest)[1..] == head[1..] + rest;
      WellFormedHead(head + rest, 1);
    }
  }

  lemma QuoteWellFormed(s: Text, rest: Text)
    requires WellFormed(rest)
    ensures WellFormed(Quote(s) + rest)
  {
    PlainWellFormed([QUOTE], rest);
    EscapeWellFormed(s, [QUOTE] + rest);
    PlainWellFormed([QUOTE], Escape(s) + ([QUOTE] + rest));
    assert Quote(s) + rest == [QUOTE] + (Escape(s) + ([QUOTE] + rest));
  }

  lemma LiteralPlain(v: Json)
    requires Printable(v) && !v.Str? && !v.Arr? && !v.Obj?
    ensures forall i | 0 <= i < |Stringify(v)| :: !IsHigh(Stringify(v)[i]) && !IsLow(Stringify(v)[i])
  {
    hide ReadNumber;
  }

  /** A printed value holds no lone surrogate, whatever strings it carries. */
  lemma {:induction false} StringifyWellFormed(v: Json, rest: Text)
    requires Printable(v) && WellFormed(rest)
    ensures WellFormed(Stringify(v) + rest)
    decreases v, 1
  {
    hide WellFormed, PrintItems, PrintFields, Quote;
    match v
    case Str(s) => QuoteWellFormed(s, rest);
    case Arr(items) =>
      if items == [] {
        PlainWellFormed(Stringify(v), rest);
      } else {
        ItemsWellFormed(items, rest);
        PlainWellFormed([OPEN_BRACKET], PrintItems(items) + rest);
        assert Stringify(v) + rest == [OPEN_BRACKET] + (PrintItems(items) + rest);
      }
    case Obj(fields) =>
      if fields == [] {
        PlainWellFormed(Stringify(v), rest);
      } else {
        FieldsWellFormed(fields, rest);
        PlainWellFormed([OPEN_BRACE], PrintFields(fields) + rest);
        assert Stringify(v) + rest == [OPEN_BRACE] + (PrintFields(fields) + rest);
      }
    case _ =>
      LiteralPlain(v);
      PlainWellFormed(Stringify(v), rest);
  }

  lemma {:induction false} ItemsWellFormed(items: seq<Json>, rest: Text)
    requires items != [] && (forall x | x in items :: Printable(x)) && WellFormed(rest)
    ensures WellFormed(PrintItems(items) + rest)
    decreases items, 2
  {
    hide WellFormed, Stringify, Printable;
    var tail := [CLOSE_BRACKET] + rest;
    if |items| == 1 {
      PlainWellFormed([CLOSE_BRACKET], rest);
    } else {
      ItemsWellFormed(items[1..], rest);
      PlainWellFormed([COMMA], PrintItems(items[1..]) + rest);
      tail := [COMMA] + (PrintItems(items[1..]) + rest);
    }
    StringifyWellFormed(items[0], tail);
    assert PrintItems(items) + rest == Stringify(items[0]) + tail;
  }

  lemma {:induction false} FieldsWellFormed(fields: seq<Field>, rest: Text)
    requires fields != [] && (forall f | f in fields :: Printable(f.value)) && WellFormed(rest)
    ensures WellFormed(PrintFields(fields) + rest)
    decreases fields, 2
  {
    hide WellFormed, Stringify, Printable, Quote;
    var f, tail := fields[0], [CLOSE_BRACE] + rest;
    if |fields| == 1 {
      PlainWellFormed([CLOSE_BRACE], rest);
    } else {
      FieldsWellFormed(fields[1..], rest);
      PlainWellFormed([COMMA], PrintFields(fields[1..]) + rest);
      tail := [COMMA] + (PrintFields(fields[1..]) + rest);
    }
    StringifyWellFormed(f.value, tail);
    PlainWellFormed([COLON], Stringify(f.value) + tail);
    QuoteWellFormed(f.key, [COLON] + (Stringify(f.value) + tail));
    assert PrintFields(fields) + rest == Quote(f.key) + ([COLON] + (Stringify(f.value) + tail));
  }

  lemma PrintedWellFormed(v: Json)
    requires Printable(v)
    ensures WellFormed(Stringify(v))
  {
    hide Stringify, Printable;
    StringifyWellFormed(v, []);
    assert Stringify(v) + [] == Stringify(v);
  }
}
