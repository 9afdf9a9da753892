/** `String.prototype.trim`. */
module JsTrim {
  import opened JsonString

  /** White space and line terminators of ECMA-262. */
  predicate IsSpace(u: CodeUnit) {
    9 <= u <= 13 || u == 32 || u == 0xA0 || u == 0x1680 || 0x2000 <= u <= 0x200A || u == 0x2028 || u == 0x2029
    || u == 0x202F || u == 0x205F || u == 0x3000 || u == 0xFEFF
  }

  /** Tab, line feed, vertical tab, form feed and carriage return; the Unicode space separators; the line
      and paragraph separators; and the byte order mark. */
  lemma SpacesAre(u: CodeUnit)
    ensures IsSpace(u) <==> u in {
      0x0009, 0x000A, 0x000B, 0x000C, 0x000D, 0x0020, 0x00A0, 0x1680,
      0x2000, 0x2001, 0x2002, 0x2003, 0x2004, 0x2005, 0x2006, 0x2007, 0x2008, 0x2009, 0x200A,
      0x2028, 0x2029, 0x202F, 0x205F, 0x3000, 0xFEFF}
  {
  }

  function TrimStart(s: Text): Text {
    if s != [] && IsSpace(s[0]) then TrimStart(s[1..]) else s
  }

  function TrimEnd(s: Text): Text {
    if s != [] && IsSpace(s[|s| - 1]) then TrimEnd(s[..|s| - 1]) else s
  }

  function Trim(s: Text): Text { TrimEnd(TrimStart(s)) }

  /** Text with no white space at either end. */
  predicate Trimmed(s: Text) { s == [] || (!IsSpace(s[0]) && !IsSpace(s[|s| - 1])) }

  lemma {:induction false} TrimStartStarts(s: Text)
    ensures TrimStart(s) == [] || !IsSpace(TrimStart(s)[0])
  {
    if s != [] && IsSpace(s[0]) {
      TrimStartStarts(s[1..]);
    }
  }

  lemma {:induction false} TrimEndEnds(s: Text)
    requires s == [] || !IsSpace(s[0])
    ensures Trimmed(TrimEnd(s))
  {
    if s != [] && IsSpace(s[|s| - 1]) {
      TrimEndEnds(s[..|s| - 1]);
    }
  }

  /** Trimming leaves no white space at the ends and changes nothing the second time. */
  lemma TrimIdempotent(s: Text)
    ensures Trimmed(Trim(s)) && Trim(Trim(s)) == Trim(s)
  {
    TrimStartStarts(s);
    TrimEndEnds(TrimStart(s));
  }

  predicate AllSpace(s: Text) { forall i | 0 <= i < |s| :: IsSpace(s[i]) }

  lemma {:induction false} TrimStartCuts(s: Text) returns (head: Text)
    ensures s == head + TrimStart(s) && AllSpace(head)
  {
    head := [];
    if s != [] && IsSpace(s[0]) {
      var rest := TrimStartCuts(s[1..]);
      head := [s[0]] + rest;
      assert s == [s[0]] + s[1..];
    }
  }

  lemma {:induction false} TrimEndCuts(s: Text) returns (tail: Text)
    ensures s == TrimEnd(s) + tail && AllSpace(tail)
  {
    tail := [];
    if s != [] && IsSpace(s[|s| - 1]) {
      var rest := TrimEndCuts(s[..|s| - 1]);
      tail := rest + [s[|s| - 1]];
      assert s == s[..|s| - 1] + [s[|s| - 1]];
    }
  }

  /** Trimming cuts white space off the two ends, and nothing else. */
  lemma TrimCuts(s: Text) returns (head: Text, tail: Text)
    ensures s == head + Trim(s) + tail && AllSpace(head) && AllSpace(tail) && Trimmed(Trim(s))
  {
    head := TrimStartCuts(s);
    tail := TrimEndCuts(TrimStart(s));
    TrimIdempotent(s);
  }

  /** Text that begins with something other than white space is not blank. */
  lemma {:induction false} NotBlank(s: Text)
    requires s != [] && !IsSpace(s[0])
    ensures TrimStart(s) == s && Trim(s) != []
  {
    if IsSpace(s[|s| - 1]) {
      NotBlank(s[..|s| - 1]);
    }
  }
}
