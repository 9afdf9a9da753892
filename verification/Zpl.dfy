/** ZPL labels: text fields in hexadecimal and the pallet bitmap cut into graphic fields. */
module Zpl {
  import opened Common
  import opened HexBytes
  import opened JsonString
  import opened Utf8

  // Hexadecimal

  /** `toString('hex').toUpperCase()`. */
  function Hex(bytes: seq<Byte>): Text {
    if bytes == [] then [] else ByteHex(bytes[0]) + Hex(bytes[1..])
  }

  /** `zplHex`: every byte as a backslash and two digits. */
  function EscapedHex(bytes: seq<Byte>): Text {
    if bytes == [] then [] else [BACKSLASH] + ByteHex(bytes[0]) + EscapedHex(bytes[1..])
  }

  /** What a printer reads from a graphic field's data. */
  function ReadHex(t: Text): Option<seq<Byte>> {
    if t == [] then Some([])
    else if |t| == 1 then None
    else
      var b, rest := ReadByte(t[0], t[1]), ReadHex(t[2..]);
      if b.None? || rest.None? then None else Some([b.value] + rest.value)
  }

  /** What a printer reads from field data under `^FH\`: escapes are bytes, other ASCII is itself. */
  function ReadField(t: Text): Option<seq<Byte>> {
    if t == [] then Some([])
    else if t[0] != BACKSLASH then
      var rest := ReadField(t[1..]);
      if t[0] >= 128 || rest.None? then None else Some([t[0]] + rest.value)
    else if |t| < 3 then None
    else
      var b, rest := ReadByte(t[1], t[2]), ReadField(t[3..]);
      if b.None? || rest.None? then None else Some([b.value] + rest.value)
  }

  lemma {:induction false} ReadHexOfHex(bytes: seq<Byte>)
    ensures |Hex(bytes)| == 2 * |bytes| && ReadHex(Hex(bytes)) == Some(bytes)
  {
    hide UpperHex, ReadByte;
    if bytes != [] {
      ReadHexOfHex(bytes[1..]);
      ReadByteHex(bytes[0]);
      var t := Hex(bytes);
      assert bytes == [bytes[0]] + bytes[1..];
      assert t == [ByteHex(bytes[0])[0], ByteHex(bytes[0])[1]] + Hex(bytes[1..]);
      assert t[2..] == Hex(bytes[1..]);
    }
  }

  /** A text field reads back as the bytes written, and holds nothing but backslashes and upper-case
      hexadecimal digits, so no byte of it can be taken for a command. */
  lemma {:induction false} ReadFieldOfEscaped(bytes: seq<Byte>)
    ensures ReadField(EscapedHex(bytes)) == Some(bytes)
    ensures forall u | u in EscapedHex(bytes) :: u == BACKSLASH || 48 <= u <= 57 || 65 <= u <= 70
  {
    hide UpperHex, ReadByte;
    if bytes != [] {
      ReadFieldOfEscaped(bytes[1..]);
      ReadByteHex(bytes[0]);
      var t := EscapedHex(bytes);
      assert bytes == [bytes[0]] + bytes[1..];
      assert t == [BACKSLASH, ByteHex(bytes[0])[0], ByteHex(bytes[0])[1]] + EscapedHex(bytes[1..]);
      assert t[3..] == EscapedHex(bytes[1..]);
    }
  }

  // Text lines

  /** What `lines` lines of this width hold: characters of a text, bytes of a bitmap. */
  function Room(lines: nat, width: nat): nat { lines * width }

  lemma RoomStep(lines: nat, width: nat)
    ensures Room(0, width) == 0 && Room(lines + 1, width) == Room(lines, width) + width
  {
  }

  lemma RoomGrows(a: nat, b: nat, width: nat)
    requires a <= b
    ensures Room(a, width) <= Room(b, width)
  {
  }

  predicate Harmless(u: CodeUnit) { u != QUOTE && u != BACKSLASH && u != 13 && u != 10 }

  /** Without quotation marks, backslashes and line breaks. */
  function Sanitize(s: Text): (r: Text)
    ensures forall i | 0 <= i < |r| :: r[i] != 34 && r[i] != 92 && r[i] != 13 && r[i] != 10
    ensures forall i | 0 <= i < |r| :: Harmless(r[i])
    ensures (forall i | 0 <= i < |s| :: s[i] != 34 && s[i] != 92 && s[i] != 13 && s[i] != 10) ==> r == s
  {
    if s == [] then []
    else if Harmless(s[0]) then [s[0]] + Sanitize(s[1..])
    else Sanitize(s[1..])
  }

  type Line = seq<CodePoint>

  /** `splitText` cuts the characters into lines of `width`, at most `most` of them. */
  function Split(p: seq<CodePoint>, width: nat, most: nat): seq<Line>
    requires width > 0
  {
    if p == [] || most == 0 then [] else [p[..Min(width, |p|)]] + Split(p[Min(width, |p|)..], width, most - 1)
  }

  method SplitText(value: Text, charsPerLine: nat, maxLines: nat) returns (lines: seq<Line>)
    requires charsPerLine > 0
    ensures lines == Split(Points(Sanitize(value)), charsPerLine, maxLines)
  {
    hide Split, Points, Sanitize;
    var characters := Points(Sanitize(value));
    assert characters[0..] == characters;
    lines := [];
    var offset := 0;
    while offset < |characters| && |lines| < maxLines
      invariant |lines| <= maxLines
      invariant lines + Split(characters[Min(offset, |characters|)..], charsPerLine, maxLines - |lines|)
             == Split(characters, charsPerLine, maxLines)
      decreases maxLines - |lines|
    {
      var line := characters[offset..Min(offset + charsPerLine, |characters|)];
      SplitStep(characters, offset, charsPerLine, maxLines - |lines|);
      assert lines + ([line] + Split(characters[Min(offset + charsPerLine, |characters|)..], charsPerLine,
          maxLines - |lines| - 1))
          == (lines + [line]) + Split(characters[Min(offset + charsPerLine, |characters|)..], charsPerLine,
              maxLines - |lines| - 1);
      lines := lines + [line];
      offset := offset + charsPerLine;
    }
    SplitEnds(characters[Min(offset, |characters|)..], charsPerLine, maxLines - |lines|);
    assert lines + [] == lines;
  }

  /** Nothing is cut when no character or no line is left. */
  lemma SplitEnds(p: seq<CodePoint>, width: nat, most: nat)
    requires width > 0 && (p == [] || most == 0)
    ensures Split(p, width, most) == []
  {
  }

  lemma SplitStep(p: seq<CodePoint>, offset: nat, width: nat, most: nat)
    requires width > 0 && most > 0 && offset < |p|
    ensures Split(p[offset..], width, most)
         == [p[offset..Min(offset + width, |p|)]] + Split(p[Min(offset + width, |p|)..], width, most - 1)
  {
    var rest, cut := p[offset..], Min(width, |p| - offset);
    assert rest[..cut] == p[offset..offset + cut] && rest[cut..] == p[offset + cut..];
  }

  function Flatten(lines: seq<Line>): seq<CodePoint> {
    if lines == [] then [] else lines[0] + Flatten(lines[1..])
  }

  lemma {:induction false} FlattenConcat(a: seq<Line>, b: seq<Line>)
    ensures Flatten(a + b) == Flatten(a) + Flatten(b)
  {
    if a == [] {
      assert a + b == b;
    } else {
      assert (a + b)[1..] == a[1..] + b;
      FlattenConcat(a[1..], b);
    }
  }

  /** The first `k` lines hold as many characters as fit on them, or all there are; only the limit
      on lines leaves characters out. */
  lemma {:induction false} SplitIsPrefix(p: seq<CodePoint>, width: nat, most: nat, k: nat)
    requires width > 0 && k <= |Split(p, width, most)|
    ensures Flatten(Split(p, width, most)[..k]) == p[..Min(Room(k, width), |p|)]
    ensures |Split(p, width, most)| < most ==> |p| <= Room(|Split(p, width, most)|, width)
    ensures |Split(p, width, most)| <= most
    decreases most
  {
    hide Room;
    RoomStep(0, width);
    if p != [] && most > 0 {
      var cut := Min(width, |p|);
      var lines, rest := Split(p, width, most), Split(p[cut..], width, most - 1);
      RoomStep(|rest|, width);
      if k > 0 {
        SplitIsPrefix(p[cut..], width, most - 1, k - 1);
        RoomStep(k - 1, width);
        assert lines[..k] == [p[..cut]] + rest[..k - 1];
        assert lines[..k][1..] == rest[..k - 1];
        CutTwice(p, cut, Min(Room(k - 1, width), |p| - cut));
      } else {
        SplitIsPrefix(p[cut..], width, most - 1, 0);
      }
    }
  }

  lemma CutTwice(p: seq<CodePoint>, a: nat, b: nat)
    requires a + b <= |p|
    ensures p[..a] + p[a..][..b] == p[..a + b]
  {
  }

  /** The lines of several values; a blank line goes before each but the first unless the label is
      an operator's. */
  function TextLines(values: seq<Text>, operator: bool, width: nat, most: nat, first: bool): seq<Line>
    requires width > 0
  {
    if values == [] then []
    else (if first || operator then [] else [[]]) + Split(Points(Sanitize(values[0])), width, most)
         + TextLines(values[1..], operator, width, most, false)
  }

  datatype TextField = TextField(line: nat, data: Text)

  /** One field for every line that is not empty, with the line's place on the label. */
  function TextFields(lines: seq<Line>, at: nat): seq<TextField> {
    if lines == [] then []
    else
      (if lines[0] == [] then [] else [TextField(at, EscapedHex(Utf8Bytes(Joined(lines[0]))))])
      + TextFields(lines[1..], at + 1)
  }

  /** `zplTextLines`. */
  function ZplTextLines(values: seq<Text>, operator: bool, width: nat, most: nat): seq<TextField>
    requires width > 0
  {
    var lines := TextLines(values, operator, width, most, true);
    TextFields(lines[..Min(most, |lines|)], 0)
  }

  /** The field of a line at its place on the label. */
  function FieldOf(lines: seq<Line>, at: nat, i: nat): TextField
    requires i < |lines|
  {
    TextField(at + i, EscapedHex(Utf8Bytes(Joined(lines[i]))))
  }

  /** Every line that is not empty has its field, at its own place. */
  lemma {:induction false} LineHasField(lines: seq<Line>, at: nat, i: nat)
    requires i < |lines| && lines[i] != []
    ensures FieldOf(lines, at, i) in TextFields(lines, at)
  {
    hide EscapedHex, Utf8Bytes, Joined;
    if i > 0 {
      LineHasField(lines[1..], at + 1, i - 1);
    }
  }

  /** Every field is that of a line, and fields go down the label. */
  lemma {:induction false} FieldsGoDown(lines: seq<Line>, at: nat)
    ensures var fields := TextFields(lines, at);
            (forall f | f in fields :: at <= f.line < at + |lines| && f == FieldOf(lines, at, f.line - at))
            && (forall j, k | 0 <= j < k < |fields| :: fields[j].line < fields[k].line)
  {
    hide EscapedHex, Utf8Bytes, Joined;
    if lines != [] {
      FieldsGoDown(lines[1..], at + 1);
      var rest := TextFields(lines[1..], at + 1);
      forall f | f in rest ensures at < f.line < at + |lines| && f == FieldOf(lines, at, f.line - at) {
        assert lines[1..][f.line - at - 1] == lines[f.line - at];
      }
    }
  }

  /** What the fields print, read in order. */
  function Printed(fields: seq<TextField>): Option<seq<Byte>> {
    if fields == [] then Some([])
    else
      var head, rest := ReadField(fields[0].data), Printed(fields[1..]);
      if head.None? || rest.None? then None else Some(head.value + rest.value)
  }

  predicate Prefixes(shown: seq<seq<CodePoint>>, values: seq<Text>) {
    |shown| == |values| && forall i | 0 <= i < |values| :: shown[i] <= Points(Sanitize(values[i]))
  }

  lemma {:induction false} FieldsPrintLines(lines: seq<Line>, at: nat)
    requires forall i | 0 <= i < |lines| :: Separated(lines[i])
    ensures Printed(TextFields(lines, at)) == Some(EncodeAll(Flatten(lines)))
  {
    hide EscapedHex, ReadField, Joined;
    if lines != [] {
      assert forall i | 0 <= i < |lines[1..]| :: lines[1..][i] == lines[i + 1];
      FieldsPrintLines(lines[1..], at + 1);
      EncodeConcat(lines[0], Flatten(lines[1..]));
      PointsOfJoined(lines[0]);
      var bytes := Utf8Bytes(Joined(lines[0]));
      ReadFieldOfEscaped(bytes);
      var fields := TextFields(lines, at);
      if lines[0] == [] {
        assert fields == TextFields(lines[1..], at + 1);
        assert Flatten(lines) == Flatten(lines[1..]);
      } else {
        assert fields[1..] == TextFields(lines[1..], at + 1) && fields[0].data == EscapedHex(bytes);
      }
    }
  }

  lemma {:induction false} SplitSeparated(p: seq<CodePoint>, width: nat, most: nat)
    requires width > 0 && Separated(p)
    ensures forall i | 0 <= i < |Split(p, width, most)| :: Separated(Split(p, width, most)[i])
    decreases most
  {
    if p != [] && most > 0 {
      var cut := Min(width, |p|);
      SeparatedPart(p, 0, cut);
      SeparatedPart(p, cut, |p|);
      assert p[0..cut] == p[..cut] && p[cut..|p|] == p[cut..];
      SplitSeparated(p[cut..], width, most - 1);
    }
  }

  lemma SeparatedPart(p: seq<CodePoint>, a: nat, b: nat)
    requires Separated(p) && a <= b <= |p|
    ensures Separated(p[a..b])
  {
    forall i | 0 <= i < b - a - 1 ensures !(IsHigh16(p[a..b][i]) && IsLow16(p[a..b][i + 1])) {
      assert !(IsHigh16(p[a + i]) && IsLow16(p[a + i + 1]));
    }
  }

  lemma {:induction false} LinesSeparated(values: seq<Text>, operator: bool, width: nat, most: nat, first: bool)
    requires width > 0
    ensures forall i | 0 <= i < |TextLines(values, operator, width, most, first)| ::
              Separated(TextLines(values, operator, width, most, first)[i])
  {
    if values != [] {
      PointsSeparated(Sanitize(values[0]));
      SplitSeparated(Points(Sanitize(values[0])), width, most);
      LinesSeparated(values[1..], operator, width, most, false);
    }
  }

  /** The first lines of a label show a prefix of each value. */
  lemma {:induction false} LinesShowPrefixes(values: seq<Text>, operator: bool, width: nat, most: nat, first: bool,
      k: nat)
    returns (shown: seq<seq<CodePoint>>)
    requires width > 0 && k <= |TextLines(values, operator, width, most, first)|
    ensures Prefixes(shown, values)
    ensures Flatten(TextLines(values, operator, width, most, first)[..k]) == Flatten(shown)
    ensures values != [] && first && k == Min(most, |TextLines(values, operator, width, most, first)|) ==>
              shown[0] == Points(Sanitize(values[0]))[..Min(Room(most, width), |Points(Sanitize(values[0]))|)]
    decreases |values|
  {
    hide Points, Sanitize, Split, Room, Prefixes, Flatten;
    if values == [] {
      shown := [];
      NothingShown();
    } else {
      var lines := TextLines(values, operator, width, most, first);
      var blank: seq<Line> := if first || operator then [] else [[]];
      var p := Points(Sanitize(values[0]));
      var own, rest := Split(p, width, most), TextLines(values[1..], operator, width, most, false);
      var inBlank := Min(k, |blank|);
      var inOwn := Min(k - inBlank, |own|);
      var inRest := k - inBlank - inOwn;
      var more := LinesShowPrefixes(values[1..], operator, width, most, false, inRest);
      SplitIsPrefix(p, width, most, inOwn);
      shown := [p[..Min(Room(inOwn, width), |p|)]] + more;
      assert lines[..k] == blank[..inBlank] + (own[..inOwn] + rest[..inRest]);
      FlattenThree(blank[..inBlank], own[..inOwn], rest[..inRest]);
      PrefixesCons(shown[0], more, values);
      WholeFirst(p, width, most, inOwn, |lines|, k, first);
    }
  }

  lemma NothingShown()
    ensures Prefixes([], []) && Flatten([]) == []
  {
  }

  lemma FlattenThree(blank: seq<Line>, own: seq<Line>, rest: seq<Line>)
    requires blank == [] || blank == [[]]
    ensures Flatten(blank + (own + rest)) == Flatten(own) + Flatten(rest)
  {
    FlattenConcat(blank, own + rest);
    FlattenConcat(own, rest);
    BlankIsEmpty(blank);
  }

  lemma PrefixesCons(head: seq<CodePoint>, more: seq<seq<CodePoint>>, values: seq<Text>)
    requires values != [] && head <= Points(Sanitize(values[0])) && Prefixes(more, values[1..])
    ensures Prefixes([head] + more, values) && Flatten([head] + more) == head + Flatten(more)
  {
    hide Points, Sanitize;
    var shown := [head] + more;
    assert shown[1..] == more;
    forall i | 0 <= i < |values| ensures shown[i] <= Points(Sanitize(values[i])) {
      if i > 0 {
        assert more[i - 1] <= Points(Sanitize(values[1..][i - 1]));
      }
    }
  }

  lemma BlankIsEmpty(blank: seq<Line>)
    requires blank == [] || blank == [[]]
    ensures Flatten(blank) == []
  {
    if blank != [] {
      assert Flatten(blank[1..]) == [];
    }
  }

  lemma WholeFirst(p: seq<CodePoint>, width: nat, most: nat, inOwn: nat, total: nat, k: nat, first: bool)
    requires width > 0 && |Split(p, width, most)| <= total
    requires first ==> inOwn == Min(k, |Split(p, width, most)|)
    requires inOwn <= |Split(p, width, most)|
    ensures first && k == Min(most, total) ==> Min(Room(inOwn, width), |p|) == Min(Room(most, width), |p|)
  {
    hide Room;
    SplitIsPrefix(p, width, most, 0);
    RoomGrows(inOwn, most, width);
  }

  /** The text fields of a label print, character for character, a prefix of each sanitized value in
      UTF-8, and of the first value as much as fits on all the lines. */
  lemma TextFieldsPrintPrefixes(values: seq<Text>, operator: bool, width: nat, most: nat)
    returns (shown: seq<seq<CodePoint>>)
    requires width > 0
    ensures Prefixes(shown, values)
    ensures Printed(ZplTextLines(values, operator, width, most)) == Some(EncodeAll(Flatten(shown)))
    ensures values != [] ==> shown[0] == Points(Sanitize(values[0]))[..Min(Room(most, width),
            |Points(Sanitize(values[0]))|)]
  {
    var lines := TextLines(values, operator, width, most, true);
    var k := Min(most, |lines|);
    LinesSeparated(values, operator, width, most, true);
    FieldsPrintLines(lines[..k], 0);
    shown := LinesShowPrefixes(values, operator, width, most, true, k);
  }

  // The pallet bitmap

  const ZPL_GFA_MAX_BYTES := 99_999
  const BITMAP_BYTES := 120_000

  datatype GraphicField = GraphicField(row: nat, byteCount: nat, rowBytes: nat, data: Text)

  /** The fields cover the first `height` rows without gap or overlap, each within the size limit,
      and none but the last could take another row. */
  predicate Tile(fields: seq<GraphicField>, rows: seq<nat>, rowBytes: nat, height: nat) {
    && |rows| == |fields|
    && (forall i | 0 <= i < |fields| ::
          fields[i].rowBytes == rowBytes && fields[i].byteCount == Room(rows[i], rowBytes) && rows[i] > 0
          && fields[i].byteCount <= ZPL_GFA_MAX_BYTES && |fields[i].data| == 2 * fields[i].byteCount)
    && (forall i | 0 <= i < |fields| :: fields[i].row == if i == 0 then 0 else fields[i - 1].row + rows[i - 1])
    && height == (if fields == [] then 0 else fields[|fields| - 1].row + rows[|fields| - 1])
  }

  /** What the fields draw, in order. */
  function Bitmap(fields: seq<GraphicField>): Option<seq<Byte>> {
    if fields == [] then Some([])
    else
      var rest, last := Bitmap(fields[..|fields| - 1]), ReadHex(fields[|fields| - 1].data);
      if last.None? || rest.None? then None else Some(rest.value + last.value)
  }

  lemma RoomAdds(a: nat, b: nat, width: nat)
    ensures Room(a + b, width) == Room(a, width) + Room(b, width)
  {
  }

  lemma MostRows(rowBytes: nat)
    requires 0 < rowBytes <= ZPL_GFA_MAX_BYTES
    ensures ZPL_GFA_MAX_BYTES / rowBytes > 0
    ensures forall rows: nat :: rows <= ZPL_GFA_MAX_BYTES / rowBytes <==> Room(rows, rowBytes) <= ZPL_GFA_MAX_BYTES
  {
    var most := ZPL_GFA_MAX_BYTES / rowBytes;
    assert Room(most, rowBytes) <= ZPL_GFA_MAX_BYTES < Room(most + 1, rowBytes);
    forall rows: nat ensures rows <= most <==> Room(rows, rowBytes) <= ZPL_GFA_MAX_BYTES {
      if rows <= most {
        RoomGrows(rows, most, rowBytes);
      } else {
        RoomGrows(most + 1, rows, rowBytes);
      }
    }
  }

  /** The graphic fields of `palletZpl`. They tile the label, and a printer that reads them in order
      draws the bitmap that was sent. */
  method PalletFields(bitmap: seq<Byte>, rowBytes: nat, heightDots: nat)
      returns (fields: seq<GraphicField>, ghost rowsOf: seq<nat>)
    requires 0 < rowBytes <= ZPL_GFA_MAX_BYTES && |bitmap| == Room(heightDots, rowBytes)
    ensures Tile(fields, rowsOf, rowBytes, heightDots)
    ensures Bitmap(fields) == Some(bitmap)
    ensures forall i | 0 <= i < |fields| - 1 :: Room(rowsOf[i] + 1, rowBytes) > ZPL_GFA_MAX_BYTES
  {
    hide Room, ReadHex, Hex, Tile, Bitmap;
    NoTiles(rowBytes);
    MostRows(rowBytes);
    var maxRowsPerField := ZPL_GFA_MAX_BYTES / rowBytes;
    fields, rowsOf := [], [];
    var row := 0;
    RoomStep(0, rowBytes);
    while row < heightDots
      invariant 0 <= row && |rowsOf| == |fields|
      invariant Min(row, heightDots) <= heightDots && Tile(fields, rowsOf, rowBytes, Min(row, heightDots))
      invariant Room(Min(row, heightDots), rowBytes) <= |bitmap|
      invariant Bitmap(fields) == Some(bitmap[..Room(Min(row, heightDots), rowBytes)])
      invariant forall i | 0 <= i < |fields| :: i < |fields| - 1 || row < heightDots ==> rowsOf[i] == maxRowsPerField
      decreases heightDots - row
    {
      var rows := Min(maxRowsPerField, heightDots - row);
      var byteCount := rows * rowBytes;
      RoomAdds(row, rows, rowBytes);
      RoomGrows(row + rows, heightDots, rowBytes);
      IsRoom(rows, rowBytes);
      IsRoom(row, rowBytes);
      IsRoom(row + rows, rowBytes);
      var chunk := bitmap[row * rowBytes..(row + rows) * rowBytes];
      ReadHexOfHex(chunk);
      var field := GraphicField(row, byteCount, rowBytes, Hex(chunk));
      TileNext(fields, rowsOf, row, field, rows);
      BitmapNext(fields, field, bitmap[..Room(row, rowBytes)], chunk);
      assert bitmap[..Room(row, rowBytes)] + chunk == bitmap[..Room(row + rows, rowBytes)];
      fields, rowsOf := fields + [field], rowsOf + [rows];
      row := row + maxRowsPerField;
    }
    assert bitmap[..|bitmap|] == bitmap;
  }

  lemma NoTiles(rowBytes: nat)
    ensures Tile([], [], rowBytes, 0) && Bitmap([]) == Some([])
  {
  }

  lemma TileNext(fields: seq<GraphicField>, rowsOf: seq<nat>, height: nat, field: GraphicField, rows: nat)
    requires Tile(fields, rowsOf, field.rowBytes, height) && field.row == height && rows > 0
    requires field.byteCount == Room(rows, field.rowBytes) <= ZPL_GFA_MAX_BYTES && |field.data| == 2 * field.byteCount
    ensures Tile(fields + [field], rowsOf + [rows], field.rowBytes, height + rows)
  {
    hide Room;
  }

  lemma BitmapNext(fields: seq<GraphicField>, field: GraphicField, drawn: seq<Byte>, chunk: seq<Byte>)
    requires Bitmap(fields) == Some(drawn) && ReadHex(field.data) == Some(chunk)
    ensures Bitmap(fields + [field]) == Some(drawn + chunk)
  {
    hide ReadHex;
    assert (fields + [field])[..|fields|] == fields;
  }

  lemma IsRoom(lines: nat, width: nat)
    ensures lines * width == Room(lines, width)
  {
  }

  datatype PalletPayload = PalletPayload(dpi: nat, widthDots: nat, heightDots: nat, bitmap: seq<Byte>)

  datatype Profile = Profile(dpi: nat, maxWidthDots: nat)

  /** The dimensions the shared contract fixes before a payload is rendered. */
  predicate IsPalletPayload(p: PalletPayload) {
    p.dpi == 203 && p.widthDots == 800 && p.heightDots == 1200
  }

  /** `palletZpl` refuses exactly what does not fit the printer's profile or has another size; the rest is
      drawn whole. */
  method PalletZpl(payload: PalletPayload, profile: Profile) returns (r: Outcome<seq<GraphicField>, string>)
    requires IsPalletPayload(payload)
    ensures r.Returned? <==> profile.dpi == 203 && 800 <= profile.maxWidthDots && |payload.bitmap| == BITMAP_BYTES
    ensures r.Returned? ==> Bitmap(r.value) == Some(payload.bitmap)
  {
    if profile.dpi != payload.dpi || payload.widthDots > profile.maxWidthDots {
      return Thrown("pallet label does not match configured printer profile");
    }
    if |payload.bitmap| != BITMAP_BYTES {
      return Thrown("pallet bitmap length must be 120000 bytes");
    }
    var fields, rowsOf := PalletFields(payload.bitmap, payload.widthDots / 8, payload.heightDots);
    return Returned(fields);
  }
}
