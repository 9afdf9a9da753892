/** The result journal as text: one JSON record a line, written by `persist` and read by `load`. */
module JournalText {
  import opened Common
  import opened JsonCanon
  import opened JsonParse
  import opened JsonString
  import opened JsonText
  import opened JsonWellFormed
  import opened JsTrim
  import opened LineFile
  import opened ResultOutbox
  import Utf8

  const NEWLINE: CodeUnit := 10

  /** What `persist` writes. */
  function FileText(results: seq<Pending>): Text {
    if results == [] then [] else Stringify(RecordJson(results[0])) + [NEWLINE] + FileText(results[1..])
  }

  /** `split('\n')`. */
  function Lines(t: Text): (r: seq<Text>)
    ensures r != []
  {
    if t == [] then [[]]
    else if t[0] == NEWLINE then [[]] + Lines(t[1..])
    else
      var rest := Lines(t[1..]);
      [[t[0]] + rest[0]] + rest[1..]
  }

  predicate IsText(v: Option<Json>) { v.Some? && v.value.Str? }

  /** `isPendingCommandResult`. */
  predicate IsPendingResult(v: Json) {
    v.Obj?
    && var id, lease := Property(v.fields, COMMAND_ID), Property(v.fields, LEASE_TOKEN);
       var stamp, result := Property(v.fields, ENQUEUED_AT), Property(v.fields, RESULT);
       IsText(id) && id.value.s != [] && IsText(lease) && lease.value.s != [] && IsText(stamp)
       && result.Some? && result.value.Obj?
  }

  function PendingOf(v: Json): Pending
    requires IsPendingResult(v)
  {
    Pending(Property(v.fields, COMMAND_ID).value.s, Property(v.fields, LEASE_TOKEN).value.s,
            Property(v.fields, RESULT).value, Property(v.fields, ENQUEUED_AT).value.s)
  }

  /** What `load` makes of one line. */
  function ReadLine(line: Text): Line<Pending> {
    if Trim(line) == [] then Blank
    else
      var v := Parse(line);
      if v.Some? && IsPendingResult(v.value) then Stored(PendingOf(v.value)) else Unreadable(line)
  }

  function ReadLines(lines: seq<Text>): seq<Line<Pending>> {
    if lines == [] then [] else [ReadLine(lines[0])] + ReadLines(lines[1..])
  }

  function ReadFile(t: Text): seq<Line<Pending>> { ReadLines(Lines(t)) }

  /** A result the agent enqueues: identified, leased, and an object that JSON can carry. */
  predicate Writable(p: Pending) {
    p.commandId != [] && p.leaseToken != [] && p.result.Obj? && Printable(p.result)
  }

  lemma {:induction false} LinesCut(a: Text, rest: Text)
    requires NEWLINE !in a
    ensures Lines(a + [NEWLINE] + rest) == [a] + Lines(rest)
  {
    var t := a + [NEWLINE] + rest;
    if a == [] {
      assert t[1..] == rest;
    } else {
      LinesCut(a[1..], rest);
      assert t[1..] == a[1..] + [NEWLINE] + rest;
      assert a == [a[0]] + a[1..];
    }
  }

  lemma RecordPrintable(p: Pending)
    requires Printable(p.result)
    ensures Printable(RecordJson(p))
  {
    hide Printable;
    DistinctKeys();
    var fields, keys := RecordJson(p).fields, [COMMAND_ID, LEASE_TOKEN, RESULT, ENQUEUED_AT];
    forall i, j | 0 <= i < j < 4 ensures fields[i].key != fields[j].key {
      assert fields[i].key == keys[i] && fields[j].key == keys[j];
    }
    ObjectPrintable(fields, p);
  }

  lemma ObjectPrintable(fields: seq<Field>, p: Pending)
    requires fields == RecordJson(p).fields && UniqueFields(fields) && Printable(p.result)
    ensures Printable(Obj(fields))
  {
    hide UniqueFields;
  }

  lemma RecordProperties(p: Pending)
    ensures var fields := RecordJson(p).fields;
            Property(fields, COMMAND_ID) == Some(Str(p.commandId))
                && Property(fields, LEASE_TOKEN) == Some(Str(p.leaseToken))
            && Property(fields, RESULT) == Some(p.result) && Property(fields, ENQUEUED_AT) == Some(Str(p.enqueuedAt))
  {
    DistinctKeys();
    var fields, keys := RecordJson(p).fields, [COMMAND_ID, LEASE_TOKEN, RESULT, ENQUEUED_AT];
    assert keys[0] != keys[1] && keys[0] != keys[2] && keys[0] != keys[3];
    assert keys[1] != keys[2] && keys[1] != keys[3] && keys[2] != keys[3];
    var f1, f2, f3 := fields[1..], fields[2..], fields[3..];
    assert f1[1..] == f2 && f2[1..] == f3;
    assert Property(f3, ENQUEUED_AT) == Some(Str(p.enqueuedAt));
    assert Property(f2, RESULT) == Some(p.result) && Property(f2, ENQUEUED_AT) == Property(f3, ENQUEUED_AT);
    assert Property(f1, LEASE_TOKEN) == Some(Str(p.leaseToken)) && Property(f1, RESULT) == Property(f2, RESULT)
           && Property(f1, ENQUEUED_AT) == Property(f2, ENQUEUED_AT);
  }

  lemma LineOfRecord(line: Text, p: Pending)
    requires Writable(p) && Trim(line) != [] && Parse(line) == Some(RecordJson(p))
    ensures ReadLine(line) == Stored(p)
  {
    hide Parse, Property, Printable, Trim;
    RecordProperties(p);
  }

  lemma RecordStarts(p: Pending)
    ensures Stringify(RecordJson(p)) != [] && Stringify(RecordJson(p))[0] == OPEN_BRACE
  {
  }

  /** A written record is one line, and reads back as itself. */
  lemma ReadRecord(p: Pending)
    requires Writable(p)
    ensures NEWLINE !in Stringify(RecordJson(p)) && ReadLine(Stringify(RecordJson(p))) == Stored(p)
  {
    hide Stringify, Parse, Property, Printable, Trim, ReadLine;
    var line := Stringify(RecordJson(p));
    RecordStarts(p);
    RecordPrintable(p);
    PrintNoControl(RecordJson(p));
    ParseStringify(RecordJson(p));
    NotBlank(line);
    LineOfRecord(line, p);
  }

  lemma {:induction false} ReadFileText(results: seq<Pending>)
    requires forall p | p in results :: Writable(p)
    ensures ReadFile(FileText(results)) == Encode(results) + [Blank]
  {
    hide ReadLine, Writable, Stringify, Lines;
    if results == [] {
      BlankLine();
    } else {
      var line, rest := Stringify(RecordJson(results[0])), FileText(results[1..]);
      ReadRecord(results[0]);
      LinesCut(line, rest);
      ReadFileText(results[1..]);
      assert Lines(FileText(results))[1..] == Lines(rest);
      assert Encode(results) == [Stored(results[0])] + Encode(results[1..]);
    }
  }

  lemma BlankLine()
    ensures Lines([]) == [[]] && ReadLines([[]]) == [Blank]
  {
    var lines: seq<Text> := [[]];
    assert lines[1..] == [];
  }

  lemma {:induction false} LoadPrefix(a: seq<Line<Pending>>, b: seq<Line<Pending>>, n: nat)
    requires n <= |a|
    ensures LoadFirst(a + b, n) == LoadFirst(a, n)
  {
    hide LoadLine;
    if n > 0 {
      LoadPrefix(a, b, n - 1);
    }
  }

  /** The bytes of the file: `writeFileSync` and `readFileSync` use UTF-8. */
  function FileBytes(results: seq<Pending>): seq<Utf8.Byte> { Utf8.Utf8Bytes(FileText(results)) }

  lemma {:induction false} FileTextWellFormed(results: seq<Pending>)
    requires forall p | p in results :: Writable(p)
    ensures Utf8.WellFormed(FileText(results))
  {
    hide Utf8.WellFormed, Stringify, RecordJson, Printable;
    if results == [] {
      NoText();
    } else {
      var rest := FileText(results[1..]);
      FileTextWellFormed(results[1..]);
      assert !IsHigh(NEWLINE) && !IsLow(NEWLINE) && Writable(results[0]);
      PlainWellFormed([NEWLINE], rest);
      RecordPrintable(results[0]);
      StringifyWellFormed(RecordJson(results[0]), [NEWLINE] + rest);
      assert FileText(results) == Stringify(RecordJson(results[0])) + ([NEWLINE] + rest);
    }
  }

  lemma NoText()
    ensures Utf8.WellFormed([])
  {
  }

  /** Loading the file that was persisted gives back the records, whatever strings they hold, and sets
      nothing aside. */
  lemma JournalRoundTrip(results: seq<Pending>)
    requires UniqueIds(results) && forall p | p in results :: Writable(p)
    ensures LoadLines(ReadFile(FileText(results))) == Loaded(results, [])
    ensures var text := Utf8.TextOfUtf8(FileBytes(results));
            text.Some? && LoadLines(ReadFile(text.value)) == Loaded(results, [])
  {
    hide Writable, ReadFile, FileText, Utf8.WellFormed, Utf8.TextOfUtf8, Utf8.Utf8Bytes;
    FileTextWellFormed(results);
    Utf8.Utf8RoundTrip(FileText(results));
    ReadFileText(results);
    LoadPrefix(Encode(results), [Blank], |results|);
    LoadAfterPersist(results);
  }
}
