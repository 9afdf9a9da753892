/** Machine breakdown reports carried in an action id: a JSON payload, percent-encoded. */
module BreakdownAction {
  import opened Common
  import opened JsonCanon
  import opened JsonParse
  import opened JsonString
  import opened JsonText
  import opened JsonWellFormed
  import opened JsTrim
  import opened UriComponent
  import opened Utf8

  datatype BreakdownType = ScrewJam | ExtruderStopped | DriveStopped | BeltBreak | Other

  datatype Report = Report(kind: BreakdownType, details: Option<Text>)

  function Prefix(): Text { Ascii("operator-machine-breakdown:") }

  function TypeKey(): Text { Ascii("type") }

  function DetailsKey(): Text { Ascii("details") }

  function Name(kind: BreakdownType): Text {
    match kind
    case ScrewJam => Ascii("screw_jam")
    case ExtruderStopped => Ascii("extruder_stopped")
    case DriveStopped => Ascii("drive_stopped")
    case BeltBreak => Ascii("belt_break")
    case Other => Ascii("other")
  }

  function KindOf(name: Text): Option<BreakdownType> {
    if name == Name(ScrewJam) then Some(ScrewJam)
    else if name == Name(ExtruderStopped) then Some(ExtruderStopped)
    else if name == Name(DriveStopped) then Some(DriveStopped)
    else if name == Name(BeltBreak) then Some(BeltBreak)
    else if name == Name(Other) then Some(Other)
    else None
  }

  lemma KindIff(name: Text, kind: BreakdownType)
    ensures KindOf(name) == Some(kind) <==> name == Name(kind)
  {
    hide Ascii;
    NamesDiffer();
  }

  lemma NamesDiffer()
    ensures forall a, b | Name(a) == Name(b) :: a == b
  {
  }

  // Building

  /** The details as they are sent: trimmed, and left out when blank. */
  function Sent(details: Option<Text>): Option<Text> {
    if details.Some? && Trim(details.value) != [] then Some(Trim(details.value)) else None
  }

  /** The payload's properties. */
  function PayloadFields(kind: BreakdownType, details: Option<Text>): seq<Field> {
    [Field(TypeKey(), Str(Name(kind)))] + if details.Some? then [Field(DetailsKey(), Str(details.value))] else []
  }

  function Payload(kind: BreakdownType, details: Option<Text>): Text { Stringify(Obj(PayloadFields(kind, details))) }

  /** `operatorMachineBreakdownAction`. */
  function BuildAction(report: Report): Option<Text> {
    After(Prefix(), EncodeComponent(Payload(report.kind, Sent(report.details))))
  }

  // Parsing

  function ReadPayload(v: Json): Option<Report> {
    if !v.Obj? then None
    else
      var kind, details := Property(v.fields, TypeKey()), Property(v.fields, DetailsKey());
      if kind.None?
         || !(forall i | 0 <= i < |v.fields| :: v.fields[i].key == TypeKey() || v.fields[i].key == DetailsKey())
      then None
      else if !kind.value.Str? || KindOf(kind.value.s).None? then None
      else if details.None? then Some(Report(KindOf(kind.value.s).value, None))
      else if !details.value.Str? || Trim(details.value.s) == [] then None
      else Some(Report(KindOf(kind.value.s).value, Some(Trim(details.value.s))))
  }

  /** A payload is accepted exactly when it is an object with no other properties than a known type and,
      possibly, details that are not blank. */
  lemma ReadPayloadIff(v: Json)
    ensures ReadPayload(v).Some? <==>
            v.Obj? && (forall f | f in v.fields :: f.key == TypeKey() || f.key == DetailsKey())
            && (exists kind :: Property(v.fields, TypeKey()) == Some(Str(Name(kind))))
            && (Property(v.fields, DetailsKey()).None?
                || (Property(v.fields, DetailsKey()).value.Str?
                    && Trim(Property(v.fields, DetailsKey()).value.s) != []))
  {
    hide Ascii, Trim, Name;
    if v.Obj? {
      var kind := Property(v.fields, TypeKey());
      if kind.Some? && kind.value.Str? {
        forall k ensures KindOf(kind.value.s) == Some(k) <==> kind.value.s == Name(k) {
          KindIff(kind.value.s, k);
        }
      }
      hide KindOf, Property;
      assert forall i | 0 <= i < |v.fields| :: v.fields[i] in v.fields;
    }
  }

  /** `parseOperatorMachineBreakdownAction`. */
  function ParseAction(id: Text): Option<Report> {
    if !(Prefix() <= id) then None
    else
      var payload := DecodeComponent(id[|Prefix()|..]);
      if payload.None? || Parse(payload.value).None? then None else ReadPayload(Parse(payload.value).value)
  }

  // Round trip

  lemma NamesTellApart(kind: BreakdownType)
    ensures KindOf(Name(kind)) == Some(kind)
  {
    hide Ascii;
  }

  /** `PayloadFields` is an object JSON can carry. */
  lemma PayloadPrintable(kind: BreakdownType, details: Option<Text>)
    ensures Printable(Obj(PayloadFields(kind, details)))
  {
    hide Ascii;
    var fields := PayloadFields(kind, details);
    assert |TypeKey()| != |DetailsKey()|;
    forall f | f in fields ensures Printable(f.value) {
    }
  }

  lemma ReadsBack(kind: BreakdownType, details: Option<Text>)
    ensures WellFormed(Payload(kind, details))
    ensures Parse(Payload(kind, details)) == Some(Obj(PayloadFields(kind, details)))
  {
    hide Stringify, Parse, Printable, PayloadFields, WellFormed;
    PayloadPrintable(kind, details);
    ParseStringify(Obj(PayloadFields(kind, details)));
    PrintedWellFormed(Obj(PayloadFields(kind, details)));
  }

  lemma ReadPayloadOf(kind: BreakdownType, details: Option<Text>)
    requires details.Some? ==> details.value != [] && Trim(details.value) == details.value
    ensures ReadPayload(Obj(PayloadFields(kind, details))) == Some(Report(kind, details))
  {
    hide Ascii;
    NamesTellApart(kind);
    var fields := PayloadFields(kind, details);
    assert |TypeKey()| == 4 && |DetailsKey()| == 7;
    assert fields[1..] == if details.Some? then [Field(DetailsKey(), Str(details.value))] else [];
    assert Property(fields, TypeKey()) == Some(Str(Name(kind)));
    assert Property(fields, DetailsKey()) == if details.Some? then Some(Str(details.value)) else None;
  }

  /** For every type and text, building an action id never throws, and parsing it returns the type
      and the trimmed details, or no details when there are none or only white space. */
  lemma ActionRoundTrip(report: Report)
    ensures BuildAction(report).Some?
    ensures ParseAction(BuildAction(report).value) == Some(Report(report.kind, Sent(report.details)))
  {
    hide Ascii, Trim, EncodeComponent, DecodeComponent, Parse, ReadPayload, Payload, WellFormed;
    var details := Sent(report.details);
    var payload := Payload(report.kind, details);
    ReadsBack(report.kind, details);
    ComponentRoundTrip(payload);
    var id := BuildAction(report).value;
    assert id[|Prefix()|..] == EncodeComponent(payload).value;
    if report.details.Some? {
      TrimIdempotent(report.details.value);
    }
    ReadPayloadOf(report.kind, details);
  }

  /** Whatever id is accepted, its report is one that building and parsing leave as it is. */
  lemma AcceptedReportsAreStable(id: Text)
    requires ParseAction(id).Some?
    ensures var report := ParseAction(id).value;
            BuildAction(report).Some? && ParseAction(BuildAction(report).value) == Some(report)
  {
    hide Ascii, Trim, DecodeComponent, Parse, BuildAction;
    var report := ParseAction(id).value;
    var v := Parse(DecodeComponent(id[|Prefix()|..]).value).value;
    var details := Property(v.fields, DetailsKey());
    if details.Some? {
      TrimIdempotent(details.value.s);
    }
    ActionRoundTrip(report);
    assert Sent(report.details) == report.details;
  }
}
