/** The payroll preview: what an accepted response guarantees about its numbers. */
module Payroll {
  import opened Common
  import opened GroupedSum
  import opened JsonString
  import opened JsTrim

  datatype Row = Row(
    id: Text, tariffOrderId: Text, operatorId: Text, operatorName: Text, shiftId: Text, postId: Text,
    shiftOutputKg: real, payableKg: real, rateKopecksPerKg: int, amountKopecks: int)

  datatype Unresolved = Unresolved(netKg: real, operatorId: Option<Text>, operatorName: Option<Text>)

  datatype Operator = Operator(
    operatorId: Text, operatorName: Text, payableKg: real, amountKopecks: int, machineShiftCount: int,
    unresolvedFactCount: int)

  datatype Summary = Summary(
    payableAmountKopecks: int, payableKg: real, machineShiftCount: int, operatorCount: int, unresolvedKg: real,
    unresolvedFactCount: int, excludedDefectKg: real, excludedDefectRollCount: int)

  datatype Status = Complete | Partial | Empty

  datatype Preview = Preview(
    status: Status, appliedTariffOrderIds: seq<Text>, summary: Summary, operators: seq<Operator>,
    breakdown: seq<Row>, unresolved: seq<Unresolved>)

  // Numbers

  const MAX_SAFE_INTEGER := 9007199254740991

  predicate IsSafe(n: int) { -MAX_SAFE_INTEGER <= n <= MAX_SAFE_INTEGER }

  /** `Math.round`: half up. */
  function Round(x: real): int { (x + 0.5).Floor }

  function Abs(x: real): real { if x < 0.0 then -x else x }

  const TOLERANCE := 0.000000001

  function Grams(kg: real): Option<int> {
    var result := Round(kg * 1000.0);
    if IsSafe(result) && Abs(result as real / 1000.0 - kg) < TOLERANCE then Some(result) else None
  }

  /** A mass has grams exactly when it is within the tolerance of a whole safe number of them. */
  lemma GramsIff(kg: real, g: int)
    ensures Grams(kg) == Some(g) <==> IsSafe(g) && Abs(g as real / 1000.0 - kg) < TOLERANCE
  {
    if Abs(g as real / 1000.0 - kg) < TOLERANCE {
      var x := kg * 1000.0 + 0.5;
      assert g as real <= x < g as real + 1.0;
      assert Round(kg * 1000.0) == g;
    }
  }

  // Acceptance

  predicate NonEmpty(s: Text) { Trim(s) != [] }

  predicate IsOperator(o: Operator) {
    NonEmpty(o.operatorId) && NonEmpty(o.operatorName) && o.payableKg >= 0.0 && Grams(o.payableKg).Some?
    && 0 <= o.amountKopecks <= MAX_SAFE_INTEGER && 0 <= o.machineShiftCount <= MAX_SAFE_INTEGER
    && 0 <= o.unresolvedFactCount <= MAX_SAFE_INTEGER
  }

  predicate HasNullableAttribution(u: Unresolved) {
    (u.operatorId.Some? ==> NonEmpty(u.operatorId.value)) && (u.operatorName.Some? ==> NonEmpty(u.operatorName.value))
  }

  /** `isBreakdownRow` and `hasAttribution`. */
  predicate IsRow(r: Row) {
    NonEmpty(r.operatorId) && NonEmpty(r.operatorName) && r.shiftOutputKg >= 0.0 && r.payableKg >= 0.0
    && 0 <= r.rateKopecksPerKg <= MAX_SAFE_INTEGER && 0 <= r.amountKopecks <= MAX_SAFE_INTEGER
    && Grams(r.shiftOutputKg).Some? && Grams(r.payableKg).Some?
    && Round((Grams(r.payableKg).value * r.rateKopecksPerKg) as real / 1000.0) == r.amountKopecks
  }

  predicate IsUnresolved(u: Unresolved) { u.netKg > 0.0 && Grams(u.netKg).Some? }

  predicate IsSummary(s: Summary) {
    0 <= s.payableAmountKopecks <= MAX_SAFE_INTEGER && s.payableKg >= 0.0
        && 0 <= s.machineShiftCount <= MAX_SAFE_INTEGER
    && s.unresolvedKg >= 0.0 && 0 <= s.unresolvedFactCount <= MAX_SAFE_INTEGER && s.excludedDefectKg >= 0.0
    && 0 <= s.excludedDefectRollCount <= MAX_SAFE_INTEGER
  }

  /** The sum of the rows' grams, or nothing when a row has none. */
  function GramsSum<T>(rows: seq<T>, kg: T -> real): Option<int> {
    if rows == [] then Some(0)
    else
      var sum, g := GramsSum(rows[..|rows| - 1], kg), Grams(kg(rows[|rows| - 1]));
      if sum.None? || g.None? then None else Some(sum.value + g.value)
  }

  function PayableKg(r: Row): real { r.payableKg }
  function NetKg(u: Unresolved): real { u.netKg }
  function Amount(r: Row): int { r.amountKopecks }
  function One(u: Unresolved): int { 1 }

  function ShiftKey(r: Row): Text { r.shiftId + [0] + r.postId }

  function OwnerOfRow(r: Row): Option<Text> { Some(r.operatorId) }

  /** The operator an unresolved fact counts for: none unless it names one. */
  function OwnerOfFact(u: Unresolved): Option<Text> { if u.operatorName.Some? then u.operatorId else None }

  function RowId(r: Row): Text { r.id }

  function Ids(operators: seq<Operator>): seq<Text> {
    seq(|operators|, i requires 0 <= i < |operators| => operators[i].operatorId)
  }

  /** `isConsistentProjection`. */
  predicate ConsistentProjection(p: Preview) {
    && |Keys(p.breakdown, RowId)| == |p.breakdown|
    && GramsSum(p.breakdown, PayableKg).Some? && Grams(p.summary.payableKg) == GramsSum(p.breakdown, PayableKg)
    && GramsSum(p.unresolved, NetKg).Some? && Grams(p.summary.unresolvedKg) == GramsSum(p.unresolved, NetKg)
    && p.summary.payableAmountKopecks == Total(p.breakdown, Amount)
    && p.summary.unresolvedFactCount == |p.unresolved|
    && p.summary.machineShiftCount == |Keys(p.breakdown, ShiftKey)|
    && match p.status
       case Partial => p.unresolved != []
       case Complete => p.unresolved == [] && p.breakdown != []
       case Empty => p.breakdown == [] && p.unresolved == []
  }

  predicate OperatorConsistent(o: Operator, p: Preview) {
    var rows := Of(p.breakdown, OwnerOfRow, o.operatorId);
    && GramsSum(rows, PayableKg).Some? && Grams(o.payableKg) == GramsSum(rows, PayableKg)
    && o.amountKopecks == Total(rows, Amount)
    && o.machineShiftCount == |Keys(rows, ShiftKey)|
    && o.unresolvedFactCount == |Of(p.unresolved, OwnerOfFact, o.operatorId)|
  }

  /** `operatorSummariesAreConsistent`. */
  predicate OperatorsConsistent(p: Preview) {
    && Distinct(Ids(p.operators))
    && (forall i | 0 <= i < |p.breakdown| :: p.breakdown[i].operatorId in Ids(p.operators))
    && (forall i | 0 <= i < |p.unresolved| && OwnerOfFact(p.unresolved[i]).Some? ::
          OwnerOfFact(p.unresolved[i]).value in Ids(p.operators))
    && (forall i | 0 <= i < |p.operators| :: OperatorConsistent(p.operators[i], p))
  }

  /** The numeric conditions under which `parseDirectorPayrollPreview` returns. */
  predicate Accepted(p: Preview) {
    && Distinct(p.appliedTariffOrderIds)
    && (forall i | 0 <= i < |p.operators| :: IsOperator(p.operators[i]))
    && (forall i | 0 <= i < |p.breakdown| ::
          IsRow(p.breakdown[i]) && p.breakdown[i].tariffOrderId in p.appliedTariffOrderIds)
    && (forall i | 0 <= i < |p.unresolved| :: HasNullableAttribution(p.unresolved[i]) && IsUnresolved(p.unresolved[i]))
    && IsSummary(p.summary) && p.summary.operatorCount == |p.operators|
    && ConsistentProjection(p) && OperatorsConsistent(p)
  }

  const SAMPLE_ROW := Row(Ascii("r"), Ascii("t"), Ascii("o"), Ascii("n"), Ascii("s"), Ascii("p"), 2.0, 1.0, 450, 450)

  const SAMPLE := Preview(
    Complete, [Ascii("t")], Summary(450, 1.0, 1, 1, 0.0, 0, 0.0, 0),
    [Operator(Ascii("o"), Ascii("n"), 1.0, 450, 1, 0)], [SAMPLE_ROW], [])

  /** A preview of one kilogram at 450 kopecks is accepted. */
  lemma SampleAccepted()
    ensures Accepted(SAMPLE)
  {
    hide IsRow, IsOperator, ConsistentProjection, OperatorsConsistent, Grams;
    SampleParts();
    SampleSums();
    assert SAMPLE.breakdown[0] == SAMPLE_ROW;
  }

  lemma SampleParts()
    ensures IsRow(SAMPLE_ROW) && IsOperator(SAMPLE.operators[0]) && Grams(1.0) == Some(1000) && Grams(0.0) == Some(0)
  {
    NotBlank(Ascii("o"));
    NotBlank(Ascii("n"));
    GramsIff(1.0, 1000);
    GramsIff(2.0, 2000);
    GramsIff(0.0, 0);
    hide Trim, Grams;
  }

  lemma GramsSumOne(row: Row)
    ensures GramsSum([row], PayableKg) == Grams(row.payableKg)
  {
    var rows := [row];
    assert GramsSum(rows[..0], PayableKg) == Some(0);
  }

  lemma SampleSums()
    ensures ConsistentProjection(SAMPLE) && OperatorsConsistent(SAMPLE)
  {
    SampleParts();
    hide Grams, Trim, ShiftKey;
    var rows := [SAMPLE_ROW];
    assert rows[..0] == [] && rows == SAMPLE.breakdown;
    assert Of(rows, OwnerOfRow, Ascii("o")) == rows;
    GramsSumOne(SAMPLE_ROW);
    assert Total(rows, Amount) == 450 && GramsSum(rows, PayableKg) == Some(1000);
    assert Keys(rows, ShiftKey) == {ShiftKey(SAMPLE_ROW)} && Keys(rows, RowId) == {SAMPLE_ROW.id};
    assert Ids(SAMPLE.operators) == [Ascii("o")];
  }

  // Conservation

  function RowGrams(r: Row): int { if Grams(r.payableKg).Some? then Grams(r.payableKg).value else 0 }
  function OperatorAmount(o: Operator): int { o.amountKopecks }
  function OperatorGrams(o: Operator): int { if Grams(o.payableKg).Some? then Grams(o.payableKg).value else 0 }
  function OperatorFacts(o: Operator): int { o.unresolvedFactCount }
  function OperatorShifts(o: Operator): int { o.machineShiftCount }

  lemma {:induction false} GramsSumIsTotal(rows: seq<Row>)
    requires GramsSum(rows, PayableKg).Some?
    ensures GramsSum(rows, PayableKg) == Some(Total(rows, RowGrams))
  {
    if rows != [] {
      GramsSumIsTotal(rows[..|rows| - 1]);
    }
  }

  lemma {:induction false} OnesCount(facts: seq<Unresolved>)
    ensures Total(facts, One) == |facts|
  {
    if facts != [] {
      OnesCount(facts[..|facts| - 1]);
    }
  }

  /** Adding up a figure of the operators that equals their group's total adds up the groups. */
  lemma {:induction false} OperatorsAddUp<T>(operators: seq<Operator>, figure: Operator -> int, rows: seq<T>,
                                             owner: T -> Option<Text>, weight: T -> int)
    requires forall i | 0 <= i < |operators| ::
             figure(operators[i]) == Total(Of(rows, owner, operators[i].operatorId), weight)
    ensures Total(operators, figure) == Groups(Ids(operators), rows, owner, weight)
  {
    if operators != [] {
      var init := operators[..|operators| - 1];
      OperatorsAddUp(init, figure, rows, owner, weight);
      assert Ids(operators)[..|operators| - 1] == Ids(init);
    }
  }

  lemma {:induction false} ShiftsAddUp(operators: seq<Operator>, rows: seq<Row>)
    requires forall i | 0 <= i < |operators| ::
               operators[i].machineShiftCount == |Keys(Of(rows, OwnerOfRow, operators[i].operatorId), ShiftKey)|
    ensures Total(operators, OperatorShifts) == KeyCounts(Ids(operators), rows, OwnerOfRow, ShiftKey)
  {
    if operators != [] {
      var init := operators[..|operators| - 1];
      ShiftsAddUp(init, rows);
      assert Ids(operators)[..|operators| - 1] == Ids(init);
    }
  }

  /** Kopecks: the operators are paid exactly the total that is to be paid. */
  lemma AmountsAddUp(p: Preview)
    requires Accepted(p)
    ensures Total(p.operators, OperatorAmount) == p.summary.payableAmountKopecks
  {
    hide IsOperator, IsRow, IsUnresolved, IsSummary;
    OperatorsAddUp(p.operators, OperatorAmount, p.breakdown, OwnerOfRow, Amount);
    GroupsAddUp(Ids(p.operators), p.breakdown, OwnerOfRow, Amount);
    AllOwned(p.breakdown, OwnerOfRow);
  }

  /** Grams: the operators' masses add up to the summary's mass. */
  lemma GramsAddUp(p: Preview)
    requires Accepted(p)
    ensures Grams(p.summary.payableKg) == Some(Total(p.operators, OperatorGrams))
  {
    hide IsOperator, IsRow, IsUnresolved, IsSummary, Grams;
    GramsSumIsTotal(p.breakdown);
    forall i | 0 <= i < |p.operators|
      ensures OperatorGrams(p.operators[i]) == Total(Of(p.breakdown, OwnerOfRow, p.operators[i].operatorId), RowGrams)
    {
      assert OperatorConsistent(p.operators[i], p);
      GramsSumIsTotal(Of(p.breakdown, OwnerOfRow, p.operators[i].operatorId));
    }
    OperatorsAddUp(p.operators, OperatorGrams, p.breakdown, OwnerOfRow, RowGrams);
    GroupsAddUp(Ids(p.operators), p.breakdown, OwnerOfRow, RowGrams);
    AllOwned(p.breakdown, OwnerOfRow);
  }

  /** Unresolved facts: the operators' counts add up to the facts that name an operator, and fall
      short of the summary's count by exactly the facts that name none. */
  lemma FactsAddUp(p: Preview)
    requires Accepted(p)
    ensures Total(p.operators, OperatorFacts) == |Owned(p.unresolved, OwnerOfFact)|
    ensures Total(p.operators, OperatorFacts) <= p.summary.unresolvedFactCount
    ensures Total(p.operators, OperatorFacts) == p.summary.unresolvedFactCount <==>
            forall i | 0 <= i < |p.unresolved| :: p.unresolved[i].operatorId.Some? && p.unresolved[i].operatorName.Some?
  {
    AttributedFacts(p);
    FactCount(p);
    hide Accepted;
    OwnedCount(p.unresolved);
  }

  /** The unresolved mass of the summary is the grams of the facts, added up. */
  lemma UnresolvedAddUp(p: Preview)
    requires Accepted(p)
    ensures Grams(p.summary.unresolvedKg) == Some(Total(p.unresolved, FactGrams))
  {
    hide IsOperator, IsRow, IsSummary, OperatorsConsistent, HasNullableAttribution, Grams;
    FactSumIsTotal(p.unresolved);
  }

  lemma FactCount(p: Preview)
    requires Accepted(p)
    ensures p.summary.unresolvedFactCount == |p.unresolved|
  {
    hide IsOperator, IsRow, IsUnresolved, IsSummary, OperatorsConsistent, HasNullableAttribution;
  }

  lemma AttributedFacts(p: Preview)
    requires Accepted(p)
    ensures Total(p.operators, OperatorFacts) == |Owned(p.unresolved, OwnerOfFact)|
  {
    hide IsOperator, IsRow, IsUnresolved, IsSummary, Grams, ConsistentProjection, HasNullableAttribution;
    forall i | 0 <= i < |p.operators|
      ensures OperatorFacts(p.operators[i]) == Total(Of(p.unresolved, OwnerOfFact, p.operators[i].operatorId), One)
    {
      assert OperatorConsistent(p.operators[i], p);
      OnesCount(Of(p.unresolved, OwnerOfFact, p.operators[i].operatorId));
    }
    OperatorsAddUp(p.operators, OperatorFacts, p.unresolved, OwnerOfFact, One);
    GroupsAddUp(Ids(p.operators), p.unresolved, OwnerOfFact, One);
    OnesCount(Owned(p.unresolved, OwnerOfFact));
  }

  lemma {:induction false} OwnedCount(facts: seq<Unresolved>)
    ensures |Owned(facts, OwnerOfFact)| <= |facts|
    ensures |Owned(facts, OwnerOfFact)| == |facts| <==> forall i | 0 <= i < |facts| :: OwnerOfFact(facts[i]).Some?
  {
    if facts != [] {
      OwnedCount(facts[..|facts| - 1]);
      assert facts == facts[..|facts| - 1] + [facts[|facts| - 1]];
    }
  }

  /** Machine shifts: the operators' counts add up to at least the summary's, and to exactly it
      when no machine shift is worked by two operators. */
  lemma MachineShiftsCovered(p: Preview)
    requires Accepted(p)
    ensures p.summary.machineShiftCount <= Total(p.operators, OperatorShifts)
    ensures p.summary.machineShiftCount == Total(p.operators, OperatorShifts) <==>
            forall a, b | a in p.breakdown && b in p.breakdown && ShiftKey(a) == ShiftKey(b) ::
                a.operatorId == b.operatorId
  {
    hide IsOperator, IsRow, IsUnresolved, IsSummary, Grams, ShiftKey, Shared;
    forall i | 0 <= i < |p.operators| ensures OperatorConsistent(p.operators[i], p) {
    }
    ShiftsAddUp(p.operators, p.breakdown);
    KeyCountsCover(Ids(p.operators), p.breakdown, OwnerOfRow, ShiftKey);
    assert forall r | r in p.breakdown :: r.operatorId in Ids(p.operators);
    EveryRowKnown(Ids(p.operators), p.breakdown);
  }

  lemma EveryRowKnown(ids: seq<Text>, rows: seq<Row>)
    requires forall r | r in rows :: r.operatorId in ids
    ensures KeysUnder(ids, rows, OwnerOfRow, ShiftKey) == Keys(rows, ShiftKey)
    ensures Shared(ids, rows, OwnerOfRow, ShiftKey) <==>
            !forall a, b | a in rows && b in rows && ShiftKey(a) == ShiftKey(b) :: a.operatorId == b.operatorId
  {
    hide ShiftKey;
    assert forall r | r in rows :: OwnerOfRow(r).value in ids;
  }

  // Completeness

  function Kg(grams: int): real { grams as real / 1000.0 }

  function FactGrams(u: Unresolved): int { if Grams(u.netKg).Some? then Grams(u.netKg).value else 0 }

  /** The summary of one operator: its rows added up in grams and kopecks, its machine shifts and its
      attributed facts counted. */
  function OperatorOf(id: Text, name: Text, rows: seq<Row>, facts: seq<Unresolved>): Operator {
    var own := Of(rows, OwnerOfRow, id);
    Operator(id, name, Kg(Total(own, RowGrams)), Total(own, Amount), |Keys(own, ShiftKey)|,
             |Of(facts, OwnerOfFact, id)|)
  }

  /** The preview that groups and sums these rows and facts. */
  function Built(orders: seq<Text>, named: seq<(Text, Text)>, rows: seq<Row>, facts: seq<Unresolved>,
      defectKg: real, defectRolls: int): Preview {
    Preview(
      if facts != [] then Partial else if rows != [] then Complete else Empty,
      orders,
      Summary(Total(rows, Amount), Kg(Total(rows, RowGrams)), |Keys(rows, ShiftKey)|, |named|,
              Kg(Total(facts, FactGrams)), |facts|, defectKg, defectRolls),
      seq(|named|, i requires 0 <= i < |named| => OperatorOf(named[i].0, named[i].1, rows, facts)),
      rows, facts)
  }

  /** Operators listed once, with a name, and all those that rows and facts name. */
  ghost predicate Names(named: seq<(Text, Text)>, rows: seq<Row>, facts: seq<Unresolved>) {
    && (forall i, j | 0 <= i < j < |named| :: named[i].0 != named[j].0)
    && (forall i | 0 <= i < |named| :: NonEmpty(named[i].0) && NonEmpty(named[i].1))
    && (forall r | r in rows :: exists i | 0 <= i < |named| :: named[i].0 == r.operatorId)
    && (forall u | u in facts && u.operatorId.Some? && u.operatorName.Some? ::
          exists i | 0 <= i < |named| :: named[i].0 == u.operatorId.value)
  }

  /** Nothing that is right is refused: rows and facts that pass their own checks, with distinct ids, known
      tariff orders, operators listed once and totals in the safe range, make an accepted preview, whichever
      of the two lists is empty. */
  lemma BuiltIsAccepted(orders: seq<Text>, named: seq<(Text, Text)>, rows: seq<Row>, facts: seq<Unresolved>,
      defectKg: real, defectRolls: int)
    requires Distinct(orders) && Names(named, rows, facts)
    requires forall i | 0 <= i < |rows| :: IsRow(rows[i]) && rows[i].tariffOrderId in orders
    requires forall i, j | 0 <= i < j < |rows| :: rows[i].id != rows[j].id
    requires forall i | 0 <= i < |facts| :: HasNullableAttribution(facts[i]) && IsUnresolved(facts[i])
    requires Total(rows, Amount) <= MAX_SAFE_INTEGER && Total(rows, RowGrams) <= MAX_SAFE_INTEGER
    requires Total(facts, FactGrams) <= MAX_SAFE_INTEGER
    requires |rows| <= MAX_SAFE_INTEGER && |facts| <= MAX_SAFE_INTEGER
    requires defectKg >= 0.0 && 0 <= defectRolls <= MAX_SAFE_INTEGER
    ensures Accepted(Built(orders, named, rows, facts, defectKg, defectRolls))
    ensures Built(orders, named, rows, facts, defectKg, defectRolls).status
         == if facts != [] then Partial else if rows != [] then Complete else Empty
  {
    hide IsOperator, IsRow, IsUnresolved, HasNullableAttribution, ConsistentProjection, OperatorsConsistent, IsSummary;
    hide Total, Keys, Of, Names, Kg, OperatorOf, Distinct;
    var p := Built(orders, named, rows, facts, defectKg, defectRolls);
    BuiltProjection(p, rows, facts);
    BuiltOperators(p, named, rows, facts);
  }

  lemma BuiltOperators(p: Preview, named: seq<(Text, Text)>, rows: seq<Row>, facts: seq<Unresolved>)
    requires Names(named, rows, facts) && |p.operators| == |named| && p.breakdown == rows && p.unresolved == facts
    requires forall i | 0 <= i < |named| :: p.operators[i] == OperatorOf(named[i].0, named[i].1, rows, facts)
    requires forall i | 0 <= i < |rows| :: IsRow(rows[i])
    requires Total(rows, Amount) <= MAX_SAFE_INTEGER && Total(rows, RowGrams) <= MAX_SAFE_INTEGER
    requires |rows| <= MAX_SAFE_INTEGER && |facts| <= MAX_SAFE_INTEGER
    ensures OperatorsConsistent(p) && forall i | 0 <= i < |p.operators| :: IsOperator(p.operators[i])
  {
    hide IsRow, IsOperator, OperatorConsistent, Total, Keys, Of, Kg, NonEmpty;
    forall i | 0 <= i < |named| ensures IsOperator(p.operators[i]) && OperatorConsistent(p.operators[i], p) {
      BuiltOperator(p, named[i].0, named[i].1, rows, facts);
    }
    BuiltNames(p, named, rows, facts);
    hide Names, Ids, OwnerOfFact, OperatorOf;
  }

  lemma BuiltNames(p: Preview, named: seq<(Text, Text)>, rows: seq<Row>, facts: seq<Unresolved>)
    requires Names(named, rows, facts) && |p.operators| == |named| && p.breakdown == rows && p.unresolved == facts
    requires forall i | 0 <= i < |named| :: p.operators[i].operatorId == named[i].0
    ensures Distinct(Ids(p.operators))
    ensures forall i | 0 <= i < |rows| :: rows[i].operatorId in Ids(p.operators)
    ensures forall i | 0 <= i < |facts| && OwnerOfFact(facts[i]).Some? ::
              OwnerOfFact(facts[i]).value in Ids(p.operators)
  {
    hide NonEmpty;
    var ids := Ids(p.operators);
    forall i | 0 <= i < |rows| ensures rows[i].operatorId in ids {
      assert rows[i] in rows;
      var k :| 0 <= k < |named| && named[k].0 == rows[i].operatorId;
      assert ids[k] == rows[i].operatorId;
    }
    forall i | 0 <= i < |facts| && OwnerOfFact(facts[i]).Some? ensures OwnerOfFact(facts[i]).value in ids {
      assert facts[i] in facts;
      var k :| 0 <= k < |named| && named[k].0 == facts[i].operatorId.value;
      assert ids[k] == facts[i].operatorId.value;
    }
  }

  lemma GramsOfKg(g: int)
    requires IsSafe(g)
    ensures Grams(Kg(g)) == Some(g) && (g >= 0 ==> Kg(g) >= 0.0)
  {
    GramsIff(Kg(g), g);
  }

  lemma {:induction false} FactSumIsTotal(facts: seq<Unresolved>)
    requires forall i | 0 <= i < |facts| :: IsUnresolved(facts[i])
    ensures GramsSum(facts, NetKg) == Some(Total(facts, FactGrams)) && Total(facts, FactGrams) >= 0
  {
    if facts != [] {
      FactSumIsTotal(facts[..|facts| - 1]);
      NetGramsPositive(facts[|facts| - 1]);
    }
  }

  lemma NetGramsPositive(u: Unresolved)
    requires IsUnresolved(u)
    ensures FactGrams(u) >= 0
  {
  }

  lemma {:induction false} RowSums(rows: seq<Row>)
    requires forall i | 0 <= i < |rows| :: IsRow(rows[i])
    ensures GramsSum(rows, PayableKg) == Some(Total(rows, RowGrams))
    ensures Total(rows, RowGrams) >= 0 && Total(rows, Amount) >= 0
  {
    hide IsRow;
    if rows != [] {
      RowSums(rows[..|rows| - 1]);
      RowFigures(rows[|rows| - 1]);
    }
  }

  lemma {:induction false} KeysAtMost(rows: seq<Row>)
    ensures |Keys(rows, ShiftKey)| <= |rows|
  {
    hide ShiftKey;
    if rows != [] {
      var n := |rows| - 1;
      KeysAtMost(rows[..n]);
      assert rows == rows[..n] + [rows[n]];
      assert Keys(rows, ShiftKey) == Keys(rows[..n], ShiftKey) + {ShiftKey(rows[n])};
    }
  }

  lemma RowFigures(r: Row)
    requires IsRow(r)
    ensures Grams(r.payableKg).Some? && RowGrams(r) >= 0 && Amount(r) >= 0
  {
  }

  /** One owner's rows are rows, and their totals stay within those of all rows. */
  lemma {:induction false} OwnSums(rows: seq<Row>, id: Text)
    requires forall i | 0 <= i < |rows| :: IsRow(rows[i])
    ensures var own := Of(rows, OwnerOfRow, id);
            (forall i | 0 <= i < |own| :: IsRow(own[i])) && |own| <= |rows|
            && Total(own, Amount) <= Total(rows, Amount) && Total(own, RowGrams) <= Total(rows, RowGrams)
  {
    hide IsRow, RowGrams, Amount;
    if rows != [] {
      var init, row := rows[..|rows| - 1], rows[|rows| - 1];
      OwnSums(init, id);
      RowFigures(row);
      assert rows == init + [row];
      OfSnoc(init, row, OwnerOfRow, id);
      TotalSnoc(init, row, Amount);
      TotalSnoc(init, row, RowGrams);
      TotalSnoc(Of(init, OwnerOfRow, id), row, Amount);
      TotalSnoc(Of(init, OwnerOfRow, id), row, RowGrams);
      hide Of, Total;
    }
  }

  lemma {:induction false} OwnFacts(facts: seq<Unresolved>, id: Text)
    ensures |Of(facts, OwnerOfFact, id)| <= |facts|
  {
    if facts != [] {
      OwnFacts(facts[..|facts| - 1], id);
    }
  }

  lemma BuiltOperator(p: Preview, id: Text, name: Text, rows: seq<Row>, facts: seq<Unresolved>)
    requires p.breakdown == rows && p.unresolved == facts && NonEmpty(id) && NonEmpty(name)
    requires forall i | 0 <= i < |rows| :: IsRow(rows[i])
    requires Total(rows, Amount) <= MAX_SAFE_INTEGER && Total(rows, RowGrams) <= MAX_SAFE_INTEGER
    requires |rows| <= MAX_SAFE_INTEGER && |facts| <= MAX_SAFE_INTEGER
    ensures var o := OperatorOf(id, name, rows, facts); IsOperator(o) && OperatorConsistent(o, p)
  {
    hide IsRow, Grams, Total, Of, Keys, GramsSum, ShiftKey, NonEmpty, Kg, OwnerOfRow, OwnerOfFact, PayableKg, RowGrams;
    var own := Of(rows, OwnerOfRow, id);
    OwnSums(rows, id);
    OwnFacts(facts, id);
    RowSums(own);
    KeysAtMost(own);
    GramsOfKg(Total(own, RowGrams));
  }

  lemma {:induction false} DistinctRowIds(rows: seq<Row>)
    requires forall i, j | 0 <= i < j < |rows| :: rows[i].id != rows[j].id
    ensures |Keys(rows, RowId)| == |rows|
  {
    if rows != [] {
      var n := |rows| - 1;
      DistinctRowIds(rows[..n]);
      assert rows == rows[..n] + [rows[n]];
      assert Keys(rows, RowId) == Keys(rows[..n], RowId) + {RowId(rows[n])};
      forall r | r in rows[..n] ensures r.id != rows[n].id {
      }
    }
  }

  lemma BuiltProjection(p: Preview, rows: seq<Row>, facts: seq<Unresolved>)
    requires p.breakdown == rows && p.unresolved == facts
    requires forall i | 0 <= i < |rows| :: IsRow(rows[i])
    requires forall i, j | 0 <= i < j < |rows| :: rows[i].id != rows[j].id
    requires forall i | 0 <= i < |facts| :: IsUnresolved(facts[i])
    requires Total(rows, Amount) <= MAX_SAFE_INTEGER && Total(rows, RowGrams) <= MAX_SAFE_INTEGER
    requires Total(facts, FactGrams) <= MAX_SAFE_INTEGER
    requires |rows| <= MAX_SAFE_INTEGER && |facts| <= MAX_SAFE_INTEGER
    requires p.summary.payableKg == Kg(Total(rows, RowGrams)) && p.summary.unresolvedKg == Kg(Total(facts, FactGrams))
    requires p.summary.payableAmountKopecks == Total(rows, Amount) && p.summary.unresolvedFactCount == |facts|
    requires p.summary.machineShiftCount == |Keys(rows, ShiftKey)|
    requires p.status == if facts != [] then Partial else if rows != [] then Complete else Empty
    requires p.summary.excludedDefectKg >= 0.0 && 0 <= p.summary.excludedDefectRollCount <= MAX_SAFE_INTEGER
    ensures ConsistentProjection(p) && IsSummary(p.summary)
  {
    RowSums(rows);
    KeysAtMost(rows);
    FactSumIsTotal(facts);
    DistinctRowIds(rows);
    GramsOfKg(Total(rows, RowGrams));
    GramsOfKg(Total(facts, FactGrams));
    hide IsRow, IsUnresolved, Grams, Total, GramsSum, ShiftKey;
  }

  /** A row passes its own checks when its masses are whole grams and its amount is their price rounded half
      up. */
  lemma PricedRowIsRow(r: Row, grams: nat, output: nat)
    requires NonEmpty(r.operatorId) && NonEmpty(r.operatorName)
    requires grams <= MAX_SAFE_INTEGER && output <= MAX_SAFE_INTEGER && 0 <= r.rateKopecksPerKg <= MAX_SAFE_INTEGER
    requires r.payableKg == Kg(grams) && r.shiftOutputKg == Kg(output)
    requires r.amountKopecks == (grams * r.rateKopecksPerKg + 500) / 1000 <= MAX_SAFE_INTEGER
    ensures IsRow(r)
  {
    GramsOfKg(grams);
    GramsOfKg(output);
    HalfUp(grams * r.rateKopecksPerKg);
    hide Grams, NonEmpty, Round;
  }

  lemma HalfUp(n: nat)
    ensures Round(n as real / 1000.0) == (n + 500) / 1000
  {
    var q, r := (n + 500) / 1000, (n + 500) % 1000;
    assert n + 500 == 1000 * q + r;
    assert n as real / 1000.0 + 0.5 == q as real + r as real / 1000.0;
  }

  /** What acceptance guarantees of every single figure and name: whole numbers a double holds exactly, masses
      that are whole grams, positive facts, operators with a name. */
  lemma AcceptedFigures(p: Preview)
    requires Accepted(p)
    ensures forall o | o in p.operators ::
              NonEmpty(o.operatorId) && NonEmpty(o.operatorName) && o.payableKg >= 0.0 && Grams(o.payableKg).Some?
              && 0 <= o.amountKopecks <= 9007199254740991 && 0 <= o.machineShiftCount <= 9007199254740991
              && 0 <= o.unresolvedFactCount <= 9007199254740991
    ensures forall r | r in p.breakdown ::
              NonEmpty(r.operatorId) && NonEmpty(r.operatorName) && r.tariffOrderId in p.appliedTariffOrderIds
              && r.shiftOutputKg >= 0.0 && r.payableKg >= 0.0 && Grams(r.shiftOutputKg).Some?
              && 0 <= r.rateKopecksPerKg <= 9007199254740991 && 0 <= r.amountKopecks <= 9007199254740991
    ensures forall u | u in p.unresolved ::
              u.netKg > 0.0 && Grams(u.netKg).Some? && (u.operatorId.Some? ==> NonEmpty(u.operatorId.value))
              && (u.operatorName.Some? ==> NonEmpty(u.operatorName.value))
    ensures var s := p.summary;
            s.operatorCount == |p.operators| && 0 <= s.payableAmountKopecks <= 9007199254740991 && s.payableKg >= 0.0
            && 0 <= s.machineShiftCount <= 9007199254740991 && s.unresolvedKg >= 0.0
            && 0 <= s.unresolvedFactCount <= 9007199254740991 && s.excludedDefectKg >= 0.0
            && 0 <= s.excludedDefectRollCount <= 9007199254740991
    ensures forall a, b | 0 <= a < b < |p.breakdown| :: p.breakdown[a].id != p.breakdown[b].id
  {
    hide NonEmpty, Grams, OperatorsConsistent;
    DistinctKeysDistinctRows(p.breakdown);
  }

  lemma {:induction false} DistinctKeysDistinctRows(rows: seq<Row>)
    ensures |Keys(rows, RowId)| <= |rows|
    ensures |Keys(rows, RowId)| == |rows| ==> forall a, b | 0 <= a < b < |rows| :: rows[a].id != rows[b].id
  {
    if rows != [] {
      var n := |rows| - 1;
      DistinctKeysDistinctRows(rows[..n]);
      assert rows == rows[..n] + [rows[n]];
      KeysSnoc(rows[..n], rows[n]);
      hide Keys;
    }
  }

  lemma KeysSnoc(rows: seq<Row>, row: Row)
    ensures Keys(rows + [row], RowId) == Keys(rows, RowId) + {row.id}
    ensures forall i | 0 <= i < |rows| :: rows[i].id in Keys(rows, RowId)
  {
    assert forall r | r in rows + [row] :: r in rows || r == row;
    assert row in rows + [row] && forall r | r in rows :: r in rows + [row];
    forall i | 0 <= i < |rows| ensures rows[i].id in Keys(rows, RowId) {
      assert rows[i] in rows && RowId(rows[i]) == rows[i].id;
    }
  }

  /** The status says which of the two lists is empty. */
  lemma StatusIs(p: Preview)
    requires Accepted(p)
    ensures p.status == if p.unresolved != [] then Partial else if p.breakdown != [] then Complete else Empty
  {
    hide IsOperator, IsRow, IsUnresolved, IsSummary, OperatorsConsistent, HasNullableAttribution, Grams;
  }

  // The joined key

  /** The first row's shift is the second's, a NUL and more text, which opens the second row's post
      before a NUL and the first row's post. */
  predicate Overlaps(a: Row, b: Row) {
    |b.shiftId| < |a.shiftId| && b.shiftId <= a.shiftId && a.shiftId[|b.shiftId|] == 0
    && b.postId == a.shiftId[|b.shiftId| + 1..] + [0] + a.postId
  }

  predicate SameShift(a: Row, b: Row) { a.shiftId == b.shiftId && a.postId == b.postId }

  /** Two rows have one joined key exactly when they are of one machine shift, or overlap. */
  lemma ShiftKeysEqualIff(a: Row, b: Row)
    ensures ShiftKey(a) == ShiftKey(b) <==> SameShift(a, b) || Overlaps(a, b) || Overlaps(b, a)
  {
    var x, y := |a.shiftId|, |b.shiftId|;
    KeyParts(a);
    KeyParts(b);
    hide ShiftKey;
    if Overlaps(a, b) {
      OverlapCollides(a, b);
    } else if Overlaps(b, a) {
      OverlapCollides(b, a);
    } else if ShiftKey(a) == ShiftKey(b) {
      if x < y {
        CollisionOverlaps(b, a);
      } else if y < x {
        CollisionOverlaps(a, b);
      }
    } else if SameShift(a, b) {
      OneKey(a, b);
    }
  }

  lemma KeyParts(a: Row)
    ensures var x := |a.shiftId|;
            |ShiftKey(a)| > x && ShiftKey(a)[..x] == a.shiftId && ShiftKey(a)[x] == 0
                && ShiftKey(a)[x + 1..] == a.postId
  {
  }

  lemma OneKey(a: Row, b: Row)
    requires SameShift(a, b)
    ensures ShiftKey(a) == ShiftKey(b)
  {
  }

  lemma OverlapCollides(a: Row, b: Row)
    requires Overlaps(a, b)
    ensures ShiftKey(a) == ShiftKey(b)
  {
    var y := |b.shiftId|;
    assert a.shiftId == b.shiftId + [0] + a.shiftId[y + 1..];
  }

  lemma CollisionOverlaps(a: Row, b: Row)
    requires ShiftKey(a) == ShiftKey(b) && |b.shiftId| < |a.shiftId|
    ensures Overlaps(a, b)
  {
    var k, x, y := ShiftKey(a), |a.shiftId|, |b.shiftId|;
    KeyParts(a);
    KeyParts(b);
    hide ShiftKey;
    assert a.shiftId[..y] == k[..y] && a.shiftId[y] == k[y];
    assert k[y + 1..] == k[y + 1..x] + [k[x]] + k[x + 1..];
    assert k[y + 1..x] == a.shiftId[y + 1..];
  }

  /** So without NUL in the shift ids the joined key tells machine shifts apart. */
  lemma ShiftKeysTellApart(a: Row, b: Row)
    requires 0 !in a.shiftId && 0 !in b.shiftId
    ensures ShiftKey(a) == ShiftKey(b) <==> a.shiftId == b.shiftId && a.postId == b.postId
  {
    hide ShiftKey;
    ShiftKeysEqualIff(a, b);
  }

  function ShiftOf(r: Row): (Text, Text) { (r.shiftId, r.postId) }

  /** The machine shifts of the rows, told apart by both ids. */
  function MachineShifts(rows: seq<Row>): set<(Text, Text)> { set r | r in rows :: ShiftOf(r) }

  function JoinedKey(shift: (Text, Text)): Text { shift.0 + [0] + shift.1 }

  /** An accepted summary counts at most the machine shifts there are, and exactly these when no two
      rows overlap; otherwise different machine shifts are counted as one. */
  lemma CountedShiftsIff(p: Preview)
    requires Accepted(p)
    ensures p.summary.machineShiftCount <= |MachineShifts(p.breakdown)|
    ensures p.summary.machineShiftCount == |MachineShifts(p.breakdown)| <==>
            forall a, b | a in p.breakdown && b in p.breakdown :: !Overlaps(a, b)
  {
    hide IsOperator, IsRow, IsUnresolved, IsSummary, Grams, OperatorsConsistent;
    KeysOfShifts(p.breakdown);
  }

  lemma KeysOfShifts(rows: seq<Row>)
    ensures |Keys(rows, ShiftKey)| <= |MachineShifts(rows)|
    ensures |Keys(rows, ShiftKey)| == |MachineShifts(rows)| <==> forall a, b | a in rows && b in rows :: !Overlaps(a, b)
  {
    hide Overlaps, ShiftKey, JoinedKey;
    ImageSize(MachineShifts(rows), JoinedKey);
    KeysAreImage(rows);
    CollisionsOverlap(rows);
  }

  lemma KeysAreImage(rows: seq<Row>)
    ensures Keys(rows, ShiftKey) == Image(MachineShifts(rows), JoinedKey)
  {
    forall r | r in rows ensures ShiftOf(r) in MachineShifts(rows) && JoinedKey(ShiftOf(r)) == ShiftKey(r) {
    }
    hide JoinedKey, ShiftKey;
  }

  lemma CollisionsOverlap(rows: seq<Row>)
    ensures var shifts := MachineShifts(rows);
            (forall x, y | x in shifts && y in shifts && JoinedKey(x) == JoinedKey(y) :: x == y)
            <==> forall a, b | a in rows && b in rows :: !Overlaps(a, b)
  {
    hide Overlaps, ShiftKey, JoinedKey;
    var shifts := MachineShifts(rows);
    forall a, b
      ensures ShiftOf(a) != ShiftOf(b) && JoinedKey(ShiftOf(a)) == JoinedKey(ShiftOf(b)) <==>
              Overlaps(a, b) || Overlaps(b, a)
    {
      JoinedOverlap(a, b);
    }
    if a, b :| a in rows && b in rows && Overlaps(a, b) {
      assert ShiftOf(a) in shifts && ShiftOf(b) in shifts;
    }
    forall x, y | x in shifts && y in shifts && x != y && JoinedKey(x) == JoinedKey(y)
      ensures exists a, b | a in rows && b in rows :: Overlaps(a, b)
    {
      var a :| a in rows && ShiftOf(a) == x;
      var b :| b in rows && ShiftOf(b) == y;
      assert Overlaps(a, b) || Overlaps(b, a);
    }
  }

  lemma JoinedOverlap(a: Row, b: Row)
    ensures ShiftOf(a) != ShiftOf(b) && JoinedKey(ShiftOf(a)) == JoinedKey(ShiftOf(b)) <==>
            Overlaps(a, b) || Overlaps(b, a)
  {
    assert JoinedKey(ShiftOf(a)) == ShiftKey(a) && JoinedKey(ShiftOf(b)) == ShiftKey(b);
    hide ShiftKey, JoinedKey;
    ShiftKeysEqualIff(a, b);
    OverlapsDiffer(a, b);
    OverlapsDiffer(b, a);
  }

  lemma OverlapsDiffer(a: Row, b: Row)
    ensures Overlaps(a, b) ==> ShiftOf(a) != ShiftOf(b)
  {
  }

  /** Two kilograms of one operator on two machine shifts whose ids hold a NUL. */
  const MERGED := Preview(
    Complete, [Ascii("t")], Summary(900, 2.0, 1, 1, 0.0, 0, 0.0, 0),
    [Operator(Ascii("o"), Ascii("n"), 2.0, 900, 1, 0)],
    [SAMPLE_ROW.(shiftId := [1], postId := [2, 0, 3]),
        SAMPLE_ROW.(id := Ascii("q"), shiftId := [1, 0, 2], postId := [3])], [])

  /** The overlap is reachable: an accepted preview counts these two different machine shifts as one. */
  lemma NulMakesShiftKeysCollide()
    ensures Accepted(MERGED) && |MachineShifts(MERGED.breakdown)| == 2 && MERGED.summary.machineShiftCount == 1
  {
    hide IsRow, IsOperator, ConsistentProjection, OperatorsConsistent, Grams, MachineShifts;
    MergedParts();
    MergedSums();
    MergedShifts();
    assert MERGED.breakdown[0].tariffOrderId == MERGED.breakdown[1].tariffOrderId == Ascii("t");
  }

  lemma MergedShifts()
    ensures |MachineShifts(MERGED.breakdown)| == 2
  {
    var rows := MERGED.breakdown;
    assert rows[0].shiftId != rows[1].shiftId;
    assert rows == [rows[0], rows[1]];
    assert MachineShifts(rows) == {ShiftOf(rows[0]), ShiftOf(rows[1])};
  }

  lemma MergedParts()
    ensures forall i | 0 <= i < 2 :: IsRow(MERGED.breakdown[i])
    ensures IsOperator(MERGED.operators[0]) && Grams(1.0) == Some(1000) && Grams(2.0) == Some(2000)
            && Grams(0.0) == Some(0)
  {
    SampleParts();
    GramsIff(2.0, 2000);
    NotBlank(Ascii("o"));
    NotBlank(Ascii("n"));
    hide Trim, Grams;
  }

  lemma MergedSums()
    ensures ConsistentProjection(MERGED) && OperatorsConsistent(MERGED)
  {
    MergedParts();
    MergedKeys();
    var rows := MERGED.breakdown;
    hide Grams, Trim, ShiftKey;
    TwoRows(rows, Ascii("o"));
    GramsSumTwo(rows);
    hide Of, Total, GramsSum, Keys;
    assert Ids(MERGED.operators) == [Ascii("o")];
  }

  lemma TwoRows(rows: seq<Row>, id: Text)
    requires |rows| == 2 && rows[0].operatorId == rows[1].operatorId == id
    ensures Of(rows, OwnerOfRow, id) == rows && Total(rows, Amount) == rows[0].amountKopecks + rows[1].amountKopecks
  {
    var one := [rows[0]];
    assert rows[..1] == one && one[..0] == [];
    assert Of(one, OwnerOfRow, id) == one && Total(one, Amount) == rows[0].amountKopecks;
  }

  lemma GramsSumTwo(rows: seq<Row>)
    requires |rows| == 2 && Grams(rows[0].payableKg).Some? && Grams(rows[1].payableKg).Some?
    ensures GramsSum(rows, PayableKg) == Some(Grams(rows[0].payableKg).value + Grams(rows[1].payableKg).value)
  {
    hide Grams;
    GramsSumOne(rows[0]);
    assert rows[..1] == [rows[0]];
  }

  lemma TwoRowIds(rows: seq<Row>)
    requires |rows| == 2 && rows[0].id != rows[1].id
    ensures |Keys(rows, RowId)| == 2
  {
    assert rows[0] in rows && rows[1] in rows;
    forall r | r in rows ensures r == rows[0] || r == rows[1] {
    }
    assert Keys(rows, RowId) == {RowId(rows[0]), RowId(rows[1])};
  }

  lemma MergedKeys()
    ensures |Keys(MERGED.breakdown, ShiftKey)| == 1 && |Keys(MERGED.breakdown, RowId)| == 2
  {
    var rows := MERGED.breakdown;
    assert rows == [rows[0], rows[1]];
    assert Ascii("r")[0] != Ascii("q")[0];
    assert Overlaps(rows[1], rows[0]);
    OverlapCollides(rows[1], rows[0]);
    hide ShiftKey;
    assert Keys(rows, ShiftKey) == {ShiftKey(rows[0])};
    TwoRowIds(rows);
  }

  // Rounding

  /** Grams times rate: a thousand times the exact pay of a row. */
  function Exact(r: Row): int { RowGrams(r) * r.rateKopecksPerKg }

  lemma RowRounding(r: Row)
    requires IsRow(r)
    ensures -500 < 1000 * r.amountKopecks - Exact(r) <= 500
  {
    var x := Exact(r) as real / 1000.0;
    assert x * 1000.0 == Exact(r) as real;
    assert (x + 0.5).Floor == r.amountKopecks;
    assert 1000.0 * r.amountKopecks as real <= Exact(r) as real + 500.0 < 1000.0 * r.amountKopecks as real + 1000.0;
  }

  lemma {:induction false} RowsRounding(rows: seq<Row>)
    requires forall i | 0 <= i < |rows| :: IsRow(rows[i])
    ensures -500 * |rows| <= 1000 * Total(rows, Amount) - Total(rows, Exact) <= 500 * |rows|
  {
    hide IsRow;
    if rows != [] {
      RowsRounding(rows[..|rows| - 1]);
      RowRounding(rows[|rows| - 1]);
    }
  }

  /** Rounding each row moves the accepted total by at most half a kopeck a row. */
  lemma SummaryRounding(p: Preview)
    requires Accepted(p)
    ensures -500 * |p.breakdown| <= 1000 * p.summary.payableAmountKopecks - Total(p.breakdown, Exact)
            <= 500 * |p.breakdown|
  {
    hide IsRow, IsOperator, IsUnresolved, IsSummary, OperatorsConsistent;
    RowsRounding(p.breakdown);
  }
}
