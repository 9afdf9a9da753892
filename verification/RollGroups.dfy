/** An operator order's rolls grouped by position, and its progress figures. */
module RollGroups {
  import opened Common
  import opened GroupedSum
  import opened JsonString
  import opened JsTrim

  // Numbers as a legacy server sends them

  datatype Number = Finite(value: real) | NotFinite

  /** Toward zero. */
  function Truncate(x: real): int { if x < 0.0 then -((-x).Floor) else x.Floor }

  /** `normalizedLegacyInteger`. */
  function LegacyInteger(x: Number): nat {
    if x.NotFinite? || Truncate(x.value) < 0 then 0 else Truncate(x.value)
  }

  /** A figure that is no number, or is below one, counts as none; any other loses its fraction. */
  lemma LegacyIntegerIs(x: Number)
    ensures x.NotFinite? || x.value < 1.0 ==> LegacyInteger(x) == 0
    ensures x.Finite? && x.value >= 1.0 ==>
              LegacyInteger(x) as real <= x.value < LegacyInteger(x) as real + 1.0
  {
  }

  datatype Progress = Progress(current: Number, completed: Number, total: Number)

  predicate IsInteger(x: Number) { x.Finite? && x.value == x.value.Floor as real }

  predicate IsBounded(p: Progress) {
    IsInteger(p.current) && IsInteger(p.completed) && IsInteger(p.total)
    && 0.0 <= p.current.value <= p.total.value && 0.0 <= p.completed.value <= p.total.value
  }

  /** The figure itself, or the total when that is less. */
  predicate Capped(shown: Number, figure: nat, total: Number)
    requires total.Finite?
  {
    if figure as real <= total.value then shown == Finite(figure as real) else shown == total
  }

  /** `operatorRollProgress`: whatever the server sends, whole figures between zero and the total;
      consistent figures are kept as they are. */
  function RollProgress(sent: Option<Progress>, plannedRolls: Number, currentRoll: Number,
      completedRolls: Number): (p: Progress)
    ensures IsBounded(p)
    ensures sent.Some? && IsBounded(sent.value) ==> p == sent.value
    ensures !(sent.Some? && IsBounded(sent.value)) ==>
              p.total == Finite(LegacyInteger(plannedRolls) as real)
              && Capped(p.current, LegacyInteger(currentRoll), p.total)
              && Capped(p.completed, LegacyInteger(completedRolls), p.total)
  {
    if sent.Some? && IsBounded(sent.value) then sent.value
    else
      var total := LegacyInteger(plannedRolls);
      Progress(Finite(Min(LegacyInteger(currentRoll), total) as real),
          Finite(Min(LegacyInteger(completedRolls), total) as real),
               Finite(total as real))
  }

  /** Progress is always a whole part of a whole total, and kept as sent exactly when it was that. */
  lemma ProgressFigures(sent: Option<Progress>, plannedRolls: Number, currentRoll: Number, completedRolls: Number)
    ensures var p := RollProgress(sent, plannedRolls, currentRoll, completedRolls);
            Among(p.current, p.total) && Among(p.completed, p.total) && Among(p.total, p.total)
    ensures sent.Some? && Among(sent.value.current, sent.value.total) && Among(sent.value.completed, sent.value.total)
            && Among(sent.value.total, sent.value.total) ==>
              RollProgress(sent, plannedRolls, currentRoll, completedRolls) == sent.value
  {
  }

  /** A whole number from zero to the total. */
  predicate Among(x: Number, total: Number) {
    x.Finite? && total.Finite? && x.value == x.value.Floor as real && 0.0 <= x.value <= total.value
  }

  // Position keys

  datatype Roll = Roll(id: Text, orderLineId: Option<Text>, positionSequence: Option<Number>)

  function Decimal(n: nat): Text {
    if n < 10 then [48 + n] else Decimal(n / 10) + [48 + n % 10]
  }

  const LINE: Text := Ascii("line:")
  const LEGACY_SEQUENCE: Text := Ascii("legacy-sequence:")
  const POSITION: Text := Ascii("-position-")

  /** The trimmed order line, when there is one and it is not blank. */
  function LineOf(r: Roll): Option<Text> {
    if r.orderLineId.Some? && Trim(r.orderLineId.value) != [] then Some(Trim(r.orderLineId.value)) else None
  }

  function SequenceOf(r: Roll): nat {
    var n := LegacyInteger(if r.positionSequence.Some? then r.positionSequence.value else Finite(1.0));
    if n > 0 then n else 1
  }

  /** A roll's line is the trimmed one, unless blank; its sequence the whole part of the one sent, and one
      when none is sent or it is below one. */
  lemma PositionOf(r: Roll)
    ensures LineOf(r).Some? <==> r.orderLineId.Some? && Trim(r.orderLineId.value) != []
    ensures LineOf(r).Some? ==> LineOf(r).value == Trim(r.orderLineId.value)
    ensures r.positionSequence.None? || r.positionSequence.value.NotFinite? || r.positionSequence.value.value < 2.0 ==>
              SequenceOf(r) == 1
    ensures r.positionSequence.Some? && r.positionSequence.value.Finite? && r.positionSequence.value.value >= 1.0 ==>
              SequenceOf(r) as real <= r.positionSequence.value.value < SequenceOf(r) as real + 1.0
  {
    hide Trim;
  }

  /** `rollPositionKey`: the texts `line:` and `legacy-sequence:` before the line or the sequence. */
  function PositionKey(r: Roll): Text {
    if LineOf(r).Some? then LINE + LineOf(r).value else LEGACY_SEQUENCE + Decimal(SequenceOf(r))
  }

  lemma {:induction false} DecimalInjective(m: nat, n: nat)
    ensures Decimal(m) == Decimal(n) ==> m == n
  {
    if Decimal(m) == Decimal(n) {
      var a, b := Decimal(m), Decimal(n);
      DecimalLength(m);
      DecimalLength(n);
      assert a[|a| - 1] == 48 + m % 10 && b[|b| - 1] == 48 + n % 10;
      if m >= 10 && n >= 10 {
        assert a[..|a| - 1] == Decimal(m / 10) && b[..|b| - 1] == Decimal(n / 10);
        DecimalInjective(m / 10, n / 10);
      }
    }
  }

  lemma DecimalLength(n: nat)
    ensures |Decimal(n)| >= 1 && (n >= 10 ==> |Decimal(n)| >= 2)
  {
  }

  /** Two rolls share a position exactly when they name the same order line, or name none and have
      the same sequence: keys of lines and of legacy sequences never collide. */
  lemma SameKeyIff(a: Roll, b: Roll)
    ensures PositionKey(a) == PositionKey(b) <==>
            LineOf(a) == LineOf(b) && (LineOf(a).None? ==> SequenceOf(a) == SequenceOf(b))
  {
    hide Trim, SequenceOf;
    var k, l := PositionKey(a), PositionKey(b);
    if LineOf(a).Some? && LineOf(b).Some? {
      assert k[|LINE|..] == LineOf(a).value && l[|LINE|..] == LineOf(b).value;
    } else if LineOf(a).None? && LineOf(b).None? {
      assert k[|LEGACY_SEQUENCE|..] == Decimal(SequenceOf(a)) && l[|LEGACY_SEQUENCE|..] == Decimal(SequenceOf(b));
      DecimalInjective(SequenceOf(a), SequenceOf(b));
    } else {
      assert k[1] != l[1];
    }
  }

  // Grouping

  function KeyOf(r: Roll): Option<Text> { Some(PositionKey(r)) }

  /** The position keys in the order their first rolls come. */
  function FirstKeys(rolls: seq<Roll>): seq<Text> {
    if rolls == [] then []
    else
      var keys, key := FirstKeys(rolls[..|rolls| - 1]), PositionKey(rolls[|rolls| - 1]);
      if key in keys then keys else keys + [key]
  }

  datatype Group = Group(id: Text, rolls: seq<Roll>)

  function GroupId(orderId: Text, index: nat): Text { orderId + POSITION + Decimal(index + 1) }

  /** The groups of an order: one a position, or one empty group. */
  function Groups(orderId: Text, rolls: seq<Roll>): seq<Group> {
    if rolls == [] then [Group(GroupId(orderId, 0), [])]
    else
      var keys := FirstKeys(rolls);
      seq(|keys|, i requires 0 <= i < |keys| => Group(GroupId(orderId, i), Of(rolls, KeyOf, keys[i])))
  }

  lemma {:induction false} FirstKeysDistinct(rolls: seq<Roll>)
    ensures Distinct(FirstKeys(rolls))
  {
    hide PositionKey;
    if rolls != [] {
      FirstKeysDistinct(rolls[..|rolls| - 1]);
    }
  }

  lemma {:induction false} KeysPresent(rolls: seq<Roll>)
    ensures forall r | r in rolls :: PositionKey(r) in FirstKeys(rolls)
  {
    hide PositionKey;
    if rolls != [] {
      var init, last := rolls[..|rolls| - 1], rolls[|rolls| - 1];
      KeysPresent(init);
      forall r | r in rolls ensures PositionKey(r) in FirstKeys(rolls) {
        assert rolls == init + [last];
      }
    }
  }

  lemma {:induction false} NoRollsOf(rolls: seq<Roll>, key: Text)
    requires key !in FirstKeys(rolls)
    ensures Of(rolls, KeyOf, key) == []
  {
    hide PositionKey;
    if rolls != [] {
      NoRollsOf(rolls[..|rolls| - 1], key);
    }
  }

  function PlaceOf(keys: seq<Text>, key: Text): (i: nat)
    requires key in keys
    ensures i < |keys| && keys[i] == key
  {
    if keys[0] == key then 0 else 1 + PlaceOf(keys[1..], key)
  }

  /** The group id a roll is shown with. */
  function GroupIdOf(orderId: Text, rolls: seq<Roll>, roll: Roll): Text
    requires roll in rolls
  {
    KeysPresent(rolls);
    GroupId(orderId, PlaceOf(FirstKeys(rolls), PositionKey(roll)))
  }

  /** A roll's group id names the group that holds the roll, and no other group has that id. */
  lemma GroupIdNamesItsGroup(orderId: Text, rolls: seq<Roll>, roll: Roll)
    requires roll in rolls
    ensures exists g | 0 <= g < |Groups(orderId, rolls)| ::
              Groups(orderId, rolls)[g].id == GroupIdOf(orderId, rolls, roll) && roll in Groups(orderId, rolls)[g].rolls
    ensures forall g | 0 <= g < |Groups(orderId, rolls)| && roll !in Groups(orderId, rolls)[g].rolls ::
              Groups(orderId, rolls)[g].id != GroupIdOf(orderId, rolls, roll)
  {
    hide PositionKey, GroupId;
    KeysPresent(rolls);
    var groups, place := Groups(orderId, rolls), PlaceOf(FirstKeys(rolls), PositionKey(roll));
    OfMembers(rolls, KeyOf, PositionKey(roll));
    assert groups[place].id == GroupIdOf(orderId, rolls, roll) && roll in groups[place].rolls;
    forall g | 0 <= g < |groups| && g != place ensures groups[g].id != groups[place].id {
      GroupIdsDiffer(orderId, g, place);
    }
  }

  /** `mapOrder` up to its groups and its rolls' group ids. `fallback` stands for the current group,
      which a roll would take if its own group were missing. */
  method MapOrder(orderId: Text, rolls: seq<Roll>, fallback: Text) returns (groups: seq<Group>, groupIds: seq<Text>)
    ensures groups == Groups(orderId, rolls)
    ensures |groupIds| == |rolls| && forall i | 0 <= i < |rolls| :: groupIds[i] == GroupIdOf(orderId, rolls, rolls[i])
  {
    hide PositionKey, GroupId, FirstKeys, Of, Groups;
    var keys, rollsByPosition := Collect(rolls);
    FirstKeysDistinct(rolls);
    KeysPresent(rolls);
    var idByPosition;
    groups, idByPosition := NumberGroups(orderId, keys, rollsByPosition);
    if |groups| == 0 {
      groups := [Group(GroupId(orderId, 0), [])];
    }
    GroupsAre(orderId, rolls, groups);
    groupIds := [];
    for i := 0 to |rolls|
      invariant |groupIds| == i
      invariant forall j | 0 <= j < i :: groupIds[j] == GroupIdOf(orderId, rolls, rolls[j])
    {
      var key := PositionKey(rolls[i]);
      groupIds := groupIds + [if key in idByPosition then idByPosition[key] else fallback];
    }
  }

  /** One group an entry, numbered from one, and the id under each key. */
  method NumberGroups(orderId: Text, keys: seq<Text>, rollsByPosition: map<Text, seq<Roll>>)
    returns (groups: seq<Group>, idByPosition: map<Text, Text>)
    requires Distinct(keys) && forall k | k in keys :: k in rollsByPosition
    ensures |groups| == |keys|
    ensures forall i | 0 <= i < |keys| :: groups[i] == Group(GroupId(orderId, i), rollsByPosition[keys[i]])
    ensures forall k | k in keys :: k in idByPosition && idByPosition[k] == GroupId(orderId, PlaceOf(keys, k))
  {
    hide GroupId;
    groups := [];
    idByPosition := map[];
    for i := 0 to |keys|
      invariant |groups| == i
      invariant forall j | 0 <= j < i :: groups[j] == Group(GroupId(orderId, j), rollsByPosition[keys[j]])
      invariant forall j | 0 <= j < i :: keys[j] in idByPosition && idByPosition[keys[j]] == GroupId(orderId, j)
    {
      groups := groups + [Group(GroupId(orderId, i), rollsByPosition[keys[i]])];
      idByPosition := idByPosition[keys[i] := GroupId(orderId, i)];
    }
  }

  lemma GroupsAre(orderId: Text, rolls: seq<Roll>, groups: seq<Group>)
    requires var keys := FirstKeys(rolls);
             if keys == [] then groups == [Group(GroupId(orderId, 0), [])]
             else |groups| == |keys|
                  && forall i | 0 <= i < |keys| :: groups[i] == Group(GroupId(orderId, i), Of(rolls, KeyOf, keys[i]))
    ensures groups == Groups(orderId, rolls)
  {
    hide PositionKey, GroupId;
    KeysPresent(rolls);
    assert rolls != [] ==> PositionKey(rolls[0]) in FirstKeys(rolls);
  }

  /** The loop that fills the map of positions; `keys` is the map's insertion order. */
  method Collect(rolls: seq<Roll>) returns (keys: seq<Text>, rollsByPosition: map<Text, seq<Roll>>)
    ensures keys == FirstKeys(rolls)
    ensures forall k :: k in rollsByPosition <==> k in keys
    ensures forall k | k in keys :: rollsByPosition[k] == Of(rolls, KeyOf, k)
  {
    hide PositionKey;
    keys, rollsByPosition := [], map[];
    for i := 0 to |rolls|
      invariant keys == FirstKeys(rolls[..i])
      invariant forall k :: k in rollsByPosition <==> k in keys
      invariant forall k | k in keys :: rollsByPosition[k] == Of(rolls[..i], KeyOf, k)
    {
      var key := PositionKey(rolls[i]);
      assert rolls[..i + 1] == rolls[..i] + [rolls[i]];
      assert rolls[..i + 1][..i] == rolls[..i];
      if key !in keys {
        NoRollsOf(rolls[..i], key);
      }
      forall k
        ensures Of(rolls[..i + 1], KeyOf, k) == if k == key then Of(rolls[..i], KeyOf, k) + [rolls[i]]
                else Of(rolls[..i], KeyOf, k)
      {
        OfSnoc(rolls[..i], rolls[i], KeyOf, k);
      }
      var positionRolls := if key in rollsByPosition then rollsByPosition[key] else [];
      keys := if key in rollsByPosition then keys else keys + [key];
      rollsByPosition := rollsByPosition[key := positionRolls + [rolls[i]]];
    }
    assert rolls[..|rolls|] == rolls;
  }

  // Partition

  function Flatten(groups: seq<Group>): seq<Roll> {
    if groups == [] then [] else Flatten(groups[..|groups| - 1]) + groups[|groups| - 1].rolls
  }

  lemma {:induction false} CountIsTotal(rolls: seq<Roll>, x: Roll, one: Roll -> int)
    requires forall r: Roll :: one(r) == if r == x then 1 else 0
    ensures Total(rolls, one) == multiset(rolls)[x]
  {
    if rolls != [] {
      CountIsTotal(rolls[..|rolls| - 1], x, one);
      assert rolls == rolls[..|rolls| - 1] + [rolls[|rolls| - 1]];
    }
  }

  lemma {:induction false} TotalConcat(a: seq<Roll>, b: seq<Roll>, weight: Roll -> int)
    ensures Total(a + b, weight) == Total(a, weight) + Total(b, weight)
  {
    if b == [] {
      assert a + b == a;
    } else {
      assert (a + b)[..|a + b| - 1] == a + b[..|b| - 1];
      TotalConcat(a, b[..|b| - 1], weight);
    }
  }

  lemma {:induction false} FlattenTotal(groups: seq<Group>, keys: seq<Text>, rolls: seq<Roll>, weight: Roll -> int)
    requires |groups| == |keys| && forall i | 0 <= i < |keys| :: groups[i].rolls == Of(rolls, KeyOf, keys[i])
    ensures Total(Flatten(groups), weight) == GroupedSum.Groups(keys, rolls, KeyOf, weight)
  {
    if groups != [] {
      var n := |groups| - 1;
      FlattenTotal(groups[..n], keys[..n], rolls, weight);
      TotalConcat(Flatten(groups[..n]), groups[n].rolls, weight);
    }
  }

  /** Grouping is a partition: group ids are distinct, the groups together hold every roll exactly
      as often as the order does, each group keeps the order's sequence of its rolls, and two rolls
      are in one group exactly when they have one position. */
  lemma GroupsPartition(orderId: Text, rolls: seq<Roll>)
    ensures var groups := Groups(orderId, rolls);
            (forall i, j | 0 <= i < j < |groups| :: groups[i].id != groups[j].id)
            && multiset(Flatten(groups)) == multiset(rolls)
            && (forall i | 0 <= i < |groups| :: Subsequence(groups[i].rolls, rolls))
            && (forall i, a, b | 0 <= i < |groups| && a in groups[i].rolls && b in rolls ::
                  b in groups[i].rolls <==> PositionKey(a) == PositionKey(b))
  {
    hide PositionKey, Groups, Flatten, Subsequence;
    var groups := Groups(orderId, rolls);
    forall i, j | 0 <= i < j < |groups| ensures groups[i].id != groups[j].id {
      GroupAt(orderId, rolls, i);
      GroupAt(orderId, rolls, j);
      GroupIdsDiffer(orderId, i, j);
    }
    SameRolls(orderId, rolls);
    forall i | 0 <= i < |groups|
      ensures Subsequence(groups[i].rolls, rolls)
      ensures forall a, b | a in groups[i].rolls && b in rolls ::
              b in groups[i].rolls <==> PositionKey(a) == PositionKey(b)
    {
      GroupAt(orderId, rolls, i);
    }
  }

  /** One group: its id, and the rolls of one key in the order's sequence, or no rolls at all. */
  lemma GroupAt(orderId: Text, rolls: seq<Roll>, i: nat)
    requires i < |Groups(orderId, rolls)|
    ensures var g := Groups(orderId, rolls)[i];
            g.id == GroupId(orderId, i) && Subsequence(g.rolls, rolls)
            && forall a, b | a in g.rolls && b in rolls :: b in g.rolls <==> PositionKey(a) == PositionKey(b)
  {
    hide PositionKey, GroupId;
    if rolls != [] {
      OfIsSubsequence(rolls, FirstKeys(rolls)[i]);
      OfMembers(rolls, KeyOf, FirstKeys(rolls)[i]);
    }
    hide FirstKeys, Of;
  }

  lemma SameRolls(orderId: Text, rolls: seq<Roll>)
    ensures multiset(Flatten(Groups(orderId, rolls))) == multiset(rolls)
  {
    hide Groups, Flatten;
    var flat := Flatten(Groups(orderId, rolls));
    forall x: Roll ensures multiset(flat)[x] == multiset(rolls)[x] {
      SameCount(orderId, rolls, x);
    }
  }

  lemma SameCount(orderId: Text, rolls: seq<Roll>, x: Roll)
    ensures multiset(Flatten(Groups(orderId, rolls)))[x] == multiset(rolls)[x]
  {
    hide PositionKey, GroupId, Flatten, Of, FirstKeys;
    var groups, keys := Groups(orderId, rolls), FirstKeys(rolls);
    if rolls == [] {
      EmptyGroup(groups[0].id);
    } else {
      FirstKeysDistinct(rolls);
      KeysPresent(rolls);
      AllOwned(rolls, KeyOf);
      var one := (r: Roll) => if r == x then 1 else 0;
      FlattenTotal(groups, keys, rolls, one);
      GroupsAddUp(keys, rolls, KeyOf, one);
      CountIsTotal(Flatten(groups), x, one);
      CountIsTotal(rolls, x, one);
    }
  }

  lemma EmptyGroup(id: Text)
    ensures Flatten([Group(id, [])]) == []
  {
    var groups := [Group(id, [])];
    assert Flatten(groups[..0]) == [];
  }

  lemma GroupIdsDiffer(orderId: Text, i: nat, j: nat)
    requires i != j
    ensures GroupId(orderId, i) != GroupId(orderId, j)
  {
    DecimalInjective(i + 1, j + 1);
    var a, b := GroupId(orderId, i), GroupId(orderId, j);
    assert a[|orderId + POSITION|..] == Decimal(i + 1) && b[|orderId + POSITION|..] == Decimal(j + 1);
  }

  /** `part` is what is left of `whole` after dropping some rolls. */
  predicate Subsequence(part: seq<Roll>, whole: seq<Roll>)
    decreases |whole|
  {
    if whole == [] then part == []
    else if part != [] && part[|part| - 1] == whole[|whole| - 1]
        then Subsequence(part[..|part| - 1], whole[..|whole| - 1])
    else Subsequence(part, whole[..|whole| - 1])
  }

  lemma {:induction false} OfIsSubsequence(rolls: seq<Roll>, key: Text)
    ensures Subsequence(Of(rolls, KeyOf, key), rolls)
  {
    hide PositionKey;
    if rolls != [] {
      var init, last := rolls[..|rolls| - 1], rolls[|rolls| - 1];
      OfIsSubsequence(init, key);
      OfMembers(init, KeyOf, key);
      var part, whole := Of(init, KeyOf, key), Of(rolls, KeyOf, key);
      if KeyOf(last) == Some(key) {
        assert whole[..|whole| - 1] == part;
      } else {
        assert whole == part && (part != [] ==> part[|part| - 1] in part);
      }
    }
  }
}
