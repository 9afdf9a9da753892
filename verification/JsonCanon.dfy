/** `canonicalJson`: JSON text with object keys in code-unit order. It is canonical and injective:
    two values print the same text exactly when they are equal up to the order of object keys. */
module JsonCanon {
  import opened Common
  import opened JsonString
  import opened KeyOrder

  /** A JSON value. A number is carried by the text `Number::toString` gives it, which is
      distinct for distinct finite numbers other than negative zero. */
  datatype Json =
    | Null
    | Bool(b: bool)
    | Num(text: Text)
    | Str(s: Text)
    | Arr(items: seq<Json>)
    | Obj(fields: seq<Field>)

  datatype Field = Field(key: Text, value: Json)

  const COMMA: CodeUnit := 44
  const COLON: CodeUnit := 58

  predicate NumberUnit(u: CodeUnit) { 48 <= u <= 57 || u == 43 || u == 45 || u == 46 || u == 101 }

  /** Digits, sign, point and exponent, beginning with a digit or a minus sign. */
  predicate NumberText(t: Text) {
    t != [] && (48 <= t[0] <= 57 || t[0] == 45) && forall i | 0 <= i < |t| :: NumberUnit(t[i])
  }

  predicate UniqueFields(f: seq<Field>) {
    forall i, j | 0 <= i < j < |f| :: f[i].key != f[j].key
  }

  /** What a JavaScript value that JSON can carry looks like. */
  predicate Valid(v: Json) {
    match v
    case Num(t) => NumberText(t)
    case Arr(items) => forall x | x in items :: Valid(x)
    case Obj(fields) => UniqueFields(fields) && forall f | f in fields :: Valid(f.value)
    case _ => true
  }

  function Literal(v: Json): Text
    requires v.Null? || v.Bool?
  {
    if v.Null? then Ascii("null")
    else if v.b then Ascii("true")
    else Ascii("false")
  }

  function Join(parts: seq<Text>): Text {
    if parts == [] then []
    else if |parts| == 1 then parts[0]
    else parts[0] + [COMMA] + Join(parts[1..])
  }

  function CanonicalJson(v: Json): Text {
    match v
    case Num(t) => t
    case Str(s) => Quote(s)
    case Arr(items) => [91] + Join(ItemTexts(items)) + [93]
    case Obj(fields) => [123] + Join(Members(Sort(Entries(fields)))) + [125]
    case _ => Literal(v)
  }

  function ItemTexts(items: seq<Json>): (r: seq<Text>)
    ensures |r| == |items|
    ensures forall i | 0 <= i < |r| :: r[i] == CanonicalJson(items[i])
  {
    if items == [] then [] else [CanonicalJson(items[0])] + ItemTexts(items[1..])
  }

  function Entries(fields: seq<Field>): (r: seq<Entry>)
    ensures |r| == |fields|
    ensures forall i | 0 <= i < |r| :: r[i] == Entry(fields[i].key, CanonicalJson(fields[i].value))
  {
    if fields == [] then []
    else [Entry(fields[0].key, CanonicalJson(fields[0].value))] + Entries(fields[1..])
  }

  function Member(e: Entry): Text { Quote(e.key) + [COLON] + e.text }

  function Members(s: seq<Entry>): (r: seq<Text>)
    ensures |r| == |s|
    ensures forall i | 0 <= i < |r| :: r[i] == Member(s[i])
  {
    if s == [] then [] else [Member(s[0])] + Members(s[1..])
  }

  /** Equality up to the order of object keys, at every depth. */
  predicate Equivalent(a: Json, b: Json)
    decreases a, 1
  {
    match (a, b)
    case (Arr(x), Arr(y)) => |x| == |y| && forall i | 0 <= i < |x| :: Equivalent(x[i], y[i])
    case (Obj(f), Obj(g)) => |f| == |g| && forall i | 0 <= i < |f| :: EquivalentTo(g, f[i])
    case _ => a == b
  }

  /** One of the fields has this key and an equal value. */
  predicate EquivalentTo(fields: seq<Field>, f: Field)
    decreases f.value, 2
  {
    exists j | 0 <= j < |fields| :: f.key == fields[j].key && Equivalent(f.value, fields[j].value)
  }

  /** Text that may follow a value inside a larger JSON text, or nothing. */
  predicate Delimited(rest: Text) {
    rest == [] || rest[0] == COMMA || rest[0] == 93 || rest[0] == 125
  }

  /** The two texts cannot both begin one text without being the same text. */
  ghost predicate Separable(a: Text, b: Text) {
    forall restA: Text, restB: Text | Delimited(restA) && Delimited(restB) && a + restA == b + restB ::
      a == b && restA == restB
  }

  /** First unit of a printed value: never a closing bracket. */
  predicate ValueStart(t: Text) { t != [] && t[0] != 93 && t[0] != 125 && t[0] != COMMA }

  lemma CanonicalStart(v: Json)
    requires Valid(v)
    ensures ValueStart(CanonicalJson(v))
  {
  }

  /** Joined parts closed by `close` can be taken apart in one way, when the parts can. */
  lemma {:induction false} JoinSeparable(x: seq<Text>, y: seq<Text>, close: CodeUnit, restX: Text, restY: Text)
    requires close == 93 || close == 125
    requires forall t | t in x || t in y :: ValueStart(t)
    requires forall s, t | s in x && t in y :: Separable(s, t)
    requires Join(x) + ([close] + restX) == Join(y) + ([close] + restY)
    ensures x == y && restX == restY
  {
    if x == [] || y == [] {
      JoinStart(x, [close] + restX);
      JoinStart(y, [close] + restY);
      assert x == y == [];
      assert Join(x) + ([close] + restX) == [close] + restX && Join(y) + ([close] + restY) == [close] + restY;
      assert restX == ([close] + restX)[1..] && restY == ([close] + restY)[1..];
    } else {
      var tx, ty := Tail(x, close, restX), Tail(y, close, restY);
      JoinHead(x, close, restX);
      JoinHead(y, close, restY);
      assert x[0] in x && y[0] in y && Separable(x[0], y[0]);
      assert tx == ty;
      if |x| == 1 || |y| == 1 {
        assert tx[0] == ty[0];
        assert restX == tx[1..] && restY == ty[1..];
      } else {
        assert tx[1..] == Join(x[1..]) + ([close] + restX);
        assert ty[1..] == Join(y[1..]) + ([close] + restY);
        JoinSeparable(x[1..], y[1..], close, restX, restY);
      }
      assert x == [x[0]] + x[1..] && y == [y[0]] + y[1..];
    }
  }

  function Tail(x: seq<Text>, close: CodeUnit, rest: Text): Text
    requires x != []
  {
    if |x| == 1 then [close] + rest else [COMMA] + (Join(x[1..]) + ([close] + rest))
  }

  lemma JoinHead(x: seq<Text>, close: CodeUnit, rest: Text)
    requires x != []
    ensures Join(x) + ([close] + rest) == x[0] + Tail(x, close, rest)
  {
  }

  lemma JoinStart(x: seq<Text>, rest: Text)
    requires rest != [] && forall t | t in x :: ValueStart(t)
    ensures if x == [] then (Join(x) + rest)[0] == rest[0] else ValueStart(Join(x) + rest)
  {
    if x != [] {
      assert x[0] in x;
    }
  }

  lemma NumbersSeparable(a: Text, b: Text)
    requires NumberText(a) && NumberText(b)
    ensures Separable(a, b)
  {
    forall restA: Text, restB: Text | Delimited(restA) && Delimited(restB) && a + restA == b + restB
      ensures a == b && restA == restB
    {
      NumberEnds(a, b, restA, restB);
      NumberEnds(b, a, restB, restA);
      assert a == (a + restA)[..|a|] && b == (b + restB)[..|b|];
      assert restA == (a + restA)[|a|..] && restB == (b + restB)[|b|..];
    }
  }

  lemma NumberEnds(a: Text, b: Text, restA: Text, restB: Text)
    requires NumberText(b) && Delimited(restA) && a + restA == b + restB
    ensures |a| >= |b|
  {
    var t := a + restA;
    assert forall i | 0 <= i < |b| :: t[i] == b[i] && NumberUnit(t[i]);
    assert restA != [] ==> t[|a|] == restA[0];
  }

  lemma MembersSeparable(d: Entry, e: Entry)
    requires Separable(d.text, e.text)
    ensures Separable(Member(d), Member(e))
  {
    forall restA: Text, restB: Text
      | Delimited(restA) && Delimited(restB) && Member(d) + restA == Member(e) + restB
      ensures Member(d) == Member(e) && restA == restB
    {
      MemberCut(d, e, restA, restB);
    }
  }

  lemma MemberCut(d: Entry, e: Entry, restA: Text, restB: Text)
    requires Member(d) + restA == Member(e) + restB
    ensures d.key == e.key && d.text + restA == e.text + restB
  {
    var ta, tb := [COLON] + (d.text + restA), [COLON] + (e.text + restB);
    MemberSplit(d, restA);
    MemberSplit(e, restB);
    QuoteSeparable(d.key, e.key, ta, tb);
    assert d.text + restA == ta[1..] && e.text + restB == tb[1..];
  }

  lemma MemberSplit(d: Entry, rest: Text)
    ensures Member(d) + rest == Quote(d.key) + ([COLON] + (d.text + rest))
  {
  }

  lemma MemberInjective(d: Entry, e: Entry)
    requires Member(d) == Member(e)
    ensures d == e
  {
    assert Member(d) + [] == Member(e) + [];
    MemberCut(d, e, [], []);
    assert d.text + [] == d.text && e.text + [] == e.text;
  }

  /** Unique decodability of the printed form. */
  lemma {:induction false} CanonicalSeparable(a: Json, b: Json)
    requires Valid(a) && Valid(b)
    ensures Separable(CanonicalJson(a), CanonicalJson(b))
    decreases a
  {
    match (a, b) {
      case (Num(s), Num(t)) => NumbersSeparable(s, t);
      case (Str(s), Str(t)) =>
        forall restA: Text, restB: Text | Quote(s) + restA == Quote(t) + restB
          ensures s == t && restA == restB
        {
          QuoteSeparable(s, t, restA, restB);
        }
      case (Arr(x), Arr(y)) => ItemsSeparable(a, b);
      case (Obj(f), Obj(g)) => FieldsSeparable(a, b);
      case _ => DifferentKinds(a, b);
    }
  }

  lemma DifferentKinds(a: Json, b: Json)
    requires Valid(a) && Valid(b)
    requires !(a.Num? && b.Num?) && !(a.Str? && b.Str?) && !(a.Arr? && b.Arr?) && !(a.Obj? && b.Obj?)
    ensures Separable(CanonicalJson(a), CanonicalJson(b))
  {
    var s, t := CanonicalJson(a), CanonicalJson(b);
    forall restA: Text, restB: Text | s + restA == t + restB
      ensures s == t && restA == restB
    {
      assert (s + restA)[0] == s[0] && (t + restB)[0] == t[0];
      assert s == t;
      assert restA == (s + restA)[|s|..] && restB == (t + restB)[|t|..];
    }
  }

  lemma {:induction false} ItemsSeparable(a: Json, b: Json)
    requires Valid(a) && Valid(b) && a.Arr? && b.Arr?
    ensures Separable(CanonicalJson(a), CanonicalJson(b))
    decreases a, 0
  {
    var x, y := ItemTexts(a.items), ItemTexts(b.items);
    forall s, t | s in x && t in y ensures Separable(s, t) && ValueStart(s) && ValueStart(t) {
      var i :| 0 <= i < |x| && x[i] == s;
      var j :| 0 <= j < |y| && y[j] == t;
      CanonicalSeparable(a.items[i], b.items[j]);
      CanonicalStart(a.items[i]);
      CanonicalStart(b.items[j]);
    }
    ItemStarts(a.items);
    ItemStarts(b.items);
    BracketSeparable(x, y, 91, 93);
  }

  lemma ItemStarts(items: seq<Json>)
    requires forall v | v in items :: Valid(v)
    ensures forall t | t in ItemTexts(items) :: ValueStart(t)
  {
    forall t | t in ItemTexts(items) ensures ValueStart(t) {
      var i :| 0 <= i < |items| && ItemTexts(items)[i] == t;
      CanonicalStart(items[i]);
    }
  }

  /** Brackets around joined parts keep what holds of the parts. */
  lemma BracketSeparable(x: seq<Text>, y: seq<Text>, open: CodeUnit, close: CodeUnit)
    requires close == 93 || close == 125
    requires forall t | t in x || t in y :: ValueStart(t)
    requires forall s, t | s in x && t in y :: Separable(s, t)
    ensures Separable([open] + Join(x) + [close], [open] + Join(y) + [close])
    ensures [open] + Join(x) + [close] == [open] + Join(y) + [close] ==> x == y
  {
    var s, t := [open] + Join(x) + [close], [open] + Join(y) + [close];
    forall restA: Text, restB: Text | s + restA == t + restB
      ensures x == y && restA == restB
    {
      BracketCut(x, y, open, close, restA, restB);
    }
    if s == t {
      BracketCut(x, y, open, close, [], []);
    }
  }

  lemma BracketCut(x: seq<Text>, y: seq<Text>, open: CodeUnit, close: CodeUnit, restA: Text, restB: Text)
    requires close == 93 || close == 125
    requires forall t | t in x || t in y :: ValueStart(t)
    requires forall s, t | s in x && t in y :: Separable(s, t)
    requires [open] + Join(x) + [close] + restA == [open] + Join(y) + [close] + restB
    ensures x == y && restA == restB
  {
    hide Join, Separable, ValueStart;
    var ta, tb := Join(x) + ([close] + restA), Join(y) + ([close] + restB);
    assert [open] + Join(x) + [close] + restA == [open] + ta;
    assert [open] + Join(y) + [close] + restB == [open] + tb;
    assert ta == ([open] + ta)[1..] && tb == ([open] + tb)[1..];
    JoinSeparable(x, y, close, restA, restB);
  }

  lemma {:induction false} FieldsSeparable(a: Json, b: Json)
    requires Valid(a) && Valid(b) && a.Obj? && b.Obj?
    ensures Separable(CanonicalJson(a), CanonicalJson(b))
    ensures CanonicalJson(a) == CanonicalJson(b) ==> Sort(Entries(a.fields)) == Sort(Entries(b.fields))
    decreases a, 0
  {
    hide Separable, Join, Sort, Entries, Member, Members;
    var d, e := Sort(Entries(a.fields)), Sort(Entries(b.fields));
    var x, y := Members(d), Members(e);
    forall s, t | s in x && t in y ensures Separable(s, t) {
      var i :| 0 <= i < |x| && x[i] == s;
      var j :| 0 <= j < |y| && y[j] == t;
      assert d[i] in d && e[j] in e;
      var m := FieldOf(a.fields, d[i]);
      var n := FieldOf(b.fields, e[j]);
      CanonicalSeparable(m.value, n.value);
      MembersSeparable(d[i], e[j]);
    }
    MemberStarts(d);
    MemberStarts(e);
    BracketSeparable(x, y, 123, 125);
    if CanonicalJson(a) == CanonicalJson(b) {
      forall i | 0 <= i < |d| ensures d[i] == e[i] {
        assert x[i] == y[i];
        MemberInjective(d[i], e[i]);
      }
    }
  }

  lemma MemberStarts(s: seq<Entry>)
    ensures forall t | t in Members(s) :: ValueStart(t)
  {
    forall t | t in Members(s) ensures ValueStart(t) {
      var i :| 0 <= i < |s| && Members(s)[i] == t;
    }
  }

  /** The field an entry was printed from. */
  ghost function FieldOf(fields: seq<Field>, e: Entry): (f: Field)
    requires e in Entries(fields)
    ensures f in fields && f.key == e.key && CanonicalJson(f.value) == e.text
  {
    var i :| 0 <= i < |fields| && Entries(fields)[i] == e;
    fields[i]
  }

  /** Same text only for values equal up to key order. */
  lemma {:induction false} CanonicalInjective(a: Json, b: Json)
    requires Valid(a) && Valid(b) && CanonicalJson(a) == CanonicalJson(b)
    ensures Equivalent(a, b)
    decreases a
  {
    hide CanonicalJson, ItemTexts, Entries, Sort;
    match (a, b) {
      case (Arr(x), Arr(y)) =>
        SameItemTexts(a, b);
        forall i | 0 <= i < |x| ensures Equivalent(x[i], y[i]) {
          assert ItemTexts(x)[i] == ItemTexts(y)[i];
          CanonicalInjective(x[i], y[i]);
        }
        assert |x| == |ItemTexts(x)| == |ItemTexts(y)| == |y|;
      case (Obj(f), Obj(g)) =>
        FieldsSeparable(a, b);
        assert |f| == |Sort(Entries(f))| == |Sort(Entries(g))| == |g|;
        forall i | 0 <= i < |f| ensures EquivalentTo(g, f[i]) {
          var j := SameEntry(f, g, i);
          CanonicalInjective(f[i].value, g[j].value);
        }
      case _ => ScalarsInjective(a, b);
    }
  }

  lemma ScalarsInjective(a: Json, b: Json)
    requires Valid(a) && Valid(b) && CanonicalJson(a) == CanonicalJson(b)
    requires !(a.Arr? && b.Arr?) && !(a.Obj? && b.Obj?)
    ensures a == b
  {
    CanonicalStart(a);
    if a.Str? && b.Str? {
      assert Quote(a.s) + [] == Quote(b.s) + [];
      QuoteSeparable(a.s, b.s, [], []);
    }
  }

  lemma SameEntry(f: seq<Field>, g: seq<Field>, i: nat) returns (j: nat)
    requires i < |f| && Sort(Entries(f)) == Sort(Entries(g))
    ensures j < |g| && f[i].key == g[j].key && CanonicalJson(f[i].value) == CanonicalJson(g[j].value)
  {
    hide CanonicalJson, Sort;
    var e := Entries(f)[i];
    assert e in Sort(Entries(f));
    assert e in Entries(g);
    j :| 0 <= j < |g| && Entries(g)[j] == e;
  }

  lemma SameItemTexts(a: Json, b: Json)
    requires Valid(a) && Valid(b) && a.Arr? && b.Arr? && CanonicalJson(a) == CanonicalJson(b)
    ensures ItemTexts(a.items) == ItemTexts(b.items)
  {
    var x, y := ItemTexts(a.items), ItemTexts(b.items);
    forall s, t | s in x && t in y ensures Separable(s, t) {
      var i :| 0 <= i < |x| && x[i] == s;
      var j :| 0 <= j < |y| && y[j] == t;
      CanonicalSeparable(a.items[i], b.items[j]);
    }
    ItemStarts(a.items);
    ItemStarts(b.items);
    BracketSeparable(x, y, 91, 93);
  }

  /** Values equal up to key order print the same text. */
  lemma {:induction false} EquivalentSameText(a: Json, b: Json)
    requires Valid(a) && Valid(b) && Equivalent(a, b)
    ensures CanonicalJson(a) == CanonicalJson(b)
    decreases a
  {
    hide Sort, Entries, ItemTexts, Join, Quote;
    match (a, b) {
      case (Arr(x), Arr(y)) =>
        forall i | 0 <= i < |x| ensures ItemTexts(x)[i] == ItemTexts(y)[i] {
          EquivalentSameText(x[i], y[i]);
        }
        assert ItemTexts(x) == ItemTexts(y);
      case (Obj(f), Obj(g)) =>
        forall i | 0 <= i < |f| ensures Entries(f)[i] in Entries(g) {
          var j :| 0 <= j < |g| && f[i].key == g[j].key && Equivalent(f[i].value, g[j].value);
          EquivalentSameText(f[i].value, g[j].value);
          assert Entries(f)[i] == Entries(g)[j];
        }
        SameSorted(Entries(f), Entries(g));
      case _ =>
    }
  }

  lemma SameSorted(d: seq<Entry>, e: seq<Entry>)
    requires UniqueKeys(d) && UniqueKeys(e) && |d| == |e| && forall i | 0 <= i < |d| :: d[i] in e
    ensures Sort(d) == Sort(e)
  {
    SameEntries(d, e);
    SortSorts(d);
    SortSorts(e);
    SortedUnique(Sort(d), Sort(e));
  }

  /** Distinct keys and equal length turn one inclusion into both. */
  lemma SameEntries(d: seq<Entry>, e: seq<Entry>)
    requires UniqueKeys(d) && UniqueKeys(e) && |d| == |e| && forall i | 0 <= i < |d| :: d[i] in e
    ensures forall x :: x in d <==> x in e
  {
    var s, t := set x | x in d, set x | x in e;
    UniqueSize(d);
    UniqueSize(e);
    assert s <= t;
    SubsetOfSameSize(s, t);
    forall x ensures x in d <==> x in e {
      assert x in s <==> x in t;
    }
  }

  lemma {:induction false} UniqueSize(d: seq<Entry>)
    requires UniqueKeys(d)
    ensures |set x | x in d| == |d|
  {
    if d != [] {
      UniqueRest(d);
      hide UniqueKeys;
      UniqueSize(d[1..]);
      assert d == [d[0]] + d[1..];
      assert (set x | x in d) == (set x | x in d[1..]) + {d[0]};
    }
  }

  lemma UniqueRest(d: seq<Entry>)
    requires UniqueKeys(d) && d != []
    ensures UniqueKeys(d[1..]) && d[0] !in d[1..]
  {
  }

  lemma {:induction false} SubsetOfSameSize<T>(s: set<T>, t: set<T>)
    requires s <= t && |s| == |t|
    ensures s == t
  {
    assert t == s + (t - s) && s * (t - s) == {};
  }

  /** `canonicalJson` is canonical and injective. */
  lemma CanonicalIffEquivalent(a: Json, b: Json)
    requires Valid(a) && Valid(b)
    ensures CanonicalJson(a) == CanonicalJson(b) <==> Equivalent(a, b)
  {
    if CanonicalJson(a) == CanonicalJson(b) {
      CanonicalInjective(a, b);
    } else if Equivalent(a, b) {
      EquivalentSameText(a, b);
    }
  }
}
