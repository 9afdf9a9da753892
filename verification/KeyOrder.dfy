/** `Array.prototype.sort` on object keys: the order of UTF-16 code units (section 3.2.3 of
    RFC 8785), and the one sorted arrangement of a set of entries. */
module KeyOrder {
  import opened JsonString

  /** A property name with the text already printed for its value. */
  datatype Entry = Entry(key: Text, text: Text)

  predicate Less(a: Text, b: Text) {
    if b == [] then false
    else if a == [] then true
    else if a[0] != b[0] then a[0] < b[0]
    else Less(a[1..], b[1..])
  }

  lemma {:induction false} LessTotal(a: Text, b: Text)
    ensures Less(a, b) || Less(b, a) || a == b
  {
    if a != [] && b != [] && a[0] == b[0] {
      LessTotal(a[1..], b[1..]);
      assert a == [a[0]] + a[1..] && b == [b[0]] + b[1..];
    }
  }

  lemma {:induction false} LessTransitive(a: Text, b: Text, c: Text)
    requires Less(a, b) && Less(b, c)
    ensures Less(a, c)
  {
    if a != [] && a[0] == b[0] == c[0] {
      LessTransitive(a[1..], b[1..], c[1..]);
    }
  }

  lemma {:induction false} LessIrreflexive(a: Text)
    ensures !Less(a, a)
  {
    if a != [] {
      LessIrreflexive(a[1..]);
    }
  }

  predicate UniqueKeys(s: seq<Entry>) {
    forall i, j | 0 <= i < j < |s| :: s[i].key != s[j].key
  }

  predicate Sorted(s: seq<Entry>) {
    forall i, j | 0 <= i < j < |s| :: Less(s[i].key, s[j].key)
  }

  function Insert(e: Entry, s: seq<Entry>): (r: seq<Entry>)
    ensures |r| == |s| + 1
    ensures forall x :: x in r <==> x == e || x in s
  {
    if s == [] || Less(e.key, s[0].key) then [e] + s
    else [s[0]] + Insert(e, s[1..])
  }

  /** Sorting by key; every sort of distinct keys gives this sequence (`SortedUnique`). */
  function Sort(s: seq<Entry>): (r: seq<Entry>)
    ensures |r| == |s|
    ensures forall x :: x in r <==> x in s
  {
    if s == [] then [] else Insert(s[0], Sort(s[1..]))
  }

  lemma {:induction false} InsertSorted(e: Entry, s: seq<Entry>)
    requires Sorted(s) && forall x | x in s :: x.key != e.key
    ensures Sorted(Insert(e, s))
  {
    if s == [] {
    } else if Less(e.key, s[0].key) {
      forall j | 0 <= j < |s| ensures Less(e.key, s[j].key) {
        if j > 0 { LessTransitive(e.key, s[0].key, s[j].key); }
      }
    } else {
      LessTotal(e.key, s[0].key);
      assert s[0] in s;
      var rest := Insert(e, s[1..]);
      InsertSorted(e, s[1..]);
      forall j | 0 <= j < |rest| ensures Less(s[0].key, rest[j].key) {
        assert rest[j] in rest;
      }
    }
  }

  lemma {:induction false} SortSorts(s: seq<Entry>)
    requires UniqueKeys(s)
    ensures Sorted(Sort(s))
  {
    if s != [] {
      SortSorts(s[1..]);
      InsertSorted(s[0], Sort(s[1..]));
    }
  }

  lemma SortedTail(a: seq<Entry>, x: Entry)
    requires Sorted(a) && a != []
    ensures x in a[1..] <==> x in a && x != a[0]
  {
    LessIrreflexive(a[0].key);
    assert a == [a[0]] + a[1..];
    if x in a[1..] {
      var i :| 0 <= i < |a[1..]| && a[1..][i] == x;
      assert Less(a[0].key, a[i + 1].key);
    }
  }

  /** Two sorted sequences holding the same entries are the same sequence. */
  lemma {:induction false} SortedUnique(a: seq<Entry>, b: seq<Entry>)
    requires Sorted(a) && Sorted(b) && forall x :: x in a <==> x in b
    ensures a == b
  {
    assert a != [] ==> a[0] in a;
    assert b != [] ==> b[0] in b;
    if a != [] {
      SortedHead(a, b);
      forall x ensures x in a[1..] <==> x in b[1..] {
        SortedTail(a, x);
        SortedTail(b, x);
      }
      SortedUnique(a[1..], b[1..]);
      assert a == [a[0]] + a[1..] && b == [b[0]] + b[1..];
    }
  }

  lemma SortedHead(a: seq<Entry>, b: seq<Entry>)
    requires Sorted(a) && Sorted(b) && a != [] && b != [] && forall x :: x in a <==> x in b
    ensures a[0] == b[0]
  {
    assert a[0] in b && b[0] in a;
    var i :| 0 <= i < |b| && b[i] == a[0];
    var j :| 0 <= j < |a| && a[j] == b[0];
    if i > 0 && j > 0 {
      LessTransitive(a[0].key, b[0].key, a[0].key);
      LessIrreflexive(a[0].key);
    }
  }
}
