/** Sums over rows grouped by an owner. */
module GroupedSum {
  import opened Common
  import opened JsonString

  /** The rows of one owner, in order. */
  function Of<T>(rows: seq<T>, owner: T -> Option<Text>, id: Text): seq<T> {
    if rows == [] then []
    else Of(rows[..|rows| - 1], owner, id) + (if owner(rows[|rows| - 1]) == Some(id) then [rows[|rows| - 1]] else [])
  }

  /** The rows that have an owner, in order. */
  function Owned<T>(rows: seq<T>, owner: T -> Option<Text>): seq<T> {
    if rows == [] then []
    else Owned(rows[..|rows| - 1], owner) + (if owner(rows[|rows| - 1]).Some? then [rows[|rows| - 1]] else [])
  }

  function Total<T>(rows: seq<T>, weight: T -> int): int {
    if rows == [] then 0 else Total(rows[..|rows| - 1], weight) + weight(rows[|rows| - 1])
  }

  /** The totals of the owners' groups, added up. */
  function Groups<T>(ids: seq<Text>, rows: seq<T>, owner: T -> Option<Text>, weight: T -> int): int {
    if ids == [] then 0
    else Groups(ids[..|ids| - 1], rows, owner, weight) + Total(Of(rows, owner, ids[|ids| - 1]), weight)
  }

  lemma TotalSnoc<T>(rows: seq<T>, row: T, weight: T -> int)
    ensures Total(rows + [row], weight) == Total(rows, weight) + weight(row)
  {
    assert (rows + [row])[..|rows|] == rows;
  }

  lemma OfSnoc<T>(rows: seq<T>, row: T, owner: T -> Option<Text>, id: Text)
    ensures Of(rows + [row], owner, id) == if owner(row) == Some(id) then Of(rows, owner, id) + [row]
            else Of(rows, owner, id)
  {
    assert (rows + [row])[..|rows|] == rows;
  }

  lemma OwnedSnoc<T>(rows: seq<T>, row: T, owner: T -> Option<Text>)
    ensures Owned(rows + [row], owner) == if owner(row).Some? then Owned(rows, owner) + [row] else Owned(rows, owner)
  {
    assert (rows + [row])[..|rows|] == rows;
  }

  /** What one more row adds to its owner's group, and to no other. */
  lemma GroupSnoc<T>(rows: seq<T>, row: T, owner: T -> Option<Text>, weight: T -> int, id: Text)
    ensures Total(Of(rows + [row], owner, id), weight)
         == Total(Of(rows, owner, id), weight) + if owner(row) == Some(id) then weight(row) else 0
  {
    hide Total, Of;
    OfSnoc(rows, row, owner, id);
    TotalSnoc(Of(rows, owner, id), row, weight);
  }

  lemma {:induction false} GroupsSnoc<T>(ids: seq<Text>, rows: seq<T>, row: T, owner: T -> Option<Text>,
      weight: T -> int)
    requires Distinct(ids)
    ensures Groups(ids, rows + [row], owner, weight)
         == Groups(ids, rows, owner, weight) + if owner(row).Some? && owner(row).value in ids then weight(row) else 0
  {
    hide Total, Of;
    if ids != [] {
      var init, id := ids[..|ids| - 1], ids[|ids| - 1];
      GroupsSnoc(init, rows, row, owner, weight);
      GroupSnoc(rows, row, owner, weight, id);
      assert ids == init + [id] && id !in init;
    }
  }

  lemma {:induction false} GroupsOfNothing<T>(ids: seq<Text>, owner: T -> Option<Text>, weight: T -> int)
    ensures Groups(ids, [], owner, weight) == 0
  {
    if ids != [] {
      GroupsOfNothing(ids[..|ids| - 1], owner, weight);
    }
  }

  /** Grouping loses and repeats nothing: the groups of distinct owners that cover every owned row
      add up to the total of the owned rows. */
  lemma {:induction false} GroupsAddUp<T>(ids: seq<Text>, rows: seq<T>, owner: T -> Option<Text>, weight: T -> int)
    requires Distinct(ids)
    requires forall i | 0 <= i < |rows| && owner(rows[i]).Some? :: owner(rows[i]).value in ids
    ensures Groups(ids, rows, owner, weight) == Total(Owned(rows, owner), weight)
    decreases |rows|, 1
  {
    if rows == [] {
      GroupsOfNothing(ids, owner, weight);
    } else {
      var init, row := rows[..|rows| - 1], rows[|rows| - 1];
      assert rows == init + [row];
      AddUpSnoc(ids, init, row, owner, weight);
    }
  }

  lemma {:induction false} AddUpSnoc<T>(ids: seq<Text>, init: seq<T>, row: T, owner: T -> Option<Text>,
      weight: T -> int)
    requires Distinct(ids)
    requires forall i | 0 <= i < |init + [row]| && owner((init + [row])[i]).Some? ::
             owner((init + [row])[i]).value in ids
    ensures Groups(ids, init + [row], owner, weight) == Total(Owned(init + [row], owner), weight)
    decreases |init|, 2
  {
    hide Groups, Total, Owned;
    var rows := init + [row];
    assert forall i | 0 <= i < |init| :: rows[i] == init[i];
    assert rows[|init|] == row;
    GroupsAddUp(ids, init, owner, weight);
    GroupsSnoc(ids, init, row, owner, weight);
    OwnedSnoc(init, row, owner);
    TotalSnoc(Owned(init, owner), row, weight);
  }

  lemma {:induction false} AllOwned<T>(rows: seq<T>, owner: T -> Option<Text>)
    requires forall i | 0 <= i < |rows| :: owner(rows[i]).Some?
    ensures Owned(rows, owner) == rows
  {
    if rows != [] {
      AllOwned(rows[..|rows| - 1], owner);
    }
  }

  lemma {:induction false} OfMembers<T>(rows: seq<T>, owner: T -> Option<Text>, id: Text)
    ensures forall row :: row in Of(rows, owner, id) <==> row in rows && owner(row) == Some(id)
  {
    if rows != [] {
      OfMembers(rows[..|rows| - 1], owner, id);
      assert rows == rows[..|rows| - 1] + [rows[|rows| - 1]];
    }
  }

  // Distinct keys of grouped rows

  function Keys<T(==)>(rows: seq<T>, key: T -> Text): set<Text> { set row | row in rows :: key(row) }

  /** The keys of the rows whose owner is among `ids`. */
  function KeysUnder<T(==)>(ids: seq<Text>, rows: seq<T>, owner: T -> Option<Text>, key: T -> Text): set<Text> {
    set row | row in rows && owner(row).Some? && owner(row).value in ids :: key(row)
  }

  function KeyCounts<T(==)>(ids: seq<Text>, rows: seq<T>, owner: T -> Option<Text>, key: T -> Text): nat {
    if ids == [] then 0
    else KeyCounts(ids[..|ids| - 1], rows, owner, key) + |Keys(Of(rows, owner, ids[|ids| - 1]), key)|
  }

  /** Two rows under different owners among `ids` have the same key. */
  ghost predicate Shared<T(!new)>(ids: seq<Text>, rows: seq<T>, owner: T -> Option<Text>, key: T -> Text) {
    exists a, b | a in rows && b in rows ::
      owner(a).Some? && owner(b).Some? && owner(a).value in ids && owner(b).value in ids && owner(a) != owner(b)
          && key(a) == key(b)
  }

  lemma SetSizes(a: set<Text>, b: set<Text>)
    ensures |a + b| + |a * b| == |a| + |b|
  {
    assert a + b == a + (b - a);
    assert b == (b - a) + a * b;
  }

  /** The owners' key counts add up to at least the number of distinct keys, and to exactly that
      number when no key is found under two owners. */
  lemma {:induction false} KeyCountsCover<T(!new)>(ids: seq<Text>, rows: seq<T>, owner: T -> Option<Text>,
      key: T -> Text)
    requires Distinct(ids)
    ensures |KeysUnder(ids, rows, owner, key)| <= KeyCounts(ids, rows, owner, key)
    ensures |KeysUnder(ids, rows, owner, key)| == KeyCounts(ids, rows, owner, key) <==> !Shared(ids, rows, owner, key)
  {
    if ids == [] {
      assert KeysUnder(ids, rows, owner, key) == {};
    } else {
      var init, id := ids[..|ids| - 1], ids[|ids| - 1];
      var a, b := KeysUnder(init, rows, owner, key), Keys(Of(rows, owner, id), key);
      KeyCountsCover(init, rows, owner, key);
      OfMembers(rows, owner, id);
      assert ids == init + [id];
      assert KeysUnder(ids, rows, owner, key) == a + b;
      SetSizes(a, b);
      SharedSnoc(init, id, rows, owner, key);
      assert a * b == {} <==> |a * b| == 0;
    }
  }

  lemma SharedSnoc<T(!new)>(init: seq<Text>, id: Text, rows: seq<T>, owner: T -> Option<Text>, key: T -> Text)
    requires id !in init
    ensures Shared(init + [id], rows, owner, key) <==>
            Shared(init, rows, owner, key) || KeysUnder(init, rows, owner, key) * Keys(Of(rows, owner, id), key) != {}
  {
    OfMembers(rows, owner, id);
    var a, b := KeysUnder(init, rows, owner, key), Keys(Of(rows, owner, id), key);
    if x :| x in a * b {
      var r :| r in rows && owner(r).Some? && owner(r).value in init && key(r) == x;
      var s :| s in Of(rows, owner, id) && key(s) == x;
      assert s in rows && owner(r) != owner(s);
    }
    if Shared(init + [id], rows, owner, key) {
      var r, s :| r in rows && s in rows && owner(r).Some? && owner(s).Some? && owner(r).value in init + [id]
                  && owner(s).value in init + [id] && owner(r) != owner(s) && key(r) == key(s);
      if owner(r).value == id {
        assert key(s) in a * b;
      } else if owner(s).value == id {
        assert key(r) in a * b;
      }
    }
  }

  function Image<A(!new), B(==)>(s: set<A>, f: A -> B): set<B> { set x | x in s :: f(x) }

  /** The image of a set is as large as the set exactly when no two elements share their image. */
  lemma {:induction false} ImageSize<A(!new), B>(s: set<A>, f: A -> B)
    ensures |Image(s, f)| <= |s|
    ensures |Image(s, f)| == |s| <==> forall x, y | x in s && y in s && f(x) == f(y) :: x == y
    decreases s, 1
  {
    if s == {} {
      assert Image(s, f) == {};
    } else {
      ImageStep(s, f);
    }
  }

  lemma {:induction false} ImageStep<A(!new), B>(s: set<A>, f: A -> B)
    requires s != {}
    ensures |Image(s, f)| <= |s|
    ensures |Image(s, f)| == |s| <==> forall x, y | x in s && y in s && f(x) == f(y) :: x == y
    decreases s, 0
  {
    hide Image;
    var e :| e in s;
    var rest := s - {e};
    ImageSize(rest, f);
    ImageAdds(rest, e, f);
    assert s == rest + {e};
    if f(e) in Image(rest, f) {
      var x :| x in rest && f(x) == f(e);
      assert x != e;
    }
  }

  lemma ImageAdds<A(!new), B>(rest: set<A>, e: A, f: A -> B)
    ensures Image(rest + {e}, f) == Image(rest, f) + {f(e)}
    ensures f(e) in Image(rest, f) <==> exists x | x in rest :: f(x) == f(e)
    ensures |Image(rest + {e}, f)| == |Image(rest, f)| + if f(e) in Image(rest, f) then 0 else 1
  {
    assert Image(rest + {e}, f) == Image(rest, f) + {f(e)};
  }
}
