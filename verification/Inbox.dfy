/** The paginated notification inbox: merging pages, optimistic reads and their rollback, the
    load-more chain and its request frontier. */
module Inbox {
  import opened Common

  datatype Item = Item(id: string, readAt: Option<string>, content: string)

  datatype State = State(items: seq<Item>, nextCursor: Option<string>, unreadCount: int, loadingMore: bool)

  datatype Page = Page(items: seq<Item>, nextCursor: Option<string>, unreadCount: int)

  datatype PendingRead = PendingRead(eventId: string, optimisticReadAt: string, previousReadAt: Option<string>,
      countedUnread: bool)

  /** A value JavaScript treats as true. */
  predicate Truthy(readAt: Option<string>) { readAt.Some? && readAt.value != "" }

  predicate HasId(items: seq<Item>, id: string) { exists i | 0 <= i < |items| :: items[i].id == id }

  predicate UniqueIds(items: seq<Item>) {
    forall i, j | 0 <= i < j < |items| :: items[i].id != items[j].id
  }

  function IndexOf(items: seq<Item>, id: string): (i: nat)
    requires HasId(items, id)
    ensures i < |items| && items[i].id == id && forall k | 0 <= k < i :: items[k].id != id
  {
    if items[0].id == id then 0 else 1 + IndexOf(items[1..], id)
  }

  // Merging

  /** `t` shows every id of `all` once, by its first item and in first-seen order. */
  ghost predicate FirstSeen(all: seq<Item>, t: seq<Item>) {
    && (forall x :: HasId(t, x) <==> HasId(all, x))
    && (forall i | 0 <= i < |t| :: HasId(all, t[i].id) && t[i] == all[IndexOf(all, t[i].id)])
    && (forall i, j | 0 <= i < j < |t| && HasId(all, t[i].id) && HasId(all, t[j].id) ::
          IndexOf(all, t[i].id) < IndexOf(all, t[j].id))
  }

  /** The items of `more` appended to `items`, each id once. */
  function Onto(items: seq<Item>, more: seq<Item>): seq<Item>
    decreases |more|
  {
    if more == [] then items
    else Onto(if HasId(items, more[0].id) then items else items + [more[0]], more[1..])
  }

  /** `mergeNotificationItems`. */
  method MergeItems(primary: seq<Item>, secondary: seq<Item>) returns (merged: seq<Item>)
    ensures merged == Onto(Onto([], primary), secondary)
    ensures UniqueIds(merged) && FirstSeen(primary + secondary, merged)
    ensures forall x :: HasId(merged, x) <==> HasId(primary, x) || HasId(secondary, x)
  {
    hide HasId;
    var all := primary + secondary;
    var seen: set<string> := {};
    merged := [];
    assert all[0..] == all && all[..0] == [];
    NoIds();
    for k := 0 to |all|
      invariant Onto(merged, all[k..]) == Onto([], all)
      invariant forall id :: id in seen <==> HasId(merged, id)
      invariant UniqueIds(merged)
      invariant forall id :: HasId(merged, id) <==> HasId(all[..k], id)
    {
      var item := all[k];
      assert all[k..][1..] == all[k + 1..];
      assert all[..k + 1] == all[..k] + [item];
      SnocHasId(all[..k], item);
      SnocHasId(merged, item);
      UniqueSnoc(merged, item);
      if item.id !in seen {
        seen := seen + {item.id};
        merged := merged + [item];
      }
    }
    assert all[..|all|] == all;
    OntoConcat([], primary, secondary);
    OntoFirstSeen(primary, secondary);
    ConcatHasId(primary, secondary);
  }

  lemma OntoFirstSeen(a: seq<Item>, b: seq<Item>)
    ensures FirstSeen(a + b, Onto(Onto([], a), b))
  {
    hide FirstSeen;
    NothingSeen();
    OntoSees([], [], a);
    assert [] + a == a;
    OntoSees(a, Onto([], a), b);
  }

  lemma NothingSeen()
    ensures FirstSeen([], [])
  {
  }

  lemma {:induction false} OntoSees(all: seq<Item>, t: seq<Item>, more: seq<Item>)
    requires FirstSeen(all, t)
    ensures FirstSeen(all + more, Onto(t, more))
    decreases |more|
  {
    hide FirstSeen, HasId;
    if more == [] {
      assert all + more == all;
    } else {
      SeeNext(all, t, more[0]);
      OntoSees(all + [more[0]], if HasId(t, more[0].id) then t else t + [more[0]], more[1..]);
      assert all + [more[0]] + more[1..] == all + more;
    }
  }

  lemma SeeNext(all: seq<Item>, t: seq<Item>, item: Item)
    requires FirstSeen(all, t)
    ensures FirstSeen(all + [item], if HasId(t, item.id) then t else t + [item])
  {
    if HasId(t, item.id) {
      SeeKnown(all, t, item);
    } else {
      SeeNew(all, t, item);
    }
  }

  lemma SeeKnown(all: seq<Item>, t: seq<Item>, item: Item)
    requires FirstSeen(all, t) && HasId(t, item.id)
    ensures FirstSeen(all + [item], t)
  {
    SnocHasId(all, item);
    forall i | 0 <= i < |t|
      ensures HasId(all + [item], t[i].id) && t[i] == (all + [item])[IndexOf(all + [item], t[i].id)]
      ensures IndexOf(all + [item], t[i].id) == IndexOf(all, t[i].id)
    {
      SeeAt(all, t, item, i);
    }
    hide HasId, IndexOf;
  }

  lemma SeeNew(all: seq<Item>, t: seq<Item>, item: Item)
    requires FirstSeen(all, t) && !HasId(t, item.id)
    ensures FirstSeen(all + [item], t + [item])
  {
    SnocHasId(all, item);
    SnocHasId(t, item);
    forall i | 0 <= i <= |t|
      ensures var more, u := all + [item], t + [item];
              HasId(more, u[i].id) && u[i] == more[IndexOf(more, u[i].id)]
              && IndexOf(more, u[i].id) == (if i < |t| then IndexOf(all, t[i].id) else |all|)
    {
      SeeAt(all, t, item, i);
    }
    hide HasId, IndexOf;
  }

  lemma SeeAt(all: seq<Item>, t: seq<Item>, item: Item, i: nat)
    requires FirstSeen(all, t) && i <= |t| && (i == |t| ==> !HasId(t, item.id))
    ensures var more, u := all + [item], t + [item];
            HasId(more, u[i].id) && u[i] == more[IndexOf(more, u[i].id)]
            && IndexOf(more, u[i].id) == (if i < |t| then IndexOf(all, t[i].id) else |all|)
  {
    hide HasId, IndexOf;
    SnocHasId(all, item);
    if i < |t| {
      assert HasId(all, t[i].id);
      SnocIndex(all, item, t[i].id);
    } else {
      SnocIndex(all, item, item.id);
    }
  }

  lemma SnocIndex(all: seq<Item>, item: Item, x: string)
    requires HasId(all + [item], x)
    ensures IndexOf(all + [item], x) == if HasId(all, x) then IndexOf(all, x) else |all|
  {
    var more, i := all + [item], IndexOf(all + [item], x);
    if HasId(all, x) {
      assert more[IndexOf(all, x)].id == x;
      assert i < |all| ==> all[i].id == x;
    } else {
      assert forall k | 0 <= k < |all| :: all[k].id != x && more[k] == all[k];
    }
  }

  lemma NoIds()
    ensures forall id :: !HasId([], id)
  {
  }

  lemma UniqueSnoc(items: seq<Item>, item: Item)
    requires UniqueIds(items)
    ensures UniqueIds(items + [item]) <==> !HasId(items, item.id)
  {
    var t := items + [item];
    assert forall i | 0 <= i < |items| :: t[i] == items[i];
    assert t[|items|] == item;
  }

  lemma SnocHasId(items: seq<Item>, item: Item)
    ensures forall id :: HasId(items + [item], id) <==> HasId(items, id) || item.id == id
  {
    ConcatHasId(items, [item]);
    assert forall id :: HasId([item], id) <==> [item][0].id == id;
  }

  lemma ConcatHasId(a: seq<Item>, b: seq<Item>)
    ensures forall id :: HasId(a + b, id) <==> HasId(a, id) || HasId(b, id)
  {
    forall id ensures HasId(a + b, id) <==> HasId(a, id) || HasId(b, id) {
      if HasId(a + b, id) {
        var i :| 0 <= i < |a + b| && (a + b)[i].id == id;
        if i < |a| { assert a[i].id == id; } else { assert b[i - |a|].id == id; }
      }
      if HasId(a, id) {
        var i :| 0 <= i < |a| && a[i].id == id;
        assert (a + b)[i].id == id;
      }
      if HasId(b, id) {
        var i :| 0 <= i < |b| && b[i].id == id;
        assert (a + b)[|a| + i].id == id;
      }
    }
  }

  lemma {:induction false} OntoConcat(items: seq<Item>, a: seq<Item>, b: seq<Item>)
    ensures Onto(items, a + b) == Onto(Onto(items, a), b)
    decreases |a|
  {
    if a == [] {
      assert a + b == b;
    } else {
      assert (a + b)[1..] == a[1..] + b;
      OntoConcat(if HasId(items, a[0].id) then items else items + [a[0]], a[1..], b);
    }
  }

  /** What `Onto` adds: new ids only, each once. */
  lemma {:induction false} OntoAdds(items: seq<Item>, more: seq<Item>)
    ensures items <= Onto(items, more)
    ensures UniqueIds(items) ==> UniqueIds(Onto(items, more))
    ensures forall i | |items| <= i < |Onto(items, more)| :: !HasId(items, Onto(items, more)[i].id)
    decreases |more|
  {
    if more != [] {
      var next := if HasId(items, more[0].id) then items else items + [more[0]];
      OntoAdds(next, more[1..]);
      SnocHasId(items, more[0]);
    }
  }

  lemma {:induction false} OntoKnown(items: seq<Item>, more: seq<Item>)
    requires forall i | 0 <= i < |more| :: HasId(items, more[i].id)
    ensures Onto(items, more) == items
    decreases |more|
  {
    if more != [] {
      assert HasId(items, more[0].id);
      OntoKnown(items, more[1..]);
    }
  }

  lemma {:induction false} OntoFresh(items: seq<Item>, more: seq<Item>)
    requires UniqueIds(more) && forall i | 0 <= i < |more| :: !HasId(items, more[i].id)
    ensures Onto(items, more) == items + more
    decreases |more|
  {
    hide HasId;
    if more != [] {
      assert !HasId(items, more[0].id);
      var next := items + [more[0]];
      SnocHasId(items, more[0]);
      forall i | 0 <= i < |more[1..]| ensures !HasId(next, more[1..][i].id) {
        assert more[1..][i] == more[i + 1] && more[0].id != more[i + 1].id;
      }
      OntoFresh(next, more[1..]);
      assert next + more[1..] == items + more;
    }
  }

  // Optimistic reads

  /** `pendingById.get(id)`: the last pending read of that id. */
  function PendingOf(pending: seq<PendingRead>, id: string): Option<PendingRead> {
    if pending == [] then None
    else if pending[|pending| - 1].eventId == id then Some(pending[|pending| - 1])
    else PendingOf(pending[..|pending| - 1], id)
  }

  /** The last pending read of an id wins. */
  lemma {:induction false} PendingOfIsLast(pending: seq<PendingRead>, id: string)
    ensures PendingOf(pending, id).None? <==> forall k | 0 <= k < |pending| :: pending[k].eventId != id
    ensures PendingOf(pending, id).Some? ==>
              exists k | 0 <= k < |pending| :: PendingOf(pending, id) == Some(pending[k]) && pending[k].eventId == id
                                               && forall l | k < l < |pending| :: pending[l].eventId != id
  {
    if pending != [] {
      var n := |pending| - 1;
      PendingOfIsLast(pending[..n], id);
      if pending[n].eventId != id && PendingOf(pending[..n], id).Some? {
        var k :| 0 <= k < n && PendingOf(pending[..n], id) == Some(pending[..n][k]) && pending[..n][k].eventId == id
                 && forall l | k < l < n :: pending[..n][l].eventId != id;
        assert pending[k] == pending[..n][k];
        forall l | k < l < |pending| ensures pending[l].eventId != id {
          assert l < n ==> pending[l] == pending[..n][l];
        }
      }
    }
  }

  /** The item shows the mark of its pending read. */
  predicate ShowsMark(pending: seq<PendingRead>, item: Item) {
    var p := PendingOf(pending, item.id);
    p.Some? && p.value.countedUnread && item.readAt == Some(p.value.optimisticReadAt)
  }

  /** What the server sent, and what is shown of it: an unread item with a pending read shows its mark,
      everything else is as it was sent. */
  predicate ShownAs(pending: seq<PendingRead>, sent: Item, shown: Item) {
    var p := PendingOf(pending, sent.id);
    if p.Some? && p.value.countedUnread && (sent.readAt == None || sent.readAt == Some(""))
    then shown == sent.(readAt := Some(p.value.optimisticReadAt))
    else shown == sent
  }

  /** The items shown of two lists: every id once, by its first item and in first-seen order. */
  ghost predicate Shows(pending: seq<PendingRead>, all: seq<Item>, shown: seq<Item>) {
    exists merged :: FirstSeen(all, merged) && UniqueIds(merged) && |shown| == |merged|
                     && forall i | 0 <= i < |merged| :: ShownAs(pending, merged[i], shown[i])
  }

  /** The unread count: the server's, less the items that show a pending read. */
  ghost predicate CountsUnread(pending: seq<PendingRead>, shown: seq<Item>, sent: int, unread: int) {
    var marks := set i | 0 <= i < |shown| && ShowsMark(pending, shown[i]);
    unread == if pending == [] || sent >= |marks| then sent - |marks| else 0
  }

  lemma ProjectShows(pending: seq<PendingRead>, a: seq<Item>, b: seq<Item>, sent: int)
    requires sent >= 0
    ensures var merged := Onto(Onto([], a), b);
            Shows(pending, a + b, Project(pending, merged))
            && CountsUnread(pending, Project(pending, merged), sent, UnreadAfter(pending, merged, sent))
  {
    var merged := Onto(Onto([], a), b);
    OntoFirstSeen(a, b);
    NothingRepeated();
    OntoAdds([], a);
    OntoAdds(Onto([], a), b);
    MarksCounted(pending, merged);
    hide FirstSeen, UniqueIds, CountUnread, Onto, PendingOf;
    if pending == [] {
      NoMarks(Project(pending, merged));
    }
  }

  lemma NoMarks(shown: seq<Item>)
    ensures forall i | 0 <= i < |shown| :: !ShowsMark([], shown[i])
  {
  }

  lemma {:induction false} MarksCounted(pending: seq<PendingRead>, items: seq<Item>)
    ensures var shown := Project(pending, items);
            |set i | 0 <= i < |shown| && ShowsMark(pending, shown[i])| == CountUnread(pending, items)
  {
    hide ShowsMark, Counted;
    var shown := Project(pending, items);
    if items != [] {
      var n := |items| - 1;
      var rest := Project(pending, items[..n]);
      MarksCounted(pending, items[..n]);
      MarkIffCounted(pending, items[n]);
      var marks := set i | 0 <= i < |rest| && ShowsMark(pending, rest[i]);
      assert forall i | 0 <= i < n :: rest[i] == shown[i];
      assert (set i | 0 <= i < |shown| && ShowsMark(pending, shown[i]))
          == if Counted(pending, items[n]) then marks + {n} else marks;
    }
  }

  lemma MarkIffCounted(pending: seq<PendingRead>, item: Item)
    ensures ShowsMark(pending, ProjectItem(pending, item)) <==> Counted(pending, item)
  {
  }

  /** The item counts as read by a pending read. */
  predicate Counted(pending: seq<PendingRead>, item: Item) {
    var p := PendingOf(pending, item.id);
    p.Some? && p.value.countedUnread && !(Truthy(item.readAt) && item.readAt != Some(p.value.optimisticReadAt))
  }

  function ProjectItem(pending: seq<PendingRead>, item: Item): Item {
    if Counted(pending, item) then item.(readAt := Some(PendingOf(pending, item.id).value.optimisticReadAt)) else item
  }

  function Project(pending: seq<PendingRead>, items: seq<Item>): (r: seq<Item>)
    ensures |r| == |items| && forall i | 0 <= i < |r| :: r[i] == ProjectItem(pending, items[i])
  {
    seq(|items|, i requires 0 <= i < |items| => ProjectItem(pending, items[i]))
  }

  function CountUnread(pending: seq<PendingRead>, items: seq<Item>): nat {
    if items == [] then 0
    else CountUnread(pending, items[..|items| - 1]) + (if Counted(pending, items[|items| - 1]) then 1 else 0)
  }

  function UnreadAfter(pending: seq<PendingRead>, items: seq<Item>, unread: int): int {
    if pending == [] then unread else Max(0, unread - CountUnread(pending, items))
  }

  /** Marking an item read optimistically a second time changes nothing and counts it again. */
  lemma ProjectTwice(pending: seq<PendingRead>, item: Item)
    ensures ProjectItem(pending, ProjectItem(pending, item)) == ProjectItem(pending, item)
    ensures Counted(pending, ProjectItem(pending, item)) == Counted(pending, item)
    ensures ProjectItem(pending, item).id == item.id
  {
  }

  lemma {:induction false} SameCount(pending: seq<PendingRead>, a: seq<Item>, b: seq<Item>)
    requires |a| == |b| && forall i | 0 <= i < |a| :: Counted(pending, a[i]) == Counted(pending, b[i])
    ensures CountUnread(pending, a) == CountUnread(pending, b)
  {
    if a != [] {
      SameCount(pending, a[..|a| - 1], b[..|b| - 1]);
    }
  }

  // Pages

  function MergeFirstPage(current: State, page: Page, preserveCursor: bool, pending: seq<PendingRead>): State {
    var merged := Onto(Onto([], page.items), current.items);
    State(Project(pending, merged), if preserveCursor then current.nextCursor else page.nextCursor,
          UnreadAfter(pending, merged, page.unreadCount), false)
  }

  function AppendPage(
    current: State, page: Page, requested: string, requestedCursors: set<string>, pending: seq<PendingRead>): State
  {
    var merged := Onto(Onto([], current.items), page.items);
    var next := if Truthy(page.nextCursor) && page.nextCursor.value != requested
        && page.nextCursor.value !in requestedCursors
                then page.nextCursor else None;
    State(Project(pending, merged), next, UnreadAfter(pending, merged, page.unreadCount), false)
  }

  /** Merging the same first page again, under any pending reads, changes nothing. */
  lemma FirstPageIdempotent(current: State, page: Page, preserveCursor: bool, pending: seq<PendingRead>)
    ensures var once := MergeFirstPage(current, page, preserveCursor, pending);
            MergeFirstPage(once, page, preserveCursor, pending) == once
  {
    var head := Onto([], page.items);
    var merged := Onto(head, current.items);
    var again := Onto(head, Project(pending, merged));
    OntoAdds([], page.items);
    OntoAdds(head, current.items);
    MergeProjected(pending, head, merged);
    forall i | 0 <= i < |merged|
      ensures ProjectItem(pending, again[i]) == ProjectItem(pending, merged[i])
      ensures Counted(pending, again[i]) == Counted(pending, merged[i])
    {
      ProjectTwice(pending, merged[i]);
    }
    SameCount(pending, again, merged);
    assert Project(pending, again) == Project(pending, merged);
  }

  /** The projected merge gives back the page's items as they are, then the projected older items. */
  lemma MergeProjected(pending: seq<PendingRead>, head: seq<Item>, merged: seq<Item>)
    requires UniqueIds(merged) && head <= merged
    ensures Onto(head, Project(pending, merged)) == head + Project(pending, merged)[|head|..]
  {
    var p, n := Project(pending, merged), |head|;
    forall i | 0 <= i < |merged| ensures p[i].id == merged[i].id {
      ProjectTwice(pending, merged[i]);
    }
    MergeRelabelled(head, merged, p);
  }

  lemma MergeRelabelled(head: seq<Item>, merged: seq<Item>, p: seq<Item>)
    requires UniqueIds(merged) && head <= merged && |p| == |merged|
             && forall i | 0 <= i < |p| :: p[i].id == merged[i].id
    ensures Onto(head, p) == head + p[|head|..]
  {
    var n := |head|;
    assert forall k | 0 <= k < n :: head[k] == merged[k];
    assert p == p[..n] + p[n..];
    OntoConcat(head, p[..n], p[n..]);
    forall i | 0 <= i < n ensures HasId(head, p[..n][i].id) {
      assert head[i].id == p[i].id;
    }
    OntoKnown(head, p[..n]);
    forall i | 0 <= i < |p[n..]| ensures !HasId(head, p[n..][i].id) {
      assert p[n..][i].id == merged[n + i].id;
    }
    assert UniqueIds(p[n..]) by {
      forall i, j | 0 <= i < j < |p[n..]| ensures p[n..][i].id != p[n..][j].id {
        assert merged[n + i].id != merged[n + j].id;
      }
    }
    OntoFresh(head, p[n..]);
  }

  /** A merge loses no id and shows every id once, the first page's items first and in their order,
      marks nothing without a pending read, and never shows a negative unread count. */
  lemma MergeShape(current: State, page: Page, preserveCursor: bool, pending: seq<PendingRead>)
    requires page.unreadCount >= 0
    ensures var s := MergeFirstPage(current, page, preserveCursor, pending);
            UniqueIds(s.items) && 0 <= s.unreadCount <= page.unreadCount
            && |Onto([], page.items)| <= |s.items|
            && (forall i | 0 <= i < |Onto([], page.items)| :: s.items[i].id == Onto([], page.items)[i].id)
            && (forall x :: HasId(s.items, x) <==> HasId(page.items, x) || HasId(current.items, x))
            && (forall i | 0 <= i < |s.items| && PendingOf(pending, s.items[i].id).None? ::
                  s.items[i] in page.items || s.items[i] in current.items)
            && (pending == [] ==> s.unreadCount == page.unreadCount)
            && s.nextCursor == (if preserveCursor then current.nextCursor else page.nextCursor)
            && Shows(pending, page.items + current.items, s.items)
            && CountsUnread(pending, s.items, page.unreadCount, s.unreadCount) && !s.loadingMore
  {
    ProjectShows(pending, page.items, current.items, page.unreadCount);
    hide HasId, CountUnread, UniqueIds, ProjectItem, Shows, CountsUnread;
    NoIds();
    OntoAdds([], page.items);
    OntoAdds(Onto([], page.items), current.items);
    OntoMembers([], page.items);
    OntoMembers(Onto([], page.items), current.items);
    var merged := Onto(Onto([], page.items), current.items);
    ProjectKeepsIds(pending, merged);
    SameIds(Project(pending, merged), merged);
    forall i | 0 <= i < |merged| && PendingOf(pending, merged[i].id).None?
      ensures Project(pending, merged)[i] == merged[i]
    {
      Unmarked(pending, merged[i]);
    }
    assert UniqueIds([]) by { NothingRepeated(); }
  }

  lemma NothingRepeated()
    ensures UniqueIds([])
  {
  }

  lemma Unmarked(pending: seq<PendingRead>, item: Item)
    requires PendingOf(pending, item.id).None?
    ensures ProjectItem(pending, item) == item
  {
  }

  lemma SameIds(a: seq<Item>, b: seq<Item>)
    requires |a| == |b| && forall i | 0 <= i < |a| :: a[i].id == b[i].id
    ensures forall x :: HasId(a, x) <==> HasId(b, x)
  {
    forall x ensures HasId(a, x) <==> HasId(b, x) {
      if HasId(a, x) {
        assert b[IndexOf(a, x)].id == x;
      }
      if HasId(b, x) {
        assert a[IndexOf(b, x)].id == x;
      }
    }
  }

  /** `Onto` holds the items of both lists, none invented, no id lost. */
  lemma {:induction false} OntoMembers(items: seq<Item>, more: seq<Item>)
    ensures forall x :: HasId(Onto(items, more), x) <==> HasId(items, x) || HasId(more, x)
    ensures forall item | item in Onto(items, more) :: item in items || item in more
    decreases |more|
  {
    hide HasId;
    NoIds();
    if more != [] {
      var next := if HasId(items, more[0].id) then items else items + [more[0]];
      OntoMembers(next, more[1..]);
      SnocHasId(items, more[0]);
      assert more == [more[0]] + more[1..];
      ConcatHasId([more[0]], more[1..]);
      SnocHasId([], more[0]);
      assert [] + [more[0]] == [more[0]];
    }
  }

  /** Appending an older page keeps what is shown in its order, adds the page's new ids after it in the
      page's order, and offers its cursor exactly when it is not empty and was not asked for before. */
  lemma AppendShape(current: State, page: Page, requested: string, requestedCursors: set<string>,
      pending: seq<PendingRead>)
    requires page.unreadCount >= 0 && UniqueIds(current.items)
    ensures var s := AppendPage(current, page, requested, requestedCursors, pending);
            UniqueIds(s.items) && s.unreadCount >= 0 && |current.items| <= |s.items|
            && (forall i | 0 <= i < |current.items| :: s.items[i] == ProjectItem(pending, current.items[i]))
            && (forall i | |current.items| <= i < |s.items| :: !HasId(current.items, s.items[i].id))
            && (s.nextCursor.Some? ==>
                  s.nextCursor == page.nextCursor && s.nextCursor.value !in requestedCursors + {requested})
            && (s.nextCursor.None? <==> page.nextCursor.None? || page.nextCursor.value == ""
                                        || page.nextCursor.value in requestedCursors + {requested})
            && (forall x :: HasId(s.items, x) <==> HasId(current.items, x) || HasId(page.items, x))
            && Shows(pending, current.items + page.items, s.items)
            && CountsUnread(pending, s.items, page.unreadCount, s.unreadCount) && !s.loadingMore
  {
    AppendArrives(current, page, requested, requestedCursors, pending);
    AppendKeeps(current, page, requested, requestedCursors, pending);
    AppendCursor(current, page, requested, requestedCursors, pending);
    hide AppendPage, HasId, UniqueIds, ProjectItem, Shows, CountsUnread;
  }

  lemma AppendCursor(current: State, page: Page, requested: string, requestedCursors: set<string>,
      pending: seq<PendingRead>)
    ensures var s := AppendPage(current, page, requested, requestedCursors, pending);
            !s.loadingMore
            && (s.nextCursor.Some? ==>
                  s.nextCursor == page.nextCursor && s.nextCursor.value !in requestedCursors + {requested})
            && (s.nextCursor.None? <==> page.nextCursor.None? || page.nextCursor.value == ""
                                        || page.nextCursor.value in requestedCursors + {requested})
  {
    hide Onto, Project, UnreadAfter;
  }

  lemma AppendKeeps(current: State, page: Page, requested: string, requestedCursors: set<string>,
      pending: seq<PendingRead>)
    requires page.unreadCount >= 0 && UniqueIds(current.items)
    ensures var s := AppendPage(current, page, requested, requestedCursors, pending);
            UniqueIds(s.items) && s.unreadCount >= 0 && |current.items| <= |s.items|
            && (forall i | 0 <= i < |current.items| :: s.items[i] == ProjectItem(pending, current.items[i]))
            && (forall i | |current.items| <= i < |s.items| :: !HasId(current.items, s.items[i].id))
  {
    hide HasId, Onto, UniqueIds, CountUnread, ProjectItem;
    NoIds();
    OntoFresh([], current.items);
    assert [] + current.items == current.items;
    OntoAdds(current.items, page.items);
    ProjectKeepsIds(pending, Onto(current.items, page.items));
  }

  lemma AppendArrives(current: State, page: Page, requested: string, requestedCursors: set<string>,
      pending: seq<PendingRead>)
    requires page.unreadCount >= 0
    ensures var s := AppendPage(current, page, requested, requestedCursors, pending);
            Shows(pending, current.items + page.items, s.items)
            && CountsUnread(pending, s.items, page.unreadCount, s.unreadCount)
            && (forall x :: HasId(s.items, x) <==> HasId(current.items, x) || HasId(page.items, x))
  {
    var merged := Onto(Onto([], current.items), page.items);
    ProjectShows(pending, current.items, page.items, page.unreadCount);
    hide Onto, Shows, CountsUnread, CountUnread, HasId;
    OntoMembers([], current.items);
    OntoMembers(Onto([], current.items), page.items);
    NoIds();
    ProjectKeepsIds(pending, merged);
    SameIds(Project(pending, merged), merged);
  }

  lemma ProjectKeepsIds(pending: seq<PendingRead>, items: seq<Item>)
    ensures forall i | 0 <= i < |items| :: Project(pending, items)[i].id == items[i].id
    ensures UniqueIds(Project(pending, items)) == UniqueIds(items)
  {
    forall i | 0 <= i < |items| ensures Project(pending, items)[i].id == items[i].id {
      ProjectTwice(pending, items[i]);
    }
  }

  // One read

  function WithReadAt(items: seq<Item>, id: string, readAt: Option<string>): (r: seq<Item>)
    ensures |r| == |items|
    ensures forall i | 0 <= i < |r| :: r[i] == if items[i].id == id then items[i].(readAt := readAt) else items[i]
  {
    seq(|items|, i requires 0 <= i < |items| => if items[i].id == id then items[i].(readAt := readAt) else items[i])
  }

  function BeginRead(s: State, id: string, at: string): (State, Option<PendingRead>) {
    if !HasId(s.items, id) || Truthy(s.items[IndexOf(s.items, id)].readAt) then (s, None)
    else
      var p := PendingRead(id, at, s.items[IndexOf(s.items, id)].readAt, true);
      (s.(items := WithReadAt(s.items, id, Some(at)), unreadCount := Max(0, s.unreadCount - 1)), Some(p))
  }

  function RollbackRead(s: State, p: PendingRead): State {
    if !HasId(s.items, p.eventId) || s.items[IndexOf(s.items, p.eventId)].readAt != Some(p.optimisticReadAt) then s
    else s.(items := WithReadAt(s.items, p.eventId, p.previousReadAt),
            unreadCount := if p.countedUnread then s.unreadCount + 1 else s.unreadCount)
  }

  /** A read begins exactly for a shown id whose first item is unread; it marks every item of that id, and
      the count falls by one, not below zero. */
  lemma BeginReadIff(s: State, id: string, at: string)
    ensures var (t, p) := BeginRead(s, id, at);
            if HasId(s.items, id) && (s.items[IndexOf(s.items, id)].readAt == None
                                      || s.items[IndexOf(s.items, id)].readAt == Some(""))
            then p == Some(PendingRead(id, at, s.items[IndexOf(s.items, id)].readAt, true))
                 && |t.items| == |s.items|
                 && (forall i | 0 <= i < |s.items| ::
                       t.items[i] == s.items[i].(readAt := if s.items[i].id == id then Some(at) else s.items[i].readAt))
                 && t.unreadCount == (if s.unreadCount > 0 then s.unreadCount - 1 else 0)
                 && t.nextCursor == s.nextCursor && t.loadingMore == s.loadingMore
            else t == s && p == None
  {
  }

  /** Beginning a read and rolling it back restores the inbox exactly when something was counted as
      unread and no second item of that id had another read state. */
  lemma BeginThenRollback(s: State, id: string, at: string)
    requires s.unreadCount >= 0 && BeginRead(s, id, at).1.Some?
    ensures var (t, p) := BeginRead(s, id, at);
            RollbackRead(t, p.value) == s <==>
              s.unreadCount >= 1
              && forall i | 0 <= i < |s.items| && s.items[i].id == id :: s.items[i].readAt == p.value.previousReadAt
  {
    var (t, p) := BeginRead(s, id, at);
    var first := IndexOf(s.items, id);
    assert t.items[first].id == id;
    var found := IndexOf(t.items, id);
    assert t.items[found].readAt == Some(at);
    var back := RollbackRead(t, p.value);
    assert forall i | 0 <= i < |s.items| && s.items[i].id == id :: back.items[i].readAt == p.value.previousReadAt;
    if s.unreadCount >= 1 && forall i | 0 <= i < |s.items| && s.items[i].id == id ::
        s.items[i].readAt == p.value.previousReadAt {
      assert back.items == s.items;
    }
  }

  /** The item still shows the optimistic mark this rollback would take back. */
  predicate Marked(s: State, p: PendingRead) {
    HasId(s.items, p.eventId) && s.items[IndexOf(s.items, p.eventId)].readAt == Some(p.optimisticReadAt)
  }

  /** Rolling back one read and beginning another one commute exactly when something was counted as
      unread, or one of the two has nothing to do or to count. */
  lemma RollbackCommutesWithBegin(s: State, p: PendingRead, id: string, at: string)
    requires s.unreadCount >= 0 && p.eventId != id
    ensures (BeginRead(RollbackRead(s, p), id, at).0 == RollbackRead(BeginRead(s, id, at).0, p)) ==
            (s.unreadCount >= 1 || BeginRead(s, id, at).1.None? || !Marked(s, p) || !p.countedUnread)
  {
    hide HasId, IndexOf;
    MarkElsewhere(s.items, p.eventId, p.previousReadAt, id);
    MarkElsewhere(s.items, id, Some(at), p.eventId);
    if Marked(s, p) && BeginRead(s, id, at).1.Some? {
      var a := WithReadAt(WithReadAt(s.items, p.eventId, p.previousReadAt), id, Some(at));
      var b := WithReadAt(WithReadAt(s.items, id, Some(at)), p.eventId, p.previousReadAt);
      assert a == b;
    }
  }

  /** Changing one id leaves the first item of another id as it is. */
  lemma MarkElsewhere(items: seq<Item>, id: string, readAt: Option<string>, other: string)
    requires id != other
    ensures var t := WithReadAt(items, id, readAt);
            (HasId(t, other) <==> HasId(items, other))
            && (HasId(items, other) ==> IndexOf(t, other) == IndexOf(items, other)
                                        && t[IndexOf(t, other)] == items[IndexOf(items, other)])
  {
    var t := WithReadAt(items, id, readAt);
    forall i | 0 <= i < |items| ensures t[i].id == items[i].id {
    }
    if HasId(items, other) {
      assert t[IndexOf(items, other)].id == other;
    }
    if HasId(t, other) {
      assert items[IndexOf(t, other)].id == other;
    }
  }
}
