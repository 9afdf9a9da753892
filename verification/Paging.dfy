/** Loops that chase a cursor until the last page, for any sequence of replies. */
module Paging {
  import opened Common

  datatype Item = Item(id: string, body: string)

  datatype Page = Page(items: seq<Item>, nextCursor: Option<string>)

  /** What a request brings: a page, or an error of the transport or of the page's parser. */
  type Reply = Outcome<Page, string>

  datatype Failure = Looping | TooManyPages | RequestFailed(error: string)

  const PAGE_LIMIT := 100

  // Keyed insertion

  predicate HasId(items: seq<Item>, id: string) { exists i | 0 <= i < |items| :: items[i].id == id }

  function IndexOf(items: seq<Item>, id: string): (i: nat)
    requires HasId(items, id)
    ensures i < |items| && items[i].id == id && forall k | 0 <= k < i :: items[k].id != id
  {
    if items[0].id == id then 0 else 1 + IndexOf(items[1..], id)
  }

  /** `Map.set` by id: a known id keeps its place and takes the new value. */
  function Put(entries: seq<Item>, item: Item): seq<Item> {
    if HasId(entries, item.id) then entries[IndexOf(entries, item.id) := item] else entries + [item]
  }

  /** The entries of a map after all items were put into it in order. */
  function PutAll(items: seq<Item>): seq<Item> {
    if items == [] then [] else Put(PutAll(items[..|items| - 1]), items[|items| - 1])
  }

  function LastOf(items: seq<Item>, id: string): (item: Item)
    requires HasId(items, id)
    ensures item.id == id && item in items
  {
    if items[|items| - 1].id == id then items[|items| - 1] else LastOf(items[..|items| - 1], id)
  }

  /** Each id once, ids in the order they were first seen, each with the value last seen. */
  ghost predicate FirstSeenLastValue(entries: seq<Item>, items: seq<Item>) {
    && (forall id :: HasId(entries, id) <==> HasId(items, id))
    && (forall i, j | 0 <= i < j < |entries| :: entries[i].id != entries[j].id)
    && (forall i | 0 <= i < |entries| :: HasId(items, entries[i].id) && entries[i] == LastOf(items, entries[i].id))
    && (forall i, j | 0 <= i < j < |entries| :: HasId(items, entries[i].id) && HasId(items, entries[j].id)
          && IndexOf(items, entries[i].id) < IndexOf(items, entries[j].id))
  }

  lemma HasIdSnoc(items: seq<Item>, item: Item)
    ensures forall id :: HasId(items + [item], id) <==> HasId(items, id) || item.id == id
    ensures forall id | HasId(items, id) :: IndexOf(items + [item], id) == IndexOf(items, id)
    ensures !HasId(items, item.id) ==> IndexOf(items + [item], item.id) == |items|
  {
    var t := items + [item];
    assert t[|items|] == item && forall i | 0 <= i < |items| :: t[i] == items[i];
    forall id ensures HasId(t, id) <==> HasId(items, id) || item.id == id {
      if HasId(items, id) {
        assert t[IndexOf(items, id)].id == id;
      }
    }
    forall id | HasId(items, id) ensures IndexOf(t, id) == IndexOf(items, id) {
      var i := IndexOf(items, id);
      assert t[i].id == id && forall k | 0 <= k < i :: t[k].id != id;
    }
    if !HasId(items, item.id) {
      assert t[|items|].id == item.id;
      assert forall k | 0 <= k < |items| :: t[k].id != item.id;
    }
  }

  lemma LastOfSnoc(items: seq<Item>, item: Item, id: string)
    requires HasId(items + [item], id)
    ensures item.id == id ==> LastOf(items + [item], id) == item
    ensures item.id != id ==> HasId(items, id) && LastOf(items + [item], id) == LastOf(items, id)
  {
    assert (items + [item])[..|items|] == items;
    HasIdSnoc(items, item);
  }

  lemma PutKeeps(entries: seq<Item>, items: seq<Item>, item: Item)
    requires FirstSeenLastValue(entries, items)
    ensures FirstSeenLastValue(Put(entries, item), items + [item])
  {
    hide IndexOf, LastOf, HasId, Put;
    HasIdSnoc(items, item);
    HasIdSnoc(entries, item);
    PutIds(entries, item);
    PutValues(entries, items, item);
    PutOrder(entries, items, item);
  }

  lemma PutValues(entries: seq<Item>, items: seq<Item>, item: Item)
    requires FirstSeenLastValue(entries, items)
    ensures var t, more := Put(entries, item), items + [item];
            forall i | 0 <= i < |t| :: HasId(more, t[i].id) && t[i] == LastOf(more, t[i].id)
  {
    hide IndexOf, LastOf, HasId, Put;
    HasIdSnoc(items, item);
    PutIds(entries, item);
    var t, more := Put(entries, item), items + [item];
    forall i | 0 <= i < |t| ensures HasId(more, t[i].id) && t[i] == LastOf(more, t[i].id) {
      if i < |entries| {
        assert HasId(items, entries[i].id);
      }
      LastOfSnoc(items, item, t[i].id);
    }
  }

  lemma PutOrder(entries: seq<Item>, items: seq<Item>, item: Item)
    requires FirstSeenLastValue(entries, items)
    ensures var t, more := Put(entries, item), items + [item];
            forall i, j | 0 <= i < j < |t| ::
              t[i].id != t[j].id && HasId(more, t[i].id) && HasId(more, t[j].id)
                  && IndexOf(more, t[i].id) < IndexOf(more, t[j].id)
  {
    hide IndexOf, LastOf, HasId, Put;
    HasIdSnoc(items, item);
    PutIds(entries, item);
    var t, more := Put(entries, item), items + [item];
    forall i, j | 0 <= i < j < |t|
      ensures t[i].id != t[j].id && HasId(more, t[i].id) && HasId(more, t[j].id)
              && IndexOf(more, t[i].id) < IndexOf(more, t[j].id)
    {
      assert t[i].id == entries[i].id && HasId(items, entries[i].id);
      if j < |entries| {
        assert t[j].id == entries[j].id && HasId(items, entries[j].id);
      }
    }
  }

  /** Putting an item keeps the ids in place and adds a new one at the end. */
  lemma PutIds(entries: seq<Item>, item: Item)
    requires forall i, j | 0 <= i < j < |entries| :: entries[i].id != entries[j].id
    ensures var t := Put(entries, item);
            |t| == (if HasId(entries, item.id) then |entries| else |entries| + 1)
            && (forall i | 0 <= i < |entries| :: t[i].id == entries[i].id && (t[i] == entries[i] || t[i] == item))
            && (forall i | 0 <= i < |t| && t[i].id == item.id :: t[i] == item)
            && (!HasId(entries, item.id) ==>
                  t[|entries|] == item && forall i | 0 <= i < |entries| :: entries[i].id != item.id)
            && (forall id :: HasId(t, id) <==> HasId(entries + [item], id))
  {
    var t := Put(entries, item);
    if HasId(entries, item.id) {
      var k := IndexOf(entries, item.id);
      assert t[k] == item;
      HasIdSnoc(entries, item);
      forall id ensures HasId(t, id) <==> HasId(entries, id) {
        if HasId(entries, id) {
          assert t[IndexOf(entries, id)].id == id;
        }
        if HasId(t, id) {
          assert entries[IndexOf(t, id)].id == id;
        }
      }
    }
  }

  /** Collecting items in a map shows each id once, in first-seen order, with its last value. */
  lemma {:induction false} PutAllShape(items: seq<Item>)
    ensures FirstSeenLastValue(PutAll(items), items)
  {
    if items != [] {
      var init, last := items[..|items| - 1], items[|items| - 1];
      PutAllShape(init);
      PutKeeps(PutAll(init), init, last);
      assert items == init + [last];
    }
  }

  // Page sequences

  /** The first `n` replies are pages that each name a next cursor not named before. */
  predicate Advances(replies: seq<Reply>, n: nat)
    requires n <= |replies|
  {
    && (forall i | 0 <= i < n :: replies[i].Returned? && replies[i].value.nextCursor.Some?)
    && (forall i, j | 0 <= i < j < n :: replies[i].value.nextCursor != replies[j].value.nextCursor)
  }

  /** The page after `n` advancing ones is the last. */
  predicate EndsAt(replies: seq<Reply>, n: nat) {
    n < |replies| && Advances(replies, n) && replies[n].Returned? && replies[n].value.nextCursor.None?
  }

  /** The page after `n` advancing ones names a cursor that was named before. */
  predicate LoopsAt(replies: seq<Reply>, n: nat) {
    n < |replies| && Advances(replies, n) && replies[n].Returned? && replies[n].value.nextCursor.Some?
    && exists i | 0 <= i < n :: replies[i].value.nextCursor == replies[n].value.nextCursor
  }

  predicate FailsAt(replies: seq<Reply>, n: nat) {
    n < |replies| && Advances(replies, n) && replies[n].Thrown?
  }

  function ItemsOf(replies: seq<Reply>, n: nat): seq<Item>
    requires n <= |replies| && forall i | 0 <= i < n :: replies[i].Returned?
  {
    if n == 0 then [] else ItemsOf(replies, n - 1) + replies[n - 1].value.items
  }

  /** The items of the pages one after the other: those of page `k` come right after those of the pages
      before it, in the page's order. */
  lemma {:induction false} ItemsInPageOrder(replies: seq<Reply>, n: nat, k: nat, j: nat)
    requires n <= |replies| && forall i | 0 <= i < n :: replies[i].Returned?
    requires k < n && j < |replies[k].value.items|
    ensures |ItemsOf(replies, k)| + j < |ItemsOf(replies, n)|
            && ItemsOf(replies, n)[|ItemsOf(replies, k)| + j] == replies[k].value.items[j]
  {
    if k < n - 1 {
      ItemsInPageOrder(replies, n - 1, k, j);
    }
  }

  /** And nothing else. */
  lemma {:induction false} ItemsAreThePages(replies: seq<Reply>, n: nat, item: Item)
    requires n <= |replies| && forall i | 0 <= i < n :: replies[i].Returned?
    ensures item in ItemsOf(replies, n) <==> exists k | 0 <= k < n :: item in replies[k].value.items
  {
    if n > 0 {
      ItemsAreThePages(replies, n - 1, item);
      if item in replies[n - 1].value.items {
        assert 0 <= n - 1 < n;
      }
    }
  }

  /** The cursor request `n` is sent with. */
  function CursorAt(replies: seq<Reply>, n: nat): Option<string>
    requires n <= |replies| && Advances(replies, n)
  {
    if n == 0 then None else replies[n - 1].value.nextCursor
  }

  /** Exactly the cursors the first `n` pages name. */
  ghost predicate Names(seen: set<string>, replies: seq<Reply>, n: nat)
    requires n <= |replies| && Advances(replies, n)
  {
    forall c :: c in seen <==> exists i | 0 <= i < n :: replies[i].value.nextCursor == Some(c)
  }

  lemma NamesNext(seen: set<string>, replies: seq<Reply>, n: nat)
    requires n < |replies| && Advances(replies, n) && Names(seen, replies, n)
    requires replies[n].Returned? && replies[n].value.nextCursor.Some?
    ensures var c := replies[n].value.nextCursor.value;
            if c in seen then LoopsAt(replies, n) else Advances(replies, n + 1) && Names(seen + {c}, replies, n + 1)
  {
    var c := replies[n].value.nextCursor.value;
    assert forall i | 0 <= i < n :: replies[i].value.nextCursor == Some(replies[i].value.nextCursor.value);
    if c !in seen {
      assert Advances(replies, n + 1);
      forall d ensures d in seen + {c} <==> exists i | 0 <= i < n + 1 :: replies[i].value.nextCursor == Some(d) {
        if d == c {
          assert replies[n].value.nextCursor == Some(d);
        }
      }
    }
  }

  /** The query on the wire: an empty cursor is left out. */
  function Query(cursor: Option<string>): Option<string> {
    if cursor == Some("") then None else cursor
  }

  /** What a run over `replies` must come to: the whole queue exactly when a last page arrives among
      the first hundred before any repeat, and never a part of it. */
  ghost predicate Result(replies: seq<Reply>, r: Outcome<seq<Item>, Failure>) {
    && (r.Returned? ==> exists n: nat :: EndsAt(replies, n) && r.value == ItemsOf(replies, n + 1))
    && (r == Thrown(Looping) ==> exists n: nat :: LoopsAt(replies, n))
    && (r.Thrown? && r.error.RequestFailed? ==>
       exists n: nat :: FailsAt(replies, n) && replies[n].error == r.error.error)
    && (r == Thrown(TooManyPages) ==> Advances(replies, |replies|))
  }

  /** The four endings exclude each other, and each fixes the page it happens at. */
  lemma OneEnding(replies: seq<Reply>, m: nat, n: nat)
    requires EndsAt(replies, m) || LoopsAt(replies, m) || FailsAt(replies, m)
             || (m == |replies| && Advances(replies, m))
    requires EndsAt(replies, n) || LoopsAt(replies, n) || FailsAt(replies, n)
             || (n == |replies| && Advances(replies, n))
    ensures m == n
  {
    EarlierEnding(replies, m, n);
    EarlierEnding(replies, n, m);
  }

  lemma EarlierEnding(replies: seq<Reply>, m: nat, n: nat)
    requires EndsAt(replies, m) || LoopsAt(replies, m) || FailsAt(replies, m)
             || (m == |replies| && Advances(replies, m))
    requires n <= |replies| && Advances(replies, n)
    ensures n <= m
  {
  }

  /** The queue is returned if and only if it ends within the limit. */
  lemma ReturnedIff(replies: seq<Reply>, r: Outcome<seq<Item>, Failure>)
    requires Result(replies, r)
    ensures r.Returned? <==> exists n: nat :: EndsAt(replies, n)
    ensures r == Thrown(Looping) <==> exists n: nat :: LoopsAt(replies, n)
    ensures r == Thrown(TooManyPages) <==> Advances(replies, |replies|)
  {
    var at: nat := if r.Returned? then var n: nat :| EndsAt(replies, n); n
                   else match r.error
                        case Looping => var n: nat :| LoopsAt(replies, n); n
                        case TooManyPages => |replies|
                        case RequestFailed(e) => var n: nat :| FailsAt(replies, n); n;
    forall n: nat | EndsAt(replies, n) || LoopsAt(replies, n) ensures n == at {
      OneEnding(replies, at, n);
    }
    if Advances(replies, |replies|) {
      OneEnding(replies, at, |replies|);
    }
  }

  function Collected(whole: Outcome<seq<Item>, Failure>): Outcome<seq<Item>, Failure> {
    if whole.Returned? then Returned(PutAll(whole.value)) else whole
  }

  /** The same for a run that collects the items in a map. */
  ghost predicate QueueResult(replies: seq<Reply>, r: Outcome<seq<Item>, Failure>) {
    exists whole :: Result(replies, whole) && r == Collected(whole)
  }

  /** The collected queue is returned if and only if it ends within the limit, whole, and with every
      id once in first-seen order with its last value. */
  lemma QueueReturnedIff(replies: seq<Reply>, r: Outcome<seq<Item>, Failure>)
    requires QueueResult(replies, r)
    ensures r.Returned? <==> exists n: nat :: EndsAt(replies, n)
    ensures r.Returned? ==> exists n: nat :: EndsAt(replies, n) && FirstSeenLastValue(r.value, ItemsOf(replies, n + 1))
    ensures r == Thrown(Looping) <==> exists n: nat :: LoopsAt(replies, n)
    ensures r == Thrown(TooManyPages) <==> Advances(replies, |replies|)
  {
    hide FirstSeenLastValue, Put;
    var whole :| Result(replies, whole) && r == Collected(whole);
    ReturnedIff(replies, whole);
    if whole.Returned? {
      PutAllShape(whole.value);
    }
  }

  // The loops

  /** One bucket of `fetchProductionCommercialActions`; `replies` are those of its first hundred requests. */
  method FetchBucket(replies: seq<Reply>) returns (r: Outcome<seq<Item>, Failure>, ghost sent: seq<Option<string>>)
    requires |replies| == PAGE_LIMIT
    ensures Result(replies, r)
    ensures |sent| <= PAGE_LIMIT && forall i | 0 <= i < |sent| ::
            Advances(replies, i) && sent[i] == CursorAt(replies, i)
  {
    hide Names, EndsAt, LoopsAt, FailsAt, Result, QueueResult;
    var items, seenCursors, cursor := [], {}, None;
    sent := [];
    NothingSeen(replies);
    for pageIndex := 0 to PAGE_LIMIT
      invariant Advances(replies, pageIndex) && cursor == CursorAt(replies, pageIndex)
      invariant items == ItemsOf(replies, pageIndex)
      invariant Names(seenCursors, replies, pageIndex)
      invariant |sent| == pageIndex && forall i | 0 <= i < |sent| ::
                Advances(replies, i) && sent[i] == CursorAt(replies, i)
    {
      sent := sent + [cursor];
      var reply := replies[pageIndex];
      if reply.Thrown? {
        FailedAt(replies, pageIndex);
        return Thrown(RequestFailed(reply.error)), sent;
      }
      var page := reply.value;
      items := items + page.items;
      if page.nextCursor.None? {
        EndedAt(replies, pageIndex);
        return Returned(items), sent;
      }
      NamesNext(seenCursors, replies, pageIndex);
      if page.nextCursor.value in seenCursors {
        LoopedAt(replies, pageIndex);
        return Thrown(Looping), sent;
      }
      seenCursors := seenCursors + {page.nextCursor.value};
      cursor := page.nextCursor;
    }
    OutOfPages(replies);
    return Thrown(TooManyPages), sent;
  }

  /** `fetchProductionCommercialActions`: both buckets, or the failure that arrives first. The buckets are
      fetched side by side; `inWorkFirst` says which one settles first. */
  method FetchCommercialActions(incoming: seq<Reply>, inWork: seq<Reply>, inWorkFirst: bool)
    returns (r: Outcome<seq<Item>, Failure>)
    requires |incoming| == PAGE_LIMIT && |inWork| == PAGE_LIMIT
    ensures r.Returned? <==> (exists m: nat :: EndsAt(incoming, m)) && (exists n: nat :: EndsAt(inWork, n))
    ensures r.Returned? ==> exists m: nat, n: nat :: EndsAt(incoming, m) && EndsAt(inWork, n)
                              && FirstSeenLastValue(r.value, ItemsOf(incoming, m + 1) + ItemsOf(inWork, n + 1))
    ensures r.Thrown? ==>
              var early, late := if inWorkFirst then inWork else incoming, if inWorkFirst then incoming else inWork;
              Result(early, r) || ((exists n: nat :: EndsAt(early, n)) && Result(late, r))
  {
    var first, sentFirst := FetchBucket(incoming);
    var second, sentSecond := FetchBucket(inWork);
    ReturnedIff(incoming, first);
    ReturnedIff(inWork, second);
    if first.Thrown? && !(inWorkFirst && second.Thrown?) {
      return first;
    }
    if second.Thrown? {
      return second;
    }
    PutAllShape(first.value + second.value);
    return Returned(PutAll(first.value + second.value));
  }

  /** `fetchWarehouseCoverCheckQueue`: the map is filled page by page. */
  method FetchCoverCheckQueue(replies: seq<Reply>)
      returns (r: Outcome<seq<Item>, Failure>, ghost sent: seq<Option<string>>)
    requires |replies| == PAGE_LIMIT
    ensures QueueResult(replies, r)
    ensures |sent| <= PAGE_LIMIT && forall i | 0 <= i < |sent| ::
            Advances(replies, i) && sent[i] == CursorAt(replies, i)
  {
    hide Names, PutAll, LoopsAt, FailsAt, Result, QueueResult;
    var entries, seenCursors, cursor := [], {}, None;
    sent := [];
    NothingSeen(replies);
    for pageIndex := 0 to PAGE_LIMIT
      invariant Advances(replies, pageIndex) && cursor == CursorAt(replies, pageIndex)
      invariant entries == PutAll(ItemsOf(replies, pageIndex))
      invariant Names(seenCursors, replies, pageIndex)
      invariant |sent| == pageIndex && forall i | 0 <= i < |sent| ::
                Advances(replies, i) && sent[i] == CursorAt(replies, i)
    {
      sent := sent + [cursor];
      var reply := replies[pageIndex];
      if reply.Thrown? {
        FailedAt(replies, pageIndex);
        return Thrown(RequestFailed(reply.error)), sent;
      }
      var page := reply.value;
      entries := PutPage(entries, page.items, ItemsOf(replies, pageIndex));
      if page.nextCursor.None? {
        EndedAt(replies, pageIndex);
        return Returned(entries), sent;
      }
      NamesNext(seenCursors, replies, pageIndex);
      if page.nextCursor.value in seenCursors {
        LoopedAt(replies, pageIndex);
        return Thrown(Looping), sent;
      }
      seenCursors := seenCursors + {page.nextCursor.value};
      cursor := page.nextCursor;
    }
    OutOfPages(replies);
    return Thrown(TooManyPages), sent;
  }

  lemma NothingSeen(replies: seq<Reply>)
    ensures Names({}, replies, 0) && PutAll([]) == []
  {
  }

  lemma EndedAt(replies: seq<Reply>, n: nat)
    requires EndsAt(replies, n)
    ensures var whole := Returned(ItemsOf(replies, n + 1));
            Result(replies, whole) && QueueResult(replies, Collected(whole))
  {
  }

  lemma FailedAt(replies: seq<Reply>, n: nat)
    requires n < |replies| && Advances(replies, n) && replies[n].Thrown?
    ensures var whole := Thrown(RequestFailed(replies[n].error));
            Result(replies, whole) && QueueResult(replies, whole)
  {
    var whole: Outcome<seq<Item>, Failure> := Thrown(RequestFailed(replies[n].error));
    assert FailsAt(replies, n);
    assert Result(replies, whole) && whole == Collected(whole);
  }

  lemma LoopedAt(replies: seq<Reply>, n: nat)
    requires LoopsAt(replies, n)
    ensures Result(replies, Thrown(Looping)) && QueueResult(replies, Thrown(Looping))
  {
    var whole: Outcome<seq<Item>, Failure> := Thrown(Looping);
    assert Result(replies, whole) && whole == Collected(whole);
  }

  lemma OutOfPages(replies: seq<Reply>)
    requires Advances(replies, |replies|)
    ensures Result(replies, Thrown(TooManyPages)) && QueueResult(replies, Thrown(TooManyPages))
  {
    var whole: Outcome<seq<Item>, Failure> := Thrown(TooManyPages);
    assert Result(replies, whole) && whole == Collected(whole);
  }

  /** Puts a page's items into the map in their order. */
  method PutPage(entries: seq<Item>, items: seq<Item>, ghost before: seq<Item>) returns (after: seq<Item>)
    requires entries == PutAll(before)
    ensures after == PutAll(before + items)
  {
    after := entries;
    assert before + items[..0] == before;
    for k := 0 to |items|
      invariant after == PutAll(before + items[..k])
    {
      assert before + items[..k + 1] == before + items[..k] + [items[k]];
      assert (before + items[..k + 1])[..|before| + k] == before + items[..k];
      after := Put(after, items[k]);
    }
    assert items[..|items|] == items;
  }

  /** No cursor is asked for twice; the same query goes out twice exactly when a page names the empty
      cursor, which is sent like no cursor at all. */
  lemma QueriesRepeatIffEmptyCursor(replies: seq<Reply>, n: nat)
    requires n <= |replies| && Advances(replies, n)
    ensures forall i, j | 0 <= i < j <= n :: CursorAt(replies, i) != CursorAt(replies, j)
    ensures (exists i, j | 0 <= i < j <= n :: Query(CursorAt(replies, i)) == Query(CursorAt(replies, j)))
            <==> exists k | 0 <= k < n :: replies[k].value.nextCursor == Some("")
  {
    if k :| 0 <= k < n && replies[k].value.nextCursor == Some("") {
      assert Query(CursorAt(replies, 0)) == Query(CursorAt(replies, k + 1));
    }
    forall i, j | 0 <= i < j <= n && Query(CursorAt(replies, i)) == Query(CursorAt(replies, j))
      ensures exists k | 0 <= k < n :: replies[k].value.nextCursor == Some("")
    {
      var k := if CursorAt(replies, j) == Some("") then j - 1 else i - 1;
      assert 0 <= k && replies[k].value.nextCursor == Some("");
    }
  }
}
