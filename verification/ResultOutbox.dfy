/** The durable command-result journal of the post agent. */
module ResultOutbox {
  import opened Common
  import opened JsonString
  import opened JsonCanon
  import opened LineFile

  datatype Pending = Pending(commandId: Text, leaseToken: Text, result: Json, enqueuedAt: Text)

  /** What `send` resolves to; `Failed` is a rejected promise. */
  datatype Delivery = Ack | Quarantine | Failed

  const COMMAND_ID: Text := Ascii("commandId")
  const LEASE_TOKEN: Text := Ascii("leaseToken")
  const RESULT: Text := Ascii("result")
  const ENQUEUED_AT: Text := Ascii("enqueuedAt")

  /** The object a pending result is stored as. */
  function RecordJson(p: Pending): Json {
    Obj([Field(COMMAND_ID, Str(p.commandId)), Field(LEASE_TOKEN, Str(p.leaseToken)),
         Field(RESULT, p.result), Field(ENQUEUED_AT, Str(p.enqueuedAt))])
  }

  predicate SameRecord(p: Pending, q: Pending) {
    CanonicalJson(RecordJson(p)) == CanonicalJson(RecordJson(q))
  }

  /** Comparing canonical texts compares the four fields, the result up to key order. */
  lemma SameRecordMeaning(p: Pending, q: Pending)
    requires Valid(p.result) && Valid(q.result)
    ensures SameRecord(p, q) <==>
            p.commandId == q.commandId && p.leaseToken == q.leaseToken && p.enqueuedAt == q.enqueuedAt
            && Equivalent(p.result, q.result)
  {
    hide CanonicalJson, Equivalent;
    RecordValid(p);
    RecordValid(q);
    CanonicalIffEquivalent(RecordJson(p), RecordJson(q));
    RecordsEquivalent(p, q);
  }

  lemma RecordValid(p: Pending)
    requires Valid(p.result)
    ensures Valid(RecordJson(p))
  {
    DistinctKeys();
    var fields, keys := RecordJson(p).fields, [COMMAND_ID, LEASE_TOKEN, RESULT, ENQUEUED_AT];
    forall i, j | 0 <= i < j < 4 ensures fields[i].key != fields[j].key {
      assert fields[i].key == keys[i] && fields[j].key == keys[j];
    }
  }

  lemma RecordsEquivalent(p: Pending, q: Pending)
    ensures Equivalent(RecordJson(p), RecordJson(q)) <==>
            p.commandId == q.commandId && p.leaseToken == q.leaseToken && p.enqueuedAt == q.enqueuedAt
            && Equivalent(p.result, q.result)
  {
    var f, g := RecordJson(p).fields, RecordJson(q).fields;
    if Equivalent(RecordJson(p), RecordJson(q)) {
      FieldByField(p, q, 0);
      FieldByField(p, q, 1);
      FieldByField(p, q, 2);
      FieldByField(p, q, 3);
    } else {
      var i :| 0 <= i < 4 && !EquivalentTo(g, f[i]);
      assert !Equivalent(f[i].value, g[i].value);
    }
  }

  lemma DistinctKeys()
    ensures forall i, j | 0 <= i < j < 4 ::
              [COMMAND_ID, LEASE_TOKEN, RESULT, ENQUEUED_AT][i] != [COMMAND_ID, LEASE_TOKEN, RESULT, ENQUEUED_AT][j]
  {
    assert COMMAND_ID[0] == 99 && LEASE_TOKEN[0] == 108 && RESULT[0] == 114 && ENQUEUED_AT[0] == 101;
  }

  lemma FieldByField(p: Pending, q: Pending, i: nat)
    requires i < 4 && Equivalent(RecordJson(p), RecordJson(q))
    ensures Equivalent(RecordJson(p).fields[i].value, RecordJson(q).fields[i].value)
  {
    DistinctKeys();
    var f, g, keys := RecordJson(p).fields, RecordJson(q).fields, [COMMAND_ID, LEASE_TOKEN, RESULT, ENQUEUED_AT];
    var j :| 0 <= j < 4 && f[i].key == g[j].key && Equivalent(f[i].value, g[j].value);
    assert f[i].key == keys[i] && g[j].key == keys[j];
  }

  predicate Holds(results: seq<Pending>, id: Text) {
    exists i | 0 <= i < |results| :: results[i].commandId == id
  }

  predicate UniqueIds(results: seq<Pending>) {
    forall i, j | 0 <= i < j < |results| :: results[i].commandId != results[j].commandId
  }

  datatype Loaded = Loaded(results: seq<Pending>, corrupt: seq<Line<Pending>>)

  /** One turn of the loop of `load`. */
  function LoadLine(acc: Loaded, line: Line<Pending>): Loaded {
    match line
    case Blank => acc
    case Unreadable(_) => acc.(corrupt := acc.corrupt + [line])
    case Stored(p) =>
      if !Holds(acc.results, p.commandId) then acc.(results := acc.results + [p])
      else if SameRecord(Find(acc.results, p.commandId), p) then acc
      else acc.(corrupt := acc.corrupt + [line])
  }

  function Find(results: seq<Pending>, id: Text): (p: Pending)
    requires Holds(results, id)
    ensures p in results && p.commandId == id
  {
    if results[0].commandId == id then results[0] else Find(results[1..], id)
  }

  /** What `load` holds after the first `n` lines. */
  function LoadFirst(lines: seq<Line<Pending>>, n: nat): Loaded
    requires n <= |lines|
  {
    if n == 0 then Loaded([], []) else LoadLine(LoadFirst(lines, n - 1), lines[n - 1])
  }

  function LoadLines(lines: seq<Line<Pending>>): Loaded { LoadFirst(lines, |lines|) }

  /** Line `i` holds the first valid record of its id. */
  predicate FirstOfId(lines: seq<Line<Pending>>, i: int) {
    0 <= i < |lines| && lines[i].Stored?
    && forall k | 0 <= k < i && lines[k].Stored? :: lines[k].record.commandId != lines[i].record.commandId
  }

  /** Line `i` repeats the id of the record kept from line `k` with another record. */
  predicate Contradicts(lines: seq<Line<Pending>>, i: int, k: int) {
    0 <= k < i < |lines| && lines[i].Stored? && FirstOfId(lines, k)
    && lines[k].record.commandId == lines[i].record.commandId && !SameRecord(lines[k].record, lines[i].record)
  }

  /** Line `i` is one `load` moves to the `.corrupt` file: unreadable, or another record for an id
      that is already kept. */
  predicate Conflicting(lines: seq<Line<Pending>>, i: int) {
    0 <= i < |lines| && (lines[i].Unreadable? || exists k | 0 <= k < i :: Contradicts(lines, i, k))
  }

  ghost predicate KeepsFirstValid(lines: seq<Line<Pending>>, n: nat, kept: seq<Pending>) {
    && (forall i | i < n && FirstOfId(lines, i) :: lines[i].record in kept)
    && (forall p | p in kept :: exists i | i < n :: FirstOfId(lines, i) && lines[i].record == p)
  }

  ghost predicate SetsAsideConflicts(lines: seq<Line<Pending>>, n: nat, corrupt: seq<Line<Pending>>) {
    && (forall i | i < n && Conflicting(lines, i) :: lines[i] in corrupt)
    && (forall l | l in corrupt :: exists i | i < n :: Conflicting(lines, i) && lines[i] == l)
  }

  /** `load` keeps exactly the first valid record of each id and sets aside exactly the conflicting
      lines, even when the file repeats identical records. */
  lemma FirstValidRecordWins(lines: seq<Line<Pending>>)
    ensures UniqueIds(LoadLines(lines).results)
    ensures KeepsFirstValid(lines, |lines|, LoadLines(lines).results)
    ensures SetsAsideConflicts(lines, |lines|, LoadLines(lines).corrupt)
  {
    LoadFirstKeeps(lines, |lines|);
  }

  lemma {:induction false} LoadFirstKeeps(lines: seq<Line<Pending>>, n: nat)
    requires n <= |lines|
    ensures UniqueIds(LoadFirst(lines, n).results)
    ensures KeepsFirstValid(lines, n, LoadFirst(lines, n).results)
    ensures SetsAsideConflicts(lines, n, LoadFirst(lines, n).corrupt)
  {
    hide SameRecord, FirstOfId, Conflicting, KeepsFirstValid, SetsAsideConflicts, UniqueIds, Holds, Find;
    if n == 0 {
      NothingLoaded(lines);
    } else {
      var acc := LoadFirst(lines, n - 1);
      LoadFirstKeeps(lines, n - 1);
      LineVerdict(lines, n - 1, acc.results);
      KeepsGrow(lines, n - 1, acc.results);
      ConflictsGrow(lines, n - 1, acc.corrupt);
      if lines[n - 1].Stored? {
        UniqueGrows(acc.results, lines[n - 1].record);
      }
    }
  }

  lemma NothingLoaded(lines: seq<Line<Pending>>)
    ensures UniqueIds([]) && KeepsFirstValid(lines, 0, []) && SetsAsideConflicts(lines, 0, [])
  {
    hide FirstOfId, Conflicting;
    Indices(lines);
  }

  lemma Indices(lines: seq<Line<Pending>>)
    ensures forall i | FirstOfId(lines, i) || Conflicting(lines, i) :: 0 <= i < |lines|
    ensures forall i | FirstOfId(lines, i) :: lines[i].Stored?
  {
  }

  lemma UniqueGrows(results: seq<Pending>, p: Pending)
    requires UniqueIds(results)
    ensures !Holds(results, p.commandId) ==> UniqueIds(results + [p])
  {
  }

  lemma KeepsGrow(lines: seq<Line<Pending>>, n: nat, kept: seq<Pending>)
    requires n < |lines| && KeepsFirstValid(lines, n, kept)
    ensures KeepsFirstValid(lines, n + 1, if FirstOfId(lines, n) then kept + [lines[n].record] else kept)
  {
    Indices(lines);
    hide FirstOfId;
    var more := if FirstOfId(lines, n) then kept + [lines[n].record] else kept;
    forall p | p in more ensures exists i | i < n + 1 :: FirstOfId(lines, i) && lines[i].record == p {
      if p in kept {
        var i :| i < n && FirstOfId(lines, i) && lines[i].record == p;
        assert i < n + 1;
      }
    }
    forall i | i < n + 1 && FirstOfId(lines, i) ensures lines[i].record in more {
      if i == n {
        assert more[|kept|] == lines[n].record;
      } else {
        assert lines[i].record in kept;
      }
    }
  }

  lemma ConflictsGrow(lines: seq<Line<Pending>>, n: nat, corrupt: seq<Line<Pending>>)
    requires n < |lines| && SetsAsideConflicts(lines, n, corrupt)
    ensures SetsAsideConflicts(lines, n + 1, if Conflicting(lines, n) then corrupt + [lines[n]] else corrupt)
  {
    Indices(lines);
    hide Conflicting;
    var more := if Conflicting(lines, n) then corrupt + [lines[n]] else corrupt;
    forall l | l in more ensures exists i | i < n + 1 :: Conflicting(lines, i) && lines[i] == l {
      if l in corrupt {
        var i :| i < n && Conflicting(lines, i) && lines[i] == l;
        assert i < n + 1;
      }
    }
    forall i | i < n + 1 && Conflicting(lines, i) ensures lines[i] in more {
      if i == n {
        assert more[|corrupt|] == lines[n];
      } else {
        assert lines[i] in corrupt;
      }
    }
  }

  /** What `load` does with a line is what its place in the file asks for. */
  lemma LineVerdict(lines: seq<Line<Pending>>, n: nat, kept: seq<Pending>)
    requires n < |lines| && KeepsFirstValid(lines, n, kept)
    ensures FirstOfId(lines, n) <==> lines[n].Stored? && !Holds(kept, lines[n].record.commandId)
    ensures Conflicting(lines, n) <==>
            lines[n].Unreadable?
            || (lines[n].Stored? && Holds(kept, lines[n].record.commandId)
                && !SameRecord(Find(kept, lines[n].record.commandId), lines[n].record))
  {
    hide SameRecord, Holds, Find, KeepsFirstValid;
    if lines[n].Stored? {
      StoredLineVerdict(lines, n, kept);
      hide FirstOfId, Conflicting;
    }
  }

  /** A stored line is kept when no record of its id is kept yet; otherwise only another record conflicts. */
  lemma StoredLineVerdict(lines: seq<Line<Pending>>, n: nat, kept: seq<Pending>)
    requires n < |lines| && lines[n].Stored? && KeepsFirstValid(lines, n, kept)
    ensures var p := lines[n].record;
            if Holds(kept, p.commandId) then
              !FirstOfId(lines, n) && (Conflicting(lines, n) <==> !SameRecord(Find(kept, p.commandId), p))
            else FirstOfId(lines, n) && !Conflicting(lines, n)
  {
    hide SameRecord;
    var p := lines[n].record;
    if Holds(kept, p.commandId) {
      var q := Find(kept, p.commandId);
      var i :| i < n && FirstOfId(lines, i) && lines[i].record == q;
      forall k | 0 <= k < n && FirstOfId(lines, k) && lines[k].record.commandId == p.commandId ensures k == i {
      }
      assert Contradicts(lines, n, i) <==> !SameRecord(q, p);
    } else {
      forall k | 0 <= k < n && lines[k].Stored? ensures lines[k].record.commandId != p.commandId {
        var i := FirstWithId(lines, k);
        assert lines[i].record in kept;
      }
    }
  }

  lemma {:induction false} FirstWithId(lines: seq<Line<Pending>>, k: nat) returns (i: nat)
    requires k < |lines| && lines[k].Stored?
    ensures i <= k && FirstOfId(lines, i) && lines[i].record.commandId == lines[k].record.commandId
  {
    if m: nat :| m < k && lines[m].Stored? && lines[m].record.commandId == lines[k].record.commandId {
      i := FirstWithId(lines, m);
    } else {
      i := k;
    }
  }

  /** Loading what was persisted is the identity. */
  lemma LoadAfterPersist(results: seq<Pending>)
    requires UniqueIds(results)
    ensures LoadLines(Encode(results)) == Loaded(results, [])
  {
    LoadEncodedFirst(results, |results|);
  }

  lemma {:induction false} LoadEncodedFirst(results: seq<Pending>, n: nat)
    requires n <= |results| && UniqueIds(results)
    ensures LoadFirst(Encode(results), n) == Loaded(results[..n], [])
  {
    if n > 0 {
      LoadEncodedFirst(results, n - 1);
      assert results[..n] == results[..n - 1] + [results[n - 1]];
    }
  }

  /** How many records leave the queue when `replies[i]` settles the i-th send: those before the
      first failed delivery. */
  function Delivered(replies: seq<Delivery>, count: nat): (n: nat)
    requires count <= |replies|
    ensures n <= count && Failed !in replies[..n]
    ensures n < count ==> replies[n] == Failed
  {
    DeliveredFrom(0, replies, count)
  }

  function DeliveredFrom(from: nat, replies: seq<Delivery>, count: nat): (n: nat)
    requires from <= count <= |replies|
    ensures from <= n <= count && Failed !in replies[from..n]
    ensures n < count ==> replies[n] == Failed
    decreases count - from
  {
    if from == count || replies[from] == Failed then from else DeliveredFrom(from + 1, replies, count)
  }

  lemma DeliveredStep(from: nat, replies: seq<Delivery>, count: nat)
    requires from <= count <= |replies|
    ensures DeliveredFrom(from, replies, count)
         == if from == count || replies[from] == Failed then from else DeliveredFrom(from + 1, replies, count)
  {
  }

  lemma UniqueTail(results: seq<Pending>)
    requires UniqueIds(results) && results != []
    ensures UniqueIds(results[1..])
  {
  }

  /** The first `n` records whose delivery was settled as `d`, in order. */
  function Settled(results: seq<Pending>, replies: seq<Delivery>, n: nat, d: Delivery): (s: seq<Pending>)
    requires n <= |results| && n <= |replies|
    ensures |s| <= n
  {
    if n == 0 then []
    else Settled(results, replies, n - 1, d) + (if replies[n - 1] == d then [results[n - 1]] else [])
  }

  lemma AppendToPartition<T>(a: seq<T>, q: seq<T>, r: seq<T>, x: T)
    requires multiset(a) + multiset(q) == multiset(r)
    ensures multiset(a + [x]) + multiset(q) == multiset(r + [x])
    ensures multiset(a) + multiset(q + [x]) == multiset(r + [x])
  {
  }

  /** The records that left are, with multiplicity, those acknowledged and those quarantined. */
  lemma {:induction false} DeliveryPartition(results: seq<Pending>, replies: seq<Delivery>, n: nat)
    requires n <= |results| && n <= |replies| && Failed !in replies[..n]
    ensures multiset(Settled(results, replies, n, Ack)) + multiset(Settled(results, replies, n, Quarantine))
            == multiset(results[..n])
  {
    if n == 0 {
      SettledNone(results, replies);
    } else {
      hide Settled;
      assert replies[..n] == replies[..n - 1] + [replies[n - 1]];
      DeliveryPartition(results, replies, n - 1);
      var acks, quarantines := Settled(results, replies, n - 1, Ack), Settled(results, replies, n - 1, Quarantine);
      SettledStep(results, replies, n, Ack);
      SettledStep(results, replies, n, Quarantine);
      assert replies[n - 1] == Ack || replies[n - 1] == Quarantine;
      AppendToPartition(acks, quarantines, results[..n - 1], results[n - 1]);
      assert results[..n] == results[..n - 1] + [results[n - 1]];
    }
  }

  lemma SettledNone(results: seq<Pending>, replies: seq<Delivery>)
    ensures Settled(results, replies, 0, Ack) == Settled(results, replies, 0, Quarantine) == []
  {
  }

  lemma SettledStep(results: seq<Pending>, replies: seq<Delivery>, n: nat, d: Delivery)
    requires 0 < n <= |results| && n <= |replies|
    ensures Settled(results, replies, n, d) ==
            if replies[n - 1] == d then Settled(results, replies, n - 1, d) + [results[n - 1]]
            else Settled(results, replies, n - 1, d)
  {
  }

  class Outbox {
    var results: seq<Pending>
    /** The journal file; `None` while it does not exist. */
    var journal: Option<seq<Line<Pending>>>
    /** The append-only files beside it. */
    var corrupt: seq<Line<Pending>>
    var quarantine: seq<Pending>

    /** Between operations ids are unique, and loading the journal would give what memory holds; the
        file may still have blank lines and repeated records. */
    ghost predicate Valid()
      reads this
    {
      UniqueIds(results) && journal.Some? && LoadLines(journal.value).results == results
    }

    /** A new process over files left behind by an earlier one. */
    constructor (journal: Option<seq<Line<Pending>>>, corrupt: seq<Line<Pending>>, quarantine: seq<Pending>)
      ensures this.journal == journal && this.corrupt == corrupt && this.quarantine == quarantine
      ensures results == []
    {
      results := [];
      this.journal, this.corrupt, this.quarantine := journal, corrupt, quarantine;
    }

    method Persist()
      requires UniqueIds(results)
      modifies this`journal
      ensures Valid() && journal == Some(Encode(results))
    {
      journal := Some(Encode(results));
      LoadAfterPersist(results);
    }

    /** Reads the journal back. Duplicates of a kept record stay in the file when nothing else is wrong. */
    method Load()
      modifies this
      ensures Valid() && quarantine == old(quarantine)
      ensures old(journal).None? ==> results == [] && corrupt == old(corrupt)
      ensures old(journal).Some? ==>
                var loaded := LoadLines(old(journal).value);
                results == loaded.results && corrupt == old(corrupt) + loaded.corrupt
                && (if loaded.corrupt == [] then journal == old(journal) else journal == Some(Encode(results)))
    {
      results := [];
      if journal == None {
        Persist();
        return;
      }
      var lines := journal.value;
      var bad: seq<Line<Pending>> := [];
      for i := 0 to |lines|
        invariant Loaded(results, bad) == LoadFirst(lines, i)
        invariant journal == Some(lines) && corrupt == old(corrupt) && quarantine == old(quarantine)
      {
        match lines[i] {
          case Blank =>
          case Unreadable(_) => bad := bad + [lines[i]];
          case Stored(p) =>
            var known := Has(p.commandId);
            if !known {
              results := results + [p];
            } else if !SameRecord(Find(results, p.commandId), p) {
              bad := bad + [lines[i]];
            }
        }
      }
      FirstValidRecordWins(lines);
      if bad != [] {
        corrupt := corrupt + bad;
        Persist();
      }
    }

    method Has(id: Text) returns (found: bool)
      ensures found == Holds(results, id)
    {
      found := false;
      for i := 0 to |results|
        invariant forall k | 0 <= k < i :: results[k].commandId != id
      {
        if results[i].commandId == id {
          return true;
        }
      }
    }

    /** Journals a result before it is delivered; a repeated identical result is returned as stored. */
    method Enqueue(id: Text, lease: Text, result: Json, now: Text) returns (r: Outcome<Pending, ()>)
      requires Valid()
      modifies this
      ensures Valid() && quarantine == old(quarantine) && corrupt == old(corrupt)
      ensures !Holds(old(results), id) ==>
                r == Returned(Pending(id, lease, result, now)) && results == old(results) + [r.value]
      ensures !Holds(old(results), id) ==> journal == Some(Encode(results))
      ensures Holds(old(results), id) ==> results == old(results) && journal == old(journal)
      ensures Holds(old(results), id) ==>
                var stored := Find(old(results), id);
                if stored.leaseToken == lease && CanonicalJson(stored.result) == CanonicalJson(result)
                then r == Returned(stored) else r.Thrown?
    {
      var known := Has(id);
      if known {
        var stored := Find(results, id);
        if stored.leaseToken != lease || CanonicalJson(stored.result) != CanonicalJson(result) {
          return Thrown(());
        }
        return Returned(stored);
      }
      var stored := Pending(id, lease, result, now);
      results := results + [stored];
      Persist();
      r := Returned(stored);
    }

    /** Delivers in order until the queue is empty or a delivery fails. A quarantined record is
        appended to its file before it leaves the journal. */
    method Flush(replies: seq<Delivery>) returns (sent: nat, quarantined: nat, remaining: nat)
      requires Valid() && |replies| >= |results|
      modifies this
      ensures Valid() && corrupt == old(corrupt)
      ensures var n := Delivered(replies, |old(results)|);
              results == old(results)[n..] && sent + quarantined == n
              && sent == |Settled(old(results), replies, n, Ack)|
              && quarantine == old(quarantine) + Settled(old(results), replies, n, Quarantine)
      ensures remaining == |results|
    {
      hide Settled, DeliveredFrom, LoadLines, UniqueIds, Encode;
      sent, quarantined := 0, 0;
      ghost var all := results;
      SettledNone(all, replies);
      ghost var n := 0;
      assert all[0..] == all;
      while results != []
        invariant 0 <= n <= |all| && results == all[n..] && Valid()
        invariant DeliveredFrom(n, replies, |all|) == Delivered(replies, |all|)
        invariant sent + quarantined == n && sent == |Settled(all, replies, n, Ack)|
        invariant quarantine == old(quarantine) + Settled(all, replies, n, Quarantine)
        invariant corrupt == old(corrupt)
        decreases |results|
      {
        var current := results[0];
        var decision := replies[sent + quarantined];
        DeliveredStep(n, replies, |all|);
        if decision == Failed {
          break;
        }
        if decision == Quarantine {
          quarantine := quarantine + [current];
          quarantined := quarantined + 1;
        } else {
          sent := sent + 1;
        }
        UniqueTail(results);
        assert results[1..] == all[n + 1..];
        results := results[1..];
        n := n + 1;
        SettledStep(all, replies, n, Ack);
        SettledStep(all, replies, n, Quarantine);
        Persist();
      }
      DeliveredStep(n, replies, |all|);
      remaining := |results|;
    }
  }
}
