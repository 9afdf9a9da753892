/** The client idempotency gate with its durable key journal, run against a server that commits each
    operation key at most once and may lose or delay replies. */
module OperationGate {
  import opened Common
  import opened JsonString
  import opened JsonCanon
  import opened Transport

  /** A v4 UUID; `createOperationKey` never repeats one. */
  type Key = nat

  // The durable journal

  const TTL_MS := 86_400_000

  datatype Entry = Entry(key: Key, createdAt: int)
  datatype Journal = Journal(userId: Text, keys: map<Text, Entry>)

  function ReadDurable(journal: Option<Journal>, user: Text, intent: Text, now: int): Option<Key> {
    if journal.Some? && journal.value.userId == user && intent in journal.value.keys
       && 0 <= now - journal.value.keys[intent].createdAt <= TTL_MS
    then Some(journal.value.keys[intent].key)
    else None
  }

  /** A journal of another user is replaced. */
  function WriteDurable(journal: Option<Journal>, user: Text, intent: Text, key: Key, now: int): Option<Journal> {
    var keys := if journal.Some? && journal.value.userId == user then journal.value.keys else map[];
    Some(Journal(user, keys[intent := Entry(key, now)]))
  }

  function DeleteDurable(journal: Option<Journal>, user: Text, intent: Text, key: Key, now: int): Option<Journal> {
    if ReadDurable(journal, user, intent, now) != Some(key) then journal
    else
      var keys := journal.value.keys - {intent};
      if |keys| == 0 then None else Some(journal.value.(keys := keys))
  }

  // The gate

  /** `JSON.stringify([userId, intent])` for a signed-in user of a durable gate, the bare text otherwise. */
  datatype Scope = Scope(user: Option<Text>, name: Text)

  /** The map key `start` computes for a scope. */
  function ScopeText(c: Scope): Text {
    if c.user.Some? then CanonicalJson(Arr([Str(c.user.value), Str(c.name)])) else c.name
  }

  /** Different scopes have different map keys: the two strings are recovered from their JSON text,
      and no bare intent begins with a bracket. */
  lemma ScopeTextInjective(c: Scope, d: Scope)
    requires ScopeText(c) == ScopeText(d)
    requires c.user.None? && d.user.Some? ==> c.name == [] || c.name[0] != 91
    requires d.user.None? && c.user.Some? ==> d.name == [] || d.name[0] != 91
    ensures c == d
  {
    if c.user.Some? { ScopedTextStart(c); }
    if d.user.Some? { ScopedTextStart(d); }
    if c.user.Some? && d.user.Some? {
      var a, b := Arr([Str(c.user.value), Str(c.name)]), Arr([Str(d.user.value), Str(d.name)]);
      CanonicalIffEquivalent(a, b);
      assert Equivalent(a.items[0], b.items[0]) && Equivalent(a.items[1], b.items[1]);
    }
  }

  lemma ScopedTextStart(c: Scope)
    requires c.user.Some?
    ensures ScopeText(c) != [] && ScopeText(c)[0] == 91
  {
  }

  datatype Attempt = Attempt(scope: Scope, slot: Scope, key: Key, epoch: nat)

  datatype State = State(
    durable: bool, user: Option<Text>, now: int,
    retryKeys: map<Scope, Key>, pending: map<Scope, nat>, live: set<nat>,  // gone with the page
    journal: Option<Journal>,                                              // browser storage
    committed: seq<Key>,                                                   // the server
    nextKey: Key, attempts: seq<Attempt>, epochs: map<Scope, nat>,         // history
    open: set<Scope>,         // intents started and not closed since
    refused: set<Key>,        // keys whose operation failed for good
    reached: set<nat>,        // attempts that reached the server
    unasked: set<nat>,        // attempts that never will
    succeeded: set<nat>,      // attempts closed by a success
    blind: set<nat>)          // attempts closed by a reply that says nothing about the operation

  datatype Event =
    | Start(intent: Text, serialization: Text, crypto: bool)  // `crypto`: a key can be created
    | Settle(attempt: nat, reply: Reply)
    | Commit(attempt: nat)                                    // the request reaches the server, any time
    | Tick(to: int)                                           // the wall clock, which may be set back
    | Reload
    | SwitchUser(user: Option<Text>)
    | ClearSession

  function ScopeOf(s: State, name: Text): Scope { Scope(if s.durable then s.user else None, name) }

  function EpochOf(s: State, scope: Scope): nat { if scope in s.epochs then s.epochs[scope] else 0 }

  /** The key a new attempt reuses. */
  function Remembered(s: State, scope: Scope): Option<Key> {
    if scope in s.retryKeys then Some(s.retryKeys[scope])
    else if scope.user.Some? then ReadDurable(s.journal, scope.user.value, scope.name, s.now)
    else None
  }

  predicate Starts(s: State, e: Event) {
    e.Start? && ScopeOf(s, e.serialization) !in s.pending
    && (Remembered(s, ScopeOf(s, e.intent)).Some? || e.crypto)
  }

  function OnStart(s: State, intent: Text, serialization: Text): State {
    var scope, slot, known := ScopeOf(s, intent), ScopeOf(s, serialization), Remembered(s, ScopeOf(s, intent));
    var key := if known.Some? then known.value else s.nextKey;
    s.(retryKeys := s.retryKeys[scope := key],
       journal := if scope.user.Some? then WriteDurable(s.journal, scope.user.value, intent, key, s.now) else s.journal,
       pending := s.pending[slot := |s.attempts|], live := s.live + {|s.attempts|},
       attempts := s.attempts + [Attempt(scope, slot, key, EpochOf(s, scope))],
       nextKey := if known.Some? then s.nextKey else s.nextKey + 1,
       open := s.open + {scope})
  }

  /** A reply that closes the intent although it says nothing about the operation. */
  predicate Blind(reply: Reply) { Unasked(reply) || CodeLost(reply) }

  function OnSettle(s: State, i: nat, reply: Reply): State
    requires i < |s.attempts|
  {
    var a, r := s.attempts[i], Surfaced(reply);
    var t := s.(live := s.live - {i},
                pending := if a.slot in s.pending && s.pending[a.slot] == i then s.pending - {a.slot} else s.pending,
                refused := if Fails(reply) then s.refused + {a.key} else s.refused,
                unasked := if Unasked(reply) then s.unasked + {i} else s.unasked);
    if !Closing(r) then t
    else t.(retryKeys := s.retryKeys - {a.scope},
            journal := if a.scope.user.Some?
                       then DeleteDurable(s.journal, a.scope.user.value, a.scope.name, a.key, s.now) else s.journal,
            open := s.open - {a.scope}, epochs := s.epochs[a.scope := EpochOf(s, a.scope) + 1],
            succeeded := if r.Resolved? then s.succeeded + {i} else s.succeeded,
            blind := if Blind(reply) then s.blind + {i} else s.blind)
  }

  /** The server answers success only for a committed key and failure only for one that is not and will
      not be committed; an operation that was not asked was not reached. */
  predicate Honest(s: State, i: nat, reply: Reply) {
    i < |s.attempts| && Possible(reply)
    && (reply.Answered? && reply.answer.Success? ==> s.attempts[i].key in s.committed)
    && (Fails(reply) ==> s.attempts[i].key !in s.committed)
    && (Unasked(reply) ==> i !in s.reached)
  }

  predicate Settles(s: State, e: Event) {
    e.Settle? && e.attempt in s.live && Honest(s, e.attempt, e.reply)
  }

  function Next(s: State, e: Event): State {
    match e
    case Start(intent, serialization, _) => if Starts(s, e) then OnStart(s, intent, serialization) else s
    case Settle(i, reply) => if Settles(s, e) then OnSettle(s, i, reply) else s
    case Commit(i) =>
      if i < |s.attempts| && i !in s.unasked then
        var key, t := s.attempts[i].key, s.(reached := s.reached + {i});
        if key in s.committed || key in s.refused then t else t.(committed := s.committed + [key])
      else s
    case Tick(to) => s.(now := to)
    case Reload => s.(retryKeys := map[], pending := map[], live := {})
    case SwitchUser(u) => s.(user := u)
    case ClearSession => s.(user := None, journal := None)
  }

  function Initial(durable: bool, user: Option<Text>): State {
    State(durable, user, 0, map[], map[], {}, None, [], 0, [], map[], {}, {}, {}, {}, {}, {})
  }

  function Run(s: State, events: seq<Event>): State {
    if events == [] then s else Next(Run(s, events[..|events| - 1]), events[|events| - 1])
  }

  ghost predicate Admits(s: State, events: seq<Event>, admissible: (State, Event) -> bool) {
    forall i | 0 <= i < |events| :: admissible(Run(s, events[..i]), events[i])
  }

  lemma AdmitsSnoc(s: State, events: seq<Event>, admissible: (State, Event) -> bool)
    requires events != []
    ensures var n := |events| - 1;
            Admits(s, events, admissible) <==>
              Admits(s, events[..n], admissible) && admissible(Run(s, events[..n]), events[n])
  {
    hide Run;
    var n := |events| - 1;
    forall i | 0 <= i < n
      ensures admissible(Run(s, events[..n][..i]), events[..n][i]) == admissible(Run(s, events[..i]), events[i])
    {
      assert events[..n][..i] == events[..i];
    }
  }

  // What every run keeps

  /** Some attempt of the intent carries the key. */
  ghost predicate Used(s: State, c: Scope, key: Key) {
    exists i | 0 <= i < |s.attempts| :: s.attempts[i].scope == c && s.attempts[i].key == key
  }

  /** Some attempt of the intent's current epoch does. */
  ghost predicate UsedNow(s: State, c: Scope, key: Key) {
    exists i | 0 <= i < |s.attempts| ::
      s.attempts[i].scope == c && s.attempts[i].key == key && s.attempts[i].epoch == EpochOf(s, c)
  }

  /** Memory holds keys of open intents only, and memory and journal hold for an open intent a key of
      its current epoch. */
  ghost predicate Remembers(s: State) {
    && (forall c | c in s.retryKeys :: c in s.open && UsedNow(s, c, s.retryKeys[c]))
    && (s.journal.Some? ==> forall n | n in s.journal.value.keys ::
          var c, key := Scope(Some(s.journal.value.userId), n), s.journal.value.keys[n].key;
          Used(s, c, key) && (c in s.open ==> UsedNow(s, c, key)))
  }

  /** An unsettled attempt holds its slot. */
  ghost predicate Tracked(s: State) {
    forall i | i in s.live :: i < |s.attempts| && s.attempts[i].slot in s.pending && s.pending[s.attempts[i].slot] == i
  }

  /** Only an open intent has attempts in its current epoch, and it has one. */
  ghost predicate Dated(s: State) {
    && (forall i | 0 <= i < |s.attempts| :: var a := s.attempts[i];
          a.key < s.nextKey && a.epoch <= EpochOf(s, a.scope) && (a.epoch == EpochOf(s, a.scope) ==> a.scope in s.open))
    && (forall c | c in s.open :: exists key :: UsedNow(s, c, key))
  }

  ghost predicate Inv(s: State) { Remembers(s) && Tracked(s) && Dated(s) }

  /** The attempt an accepted start adds. */
  function Added(s: State, intent: Text, serialization: Text): Attempt {
    var scope := ScopeOf(s, intent);
    var known := Remembered(s, scope);
    Attempt(scope, ScopeOf(s, serialization), if known.Some? then known.value else s.nextKey, EpochOf(s, scope))
  }

  lemma UsedGrows(s: State, t: State, c: Scope, key: Key)
    requires s.attempts <= t.attempts
    ensures Used(s, c, key) ==> Used(t, c, key)
    ensures UsedNow(s, c, key) && EpochOf(t, c) == EpochOf(s, c) ==> UsedNow(t, c, key)
  {
    if Used(s, c, key) {
      var i :| 0 <= i < |s.attempts| && s.attempts[i].scope == c && s.attempts[i].key == key;
      assert t.attempts[i] == s.attempts[i];
    }
    if UsedNow(s, c, key) {
      var i :| 0 <= i < |s.attempts| && s.attempts[i].scope == c && s.attempts[i].key == key
               && s.attempts[i].epoch == EpochOf(s, c);
      assert t.attempts[i] == s.attempts[i];
    }
  }

  lemma AddedIsUsed(s: State, t: State, a: Attempt)
    requires t.attempts == s.attempts + [a] && a.epoch == EpochOf(t, a.scope)
    ensures Used(t, a.scope, a.key) && UsedNow(t, a.scope, a.key)
  {
    assert t.attempts[|s.attempts|] == a;
  }

  lemma StartRemembers(s: State, intent: Text, serialization: Text)
    requires Remembers(s)
    ensures Remembers(OnStart(s, intent, serialization))
  {
    hide Used, UsedNow, Remembered, ReadDurable;
    var t, a := OnStart(s, intent, serialization), Added(s, intent, serialization);
    AddedIsUsed(s, t, a);
    forall c, key ensures (Used(s, c, key) ==> Used(t, c, key)) && (UsedNow(s, c, key) ==> UsedNow(t, c, key)) {
      UsedGrows(s, t, c, key);
    }
    assert t.retryKeys == s.retryKeys[a.scope := a.key];
    if a.scope.user.Some? {
      assert forall n | n in t.journal.value.keys && n != intent ::
          s.journal.Some? && s.journal.value.userId == t.journal.value.userId && n in s.journal.value.keys
          && t.journal.value.keys[n] == s.journal.value.keys[n];
    }
  }

  lemma StartDates(s: State, intent: Text, serialization: Text)
    requires Dated(s) && Remembers(s)
    ensures Dated(OnStart(s, intent, serialization))
  {
    var t, a := OnStart(s, intent, serialization), Added(s, intent, serialization);
    if Remembered(s, a.scope).Some? {
      RememberedIsUsed(s, a.scope);
      UsedIsOld(s, a.scope, a.key);
    }
    hide UsedNow, Used, Remembers, Remembered, WriteDurable, Dated;
    AddDates(s, t, a);
  }

  lemma AddDates(s: State, t: State, a: Attempt)
    requires Dated(s) && a.epoch == EpochOf(s, a.scope) && a.key < t.nextKey && s.nextKey <= t.nextKey
    requires t.attempts == s.attempts + [a] && t.epochs == s.epochs && t.open == s.open + {a.scope}
    ensures Dated(t)
  {
    hide UsedNow;
    AddedIsUsed(s, t, a);
    forall c | c in t.open ensures exists key :: UsedNow(t, c, key) {
      if c in s.open {
        var key :| UsedNow(s, c, key);
        UsedGrows(s, t, c, key);
      } else {
        assert UsedNow(t, c, a.key);
      }
    }
  }

  lemma UsedIsOld(s: State, c: Scope, key: Key)
    requires Dated(s)
    ensures Used(s, c, key) ==> key < s.nextKey
  {
    hide UsedNow;
  }

  /** A remembered key was carried by an attempt of the intent, in its current epoch while it is open. */
  lemma RememberedIsUsed(s: State, c: Scope)
    requires Remembers(s) && Remembered(s, c).Some?
    ensures Used(s, c, Remembered(s, c).value) && (c in s.open ==> UsedNow(s, c, Remembered(s, c).value))
  {
  }

  lemma SettleRemembers(s: State, i: nat, r: Reply)
    requires Remembers(s) && i < |s.attempts|
    ensures Remembers(OnSettle(s, i, r))
  {
    hide Used, UsedNow, DeleteDurable, ReadDurable, Surfaced, Closing, Blind;
    var t := OnSettle(s, i, r);
    forall c, key ensures Used(s, c, key) ==> Used(t, c, key) {
      UsedGrows(s, t, c, key);
    }
    forall c, key | c in t.open ensures UsedNow(s, c, key) ==> UsedNow(t, c, key) {
      UsedGrows(s, t, c, key);
    }
    if Closing(Surfaced(r)) && s.attempts[i].scope.user.Some? {
      DeleteOnlyDrops(s.journal, s.attempts[i].scope.user.value, s.attempts[i].scope.name, s.attempts[i].key, s.now);
    }
  }

  lemma DeleteOnlyDrops(journal: Option<Journal>, user: Text, n: Text, key: Key, now: int)
    ensures var j := DeleteDurable(journal, user, n, key, now);
            j.Some? ==> journal.Some? && j.value.userId == journal.value.userId
                        && forall m | m in j.value.keys ::
                             m in journal.value.keys && j.value.keys[m] == journal.value.keys[m]
  {
  }

  lemma SettleDates(s: State, i: nat, r: Reply)
    requires Dated(s) && i < |s.attempts|
    ensures Dated(OnSettle(s, i, r))
  {
    hide UsedNow, DeleteDurable, Surfaced, Closing, Blind;
    var t := OnSettle(s, i, r);
    forall c | c in t.open ensures exists key :: UsedNow(t, c, key) {
      var key :| UsedNow(s, c, key);
      UsedGrows(s, t, c, key);
    }
  }

  lemma StepTracks(s: State, e: Event)
    requires Tracked(s)
    ensures Tracked(Next(s, e))
  {
    hide Remembered, WriteDurable, DeleteDurable, Surfaced, Closing, Blind;
  }

  /** Any other event keeps the history and at most forgets memory or journal. */
  lemma QuietKeeps(s: State, e: Event)
    requires Remembers(s) && Dated(s) && !Starts(s, e) && !Settles(s, e)
    ensures Remembers(Next(s, e)) && Dated(Next(s, e))
  {
    QuietShape(s, e);
    hide Starts, Settles, Used, UsedNow, Next;
    var t := Next(s, e);
    forall c, key ensures (Used(s, c, key) ==> Used(t, c, key)) && (UsedNow(s, c, key) ==> UsedNow(t, c, key)) {
      UsedGrows(s, t, c, key);
    }
  }

  lemma QuietShape(s: State, e: Event)
    requires !Starts(s, e) && !Settles(s, e)
    ensures var t := Next(s, e);
            t.attempts == s.attempts && t.epochs == s.epochs && t.open == s.open && t.nextKey == s.nextKey
            && (t.retryKeys == s.retryKeys || t.retryKeys == map[]) && (t.journal == s.journal || t.journal == None)
  {
    hide Starts, Settles, OnStart, OnSettle;
  }

  lemma StepKeeps(s: State, e: Event)
    requires Inv(s)
    ensures Inv(Next(s, e))
  {
    hide Remembers, Tracked, Dated, OnStart, OnSettle, Remembered, Settles;
    StepTracks(s, e);
    if Starts(s, e) {
      StartRemembers(s, e.intent, e.serialization);
      StartDates(s, e.intent, e.serialization);
    } else if Settles(s, e) {
      SettlesAttempt(s, e);
      SettleRemembers(s, e.attempt, e.reply);
      SettleDates(s, e.attempt, e.reply);
    } else {
      QuietKeeps(s, e);
    }
  }

  lemma SettlesAttempt(s: State, e: Event)
    requires Settles(s, e)
    ensures e.Settle? && e.attempt < |s.attempts|
  {
  }

  /** In every run, without any assumption. */
  lemma {:induction false} RunKeeps(durable: bool, user: Option<Text>, events: seq<Event>)
    ensures Inv(Run(Initial(durable, user), events))
  {
    hide Next, Inv;
    if events == [] {
      InitialInv(durable, user);
    } else {
      RunKeeps(durable, user, events[..|events| - 1]);
      StepKeeps(Run(Initial(durable, user), events[..|events| - 1]), events[|events| - 1]);
    }
  }

  lemma InitialInv(durable: bool, user: Option<Text>)
    ensures Inv(Initial(durable, user))
  {
  }

  /** Two unsettled attempts of a page never share a slot. */
  lemma OneRequestPerSlot(durable: bool, user: Option<Text>, events: seq<Event>, i: nat, j: nat)
    requires var s := Run(Initial(durable, user), events); i in s.live && j in s.live
    ensures var s := Run(Initial(durable, user), events);
            i < |s.attempts| && j < |s.attempts| && (s.attempts[i].slot == s.attempts[j].slot ==> i == j)
  {
    hide Run, Remembers, Dated;
    RunKeeps(durable, user, events);
  }

  // One key an epoch

  predicate SameEpoch(a: Attempt, b: Attempt) { a.scope == b.scope && a.epoch == b.epoch }

  /** Attempts of one epoch of an intent share their key. */
  ghost predicate OneKey(attempts: seq<Attempt>) {
    forall i, j | 0 <= i < |attempts| && 0 <= j < |attempts| && SameEpoch(attempts[i], attempts[j]) ::
      attempts[i].key == attempts[j].key
  }

  /** Attempts of different epochs or intents do not. */
  ghost predicate OwnKey(attempts: seq<Attempt>) {
    forall i, j | 0 <= i < |attempts| && 0 <= j < |attempts| && attempts[i].key == attempts[j].key ::
      SameEpoch(attempts[i], attempts[j])
  }

  /** An open intent is not started while its key is in neither memory nor journal. */
  predicate Recalls(s: State, e: Event) {
    Starts(s, e) && ScopeOf(s, e.intent) in s.open ==> Remembered(s, ScopeOf(s, e.intent)).Some?
  }

  /** A closed intent is not started while the journal still gives its old key. */
  predicate Renews(s: State, e: Event) {
    Starts(s, e) && ScopeOf(s, e.intent) !in s.open ==> Remembered(s, ScopeOf(s, e.intent)).None?
  }

  lemma StepAttempts(s: State, e: Event)
    ensures Next(s, e).attempts == if Starts(s, e) then s.attempts + [Added(s, e.intent, e.serialization)]
            else s.attempts
  {
    hide Remembered, WriteDurable, DeleteDurable, Surfaced, Closing, Blind;
  }

  lemma RecallsIff(s: State, e: Event)
    requires Inv(s) && OneKey(s.attempts)
    ensures OneKey(Next(s, e).attempts) <==> Recalls(s, e)
  {
    hide Next, Tracked, UsedNow, Used;
    StepAttempts(s, e);
    if Starts(s, e) {
      var a, c := Added(s, e.intent, e.serialization), ScopeOf(s, e.intent);
      if Remembered(s, c).Some? {
        RememberedIsUsed(s, c);
        hide Remembers, Dated, Remembered, Starts;
        if c in s.open {
          KeyOfEpoch(s, a);
        } else {
          NoneInEpoch(s, a);
        }
        AddOneKey(s.attempts, a);
      } else if c in s.open {
        var key :| UsedNow(s, c, key);
        NewKeyDiffers(s, a, key);
      } else {
        NoneInEpoch(s, a);
        AddOneKey(s.attempts, a);
      }
    }
  }

  lemma AddOneKey(attempts: seq<Attempt>, a: Attempt)
    requires OneKey(attempts)
    requires forall i | 0 <= i < |attempts| && SameEpoch(attempts[i], a) :: attempts[i].key == a.key
    ensures OneKey(attempts + [a])
  {
  }

  lemma KeyOfEpoch(s: State, a: Attempt)
    requires OneKey(s.attempts) && a.epoch == EpochOf(s, a.scope) && UsedNow(s, a.scope, a.key)
    ensures forall i | 0 <= i < |s.attempts| && SameEpoch(s.attempts[i], a) :: s.attempts[i].key == a.key
  {
  }

  lemma NoneInEpoch(s: State, a: Attempt)
    requires Dated(s) && a.epoch == EpochOf(s, a.scope) && a.scope !in s.open
    ensures forall i | 0 <= i < |s.attempts| :: !SameEpoch(s.attempts[i], a)
  {
    hide UsedNow;
  }

  lemma NewKeyDiffers(s: State, a: Attempt, key: Key)
    requires Dated(s) && a.epoch == EpochOf(s, a.scope) && a.key == s.nextKey && UsedNow(s, a.scope, key)
    ensures !OneKey(s.attempts + [a])
  {
    var i :| 0 <= i < |s.attempts| && s.attempts[i].scope == a.scope && s.attempts[i].key == key
             && s.attempts[i].epoch == EpochOf(s, a.scope);
    var all := s.attempts + [a];
    assert SameEpoch(all[i], all[|s.attempts|]) && all[i].key != all[|s.attempts|].key;
  }

  lemma RenewsIff(s: State, e: Event)
    requires Inv(s) && OwnKey(s.attempts)
    ensures OwnKey(Next(s, e).attempts) <==> Renews(s, e)
  {
    hide Next, Tracked, UsedNow, Used;
    StepAttempts(s, e);
    if Starts(s, e) {
      var a, c := Added(s, e.intent, e.serialization), ScopeOf(s, e.intent);
      if Remembered(s, c).None? {
        NewKeyOwned(s, a);
      } else {
        RememberedIsUsed(s, c);
        hide Remembers, Remembered, Starts;
        if c in s.open {
          hide Dated;
          EpochOwnsKey(s, a);
        } else {
          OldKeyReturns(s, a);
        }
      }
    }
  }

  lemma NewKeyOwned(s: State, a: Attempt)
    requires Dated(s) && OwnKey(s.attempts) && a.key == s.nextKey
    ensures OwnKey(s.attempts + [a])
  {
    hide UsedNow;
  }

  lemma EpochOwnsKey(s: State, a: Attempt)
    requires OwnKey(s.attempts) && a.epoch == EpochOf(s, a.scope) && UsedNow(s, a.scope, a.key)
    ensures OwnKey(s.attempts + [a])
  {
    var j :| 0 <= j < |s.attempts| && s.attempts[j].scope == a.scope && s.attempts[j].key == a.key
             && s.attempts[j].epoch == EpochOf(s, a.scope);
    assert forall i | 0 <= i < |s.attempts| && s.attempts[i].key == a.key :: SameEpoch(s.attempts[i], s.attempts[j]);
  }

  lemma OldKeyReturns(s: State, a: Attempt)
    requires Dated(s) && a.epoch == EpochOf(s, a.scope) && a.scope !in s.open && Used(s, a.scope, a.key)
    ensures !OwnKey(s.attempts + [a])
  {
    hide UsedNow;
    var j :| 0 <= j < |s.attempts| && s.attempts[j].scope == a.scope && s.attempts[j].key == a.key;
    var all := s.attempts + [a];
    assert all[j].key == all[|s.attempts|].key && !SameEpoch(all[j], all[|s.attempts|]);
  }

  lemma KeysStayApart(attempts: seq<Attempt>, more: seq<Attempt>)
    requires attempts <= more
    ensures OneKey(more) ==> OneKey(attempts)
    ensures OwnKey(more) ==> OwnKey(attempts)
  {
    assert forall i | 0 <= i < |attempts| :: attempts[i] == more[i];
  }

  /** In every run, whatever users, clocks, reloads and late answers do: the attempts of an intent
      between two closing outcomes carry one key exactly when no open intent was started with its key in
      neither memory nor journal, and no other attempt carries it exactly when no closed intent was
      started while the journal still gave its old key. */
  lemma {:induction false} OneKeyBetweenClosings(durable: bool, user: Option<Text>, events: seq<Event>)
    ensures var s := Run(Initial(durable, user), events);
            (OneKey(s.attempts) <==> Admits(Initial(durable, user), events, Recalls))
            && (OwnKey(s.attempts) <==> Admits(Initial(durable, user), events, Renews))
  {
    hide Next, Inv, OneKey, OwnKey, Recalls, Renews, Admits;
    if events == [] {
      NoAttempts(durable, user);
    } else {
      var n := |events| - 1;
      var s := Run(Initial(durable, user), events[..n]);
      OneKeyBetweenClosings(durable, user, events[..n]);
      RunKeeps(durable, user, events[..n]);
      AdmitsSnoc(Initial(durable, user), events, Recalls);
      AdmitsSnoc(Initial(durable, user), events, Renews);
      StepAttempts(s, events[n]);
      KeysStayApart(s.attempts, Next(s, events[n]).attempts);
      if OneKey(s.attempts) {
        RecallsIff(s, events[n]);
      }
      if OwnKey(s.attempts) {
        RenewsIff(s, events[n]);
      }
    }
  }

  lemma NoAttempts(durable: bool, user: Option<Text>)
    ensures var s := Initial(durable, user);
            OneKey(s.attempts) && OwnKey(s.attempts) && Run(s, []) == s && Admits(s, [], Recalls)
                && Admits(s, [], Renews)
  {
  }

  /** The keys committed by attempts of one intent between two closing outcomes. */
  ghost function Effects(s: State, scope: Scope, epoch: nat): set<Key> {
    set i | 0 <= i < |s.attempts| && s.attempts[i].scope == scope && s.attempts[i].epoch == epoch
            && s.attempts[i].key in s.committed :: s.attempts[i].key
  }

  /** The server commits a key once, for an attempt that reached it, and none whose operation failed; only
      committed keys are reported as successes. */
  ghost predicate ServerSound(s: State) {
    && (forall i, j | 0 <= i < j < |s.committed| :: s.committed[i] != s.committed[j])
    && (forall i | i in s.succeeded :: i < |s.attempts| && s.attempts[i].key in s.committed)
    && (forall k | k in s.refused :: k !in s.committed)
    && (forall i | i in s.reached :: i < |s.attempts| && i !in s.unasked)
    && (forall k | k in s.committed :: exists i | i in s.reached :: i < |s.attempts| && s.attempts[i].key == k)
  }

  lemma StepServer(s: State, e: Event)
    requires ServerSound(s)
    ensures ServerSound(Next(s, e))
  {
    hide Starts, Settles, ServerSound, OnSettle, OnStart;
    match e
    case Start(intent, serialization, _) => StartServer(s, intent, serialization);
    case Settle(i, reply) =>
      if Settles(s, e) {
        SettleServer(s, i, reply);
      }
    case Commit(i) => CommitServer(s, i);
    case _ => OtherServer(s, Next(s, e));
  }

  lemma OtherServer(s: State, t: State)
    requires ServerSound(s) && t.committed == s.committed && t.succeeded == s.succeeded && t.attempts == s.attempts
    requires t.refused == s.refused && t.reached == s.reached && t.unasked == s.unasked
    ensures ServerSound(t)
  {
  }

  lemma StartServer(s: State, intent: Text, serialization: Text)
    requires ServerSound(s)
    ensures ServerSound(OnStart(s, intent, serialization))
  {
    hide Remembered, WriteDurable;
    var t := OnStart(s, intent, serialization);
    forall k | k in t.committed ensures exists i | i in t.reached :: i < |t.attempts| && t.attempts[i].key == k {
      var i :| i in s.reached && i < |s.attempts| && s.attempts[i].key == k;
      assert t.attempts[i] == s.attempts[i];
    }
  }

  lemma SettleServer(s: State, i: nat, reply: Reply)
    requires ServerSound(s) && Settles(s, Settle(i, reply))
    ensures ServerSound(OnSettle(s, i, reply))
  {
    hide Possible, Surfaced, Closing, DeleteDurable, Blind, CodeLost, Fails, Unasked, EpochOf;
    ResolvesIff(reply);
    var t := OnSettle(s, i, reply);
    assert t.committed == s.committed && t.attempts == s.attempts && t.reached == s.reached;
    assert t.succeeded <= s.succeeded + {i} && t.refused <= s.refused + {s.attempts[i].key};
  }

  lemma CommitServer(s: State, i: nat)
    requires ServerSound(s)
    ensures ServerSound(Next(s, Commit(i)))
  {
    var t := Next(s, Commit(i));
    if i < |s.attempts| && i !in s.unasked {
      forall k | k in t.committed ensures exists j | j in t.reached :: j < |t.attempts| && t.attempts[j].key == k {
        if k in s.committed {
          var j :| j in s.reached && j < |s.attempts| && s.attempts[j].key == k;
          assert j in t.reached;
        } else {
          assert i in t.reached && t.attempts[i].key == k;
        }
      }
    }
  }

  lemma {:induction false} RunServer(s: State, events: seq<Event>)
    requires ServerSound(s)
    ensures ServerSound(Run(s, events))
  {
    hide Next, ServerSound;
    if events != [] {
      RunServer(s, events[..|events| - 1]);
      StepServer(Run(s, events[..|events| - 1]), events[|events| - 1]);
    }
  }

  /** While no open key is forgotten, at most one effect commits per intent between two closing outcomes,
      whatever replies are lost and however late requests arrive, and a reported success means exactly
      one. While no closed key returns either, it is an effect of that epoch alone. */
  lemma AtMostOneEffect(durable: bool, user: Option<Text>, events: seq<Event>, scope: Scope, epoch: nat)
    requires Admits(Initial(durable, user), events, Recalls)
    ensures var s := Run(Initial(durable, user), events);
            |Effects(s, scope, epoch)| <= 1
            && (forall i, j | 0 <= i < j < |s.committed| :: s.committed[i] != s.committed[j])
            && (forall i | i in s.succeeded :: i < |s.attempts|
                  && Effects(s, s.attempts[i].scope, s.attempts[i].epoch) == {s.attempts[i].key})
            && (Admits(Initial(durable, user), events, Renews) ==>
                  forall i, j | i in s.succeeded && j in s.succeeded && s.attempts[i].key == s.attempts[j].key ::
                    SameEpoch(s.attempts[i], s.attempts[j]))
  {
    var s := Run(Initial(durable, user), events);
    RunServer(Initial(durable, user), events);
    OneKeyBetweenClosings(durable, user, events);
    hide Run, Admits, Recalls, Renews;
    forall k, l | k in Effects(s, scope, epoch) && l in Effects(s, scope, epoch) ensures k == l {
      EffectsShareKey(s, scope, epoch, k, l);
    }
    AtMostOneElement(Effects(s, scope, epoch));
    forall i | i in s.succeeded
      ensures Effects(s, s.attempts[i].scope, s.attempts[i].epoch) == {s.attempts[i].key}
    {
      var a := s.attempts[i];
      assert a.key in Effects(s, a.scope, a.epoch);
      forall k | k in Effects(s, a.scope, a.epoch) ensures k == a.key {
        EffectsShareKey(s, a.scope, a.epoch, k, a.key);
      }
    }
  }

  lemma EffectsShareKey(s: State, scope: Scope, epoch: nat, k: Key, l: Key)
    requires OneKey(s.attempts) && k in Effects(s, scope, epoch) && l in Effects(s, scope, epoch)
    ensures k == l
  {
  }

  lemma AtMostOneElement(s: set<Key>)
    requires forall k, l | k in s && l in s :: k == l
    ensures |s| <= 1
  {
    if s != {} {
      var k :| k in s;
      assert s == {k};
    }
  }

  // No effect goes unreported

  /** A reply that leaves the outcome open leaves everything the next attempt needs. */
  lemma UndecidedKeeps(s: State, i: nat, reply: Reply)
    requires Settles(s, Settle(i, reply))
    requires reply.Unreached? || reply.Interrupted?
             || (reply.Answered? && !CodeLost(reply)
                 && (reply.answer.Unavailable? || reply.answer.InProgress? || reply.answer.LeaseLost?
                     || reply.answer.DeviceUnknown? || (reply.answer.Success? && !reply.readable)))
    ensures var t := Next(s, Settle(i, reply));
            t.retryKeys == s.retryKeys && t.journal == s.journal && t.open == s.open && t.epochs == s.epochs
            && t.refused == s.refused && t.succeeded == s.succeeded
  {
    ClosesIff(reply);
    hide Possible, Surfaced, Closing, CodeLost, Blind, DeleteDurable;
  }

  /** In every run, a failure the server reports as final is one: the key is never committed after it. */
  lemma FailureMeansNoEffect(durable: bool, user: Option<Text>, before: seq<Event>, i: nat, reply: Reply,
      events: seq<Event>)
    requires Settles(Run(Initial(durable, user), before), Settle(i, reply)) && Fails(reply)
    ensures var s := Run(Initial(durable, user), before);
            s.attempts[i].key !in Run(Next(s, Settle(i, reply)), events).committed
  {
    var s := Run(Initial(durable, user), before);
    var t := Next(s, Settle(i, reply));
    RunServer(Initial(durable, user), before);
    StepServer(s, Settle(i, reply));
    assert s.attempts[i].key in t.refused;
    hide Next, Run, Settles, Fails;
    RunServer(t, events);
    RefusedStays(t, events, s.attempts[i].key);
  }

  lemma {:induction false} RefusedStays(s: State, events: seq<Event>, key: Key)
    requires key in s.refused
    ensures key in Run(s, events).refused
  {
    hide Next;
    if events != [] {
      RefusedStays(s, events[..|events| - 1], key);
      RefusedGrows(Run(s, events[..|events| - 1]), events[|events| - 1]);
    }
  }

  lemma RefusedGrows(s: State, e: Event)
    ensures s.refused <= Next(s, e).refused
  {
    hide Starts, Settles, Surfaced, Closing, Blind, DeleteDurable, WriteDurable, Remembered;
  }

  /** An intent is not started while an attempt of it is unsettled. */
  predicate Alone(s: State, e: Event) {
    Starts(s, e) ==> forall i | i in s.live && i < |s.attempts| :: s.attempts[i].scope != ScopeOf(s, e.intent)
  }

  /** That is so when the intent has always used one serialization key. */
  lemma OneSlotIsAlone(durable: bool, user: Option<Text>, events: seq<Event>, e: Event)
    requires var s := Run(Initial(durable, user), events);
             e.Start? && forall a | a in s.attempts && a.scope == ScopeOf(s, e.intent) ::
               a.slot == ScopeOf(s, e.serialization)
    ensures Alone(Run(Initial(durable, user), events), e)
  {
    hide Run, Remembers, Dated;
    RunKeeps(durable, user, events);
  }

  /** A reply that says nothing about the operation comes only for a request that asked nothing, and only
      to the first attempt with its key. */
  predicate Told(s: State, e: Event) {
    Settles(s, e) && Blind(e.reply) ==>
      Unasked(e.reply)
      && forall j | 0 <= j < |s.attempts| && s.attempts[j].key == s.attempts[e.attempt].key :: j == e.attempt
  }

  predicate Ongoing(s: State, a: Attempt) { a.scope in s.open && a.epoch == EpochOf(s, a.scope) }

  ghost predicate Among(s: State, some: set<nat>, key: Key) {
    exists i | i in some :: i < |s.attempts| && s.attempts[i].key == key
  }

  /** An unsettled attempt is of its intent's current epoch, and the only one of it. */
  ghost predicate Sole(s: State) {
    && (forall i | i in s.live :: i < |s.attempts| && Ongoing(s, s.attempts[i]))
    && (forall i, j | i in s.live && j in s.live && s.attempts[i].scope == s.attempts[j].scope :: i == j)
  }

  /** The key of a closed epoch was reported as a success, failed for good, or was closed blindly. */
  ghost predicate Explained(s: State) {
    forall a | a in s.attempts ::
      Ongoing(s, a) || Among(s, s.succeeded, a.key) || a.key in s.refused || Among(s, s.blind, a.key)
  }

  /** A blind reply closed the one attempt with its key, which never reached the server. */
  ghost predicate BlindAlone(s: State) {
    forall i | i in s.blind ::
      i < |s.attempts| && i in s.unasked && s.attempts[i].epoch < EpochOf(s, s.attempts[i].scope)
      && forall j | 0 <= j < |s.attempts| && s.attempts[j].key == s.attempts[i].key :: j == i
  }

  lemma StartSole(s: State, e: Event)
    requires Sole(s) && Alone(s, e) && Starts(s, e)
    ensures Sole(Next(s, e))
  {
    hide Remembered, WriteDurable;
  }

  lemma SettleSole(s: State, e: Event)
    requires Sole(s) && Settles(s, e)
    ensures Sole(Next(s, e))
  {
    hide Honest, Surfaced, Closing, Blind, DeleteDurable;
  }

  lemma StepSole(s: State, e: Event)
    requires Sole(s) && Alone(s, e)
    ensures Sole(Next(s, e))
  {
    if Starts(s, e) {
      StartSole(s, e);
    } else if Settles(s, e) {
      SettleSole(s, e);
    } else {
      QuietShape(s, e);
      QuietHistory(s, e);
      hide Next, Starts, Settles, Alone;
    }
  }

  lemma QuietHistory(s: State, e: Event)
    requires !Starts(s, e) && !Settles(s, e)
    ensures var t := Next(s, e);
            t.live <= s.live && t.succeeded == s.succeeded && t.refused == s.refused && t.blind == s.blind
            && t.unasked == s.unasked
  {
    hide Starts, Settles, OnStart, OnSettle;
  }

  lemma AmongGrows(s: State, t: State, some: set<nat>, more: set<nat>, key: Key)
    requires s.attempts <= t.attempts && some <= more && Among(s, some, key)
    ensures Among(t, more, key)
  {
    var i :| i in some && i < |s.attempts| && s.attempts[i].key == key;
    assert i in more && t.attempts[i] == s.attempts[i];
  }

  /** What was explained stays explained while nothing is closed. */
  lemma StillExplained(s: State, t: State, a: Attempt)
    requires s.attempts <= t.attempts && s.succeeded <= t.succeeded && s.refused <= t.refused && s.blind <= t.blind
    requires Among(s, s.succeeded, a.key) || a.key in s.refused || Among(s, s.blind, a.key)
    ensures Among(t, t.succeeded, a.key) || a.key in t.refused || Among(t, t.blind, a.key)
  {
    hide Among;
    if Among(s, s.succeeded, a.key) {
      AmongGrows(s, t, s.succeeded, t.succeeded, a.key);
    } else if Among(s, s.blind, a.key) {
      AmongGrows(s, t, s.blind, t.blind, a.key);
    }
  }

  lemma SettleExplains(s: State, e: Event)
    requires Sole(s) && Explained(s) && OneKey(s.attempts) && Settles(s, e)
    ensures Explained(Next(s, e))
  {
    var t, i := Next(s, e), e.attempt;
    SettleHistory(s, i, e.reply);
    hide Next, Settles, Among, OneKey;
    forall a | a in t.attempts
      ensures Ongoing(t, a) || Among(t, t.succeeded, a.key) || a.key in t.refused || Among(t, t.blind, a.key)
    {
      if !Ongoing(s, a) {
        StillExplained(s, t, a);
      } else if !Ongoing(t, a) {
        SameKeyHere(s, a, i);
        Witness(t, i);
      }
    }
  }

  lemma SameKeyHere(s: State, a: Attempt, i: nat)
    requires OneKey(s.attempts) && a in s.attempts && i < |s.attempts| && SameEpoch(a, s.attempts[i])
    ensures a.key == s.attempts[i].key
  {
  }

  lemma Witness(t: State, i: nat)
    requires i < |t.attempts|
    ensures i in t.succeeded ==> Among(t, t.succeeded, t.attempts[i].key)
    ensures i in t.blind ==> Among(t, t.blind, t.attempts[i].key)
  {
  }

  /** What settling an attempt writes into the history. */
  lemma SettleHistory(s: State, i: nat, reply: Reply)
    requires Settles(s, Settle(i, reply))
    ensures var a, t := s.attempts[i], Next(s, Settle(i, reply));
            t.attempts == s.attempts && s.succeeded <= t.succeeded && s.refused <= t.refused && s.blind <= t.blind
            && ((t.open == s.open && t.epochs == s.epochs)
                || (t.open == s.open - {a.scope} && t.epochs == s.epochs[a.scope := EpochOf(s, a.scope) + 1]
                    && (i in t.succeeded || a.key in t.refused || i in t.blind)))
  {
    ClosesIff(reply);
    ResolvesIff(reply);
    hide Possible, Surfaced, Closing, CodeLost, DeleteDurable;
  }

  lemma StepExplains(s: State, e: Event)
    requires Sole(s) && Explained(s) && OneKey(s.attempts)
    ensures Explained(Next(s, e))
  {
    var t := Next(s, e);
    if Settles(s, e) {
      SettleExplains(s, e);
    } else {
      KeepsHistory(s, e);
      hide Next, Settles, Among, OneKey;
      forall a | a in t.attempts
        ensures Ongoing(t, a) || Among(t, t.succeeded, a.key) || a.key in t.refused || Among(t, t.blind, a.key)
      {
        if a in s.attempts && !Ongoing(s, a) {
          StillExplained(s, t, a);
        }
      }
    }
  }

  lemma KeepsHistory(s: State, e: Event)
    requires !Settles(s, e)
    ensures var t := Next(s, e);
            s.attempts <= t.attempts && t.succeeded == s.succeeded && t.refused == s.refused && t.blind == s.blind
            && t.unasked == s.unasked && t.epochs == s.epochs && s.open <= t.open
            && forall a | a in t.attempts && a !in s.attempts :: Ongoing(t, a)
  {
    if Starts(s, e) {
      hide Remembered, WriteDurable;
    } else {
      QuietShape(s, e);
      QuietHistory(s, e);
      hide Next;
    }
  }

  /** In every run in which no open key is forgotten and no intent is started twice at once: a committed key
      was reported as a success, or is that of its intent's open epoch, whose next attempt carries it, or the
      epoch was closed by a reply that says nothing about the operation. */
  lemma CommittedIsReportedOrOpen(durable: bool, user: Option<Text>, events: seq<Event>, i: nat)
    requires Admits(Initial(durable, user), events, Recalls) && Admits(Initial(durable, user), events, Alone)
    requires var s := Run(Initial(durable, user), events); i < |s.attempts| && s.attempts[i].key in s.committed
    ensures var s := Run(Initial(durable, user), events);
            Ongoing(s, s.attempts[i]) || Among(s, s.succeeded, s.attempts[i].key)
                || Among(s, s.blind, s.attempts[i].key)
  {
    RunExplains(durable, user, events);
    RunServer(Initial(durable, user), events);
    hide Run, Among, Admits, Recalls, Alone;
  }

  lemma {:induction false} RunExplains(durable: bool, user: Option<Text>, events: seq<Event>)
    requires Admits(Initial(durable, user), events, Recalls) && Admits(Initial(durable, user), events, Alone)
    ensures Sole(Run(Initial(durable, user), events)) && Explained(Run(Initial(durable, user), events))
  {
    hide Next, Sole, Explained, Recalls, Alone, Admits, OneKey, OwnKey, Renews;
    if events == [] {
      InitialExplained(durable, user);
    } else {
      var n := |events| - 1;
      var s := Run(Initial(durable, user), events[..n]);
      AdmitsSnoc(Initial(durable, user), events, Recalls);
      AdmitsSnoc(Initial(durable, user), events, Alone);
      RunExplains(durable, user, events[..n]);
      OneKeyBetweenClosings(durable, user, events[..n]);
      StepSole(s, events[n]);
      StepExplains(s, events[n]);
    }
  }

  lemma InitialExplained(durable: bool, user: Option<Text>)
    ensures Sole(Initial(durable, user)) && Explained(Initial(durable, user)) && BlindAlone(Initial(durable, user))
  {
  }

  lemma SettleBlind(s: State, e: Event)
    requires Sole(s) && BlindAlone(s) && Told(s, e) && Settles(s, e)
    ensures BlindAlone(Next(s, e))
  {
    ClosesIff(e.reply);
    hide Possible, Surfaced, Closing, DeleteDurable, CodeLost;
  }

  lemma OtherBlind(s: State, e: Event)
    requires BlindAlone(s) && !Settles(s, e) && OwnKey(Next(s, e).attempts)
    ensures BlindAlone(Next(s, e))
  {
    StepAttempts(s, e);
    KeepsHistory(s, e);
    hide Next, Starts, Settles, Remembered, OwnKey;
    var t := Next(s, e);
    forall i, j | i in t.blind && 0 <= j < |t.attempts|
      ensures t.attempts[j].key == t.attempts[i].key ==> j == i
    {
      assert t.attempts[i] == s.attempts[i] && (j < |s.attempts| ==> t.attempts[j] == s.attempts[j]);
      OwnsEpoch(t.attempts, i, j);
    }
  }

  lemma OwnsEpoch(attempts: seq<Attempt>, i: nat, j: nat)
    requires OwnKey(attempts) && i < |attempts| && j < |attempts|
    ensures attempts[i].key == attempts[j].key ==> SameEpoch(attempts[i], attempts[j])
  {
  }

  lemma {:induction false} RunBlindAlone(durable: bool, user: Option<Text>, events: seq<Event>)
    requires Admits(Initial(durable, user), events, Recalls) && Admits(Initial(durable, user), events, Alone)
    requires Admits(Initial(durable, user), events, Renews) && Admits(Initial(durable, user), events, Told)
    ensures BlindAlone(Run(Initial(durable, user), events))
  {
    hide Next, Sole, Explained, Recalls, Renews, Alone, Told, Admits, OneKey, OwnKey, BlindAlone, Settles;
    if events == [] {
      InitialExplained(durable, user);
    } else {
      var n := |events| - 1;
      var s := Run(Initial(durable, user), events[..n]);
      AdmitsSnoc(Initial(durable, user), events, Recalls);
      AdmitsSnoc(Initial(durable, user), events, Alone);
      AdmitsSnoc(Initial(durable, user), events, Renews);
      AdmitsSnoc(Initial(durable, user), events, Told);
      RunBlindAlone(durable, user, events[..n]);
      RunExplains(durable, user, events[..n]);
      OneKeyBetweenClosings(durable, user, events);
      if Settles(s, events[n]) {
        SettleBlind(s, events[n]);
      } else {
        OtherBlind(s, events[n]);
      }
    }
  }

  /** The effects of an intent that no success was reported for. */
  ghost function Unreported(s: State, scope: Scope): set<Key> {
    set i | 0 <= i < |s.attempts| && s.attempts[i].scope == scope && s.attempts[i].key in s.committed
            && !Among(s, s.succeeded, s.attempts[i].key) :: s.attempts[i].key
  }

  /** Exactly once: when besides no closed key returns and every blind reply is the answer to a first attempt
      that asked nothing, then of all the tries of an intent, across all its epochs, at most one effect is
      unreported, and none once the intent is closed, by whatever outcome. */
  lemma ExactlyOnce(durable: bool, user: Option<Text>, events: seq<Event>, scope: Scope)
    requires Admits(Initial(durable, user), events, Recalls) && Admits(Initial(durable, user), events, Alone)
    requires Admits(Initial(durable, user), events, Renews) && Admits(Initial(durable, user), events, Told)
    ensures var s := Run(Initial(durable, user), events);
            |Unreported(s, scope)| <= 1 && (scope !in s.open ==> Unreported(s, scope) == {})
  {
    var s := Run(Initial(durable, user), events);
    RunExplains(durable, user, events);
    RunBlindAlone(durable, user, events);
    RunServer(Initial(durable, user), events);
    OneKeyBetweenClosings(durable, user, events);
    hide Run, Admits, Recalls, Renews, Alone, Told, OwnKey, OneKey;
    forall a | a in s.attempts && a.key in s.committed && !Among(s, s.succeeded, a.key) ensures Ongoing(s, a) {
      NotBlind(s, a.key);
    }
    forall k, l | k in Unreported(s, scope) && l in Unreported(s, scope) ensures k == l {
      var i :| 0 <= i < |s.attempts| && s.attempts[i].scope == scope && s.attempts[i].key == k
          && Ongoing(s, s.attempts[i]);
      var j :| 0 <= j < |s.attempts| && s.attempts[j].scope == scope && s.attempts[j].key == l
          && Ongoing(s, s.attempts[j]);
      SameKeyHere(s, s.attempts[i], j);
    }
    AtMostOneElement(Unreported(s, scope));
  }

  /** A key that reached the server was not closed blindly. */
  lemma NotBlind(s: State, key: Key)
    requires BlindAlone(s) && ServerSound(s) && key in s.committed
    ensures !Among(s, s.blind, key)
  {
    var j :| j in s.reached && j < |s.attempts| && s.attempts[j].key == key;
    forall i | i in s.blind ensures s.attempts[i].key != key {
      assert s.attempts[j].key == s.attempts[i].key ==> j == i;
    }
  }

  // What the next attempt reuses

  predicate Stored(s: State, user: Text, intent: Text, entry: Entry) {
    s.journal.Some? && s.journal.value.userId == user && intent in s.journal.value.keys
    && s.journal.value.keys[intent] == entry
  }

  predicate Dropped(s: State, user: Text, intent: Text) { Absent(s.journal, user, intent) }

  predicate Absent(journal: Option<Journal>, user: Text, intent: Text) {
    journal.Some? && journal.value.userId == user ==> intent !in journal.value.keys
  }

  /** The age at which an entry is read back. */
  predicate Fresh(entry: Entry, now: int) { 0 <= now - entry.createdAt <= 24 * 60 * 60 * 1000 }

  /** The intent is started again, or a closing outcome of it is reported. */
  predicate Touches(s: State, e: Event, scope: Scope) {
    (Starts(s, e) && ScopeOf(s, e.intent) == scope)
    || (Settles(s, e) && s.attempts[e.attempt].scope == scope && Closing(Surfaced(e.reply)))
  }

  /** The session is cleared, or a durable operation of another user starts. Signing in alone is neither. */
  predicate Drops(s: State, e: Event, user: Text) {
    e.ClearSession? || (Starts(s, e) && s.durable && s.user.Some? && s.user.value != user)
  }

  ghost predicate Untouched(s: State, events: seq<Event>, scope: Scope) {
    forall i | 0 <= i < |events| :: !Touches(Run(s, events[..i]), events[i], scope)
  }

  ghost predicate DropsIn(s: State, events: seq<Event>, user: Text) {
    exists i | 0 <= i < |events| :: Drops(Run(s, events[..i]), events[i], user)
  }

  predicate ReloadIn(events: seq<Event>) { exists e | e in events :: e.Reload? }

  /** An accepted durable start stores the key it is sent with. */
  lemma StartStores(s: State, intent: Text, serialization: Text, crypto: bool)
    requires s.durable && s.user.Some? && Starts(s, Start(intent, serialization, crypto))
    ensures var t := Next(s, Start(intent, serialization, crypto));
            Stored(t, s.user.value, intent, Entry(t.attempts[|s.attempts|].key, s.now))
  {
  }

  lemma StepStored(s: State, e: Event, user: Text, intent: Text, entry: Entry)
    requires Stored(s, user, intent, entry) && !Touches(s, e, Scope(Some(user), intent))
    ensures if Drops(s, e, user) then Dropped(Next(s, e), user, intent) else Stored(Next(s, e), user, intent, entry)
  {
    hide Remembered, DeleteDurable, WriteDurable, Surfaced, Closing, Blind;
    match e
    case Start(name, serialization, _) =>
      if Starts(s, e) {
        StartStored(s, name, serialization, user, intent, entry);
      }
    case Settle(i, r) =>
      if Settles(s, e) && Closing(Surfaced(r)) && s.attempts[i].scope.user.Some? {
        var a := s.attempts[i];
        DeleteElsewhere(s.journal, user, intent, a.scope.user.value, a.scope.name, a.key, s.now);
      }
    case _ =>
  }

  lemma StartStored(s: State, name: Text, serialization: Text, user: Text, intent: Text, entry: Entry)
    requires Stored(s, user, intent, entry) && ScopeOf(s, name) != Scope(Some(user), intent)
    ensures var t := OnStart(s, name, serialization);
            if s.durable && s.user.Some? && s.user.value != user then Dropped(t, user, intent)
            else Stored(t, user, intent, entry)
  {
  }

  /** Deleting another user's or another intent's key leaves an entry alone. */
  lemma DeleteElsewhere(
    journal: Option<Journal>, user: Text, intent: Text, owner: Text, name: Text, key: Key, now: int)
    requires journal.Some? && journal.value.userId == user && intent in journal.value.keys
    requires owner != user || name != intent
    ensures var j := DeleteDurable(journal, owner, name, key, now);
            j.Some? && j.value.userId == user && intent in j.value.keys
            && j.value.keys[intent] == journal.value.keys[intent]
  {
    if owner == user {
      assert intent in journal.value.keys - {name};
    }
  }

  lemma StepDropped(s: State, e: Event, user: Text, intent: Text)
    requires Dropped(s, user, intent) && !Touches(s, e, Scope(Some(user), intent))
    ensures Dropped(Next(s, e), user, intent)
  {
    hide Remembered, Surfaced, Closing, Blind, DeleteDurable, WriteDurable;
    match e
    case Start(name, serialization, _) =>
      if Starts(s, e) && ScopeOf(s, name).user.Some? {
        var t := Next(s, e);
        WriteElsewhere(s.journal, user, intent, s.user.value, name, t.retryKeys[ScopeOf(s, name)], s.now);
      }
    case Settle(i, r) =>
      if Settles(s, e) && Closing(Surfaced(r)) && s.attempts[i].scope.user.Some? {
        var a := s.attempts[i];
        DeleteAddsNone(s.journal, user, intent, a.scope.user.value, a.scope.name, a.key, s.now);
      }
    case _ =>
      assert Next(s, e).journal == s.journal || Next(s, e).journal == None;
  }

  lemma WriteElsewhere(
    journal: Option<Journal>, user: Text, intent: Text, owner: Text, name: Text, key: Key, now: int)
    requires Absent(journal, user, intent) && (owner != user || name != intent)
    ensures Absent(WriteDurable(journal, owner, name, key, now), user, intent)
  {
  }

  lemma DeleteAddsNone(
    journal: Option<Journal>, user: Text, intent: Text, owner: Text, name: Text, key: Key, now: int)
    requires Absent(journal, user, intent)
    ensures Absent(DeleteDurable(journal, owner, name, key, now), user, intent)
  {
  }

  lemma {:induction false} StoredUntilDropped(s: State, events: seq<Event>, user: Text, intent: Text, entry: Entry)
    requires Stored(s, user, intent, entry) && Untouched(s, events, Scope(Some(user), intent))
    ensures if DropsIn(s, events, user) then Dropped(Run(s, events), user, intent)
            else Stored(Run(s, events), user, intent, entry)
  {
    hide Next, Stored, Dropped, Touches, Drops;
    if events != [] {
      var n := |events| - 1;
      UntouchedSnoc(s, events, Scope(Some(user), intent));
      DropsSnoc(s, events, user);
      StoredUntilDropped(s, events[..n], user, intent, entry);
      if DropsIn(s, events[..n], user) {
        StepDropped(Run(s, events[..n]), events[n], user, intent);
      } else {
        StepStored(Run(s, events[..n]), events[n], user, intent, entry);
      }
    }
  }

  lemma {:induction false} DroppedStays(s: State, events: seq<Event>, user: Text, intent: Text)
    requires Dropped(s, user, intent) && Untouched(s, events, Scope(Some(user), intent))
    ensures Dropped(Run(s, events), user, intent)
  {
    hide Next, Dropped, Touches;
    if events != [] {
      var n := |events| - 1;
      UntouchedSnoc(s, events, Scope(Some(user), intent));
      DroppedStays(s, events[..n], user, intent);
      StepDropped(Run(s, events[..n]), events[n], user, intent);
    }
  }

  lemma UntouchedSnoc(s: State, events: seq<Event>, scope: Scope)
    requires events != [] && Untouched(s, events, scope)
    ensures var n := |events| - 1;
            Untouched(s, events[..n], scope) && !Touches(Run(s, events[..n]), events[n], scope)
  {
    hide Run, Touches;
    var n := |events| - 1;
    forall i | 0 <= i < n ensures !Touches(Run(s, events[..n][..i]), events[..n][i], scope) {
      assert events[..n][..i] == events[..i];
    }
  }

  lemma DropsSnoc(s: State, events: seq<Event>, user: Text)
    requires events != []
    ensures var n := |events| - 1;
            DropsIn(s, events, user) <==> DropsIn(s, events[..n], user) || Drops(Run(s, events[..n]), events[n], user)
  {
    hide Run, Drops;
    var n := |events| - 1;
    forall i | 0 <= i < n ensures events[..n][..i] == events[..i] && events[..n][i] == events[i] {
    }
    if DropsIn(s, events[..n], user) {
      var i :| 0 <= i < n && Drops(Run(s, events[..n][..i]), events[..n][i], user);
      assert Drops(Run(s, events[..i]), events[i], user);
    }
    if DropsIn(s, events, user) {
      var i :| 0 <= i < |events| && Drops(Run(s, events[..i]), events[i], user);
      assert i < n ==> Drops(Run(s, events[..n][..i]), events[..n][i], user);
    }
  }

  /** In every run, whatever users sign in and out and wherever the clock goes: a stored key that its own
      user neither starts again nor settles is read back exactly while no session was cleared, no durable
      operation of another user was started, and its age is between zero and the time-to-live. */
  lemma DurableKeySurvivesIff(s: State, events: seq<Event>, user: Text, intent: Text, entry: Entry)
    requires Stored(s, user, intent, entry) && Untouched(s, events, Scope(Some(user), intent))
    ensures var t := Run(s, events);
            ReadDurable(t.journal, user, intent, t.now)
            == if !DropsIn(s, events, user) && Fresh(entry, t.now) then Some(entry.key) else None
  {
    hide Run, Untouched, DropsIn;
    StoredUntilDropped(s, events, user, intent, entry);
  }

  /** What memory and the set of open intents hold of a scope. */
  predicate InMemory(s: State, scope: Scope, key: Option<Key>, isOpen: bool) {
    (scope in s.retryKeys <==> key.Some?) && (key.Some? ==> s.retryKeys[scope] == key.value)
    && (scope in s.open <==> isOpen)
  }

  lemma StepMemory(s: State, e: Event, scope: Scope, key: Option<Key>, isOpen: bool)
    requires InMemory(s, scope, key, isOpen) && !Touches(s, e, scope)
    ensures InMemory(Next(s, e), scope, if e.Reload? then None else key, isOpen)
  {
    hide Remembered, WriteDurable, DeleteDurable, Surfaced, Closing, Blind;
  }

  lemma {:induction false} MemoryUntilReload(s: State, events: seq<Event>, scope: Scope, key: Option<Key>, isOpen: bool)
    requires InMemory(s, scope, key, isOpen) && Untouched(s, events, scope)
    ensures InMemory(Run(s, events), scope, if ReloadIn(events) then None else key, isOpen)
  {
    hide Next, InMemory, Touches;
    if events != [] {
      var n := |events| - 1;
      UntouchedSnoc(s, events, scope);
      MemoryUntilReload(s, events[..n], scope, key, isOpen);
      StepMemory(Run(s, events[..n]), events[n], scope, if ReloadIn(events[..n]) then None else key, isOpen);
      assert events == events[..n] + [events[n]];
    }
  }

  lemma StartInMemory(s: State, e: Event)
    requires Starts(s, e)
    ensures InMemory(Next(s, e), ScopeOf(s, e.intent), Some(Next(s, e).attempts[|s.attempts|].key), true)
  {
    hide Remembered, WriteDurable;
  }

  /** In every run: the next attempt of an intent that was started and neither started again nor closed
      since reuses its key exactly when the page was not reloaded, or when the key was journaled, nothing
      dropped it and its age is in range. Otherwise it remembers none. */
  lemma KeySurvivesIff(s: State, start: Event, events: seq<Event>)
    requires Starts(s, start) && Untouched(Next(s, start), events, ScopeOf(s, start.intent))
    ensures var scope, after, t := ScopeOf(s, start.intent), Next(s, start), Run(Next(s, start), events);
            var key := after.attempts[|s.attempts|].key;
            scope in t.open
            && Remembered(t, scope)
               == if !ReloadIn(events)
                     || (scope.user.Some? && !DropsIn(after, events, scope.user.value)
                        && Fresh(Entry(key, s.now), t.now))
                  then Some(key) else None
  {
    var scope, after := ScopeOf(s, start.intent), Next(s, start);
    StartInMemory(s, start);
    var key := after.attempts[|s.attempts|].key;
    if scope.user.Some? {
      StartStores(s, start.intent, start.serialization, start.crypto);
    }
    hide Next, Run, Starts, Untouched, Stored, ReadDurable, Fresh, DropsIn, ReloadIn;
    MemoryUntilReload(after, events, scope, Some(key), true);
    if scope.user.Some? {
      DurableKeySurvivesIff(after, events, scope.user.value, scope.name, Entry(key, s.now));
    }
  }

  /** What a closing outcome leaves: the entry goes exactly when the key is the attempt's and in range. */
  lemma SettleLeaves(s: State, i: nat, r: Reply, user: Text, intent: Text, entry: Entry)
    requires Settles(s, Settle(i, r)) && Closing(Surfaced(r)) && s.attempts[i].scope == Scope(Some(user), intent)
    requires Stored(s, user, intent, entry)
    ensures var t := Next(s, Settle(i, r));
            InMemory(t, Scope(Some(user), intent), None, false)
            && if entry.key == s.attempts[i].key && Fresh(entry, s.now) then Dropped(t, user, intent)
               else Stored(t, user, intent, entry)
  {
    hide Surfaced, Closing, Blind;
  }

  /** In every run: a closed intent that is not started again remembers its journaled key exactly when
      the closing outcome met another key or an age out of range, so that the entry stayed, nothing
      dropped it, and its age is in range again. With a clock that is not set back its own key never
      returns. */
  lemma ClosedKeyRevivesIff(s: State, i: nat, r: Reply, events: seq<Event>, user: Text, intent: Text, entry: Entry)
    requires Settles(s, Settle(i, r)) && Closing(Surfaced(r)) && s.attempts[i].scope == Scope(Some(user), intent)
    requires Stored(s, user, intent, entry) && Untouched(Next(s, Settle(i, r)), events, Scope(Some(user), intent))
    ensures var after, t := Next(s, Settle(i, r)), Run(Next(s, Settle(i, r)), events);
            var own := entry.key == s.attempts[i].key;
            Scope(Some(user), intent) !in t.open
            && Remembered(t, Scope(Some(user), intent))
               == (if !(own && Fresh(entry, s.now)) && !DropsIn(after, events, user) && Fresh(entry, t.now)
                   then Some(entry.key) else None)
            && (own && entry.createdAt <= s.now <= t.now ==> Remembered(t, Scope(Some(user), intent)) == None)
  {
    var scope, after := Scope(Some(user), intent), Next(s, Settle(i, r));
    SettleLeaves(s, i, r, user, intent, entry);
    hide Next, Run, Settles, Untouched, DropsIn, Closing, Surfaced;
    MemoryUntilReload(after, events, scope, None, false);
    if entry.key == s.attempts[i].key && Fresh(entry, s.now) {
      DroppedStays(after, events, user, intent);
    } else {
      DurableKeySurvivesIff(after, events, user, intent, entry);
    }
  }

  /** A key is forgotten, and costs a second effect: another user's operation between an uncertain attempt
      and a reload makes the next attempt of the same open intent carry a second key, and both take effect. */
  lemma AnotherUserForgetsTheKey(user: Text, another: Text, intent: Text, other: Text)
    requires user != another
    ensures var s := Run(Initial(true, Some(user)),
                         [Start(intent, intent, true), SwitchUser(Some(another)), Start(other, other, true),
                          SwitchUser(Some(user)), Reload, Start(intent, intent, true), Commit(0), Commit(2)]);
            |s.attempts| == 3 && SameEpoch(s.attempts[0], s.attempts[2])
                && s.attempts[0].scope == Scope(Some(user), intent)
            && s.attempts[0].key != s.attempts[2].key && |Effects(s, Scope(Some(user), intent), 0)| == 2
  {
    var s0, start := Initial(true, Some(user)), Start(intent, intent, true);
    var s3 := OtherUserStarts(user, another, intent, other);
    var s6 := StartsAgain(s3, user, another, intent, other);
    var all := [start, SwitchUser(Some(another)), Start(other, other, true),
                SwitchUser(Some(user)), Reload, start, Commit(0), Commit(2)];
    hide Next, Run, Effects, SameEpoch;
    RunOfEight(s0, all);
    BothCommit(s6, Scope(Some(user), intent));
  }

  /** The first user's attempt, then the other user's. */
  lemma OtherUserStarts(user: Text, another: Text, intent: Text, other: Text) returns (t: State)
    requires user != another
    ensures var s := Next(Initial(true, Some(user)), Start(intent, intent, true));
            t == Next(Next(s, SwitchUser(Some(another))), Start(other, other, true))
    ensures |t.attempts| == 2 && t.attempts[0] == Attempt(Scope(Some(user), intent), Scope(Some(user), intent), 0, 0)
    ensures t.nextKey == 2 && t.durable && t.epochs == map[] && t.committed == [] && t.refused == {} && t.unasked == {}
    ensures t.attempts[1].scope == Scope(Some(another), other)
    ensures t.journal.Some? && t.journal.value.userId == another
  {
    var s1 := Next(Initial(true, Some(user)), Start(intent, intent, true));
    var s2 := Next(s1, SwitchUser(Some(another)));
    assert s1.nextKey == 1 && s1.retryKeys == map[Scope(Some(user), intent) := 0]
        && s1.pending.Keys == {Scope(Some(user), intent)};
    t := Next(s2, Start(other, other, true));
  }

  /** The first user returns, reloads the page and tries again: a new key. */
  lemma StartsAgain(s: State, user: Text, another: Text, intent: Text, other: Text) returns (t: State)
    requires user != another && |s.attempts| == 2 && s.attempts[1].scope == Scope(Some(another), other)
    requires s.attempts[0] == Attempt(Scope(Some(user), intent), Scope(Some(user), intent), 0, 0)
    requires s.nextKey == 2 && s.durable && s.epochs == map[] && s.committed == [] && s.refused == {} && s.unasked == {}
    requires s.journal.Some? && s.journal.value.userId == another
    ensures t == Next(Next(Next(s, SwitchUser(Some(user))), Reload), Start(intent, intent, true))
    ensures t.attempts == s.attempts + [Attempt(Scope(Some(user), intent), Scope(Some(user), intent), 2, 0)]
            && t.committed == [] && t.refused == {} && t.unasked == {}
  {
    t := Next(Next(Next(s, SwitchUser(Some(user))), Reload), Start(intent, intent, true));
  }

  lemma BothCommit(s: State, scope: Scope)
    requires |s.attempts| == 3 && s.attempts[0] == Attempt(scope, scope, 0, 0)
             && s.attempts[2] == Attempt(scope, scope, 2, 0)
    requires s.attempts[1].scope != scope && s.committed == [] && s.refused == {} && s.unasked == {}
    ensures var t := Next(Next(s, Commit(0)), Commit(2));
            t.attempts == s.attempts && |Effects(t, scope, 0)| == 2
  {
    var t := Next(Next(s, Commit(0)), Commit(2));
    assert t.committed == [0, 2];
    assert Effects(t, scope, 0) == {0, 2};
  }

  lemma RunOfEight(s: State, events: seq<Event>)
    requires |events| == 8
    ensures var t := Next(Next(Next(s, events[0]), events[1]), events[2]);
            var u := Next(Next(Next(t, events[3]), events[4]), events[5]);
            Run(s, events) == Next(Next(u, events[6]), events[7])
  {
    hide Next, Run;
    RunStep(s, events, 0);
    RunStep(s, events, 1);
    RunStep(s, events, 2);
    RunStep(s, events, 3);
    RunStep(s, events, 4);
    RunStep(s, events, 5);
    RunStep(s, events, 6);
    RunStep(s, events, 7);
    assert events[..8] == events;
  }

  lemma RunStep(s: State, events: seq<Event>, k: nat)
    requires k < |events|
    ensures Run(s, events[..0]) == s && Run(s, events[..k + 1]) == Next(Run(s, events[..k]), events[k])
  {
    hide Next;
    assert events[..k + 1][..k] == events[..k];
  }

  /** A blind reply costs a second effect, whichever it is: the first request took effect but its connection
      failed; the retry is turned away, or fails before it is sent, or its undecided answer loses its code;
      the gate takes that for a failure of the operation, and the next try carries a new key. */
  lemma ABlindReplyForgetsACommittedKey(user: Option<Text>, intent: Text, reply: Reply)
    requires Possible(reply) && Blind(reply)
    ensures var s := Run(Initial(false, user),
                         [Start(intent, intent, true), Commit(0), Settle(0, Unreached), Start(intent, intent, true),
                          Settle(1, reply), Start(intent, intent, true), Commit(2), Settle(2, DONE)]);
            s.committed == [0, 1] && s.succeeded == {2} && s.open == {} && |s.attempts| == 3
            && s.attempts[0].key == s.attempts[1].key == 0 && s.attempts[2].key == 1
  {
    var start := Start(intent, intent, true);
    var s4 := RetriedAfterCommit(user, intent);
    var s5 := ClosedBlindly(s4, intent, reply);
    var t := SecondEffect(s5, intent);
    var all := [start, Commit(0), Settle(0, Unreached), start, Settle(1, reply), start, Commit(2), Settle(2, DONE)];
    hide Next, Run;
    RunOfEight(Initial(false, user), all);
  }

  lemma RetriedAfterCommit(user: Option<Text>, intent: Text) returns (t: State)
    ensures var start := Start(intent, intent, true);
            t == Next(Next(Next(Next(Initial(false, user), start), Commit(0)), Settle(0, Unreached)), start)
    ensures var c := Scope(None, intent);
            t.attempts == [Attempt(c, c, 0, 0), Attempt(c, c, 0, 0)] && t.live == {1} && t.pending == map[c := 1]
            && t.retryKeys == map[c := 0] && t.open == {c} && t.epochs == map[]
    ensures !t.durable && t.committed == [0] && t.nextKey == 1 && t.reached == {0} && t.refused == {}
            && t.unasked == {} && t.succeeded == {} && t.blind == {}
  {
    var start, c := Start(intent, intent, true), Scope(None, intent);
    var s := Next(Next(Initial(false, user), start), Commit(0));
    assert s.attempts == [Attempt(c, c, 0, 0)] && s.live == {0} && s.retryKeys == map[c := 0] && s.open == {c};
    var u := Next(s, Settle(0, Unreached));
    assert u.pending == map[] && u.retryKeys == map[c := 0] && u.live == {} && u.open == {c};
    t := Next(u, start);
  }

  lemma ClosedBlindly(s: State, intent: Text, reply: Reply) returns (t: State)
    requires Possible(reply) && Blind(reply)
    requires var c := Scope(None, intent);
             s.attempts == [Attempt(c, c, 0, 0), Attempt(c, c, 0, 0)] && s.live == {1} && s.pending == map[c := 1]
             && s.retryKeys == map[c := 0] && s.open == {c} && s.epochs == map[]
    requires !s.durable && s.committed == [0] && s.nextKey == 1 && s.reached == {0} && s.refused == {}
             && s.succeeded == {} && s.unasked == {}
    ensures t == Next(s, Settle(1, reply))
    ensures var c := Scope(None, intent);
            t.attempts == s.attempts && t.live == {} && t.pending == map[] && t.retryKeys == map[] && t.open == {}
            && t.epochs == map[c := 1] && !t.durable && t.committed == [0] && t.nextKey == 1 && t.refused == {}
            && t.unasked <= {1} && t.succeeded == {}
  {
    ClosesIff(reply);
    ResolvesIff(reply);
    assert !Fails(reply) && !Surfaced(reply).Resolved?;
    hide Possible, Surfaced, Closing, CodeLost;
    t := Next(s, Settle(1, reply));
  }

  lemma SecondEffect(s: State, intent: Text) returns (t: State)
    requires var c := Scope(None, intent);
             s.attempts == [Attempt(c, c, 0, 0), Attempt(c, c, 0, 0)] && s.live == {} && s.pending == map[]
             && s.retryKeys == map[] && s.open == {} && s.epochs == map[c := 1]
    requires !s.durable && s.committed == [0] && s.nextKey == 1 && s.refused == {} && s.unasked <= {1}
             && s.succeeded == {}
    ensures t == Next(Next(Next(s, Start(intent, intent, true)), Commit(2)), Settle(2, DONE))
    ensures var c := Scope(None, intent);
            t.attempts == s.attempts + [Attempt(c, c, 1, 1)] && t.committed == [0, 1] && t.succeeded == {2}
            && t.open == {}
  {
    var c := Scope(None, intent);
    var u := Next(s, Start(intent, intent, true));
    assert u.attempts == s.attempts + [Attempt(c, c, 1, 1)] && u.live == {2} && u.open == {c};
    var w := Next(u, Commit(2));
    assert w.committed == [0, 1] && Settles(w, Settle(2, DONE)) && Surfaced(DONE) == Resolved;
    t := Next(w, Settle(2, DONE));
  }

  const DONE := Answered(Success(200), true)

  /** A key returns too, and costs an effect: the clock is behind when the success is reported, so the
      entry is kept; set right again, the journal gives the key to the next operation of the same intent,
      which the server takes for a repetition and reports as a success. */
  lemma AClockSetBackRevivesAClosedKey(user: Text, intent: Text)
    ensures var s := Run(Initial(true, Some(user)),
                         [Start(intent, intent, true), Commit(0), Tick(-1), Settle(0, DONE), Tick(0),
                          Start(intent, intent, true), Commit(1), Settle(1, DONE)]);
            |s.attempts| == 2 && s.attempts[0].key == s.attempts[1].key && !SameEpoch(s.attempts[0], s.attempts[1])
            && s.succeeded == {0, 1} && |s.committed| == 1
  {
    var start := Start(intent, intent, true);
    var s4 := ClosedTooEarly(user, intent);
    var s8 := StartsWithOldKey(s4, user, intent);
    var all := [start, Commit(0), Tick(-1), Settle(0, DONE), Tick(0), start, Commit(1), Settle(1, DONE)];
    hide Next, Run;
    RunOfEight(Initial(true, Some(user)), all);
  }

  lemma ClosedTooEarly(user: Text, intent: Text) returns (t: State)
    ensures var s := Next(Next(Initial(true, Some(user)), Start(intent, intent, true)), Commit(0));
            t == Next(Next(s, Tick(-1)), Settle(0, DONE))
    ensures var c := Scope(Some(user), intent);
            t.attempts == [Attempt(c, c, 0, 0)] && EpochOf(t, c) == 1 && c !in t.retryKeys && c !in t.pending
    ensures t.durable && t.user == Some(user) && t.committed == [0] && t.succeeded == {0} && t.live == {}
            && t.refused == {} && t.unasked == {}
    ensures t.journal == Some(Journal(user, map[intent := Entry(0, 0)]))
  {
    var s := Next(Next(Initial(true, Some(user)), Start(intent, intent, true)), Commit(0));
    assert s.live == {0} && s.attempts == [Attempt(Scope(Some(user), intent), Scope(Some(user), intent), 0, 0)];
    assert s.committed == [0] && s.journal == Some(Journal(user, map[intent := Entry(0, 0)]));
    var u := Next(s, Tick(-1));
    assert ReadDurable(u.journal, user, intent, u.now) == None;
    t := Next(u, Settle(0, DONE));
  }

  lemma StartsWithOldKey(s: State, user: Text, intent: Text) returns (t: State)
    requires var c := Scope(Some(user), intent);
             s.attempts == [Attempt(c, c, 0, 0)] && EpochOf(s, c) == 1 && c !in s.retryKeys && c !in s.pending
    requires s.durable && s.user == Some(user) && s.committed == [0] && s.succeeded == {0} && s.live == {}
             && s.refused == {} && s.unasked == {}
    requires s.journal == Some(Journal(user, map[intent := Entry(0, 0)]))
    ensures t == Next(Next(Next(Next(s, Tick(0)), Start(intent, intent, true)), Commit(1)), Settle(1, DONE))
    ensures var c := Scope(Some(user), intent); t.attempts == s.attempts + [Attempt(c, c, 0, 1)]
    ensures t.committed == [0] && t.succeeded == {0, 1}
  {
    var u := OldKeyAgain(s, user, intent);
    t := Next(Next(u, Commit(1)), Settle(1, DONE));
    hide Next;
    Repeats(u);
  }

  lemma OldKeyAgain(s: State, user: Text, intent: Text) returns (u: State)
    requires var c := Scope(Some(user), intent); EpochOf(s, c) == 1 && c !in s.retryKeys && c !in s.pending
    requires s.durable && s.user == Some(user) && s.journal == Some(Journal(user, map[intent := Entry(0, 0)]))
    requires |s.attempts| == 1 && s.live == {}
    ensures u == Next(Next(s, Tick(0)), Start(intent, intent, true))
    ensures var c := Scope(Some(user), intent);
            u.attempts == s.attempts + [Attempt(c, c, 0, 1)] && u.live == {1} && u.committed == s.committed
            && u.succeeded == s.succeeded && u.refused == s.refused && u.unasked == s.unasked
  {
    var v := Next(s, Tick(0));
    assert Remembered(v, Scope(Some(user), intent)) == Some(0);
    u := Next(v, Start(intent, intent, true));
    assert u.live == {1};
  }

  lemma Repeats(u: State)
    requires |u.attempts| == 2 && u.attempts[1].key == 0 && u.live == {1}
    requires u.committed == [0] && u.succeeded == {0} && u.refused == {} && u.unasked == {}
    ensures var t := Next(Next(u, Commit(1)), Settle(1, DONE));
            t.attempts == u.attempts && t.committed == [0] && t.succeeded == {0, 1}
  {
    var w := Next(u, Commit(1));
    assert w.committed == [0] && Settles(w, Settle(1, DONE)) && Surfaced(DONE) == Resolved;
  }

  /** What a settled request changes of the page and of storage. */
  lemma SettleShape(s: State, i: nat, reply: Reply)
    requires i in s.live && Honest(s, i, reply)
    ensures var a, t := s.attempts[i], OnSettle(s, i, reply);
            var closes := Closing(Surfaced(reply));
            Next(s, Settle(i, reply)) == t && t.attempts == s.attempts && t.durable == s.durable
            && t.pending == (if a.slot in s.pending && s.pending[a.slot] == i then s.pending - {a.slot} else s.pending)
            && t.retryKeys == (if closes then s.retryKeys - {a.scope} else s.retryKeys)
            && t.journal == (if closes && a.scope.user.Some?
                             then DeleteDurable(s.journal, a.scope.user.value, a.scope.name, a.key, s.now)
                             else s.journal)
  {
    hide DeleteDurable, Surfaced, Closing, Blind, Possible;
  }

  /** What the handlers of one started request have captured. */
  datatype Request = Request(id: nat, retryKey: Scope, pendingKey: Scope, key: Key)

  class Storage {
    var journal: Option<Journal>
  }

  /** `IdempotentOperationGate`: each method makes exactly one step of the protocol. */
  class Gate {
    const durable: bool
    const storage: Storage
    var pending: map<Scope, nat>
    var retryKeys: map<Scope, Key>
    /** Identity of the next request. */
    var requests: nat
    ghost var world: State

    ghost predicate Valid()
      reads this, storage
    {
      requests == |world.attempts|
    }

    ghost function View(): State
      reads this, storage
    {
      world.(durable := durable, retryKeys := retryKeys, pending := pending, journal := storage.journal)
    }

    /** A page load: storage is all that is left. */
    constructor (durable: bool, storage: Storage, requests: nat, ghost before: State)
      requires before.durable == durable && before.journal == storage.journal && requests == |before.attempts|
      ensures Valid() && View() == Next(before, Reload)
      ensures this.storage == storage
    {
      this.durable, this.storage := durable, storage;
      pending, retryKeys, this.requests := map[], map[], requests;
      world := before.(live := {});
    }

    /** Starts the operation under the remembered or a new key; nothing happens while another request
        holds the slot, or when no key can be had. */
    method Start(intent: Text, serialization: Text, user: Option<Text>, now: int, created: Option<Key>)
      returns (request: Option<Request>)
      requires Valid() && user == world.user && now == world.now
      requires created.Some? ==> created.value == world.nextKey
      modifies this, storage
      ensures Valid() && View() == Next(old(View()), Event.Start(intent, serialization, created.Some?))
      ensures request.Some? == Starts(old(View()), Event.Start(intent, serialization, created.Some?))
      ensures request.Some? ==> Owns(request.value) && View().attempts[request.value.id].key == request.value.key
    {
      hide ReadDurable, WriteDurable;
      ghost var before := View();
      var owner := if durable then user else None;
      var retryKey, pendingKey := Scope(owner, intent), Scope(owner, serialization);
      if pendingKey in pending {
        return None;
      }
      var key := created;
      if retryKey in retryKeys {
        key := Some(retryKeys[retryKey]);
      } else if owner.Some? {
        var known := ReadDurable(storage.journal, owner.value, intent, now);
        if known.Some? {
          key := known;
        }
      }
      if key.None? {
        return None;
      }
      retryKeys := retryKeys[retryKey := key.value];
      if owner.Some? {
        storage.journal := WriteDurable(storage.journal, owner.value, intent, key.value, now);
      }
      pending := pending[pendingKey := requests];
      requests := requests + 1;
      world := OnStart(before, intent, serialization);
      return Some(Request(requests - 1, retryKey, pendingKey, key.value));
    }

    /** The request is an attempt of this gate's page. */
    ghost predicate Owns(request: Request)
      reads this
    {
      request.id < |world.attempts| && request.id in world.live
      && var a := world.attempts[request.id];
         a.scope == request.retryKey && a.slot == request.pendingKey && a.key == request.key
    }

    /** The request's promise settles: a closing outcome forgets the key, an uncertain one keeps it. */
    method Settled(request: Request, result: Result, now: int, ghost reply: Reply)
      requires Valid() && Owns(request) && now == world.now
      requires Honest(world, request.id, reply) && result == Surfaced(reply)
      modifies this, storage
      ensures Valid() && View() == Next(old(View()), Settle(request.id, reply))
    {
      ghost var before := View();
      SettleShape(before, request.id, reply);
      hide DeleteDurable, Surfaced, DeliveryUncertain, Honest, OnSettle, Next;
      if result.Resolved? || !DeliveryUncertain(result.error) {
        retryKeys := retryKeys - {request.retryKey};
        if request.retryKey.user.Some? {
          storage.journal := DeleteDurable(storage.journal, request.retryKey.user.value, request.retryKey.name,
              request.key, now);
        }
      }
      if request.pendingKey in pending && pending[request.pendingKey] == request.id {
        pending := pending - {request.pendingKey};
      }
      world := OnSettle(before, request.id, reply);
    }
  }
}
