/** The replay guards of payment corrections and raw-stock adjustments, joined with the gate that
    keys their requests: after an uncertain outcome the payload and the key are frozen together. */
module ReplayGuard {
  import opened Common
  import opened JsonString
  import opened JsonCanon
  import opened JsTrim
  import opened Transport
  import Gate = OperationGate

  /** A finance order, or a raw material of the warehouse. */
  datatype Subject = Order(id: Text) | Material(id: Text)

  /** What a draft asks for; a quantity is carried by its number text. */
  datatype Payload =
    | Correction(kind: Text, target: Text, expectedStatus: Text, reason: Text)
    | Adjustment(actualQty: Text, reason: Text)

  datatype Command = Command(key: Gate.Key, payload: Payload)

  predicate Fits(subject: Subject, p: Payload) {
    (subject.Order? <==> p.Correction?) && (p.Adjustment? ==> NumberText(p.actualQty))
  }

  function Normalize(p: Payload): Payload { p.(reason := Trim(p.reason)) }

  const CORRECTION_PREFIX: Text := Ascii("finance:payment-correction:")
  const ADJUSTMENT_PREFIX: Text := Ascii("warehouse:raw-adjust:")

  /** The array whose `JSON.stringify` follows the prefix; without objects that text is `canonicalJson`. */
  function IntentArray(subject: Subject, p: Payload): Json {
    match p
    case Correction(kind, target, status, reason) => Arr([Str(subject.id), Str(kind), Str(target), Str(status),
        Str(reason)])
    case Adjustment(qty, reason) => Arr([Str(subject.id), Num(qty), Str(reason)])
  }

  /** `financePaymentCorrectionIntent` and `warehouseRawAdjustmentIntent`. */
  function Intent(subject: Subject, draft: Payload): Text {
    var p := if draft.Correction? then Normalize(draft) else draft;
    (if p.Correction? then CORRECTION_PREFIX else ADJUSTMENT_PREFIX) + CanonicalJson(IntentArray(subject, p))
  }

  /** The intent text determines the subject and the normalized payload. */
  lemma IntentInjective(x: Subject, p: Payload, y: Subject, q: Payload)
    requires Fits(x, p) && Fits(y, q) && p == Normalize(p) && q == Normalize(q)
    requires Intent(x, p) == Intent(y, q)
    ensures x == y && p == q
  {
    hide CanonicalJson;
    var prefix := if p.Correction? then CORRECTION_PREFIX else ADJUSTMENT_PREFIX;
    assert Intent(x, p)[0] == prefix[0];
    assert p.Correction? <==> q.Correction?;
    assert CanonicalJson(IntentArray(x, p)) == Intent(x, p)[|prefix|..];
    assert CanonicalJson(IntentArray(y, q)) == Intent(y, q)[|prefix|..];
    CanonicalIffEquivalent(IntentArray(x, p), IntentArray(y, q));
    SameItems(x, p, y, q);
  }

  lemma SameItems(x: Subject, p: Payload, y: Subject, q: Payload)
    requires Fits(x, p) && Fits(y, q) && (p.Correction? <==> q.Correction?)
    requires Equivalent(IntentArray(x, p), IntentArray(y, q))
    ensures x == y && p == q
  {
    var a, b := IntentArray(x, p).items, IntentArray(y, q).items;
    forall i | 0 <= i < |a| ensures a[i] == b[i] {
      assert Equivalent(a[i], b[i]);
    }
    assert a[0] == b[0] && a[1] == b[1] && a[2] == b[2];
    if p.Correction? {
      assert a[3] == b[3] && a[4] == b[4];
    }
  }

  // What the guards decide

  datatype Refusal = RetryConflict(retained: Payload) | DifferentKey

  type Retained = map<Subject, Command>

  function Prepared(retained: Retained, subject: Subject, draft: Payload): Outcome<Payload, Refusal> {
    var p := Normalize(draft);
    if subject !in retained then Returned(p)
    else if retained[subject].payload != p then Thrown(RetryConflict(retained[subject].payload))
    else Returned(retained[subject].payload)
  }

  /** The command to send; only the correction guard compares the key, the warehouse sends the payload
      under whatever key the gate gives. */
  function CommandFor(retained: Retained, subject: Subject, p: Payload, key: Gate.Key): Outcome<Command, Refusal> {
    if subject.Material? then Returned(Command(key, p))
    else if subject !in retained then Returned(Command(key, Normalize(p)))
    else if retained[subject].payload != Normalize(p) then Thrown(RetryConflict(retained[subject].payload))
    else if retained[subject].key != key then Thrown(DifferentKey)
    else Returned(retained[subject])
  }

  function AfterOutcome(retained: Retained, subject: Subject, c: Command, r: Result): Retained {
    if Closing(r) then retained - {subject}
    else if subject in retained then retained
    else retained[subject := c]
  }

  /** The intent of a correction does not depend on white space around its reason. */
  lemma IntentNormalizes(subject: Subject, draft: Payload)
    requires draft.Correction?
    ensures Intent(subject, draft) == Intent(subject, Normalize(draft))
  {
    TrimIdempotent(draft.reason);
    hide Trim, CanonicalJson;
  }

  /** Without a retained command every draft gets its command, under the key at hand; with one, an order's
      draft gets the retained command or nothing, and exactly when payload and key are the retained ones. */
  lemma CommandIff(retained: Retained, subject: Subject, p: Payload, key: Gate.Key)
    ensures subject.Order? && subject in retained ==>
              (CommandFor(retained, subject, p, key) == Returned(retained[subject]) <==>
                 p.(reason := Trim(p.reason)) == retained[subject].payload && key == retained[subject].key)
              && (CommandFor(retained, subject, p, key).Returned? ==>
                    CommandFor(retained, subject, p, key).value == retained[subject])
    ensures subject.Order? && subject !in retained ==>
              CommandFor(retained, subject, p, key) == Returned(Command(key, p.(reason := Trim(p.reason))))
    ensures subject.Material? ==> CommandFor(retained, subject, p, key) == Returned(Command(key, p))
    ensures Prepared(retained, subject, p).Returned? <==>
              subject in retained ==> retained[subject].payload == p.(reason := Trim(p.reason))
    ensures Prepared(retained, subject, p).Returned? ==>
              Prepared(retained, subject, p).value == p.(reason := Trim(p.reason))
  {
    hide Trim;
  }

  // Guard and gate together

  /** The key under which all requests for a subject are serialized. */
  function Serialization(subject: Subject): Text {
    (if subject.Order? then CORRECTION_PREFIX else ADJUSTMENT_PREFIX) + subject.id
  }

  /** A request on its way: its command and its place among the gate's attempts. */
  datatype Flight = Flight(command: Command, attempt: nat)

  datatype State = State(
    gate: Gate.State, inFlight: map<Subject, Flight>, retained: Retained, sent: seq<(Subject, Command)>, keyErrors: nat)

  datatype Event =
    | Submit(subject: Subject, draft: Payload, crypto: bool)
    | Answer(subject: Subject, reply: Reply)
    | World(event: Gate.Event)
    | Reload

  /** A submission: the guard's `prepare`, the gate's `start`, and the guard's `command` inside it. A
      thrown refusal is a definite failure of the request. */
  function OnSubmit(s: State, subject: Subject, draft: Payload, crypto: bool): State {
    match Prepared(s.retained, subject, draft)
    case Thrown(_) => s
    case Returned(p) =>
      var start := Gate.Start(Intent(subject, p), Serialization(subject), crypto);
      if !Gate.Starts(s.gate, start) then s
      else
        var g, i := Gate.Next(s.gate, start), |s.gate.attempts|;
        match CommandFor(s.retained, subject, p, g.attempts[i].key)
        case Returned(c) => s.(gate := g, inFlight := s.inFlight[subject := Flight(c, i)],
            sent := s.sent + [(subject, c)])
        case Thrown(e) =>
          s.(gate := Gate.Next(g, Gate.Settle(i, Unsent)),
             keyErrors := s.keyErrors + (if e.DifferentKey? then 1 else 0))
  }

  /** The request settles: the gate's handlers, then the caller's `resolve` or `reject`. */
  function OnAnswer(s: State, subject: Subject, r: Reply): State
    requires subject in s.inFlight
  {
    var f := s.inFlight[subject];
    if !Gate.Settles(s.gate, Gate.Settle(f.attempt, r)) then s
    else s.(gate := Gate.Next(s.gate, Gate.Settle(f.attempt, r)), inFlight := s.inFlight - {subject},
            retained := AfterOutcome(s.retained, subject, f.command, Surfaced(r)))
  }

  /** The intents and serialization keys of the two guards, told by their prefixes. */
  predicate Guarded(name: Text) { CORRECTION_PREFIX <= name || ADJUSTMENT_PREFIX <= name }

  /** Time passes, a request reaches the server, users change where the gate does not ask who they are, or
      the gate starts and settles other operations. */
  predicate Outside(g: Gate.State, w: Gate.Event) {
    match w
    case Start(intent, serialization, _) => !Guarded(intent) && !Guarded(serialization)
    case Settle(i, _) => i < |g.attempts| && !Guarded(g.attempts[i].scope.name) && !Guarded(g.attempts[i].slot.name)
    case Tick(_) => true
    case Commit(_) => true
    case SwitchUser(_) => !g.durable
    case ClearSession => !g.durable
    case Reload => false
  }

  function Next(s: State, e: Event): State {
    match e
    case Submit(subject, draft, crypto) => if Fits(subject, draft) then OnSubmit(s, subject, draft, crypto) else s
    case Answer(subject, r) => if subject in s.inFlight then OnAnswer(s, subject, r) else s
    case World(w) => if Outside(s.gate, w) then s.(gate := Gate.Next(s.gate, w)) else s
    case Reload => s.(gate := Gate.Next(s.gate, Gate.Reload), inFlight := map[], retained := map[])
  }

  function Initial(durable: bool, user: Option<Text>): State {
    State(Gate.Initial(durable, user), map[], map[], [], 0)
  }

  function Run(s: State, events: seq<Event>): State {
    if events == [] then s else Next(Run(s, events[..|events| - 1]), events[|events| - 1])
  }

  /** The command is normalized and stands under the gate's key for its intent. */
  predicate Keyed(g: Gate.State, subject: Subject, c: Command) {
    && Fits(subject, c.payload) && c.payload == Normalize(c.payload)
    && var scope := Gate.ScopeOf(g, Intent(subject, c.payload));
       scope in g.retryKeys && g.retryKeys[scope] == c.key
  }

  /** The attempt in flight is the gate's pending one for the subject, for this command. */
  predicate Flying(g: Gate.State, subject: Subject, f: Flight) {
    && Keyed(g, subject, f.command) && f.attempt in g.live && f.attempt < |g.attempts|
    && var a, slot := g.attempts[f.attempt], Gate.ScopeOf(g, Serialization(subject));
       a.scope == Gate.ScopeOf(g, Intent(subject, f.command.payload)) && a.slot == slot && a.key == f.command.key
       && slot in g.pending && g.pending[slot] == f.attempt
  }

  predicate HoldsSlot(g: Gate.State, subject: Subject) { Gate.ScopeOf(g, Serialization(subject)) in g.pending }

  /** A retained command, and one in flight, is the command under the gate's retained key for its
      intent; a retry in flight is the retained command; and only a request in flight holds a slot. */
  ghost predicate Joint(s: State) {
    && (forall x | x in s.retained :: Keyed(s.gate, x, s.retained[x]))
    && (forall x | x in s.inFlight :: Flying(s.gate, x, s.inFlight[x]))
    && (forall x | x in s.retained && x in s.inFlight :: s.inFlight[x].command == s.retained[x])
    && (forall x | HoldsSlot(s.gate, x) :: x in s.inFlight)
    && s.keyErrors == 0
  }

  // What the gate's steps leave alone

  /** The part of the gate the guards rely on is the same: users as far as they matter, the attempts there
      were, and keys, slots and unsettled attempts of guarded names. */
  ghost predicate SameGuarded(g: Gate.State, h: Gate.State) {
    && h.durable == g.durable && (g.durable ==> h.user == g.user) && g.attempts <= h.attempts
    && (forall c: Gate.Scope | Guarded(c.name) && c in g.retryKeys ::
       c in h.retryKeys && h.retryKeys[c] == g.retryKeys[c])
    && (forall c: Gate.Scope | Guarded(c.name) && c in g.pending :: c in h.pending && h.pending[c] == g.pending[c])
    && (forall c: Gate.Scope | Guarded(c.name) && c in h.pending :: c in g.pending)
    && (forall i | i in g.live && i < |g.attempts| && Guarded(g.attempts[i].scope.name) :: i in h.live)
  }

  lemma GateStarts(g: Gate.State, intent: Text, serialization: Text, crypto: bool)
    requires Gate.Starts(g, Gate.Start(intent, serialization, crypto))
    ensures var h := Gate.Next(g, Gate.Start(intent, serialization, crypto));
            var scope, slot := Gate.ScopeOf(g, intent), Gate.ScopeOf(g, serialization);
            var n := |g.attempts|;
            h.durable == g.durable && h.user == g.user && slot !in g.pending
            && |h.attempts| == n + 1 && h.attempts[..n] == g.attempts
            && h.attempts[n].scope == scope && h.attempts[n].slot == slot
            && (scope in g.retryKeys ==> h.attempts[n].key == g.retryKeys[scope])
            && h.retryKeys == g.retryKeys[scope := h.attempts[n].key]
            && h.pending == g.pending[slot := n] && h.live == g.live + {n}
  {
  }

  lemma GateSettles(g: Gate.State, i: nat, r: Reply)
    requires Gate.Settles(g, Gate.Settle(i, r))
    ensures i < |g.attempts|
    ensures var h, a := Gate.Next(g, Gate.Settle(i, r)), g.attempts[i];
            h.durable == g.durable && h.user == g.user && h.attempts == g.attempts && h.live == g.live - {i}
            && h.retryKeys == (if Closing(Surfaced(r)) then g.retryKeys - {a.scope} else g.retryKeys)
            && h.pending == (if a.slot in g.pending && g.pending[a.slot] == i then g.pending - {a.slot} else g.pending)
  {
    hide Gate.DeleteDurable, DeliveryUncertain;
  }

  /** Different subjects have different serialization keys, and their commands different intents. */
  lemma SubjectsApart(g: Gate.State, x: Subject, y: Subject)
    requires x != y
    ensures Gate.ScopeOf(g, Serialization(x)) != Gate.ScopeOf(g, Serialization(y))
  {
    var a, b := Serialization(x), Serialization(y);
    if x.Order? && y.Order? {
      assert a[|CORRECTION_PREFIX|..] == x.id && b[|CORRECTION_PREFIX|..] == y.id;
    } else if x.Material? && y.Material? {
      assert a[|ADJUSTMENT_PREFIX|..] == x.id && b[|ADJUSTMENT_PREFIX|..] == y.id;
    } else if x.id != [] || y.id != [] {
      assert a[0] != b[0];
    } else {
      assert a[0] != b[0];
    }
  }

  lemma IntentsApart(g: Gate.State, x: Subject, p: Payload, y: Subject, q: Payload)
    requires x != y && Fits(x, p) && Fits(y, q) && p == Normalize(p) && q == Normalize(q)
    ensures Gate.ScopeOf(g, Intent(x, p)) != Gate.ScopeOf(g, Intent(y, q))
  {
    hide Intent;
    if Intent(x, p) == Intent(y, q) {
      IntentInjective(x, p, y, q);
    }
  }

  // Submissions

  /** Either nothing happens, or the gate starts the draft's intent and the command sent is the one
      under the gate's key: the retained command, when there is one. */
  lemma SubmitSends(s: State, subject: Subject, draft: Payload, crypto: bool)
    requires Joint(s) && Fits(subject, draft)
    ensures OnSubmit(s, subject, draft, crypto) == s
            || (var p := Normalize(draft);
                var start := Gate.Start(Intent(subject, p), Serialization(subject), crypto);
                Gate.Starts(s.gate, start) && Fits(subject, p) && p == Normalize(p) && subject !in s.inFlight
                && var g, i := Gate.Next(s.gate, start), |s.gate.attempts|;
                   |g.attempts| == i + 1
                   && var c := Command(g.attempts[i].key, p);
                      (subject in s.retained ==> s.retained[subject] == c)
                      && OnSubmit(s, subject, draft, crypto)
                         == s.(gate := g, inFlight := s.inFlight[subject := Flight(c, i)],
                             sent := s.sent + [(subject, c)]))
  {
    TrimIdempotent(draft.reason);
    var p := Normalize(draft);
    var start := Gate.Start(Intent(subject, p), Serialization(subject), crypto);
    if Gate.Starts(s.gate, start) {
      GateStarts(s.gate, Intent(subject, p), Serialization(subject), crypto);
    }
    hide Trim, Intent, Serialization, Gate.Starts, Gate.OnStart, Gate.Next;
  }

  lemma SubmitJoint(s: State, subject: Subject, draft: Payload, crypto: bool)
    requires Joint(s) && Fits(subject, draft)
    ensures Joint(OnSubmit(s, subject, draft, crypto))
  {
    hide OnSubmit, Keyed, Flying, Started, Normalize, Fits;
    var t, p := OnSubmit(s, subject, draft, crypto), Normalize(draft);
    if t != s {
      SubmitStarts(s, subject, draft, crypto);
      forall x | x in s.retained ensures Keyed(t.gate, x, s.retained[x]) {
        if x == subject {
          FlyingKeyed(t.gate, subject, t.inFlight[subject]);
        } else {
          StartKeepsKeys(s.gate, t.gate, subject, p, x, s.retained[x]);
        }
      }
      forall x | x != subject && x in s.inFlight ensures Flying(t.gate, x, s.inFlight[x]) {
        StartKeepsFlights(s.gate, t.gate, subject, p, x, s.inFlight[x]);
      }
      forall x | HoldsSlot(t.gate, x) ensures x in t.inFlight {
        StartKeepsSlots(s.gate, t.gate, subject, p, x);
      }
    }
  }

  lemma StartKeepsSlots(g: Gate.State, h: Gate.State, subject: Subject, p: Payload, x: Subject)
    requires Started(g, h, subject, p) && HoldsSlot(h, x)
    ensures x == subject || HoldsSlot(g, x)
  {
    if x != subject {
      SubjectsApart(g, x, subject);
    }
    hide Intent, Serialization;
  }

  lemma SubmitStarts(s: State, subject: Subject, draft: Payload, crypto: bool)
    requires Joint(s) && Fits(subject, draft) && OnSubmit(s, subject, draft, crypto) != s
    ensures var t, p := OnSubmit(s, subject, draft, crypto), Normalize(draft);
            Started(s.gate, t.gate, subject, p) && Fits(subject, p) && p == Normalize(p)
            && subject in t.inFlight && Flying(t.gate, subject, t.inFlight[subject])
            && t.retained == s.retained && t.inFlight == s.inFlight[subject := t.inFlight[subject]]
               && t.keyErrors == s.keyErrors
            && (subject in s.retained ==> t.inFlight[subject].command == s.retained[subject])
  {
    SubmitSends(s, subject, draft, crypto);
    var t, p := OnSubmit(s, subject, draft, crypto), Normalize(draft);
    hide OnSubmit, Intent, Normalize, Fits, Keyed, Flying, Serialization, Joint, Gate.Starts, Gate.Next;
    GateStarts(s.gate, Intent(subject, p), Serialization(subject), crypto);
    NewlyFlying(t.gate, subject, t.inFlight[subject]);
  }

  lemma FlyingKeyed(g: Gate.State, subject: Subject, f: Flight)
    requires Flying(g, subject, f)
    ensures Keyed(g, subject, f.command)
  {
  }

  lemma NewlyFlying(h: Gate.State, subject: Subject, f: Flight)
    requires Fits(subject, f.command.payload) && f.command.payload == Normalize(f.command.payload)
    requires f.attempt in h.live && f.attempt < |h.attempts|
    requires var a := h.attempts[f.attempt];
             a.scope == Gate.ScopeOf(h, Intent(subject, f.command.payload))
                 && a.slot == Gate.ScopeOf(h, Serialization(subject))
             && a.key == f.command.key && a.scope in h.retryKeys && h.retryKeys[a.scope] == a.key
             && a.slot in h.pending && h.pending[a.slot] == f.attempt
    ensures Flying(h, subject, f)
  {
  }

  /** The gate after a start for `subject`. */
  predicate Started(g: Gate.State, h: Gate.State, subject: Subject, p: Payload) {
    && h.durable == g.durable && h.user == g.user && |h.attempts| == |g.attempts| + 1
       && h.attempts[..|g.attempts|] == g.attempts
    && h.retryKeys == g.retryKeys[Gate.ScopeOf(g, Intent(subject, p)) := h.attempts[|g.attempts|].key]
    && h.pending == g.pending[Gate.ScopeOf(g, Serialization(subject)) := |g.attempts|]
       && h.live == g.live + {|g.attempts|}
  }

  lemma StartKeepsKeys(g: Gate.State, h: Gate.State, subject: Subject, p: Payload, x: Subject, d: Command)
    requires Started(g, h, subject, p) && Fits(subject, p) && p == Normalize(p) && x != subject && Keyed(g, x, d)
    ensures Keyed(h, x, d)
  {
    hide Intent, Serialization;
    IntentsApart(g, x, d.payload, subject, p);
  }

  lemma StartKeepsFlights(g: Gate.State, h: Gate.State, subject: Subject, p: Payload, x: Subject, f: Flight)
    requires Started(g, h, subject, p) && Fits(subject, p) && p == Normalize(p) && x != subject && Flying(g, x, f)
    ensures Flying(h, x, f)
  {
    hide Intent, Serialization, Keyed;
    FlyingKeyed(g, x, f);
    StartKeepsKeys(g, h, subject, p, x, f.command);
    SubjectsApart(g, x, subject);
    assert h.attempts[f.attempt] == h.attempts[..|g.attempts|][f.attempt];
  }

  // Answers

  lemma AnswerJoint(s: State, subject: Subject, r: Reply)
    requires Joint(s) && subject in s.inFlight
    ensures Joint(OnAnswer(s, subject, r))
  {
    hide Keyed, Flying, Gate.Settles, Gate.Next, Closing, SettledBy;
    var f, t := s.inFlight[subject], OnAnswer(s, subject, r);
    if Gate.Settles(s.gate, Gate.Settle(f.attempt, r)) {
      AnswerSettles(s, subject, r);
      forall x | x != subject && x in s.retained ensures Keyed(t.gate, x, s.retained[x]) {
        SettleKeepsKeys(s.gate, t.gate, subject, f, r, x, s.retained[x]);
      }
      forall x | x != subject && x in s.inFlight ensures Flying(t.gate, x, s.inFlight[x]) {
        SettleKeepsFlights(s.gate, t.gate, subject, f, r, x, s.inFlight[x]);
      }
      forall x | HoldsSlot(t.gate, x) ensures x in t.inFlight {
        SettleKeepsSlots(s.gate, t.gate, subject, f, r, x);
      }
    }
  }

  /** What the answer leaves of the gate, and of the subject's retained command. */
  lemma AnswerSettles(s: State, subject: Subject, r: Reply)
    requires Joint(s) && subject in s.inFlight
    requires Gate.Settles(s.gate, Gate.Settle(s.inFlight[subject].attempt, r))
    ensures SettledBy(s.gate, OnAnswer(s, subject, r).gate, s.inFlight[subject], r)
    ensures !Closing(Surfaced(r)) ==> Keyed(OnAnswer(s, subject, r).gate, subject, s.inFlight[subject].command)
  {
    hide Keyed, Gate.Settles, Gate.Next, Closing, Serialization;
    var f := s.inFlight[subject];
    assert Flying(s.gate, subject, f);
    GateSettles(s.gate, f.attempt, r);
    if !Closing(Surfaced(r)) {
      UncertainKeepsKey(s.gate, OnAnswer(s, subject, r).gate, subject, f);
    }
  }

  /** The gate after `subject`'s request settled. */
  predicate SettledBy(g: Gate.State, h: Gate.State, f: Flight, r: Reply) {
    f.attempt < |g.attempts|
    && var a := g.attempts[f.attempt];
       h.durable == g.durable && h.user == g.user && h.attempts == g.attempts && h.live == g.live - {f.attempt}
       && h.retryKeys == (if Closing(Surfaced(r)) then g.retryKeys - {a.scope} else g.retryKeys)
       && h.pending == (if a.slot in g.pending && g.pending[a.slot] == f.attempt then g.pending - {a.slot}
          else g.pending)
  }

  lemma SettleKeepsKeys(g: Gate.State, h: Gate.State, subject: Subject, f: Flight, r: Reply, x: Subject,
      d: Command)
    requires Flying(g, subject, f) && SettledBy(g, h, f, r) && x != subject && Keyed(g, x, d)
    ensures Keyed(h, x, d)
  {
    hide Intent, Serialization, Closing;
    IntentsApart(g, x, d.payload, subject, f.command.payload);
  }

  lemma SettleKeepsFlights(g: Gate.State, h: Gate.State, subject: Subject, f: Flight, r: Reply, x: Subject,
      e: Flight)
    requires Flying(g, subject, f) && SettledBy(g, h, f, r) && x != subject && Flying(g, x, e)
    ensures Flying(h, x, e)
  {
    hide Intent, Serialization, Keyed, Closing;
    FlyingKeyed(g, x, e);
    SettleKeepsKeys(g, h, subject, f, r, x, e.command);
    SubjectsApart(g, x, subject);
  }

  lemma SettleKeepsSlots(g: Gate.State, h: Gate.State, subject: Subject, f: Flight, r: Reply, x: Subject)
    requires Flying(g, subject, f) && SettledBy(g, h, f, r) && HoldsSlot(h, x)
    ensures x != subject && HoldsSlot(g, x)
  {
    hide Intent, Serialization, Keyed, Closing, Surfaced;
  }

  lemma UncertainKeepsKey(g: Gate.State, h: Gate.State, subject: Subject, f: Flight)
    requires Flying(g, subject, f) && h.retryKeys == g.retryKeys && h.durable == g.durable && h.user == g.user
    ensures Keyed(h, subject, f.command)
  {
    hide Intent;
  }

  // Whole runs

  lemma WorldJoint(s: State, w: Gate.Event)
    requires Joint(s) && Outside(s.gate, w)
    ensures Joint(s.(gate := Gate.Next(s.gate, w)))
  {
    var g, h := s.gate, Gate.Next(s.gate, w);
    OutsideKeeps(g, w);
    hide Intent, Serialization, Gate.Next, Outside;
    forall x, d | Keyed(g, x, d) ensures Keyed(h, x, d) {
      GuardedNames(x, d.payload);
    }
    forall x, f | Flying(g, x, f) ensures Flying(h, x, f) {
      GuardedNames(x, f.command.payload);
    }
    forall x | HoldsSlot(h, x) ensures HoldsSlot(g, x) {
      GuardedNames(x, Correction([], [], [], []));
    }
  }

  lemma GuardedNames(x: Subject, p: Payload)
    ensures Guarded(Intent(x, p)) && Guarded(Serialization(x))
  {
    hide CanonicalJson, Ascii;
  }

  lemma OutsideKeeps(g: Gate.State, w: Gate.Event)
    requires Outside(g, w)
    ensures SameGuarded(g, Gate.Next(g, w))
  {
    hide Guarded, Closing, Gate.OnStart, Gate.OnSettle;
    if Gate.Starts(g, w) {
      GateStarts(g, w.intent, w.serialization, w.crypto);
      hide Gate.Next;
    } else if Gate.Settles(g, w) {
      GateSettles(g, w.attempt, w.reply);
      hide Gate.Next;
    }
  }

  lemma StepJoint(s: State, e: Event)
    requires Joint(s)
    ensures Joint(Next(s, e))
  {
    hide OnSubmit, OnAnswer, Gate.Next;
    match e
    case Submit(subject, draft, crypto) =>
      if Fits(subject, draft) {
        SubmitJoint(s, subject, draft, crypto);
      }
    case Answer(subject, r) =>
      if subject in s.inFlight {
        AnswerJoint(s, subject, r);
      }
    case World(w) =>
      if Outside(s.gate, w) {
        WorldJoint(s, w);
      }
    case Reload => ReloadEmpties(s.gate);
  }

  lemma ReloadEmpties(g: Gate.State)
    ensures Gate.Next(g, Gate.Reload).pending == map[]
  {
  }

  lemma {:induction false} RunJoint(durable: bool, user: Option<Text>, events: seq<Event>)
    ensures Joint(Run(Initial(durable, user), events))
  {
    hide Next, Joint;
    if events == [] {
      InitialJoint(durable, user);
    } else {
      RunJoint(durable, user, events[..|events| - 1]);
      StepJoint(Run(Initial(durable, user), events[..|events| - 1]), events[|events| - 1]);
    }
  }

  lemma InitialJoint(durable: bool, user: Option<Text>)
    ensures Joint(Initial(durable, user)) && Gate.ServerSound(Initial(durable, user).gate)
  {
  }

  /** A retained command always equals the command under the gate's key for its intent, and no retry
      ever gets another operation key. */
  lemma RetainedCommandHoldsItsKey(durable: bool, user: Option<Text>, events: seq<Event>, subject: Subject)
    ensures var s := Run(Initial(durable, user), events);
            s.keyErrors == 0 && (subject in s.retained ==>
              var c := s.retained[subject]; var scope := Gate.ScopeOf(s.gate, Intent(subject, c.payload));
              scope in s.gate.retryKeys && s.gate.retryKeys[scope] == c.key)
  {
    hide Run, Intent;
    RunJoint(durable, user, events);
  }

  /** What a submission does: with no request of the subject in flight, no other payload retained for it and
      a key to be had, the normalized draft is sent, under the retained key if there is one; otherwise
      nothing happens. In particular a retained command can always be sent again. */
  lemma SubmitIff(durable: bool, user: Option<Text>, before: seq<Event>, subject: Subject, draft: Payload, crypto: bool)
    requires Fits(subject, draft)
    ensures var s, p := Run(Initial(durable, user), before), draft.(reason := Trim(draft.reason));
            var t := Next(s, Submit(subject, draft, crypto));
            var scope, n := Gate.ScopeOf(s.gate, Intent(subject, p)), |s.gate.attempts|;
            if subject !in s.inFlight && (subject in s.retained ==> s.retained[subject].payload == p)
               && (subject in s.retained || crypto || Gate.Remembered(s.gate, scope).Some?)
            then |t.gate.attempts| == n + 1
                 && var c := Command(t.gate.attempts[n].key, p);
                    t.sent == s.sent + [(subject, c)] && t.inFlight == s.inFlight[subject := Flight(c, n)]
                    && t.retained == s.retained && (subject in s.retained ==> c == s.retained[subject])
            else t == s
  {
    RunJoint(durable, user, before);
    hide Run, Trim;
    SubmitFrom(Run(Initial(durable, user), before), subject, draft, crypto);
    hide OnSubmit;
  }

  lemma SubmitFrom(s: State, subject: Subject, draft: Payload, crypto: bool)
    requires Joint(s) && Fits(subject, draft)
    ensures var p, t := Normalize(draft), OnSubmit(s, subject, draft, crypto);
            var scope, n := Gate.ScopeOf(s.gate, Intent(subject, p)), |s.gate.attempts|;
            if subject !in s.inFlight && (subject in s.retained ==> s.retained[subject].payload == p)
               && (subject in s.retained || crypto || Gate.Remembered(s.gate, scope).Some?)
            then |t.gate.attempts| == n + 1
                 && var c := Command(t.gate.attempts[n].key, p);
                    t.sent == s.sent + [(subject, c)] && t.inFlight == s.inFlight[subject := Flight(c, n)]
                    && t.retained == s.retained && (subject in s.retained ==> c == s.retained[subject])
            else t == s
  {
    var p := Normalize(draft);
    var start := Gate.Start(Intent(subject, p), Serialization(subject), crypto);
    SubmitSends(s, subject, draft, crypto);
    StartsIff(s, subject, p, crypto);
    if subject in s.retained && s.retained[subject].payload == p {
      RetainedIsKeyed(s, subject);
    }
    hide Joint, Normalize, Intent, Serialization, Gate.Next, Gate.Starts, Gate.Remembered;
    if Gate.Starts(s.gate, start) && (subject in s.retained ==> s.retained[subject].payload == p) {
      SubmitGoes(s, subject, draft, crypto);
    } else {
      SubmitStays(s, subject, draft, crypto);
    }
  }

  lemma SubmitGoes(s: State, subject: Subject, draft: Payload, crypto: bool)
    requires Joint(s) && Fits(subject, draft)
    requires var p := Normalize(draft);
             Gate.Starts(s.gate, Gate.Start(Intent(subject, p), Serialization(subject), crypto))
             && (subject in s.retained ==> s.retained[subject].payload == p)
    ensures OnSubmit(s, subject, draft, crypto).gate
         == Gate.Next(s.gate, Gate.Start(Intent(subject, Normalize(draft)), Serialization(subject), crypto))
    ensures OnSubmit(s, subject, draft, crypto) != s
  {
    var p := Normalize(draft);
    TrimIdempotent(draft.reason);
    GateStarts(s.gate, Intent(subject, p), Serialization(subject), crypto);
    hide Trim, Intent, Serialization, Gate.Starts, Gate.Next;
  }

  lemma SubmitStays(s: State, subject: Subject, draft: Payload, crypto: bool)
    requires var p := Normalize(draft);
             !Gate.Starts(s.gate, Gate.Start(Intent(subject, p), Serialization(subject), crypto))
             || (subject in s.retained && s.retained[subject].payload != p)
    ensures OnSubmit(s, subject, draft, crypto) == s
  {
    hide Normalize, Intent, Serialization, Gate.Starts, Gate.Next;
  }

  lemma RetainedIsKeyed(s: State, subject: Subject)
    requires Joint(s) && subject in s.retained
    ensures Gate.Remembered(s.gate, Gate.ScopeOf(s.gate, Intent(subject, s.retained[subject].payload))).Some?
  {
    hide Intent;
  }

  lemma StartsIff(s: State, subject: Subject, p: Payload, crypto: bool)
    requires Joint(s)
    ensures Gate.Starts(s.gate, Gate.Start(Intent(subject, p), Serialization(subject), crypto)) <==>
            subject !in s.inFlight
            && (Gate.Remembered(s.gate, Gate.ScopeOf(s.gate, Intent(subject, p))).Some? || crypto)
  {
    hide Intent, Keyed, Gate.Remembered;
    assert HoldsSlot(s.gate, subject) <==> subject in s.inFlight;
  }

  /** What the answer to a request does: a closing one forgets the subject's command, any other retains the
      command it answers, and nothing else changes. */
  lemma AnswerIff(durable: bool, user: Option<Text>, before: seq<Event>, subject: Subject, reply: Reply)
    requires var s := Run(Initial(durable, user), before);
             subject in s.inFlight && Gate.Settles(s.gate, Gate.Settle(s.inFlight[subject].attempt, reply))
    ensures var s := Run(Initial(durable, user), before);
            var t := Next(s, Answer(subject, reply));
            t.inFlight == s.inFlight - {subject} && t.sent == s.sent
            && (if ClosesIntent(reply) then t.retained == s.retained - {subject}
                else t.retained == s.retained[subject := s.inFlight[subject].command])
  {
    var s := Run(Initial(durable, user), before);
    RunJoint(durable, user, before);
    RetriesRetained(s, subject);
    ClosesIff(reply);
    hide Run, Joint, Gate.Next, Gate.Settles, Closing, Surfaced, ClosesIntent;
    AnswerFrom(s, subject, reply);
  }

  lemma RetriesRetained(s: State, subject: Subject)
    requires Joint(s) && subject in s.inFlight
    ensures subject in s.retained ==> s.inFlight[subject].command == s.retained[subject]
  {
    hide Keyed, Flying;
  }

  lemma AnswerFrom(s: State, subject: Subject, reply: Reply)
    requires subject in s.inFlight && Gate.Settles(s.gate, Gate.Settle(s.inFlight[subject].attempt, reply))
    requires subject in s.retained ==> s.inFlight[subject].command == s.retained[subject]
    ensures var t := OnAnswer(s, subject, reply);
            t.inFlight == s.inFlight - {subject} && t.sent == s.sent
            && (if Closing(Surfaced(reply)) then t.retained == s.retained - {subject}
                else t.retained == s.retained[subject := s.inFlight[subject].command])
  {
    hide Gate.Next, Gate.Settles, Closing, Surfaced;
  }

  /** No outcome for the subject closes its request, and the page stays. */
  predicate Unresolved(events: seq<Event>, subject: Subject) {
    forall e | e in events :: !e.Reload? && (e.Answer? && e.subject == subject ==> !ClosesIntent(e.reply))
  }

  /** From a request whose answer leaves its outcome open until a closing one, whatever happens to other
      subjects: its command stays retained, every command sent for the subject is that command, key and
      payload, and a draft of another payload does nothing. */
  lemma UncertainOutcomeFreezesTheCommand(
    durable: bool, user: Option<Text>, before: seq<Event>, subject: Subject, reply: Reply, events: seq<Event>)
    requires var s := Run(Initial(durable, user), before);
             subject in s.inFlight && Gate.Settles(s.gate, Gate.Settle(s.inFlight[subject].attempt, reply))
    requires !ClosesIntent(reply) && Unresolved(events, subject)
    ensures var s, t := Run(Initial(durable, user), before),
                        Run(Initial(durable, user), before + [Answer(subject, reply)] + events);
            var c := s.inFlight[subject].command;
            subject in t.retained && t.retained[subject] == c && s.sent <= t.sent
            && (forall i | |s.sent| <= i < |t.sent| && t.sent[i].0 == subject :: t.sent[i].1 == c)
            && forall draft, crypto | Fits(subject, draft) && draft.(reason := Trim(draft.reason)) != c.payload ::
                 Next(t, Submit(subject, draft, crypto)) == t
  {
    var all := before + [Answer(subject, reply)];
    assert all[..|before|] == before;
    AnswerIff(durable, user, before, subject, reply);
    RetainedIsFrozen(durable, user, all, events, subject);
    forall draft, crypto | Fits(subject, draft)
      ensures var t := Run(Initial(durable, user), all + events);
              draft.(reason := Trim(draft.reason)) != t.retained[subject].payload ==>
                Next(t, Submit(subject, draft, crypto)) == t
    {
      SubmitIff(durable, user, all + events, subject, draft, crypto);
      hide Run, Next, Trim, Intent;
    }
    hide Next, Trim;
  }

  /** The same from any command retained. */
  lemma {:induction false} RetainedIsFrozen(
    durable: bool, user: Option<Text>, before: seq<Event>, events: seq<Event>, subject: Subject)
    requires subject in Run(Initial(durable, user), before).retained && Unresolved(events, subject)
    ensures var s, t := Run(Initial(durable, user), before), Run(Initial(durable, user), before + events);
            subject in t.retained && t.retained[subject] == s.retained[subject]
            && s.sent <= t.sent
            && forall i | |s.sent| <= i < |t.sent| && t.sent[i].0 == subject :: t.sent[i].1 == s.retained[subject]
  {
    hide Next, Joint, ClosesIntent, Initial;
    if events == [] {
      assert before + events == before;
    } else {
      var n := |events| - 1;
      assert (before + events)[..|before| + n] == before + events[..n];
      RetainedIsFrozen(durable, user, before, events[..n], subject);
      var s, e := Run(Initial(durable, user), before + events[..n]), events[n];
      RunJoint(durable, user, before + events[..n]);
      assert events[n] in events;
      FrozenStep(s, e, subject);
    }
  }

  lemma FrozenStep(s: State, e: Event, subject: Subject)
    requires Joint(s) && subject in s.retained && !e.Reload?
    requires e.Answer? && e.subject == subject ==> !ClosesIntent(e.reply)
    ensures var t := Next(s, e);
            subject in t.retained && t.retained[subject] == s.retained[subject]
            && (t.sent == s.sent || exists x, c ::
               t.sent == s.sent + [(x, c)] && (x == subject ==> c == s.retained[subject]))
  {
    hide Intent, Normalize, Joint, Gate.Next, Gate.Starts, Closing, Surfaced, ClosesIntent, Possible;
    if e.Submit? && Fits(e.subject, e.draft) {
      SubmitSends(s, e.subject, e.draft, e.crypto);
      hide OnSubmit;
    } else if e.Answer? && e.subject in s.inFlight
              && Gate.Settles(s.gate, Gate.Settle(s.inFlight[e.subject].attempt, e.reply)) {
      ClosesIff(e.reply);
    }
  }

  /** A page load forgets what the guards retained and the gate's memory; everything else that happens
      outside moves the gate alone. */
  lemma OutsideMovesTheGate(s: State, w: Gate.Event)
    ensures Next(s, Reload).retained == map[] && Next(s, Reload).inFlight == map[]
            && Next(s, Reload).gate == Gate.Next(s.gate, Gate.Reload) && Next(s, Reload).sent == s.sent
    ensures w.Tick? || w.Commit? ==> Next(s, World(w)) == s.(gate := Gate.Next(s.gate, w))
    ensures w.Start? && !Guarded(w.intent) && !Guarded(w.serialization) ==>
              Next(s, World(w)) == s.(gate := Gate.Next(s.gate, w))
  {
    hide Gate.Next, Guarded;
  }

  /** Every guarded run is a run of the gate, so the server commits no key twice. */
  lemma {:induction false} RunServer(durable: bool, user: Option<Text>, events: seq<Event>)
    ensures Gate.ServerSound(Run(Initial(durable, user), events).gate)
  {
    hide Next, Gate.ServerSound;
    if events == [] {
      InitialJoint(durable, user);
    } else {
      RunServer(durable, user, events[..|events| - 1]);
      StepServer(Run(Initial(durable, user), events[..|events| - 1]), events[|events| - 1]);
    }
  }

  lemma StepServer(s: State, e: Event)
    requires Gate.ServerSound(s.gate)
    ensures Gate.ServerSound(Next(s, e).gate)
  {
    hide Gate.Next, Gate.ServerSound, Gate.Starts, Gate.Settles, Intent, Serialization, Normalize;
    forall g: Gate.State, w: Gate.Event | Gate.ServerSound(g) ensures Gate.ServerSound(Gate.Next(g, w)) {
      Gate.StepServer(g, w);
    }
  }

  /** So after an uncertain answer for an order or a material, however often and with whatever drafts its
      correction is tried again, at most one effect commits until a closing outcome. */
  lemma OneEffectPerCorrection(
    durable: bool, user: Option<Text>, before: seq<Event>, subject: Subject, reply: Reply, events: seq<Event>)
    requires var s := Run(Initial(durable, user), before);
             subject in s.inFlight && Gate.Settles(s.gate, Gate.Settle(s.inFlight[subject].attempt, reply))
    requires !ClosesIntent(reply) && Unresolved(events, subject)
    ensures var s, t := Run(Initial(durable, user), before),
                        Run(Initial(durable, user), before + [Answer(subject, reply)] + events);
            var key := s.inFlight[subject].command.key;
            (forall i | |s.sent| <= i < |t.sent| && t.sent[i].0 == subject :: t.sent[i].1.key == key)
            && forall i, j | 0 <= i < j < |t.gate.committed| ::
                 !(t.gate.committed[i] == key && t.gate.committed[j] == key)
  {
    UncertainOutcomeFreezesTheCommand(durable, user, before, subject, reply, events);
    RunServer(durable, user, before + [Answer(subject, reply)] + events);
    hide Run, Initial, Next, Trim, ClosesIntent;
  }

  /** `FinancePaymentCorrectionReplayGuard`. */
  class PaymentCorrectionGuard {
    var retainedByOrder: map<Text, Command>

    ghost function View(): Retained
      reads this
    {
      map x | x in retainedByOrder :: Order(x) := retainedByOrder[x]
    }

    constructor ()
      ensures View() == map[]
    {
      retainedByOrder := map[];
    }

    method Prepare(orderId: Text, draft: Payload) returns (r: Outcome<Payload, Refusal>)
      requires Fits(Order(orderId), draft)
      ensures r == Prepared(View(), Order(orderId), draft)
    {
      var payload := Normalize(draft);
      if orderId !in retainedByOrder {
        return Returned(payload);
      }
      var retained := retainedByOrder[orderId];
      if retained.payload != payload {
        return Thrown(RetryConflict(retained.payload));
      }
      return Returned(retained.payload);
    }

    method MakeCommand(orderId: Text, payload: Payload, key: Gate.Key) returns (r: Outcome<Command, Refusal>)
      requires Fits(Order(orderId), payload)
      ensures r == CommandFor(View(), Order(orderId), payload, key)
    {
      if orderId in retainedByOrder {
        var retained := retainedByOrder[orderId];
        if retained.payload != Normalize(payload) {
          return Thrown(RetryConflict(retained.payload));
        }
        if retained.key != key {
          return Thrown(DifferentKey);
        }
        return Returned(retained);
      }
      return Returned(Command(key, Normalize(payload)));
    }

    method Resolve(orderId: Text)
      modifies this
      ensures View() == old(View()) - {Order(orderId)}
    {
      retainedByOrder := retainedByOrder - {orderId};
    }

    method Reject(orderId: Text, c: Command, error: Failure)
      modifies this
      ensures View() == AfterOutcome(old(View()), Order(orderId), c, Rejected(error))
    {
      if !DeliveryUncertain(error) {
        Resolve(orderId);
        return;
      }
      if orderId !in retainedByOrder {
        retainedByOrder := retainedByOrder[orderId := c];
      }
    }
  }

  /** `WarehouseRawAdjustmentReplayGuard` keeps payloads only; the keys it stands by are the gate's. */
  class RawAdjustmentGuard {
    var retainedByMaterial: map<Text, Payload>
    ghost var keys: map<Text, Gate.Key>

    ghost predicate Valid()
      reads this
    {
      keys.Keys == retainedByMaterial.Keys
    }

    ghost function View(): Retained
      reads this
      requires Valid()
    {
      map x | x in retainedByMaterial :: Material(x) := Command(keys[x], retainedByMaterial[x])
    }

    constructor ()
      ensures Valid() && View() == map[]
    {
      retainedByMaterial, keys := map[], map[];
    }

    method Prepare(materialId: Text, draft: Payload) returns (r: Outcome<Payload, Refusal>)
      requires Valid() && Fits(Material(materialId), draft)
      ensures r == Prepared(View(), Material(materialId), draft)
    {
      var payload := Normalize(draft);
      if materialId !in retainedByMaterial {
        return Returned(payload);
      }
      var retained := retainedByMaterial[materialId];
      if retained != payload {
        return Thrown(RetryConflict(retained));
      }
      return Returned(retained);
    }

    method Resolve(materialId: Text)
      requires Valid()
      modifies this
      ensures Valid() && View() == old(View()) - {Material(materialId)}
    {
      retainedByMaterial := retainedByMaterial - {materialId};
      keys := keys - {materialId};
    }

    method Reject(materialId: Text, payload: Payload, error: Failure, ghost key: Gate.Key)
      requires Valid()
      modifies this
      ensures Valid() && View() == AfterOutcome(old(View()), Material(materialId), Command(key, payload),
              Rejected(error))
    {
      hide DeliveryUncertain;
      if !DeliveryUncertain(error) {
        Resolve(materialId);
        return;
      }
      if materialId !in retainedByMaterial {
        retainedByMaterial := retainedByMaterial[materialId := payload];
        keys := keys[materialId := key];
      }
    }
  }
}
