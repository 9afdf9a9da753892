/** The post agent's stop-and-wait execution protocol as a step system: volatile memory, the
    durable files, the platform and a monotone clock. One event is one synchronous segment of the
    agent between two suspension points, or one durable write where a crash may fall in between. */
module AgentProtocol {
  import opened Common
  import opened JsonString
  import opened JsonCanon
  import opened ResultOutbox

  /** A leased command as polled: the two dates either parse or do not, the budget is finite or is not. */
  datatype Command = Command(id: Text, lease: Text, deadlineParses: bool, serverTimeParses: bool, budget: Option<real>)

  /** A polled batch: `next` commands are dealt with, `done` of them were executed or refused. The
      budgets were issued by the platform at `issuedAt`. */
  datatype Batch = Batch(commands: seq<Command>, next: nat, done: seq<Command>, startedAt: real, issuedAt: real)

  const NO_BATCH := Batch([], 0, [], 0.0, 0.0)

  /** What `pollOnce` does when its current flush has emptied the outbox. */
  datatype Goal = Poll | NextCommand

  datatype Phase =
    | Idle
    | Sending(goal: Goal)                                       // awaiting the reply to the oldest result
    | Removing(goal: Goal)                                      // quarantine appended, journal not yet rewritten
    | Polling(startedAt: real)                                  // awaiting the command batch
    | Invoking(cmd: Command)                                    // the device is working
    | Recording(cmd: Command, result: Json, invoked: bool)      // the result is not yet in the journal

  /** A device invocation with its start and its deadline on the agent's monotone clock. */
  datatype Invocation = Invocation(id: Text, at: real, deadline: real)

  datatype State = State(
    development: bool, running: bool, clock: real,
    mem: seq<Pending>, phase: Phase, batch: Batch, pollAllowed: bool, heartbeating: bool,
    journal: seq<Pending>, quarantine: seq<Pending>,
    acked: set<Pending>, rejected: set<Pending>,
    granted: bool, recorded: seq<Pending>, invoked: seq<Invocation>, lost: seq<Text>, executed: seq<Text>)
  // The last five are history: a grant was acknowledged since the start, every result ever
  // journaled, every invocation, the ids whose invocation a crash cut off from the journal, and the
  // ids whose invocation ended in a journaled result.

  /** The outcome of one `postResult`: `Lost` fails for the agent, whatever the platform did. */
  datatype Reply = Acked | Rejected | Lost(processed: bool)

  datatype Event =
    | Advance(to: real)
    | PollTimer
    | ResultReply(reply: Reply)
    | FinishRemoval
    | PollReply(commands: seq<Command>, issuedAt: real)
    | PollFailed
    | DeviceDone(result: Json)
    | Record(stamp: Text)
    | HeartbeatTimer
    | HeartbeatReply(allowed: bool)
    | HeartbeatEnd
    | Crash
    | Restart

  const SAFETY_MARGIN_MS := 50.0

  /** The result recorded for a command whose execution budget is used up. */
  const REFUSAL: Json := Obj([
    Field(Ascii("ok"), Bool(false)), Field(Ascii("status"), Str(Ascii("failed"))),
    Field(Ascii("reasonCode"), Str(Ascii("gateway_command_deadline_elapsed_before_invocation")))])

  /** `hasExecutionGrant`. */
  predicate Granted(c: Command, startedAt: real, now: real) {
    c.deadlineParses && c.serverTimeParses && c.budget.Some? && c.budget.value >= 0.0
    && var elapsed := if now - startedAt > 0.0 then now - startedAt else 0.0;
       c.budget.value - elapsed > SAFETY_MARGIN_MS
  }

  /** On a monotone clock a command is granted exactly when its dates parse and more than the safety
      margin of its finite budget is left. */
  lemma GrantedIff(c: Command, startedAt: real, now: real)
    requires startedAt <= now
    ensures Granted(c, startedAt, now) <==>
            c.deadlineParses && c.serverTimeParses && c.budget.Some?
                && now + SAFETY_MARGIN_MS < startedAt + c.budget.value
  {
  }

  predicate Seen(done: seq<Command>, id: Text) { exists i | 0 <= i < |done| :: done[i].id == id }

  /** The batch loop up to its next suspension point. */
  function Pick(s: State): State
    decreases |s.batch.commands| - s.batch.next
  {
    var b := s.batch;
    if b.next >= |b.commands| then s.(phase := Idle)
    else
      var c := b.commands[b.next];
      if Seen(b.done, c.id) || Holds(s.mem, c.id) then Pick(s.(batch := b.(next := b.next + 1)))
      else
        var taken := s.(batch := b.(next := b.next + 1, done := b.done + [c]));
        if Granted(c, b.startedAt, s.clock) then
          taken.(phase := Invoking(c), invoked := s.invoked + [Invocation(c.id, s.clock, b.issuedAt + c.budget.value)])
        else taken.(phase := Recording(c, REFUSAL, false))
  }

  /** The flush loop up to its next suspension point. */
  function FlushHead(s: State, goal: Goal): State {
    if s.mem != [] then s.(phase := Sending(goal))
    else if goal == NextCommand then Pick(s)
    else if !s.pollAllowed then s.(phase := Idle)
    else s.(phase := Polling(s.clock))
  }

  /** The oldest result leaves memory and the journal is rewritten. */
  function DropOldest(s: State): State
    requires s.mem != []
  {
    s.(mem := s.mem[1..], journal := s.mem[1..])
  }

  /** The result of the current command enters memory and the journal. */
  function Enqueue(s: State, p: Pending): State {
    s.(mem := s.mem + [p], journal := s.mem + [p], recorded := s.recorded + [p],
       executed := if s.phase.Recording? && s.phase.invoked then s.executed + [p.commandId] else s.executed)
  }

  function OnReply(s: State, reply: Reply): State
    requires s.phase.Sending? && s.mem != []
  {
    var p := s.mem[0];
    match reply
    case Acked => FlushHead(DropOldest(s.(acked := s.acked + {p})), s.phase.goal)
    case Rejected =>
      s.(rejected := s.rejected + {p}, quarantine := s.quarantine + [p], phase := Removing(s.phase.goal))
    case Lost(processed) => s.(acked := if processed then s.acked + {p} else s.acked, phase := Idle)
  }

  /** One step; an event the agent is not waiting for changes nothing. */
  function Next(s: State, e: Event): State {
    if e.Advance? then if e.to >= s.clock then s.(clock := e.to) else s
    else if !s.running then
      if e.Restart? then
        s.(running := true, mem := s.journal, phase := Idle, batch := NO_BATCH,
           pollAllowed := s.development, heartbeating := false, granted := false)
      else s
    else match e
      case PollTimer => if s.phase.Idle? then FlushHead(s, Poll) else s
      case ResultReply(reply) => if s.phase.Sending? && s.mem != [] then OnReply(s, reply) else s
      case FinishRemoval =>
        if s.phase.Removing? && s.mem != [] then FlushHead(DropOldest(s), s.phase.goal) else s
      case PollReply(commands, issuedAt) =>
        if s.phase.Polling? then Pick(s.(batch := Batch(commands, 0, [], s.phase.startedAt, issuedAt))) else s
      case PollFailed => if s.phase.Polling? then s.(phase := Idle) else s
      case DeviceDone(result) =>
        if s.phase.Invoking? then s.(phase := Recording(s.phase.cmd, result, true)) else s
      case Record(stamp) =>
        if s.phase.Recording? then
          var c := s.phase.cmd;
          FlushHead(Enqueue(s, Pending(c.id, c.lease, s.phase.result, stamp)), NextCommand)
        else s
      case HeartbeatTimer => s.(heartbeating := true)
      case HeartbeatReply(allowed) =>
        if s.heartbeating then s.(pollAllowed := allowed, granted := s.granted || allowed) else s
      case HeartbeatEnd => s.(heartbeating := false)
      case Crash =>
        s.(running := false, phase := Idle,
           lost := if InFlight(s).Some? then s.lost + [InFlight(s).value] else s.lost)
      case _ => s
  }

  /** The command whose device was invoked and whose result is not yet in the journal. */
  function InFlight(s: State): Option<Text> {
    if s.phase.Invoking? || (s.phase.Recording? && s.phase.invoked) then Some(s.phase.cmd.id) else None
  }

  /** A fresh installation, not yet started. */
  function Initial(development: bool): State {
    State(development, false, 0.0, [], Idle, NO_BATCH, false, false, [], [], {}, {}, false, [], [], [], [])
  }

  function Run(s: State, events: seq<Event>): State {
    if events == [] then s else Next(Run(s, events[..|events| - 1]), events[|events| - 1])
  }

  /** The platform issues the budgets of a batch while the agent waits for that batch. */
  predicate IssuedDuringPoll(s: State, e: Event) {
    e.PollReply? && s.phase.Polling? ==> s.phase.startedAt <= e.issuedAt
  }

  /** The platform acknowledged or rejected a result for this id. */
  predicate Settled(s: State, id: Text) {
    (exists p | p in s.acked :: p.commandId == id) || (exists p | p in s.rejected :: p.commandId == id)
  }

  /** The platform never leases again an id it has settled. */
  predicate LeasesUnsettled(s: State, e: Event) {
    e.PollReply? ==> forall c | c in e.commands :: !Settled(s, c.id)
  }

  ghost predicate Admits(s: State, events: seq<Event>, admissible: (State, Event) -> bool) {
    forall i | 0 <= i < |events| :: admissible(Run(s, events[..i]), events[i])
  }

  /** The first occurrence of every id among the first `n` commands. */
  function Distinct(commands: seq<Command>, n: nat): seq<Command>
    requires n <= |commands|
  {
    if n == 0 then []
    else
      var d := Distinct(commands, n - 1);
      if Seen(d, commands[n - 1].id) then d else d + [commands[n - 1]]
  }

  predicate BatchOrder(b: Batch) {
    b.next <= |b.commands| && b.done == Distinct(b.commands, b.next)
  }

  /** `t` is `s` at the next suspension point of the flush and batch loops. */
  predicate Resumed(s: State, t: State) {
    && t == s.(phase := t.phase, batch := t.batch, invoked := t.invoked)
    && t.batch == s.batch.(next := t.batch.next, done := t.batch.done)
    && (BatchOrder(s.batch) ==> BatchOrder(t.batch))
    && match t.phase {
         case Idle => s.mem == [] && t.batch.done == s.batch.done && t.invoked == s.invoked
         case Sending(_) => s.mem != [] && t.batch == s.batch && t.invoked == s.invoked
         case Removing(_) => false
         case Polling(at) => s.mem == [] && s.pollAllowed && at == s.clock && t.batch == s.batch
             && t.invoked == s.invoked
         case Invoking(c) =>
           s.mem == [] && Taken(s.batch, t.batch, c) && Granted(c, s.batch.startedAt, s.clock)
           && t.invoked == s.invoked + [Invocation(c.id, s.clock, s.batch.issuedAt + c.budget.value)]
         case Recording(c, result, invoked) =>
           s.mem == [] && Taken(s.batch, t.batch, c) && !Granted(c, s.batch.startedAt, s.clock)
           && result == REFUSAL && !invoked && t.invoked == s.invoked
       }
  }

  /** Command `c` was taken from the batch, and its id had not been dealt with before. */
  predicate Taken(b: Batch, after: Batch, c: Command) {
    c in b.commands && !Seen(b.done, c.id) && after.done == b.done + [c]
  }

  lemma {:induction false} PickResumes(s: State)
    requires s.mem == []
    ensures Resumed(s, Pick(s)) && !Pick(s).phase.Polling?
    decreases |s.batch.commands| - s.batch.next
  {
    var b := s.batch;
    if b.next >= |b.commands| {
    } else if Seen(b.done, b.commands[b.next].id) {
      var rest := s.(batch := b.(next := b.next + 1));
      PickResumes(rest);
      hide Granted, Seen, Distinct, BatchOrder;
      SkippedSeen(b);
    } else {
      TakeResumes(s);
    }
  }

  lemma SkippedSeen(b: Batch)
    requires b.next < |b.commands| && Seen(b.done, b.commands[b.next].id)
    ensures BatchOrder(b) ==> BatchOrder(b.(next := b.next + 1))
  {
  }

  lemma TakeResumes(s: State)
    requires s.mem == [] && s.batch.next < |s.batch.commands|
    requires !Seen(s.batch.done, s.batch.commands[s.batch.next].id)
    ensures Resumed(s, Pick(s)) && !Pick(s).phase.Polling?
  {
    hide Granted, Seen;
  }

  lemma FlushResumes(s: State, goal: Goal)
    ensures Resumed(s, FlushHead(s, goal))
    ensures FlushHead(s, goal).phase.Polling? ==> goal == Poll
    ensures FlushHead(s, goal).phase.Sending? ==> FlushHead(s, goal).phase.goal == goal
    ensures FlushHead(s, goal).phase.Invoking? || FlushHead(s, goal).phase.Recording? ==> goal == NextCommand
  {
    if s.mem == [] && goal == NextCommand {
      PickResumes(s);
    }
  }

  /** The state in which the running segment of `e` enters the flush loop or the batch loop, and why. */
  function Entered(s: State, e: Event): Option<(State, Goal)> {
    if !s.running then None
    else match e
      case PollTimer => if s.phase.Idle? then Some((s, Poll)) else None
      case ResultReply(Acked) =>
        if s.phase.Sending? && s.mem != [] then
          Some((DropOldest(s.(acked := s.acked + {s.mem[0]})), s.phase.goal))
        else None
      case FinishRemoval =>
        if s.phase.Removing? && s.mem != [] then Some((DropOldest(s), s.phase.goal)) else None
      case PollReply(commands, issuedAt) =>
        if s.phase.Polling? then
          Some((s.(batch := Batch(commands, 0, [], s.phase.startedAt, issuedAt)), NextCommand))
        else None
      case Record(stamp) =>
        if s.phase.Recording? then
          Some((Enqueue(s, Pending(s.phase.cmd.id, s.phase.cmd.lease, s.phase.result, stamp)), NextCommand))
        else None
      case _ => None
  }

  /** Every step either enters a loop and runs to its next suspension point, or moves no batch. */
  lemma StepShape(s: State, e: Event)
    requires Durable(s)
    ensures match Entered(s, e)
            case Some((mid, goal)) => Next(s, e) == FlushHead(mid, goal) && Resumed(mid, Next(s, e))
            case None => Next(s, e).invoked == s.invoked && Next(s, e).recorded == s.recorded
                         && Next(s, e).journal == s.journal
                         && (Next(s, e).batch == s.batch || (e.Restart? && Next(s, e).batch == NO_BATCH))
  {
    hide Pick, Resumed;
    match Entered(s, e)
    case Some((mid, goal)) =>
      FlushResumes(mid, goal);
    case None =>
  }

  // Journal and memory

  /** A command is being fetched, executed or recorded. */
  predicate Busy(s: State) { s.phase.Polling? || s.phase.Invoking? || s.phase.Recording? }

  predicate Durable(s: State) {
    && UniqueIds(s.journal)
    && (s.running ==> s.mem == s.journal)
    && (!s.running ==> s.phase.Idle?)
    && (s.phase.Sending? ==> s.mem != [])
    && (s.phase.Removing? ==> s.mem != [] && s.mem[0] in s.quarantine && s.mem[0] in s.rejected)
    && (Busy(s) ==> s.mem == [])
  }

  /** Memory and journal stay equal and free of duplicates inside a segment. */
  lemma EnteredDurable(s: State, e: Event)
    requires Durable(s) && Entered(s, e).Some?
    ensures var mid := Entered(s, e).value.0; mid.running && mid.mem == mid.journal && UniqueIds(mid.journal)
    ensures e.Record? ==> s.mem == []
  {
  }

  lemma ResumedDurable(mid: State, t: State)
    requires mid.running && mid.mem == mid.journal && UniqueIds(mid.journal) && Resumed(mid, t)
    ensures Durable(t)
  {
    hide BatchOrder, Taken, UniqueIds, Granted;
  }

  lemma OtherDurable(s: State, e: Event)
    requires Durable(s) && Entered(s, e).None?
    ensures Durable(Next(s, e))
  {
    hide Pick, FlushHead, UniqueIds;
  }

  lemma StepDurable(s: State, e: Event)
    requires Durable(s)
    ensures Durable(Next(s, e))
  {
    hide Next, Durable, Resumed, UniqueIds, Entered, FlushHead;
    StepShape(s, e);
    if Entered(s, e).Some? {
      EnteredDurable(s, e);
      ResumedDurable(Entered(s, e).value.0, Next(s, e));
    } else {
      OtherDurable(s, e);
    }
  }

  // Conservation

  /** Every result once journaled is in the journal, acknowledged, or in quarantine. */
  ghost predicate Conserved(s: State) {
    && (forall p | p in s.recorded :: p in s.journal || p in s.acked || p in s.quarantine)
    && (forall p | p in s.journal || p in s.acked || p in s.rejected :: p in s.recorded)
    && (forall p | p in s.quarantine :: p in s.rejected)
  }

  lemma EnteredConserves(s: State, e: Event)
    requires Durable(s) && Conserved(s) && Entered(s, e).Some?
    ensures Conserved(Entered(s, e).value.0)
  {
    if s.mem != [] {
      assert s.mem == [s.mem[0]] + s.mem[1..];
    }
  }

  lemma ResumedConserves(mid: State, t: State)
    requires Conserved(mid) && Resumed(mid, t)
    ensures Conserved(t)
  {
    hide BatchOrder, Taken, Granted;
  }

  lemma StepConserves(s: State, e: Event)
    requires Durable(s) && Conserved(s)
    ensures Conserved(Next(s, e))
  {
    hide Pick, FlushHead, Resumed;
    StepShape(s, e);
    if Entered(s, e).Some? {
      hide Next, Entered, Conserved, Durable;
      EnteredConserves(s, e);
      ResumedConserves(Entered(s, e).value.0, Next(s, e));
    } else {
      OtherConserves(s, e);
    }
  }

  lemma OtherConserves(s: State, e: Event)
    requires Durable(s) && Conserved(s) && Entered(s, e).None?
    ensures Conserved(Next(s, e))
  {
    hide Pick, FlushHead, UniqueIds;
    if e.ResultReply? && s.running && s.phase.Sending? {
      assert s.mem[0] in s.journal;
    }
  }

  // Execution grants

  /** The batch was issued after its poll began. */
  predicate Issued(s: State) { s.batch.startedAt <= s.batch.issuedAt }

  predicate InTime(i: Invocation) { i.at + SAFETY_MARGIN_MS < i.deadline }

  lemma StepInTime(s: State, e: Event)
    requires Durable(s) && Issued(s) && IssuedDuringPoll(s, e)
    requires forall i | i in s.invoked :: InTime(i)
    ensures Issued(Next(s, e)) && forall i | i in Next(s, e).invoked :: InTime(i)
  {
    hide Pick, FlushHead, BatchOrder, Taken;
    StepShape(s, e);
  }

  /** Past the poll only under a grant acknowledged since the start, unless in development. */
  predicate Authorised(s: State) {
    && (s.running && s.pollAllowed ==> s.development || s.granted)
    && (Busy(s) || ((s.phase.Sending? || s.phase.Removing?) && s.phase.goal == NextCommand) ==>
          s.development || s.granted)
  }

  lemma StepAuthorised(s: State, e: Event)
    requires Durable(s) && Authorised(s)
    ensures Authorised(Next(s, e))
  {
    hide Pick, FlushHead, BatchOrder, Taken;
    StepShape(s, e);
    if Entered(s, e).Some? {
      FlushResumes(Entered(s, e).value.0, Entered(s, e).value.1);
    }
  }

  // At most one execution

  function CountIds(ids: seq<Text>, id: Text): nat {
    if ids == [] then 0 else CountIds(ids[..|ids| - 1], id) + (if ids[|ids| - 1] == id then 1 else 0)
  }

  function Invocations(log: seq<Invocation>, id: Text): nat {
    if log == [] then 0 else Invocations(log[..|log| - 1], id) + (if log[|log| - 1].id == id then 1 else 0)
  }

  lemma InvocationsSnoc(log: seq<Invocation>, i: Invocation, id: Text)
    ensures Invocations(log + [i], id) == Invocations(log, id) + (if i.id == id then 1 else 0)
  {
    assert (log + [i])[..|log|] == log;
  }

  lemma CountSnoc(ids: seq<Text>, x: Text, id: Text)
    ensures CountIds(ids + [x], id) == CountIds(ids, id) + (if x == id then 1 else 0)
  {
    assert (ids + [x])[..|ids|] == ids;
  }

  /** The id was executed or refused and its result journaled, or its invocation is under way. */
  predicate Accounted(s: State, id: Text) { Holds(s.recorded, id) || InFlight(s) == Some(id) }

  /** While the platform leases only unsettled ids: every id has one journaled result at most, and is
      invoked once more than crashes cut its invocation off from the journal, at most. */
  ghost predicate AtMostOnce(s: State) {
    && UniqueIds(s.recorded)
    && (forall c | c in s.batch.commands && Holds(s.recorded, c.id) :: !s.running || Seen(s.batch.done, c.id))
    && (s.phase.Invoking? || s.phase.Recording? ==>
          Seen(s.batch.done, s.phase.cmd.id) && !Holds(s.recorded, s.phase.cmd.id))
    && (forall id :: Invocations(s.invoked, id) <= CountIds(s.lost, id) + (if Accounted(s, id) then 1 else 0))
  }

  lemma SeenSnoc(done: seq<Command>, c: Command, id: Text)
    ensures Seen(done + [c], id) <==> Seen(done, id) || c.id == id
  {
    assert (done + [c])[|done|] == c;
    if Seen(done, id) {
      var i :| 0 <= i < |done| && done[i].id == id;
      assert (done + [c])[i].id == id;
    }
  }

  lemma HoldsSnoc(results: seq<Pending>, p: Pending, id: Text)
    ensures Holds(results + [p], id) <==> Holds(results, id) || p.commandId == id
  {
    assert (results + [p])[|results|] == p;
    if Holds(results, id) {
      var i :| 0 <= i < |results| && results[i].commandId == id;
      assert (results + [p])[i].commandId == id;
    }
  }

  /** In a batch of unsettled ids, none has a journaled result when the batch arrives. */
  lemma FreshBatch(s: State, commands: seq<Command>)
    requires Durable(s) && Conserved(s) && s.running && s.mem == []
    requires forall c | c in commands :: !Settled(s, c.id)
    ensures forall c | c in commands :: !Holds(s.recorded, c.id)
  {
    forall i | 0 <= i < |s.recorded| ensures Settled(s, s.recorded[i].commandId) {
      assert s.recorded[i] in s.recorded;
    }
  }

  /** Entering a loop keeps the bound, with no device at work. */
  lemma EnteredOnce(s: State, e: Event)
    requires Durable(s) && Conserved(s) && AtMostOnce(s) && LeasesUnsettled(s, e) && Entered(s, e).Some?
    ensures AtMostOnce(Entered(s, e).value.0.(phase := Idle))
  {
    hide FlushHead, Pick;
    var mid := Entered(s, e).value.0;
    if e.PollReply? {
      FreshBatch(s, e.commands);
    } else if e.Record? {
      var p := Pending(s.phase.cmd.id, s.phase.cmd.lease, s.phase.result, e.stamp);
      forall id ensures Holds(mid.recorded, id) <==> Holds(s.recorded, id) || id == p.commandId {
        HoldsSnoc(s.recorded, p, id);
      }
    }
  }

  /** Taking the next command invokes its device only when the id has no journaled result. */
  lemma ResumedOnce(mid: State, t: State)
    requires AtMostOnce(mid.(phase := Idle)) && mid.running && Resumed(mid, t)
    ensures AtMostOnce(t)
  {
    hide Granted, BatchOrder, UniqueIds;
    if t.phase.Invoking? || t.phase.Recording? {
      var c := t.phase.cmd;
      forall id ensures Seen(t.batch.done, id) <==> Seen(mid.batch.done, id) || id == c.id {
        SeenSnoc(mid.batch.done, c, id);
      }
    }
    forall id ensures Invocations(t.invoked, id) <= CountIds(t.lost, id) + (if Accounted(t, id) then 1 else 0) {
      if t.phase.Invoking? {
        InvocationsSnoc(mid.invoked, t.invoked[|mid.invoked|], id);
      }
      assert Accounted(mid.(phase := Idle), id) ==> Accounted(t, id);
    }
  }

  lemma CrashOnce(s: State)
    requires Durable(s) && AtMostOnce(s) && s.running
    ensures AtMostOnce(Next(s, Crash))
  {
    hide UniqueIds;
    var t := Next(s, Crash);
    if InFlight(s).Some? {
      forall id ensures CountIds(t.lost, id) == CountIds(s.lost, id) + (if InFlight(s).value == id then 1 else 0) {
        CountSnoc(s.lost, InFlight(s).value, id);
      }
    }
  }

  lemma StepAtMostOnce(s: State, e: Event)
    requires Durable(s) && Conserved(s) && AtMostOnce(s) && LeasesUnsettled(s, e)
    ensures AtMostOnce(Next(s, e))
  {
    hide Pick, FlushHead, Resumed, BatchOrder, Taken, Granted, UniqueIds, Conserved;
    StepShape(s, e);
    if Entered(s, e).Some? {
      EnteredOnce(s, e);
      EnteredDurable(s, e);
      hide AtMostOnce;
      ResumedOnce(Entered(s, e).value.0, Next(s, e));
    } else if e.Crash? && s.running {
      CrashOnce(s);
    }
  }

  // Handled commands

  /** Every command dealt with in this batch has a journaled result, or is the one being worked on. */
  predicate Answered(s: State) {
    s.running ==> forall c | c in s.batch.done ::
      Holds(s.recorded, c.id) || ((s.phase.Invoking? || s.phase.Recording?) && s.phase.cmd.id == c.id)
  }

  lemma StepAnswered(s: State, e: Event)
    requires Durable(s) && Answered(s) && BatchOrder(s.batch)
    ensures Answered(Next(s, e)) && BatchOrder(Next(s, e).batch)
  {
    hide Next, Pick, FlushHead, BatchOrder, Granted, UniqueIds, Answered, Resumed, Entered, Durable;
    StepShape(s, e);
    if Entered(s, e).Some? {
      EnteredAnswers(s, e);
      ResumedAnswers(Entered(s, e).value.0, Next(s, e));
    } else {
      OtherAnswers(s, e);
    }
  }

  lemma EnteredAnswers(s: State, e: Event)
    requires Durable(s) && Answered(s) && BatchOrder(s.batch) && Entered(s, e).Some?
    ensures var mid := Entered(s, e).value.0; Answered(mid.(phase := Idle)) && BatchOrder(mid.batch) && mid.running
  {
    hide BatchOrder, UniqueIds, Holds;
    EmptyBatches();
    if e.Record? {
      var p := Pending(s.phase.cmd.id, s.phase.cmd.lease, s.phase.result, e.stamp);
      forall id ensures Holds(s.recorded + [p], id) <==> Holds(s.recorded, id) || id == p.commandId {
        HoldsSnoc(s.recorded, p, id);
      }
    }
  }

  lemma ResumedAnswers(mid: State, t: State)
    requires Answered(mid.(phase := Idle)) && BatchOrder(mid.batch) && mid.running && Resumed(mid, t)
    ensures Answered(t) && BatchOrder(t.batch)
  {
    hide BatchOrder, Granted, Holds;
  }

  lemma OtherAnswers(s: State, e: Event)
    requires Durable(s) && Answered(s) && BatchOrder(s.batch) && Entered(s, e).None?
    ensures Answered(Next(s, e)) && BatchOrder(Next(s, e).batch)
  {
    hide BatchOrder, UniqueIds, Holds, Pick, FlushHead;
    EmptyBatches();
  }

  lemma EmptyBatches()
    ensures forall b: Batch :: b.next == 0 && b.done == [] ==> BatchOrder(b)
  {
  }

  lemma {:induction false} DistinctPrefix(commands: seq<Command>, n: nat)
    requires n <= |commands|
    ensures Distinct(commands, n) <= Distinct(commands, |commands|)
    decreases |commands| - n
  {
    if n < |commands| {
      DistinctPrefix(commands, n + 1);
    }
  }

  /** The distinct commands have distinct ids and cover every id of the batch, each by its first occurrence. */
  lemma {:induction false} DistinctCovers(commands: seq<Command>, n: nat)
    requires n <= |commands|
    ensures forall i, j | 0 <= i < j < |Distinct(commands, n)| ::
            Distinct(commands, n)[i].id != Distinct(commands, n)[j].id
    ensures forall k | 0 <= k < n :: Seen(Distinct(commands, n), commands[k].id)
    ensures forall c | c in Distinct(commands, n) ::
              exists k | 0 <= k < n :: commands[k] == c && forall m | 0 <= m < k :: commands[m].id != c.id
  {
    if n > 0 {
      DistinctCovers(commands, n - 1);
      var d, c := Distinct(commands, n - 1), commands[n - 1];
      if !Seen(d, c.id) {
        forall k | 0 <= k < n ensures Seen(d + [c], commands[k].id) {
          SeenSnoc(d, c, commands[k].id);
        }
      }
    }
  }

  // Runs

  ghost predicate Sound(s: State) { Durable(s) && Conserved(s) && Authorised(s) && Answered(s) && BatchOrder(s.batch) }

  lemma {:induction false} RunSound(development: bool, events: seq<Event>)
    ensures Sound(Run(Initial(development), events))
  {
    hide Next, Durable, Conserved, Authorised, Answered, BatchOrder;
    if events == [] {
      InitialSound(development);
    } else {
      var n := |events| - 1;
      RunSound(development, events[..n]);
      var s := Run(Initial(development), events[..n]);
      StepDurable(s, events[n]);
      StepConserves(s, events[n]);
      StepAuthorised(s, events[n]);
      StepAnswered(s, events[n]);
    }
  }

  lemma InitialSound(development: bool)
    ensures Sound(Initial(development)) && AtMostOnce(Initial(development)) && Issued(Initial(development))
  {
  }

  /** In every interleaving of polls, heartbeats, lost replies, crashes and restarts: while a device
      works, nothing is in the journal or in memory; in particular no id with a journaled result is
      executed. Without a grant acknowledged since the start, a physical post touches no device. */
  lemma DeviceRunsOnlyWithEmptyJournal(development: bool, events: seq<Event>, e: Event)
    ensures var s, t := Run(Initial(development), events), Next(Run(Initial(development), events), e);
            (|t.invoked| > |s.invoked| || InFlight(t).Some?) ==>
              t.journal == [] && t.mem == [] && (t.development || t.granted)
  {
    hide Pick, FlushHead, Conserved, BatchOrder, Answered, UniqueIds, Granted, Taken;
    var s := Run(Initial(development), events);
    RunSound(development, events);
    StepDurable(s, e);
    StepAuthorised(s, e);
    StepShape(s, e);
  }

  /** A result once journaled is never lost: it stays in the journal until the platform has
      acknowledged it or its copy is in quarantine, at every crash point. */
  lemma NoResultIsLost(development: bool, events: seq<Event>, p: Pending)
    requires p in Run(Initial(development), events).recorded
    ensures var s := Run(Initial(development), events); p in s.journal || p in s.acked || p in s.quarantine
  {
    RunSound(development, events);
  }

  /** What a batch has executed or refused is a prefix of its distinct commands, all of it when the
      batch is used up, and each of these has its result recorded or is the one in progress. */
  lemma BatchHandledInOrder(development: bool, events: seq<Event>)
    ensures var s := Run(Initial(development), events); var b := s.batch;
            b.done <= Distinct(b.commands, |b.commands|)
            && (b.next == |b.commands| ==> b.done == Distinct(b.commands, |b.commands|))
            && Answered(s)
  {
    var b := Run(Initial(development), events).batch;
    RunSound(development, events);
    DistinctPrefix(b.commands, b.next);
  }

  lemma {:induction false} RunInTime(development: bool, events: seq<Event>)
    requires Admits(Initial(development), events, IssuedDuringPoll)
    ensures Issued(Run(Initial(development), events))
    ensures forall i | i in Run(Initial(development), events).invoked :: InTime(i)
  {
    hide Next, Issued, InTime, IssuedDuringPoll;
    if events == [] {
      InitialSound(development);
    } else {
      var n := |events| - 1;
      AdmitsPrefix(Initial(development), events, IssuedDuringPoll);
      RunInTime(development, events[..n]);
      RunSound(development, events[..n]);
      StepInTime(Run(Initial(development), events[..n]), events[n]);
    }
  }

  lemma AdmitsPrefix(s: State, events: seq<Event>, admissible: (State, Event) -> bool)
    requires events != [] && Admits(s, events, admissible)
    ensures Admits(s, events[..|events| - 1], admissible)
    ensures admissible(Run(s, events[..|events| - 1]), events[|events| - 1])
  {
    var prior := events[..|events| - 1];
    forall i | 0 <= i < |prior| ensures admissible(Run(s, prior[..i]), prior[i]) {
      assert prior[..i] == events[..i] && prior[i] == events[i];
    }
  }

  /** If the platform issues each batch's budgets during its poll, every device invocation, late in
      the batch or not, starts more than 50 milliseconds before its deadline. */
  lemma InvocationsBeatTheirDeadline(development: bool, events: seq<Event>, i: Invocation)
    requires Admits(Initial(development), events, IssuedDuringPoll)
    requires i in Run(Initial(development), events).invoked
    ensures i.at + 50.0 < i.deadline
  {
    RunInTime(development, events);
  }

  lemma {:induction false} RunAtMostOnce(development: bool, events: seq<Event>)
    requires Admits(Initial(development), events, LeasesUnsettled)
    ensures AtMostOnce(Run(Initial(development), events))
  {
    hide Next, AtMostOnce, LeasesUnsettled;
    if events == [] {
      InitialSound(development);
    } else {
      var n := |events| - 1;
      AdmitsPrefix(Initial(development), events, LeasesUnsettled);
      RunAtMostOnce(development, events[..n]);
      RunSound(development, events[..n]);
      StepAtMostOnce(Run(Initial(development), events[..n]), events[n]);
    }
  }

  /** If the platform never leases again an id it acknowledged or rejected, each further invocation
      of an id needs a crash between an invocation of it and the journal write, and an id never gets
      two results. */
  lemma RepeatedExecutionNeedsACrash(development: bool, events: seq<Event>, id: Text)
    requires Admits(Initial(development), events, LeasesUnsettled)
    ensures Invocations(Run(Initial(development), events).invoked, id)
            <= 1 + CountIds(Run(Initial(development), events).lost, id)
    ensures UniqueIds(Run(Initial(development), events).recorded)
  {
    RunAtMostOnce(development, events);
  }

  // The exact count

  /** Every invocation ended in a journaled result, was cut off by a crash, or is under way. */
  ghost predicate Counted(s: State) {
    forall id :: Invocations(s.invoked, id)
                 == CountIds(s.executed, id) + CountIds(s.lost, id) + (if InFlight(s) == Some(id) then 1 else 0)
  }

  lemma EnteredCounts(s: State, e: Event)
    requires Counted(s) && Entered(s, e).Some?
    ensures Counted(Entered(s, e).value.0.(phase := Idle))
  {
    hide CountIds, Invocations;
    if e.Record? && s.phase.invoked {
      forall id ensures CountIds(s.executed + [s.phase.cmd.id], id)
                        == CountIds(s.executed, id) + (if s.phase.cmd.id == id then 1 else 0) {
        CountSnoc(s.executed, s.phase.cmd.id, id);
      }
    }
  }

  lemma ResumedCounts(mid: State, t: State)
    requires Counted(mid.(phase := Idle)) && Resumed(mid, t)
    ensures Counted(t)
  {
    hide CountIds, Invocations, Granted, BatchOrder, Taken;
    if t.phase.Invoking? {
      forall id ensures Invocations(t.invoked, id)
          == Invocations(mid.invoked, id) + (if t.phase.cmd.id == id then 1 else 0) {
        InvocationsSnoc(mid.invoked, t.invoked[|mid.invoked|], id);
      }
    }
  }

  lemma OtherCounts(s: State, e: Event)
    requires Counted(s) && Durable(s) && Entered(s, e).None?
    ensures Counted(Next(s, e))
  {
    hide CountIds, Invocations, Pick, FlushHead, UniqueIds;
    if e.Crash? && s.running && InFlight(s).Some? {
      forall id ensures CountIds(s.lost + [InFlight(s).value], id)
                        == CountIds(s.lost, id) + (if InFlight(s).value == id then 1 else 0) {
        CountSnoc(s.lost, InFlight(s).value, id);
      }
    }
  }

  lemma StepCounts(s: State, e: Event)
    requires Counted(s) && Durable(s)
    ensures Counted(Next(s, e))
  {
    hide Next, Durable, Resumed, Counted, Entered, FlushHead;
    StepShape(s, e);
    if Entered(s, e).Some? {
      EnteredCounts(s, e);
      ResumedCounts(Entered(s, e).value.0, Next(s, e));
    } else {
      OtherCounts(s, e);
    }
  }

  lemma InitialCounts(development: bool)
    ensures Counted(Initial(development))
  {
  }

  /** In every run, whatever the platform leases: an id was invoked exactly as often as its invocations
      ended in a journaled result, were cut off by a crash, or are under way. */
  lemma {:induction false} InvocationsCounted(development: bool, events: seq<Event>)
    ensures Counted(Run(Initial(development), events))
  {
    hide Next, Counted, Durable;
    if events == [] {
      InitialCounts(development);
    } else {
      var n := |events| - 1;
      InvocationsCounted(development, events[..n]);
      RunSound(development, events[..n]);
      StepCounts(Run(Initial(development), events[..n]), events[n]);
    }
  }

  // What is told to the platform

  /** What a device answered for a command. */
  datatype Answer = Answer(id: Text, lease: Text, result: Json)

  /** The devices' answers in a run, in order. */
  function DeviceAnswers(development: bool, events: seq<Event>): seq<Answer> {
    if events == [] then []
    else
      var n := |events| - 1;
      var s, e := Run(Initial(development), events[..n]), events[n];
      DeviceAnswers(development, events[..n])
      + (if e.DeviceDone? && s.running && s.phase.Invoking? then [Answer(s.phase.cmd.id, s.phase.cmd.lease, e.result)]
          else [])
  }

  /** The agent came to this command without a grant for it, and did not invoke its device. */
  predicate RefusedIn(development: bool, events: seq<Event>, id: Text, lease: Text) {
    if events == [] then false
    else
      var t := Run(Initial(development), events);
      RefusedIn(development, events[..|events| - 1], id, lease)
      || (t.phase.Recording? && t.phase.cmd.id == id && t.phase.cmd.lease == lease
          && !Granted(t.phase.cmd, t.batch.startedAt, t.clock))
  }

  function AnswerOf(p: Pending): Answer { Answer(p.commandId, p.leaseToken, p.result) }

  /** Every recorded result, and the one about to be, is a device's answer or a refusal. */
  ghost predicate Told(s: State, answers: seq<Answer>, refused: (Text, Text) -> bool) {
    && (forall p | p in s.recorded ::
          AnswerOf(p) in answers || (p.result == REFUSAL && refused(p.commandId, p.leaseToken)))
    && (s.phase.Recording? ==>
          var c := s.phase.cmd;
          if s.phase.invoked then Answer(c.id, c.lease, s.phase.result) in answers
          else s.phase.result == REFUSAL && refused(c.id, c.lease))
  }

  lemma StepTold(s: State, e: Event, answers: seq<Answer>, after: seq<Answer>,
      refused: (Text, Text) -> bool, refusedAfter: (Text, Text) -> bool)
    requires Durable(s) && Told(s, answers, refused)
    requires after == answers + if e.DeviceDone? && s.running && s.phase.Invoking?
                                then [Answer(s.phase.cmd.id, s.phase.cmd.lease, e.result)] else []
    requires forall x, y | refused(x, y) :: refusedAfter(x, y)
    requires var t := Next(s, e);
             t.phase.Recording? && !Granted(t.phase.cmd, t.batch.startedAt, t.clock) ==>
               refusedAfter(t.phase.cmd.id, t.phase.cmd.lease)
    ensures Told(Next(s, e), after, refusedAfter)
  {
    hide Pick, FlushHead, BatchOrder, Taken, Granted, UniqueIds, Durable;
    StepShape(s, e);
  }

  lemma {:induction false} RunTold(development: bool, events: seq<Event>)
    ensures Told(Run(Initial(development), events), DeviceAnswers(development, events),
                 (id, lease) => RefusedIn(development, events, id, lease))
  {
    hide Next, Told, Durable, Granted;
    if events == [] {
      NothingTold(development);
    } else {
      var n := |events| - 1;
      RunTold(development, events[..n]);
      RunSound(development, events[..n]);
      StepTold(Run(Initial(development), events[..n]), events[n],
               DeviceAnswers(development, events[..n]), DeviceAnswers(development, events),
               (id, lease) => RefusedIn(development, events[..n], id, lease),
               (id, lease) => RefusedIn(development, events, id, lease));
    }
  }

  lemma NothingTold(development: bool)
    ensures Told(Run(Initial(development), []), [], (id, lease) => RefusedIn(development, [], id, lease))
  {
  }

  /** In every run, a result that was ever journaled is what a device answered for that command and
      lease, or the refusal of a command the agent came to without a grant. */
  lemma RecordedAsAnswered(development: bool, events: seq<Event>, p: Pending)
    requires p in Run(Initial(development), events).recorded
    ensures Answer(p.commandId, p.leaseToken, p.result) in DeviceAnswers(development, events)
            || (RefusedIn(development, events, p.commandId, p.leaseToken)
                && p.result == Obj([
                     Field(Ascii("ok"), Bool(false)), Field(Ascii("status"), Str(Ascii("failed"))),
                     Field(Ascii("reasonCode"), Str(Ascii("gateway_command_deadline_elapsed_before_invocation")))]))
  {
    hide Run, Ascii;
    RunTold(development, events);
  }

  /** In every run, what the device answers is what is journaled next, alone, and delivered. */
  lemma DeviceAnswerIsJournaled(development: bool, events: seq<Event>, result: Json, stamp: Text)
    requires var s := Run(Initial(development), events); s.running && s.phase.Invoking?
    ensures var s := Run(Initial(development), events);
            var t := Next(Next(s, DeviceDone(result)), Record(stamp));
            var p := Pending(s.phase.cmd.id, s.phase.cmd.lease, result, stamp);
            t.recorded == s.recorded + [p] && t.journal == [p] && t.mem == [p] && t.phase == Sending(NextCommand)
  {
    RunSound(development, events);
    hide Run, Pick, Conserved, BatchOrder, Answered;
  }

  // Every wait ends

  /** What the outcome of a delivery does in every run. An acknowledged result leaves memory and journal;
      a rejected one stays journaled until its copy is in quarantine, and leaves then; one whose delivery
      failed stays, and the next poll sends it again before anything else. */
  lemma DeliveryEnds(development: bool, events: seq<Event>, reply: Reply)
    requires Run(Initial(development), events).running && Run(Initial(development), events).phase.Sending?
    ensures var s := Run(Initial(development), events);
            var t := Next(s, ResultReply(reply));
            s.mem != []
            && match reply {
                 case Acked =>
                   s.mem[0] in t.acked && t.mem == t.journal == s.mem[1..] && t.quarantine == s.quarantine
                   && (t.mem != [] ==> t.phase == s.phase)
                 case Rejected =>
                   s.mem[0] in t.rejected && t.mem == t.journal == s.mem && t.quarantine == s.quarantine + [s.mem[0]]
                   && t.phase == Removing(s.phase.goal)
                   && Next(t, FinishRemoval).mem == Next(t, FinishRemoval).journal == s.mem[1..]
                   && !Next(t, FinishRemoval).phase.Removing?
                 case Lost(processed) =>
                   t.mem == t.journal == s.mem && t.quarantine == s.quarantine && t.phase == Idle
                   && (processed ==> s.mem[0] in t.acked)
                   && Next(t, PollTimer).phase == Sending(Poll)
               }
  {
    RunSound(development, events);
    hide Run, Conserved, Answered, BatchOrder, Authorised;
    SendingHolds(Run(Initial(development), events));
    DeliveryStep(Run(Initial(development), events), reply);
  }

  lemma SendingHolds(s: State)
    requires Durable(s) && s.running && s.phase.Sending?
    ensures s.mem != [] && s.mem == s.journal
  {
  }

  lemma DeliveryStep(s: State, reply: Reply)
    requires s.running && s.phase.Sending? && s.mem != [] && s.mem == s.journal
    ensures var t := Next(s, ResultReply(reply));
            match reply {
              case Acked =>
                s.mem[0] in t.acked && t.mem == t.journal == s.mem[1..] && t.quarantine == s.quarantine
                && (t.mem != [] ==> t.phase == s.phase)
              case Rejected =>
                s.mem[0] in t.rejected && t.mem == t.journal == s.mem && t.quarantine == s.quarantine + [s.mem[0]]
                && t.phase == Removing(s.phase.goal)
                && Next(t, FinishRemoval).mem == Next(t, FinishRemoval).journal == s.mem[1..]
                && !Next(t, FinishRemoval).phase.Removing?
              case Lost(processed) =>
                t.mem == t.journal == s.mem && t.quarantine == s.quarantine && t.phase == Idle
                && (processed ==> s.mem[0] in t.acked)
                && Next(t, PollTimer).phase == Sending(Poll)
            }
  {
    hide Pick, Resumed;
    var p := s.mem[0];
    FlushResumes(DropOldest(s.(acked := s.acked + {p})), s.phase.goal);
    FlushResumes(DropOldest(s.(rejected := s.rejected + {p}, quarantine := s.quarantine + [p],
                              phase := Removing(s.phase.goal))), s.phase.goal);
    FlushKeeps(DropOldest(s.(acked := s.acked + {p})), s.phase.goal);
    FlushKeeps(DropOldest(s.(rejected := s.rejected + {p}, quarantine := s.quarantine + [p],
                             phase := Removing(s.phase.goal))), s.phase.goal);
  }

  lemma FlushKeeps(s: State, goal: Goal)
    ensures var t := FlushHead(s, goal);
            t.mem == s.mem && t.journal == s.journal && t.acked == s.acked && t.rejected == s.rejected
            && t.quarantine == s.quarantine && !t.phase.Removing?
  {
    FlushResumes(s, goal);
    hide FlushHead, Pick, Taken, Granted, BatchOrder;
  }

  /** A failed poll leaves the agent idle, ready for the next; a device's answer ends its invocation, and
      recording a result ends in its delivery. */
  lemma WaitsEnd(development: bool, events: seq<Event>, result: Json, stamp: Text)
    ensures var s := Run(Initial(development), events);
            (s.running && s.phase.Polling? ==> Next(s, PollFailed) == s.(phase := Idle))
            && (s.running && s.phase.Invoking? ==> Next(s, DeviceDone(result)).phase.Recording?)
            && (s.running && s.phase.Recording? ==> Next(s, Record(stamp)).phase == Sending(NextCommand))
  {
    RunSound(development, events);
    hide Run, Conserved, Answered, BatchOrder, Authorised, Pick;
  }

  /** A crash leaves nothing but the files; the next process starts idle, with the journal in memory, no
      batch, no heartbeat under way and no word from the platform. */
  lemma RestartIsFresh(s: State)
    requires s.running
    ensures var t, u := Next(s, Crash), Next(Next(s, Crash), Restart);
            !t.running && t.journal == s.journal && t.quarantine == s.quarantine
            && u.running && u.mem == u.journal == s.journal && u.quarantine == s.quarantine && u.phase == Idle
            && u.batch == NO_BATCH && !u.heartbeating && !u.granted && u.pollAllowed == s.development
            && Next(u, HeartbeatTimer).heartbeating
            && Next(Next(u, HeartbeatTimer), HeartbeatReply(true)).granted
            && !Next(Next(u, HeartbeatTimer), HeartbeatEnd).heartbeating
  {
  }

  /** The latest time reported. */
  function Latest(events: seq<Event>): real {
    if events == [] then 0.0
    else
      var e, before := events[|events| - 1], Latest(events[..|events| - 1]);
      if e.Advance? && e.to > before then e.to else before
  }

  /** The clock is the latest time reported, whatever the agent does meanwhile. */
  lemma {:induction false} ClockIsLatest(development: bool, events: seq<Event>)
    ensures Run(Initial(development), events).clock == Latest(events)
  {
    hide Next, Durable;
    if events != [] {
      var n := |events| - 1;
      ClockIsLatest(development, events[..n]);
      RunSound(development, events[..n]);
      ClockSteps(Run(Initial(development), events[..n]), events[n]);
    }
  }

  lemma ClockSteps(s: State, e: Event)
    requires Durable(s)
    ensures Next(s, e).clock == if e.Advance? && e.to > s.clock then e.to else s.clock
  {
    hide Pick, FlushHead, BatchOrder, Taken, Granted, UniqueIds;
    StepShape(s, e);
  }

  // What the platform allows

  /** The last word on polling since the process started: the acknowledgement of a heartbeat, or before
      any the agent's own, which allows polling in development only. */
  function LastWord(development: bool, events: seq<Event>): bool {
    if events == [] then false
    else
      var n := |events| - 1;
      var s, e := Run(Initial(development), events[..n]), events[n];
      if e.Restart? && !s.running then development
      else if e.HeartbeatReply? && s.running && s.heartbeating then e.allowed
      else LastWord(development, events[..n])
  }

  lemma StepAllowed(s: State, e: Event)
    requires Durable(s)
    ensures var t := Next(s, e);
            t.development == s.development
            && t.pollAllowed == (if e.Restart? && !s.running then s.development
                                 else if e.HeartbeatReply? && s.running && s.heartbeating then e.allowed
                                 else s.pollAllowed)
  {
    hide Pick, BatchOrder, Taken, Granted, UniqueIds;
    StepShape(s, e);
  }

  lemma StepFetches(s: State, e: Event)
    requires Durable(s)
    ensures var t := Next(s, e);
            (t.phase.Polling? && !s.phase.Polling? ==> s.pollAllowed)
            && (s.running && s.phase.Idle? && s.mem == [] && e.PollTimer? ==>
                  t.phase == if s.pollAllowed then Polling(s.clock) else Idle)
  {
    hide Pick, BatchOrder, Taken, Granted, UniqueIds;
    StepShape(s, e);
  }

  lemma {:induction false} PollAllowedIs(development: bool, events: seq<Event>)
    ensures var s := Run(Initial(development), events);
            s.development == development && s.pollAllowed == LastWord(development, events)
  {
    hide Next, Durable;
    if events != [] {
      var n := |events| - 1;
      PollAllowedIs(development, events[..n]);
      RunSound(development, events[..n]);
      StepAllowed(Run(Initial(development), events[..n]), events[n]);
    }
  }

  /** In every run, commands are fetched only when the last word allowed it, and an idle agent with
      nothing to deliver fetches them exactly then. */
  lemma PollingFollowsTheLastWord(development: bool, events: seq<Event>, e: Event)
    ensures var s, t := Run(Initial(development), events), Next(Run(Initial(development), events), e);
            (t.phase.Polling? && !s.phase.Polling? ==> LastWord(development, events))
            && (s.running && s.phase.Idle? && s.mem == [] && e.PollTimer? ==>
                  t.phase == if LastWord(development, events) then Polling(s.clock) else Idle)
  {
    hide Run, Next, Durable;
    PollAllowedIs(development, events);
    RunSound(development, events);
    StepFetches(Run(Initial(development), events), e);
  }

  // The crash in that bound is real

  const COMMAND := Command([99], [108], true, true, Some(60000.0))
  const BATCH_REPLY := PollReply([COMMAND], 0.0)

  /** The process dies while the device works, and the unsettled command is leased again. */
  const CRASH_RUN := [Restart, PollTimer, BATCH_REPLY, Crash, Restart, PollTimer, BATCH_REPLY]

  lemma {:induction false} RunFrom(s: State, e: Event, events: seq<Event>)
    ensures Run(s, [e] + events) == Run(Next(s, e), events)
    decreases |events|
  {
    hide Next;
    var all := [e] + events;
    if events == [] {
      assert all[..0] == [];
    } else {
      var n := |events| - 1;
      RunFrom(s, e, events[..n]);
      assert all[..|all| - 1] == [e] + events[..n];
    }
  }

  lemma StepSettlesByReply(s: State, e: Event)
    requires Durable(s) && !e.ResultReply?
    ensures Next(s, e).acked == s.acked && Next(s, e).rejected == s.rejected
  {
    hide Pick, FlushHead, BatchOrder, Taken, Granted, UniqueIds;
    StepShape(s, e);
  }

  /** Without a reply to a result nothing becomes settled. */
  lemma {:induction false} NothingSettled(development: bool, events: seq<Event>)
    requires forall e | e in events :: !e.ResultReply?
    ensures Run(Initial(development), events).acked == {} && Run(Initial(development), events).rejected == {}
  {
    hide Next, Durable;
    if events != [] {
      var n := |events| - 1;
      NothingSettled(development, events[..n]);
      RunSound(development, events[..n]);
      StepSettlesByReply(Run(Initial(development), events[..n]), events[n]);
    }
  }

  lemma CrashRunAdmitted()
    ensures Admits(Initial(true), CRASH_RUN, LeasesUnsettled)
  {
    hide Run;
    forall i | 0 <= i < |CRASH_RUN| ensures LeasesUnsettled(Run(Initial(true), CRASH_RUN[..i]), CRASH_RUN[i]) {
      NothingSettled(true, CRASH_RUN[..i]);
    }
  }

  /** A run within the platform's promise in which one id is invoked twice, for one crash. */
  lemma ACrashCanRepeatAnExecution()
    ensures Admits(Initial(true), CRASH_RUN, LeasesUnsettled)
    ensures Invocations(Run(Initial(true), CRASH_RUN).invoked, COMMAND.id) == 2
    ensures CountIds(Run(Initial(true), CRASH_RUN).lost, COMMAND.id) == 1
  {
    hide Next, Run, Admits;
    CrashRunAdmitted();
    var s0 := Initial(true);
    var s1 := OneLife(s0);
    CrashInFlight(s1);
    var s4 := Next(s1, Crash);
    var s7 := OneLife(s4);
    assert CRASH_RUN == LIFE + ([Crash] + (LIFE + []));
    RunLife(s0, [Crash] + (LIFE + []));
    RunFrom(s1, Crash, LIFE + []);
    RunLife(s4, []);
    RunNothing(s7);
  }

  lemma RunNothing(s: State)
    ensures Run(s, []) == s
  {
  }

  lemma CrashInFlight(s: State)
    requires s.running && InFlight(s) == Some(COMMAND.id)
    ensures var t := Next(s, Crash);
            t == s.(running := false, phase := Idle, lost := s.lost + [COMMAND.id])
            && CountIds(t.lost, COMMAND.id) == CountIds(s.lost, COMMAND.id) + 1
  {
    CountSnoc(s.lost, COMMAND.id, COMMAND.id);
  }

  const LIFE := [Restart, PollTimer, BATCH_REPLY]

  /** Started over an empty journal, the agent polls and invokes the device of the one command. */
  lemma OneLife(s: State) returns (t: State)
    requires s.development && !s.running && s.journal == [] && s.clock == 0.0
    ensures t == Next(Next(Next(s, Restart), PollTimer), BATCH_REPLY)
    ensures t.running && t.journal == [] && t.clock == 0.0 && t.development && t.lost == s.lost
    ensures InFlight(t) == Some(COMMAND.id)
    ensures Invocations(t.invoked, COMMAND.id) == Invocations(s.invoked, COMMAND.id) + 1
  {
    t := Next(Next(Next(s, Restart), PollTimer), BATCH_REPLY);
    InvocationsSnoc(s.invoked, Invocation(COMMAND.id, 0.0, 60000.0), COMMAND.id);
  }

  lemma RunLife(s: State, rest: seq<Event>)
    ensures Run(s, LIFE + rest) == Run(Next(Next(Next(s, Restart), PollTimer), BATCH_REPLY), rest)
  {
    hide Next, Run;
    assert LIFE + rest == [Restart] + ([PollTimer] + ([BATCH_REPLY] + rest));
    RunFrom(s, Restart, [PollTimer] + ([BATCH_REPLY] + rest));
    RunFrom(Next(s, Restart), PollTimer, [BATCH_REPLY] + rest);
    RunFrom(Next(Next(s, Restart), PollTimer), BATCH_REPLY, rest);
  }
}
