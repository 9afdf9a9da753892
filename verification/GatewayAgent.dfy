/** The post agent's polling and heartbeat code, one method per synchronous segment between two
    suspension points, each proved to make exactly one step of `AgentProtocol`. */
module GatewayAgent {
  import opened Common
  import opened JsonString
  import opened JsonCanon
  import opened ResultOutbox
  import opened AgentProtocol
  import JournalText
  import LineFile

  /** What the batch loop does with a command that was not dealt with before. */
  lemma TakeNext(s: State)
    requires s.batch.next < |s.batch.commands|
    requires var c := s.batch.commands[s.batch.next]; !Seen(s.batch.done, c.id) && !Holds(s.mem, c.id)
    ensures var b := s.batch; var c := b.commands[b.next];
            AgentProtocol.Pick(s) == s.(
              batch := b.(next := b.next + 1, done := b.done + [c]),
              phase := if Granted(c, b.startedAt, s.clock) then Invoking(c) else Recording(c, REFUSAL, false),
              invoked := if Granted(c, b.startedAt, s.clock)
                         then s.invoked + [Invocation(c.id, s.clock, b.issuedAt + c.budget.value)] else s.invoked)
  {
  }

  lemma RecordStep(s: State, stamp: Text)
    requires Durable(s) && s.running && s.phase.Recording?
    ensures s.mem == [] && !Holds(s.mem, s.phase.cmd.id)
    ensures Next(s, Record(stamp)) == AgentProtocol.FlushHead(
              AgentProtocol.Enqueue(s, Pending(s.phase.cmd.id, s.phase.cmd.lease, s.phase.result, stamp)), NextCommand)
  {
    hide AgentProtocol.FlushHead, AgentProtocol.Pick;
  }

  class Agent {
    const development: bool
    const outbox: Outbox
    /** Where the suspended `pollOnce` stands; `polling` is false exactly when it is idle. */
    var phase: Phase
    var batch: Batch
    var pollAllowed: bool
    var heartbeating: bool
    /** The platform, the clock and the history: what the agent does not hold itself. */
    ghost var world: State

    ghost predicate Valid()
      reads this, outbox
    {
      outbox.Valid() && Durable(View())
    }

    /** The protocol state this agent is in. */
    ghost function View(): State
      reads this, outbox
    {
      world.(development := development, running := true, mem := outbox.results, journal := outbox.results,
             quarantine := outbox.quarantine, phase := phase, batch := batch,
             pollAllowed := pollAllowed, heartbeating := heartbeating)
    }

    /** A new process over the journal an earlier one left behind. */
    constructor (development: bool, outbox: Outbox, ghost before: State)
      requires outbox.Valid() && Durable(before) && !before.running && before.development == development
      requires before.journal == outbox.results && before.quarantine == outbox.quarantine
      ensures this.outbox == outbox
      ensures Valid() && View() == Next(before, Restart)
    {
      this.development, this.outbox := development, outbox;
      phase, batch := Idle, NO_BATCH;
      pollAllowed, heartbeating := development, false;
      world := before.(granted := false);
    }

    /** `pollOnce` up to its first suspension point; a poll in progress is left alone. */
    method PollTimer(now: real)
      requires Valid() && now == world.clock
      modifies this
      ensures Valid() && View() == Next(old(View()), AgentProtocol.PollTimer)
    {
      StepDurable(View(), AgentProtocol.PollTimer);
      if phase.Idle? {
        FlushHead(Poll, now);
      }
    }

    /** The loop of `flushResults` reaches its next send, or gives way to what follows the flush. */
    method FlushHead(goal: Goal, now: real)
      requires now == world.clock
      modifies this
      ensures View() == AgentProtocol.FlushHead(old(View()), goal)
    {
      if outbox.results != [] {
        phase := Sending(goal);
      } else if goal == NextCommand {
        Pick(now);
      } else if !pollAllowed {
        phase := Idle;
      } else {
        phase := Polling(now);
      }
    }

    /** The batch loop up to the next device invocation or refusal. */
    method Pick(now: real)
      requires now == world.clock
      modifies this
      ensures View() == AgentProtocol.Pick(old(View()))
    {
      while batch.next < |batch.commands|
        invariant now == world.clock
        invariant AgentProtocol.Pick(View()) == AgentProtocol.Pick(old(View()))
        decreases |batch.commands| - batch.next
      {
        var c := batch.commands[batch.next];
        var known := outbox.Has(c.id);
        if !known && !Seen(batch.done, c.id) {
          Take(c, now);
          return;
        }
        batch := batch.(next := batch.next + 1);
      }
      phase := Idle;
    }

    /** The next command, which was not dealt with before: its device is invoked, or it is refused. */
    method Take(c: Command, now: real)
      requires now == world.clock && batch.next < |batch.commands| && c == batch.commands[batch.next]
      requires !Seen(batch.done, c.id) && !Holds(outbox.results, c.id)
      modifies this
      ensures View() == AgentProtocol.Pick(old(View()))
    {
      TakeNext(View());
      hide AgentProtocol.Pick, Granted;
      batch := batch.(next := batch.next + 1, done := batch.done + [c]);
      if Granted(c, batch.startedAt, now) {
        phase := Invoking(c);
        world := world.(invoked := world.invoked + [Invocation(c.id, now, batch.issuedAt + c.budget.value)]);
      } else {
        phase := Recording(c, REFUSAL, false);
      }
    }

    /** `postResult` settles for the oldest result. */
    method ResultReplied(reply: Reply, now: real)
      requires Valid() && phase.Sending? && now == world.clock
      modifies this, outbox
      ensures Valid() && View() == Next(old(View()), ResultReply(reply))
    {
      StepDurable(View(), ResultReply(reply));
      assert Next(View(), ResultReply(reply)) == OnReply(View(), reply);
      hide Durable, Next, OnReply;
      match reply
      case Acked => Acknowledge(now);
      case Rejected => Quarantine();
      case Lost(processed) => LoseReply(processed);
    }

    method Acknowledge(now: real)
      requires outbox.Valid() && outbox.results != [] && phase.Sending? && now == world.clock
      modifies this, outbox
      ensures outbox.Valid() && View() == OnReply(old(View()), Acked)
    {
      world := world.(acked := world.acked + {outbox.results[0]});
      DropOldest();
      FlushHead(phase.goal, now);
    }

    /** The flush stops at a failed delivery; the platform may have taken the result all the same. */
    method LoseReply(ghost processed: bool)
      requires outbox.results != [] && phase.Sending?
      modifies this
      ensures View() == OnReply(old(View()), Lost(processed))
    {
      world := world.(acked := if processed then world.acked + {outbox.results[0]} else world.acked);
      phase := Idle;
    }

    /** The copy is appended to the quarantine file; the journal still holds the result. */
    method Quarantine()
      requires outbox.Valid() && outbox.results != [] && phase.Sending?
      modifies this, outbox
      ensures outbox.Valid() && View() == OnReply(old(View()), Rejected)
    {
      outbox.quarantine := outbox.quarantine + [outbox.results[0]];
      world := world.(rejected := world.rejected + {outbox.results[0]});
      phase := Removing(phase.goal);
    }

    /** The rejected result leaves the journal after its copy reached the quarantine file. */
    method FinishRemoval(now: real)
      requires Valid() && phase.Removing? && now == world.clock
      modifies this, outbox
      ensures Valid() && View() == Next(old(View()), AgentProtocol.FinishRemoval)
    {
      StepDurable(View(), AgentProtocol.FinishRemoval);
      DropOldest();
      FlushHead(phase.goal, now);
    }

    method DropOldest()
      requires outbox.Valid() && outbox.results != []
      modifies outbox
      ensures outbox.Valid() && View() == AgentProtocol.DropOldest(old(View()))
    {
      outbox.results := outbox.results[1..];
      outbox.Persist();
    }

    /** `pollCommands` resolves with a batch; `issuedAt` is the platform's own issue time, which the
        agent keeps for the record only. */
    method PollReplied(commands: seq<Command>, issuedAt: real, now: real)
      requires Valid() && phase.Polling? && now == world.clock
      modifies this
      ensures Valid() && View() == Next(old(View()), PollReply(commands, issuedAt))
    {
      StepDurable(View(), PollReply(commands, issuedAt));
      batch := Batch(commands, 0, [], phase.startedAt, issuedAt);
      Pick(now);
    }

    method PollRejected()
      requires Valid() && phase.Polling?
      modifies this
      ensures Valid() && View() == Next(old(View()), PollFailed)
    {
      StepDurable(View(), PollFailed);
      phase := Idle;
    }

    /** `handleCommand` resolves; its result is not yet in the journal. */
    method DeviceFinished(result: Json)
      requires Valid() && phase.Invoking?
      modifies this
      ensures Valid() && View() == Next(old(View()), DeviceDone(result))
    {
      StepDurable(View(), DeviceDone(result));
      phase := Recording(phase.cmd, result, true);
    }

    /** The result is journaled before anything is sent; a conflict with a stored result cannot arise. */
    method RecordResult(stamp: Text, now: real) returns (r: Outcome<Pending, ()>)
      requires Valid() && phase.Recording? && now == world.clock
      modifies this, outbox
      ensures Valid() && View() == Next(old(View()), Record(stamp))
      ensures r.Returned? && r.value.commandId == old(phase.cmd.id)
    {
      ghost var before := View();
      StepDurable(before, Record(stamp));
      RecordStep(before, stamp);
      hide Durable, Next, AgentProtocol.FlushHead, AgentProtocol.Pick;
      r := Journal(stamp);
      FlushHead(NextCommand, now);
    }

    /** `results.enqueue` of the current command's result. */
    method Journal(stamp: Text) returns (r: Outcome<Pending, ()>)
      requires outbox.Valid() && phase.Recording? && !Holds(outbox.results, phase.cmd.id)
      modifies this`world, outbox
      ensures outbox.Valid() && phase == old(phase)
      ensures r == Returned(Pending(phase.cmd.id, phase.cmd.lease, phase.result, stamp))
      ensures View() == AgentProtocol.Enqueue(old(View()), r.value)
    {
      hide LoadLines, UniqueIds;
      r := outbox.Enqueue(phase.cmd.id, phase.cmd.lease, phase.result, stamp);
      world := world.(recorded := world.recorded + [r.value],
                      executed := if phase.invoked then world.executed + [phase.cmd.id] else world.executed);
    }

    /** `heartbeatOnce` begins; an overlapping heartbeat is left alone. */
    method HeartbeatTimer()
      requires Valid()
      modifies this
      ensures Valid() && View() == Next(old(View()), AgentProtocol.HeartbeatTimer)
    {
      StepDurable(View(), AgentProtocol.HeartbeatTimer);
      if heartbeating {
        return;
      }
      heartbeating := true;
    }

    /** The heartbeat acknowledgement decides whether the next poll may fetch commands. */
    method HeartbeatReplied(allowed: bool)
      requires Valid() && heartbeating
      modifies this
      ensures Valid() && View() == Next(old(View()), HeartbeatReply(allowed))
    {
      StepDurable(View(), HeartbeatReply(allowed));
      pollAllowed := allowed;
      world := world.(granted := world.granted || allowed);
    }

    method HeartbeatFinished()
      requires Valid()
      modifies this
      ensures Valid() && View() == Next(old(View()), HeartbeatEnd)
    {
      StepDurable(View(), HeartbeatEnd);
      heartbeating := false;
    }
  }

  /** The start of the process over the journal file an earlier one left, or none: the records its
      text holds are those the protocol restarts with. */
  method Launch(development: bool, file: Option<Text>, corrupt: seq<LineFile.Line<Pending>>,
                quarantine: seq<Pending>, ghost before: State)
    returns (agent: Agent)
    requires Durable(before) && !before.running && before.development == development && before.quarantine == quarantine
    requires before.journal == if file.None? then [] else LoadLines(JournalText.ReadFile(file.value)).results
    ensures agent.Valid() && agent.View() == Next(before, Restart)
  {
    var journal := if file.None? then None else Some(JournalText.ReadFile(file.value));
    var outbox := new Outbox(journal, corrupt, quarantine);
    outbox.Load();
    agent := new Agent(development, outbox, before);
  }
}
