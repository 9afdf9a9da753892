/** The bounded store-and-forward queue of diagnostic events: `enqueue` runs while a `flush` waits
    for the platform, crashes fall anywhere, and the platform keeps one copy per event id. */
module OfflineBuffer {
  import opened Common
  import opened JsonString
  import opened LineFile

  datatype Event = Event(eventId: Text, content: Text, enqueuedAt: Text)

  /** Memory and file, and what is known of the past: every event found in the first file or
      enqueued since (`log`), from which
      positions memory and file hold it, and which positions arrived, overflowed or were lost. */
  datatype State = State(
    maxEvents: nat, running: bool,
    mem: seq<Event>, file: seq<Event>, sending: Option<Event>, sent: nat,
    log: seq<Event>, memFrom: nat, fileFrom: nat, sendingAt: nat, overflowed: bool,
    arrived: set<nat>, dropped: set<nat>, lost: set<nat>, accepted: seq<Text>)

  datatype Step =
    | Enqueue(event: Event)
    | FlushStart
    | SendResolved                 // the platform answered
    | SendRejected(arrived: bool)  // no answer; the event may have arrived
    | Crash
    | Restart

  /** The platform's unique constraint on the event id. */
  function Accept(accepted: seq<Text>, id: Text): seq<Text> {
    if id in accepted then accepted else accepted + [id]
  }

  function Arrive(s: State): State
    requires s.sending.Some?
  {
    s.(arrived := s.arrived + {s.sendingAt}, accepted := Accept(s.accepted, s.sending.value.eventId))
  }

  function Persist(s: State): State { s.(file := s.mem, fileFrom := s.memFrom) }

  function Range(from: nat, count: nat): (r: set<nat>)
    ensures forall i: nat :: (i in r) == (from <= i < from + count)
    decreases count
  {
    if count == 0 then {} else {from} + Range(from + 1, count - 1)
  }

  function OnEnqueue(s: State, e: Event): State {
    var mem := s.mem + [e];
    var over := if |mem| > s.maxEvents then |mem| - s.maxEvents else 0;
    Persist(s.(mem := mem[over..], log := s.log + [e], memFrom := s.memFrom + over,
               dropped := s.dropped + Range(s.memFrom, over), overflowed := s.overflowed || over > 0))
  }

  /** The head of the flush loop: the next send, or the end of the flush. */
  function SendNext(s: State): State {
    if s.mem != [] then s.(sending := Some(s.mem[0]), sendingAt := s.memFrom, overflowed := false)
    else EndFlush(s)
  }

  function EndFlush(s: State): State {
    var t := if s.sent > 0 then Persist(s) else s;
    t.(sending := None, sent := 0)
  }

  /** `shift` after a send: the head of the queue leaves memory, whichever event it is. */
  function Shift(s: State): State {
    if s.mem == [] then s
    else s.(mem := s.mem[1..], memFrom := s.memFrom + 1,
            lost := if s.memFrom in s.arrived then s.lost else s.lost + {s.memFrom})
  }

  function Next(s: State, step: Step): State {
    if !s.running then
      if step.Restart? then
        s.(running := true, mem := s.file, memFrom := s.fileFrom, sending := None, sent := 0)
      else s
    else match step
      case Enqueue(e) => OnEnqueue(s, e)
      case FlushStart => if s.sending.None? then SendNext(s.(sent := 0)) else s
      case SendResolved =>
        if s.sending.Some? then
          var t := Shift(Arrive(s));
          SendNext(t.(sent := s.sent + 1))
        else s
      case SendRejected(arrived) =>
        if s.sending.Some? then EndFlush(if arrived then Arrive(s) else s) else s
      case Crash => s.(running := false, sending := None, sent := 0)
      case Restart => s
  }

  /** Not yet started, over the events an earlier installation left in the file, however many. */
  function Initial(maxEvents: nat, file: seq<Event>): State {
    State(maxEvents, false, [], file, None, 0, file, 0, 0, 0, false, {}, {}, {}, [])
  }

  function Run(s: State, steps: seq<Step>): State {
    if steps == [] then s else Next(Run(s, steps[..|steps| - 1]), steps[|steps| - 1])
  }

  /** Memory and file are the ends of the log from their positions on; the file reaches back at least
      as far, so memory is a suffix of the file. */
  ghost predicate Windows(s: State) {
    && s.fileFrom <= |s.log| && s.file == s.log[s.fileFrom..]
    && (s.running ==> s.fileFrom <= s.memFrom <= |s.log| && s.mem == s.log[s.memFrom..])
    && (s.sending.Some? ==> SendingFromLog(s))
  }

  /** The event in flight is the logged one; an overflow since its send began is what moves the head. */
  ghost predicate SendingFromLog(s: State) {
    && s.running && s.sendingAt <= s.memFrom && s.sendingAt < |s.log| && s.sending == Some(s.log[s.sendingAt])
    && (s.overflowed <==> s.sendingAt < s.memFrom)
  }

  lemma EnqueueWindows(s: State, e: Event)
    requires Windows(s) && s.running
    ensures Windows(OnEnqueue(s, e)) && |OnEnqueue(s, e).mem| <= s.maxEvents
  {
    var over := if |s.mem| + 1 > s.maxEvents then |s.mem| + 1 - s.maxEvents else 0;
    assert (s.log + [e])[s.memFrom..] == s.mem + [e];
    assert (s.log + [e])[s.memFrom + over..] == (s.mem + [e])[over..];
  }

  lemma StepWindows(s: State, step: Step)
    requires Windows(s)
    ensures Windows(Next(s, step))
  {
    hide OnEnqueue, Shift, SendNext, EndFlush, Accept;
    if s.running {
      match step
      case Enqueue(e) => EnqueueWindows(s, e);
      case FlushStart =>
        if s.sending.None? {
          SendNextWindows(s.(sent := 0));
        }
      case SendResolved =>
        if s.sending.Some? {
          ShiftWindows(Arrive(s));
          SendNextWindows(Shift(Arrive(s)).(sent := s.sent + 1));
        }
      case SendRejected(arrived) =>
        if s.sending.Some? {
          EndFlushWindows(if arrived then Arrive(s) else s);
        }
      case _ =>
    }
  }

  lemma EndFlushWindows(s: State)
    requires s.running && Windows(s.(sending := None))
    ensures Windows(EndFlush(s))
  {
  }

  lemma SendNextWindows(s: State)
    requires s.running && Windows(s.(sending := None))
    ensures Windows(SendNext(s))
  {
    hide EndFlush;
    EndFlushWindows(s);
  }

  lemma ShiftWindows(s: State)
    requires s.running && Windows(s.(sending := None))
    ensures Windows(Shift(s).(sending := None)) && Shift(s).running
  {
    if s.mem != [] {
      assert s.log[s.memFrom..][1..] == s.log[s.memFrom + 1..];
    }
  }

  /** Every position that left memory for good arrived, overflowed, or was lost. */
  ghost predicate Covered(s: State) {
    forall i: nat | i < s.fileFrom || (s.running && i < s.memFrom) :: i in s.arrived || i in s.dropped || i in s.lost
  }

  lemma StepCovers(s: State, step: Step)
    requires Covered(s)
    ensures Covered(Next(s, step))
  {
    hide OnEnqueue, Shift, SendNext, Accept;
    if s.running {
      match step
      case Enqueue(e) => EnqueueCovers(s, e);
      case FlushStart =>
        if s.sending.None? {
          SendNextCovers(s.(sent := 0));
        }
      case SendResolved =>
        if s.sending.Some? {
          ShiftCovers(Arrive(s));
          SendNextCovers(Shift(Arrive(s)).(sent := s.sent + 1));
        }
      case _ =>
    }
  }

  lemma EnqueueCovers(s: State, e: Event)
    requires s.running && Covered(s)
    ensures Covered(OnEnqueue(s, e))
  {
  }

  lemma SendNextCovers(s: State)
    requires s.running && Covered(s)
    ensures Covered(SendNext(s))
  {
  }

  lemma ShiftCovers(s: State)
    requires s.running && Covered(s)
    ensures Covered(Shift(s)) && Shift(s).running
  {
  }

  /** The platform holds the ids of exactly the events that arrived, each once. */
  ghost predicate AcceptedOnce(log: seq<Event>, arrived: set<nat>, accepted: seq<Text>) {
    && (forall i | i in arrived :: i < |log| && log[i].eventId in accepted)
    && (forall id | id in accepted :: exists i | i in arrived :: i < |log| && log[i].eventId == id)
    && (forall i, j | 0 <= i < j < |accepted| :: accepted[i] != accepted[j])
  }

  lemma ArriveAccepts(log: seq<Event>, arrived: set<nat>, accepted: seq<Text>, at: nat)
    requires AcceptedOnce(log, arrived, accepted) && at < |log|
    ensures AcceptedOnce(log, arrived + {at}, Accept(accepted, log[at].eventId))
  {
    var after := Accept(accepted, log[at].eventId);
    forall id | id in after ensures exists i | i in arrived + {at} :: i < |log| && log[i].eventId == id {
      if id in accepted {
        var i :| i in arrived && i < |log| && log[i].eventId == id;
        assert i in arrived + {at};
      } else {
        assert at in arrived + {at};
      }
    }
  }

  lemma LogGrows(log: seq<Event>, arrived: set<nat>, accepted: seq<Text>, e: Event)
    requires AcceptedOnce(log, arrived, accepted)
    ensures AcceptedOnce(log + [e], arrived, accepted)
  {
    forall id | id in accepted ensures exists i | i in arrived :: i < |log + [e]| && (log + [e])[i].eventId == id {
      var i :| i in arrived && i < |log| && log[i].eventId == id;
      assert (log + [e])[i] == log[i];
    }
  }

  ghost predicate Deduplicated(s: State) { AcceptedOnce(s.log, s.arrived, s.accepted) }

  lemma StepDeduplicates(s: State, step: Step)
    requires Windows(s) && Deduplicated(s)
    ensures Deduplicated(Next(s, step))
  {
    hide AcceptedOnce, Accept;
    if s.running {
      if step.Enqueue? {
        LogGrows(s.log, s.arrived, s.accepted, step.event);
      } else if s.sending.Some? {
        ArriveAccepts(s.log, s.arrived, s.accepted, s.sendingAt);
      }
    }
  }

  lemma {:induction false} RunSound(maxEvents: nat, file: seq<Event>, steps: seq<Step>)
    ensures var s := Run(Initial(maxEvents, file), steps); Windows(s) && Covered(s) && Deduplicated(s)
  {
    hide Next, Windows, Covered, Deduplicated;
    if steps == [] {
      InitialSound(maxEvents, file);
    } else {
      var n := |steps| - 1;
      RunSound(maxEvents, file, steps[..n]);
      var s := Run(Initial(maxEvents, file), steps[..n]);
      StepWindows(s, steps[n]);
      StepCovers(s, steps[n]);
      StepDeduplicates(s, steps[n]);
    }
  }

  lemma InitialSound(maxEvents: nat, file: seq<Event>)
    ensures var s := Initial(maxEvents, file); Windows(s) && Covered(s) && Deduplicated(s) && s.lost == {}
  {
  }

  /** In every run, with sends in flight and crashes anywhere: memory is the end of the file, so a
      crash brings back only events of the log with the id they were given, and the platform keeps
      one entry for each id that arrived. */
  lemma MemoryIsSuffixOfFile(maxEvents: nat, file: seq<Event>, steps: seq<Step>)
    ensures var s := Run(Initial(maxEvents, file), steps);
            (s.running ==> |s.mem| <= |s.file| && s.mem == s.file[|s.file| - |s.mem|..])
            && (forall e | e in s.file :: e in s.log) && (s.sending.Some? ==> s.sending.value in s.log)
            && AcceptedOnce(s.log, s.arrived, s.accepted)
  {
    hide Run, AcceptedOnce, Covered;
    RunSound(maxEvents, file, steps);
  }

  /** A crash at any point, with a send in flight or not, leaves the process to start over with exactly the
      events of the file. */
  lemma CrashKeepsTheFile(s: State)
    requires s.running
    ensures var t := Next(Next(s, Crash), Restart);
            !Next(s, Crash).running && t.running && t.mem == t.file == s.file && t.sending == None
            && t.memFrom == t.fileFrom == s.fileFrom && t.log == s.log && t.arrived == s.arrived && t.lost == s.lost
  {
  }

  /** The file is memory, except inside a flush that has removed something. */
  ghost predicate Synced(s: State) {
    s.running && (s.sending.None? || s.sent == 0) ==> s.file == s.mem && s.fileFrom == s.memFrom
  }

  lemma StepSyncs(s: State, step: Step)
    requires Synced(s)
    ensures Synced(Next(s, step))
  {
    hide Accept, Range;
  }

  /** In every run, while no flush is under way the file holds exactly what memory holds, so a crash
      then neither loses an event nor brings one back; in particular after every flush, stopped or not. */
  lemma {:induction false} FileIsMemoryBetweenFlushes(maxEvents: nat, file: seq<Event>, steps: seq<Step>)
    ensures var s := Run(Initial(maxEvents, file), steps);
            Synced(s)
            && (s.running && s.sending.None? ==> s.file == s.mem && Next(Next(s, Crash), Restart).mem == s.mem)
  {
    if steps != [] {
      var n := |steps| - 1;
      FileIsMemoryBetweenFlushes(maxEvents, file, steps[..n]);
      StepSyncs(Run(Initial(maxEvents, file), steps[..n]), steps[n]);
      hide Synced, Shift, SendNext, EndFlush, OnEnqueue;
    }
  }

  /** No enqueue leaves more than `maxEvents` events, however many were loaded. */
  lemma EnqueueBounds(maxEvents: nat, file: seq<Event>, steps: seq<Step>, e: Event)
    requires Run(Initial(maxEvents, file), steps).running
    ensures |Next(Run(Initial(maxEvents, file), steps), Enqueue(e)).mem| <= maxEvents
  {
    RunSound(maxEvents, file, steps);
    EnqueueWindows(Run(Initial(maxEvents, file), steps), e);
    KeepsLimit(maxEvents, file, steps);
  }

  lemma {:induction false} KeepsLimit(maxEvents: nat, file: seq<Event>, steps: seq<Step>)
    ensures Run(Initial(maxEvents, file), steps).maxEvents == maxEvents
  {
    if steps != [] {
      KeepsLimit(maxEvents, file, steps[..|steps| - 1]);
    }
  }

  /** Sends go forward through the log: an answered send is followed by that of a later event, a flush
      begins with the oldest event in memory, and nothing else changes what is being sent. */
  lemma SendsInOrder(maxEvents: nat, file: seq<Event>, steps: seq<Step>, step: Step)
    ensures var s, t := Run(Initial(maxEvents, file), steps), Next(Run(Initial(maxEvents, file), steps), step);
            t.sending.Some? ==>
              t.sendingAt < |t.log| && t.sending == Some(t.log[t.sendingAt])
              && (if s.sending.None? then step.FlushStart? && t.sendingAt == t.memFrom == s.memFrom
                  else if step.SendResolved? then s.sendingAt < t.sendingAt == t.memFrom
                  else t.sendingAt == s.sendingAt)
  {
    hide OnEnqueue, Accept;
    RunSound(maxEvents, file, steps);
    StepWindows(Run(Initial(maxEvents, file), steps), step);
    hide Covered, Deduplicated;
    SendKept(Run(Initial(maxEvents, file), steps), step);
  }

  lemma SendKept(s: State, step: Step)
    requires Windows(s)
    ensures step.Enqueue? && s.running ==> Next(s, step).sending == s.sending && Next(s, step).sendingAt == s.sendingAt
  {
  }

  /** The event that leaves memory after an answered send has reached the platform exactly when no
      enqueue overflowed since that send began, or when it had arrived before. */
  lemma RemovedEventArrivedIff(maxEvents: nat, file: seq<Event>, steps: seq<Step>)
    requires var s := Run(Initial(maxEvents, file), steps); s.sending.Some? && s.mem != []
    ensures var s := Run(Initial(maxEvents, file), steps); var t := Next(s, SendResolved);
            t.memFrom == s.memFrom + 1 && (s.memFrom in t.arrived <==> !s.overflowed || s.memFrom in s.arrived)
  {
    hide Run, Windows, Next, Covered, Deduplicated;
    RunSound(maxEvents, file, steps);
    HeadArrivedIff(Run(Initial(maxEvents, file), steps));
  }

  lemma HeadArrivedIff(s: State)
    requires Windows(s) && s.sending.Some? && s.mem != []
    ensures var t := Next(s, SendResolved);
            t.memFrom == s.memFrom + 1 && (s.memFrom in t.arrived <==> !s.overflowed || s.memFrom in s.arrived)
  {
    hide Accept, OnEnqueue;
  }

  /** No enqueue overflows the queue while a send is in flight. */
  predicate RoomWhileSending(s: State, step: Step) {
    step.Enqueue? && s.running && s.sending.Some? ==> |s.mem| < s.maxEvents
  }

  ghost predicate Admits(s: State, steps: seq<Step>, admissible: (State, Step) -> bool) {
    forall i | 0 <= i < |steps| :: admissible(Run(s, steps[..i]), steps[i])
  }

  /** Then every event that left the queue for good was sent or overflowed: none is lost. */
  lemma NothingLostWithRoom(maxEvents: nat, file: seq<Event>, steps: seq<Step>)
    requires Admits(Initial(maxEvents, file), steps, RoomWhileSending)
    ensures var s := Run(Initial(maxEvents, file), steps);
            s.lost == {} && forall i: nat | i < s.fileFrom || (s.running && i < s.memFrom) ::
                i in s.arrived || i in s.dropped
  {
    RunSound(maxEvents, file, steps);
    NoneLost(maxEvents, file, steps);
  }

  lemma {:induction false} NoneLost(maxEvents: nat, file: seq<Event>, steps: seq<Step>)
    requires Admits(Initial(maxEvents, file), steps, RoomWhileSending)
    ensures var s := Run(Initial(maxEvents, file), steps); s.lost == {} && (s.sending.Some? ==> !s.overflowed)
  {
    if steps != [] {
      var n := |steps| - 1;
      var s := Run(Initial(maxEvents, file), steps[..n]);
      AdmitsSnoc(Initial(maxEvents, file), steps, RoomWhileSending);
      NoneLost(maxEvents, file, steps[..n]);
      RunSound(maxEvents, file, steps[..n]);
      StepLosesNothing(s, steps[n]);
    }
  }

  lemma StepLosesNothing(s: State, step: Step)
    requires Windows(s) && RoomWhileSending(s, step) && s.lost == {} && (s.sending.Some? ==> !s.overflowed)
    ensures Next(s, step).lost == {} && (Next(s, step).sending.Some? ==> !Next(s, step).overflowed)
  {
  }

  /** The step removes an event that never reached the platform. */
  predicate Loses(s: State, step: Step) {
    step.SendResolved? && s.sending.Some? && s.mem != [] && s.overflowed && s.memFrom !in s.arrived
  }

  predicate LosesNothing(s: State, step: Step) { !Loses(s, step) }

  /** A run loses an event exactly when it answers a send after an overflow displaced the event in
      flight, with an event at the head that had not arrived. */
  lemma {:induction false} LossIff(maxEvents: nat, file: seq<Event>, steps: seq<Step>)
    ensures Run(Initial(maxEvents, file), steps).lost == {} <==> Admits(Initial(maxEvents, file), steps, LosesNothing)
  {
    hide Next, Loses, Admits, Windows, Covered, Deduplicated;
    if steps == [] {
      AdmitsNothing(Initial(maxEvents, file), LosesNothing);
    } else {
      var n := |steps| - 1;
      var s := Run(Initial(maxEvents, file), steps[..n]);
      LossIff(maxEvents, file, steps[..n]);
      RunSound(maxEvents, file, steps[..n]);
      LostByStep(s, steps[n]);
      AdmitsSnoc(Initial(maxEvents, file), steps, LosesNothing);
    }
  }

  lemma AdmitsNothing(s: State, admissible: (State, Step) -> bool)
    ensures Admits(s, [], admissible)
  {
  }

  lemma AdmitsSnoc(s: State, steps: seq<Step>, admissible: (State, Step) -> bool)
    requires steps != []
    ensures var n := |steps| - 1;
            Admits(s, steps, admissible) <==>
              Admits(s, steps[..n], admissible) && admissible(Run(s, steps[..n]), steps[n])
  {
    hide Run;
    var n := |steps| - 1;
    forall i | 0 <= i < n
      ensures admissible(Run(s, steps[..n][..i]), steps[..n][i]) == admissible(Run(s, steps[..i]), steps[i])
    {
      assert steps[..n][..i] == steps[..i];
    }
  }

  lemma LostByStep(s: State, step: Step)
    requires Windows(s)
    ensures Next(s, step).lost == if s.running && Loses(s, step) then s.lost + {s.memFrom} else s.lost
    ensures Loses(s, step) ==> s.running
  {
    hide Accept, Range;
    if !step.SendResolved? {
      hide Shift, Arrive;
    }
  }

  const FIRST := Event([97], [], [])
  const SECOND := Event([98], [], [])

  /** Without room an event can vanish unsent: the second one overflows the first out of a queue of
      one while the first is being sent, and is then removed in its place. */
  lemma OverflowDuringSendLosesAnEvent()
    ensures var s := Run(Initial(1, []), [Restart, Enqueue(FIRST), FlushStart, Enqueue(SECOND), SendResolved]);
            s.mem == s.file == [] && s.log == [FIRST, SECOND] && s.arrived == {0} && s.dropped == {0} && s.lost == {1}
  {
    var steps := [Restart, Enqueue(FIRST), FlushStart, Enqueue(SECOND), SendResolved];
    var s := FirstIsSending();
    RunOfFive(Initial(1, []), steps);
    hide Run;
    assert Next(s, steps[3]).mem == [SECOND];
  }

  lemma FirstIsSending() returns (s: State)
    ensures s == Next(Next(Next(Initial(1, []), Restart), Enqueue(FIRST)), FlushStart)
    ensures s == State(1, true, [FIRST], [FIRST], Some(FIRST), 0, [FIRST], 0, 0, 0, false, {}, {}, {}, [])
  {
    s := Next(Next(Next(Initial(1, []), Restart), Enqueue(FIRST)), FlushStart);
  }

  lemma RunOfFive(s: State, steps: seq<Step>)
    requires |steps| == 5
    ensures Run(s, steps) == Next(Next(Next(Next(Next(s, steps[0]), steps[1]), steps[2]), steps[3]), steps[4])
  {
    hide Next, Run;
    RunStep(s, steps, 0);
    RunStep(s, steps, 1);
    RunStep(s, steps, 2);
    RunStep(s, steps, 3);
    RunStep(s, steps, 4);
    assert steps[..5] == steps;
  }

  lemma RunStep(s: State, steps: seq<Step>, k: nat)
    requires k < |steps|
    ensures Run(s, steps[..0]) == s && Run(s, steps[..k + 1]) == Next(Run(s, steps[..k]), steps[k])
  {
    hide Next;
    assert steps[..k + 1][..k] == steps[..k];
  }

  function Decode(lines: seq<Line<Event>>): seq<Event> {
    if lines == [] then []
    else Decode(lines[..|lines| - 1]) + (match lines[|lines| - 1] case Stored(e) => [e] case _ => [])
  }

  /** The lines `load` sets aside. */
  function Unreadables(lines: seq<Line<Event>>): seq<Line<Event>> {
    if lines == [] then []
    else Unreadables(lines[..|lines| - 1]) + (if lines[|lines| - 1].Unreadable? then [lines[|lines| - 1]] else [])
  }

  lemma {:induction false} DecodeEncode(events: seq<Event>)
    ensures Decode(Encode(events)) == events
  {
    if events != [] {
      var n := |events| - 1;
      DecodeEncode(events[..n]);
      assert Encode(events)[..n] == Encode(events[..n]);
      assert events == events[..n] + [events[n]];
    }
  }

  /** Loading sorts every line, with its multiplicity, to where it belongs: events to memory, unreadable
      lines to the corrupt file, blank ones nowhere. */
  lemma {:induction false} LinesAreSorted(lines: seq<Line<Event>>)
    ensures forall e :: multiset(Decode(lines))[e] == multiset(lines)[Stored(e)]
    ensures forall l :: multiset(Unreadables(lines))[l] == if l.Unreadable? then multiset(lines)[l] else 0
  {
    if lines != [] {
      var n := |lines| - 1;
      LinesAreSorted(lines[..n]);
      assert lines == lines[..n] + [lines[n]];
      var more, rest := multiset(lines), multiset(lines[..n]);
      assert more == rest + multiset{lines[n]};
      LineIsSorted(lines);
      hide Decode, Unreadables;
    }
  }

  lemma LineIsSorted(lines: seq<Line<Event>>)
    requires lines != []
    ensures var n := |lines| - 1;
            multiset(Decode(lines)) == multiset(Decode(lines[..n]))
                                       + (if lines[n].Stored? then multiset{lines[n].record} else multiset{})
            && multiset(Unreadables(lines)) == multiset(Unreadables(lines[..n]))
                                               + (if lines[n].Unreadable? then multiset{lines[n]} else multiset{})
  {
  }

  /** The buffer with its file; one method per segment between two suspension points, each proved to
      make exactly one step. */
  class Buffer {
    const maxEvents: nat
    var events: seq<Event>
    var lines: seq<Line<Event>>
    var corrupt: seq<Line<Event>>
    var sending: Option<Event>
    var sent: nat
    ghost var past: State

    ghost function View(): State
      reads this
    {
      past.(maxEvents := maxEvents, running := true, mem := events, file := Decode(lines), sending := sending,
          sent := sent)
    }

    /** A new process: every readable line is loaded, unreadable ones are set aside and the file rewritten. */
    constructor (maxEvents: nat, file: seq<Line<Event>>, ghost before: State)
      requires !before.running && before.maxEvents == maxEvents && before.file == Decode(file)
      ensures View() == Next(before, Restart)
      ensures corrupt == Unreadables(file)
      ensures lines == if Unreadables(file) == [] then file else Encode(Decode(file))
    {
      this.maxEvents := maxEvents;
      lines, events, corrupt := file, [], [];
      sending, sent := None, 0;
      past := before.(memFrom := before.fileFrom);
      new;
      for i := 0 to |file|
        invariant events == Decode(file[..i]) && lines == file && sending == None && sent == 0
        invariant past == before.(memFrom := before.fileFrom)
        invariant corrupt == Unreadables(file[..i])
      {
        assert file[..i + 1][..i] == file[..i];
        match file[i] {
          case Stored(e) => events := events + [e];
          case Unreadable(_) => corrupt := corrupt + [file[i]];
          case Blank =>
        }
      }
      assert file[..|file|] == file;
      if corrupt != [] {
        PersistFile();
      }
    }

    method PersistFile()
      modifies this`lines
      ensures lines == Encode(events) && Decode(lines) == events
    {
      lines := Encode(events);
      DecodeEncode(events);
    }

    method Enqueue(e: Event)
      modifies this
      ensures View() == Next(old(View()), Step.Enqueue(e))
    {
      ghost var before := View();
      events := events + [e];
      if |events| > maxEvents {
        var dropped := |events| - maxEvents;
        events := events[dropped..];
      }
      PersistFile();
      past := OnEnqueue(before, e);
    }

    /** `flush` begins; the caller's guard keeps flushes from overlapping. */
    method FlushStart()
      requires sending.None?
      modifies this
      ensures View() == Next(old(View()), Step.FlushStart)
    {
      sent := 0;
      SendHead();
    }

    method SendHead()
      modifies this
      ensures View() == SendNext(old(View()))
    {
      ghost var before := View();
      if events != [] {
        sending := Some(events[0]);
        past := SendNext(before);
      } else {
        StopFlush();
      }
    }

    method StopFlush()
      modifies this
      ensures View() == EndFlush(old(View()))
    {
      ghost var before := View();
      if sent > 0 {
        PersistFile();
      }
      sending, sent := None, 0;
      past := EndFlush(before);
    }

    /** The awaited send settles; whatever is at the head by then leaves the queue. */
    method SendSettled(ok: bool, ghost arrived: bool)
      requires sending.Some?
      modifies this
      ensures View() == Next(old(View()), if ok then SendResolved else SendRejected(arrived))
    {
      ghost var before := View();
      if !ok {
        past := if arrived then Arrive(before) else before;
        StopFlush();
        return;
      }
      past := Shift(Arrive(before));
      if events != [] {
        events := events[1..];
      }
      sent := sent + 1;
      SendHead();
    }
  }
}
