/** The live refresh controller: one load in flight, a trailing refresh, generations and aborts. One
    event is one synchronous call or callback; calls made from inside `load`, `apply`, `onError` or an
    abort listener are events that fall between the others. */
module LiveRefresh {
  import opened Common

  datatype Task = Task(id: nat, automatic: bool)

  datatype Stage = Loading | Applying | Reporting

  /** The suspended `run` call: what it captured, and whether its signal is aborted. */
  datatype Flight = Flight(task: Task, generation: nat, aborted: bool, stage: Stage)

  /** `stops` counts `stop` calls still inside their abort listeners; `scheduled` says that interval
      and listeners are registered. The last three are history. */
  datatype State = State(
    active: bool, task: Option<Task>, flight: Option<Flight>, trailing: bool, generation: nat, scheduled: bool,
    stops: nat, loads: nat, applied: seq<(Task, nat)>, overtaken: bool)

  datatype Event =
    | Start(task: Task)
    | Refresh
    | Invalidate
    | Wake(hidden: bool)      // interval, focus or visibility change
    | StopBegin               // `stop` up to and including its abort
    | StopEnd                 // its abort listeners have returned
    | LoadResolved
    | LoadRejected
    | ApplyReturned(threw: bool)
    | ReportReturned

  const INITIAL := State(false, None, None, false, 0, false, 0, 0, [], false)

  function BeginLoad(s: State): State
    requires s.task.Some?
  {
    s.(flight := Some(Flight(s.task.value, s.generation, false, Loading)), loads := s.loads + 1)
  }

  function Abort(s: State): State {
    if s.flight.Some? then s.(flight := Some(s.flight.value.(aborted := true))) else s
  }

  function OnRefresh(s: State): State {
    if !s.active || s.task.None? then s
    else if s.flight.Some? then s.(trailing := true)
    else BeginLoad(s)
  }

  function OnStart(s: State, task: Task): State {
    var t := s.(generation := s.generation + 1, task := Some(task), trailing := false, active := true,
                scheduled := task.automatic, overtaken := s.stops > 0);
    if s.flight.Some? then Abort(t.(trailing := true)) else OnRefresh(t)
  }

  function OnInvalidate(s: State): State {
    if !s.active || s.task.None? then s
    else
      var t := s.(generation := s.generation + 1);
      if s.flight.Some? then Abort(t.(trailing := true)) else OnRefresh(t)
  }

  function OnStop(s: State): State {
    var t := Abort(s.(active := false, generation := s.generation + 1, task := None, trailing := false,
        overtaken := false));
    if s.flight.Some? then t.(stops := s.stops + 1) else t.(scheduled := false)
  }

  /** The `finally` block. */
  function Finish(s: State): State {
    var t := s.(flight := None);
    if !s.active || !s.trailing then t else OnRefresh(t.(trailing := false))
  }

  function Report(s: State): State
    requires s.flight.Some?
  {
    if !s.flight.value.aborted && s.active && s.flight.value.generation == s.generation
    then s.(flight := Some(s.flight.value.(stage := Reporting)))
    else Finish(s)
  }

  predicate At(s: State, stage: Stage) { s.flight.Some? && s.flight.value.stage == stage }

  function Next(s: State, e: Event): State {
    match e
    case Start(task) => OnStart(s, task)
    case Refresh => OnRefresh(s)
    case Invalidate => OnInvalidate(s)
    case Wake(hidden) => if s.scheduled && !hidden then OnRefresh(s) else s
    case StopBegin => OnStop(s)
    case StopEnd => if s.stops > 0 then s.(stops := s.stops - 1, scheduled := false) else s
    case LoadResolved =>
      if !At(s, Loading) then s
      else
        var f := s.flight.value;
        if s.active && f.generation == s.generation
        then s.(flight := Some(f.(stage := Applying)), applied := s.applied + [(f.task, f.generation)])
        else Finish(s)
    case LoadRejected => if At(s, Loading) then Report(s) else s
    case ApplyReturned(threw) => if !At(s, Applying) then s else if threw then Report(s) else Finish(s)
    case ReportReturned => if At(s, Reporting) then Finish(s) else s
  }

  function Run(s: State, events: seq<Event>): State {
    if events == [] then s else Next(Run(s, events[..|events| - 1]), events[|events| - 1])
  }

  /** A flight is stale exactly when it is aborted; a flight that is not stale belongs to the current
      task; a trailing refresh waits only behind a flight. */
  predicate Coherent(s: State) {
    && (s.active <==> s.task.Some?)
    && (s.flight.Some? ==> (s.flight.value.aborted <==> s.flight.value.generation != s.generation))
    && (s.flight.Some? && !s.flight.value.aborted ==> s.task == Some(s.flight.value.task))
    && (s.trailing ==> s.active && s.flight.Some?)
    && (s.flight.Some? ==> s.flight.value.generation <= s.generation)
  }

  /** Outside an unfinished `stop`, interval and listeners are registered exactly for an active
      automatic task, unless that task was started from inside the abort of a `stop`. */
  predicate Registered(s: State) {
    && (s.overtaken ==> s.active)
    && (s.stops == 0 ==> (s.scheduled <==> s.active && s.task.Some? && s.task.value.automatic && !s.overtaken))
    && (s.stops > 0 ==> s.active ==> s.overtaken)
  }

  lemma StepCoherent(s: State, e: Event)
    requires Coherent(s)
    ensures Coherent(Next(s, e))
  {
  }

  lemma StepRegistered(s: State, e: Event)
    requires Coherent(s) && Registered(s)
    ensures Registered(Next(s, e))
  {
  }

  lemma {:induction false} RunCoherent(events: seq<Event>)
    ensures Coherent(Run(INITIAL, events)) && Registered(Run(INITIAL, events))
  {
    hide Next, Coherent, Registered;
    if events == [] {
      InitialCoherent();
    } else {
      var s := Run(INITIAL, events[..|events| - 1]);
      RunCoherent(events[..|events| - 1]);
      StepCoherent(s, events[|events| - 1]);
      StepRegistered(s, events[|events| - 1]);
    }
  }

  lemma InitialCoherent()
    ensures Coherent(INITIAL) && Registered(INITIAL)
  {
  }

  /** In every run, calls from inside callbacks included: the load in flight is stale exactly when its
      signal is aborted, and a load begins only when none is in flight. */
  lemma OneLoadStaleIffAborted(events: seq<Event>, e: Event)
    ensures var s, t := Run(INITIAL, events), Next(Run(INITIAL, events), e);
            (s.flight.Some? ==> (s.flight.value.aborted <==> s.flight.value.generation != s.generation))
            && s.loads <= t.loads <= s.loads + 1
            && (t.loads > s.loads && s.flight.Some? ==> Completes(s, e))
  {
    RunCoherent(events);
  }

  /** The event settles the flight for good, so its `finally` block runs. */
  predicate Completes(s: State, e: Event) {
    match e
    case LoadResolved => At(s, Loading) && !(s.active && s.flight.value.generation == s.generation)
    case LoadRejected => At(s, Loading) && (s.flight.value.aborted || !s.active)
    case ApplyReturned(threw) => At(s, Applying) && (!threw || s.flight.value.aborted || !s.active)
    case ReportReturned => At(s, Reporting)
    case _ => false
  }

  /** A loaded value is applied exactly when its load was not aborted and the controller is active, and
      it is then the current task's for the current generation; nothing else is applied. */
  lemma OnlyCurrentValueIsApplied(events: seq<Event>, e: Event)
    ensures var s, t := Run(INITIAL, events), Next(Run(INITIAL, events), e);
            t.applied == if e.LoadResolved? && At(s, Loading) && s.active && s.task.Some? && !s.flight.value.aborted
                         then s.applied + [(s.task.value, s.generation)] else s.applied
  {
    hide Run, Registered;
    RunCoherent(events);
  }

  /** No load's value is applied twice. */
  lemma {:induction false} AppliedAtMostOncePerLoad(events: seq<Event>)
    ensures var s := Run(INITIAL, events); |s.applied| + (if At(s, Loading) then 1 else 0) <= s.loads
  {
    hide Next, Coherent, Registered;
    if events != [] {
      AppliedAtMostOncePerLoad(events[..|events| - 1]);
      AppliesOnce(Run(INITIAL, events[..|events| - 1]), events[|events| - 1]);
    }
  }

  lemma AppliesOnce(s: State, e: Event)
    requires |s.applied| + (if At(s, Loading) then 1 else 0) <= s.loads
    ensures var t := Next(s, e); |t.applied| + (if At(t, Loading) then 1 else 0) <= t.loads
  {
    hide Registered;
  }

  /** A `stop` with nothing in flight is over at once, and leaves nothing registered. */
  lemma StopAtRest(s: State)
    requires Coherent(s) && s.flight.None?
    ensures var t := Next(s, StopBegin); !t.active && !t.scheduled && t.stops == s.stops && t.loads == s.loads
  {
  }

  /** A failed load, or a throwing `apply`, is reported exactly when its load was not aborted and the
      controller is active. */
  lemma OnlyCurrentFailureIsReported(events: seq<Event>, e: Event)
    ensures var s, t := Run(INITIAL, events), Next(Run(INITIAL, events), e);
            At(t, Reporting) && !At(s, Reporting) <==>
            ((e.LoadRejected? && At(s, Loading)) || (e.ApplyReturned? && e.threw && At(s, Applying)))
            && s.active && !s.flight.value.aborted
  {
    hide Run, Registered;
    RunCoherent(events);
  }

  /** A load begins for the current task and generation, and a call that asks for a refresh begins one at
      once when none is in flight. */
  lemma LoadsAreCurrent(events: seq<Event>, e: Event)
    ensures var s, t := Run(INITIAL, events), Next(Run(INITIAL, events), e);
            (t.loads > s.loads ==>
               t.active && t.task.Some? && t.flight == Some(Flight(t.task.value, t.generation, false, Loading)))
            && (Requests(s, e) && s.flight.None? ==> t.loads == s.loads + 1)
            && (e.Start? ==> t.active && t.task == Some(e.task))
            && (e.StopBegin? ==> !t.active && t.task.None?)
            && ((e.Start? || e.StopBegin? || (e.Invalidate? && s.active)) && s.flight.Some? ==>
                  t.flight.Some? && t.flight.value.aborted)
            && (s.flight.Some? && t.flight.Some? && t.loads == s.loads ==>
                  e.Start? || e.StopBegin? || e.Invalidate? || t.flight.value.aborted == s.flight.value.aborted)
  {
    RunCoherent(events);
    LoadIsCurrent(Run(INITIAL, events), e);
    CallAborts(Run(INITIAL, events), e);
    hide Run, Registered, Coherent, Next;
  }

  lemma LoadIsCurrent(s: State, e: Event)
    requires Coherent(s)
    ensures var t := Next(s, e);
            (t.loads > s.loads ==>
               t.active && t.task.Some? && t.flight == Some(Flight(t.task.value, t.generation, false, Loading)))
            && (Requests(s, e) && s.flight.None? ==> t.loads == s.loads + 1)
            && (e.Start? ==> t.active && t.task == Some(e.task))
            && (e.StopBegin? ==> !t.active && t.task.None?)
  {
  }

  lemma CallAborts(s: State, e: Event)
    requires Coherent(s)
    ensures var t := Next(s, e);
            ((e.Start? || e.StopBegin? || (e.Invalidate? && s.active)) && s.flight.Some? ==>
               t.flight.Some? && t.flight.value.aborted)
            && (s.flight.Some? && t.flight.Some? && t.loads == s.loads ==>
                  e.Start? || e.StopBegin? || e.Invalidate? || t.flight.value.aborted == s.flight.value.aborted)
  {
  }

  /** A call that asks for a refresh of an active task. */
  predicate Requests(s: State, e: Event) {
    e.Start? || (s.active && (e.Refresh? || e.Invalidate? || (e.Wake? && s.scheduled && !e.hidden)))
  }

  /** A refresh was requested after the last load began and the last `stop`. */
  predicate Unserved(events: seq<Event>) {
    if events == [] then false
    else
      var n := |events| - 1;
      var s, e := Run(INITIAL, events[..n]), events[n];
      Next(s, e).loads == s.loads && !e.StopBegin? && (Requests(s, e) || Unserved(events[..n]))
  }

  /** No refresh is lost: one that no load has served yet waits as the trailing refresh of the load in
      flight, and nothing else does. */
  lemma {:induction false} NoRefreshIsLost(events: seq<Event>)
    ensures Run(INITIAL, events).trailing <==> Unserved(events)
    ensures Unserved(events) ==> Run(INITIAL, events).flight.Some? && Run(INITIAL, events).active
  {
    RunCoherent(events);
    if events != [] {
      var n := |events| - 1;
      NoRefreshIsLost(events[..n]);
      RunCoherent(events[..n]);
      TrailingStep(Run(INITIAL, events[..n]), events[n]);
      hide Next, Requests;
    }
  }

  lemma TrailingStep(s: State, e: Event)
    requires Coherent(s)
    ensures var t := Next(s, e); t.trailing <==> t.loads == s.loads && !e.StopBegin? && (Requests(s, e) || s.trailing)
  {
  }

  /** While a load is in flight no call starts another; when it completes, all the refreshes asked for
      meanwhile cause one load together, and without any none begins. */
  lemma RequestsDuringFlightCauseOneLoad(events: seq<Event>, e: Event)
    requires Run(INITIAL, events).flight.Some?
    ensures var s, t := Run(INITIAL, events), Next(Run(INITIAL, events), e);
            if Completes(s, e) then t.loads == s.loads + (if Unserved(events) then 1 else 0) && !t.trailing
                                    && (t.flight.Some? <==> Unserved(events))
            else t.loads == s.loads && t.flight.Some?
  {
    RunCoherent(events);
    NoRefreshIsLost(events);
    hide Run, Unserved;
  }

  /** At rest, interval and listeners are registered for an active automatic task and for nothing else
      exactly when that task was not started from inside the abort listeners of a `stop`. */
  lemma RegisteredIff(events: seq<Event>)
    requires Run(INITIAL, events).stops == 0
    ensures var s := Run(INITIAL, events);
            var wanted := s.active && s.task.Some? && s.task.value.automatic;
            (s.scheduled == wanted) == !(wanted && s.overtaken)
  {
    RunCoherent(events);
  }

  const POLLED := Task(0, true)

  /** The exception is reachable: a task started by an abort listener of `stop` is active but never
      refreshed on its own, because `stop` then removes the listeners. */
  lemma StartInsideStopLosesTheListeners()
    ensures var s := Run(INITIAL, [Start(POLLED), StopBegin, Start(POLLED), StopEnd]);
            s.active && s.task == Some(POLLED) && s.stops == 0 && !s.scheduled
  {
    var es := [Start(POLLED), StopBegin, Start(POLLED), StopEnd];
    assert es[..3][..2] == es[..2] && es[..2][..1] == es[..1] && es[..1][..0] == [];
    assert Run(INITIAL, es[..1]) == Next(Run(INITIAL, es[..1][..0]), Start(POLLED));
    assert Run(INITIAL, es[..2]) == Next(Run(INITIAL, es[..1]), StopBegin);
    assert Run(INITIAL, es[..3]) == Next(Run(INITIAL, es[..2]), Start(POLLED));
  }

  /** The browser: how often the controller's callbacks are registered. */
  class Environment {
    var intervals: nat
    var focusListeners: nat
    var visibilityListeners: nat
  }

  /** `LiveRefreshController`; each method makes exactly one step of the machine. */
  class Controller {
    const environment: Environment
    var task: Option<Task>
    var active: bool
    var inFlight: bool
    var trailing: bool
    var generation: nat
    /** The suspended `run` call with its abort controller. */
    var flight: Option<Flight>
    var automaticScheduling: bool
    ghost var past: State

    /** Each callback is registered once while automatic scheduling is on, and not at all otherwise. */
    ghost predicate Valid()
      reads this, environment
    {
      var count := if automaticScheduling then 1 else 0;
      && environment.intervals == environment.focusListeners == environment.visibilityListeners == count
      && (inFlight <==> flight.Some?)
    }

    ghost function View(): State
      reads this
    {
      State(active, task, flight, trailing, generation, automaticScheduling,
            past.stops, past.loads, past.applied, past.overtaken)
    }

    constructor (environment: Environment)
      requires environment.intervals == environment.focusListeners == environment.visibilityListeners == 0
      ensures Valid() && View() == INITIAL
      ensures this.environment == environment
    {
      this.environment := environment;
      task, active, inFlight, trailing, generation := None, false, false, false, 0;
      flight, automaticScheduling := None, false;
      past := INITIAL;
    }

    method StartTask(next: Task)
      requires Valid()
      modifies this, environment
      ensures Valid() && View() == Next(old(View()), Start(next))
    {
      past := past.(overtaken := past.stops > 0);
      generation := generation + 1;
      task, trailing, active := Some(next), false, true;
      ConfigureAutomaticScheduling(next.automatic);
      if inFlight {
        trailing := true;
        AbortFlight();
        return;
      }
      RequestRefresh();
    }

    method RequestRefresh()
      requires Valid()
      modifies this
      ensures Valid() && View() == Next(old(View()), Refresh)
    {
      if !active || task.None? {
        return;
      }
      if inFlight {
        trailing := true;
        return;
      }
      inFlight, flight := true, Some(Flight(task.value, generation, false, Loading));
      past := past.(loads := past.loads + 1);
    }

    /** The interval fires, the window gains focus or visibility changes. */
    method Woken(hidden: bool)
      requires Valid() && automaticScheduling
      modifies this
      ensures Valid() && View() == Next(old(View()), Wake(hidden))
    {
      if !hidden {
        RequestRefresh();
      }
    }

    method InvalidateAndRefresh()
      requires Valid()
      modifies this
      ensures Valid() && View() == Next(old(View()), Invalidate)
    {
      if !active || task.None? {
        return;
      }
      generation := generation + 1;
      if inFlight {
        trailing := true;
        AbortFlight();
        return;
      }
      RequestRefresh();
    }

    method AbortFlight()
      requires Valid() && inFlight
      modifies this`flight
      ensures Valid() && View() == Abort(old(View()))
    {
      flight := Some(flight.value.(aborted := true));
    }

    /** `stop` up to its abort; without a load in flight it runs through. */
    method StopTask()
      requires Valid()
      modifies this, environment
      ensures Valid() && View() == Next(old(View()), StopBegin)
    {
      past := past.(overtaken := false);
      active, task, trailing := false, None, false;
      generation := generation + 1;
      if inFlight {
        AbortFlight();
        past := past.(stops := past.stops + 1);
      } else {
        ConfigureAutomaticScheduling(false);
      }
    }

    /** The rest of `stop`, once its abort listeners have returned. */
    method StopReturned()
      requires Valid() && past.stops > 0
      modifies this, environment
      ensures Valid() && View() == Next(old(View()), StopEnd)
    {
      past := past.(stops := past.stops - 1);
      ConfigureAutomaticScheduling(false);
    }

    method ConfigureAutomaticScheduling(enabled: bool)
      requires Valid()
      modifies this`automaticScheduling, environment
      ensures Valid() && automaticScheduling == enabled
    {
      if enabled == automaticScheduling {
        return;
      }
      automaticScheduling := enabled;
      if enabled {
        environment.intervals := environment.intervals + 1;
        environment.focusListeners := environment.focusListeners + 1;
        environment.visibilityListeners := environment.visibilityListeners + 1;
        return;
      }
      environment.intervals := environment.intervals - 1;
      environment.focusListeners := environment.focusListeners - 1;
      environment.visibilityListeners := environment.visibilityListeners - 1;
    }

    /** `load` resolves: the value is applied if it is still wanted. */
    method LoadSucceeded()
      requires Valid() && flight.Some? && flight.value.stage == Loading
      modifies this
      ensures Valid() && View() == Next(old(View()), LoadResolved)
    {
      if active && flight.value.generation == generation {
        past := past.(applied := past.applied + [(flight.value.task, flight.value.generation)]);
        flight := Some(flight.value.(stage := Applying));
      } else {
        FinishRun();
      }
    }

    /** `load` rejects, or `apply` throws: the error is reported if the load is still wanted. */
    method Failed()
      requires Valid() && flight.Some? && flight.value.stage != Reporting
      modifies this
      ensures Valid()
      ensures View() == Next(old(View()), if old(flight.value.stage) == Loading then LoadRejected
              else ApplyReturned(true))
    {
      if !flight.value.aborted && active && flight.value.generation == generation {
        flight := Some(flight.value.(stage := Reporting));
      } else {
        FinishRun();
      }
    }

    /** `apply` or `onError` returns. */
    method CallbackReturned()
      requires Valid() && flight.Some? && flight.value.stage != Loading
      modifies this
      ensures Valid()
      ensures View() == Next(old(View()), if old(flight.value.stage) == Applying then ApplyReturned(false)
              else ReportReturned)
    {
      FinishRun();
    }

    method FinishRun()
      requires Valid() && inFlight
      modifies this
      ensures Valid() && View() == Finish(old(View()))
    {
      inFlight, flight := false, None;
      if !active || !trailing {
        return;
      }
      trailing := false;
      RequestRefresh();
    }
  }
}
