/** Loading older notifications: the request frontier and the chain of cursors it protects. */
module LoadMore {
  import opened Common
  import Inbox

  // The frontier

  datatype Front = Front(generation: nat, requestId: nat, held: Option<nat>, aborted: set<nat>)

  datatype Ticket = Ticket(generation: nat, requestId: nat)

  predicate Current(f: Front, t: Ticket) {
    t.generation == f.generation && t.requestId == f.requestId && t.requestId !in f.aborted
  }

  function Aborting(f: Front): set<nat> {
    f.aborted + if f.held.Some? then {f.held.value} else {}
  }

  function Advanced(f: Front): Front {
    Front(f.generation + 1, f.requestId + 1, None, Aborting(f))
  }

  function Begun(f: Front): Front {
    Front(f.generation, f.requestId + 1, Some(f.requestId + 1), Aborting(f))
  }

  function Issued(f: Front): Ticket { Ticket(f.generation, f.requestId) }

  class AbortController {
    var aborted: bool

    constructor ()
      ensures !aborted
    {
      aborted := false;
    }

    method Abort()
      modifies this
      ensures aborted
    {
      aborted := true;
    }
  }

  datatype Request = Request(ticket: Ticket, signal: AbortController)

  /** `InboxRequestFrontier`. */
  class RequestFrontier {
    var generation: nat
    var requestId: nat
    var loadMoreController: AbortController?
    ghost var issued: seq<Request>

    ghost function Signals(): set<object>
      reads this
    {
      set r | r in issued :: r.signal
    }

    ghost predicate Valid()
      reads this, Signals()
    {
      && (forall k | 0 <= k < |issued| ::
            issued[k].ticket.requestId <= requestId && issued[k].ticket.generation <= generation)
      && (forall j, k | 0 <= j < k < |issued| ::
            issued[j].ticket.requestId < issued[k].ticket.requestId && issued[j].signal != issued[k].signal)
      && (loadMoreController != null ==>
            issued != [] && issued[|issued| - 1].signal == loadMoreController
            && issued[|issued| - 1].ticket == Ticket(generation, requestId) && !loadMoreController.aborted)
    }

    ghost function View(): Front
      reads this, Signals()
      requires Valid()
    {
      Front(generation, requestId,
            if loadMoreController == null then None else Some(requestId),
            set r | r in issued && r.signal.aborted :: r.ticket.requestId)
    }

    constructor ()
      ensures Valid() && issued == [] && View() == Front(0, 0, None, {})
    {
      generation, requestId, loadMoreController, issued := 0, 0, null, [];
    }

    method AdvanceFirstPage()
      requires Valid()
      modifies this, Signals()
      ensures Valid() && issued == old(issued) && View() == Advanced(old(View()))
    {
      generation := generation + 1;
      requestId := requestId + 1;
      if loadMoreController != null {
        loadMoreController.Abort();
        AbortedLast();
      }
      loadMoreController := null;
    }

    twostate lemma AbortedLast()
      requires old(Valid()) && issued == old(issued) && issued != []
      requires forall k | 0 <= k < |issued| - 1 :: issued[k].signal.aborted == old(issued[k].signal.aborted)
      requires issued[|issued| - 1].signal.aborted
      ensures (set r | r in issued && r.signal.aborted :: r.ticket.requestId)
           == old(set r | r in issued && r.signal.aborted :: r.ticket.requestId)
               + {issued[|issued| - 1].ticket.requestId}
    {
      var last := issued[|issued| - 1];
      forall r | r in issued ensures r.signal.aborted <==> old(r.signal.aborted) || r == last {
        var k :| 0 <= k < |issued| && issued[k] == r;
      }
    }

    method BeginLoadMore() returns (request: Request)
      requires Valid()
      modifies this, Signals()
      ensures Valid() && fresh(request.signal) && issued == old(issued) + [request]
      ensures View() == Begun(old(View())) && request.ticket == Issued(View())
    {
      if loadMoreController != null {
        loadMoreController.Abort();
        AbortedLast();
      }
      var controller := new AbortController();
      loadMoreController := controller;
      requestId := requestId + 1;
      request := Request(Ticket(generation, requestId), controller);
      issued := issued + [request];
    }

    predicate IsCurrent(request: Request)
      reads this, request.signal
    {
      request.ticket.generation == generation && request.ticket.requestId == requestId && !request.signal.aborted
    }

    method FinishLoadMore(request: Request) returns (finished: bool)
      requires Valid() && request in issued
      modifies this
      ensures Valid() && issued == old(issued)
      ensures finished == Current(old(View()), request.ticket)
      ensures View() == if finished then old(View()).(held := None) else old(View())
    {
      TicketsAreSignals(request);
      if !IsCurrent(request) {
        return false;
      }
      loadMoreController := null;
      return true;
    }

    /** A request is current in the frontier's own terms exactly when its ticket is. */
    lemma TicketsAreSignals(request: Request)
      requires Valid() && request in issued
      ensures IsCurrent(request) <==> Current(View(), request.ticket)
    {
      var k :| 0 <= k < |issued| && issued[k] == request;
    }

    /** However the calls interleave, at most one load-more request is current. */
    lemma AtMostOneCurrent(a: Request, b: Request)
      requires Valid() && a in issued && b in issued && IsCurrent(a) && IsCurrent(b)
      ensures a == b && a == issued[|issued| - 1]
    {
      var j :| 0 <= j < |issued| && issued[j] == a;
      var k :| 0 <= k < |issued| && issued[k] == b;
    }
  }

  // The chain of cursors

  datatype Open = Open(ticket: Ticket, cursor: string)

  /** `requested`: the cursors answered since the inbox was last cleared; `answered`: the same, in
      order; `open`: the requests sent and not settled. */
  datatype Chain = Chain(inbox: Inbox.State, front: Front, requested: set<string>, answered: seq<string>,
      open: set<Open>)

  const CLEARED := Inbox.State([], None, 0, false)

  const START := Chain(CLEARED, Front(0, 0, None, {}), {}, [], {})

  datatype Event =
    | More
    | PageArrived(request: Open, page: Inbox.Page, pending: seq<Inbox.PendingRead>)
    | PageFailed(request: Open)
    | FirstPage(page: Inbox.Page, pending: seq<Inbox.PendingRead>)
    | Clear
    | Leave  // the role stops being the active one
    | Begin(id: string, at: string)
    | RollBack(read: Inbox.PendingRead)

  predicate Possible(c: Chain, e: Event) {
    match e
    case PageArrived(r, _, _) => r in c.open
    case PageFailed(r) => r in c.open
    case _ => true
  }

  /** `loadMoreRoleInbox` up to its request asks for this cursor. */
  function Asked(c: Chain): Option<string> {
    if Inbox.Truthy(c.inbox.nextCursor) && !c.inbox.loadingMore && c.inbox.nextCursor.value !in c.requested
    then c.inbox.nextCursor else None
  }

  function Next(c: Chain, e: Event): Chain
    requires Possible(c, e)
  {
    match e
    case More =>
      if !Inbox.Truthy(c.inbox.nextCursor) || c.inbox.loadingMore then c
      else if c.inbox.nextCursor.value in c.requested then
        c.(inbox := c.inbox.(nextCursor := None, loadingMore := false))
      else
        var f := Begun(c.front);
        c.(front := f, open := c.open + {Open(Issued(f), c.inbox.nextCursor.value)},
            inbox := c.inbox.(loadingMore := true))
    case PageArrived(r, page, pending) =>
      var settled := c.(open := c.open - {r});
      if !Current(c.front, r.ticket) then settled
      else
        var requested := c.requested + {r.cursor};
        settled.(requested := requested, answered := c.answered + [r.cursor],
                 inbox := Inbox.AppendPage(c.inbox, page, r.cursor, requested, pending),
                 front := c.front.(held := None))
    case PageFailed(r) =>
      var settled := c.(open := c.open - {r});
      if !Current(c.front, r.ticket) then settled
      else settled.(inbox := c.inbox.(loadingMore := false), front := c.front.(held := None))
    case FirstPage(page, pending) =>
      c.(front := Advanced(c.front), inbox := Inbox.MergeFirstPage(c.inbox, page, c.requested != {}, pending))
    case Clear =>
      c.(front := Advanced(c.front), requested := {}, answered := [], inbox := CLEARED)
    case Leave => c.(front := Advanced(c.front))
    case Begin(id, at) => c.(inbox := Inbox.BeginRead(c.inbox, id, at).0)
    case RollBack(read) => c.(inbox := Inbox.RollbackRead(c.inbox, read))
  }

  predicate Admissible(es: seq<Event>)
    decreases |es|, 0
  {
    es == [] || (Admissible(es[..|es| - 1]) && Possible(Run(es[..|es| - 1]), es[|es| - 1]))
  }

  function Run(es: seq<Event>): Chain
    requires Admissible(es)
    decreases |es|, 1
  {
    if es == [] then START else Next(Run(es[..|es| - 1]), es[|es| - 1])
  }

  ghost predicate Inv(c: Chain) {
    && Distinct(c.answered)
    && (forall x :: x in c.requested <==> x in c.answered)
    && (c.inbox.nextCursor.Some? ==> c.inbox.nextCursor.value !in c.requested)
    && (forall x | x in c.front.aborted :: x <= c.front.requestId)
    && (c.front.held.Some? ==> c.front.held.value == c.front.requestId)
    && (forall r | r in c.open :: r.ticket.requestId <= c.front.requestId)
    && (forall r | r in c.open && r.ticket.requestId == c.front.requestId ::
          c.front.held == Some(c.front.requestId)
          && r.ticket == Issued(c.front) && r.cursor !in c.requested && Current(c.front, r.ticket)
          && c.inbox.nextCursor == Some(r.cursor) && r.cursor != "")
    && (forall r | r in c.open :: Current(c.front, r.ticket) || r.ticket.requestId in c.front.aborted)
    && (forall r, t | r in c.open && t in c.open && r.ticket.requestId == t.ticket.requestId :: r == t)
  }

  ghost predicate Awaited(c: Chain) { exists r | r in c.open :: Current(c.front, r.ticket) }

  /** The role was left during a load, and neither a first page nor a clear followed. */
  ghost predicate Stranded(es: seq<Event>)
    requires Admissible(es)
  {
    if es == [] then false
    else StrandedNext(Run(es[..|es| - 1]), es[|es| - 1], Stranded(es[..|es| - 1]))
  }

  ghost predicate StrandedNext(c: Chain, e: Event, before: bool) {
    match e
    case Leave => before || Awaited(c)
    case FirstPage(_, _) => false
    case Clear => false
    case _ => before
  }

  /** Loading is shown for a current request, or for none after the role was left. */
  ghost predicate ShowsLoading(c: Chain, stranded: bool) {
    (c.inbox.loadingMore <==> Awaited(c) || stranded) && !(Awaited(c) && stranded)
  }

  lemma StepInv(c: Chain, e: Event)
    requires Inv(c) && Possible(c, e)
    ensures Inv(Next(c, e))
  {
    match e
    case More => StepMore(c);
    case PageArrived(_, _, _) => StepArrived(c, e);
    case PageFailed(_) => StepFailed(c, e);
    case _ =>
  }

  lemma StepMore(c: Chain)
    requires Inv(c)
    ensures Inv(Next(c, More))
  {
    hide Inbox.AppendPage, Inbox.MergeFirstPage, Inbox.BeginRead, Inbox.RollbackRead;
    var n := Next(c, More);
    if Asked(c).Some? {
      var r := Open(Issued(n.front), c.inbox.nextCursor.value);
      assert r in n.open && Current(n.front, r.ticket);
    }
  }

  lemma StepShows(c: Chain, e: Event, stranded: bool)
    requires Inv(c) && ShowsLoading(c, stranded) && Possible(c, e)
    ensures ShowsLoading(Next(c, e), StrandedNext(c, e, stranded))
  {
    hide Inbox.Project, Inbox.UnreadAfter, Inbox.Onto;
    var n := Next(c, e);
    match e
    case More =>
      if Asked(c).Some? {
        assert Open(Issued(n.front), c.inbox.nextCursor.value) in n.open;
      }
    case PageArrived(_, _, _) => SettledShows(c, e);
    case PageFailed(_) => SettledShows(c, e);
    case Begin(_, _) => assert n.open == c.open && n.front == c.front;
    case RollBack(_) => assert n.open == c.open && n.front == c.front;
    case _ =>
  }

  /** A settled request that is not current leaves the current one; a current one was the only one. */
  lemma SettledShows(c: Chain, e: Event)
    requires Inv(c) && (e.PageArrived? || e.PageFailed?) && Possible(c, e)
    ensures Awaited(Next(c, e)) <==> Awaited(c) && !Current(c.front, e.request.ticket)
    ensures Current(c.front, e.request.ticket) ==> !Next(c, e).inbox.loadingMore
  {
    hide Inbox.Project, Inbox.UnreadAfter, Inbox.Onto;
    var n := Next(c, e);
    if Awaited(c) {
      var r :| r in c.open && Current(c.front, r.ticket);
      assert r != e.request ==> r in n.open;
    }
  }

  lemma StepArrived(c: Chain, e: Event)
    requires Inv(c) && e.PageArrived? && Possible(c, e)
    ensures Inv(Next(c, e))
  {
    hide Inbox.MergeFirstPage, Inbox.BeginRead, Inbox.RollbackRead, Inbox.Project, Inbox.UnreadAfter;
    var n := Next(c, e);
    if Current(c.front, e.request.ticket) {
      assert forall x :: x in n.answered <==> x in c.answered || x == e.request.cursor;
    }
  }

  lemma StepFailed(c: Chain, e: Event)
    requires Inv(c) && e.PageFailed? && Possible(c, e)
    ensures Inv(Next(c, e))
  {
    hide Inbox.AppendPage, Inbox.MergeFirstPage, Inbox.BeginRead, Inbox.RollbackRead;
  }

  lemma {:induction false} RunInv(es: seq<Event>)
    requires Admissible(es)
    ensures Inv(Run(es))
  {
    hide Next, Inv;
    if es == [] {
      StartInv();
    } else {
      RunInv(es[..|es| - 1]);
      StepInv(Run(es[..|es| - 1]), es[|es| - 1]);
    }
  }

  lemma StartInv()
    ensures Inv(START)
  {
  }

  /** Between two clears no cursor's page is taken twice, and a cursor whose page was taken is never
      asked for again: the branch that drops an already requested cursor is never reached. */
  lemma NoCursorTwice(es: seq<Event>)
    requires Admissible(es)
    ensures var c := Run(es);
            Distinct(c.answered)
            && (Asked(c).Some? ==> Asked(c).value !in c.answered)
            && (Asked(c).Some? <==> Inbox.Truthy(c.inbox.nextCursor) && !c.inbox.loadingMore)
  {
    RunInv(es);
  }

  /** An unsettled request that is no longer current has its signal aborted, and only such a one has. */
  lemma StaleRequestsAreAborted(es: seq<Event>, r: Open)
    requires Admissible(es) && r in Run(es).open
    ensures Current(Run(es).front, r.ticket) <==> r.ticket.requestId !in Run(es).front.aborted
  {
    hide Run;
    RunInv(es);
  }

  /** Every request that was sent can be answered. The page of the current one is shown after what is
      there, and its cursor offered when it is new; an answer to any other changes nothing. */
  lemma PageIsTaken(es: seq<Event>, r: Open, page: Inbox.Page, pending: seq<Inbox.PendingRead>)
    requires Admissible(es) && r in Run(es).open && page.unreadCount >= 0 && Inbox.UniqueIds(Run(es).inbox.items)
    ensures var c, e := Run(es), PageArrived(r, page, pending);
            Possible(c, e)
            && var n := Next(c, e);
               if Current(c.front, r.ticket)
               then n.open == c.open - {r} && n.answered == c.answered + [r.cursor] && n.front.held.None?
                    && Inbox.Shows(pending, c.inbox.items + page.items, n.inbox.items) && !n.inbox.loadingMore
                    && n.inbox.nextCursor == if page.nextCursor.Some? && page.nextCursor.value != ""
                                                && page.nextCursor.value !in n.answered then page.nextCursor else None
               else n == c.(open := c.open - {r})
  {
    var c := Run(es);
    RunInv(es);
    Inbox.AppendShape(c.inbox, page, r.cursor, c.requested + {r.cursor}, pending);
    hide Run, Inbox.AppendPage, Inbox.MergeFirstPage, Inbox.Shows, Inbox.CountsUnread, Inbox.UniqueIds, Distinct;
  }

  /** When the current request fails, what is shown stays, and the same page can be asked for again. */
  lemma FailedPageCanBeAskedAgain(es: seq<Event>, r: Open)
    requires Admissible(es) && r in Run(es).open && Current(Run(es).front, r.ticket)
    ensures var c := Run(es);
            Possible(c, PageFailed(r))
            && var n := Next(c, PageFailed(r));
               n.inbox == c.inbox.(loadingMore := false) && n.front.held.None? && Asked(n) == Some(r.cursor)
               && n.answered == c.answered
  {
    hide Run, Inbox.AppendPage, Inbox.MergeFirstPage;
    RunInv(es);
  }

  /** Reads mark the shown items and leave the chain alone. */
  lemma ReadsLeaveTheChain(c: Chain, id: string, at: string, p: Inbox.PendingRead)
    ensures var n := Next(c, Begin(id, at));
            n == c.(inbox := n.inbox) && n.inbox.nextCursor == c.inbox.nextCursor
            && n.inbox.loadingMore == c.inbox.loadingMore
            && (Inbox.BeginRead(c.inbox, id, at).1.Some? ==>
                  forall i | 0 <= i < |n.inbox.items| && n.inbox.items[i].id == id ::
                      n.inbox.items[i].readAt == Some(at))
    ensures var n := Next(c, RollBack(p));
            n == c.(inbox := n.inbox) && n.inbox.nextCursor == c.inbox.nextCursor
            && n.inbox.loadingMore == c.inbox.loadingMore
            && (Inbox.Marked(c.inbox, p) ==>
                  forall i | 0 <= i < |n.inbox.items| && n.inbox.items[i].id == p.eventId ::
                    n.inbox.items[i].readAt == p.previousReadAt)
  {
  }

  /** The inbox shows that it is loading exactly while one request is current or after the role was left
      during a load, until the next first page or clear; never are two requests current, and after such a
      leave none is. */
  lemma LoadingIffOneCurrent(es: seq<Event>)
    requires Admissible(es)
    ensures var c := Run(es);
            (c.inbox.loadingMore <==> Awaited(c) || Stranded(es)) && !(Awaited(c) && Stranded(es))
            && forall a, b | a in c.open && b in c.open && Current(c.front, a.ticket) && Current(c.front, b.ticket) ::
                 a == b
  {
    RunInv(es);
    RunShows(es);
  }

  lemma {:induction false} RunShows(es: seq<Event>)
    requires Admissible(es)
    ensures ShowsLoading(Run(es), Stranded(es))
  {
    hide Next, Inv, ShowsLoading, StrandedNext;
    if es == [] {
      assert ShowsLoading(START, false) by { StartShows(); }
    } else {
      var n := |es| - 1;
      RunInv(es[..n]);
      RunShows(es[..n]);
      StepShows(Run(es[..n]), es[n], Stranded(es[..n]));
    }
  }

  lemma StartShows()
    ensures ShowsLoading(START, false)
  {
  }

  /** Left during a load, the inbox goes on loading with no request to wait for: no button press does
      anything, and an answer to the old request changes nothing but the list of open requests. */
  lemma StrandedInboxIsStuck(es: seq<Event>, e: Event)
    requires Admissible(es) && Stranded(es) && Possible(Run(es), e) && !e.FirstPage? && !e.Clear?
    ensures var c, n := Run(es), Next(Run(es), e);
            n.inbox.loadingMore && !Awaited(n)
            && (e.More? ==> n == c) && (e.PageArrived? || e.PageFailed? ==> n == c.(open := c.open - {e.request}))
  {
    hide Next;
    RunInv(es);
    RunShows(es);
    StepShows(Run(es), e, true);
    StuckStep(Run(es), e);
  }

  lemma StuckStep(c: Chain, e: Event)
    requires c.inbox.loadingMore && !Awaited(c) && Possible(c, e)
    ensures e.More? ==> Next(c, e) == c
    ensures e.PageArrived? || e.PageFailed? ==> Next(c, e) == c.(open := c.open - {e.request})
  {
    hide Inbox.AppendPage, Inbox.MergeFirstPage, Inbox.BeginRead, Inbox.RollbackRead;
  }

  const OLDER := Inbox.Page([], Some("c"), 0)

  /** Such a run: a first page that names an older one, a press, and the role is left. */
  lemma LeavingDuringALoadStaysLoading()
    ensures var es := [FirstPage(OLDER, []), More, Leave];
            Admissible(es) && Stranded(es) && Run(es).inbox.loadingMore && !Awaited(Run(es))
  {
    var first := FirstPage(OLDER, []);
    assert [] + [first] == [first] && [first] + [More] == [first, More]
        && [first, More] + [Leave] == [first, More, Leave];
    RunSnoc([], first);
    RunSnoc([first], More);
    RunSnoc([first, More], Leave);
    assert Asked(Run([first])) == Some("c");
    var c := Run([first, More]);
    assert Open(Issued(c.front), "c") in c.open && Current(c.front, Issued(c.front));
    LoadingIffOneCurrent([first, More, Leave]);
  }

  lemma RunSnoc(es: seq<Event>, e: Event)
    requires Admissible(es) && Possible(Run(es), e)
    ensures Admissible(es + [e]) && Run(es + [e]) == Next(Run(es), e)
    ensures Stranded(es + [e]) == StrandedNext(Run(es), e, Stranded(es))
  {
    hide Next, StrandedNext;
    assert (es + [e])[..|es|] == es;
  }

  function CursorOf(e: Event): set<string> {
    match e
    case PageArrived(_, page, _) => if page.nextCursor.Some? then {page.nextCursor.value} else {}
    case FirstPage(page, _) => if page.nextCursor.Some? then {page.nextCursor.value} else {}
    case _ => {}
  }

  /** Every cursor the server sent. */
  function Served(es: seq<Event>): set<string> {
    if es == [] then {} else Served(es[..|es| - 1]) + CursorOf(es[|es| - 1])
  }

  ghost predicate Known(c: Chain, cursors: set<string>) {
    && (c.inbox.nextCursor.Some? ==> c.inbox.nextCursor.value in cursors)
    && (forall r | r in c.open :: r.cursor in cursors)
    && c.requested <= cursors
  }

  lemma StepKnown(c: Chain, e: Event, cursors: set<string>)
    requires Known(c, cursors) && Possible(c, e)
    ensures Known(Next(c, e), cursors + CursorOf(e))
  {
    hide Inbox.Project, Inbox.UnreadAfter, Inbox.Onto;
  }

  lemma {:induction false} RunKnown(es: seq<Event>)
    requires Admissible(es)
    ensures Known(Run(es), Served(es))
  {
    hide Next, Known;
    if es == [] {
      StartKnown();
    } else {
      RunKnown(es[..|es| - 1]);
      StepKnown(Run(es[..|es| - 1]), es[|es| - 1], Served(es[..|es| - 1]));
    }
  }

  lemma StartKnown()
    ensures Known(START, {})
  {
  }

  lemma {:induction false} DistinctFits(s: seq<string>, bound: set<string>)
    requires Distinct(s) && forall i | 0 <= i < |s| :: s[i] in bound
    ensures |s| <= |bound|
  {
    if s != [] {
      DistinctFits(s[1..], bound - {s[0]});
    }
  }

  /** Loading more ends: no more older pages are taken than the server sent distinct cursors. */
  lemma ChainIsFinite(es: seq<Event>)
    requires Admissible(es)
    ensures |Run(es).answered| <= |Served(es)|
  {
    RunInv(es);
    RunKnown(es);
    DistinctFits(Run(es).answered, Served(es));
  }
}
