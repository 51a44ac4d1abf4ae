/**
 Runs of the incident list hook: requests in flight, callbacks in any order, any rows in the
 responses. What every reachable state keeps.
 */
module IncidentRuns {
  import opened Incidents
  import opened RankedWindow
  import opened UseIncidents

  /** The hook together with the requests that have not been answered yet. */
  datatype World = World(hook: Hook, pages: seq<PageRequest>, mores: seq<MoreRequest>)

  datatype Event =
    | Load(filter: Filter, limit: nat)
    | PageArrives(k: nat, cancelled: bool, data: seq<Incident>, next: Option<Cursor>, since: Option<Time>)
    | PageFails(k: nat, cancelled: bool, message: string)
    | LoadMore
    | MoreArrives(k: nat, data: seq<Incident>, next: Option<Cursor>)
    | MoreFails(k: nat, message: string)
    | Changes(filter: Filter, batch: seq<Incident>)

  /** The ids of one batch of changes are distinct: they are rows of one query over a table. */
  predicate Enabled(w: World, e: Event) {
    match e
    case PageArrives(k, _, _, _, _) => k < |w.pages|
    case PageFails(k, _, _) => k < |w.pages|
    case MoreArrives(k, _, _) => k < |w.mores|
    case MoreFails(k, _) => k < |w.mores|
    case Changes(_, batch) => DistinctIds(batch)
    case _ => true
  }

  function Next(w: World, e: Event): World
    requires Enabled(w, e)
  {
    match e
    case Load(filter, limit) =>
      var h := LoadBegun(w.hook, filter, limit);
      w.(hook := h, pages := w.pages + [PageRequestOf(h)])
    case PageArrives(k, cancelled, data, next, since) =>
      w.(hook := PageArrived(w.hook, w.pages[k], cancelled, data, next, since), pages := RemoveAt(w.pages, k))
    case PageFails(k, cancelled, message) =>
      w.(hook := PageFailed(w.hook, w.pages[k], cancelled, message), pages := RemoveAt(w.pages, k))
    case LoadMore =>
      if CanLoadMore(w.hook) then w.(hook := MoreBegun(w.hook), mores := w.mores + [MoreRequestOf(w.hook)]) else w
    case MoreArrives(k, data, next) =>
      w.(hook := MoreArrived(w.hook, w.mores[k], data, next), mores := RemoveAt(w.mores, k))
    case MoreFails(k, message) =>
      w.(hook := MoreFailed(w.hook, message), mores := RemoveAt(w.mores, k))
    case Changes(filter, batch) =>
      w.(hook := ChangesMerged(w.hook, filter, batch))
  }

  predicate Legal(w: World, es: seq<Event>)
    decreases es
  {
    es == [] || (Enabled(w, es[0]) && Legal(Next(w, es[0]), es[1..]))
  }

  function After(w: World, es: seq<Event>): World
    requires Legal(w, es)
    decreases es
  {
    if es == [] then w else After(Next(w, es[0]), es[1..])
  }

  function Start(filter: Filter, limit: nat): World {
    World(Mounted(filter, limit), [], [])
  }

  // ---- Invariants ----

  ghost predicate LiveBound(h: Hook) {
    forall x :: x in h.incidents && x.id in h.live ==> x.updatedAt >= h.live[x.id]
  }

  ghost predicate WellShaped(h: Hook) {
    IsRanked(h.incidents) && |h.incidents| <= MAX_RETAINED_INCIDENTS && h.loadedCount == |h.incidents|
  }

  /** At most one "load more" is out, and no request is from the future. */
  ghost predicate SingleFlight(w: World) {
    && |w.mores| <= 1
    && (w.hook.moreInFlight <==> |w.mores| == 1)
    && w.hook.loadingMore == w.hook.moreInFlight
    && (forall r :: r in w.mores ==> r.epoch <= w.hook.epoch && (r.epoch == w.hook.epoch ==> r.filter == w.hook.filter))
    && (forall r :: r in w.pages ==> r.epoch <= w.hook.epoch && (r.epoch == w.hook.epoch ==> r.filter == w.hook.filter))
  }

  ghost predicate Inv(w: World) {
    WellShaped(w.hook) && LiveBound(w.hook) && SingleFlight(w)
  }

  lemma {:induction false} StampedAt(live: map<Id, Time>, changes: seq<Incident>, id: Id)
    requires DistinctIds(changes)
    ensures !Mentions(changes, id) ==> (id in Stamped(live, changes) <==> id in live)
    ensures !Mentions(changes, id) && id in live ==> Stamped(live, changes)[id] == live[id]
    ensures forall x :: x in changes && x.id == id ==>
              id in Stamped(live, changes) && Stamped(live, changes)[id] == x.updatedAt
    decreases changes
  {
    if changes != [] {
      var c, rest := changes[0], changes[1..];
      StampedAt(live[c.id := c.updatedAt], rest, id);
      assert Mentions(changes, id) <==> c.id == id || Mentions(rest, id) by {
        if Mentions(rest, id) { var y :| y in rest && y.id == id; assert y in changes; }
      }
    }
  }

  lemma MergeKeepsBound(h: Hook, filter: Filter, changes: seq<Incident>)
    requires LiveBound(h) && DistinctIds(changes)
    ensures LiveBound(ChangesMerged(h, filter, changes))
  {
    var valid := Fresh(h.live, changes);
    KeepDistinct(changes, (x: Incident) => NotOlder(h.live, x));
    var items := Unmentioned(valid, h.incidents) + InFilter(filter, valid);
    WindowShape(items);
    forall x | x in UniqueById(items) && x.id in Stamped(h.live, valid)
      ensures x.updatedAt >= Stamped(h.live, valid)[x.id]
    {
      StampedAt(h.live, valid, x.id);
      assert x in Unmentioned(valid, h.incidents) || x in InFilter(filter, valid);
    }
  }

  lemma PageKeepsBound(h: Hook, data: seq<Incident>, next: Option<Cursor>, since: Option<Time>)
    ensures LiveBound(PageAccepted(h, data, next, since))
  {
    WindowShape(Fresh(h.live, data) + Preserved(h.live, h.filter, h.incidents, data));
  }

  lemma MoreKeepsBound(h: Hook, filter: Filter, data: seq<Incident>, next: Option<Cursor>)
    requires LiveBound(h)
    ensures LiveBound(MoreAccepted(h, filter, data, next))
  {
    WindowShape(h.incidents + InFilter(filter, Fresh(h.live, data)));
  }

  lemma WindowWellShaped(items: seq<Incident>)
    ensures IsRanked(UniqueById(items)) && |UniqueById(items)| <= MAX_RETAINED_INCIDENTS
  {
    WindowShape(items);
  }

  lemma StepKeepsLists(w: World, e: Event)
    requires Enabled(w, e) && WellShaped(w.hook) && LiveBound(w.hook)
    ensures WellShaped(Next(w, e).hook) && LiveBound(Next(w, e).hook)
  {
    var h := w.hook;
    match e
    case PageArrives(k, _, data, next, since) =>
      PageKeepsBound(h, data, next, since);
      WindowWellShaped(Fresh(h.live, data) + Preserved(h.live, h.filter, h.incidents, data));
    case MoreArrives(k, data, next) =>
      MoreKeepsBound(h, w.mores[k].filter, data, next);
      WindowWellShaped(h.incidents + InFilter(w.mores[k].filter, Fresh(h.live, data)));
    case Changes(filter, batch) =>
      MergeKeepsBound(h, filter, batch);
      var valid := Fresh(h.live, batch);
      WindowWellShaped(Unmentioned(valid, h.incidents) + InFilter(filter, valid));
    case _ =>
  }

  lemma StepKeepsFlights(w: World, e: Event)
    requires Enabled(w, e) && SingleFlight(w)
    ensures SingleFlight(Next(w, e))
  {
  }

  /** Live bound, window shape and single flight hold in every reachable state. */
  lemma {:induction false} AlwaysInv(w: World, es: seq<Event>)
    requires Inv(w) && Legal(w, es)
    ensures Inv(After(w, es))
    decreases es
  {
    if es != [] {
      StepKeepsLists(w, es[0]);
      StepKeepsFlights(w, es[0]);
      AlwaysInv(Next(w, es[0]), es[1..]);
    }
  }

  lemma ReachableStates(filter: Filter, limit: nat, es: seq<Event>)
    requires Legal(Start(filter, limit), es)
    ensures Inv(After(Start(filter, limit), es))
  {
    AlwaysInv(Start(filter, limit), es);
  }

  // ---- Single flight, epochs and the cap ----

  /** As many rows as the limit of the hook, but no more than the cap of 100 leaves. */
  predicate FitsTheRoom(limit: nat, h: Hook) {
    limit <= h.limit && limit <= 100 - |h.incidents| && (limit == h.limit || limit == 100 - |h.incidents|)
  }

  /** A further page is asked for unless there is no cursor, no turn or no room, and then from the cursor on. */
  lemma MoreAsksWithinTheCap(w: World)
    requires Inv(w)
    ensures var h, w' := w.hook, Next(w, LoadMore);
            if h.cursor.None? || |w.mores| == 1 || |h.incidents| == 100 then w' == w
            else
              && w.mores == [] && |w'.mores| == 1 && w'.pages == w.pages
              && w'.hook == h.(moreInFlight := true, loadingMore := true)
              && w'.mores[0] == MoreRequest(h.epoch, w'.mores[0].limit, h.cursor.value, h.filter)
              && FitsTheRoom(w'.mores[0].limit, h)
  {
  }

  /** An answer from a superseded epoch changes neither the list nor the paging position. */
  lemma SupersededAnswer(w: World, e: Event)
    requires Enabled(w, e) && (e.PageArrives? || e.MoreArrives?)
    requires e.PageArrives? ==> w.pages[e.k].epoch != w.hook.epoch
    requires e.MoreArrives? ==> w.mores[e.k].epoch != w.hook.epoch
    ensures var h, h' := w.hook, Next(w, e).hook;
            && (e.PageArrives? ==> h' == h)
            && (e.MoreArrives? ==> h' == h.(moreInFlight := false, loadingMore := false))
  {
  }

  /**
   A failure leaves all but error, status and flight alone. A superseded page failure is not reported; a
   superseded "load more" failure is, because that handler has no epoch guard.
   */
  lemma FailuresKeepTheList(w: World, e: Event)
    requires Enabled(w, e) && (e.PageFails? || e.MoreFails?)
    ensures var h, h' := w.hook, Next(w, e).hook;
            && (e.PageFails? ==>
                  h' == if e.cancelled || w.pages[e.k].epoch != h.epoch then h
                        else h.(error := Some(e.message), phase := Failed))
            && (e.MoreFails? ==> h' == h.(error := Some(e.message), moreInFlight := false, loadingMore := false))
  {
  }

  /** The greater of the limit and the rows listed, at most the cap of 100. */
  predicate CoversTheList(asked: nat, limit: nat, listed: nat) {
    && asked <= 100 && (asked < 100 ==> asked >= limit && asked >= listed)
    && (asked == limit || asked == listed || (asked == 100 && (limit > 100 || listed > 100)))
  }

  /**
   A reload supersedes every request out and asks for the rows listed at least; a list that is shown stays shown,
   any other is loading.
   */
  lemma ReloadCoversTheWindow(w: World, filter: Filter, limit: nat)
    requires Inv(w)
    ensures var h, w' := w.hook, Next(w, Load(filter, limit));
            && |w'.pages| == |w.pages| + 1 && w'.pages[..|w.pages|] == w.pages && w'.mores == w.mores
            && (forall r :: r in w.pages ==> r.epoch != w'.hook.epoch)
            && (forall r :: r in w'.mores ==> r.epoch != w'.hook.epoch)
            && w'.hook == h.(filter := filter, limit := limit, epoch := h.epoch + 1,
                             phase := if h.phase == Ready then Ready else Loading)
            && var r := w'.pages[|w.pages|];
               r.epoch == w'.hook.epoch && r.filter == filter && CoversTheList(r.limit, limit, |h.incidents|)
  {
  }

  /** An answer to a request of an earlier epoch changes neither the list nor the paging position. */
  ghost predicate Ineffective(w: World, e: Event)
    requires Enabled(w, e)
  {
    var h, h' := w.hook, Next(w, e).hook;
    h'.incidents == h.incidents && h'.loadedCount == h.loadedCount && h'.cursor == h.cursor && h'.hasMore == h.hasMore
    && h'.syncWatermark == h.syncWatermark && h'.live == h.live && h'.epoch == h.epoch
  }

  /**
   Once a reload has begun, every request that was out before it is superseded for good: whatever happens
   in between, its answer or failure leaves list, paging position, watermark and live map alone.
   */
  lemma {:induction false} SupersededForGood(w: World, es: seq<Event>, e: Event)
    requires Inv(w) && Legal(w, es) && (exists x :: x in es && x.Load?) && Enabled(After(w, es), e)
    requires e.PageArrives? ==> After(w, es).pages[e.k] in w.pages
    requires e.PageFails? ==> After(w, es).pages[e.k] in w.pages
    requires e.MoreArrives? ==> After(w, es).mores[e.k] in w.mores
    requires e.PageArrives? || e.PageFails? || e.MoreArrives? || e.MoreFails?
    ensures Ineffective(After(w, es), e)
  {
    EpochOnlyGrows(w, es);
    OldAnswer(After(w, es), w.hook.epoch, e);
  }

  lemma OldAnswer(w: World, epoch: nat, e: Event)
    requires Enabled(w, e) && epoch < w.hook.epoch
    requires e.PageArrives? ==> w.pages[e.k].epoch <= epoch
    requires e.PageFails? ==> w.pages[e.k].epoch <= epoch
    requires e.MoreArrives? ==> w.mores[e.k].epoch <= epoch
    requires e.PageArrives? || e.PageFails? || e.MoreArrives? || e.MoreFails?
    ensures Ineffective(w, e)
  {
    if e.PageArrives? || e.MoreArrives? { SupersededAnswer(w, e); } else { FailuresKeepTheList(w, e); }
  }

  /** Loads, "load more" requests, failures and superseded answers: everything but an accepted answer and a merge. */
  ghost predicate Idle(w: World, e: Event)
    requires Enabled(w, e)
  {
    match e
    case PageArrives(k, cancelled, _, _, _) => cancelled || w.pages[k].epoch != w.hook.epoch
    case MoreArrives(k, _, _) => w.mores[k].epoch != w.hook.epoch
    case Changes(_, _) => false
    case _ => true
  }

  ghost predicate IdleRun(w: World, es: seq<Event>)
    requires Legal(w, es)
    decreases es
  {
    es == [] || (Idle(w, es[0]) && IdleRun(Next(w, es[0]), es[1..]))
  }

  ghost predicate SameList(a: Hook, b: Hook) {
    && b.incidents == a.incidents && b.loadedCount == a.loadedCount && b.cursor == a.cursor && b.hasMore == a.hasMore
    && b.syncWatermark == a.syncWatermark && b.live == a.live
  }

  lemma IdleStep(w: World, e: Event)
    requires Enabled(w, e) && Idle(w, e)
    ensures SameList(w.hook, Next(w, e).hook)
  {
    match e
    case PageArrives(_, _, _, _, _) =>
    case MoreArrives(_, _, _) => SupersededAnswer(w, e);
    case PageFails(_, _, _) => FailuresKeepTheList(w, e);
    case MoreFails(_, _) => FailuresKeepTheList(w, e);
    case _ =>
  }

  /**
   Over any run only an accepted answer or a merge changes the list, its paging position, the watermark or the
   live map.
   */
  lemma {:induction false} OnlyAcceptedAnswersCount(w: World, es: seq<Event>)
    requires Legal(w, es) && IdleRun(w, es)
    ensures SameList(w.hook, After(w, es).hook)
    decreases es
  {
    if es != [] {
      IdleStep(w, es[0]);
      OnlyAcceptedAnswersCount(Next(w, es[0]), es[1..]);
    }
  }

  /**
   A reload, in whatever reachable state, asks for at least the rows listed then, so that its page can hold
   them all.
   */
  lemma {:induction false} ReloadsCoverTheWindow(w: World, es: seq<Event>, filter: Filter, limit: nat)
    requires Inv(w) && Legal(w, es)
    ensures var now := After(w, es);
            var next := Next(now, Load(filter, limit));
            && |next.pages| == |now.pages| + 1 && next.pages[..|now.pages|] == now.pages
            && (forall r :: r in now.pages ==> r.epoch != next.hook.epoch)
            && (next.hook.phase == Ready <==> now.hook.phase == Ready) && next.hook.phase != Failed
            && next.hook == now.hook.(filter := filter, limit := limit, epoch := next.hook.epoch,
                                      phase := next.hook.phase)
            && var r := next.pages[|now.pages|];
               r.epoch == next.hook.epoch && r.filter == filter && CoversTheList(r.limit, limit, |now.hook.incidents|)
  {
    AlwaysInv(w, es);
    ReloadCoversTheWindow(After(w, es), filter, limit);
  }

  /** No page is accepted in the run. */
  ghost predicate NoPage(w: World, es: seq<Event>)
    requires Legal(w, es)
    decreases es
  {
    es == []
    || (&& (es[0].PageArrives? ==> es[0].cancelled || w.pages[es[0].k].epoch != w.hook.epoch)
        && NoPage(Next(w, es[0]), es[1..]))
  }

  /** An accepted page sets the paging position, the watermark and the status; the live map is untouched. */
  lemma AcceptedPage(h: Hook, data: seq<Incident>, next: Option<Cursor>, since: Option<Time>)
    ensures var h' := PageAccepted(h, data, next, since);
            && h'.cursor == next && h'.phase == Ready && h'.error == None
            && (h'.hasMore <==> next.Some? && |h'.incidents| < MAX_RETAINED_INCIDENTS)
            && (since.Some? ==> h'.syncWatermark == since)
            && (since.None? ==> (h'.syncWatermark.None? <==> forall x :: x in data ==> !NotOlder(h.live, x)))
            && (since.None? && h'.syncWatermark.Some? ==>
                  forall x :: x in data && NotOlder(h.live, x) ==>
                    Millis(x.updatedAt) <= Millis(h'.syncWatermark.value))
            && h'.live == h.live && h'.epoch == h.epoch
  {
    var valid := Fresh(h.live, data);
    var latest := LatestUpdatedAt(valid, None);
    if since.None? && latest.None? {
      assert forall x :: x in valid ==> false;
    }
  }

  lemma {:induction false} WatermarkStays(w: World, es: seq<Event>)
    requires Legal(w, es) && NoPage(w, es)
    ensures After(w, es).hook.syncWatermark == w.hook.syncWatermark
    decreases es
  {
    if es != [] { WatermarkStays(Next(w, es[0]), es[1..]); }
  }

  /**
   The watermark the poller starts from is that of the last accepted page, or without one the latest time of
   its rows: "load more" answers, merges, failures and reloads still under way leave it alone, so none of
   them starts the poller anew.
   */
  lemma WatermarkIsThePages(w: World, page: Event, es: seq<Event>)
    requires page.PageArrives? && Enabled(w, page) && !page.cancelled && w.pages[page.k].epoch == w.hook.epoch
    requires Legal(Next(w, page), es) && NoPage(Next(w, page), es)
    ensures var mark := After(Next(w, page), es).hook.syncWatermark;
            && (page.since.Some? ==> mark == page.since)
            && (page.since.None? ==>
                  && (mark.None? <==> forall x :: x in page.data ==> !NotOlder(w.hook.live, x))
                  && forall x :: x in page.data && NotOlder(w.hook.live, x) ==>
                       Millis(x.updatedAt) <= Millis(mark.value))
  {
    WatermarkStays(Next(w, page), es);
    AcceptedPage(w.hook, page.data, page.next, page.since);
  }

  /** Nothing has been loaded: the list is not ready, and there is no page to go on from and no watermark. */
  ghost predicate Unloaded(w: World) {
    var h := w.hook;
    h.phase != Ready && h.cursor.None? && h.syncWatermark.None? && !h.hasMore && !h.loadingMore && w.mores == []
  }

  lemma {:induction false} StaysUnloaded(w: World, es: seq<Event>)
    requires Unloaded(w) && Legal(w, es) && NoPage(w, es)
    ensures Unloaded(After(w, es))
    ensures (forall e :: e in es ==> !e.Changes?) ==> After(w, es).hook.incidents == w.hook.incidents
    decreases es
  {
    if es != [] {
      assert es[0] in es;
      StaysUnloaded(Next(w, es[0]), es[1..]);
    }
  }

  /** From mounting until a page is accepted nothing is loaded, and the list is empty unless changes came. */
  lemma {:induction false} NothingBeforeThePage(filter: Filter, limit: nat, es: seq<Event>)
    requires Legal(Start(filter, limit), es) && NoPage(Start(filter, limit), es)
    ensures Unloaded(After(Start(filter, limit), es))
    ensures (forall e :: e in es ==> !e.Changes?) ==> After(Start(filter, limit), es).hook.incidents == []
  {
    StaysUnloaded(Start(filter, limit), es);
  }

  // ---- Where the next page starts ----

  /** The answer is neither cancelled nor superseded. */
  predicate Accepts(w: World, e: Event)
    requires Enabled(w, e)
  {
    match e
    case PageArrives(k, cancelled, _, _, _) => !cancelled && w.pages[k].epoch == w.hook.epoch
    case MoreArrives(k, _, _) => w.mores[k].epoch == w.hook.epoch
    case _ => false
  }

  /** No page and no further page is accepted in the run. */
  ghost predicate NoAnswer(w: World, es: seq<Event>)
    requires Legal(w, es)
    decreases es
  {
    es == [] || (!Accepts(w, es[0]) && NoAnswer(Next(w, es[0]), es[1..]))
  }

  lemma {:induction false} CursorStays(w: World, es: seq<Event>)
    requires Legal(w, es) && NoAnswer(w, es)
    ensures After(w, es).hook.cursor == w.hook.cursor
    decreases es
  {
    if es != [] { CursorStays(Next(w, es[0]), es[1..]); }
  }

  /**
   Loading more goes on where the last accepted answer ended, whatever else arrives in between: the next request
   carries its cursor, and there is none if it had none.
   */
  lemma {:induction false} MoreGoesOn(w: World, answer: Event, es: seq<Event>)
    requires Inv(w) && Enabled(w, answer) && Accepts(w, answer)
    requires Legal(Next(w, answer), es) && NoAnswer(Next(w, answer), es)
    ensures var now := After(Next(w, answer), es);
            var asked := Next(now, LoadMore);
            && (answer.next.None? || |now.mores| == 1 || |now.hook.incidents| == 100 <==> asked == now)
            && (asked != now ==> |asked.mores| == 1 && Some(asked.mores[0].cursor) == answer.next
                                 && asked.mores[0].filter == now.hook.filter
                                 && FitsTheRoom(asked.mores[0].limit, now.hook))
  {
    StepKeepsLists(w, answer);
    StepKeepsFlights(w, answer);
    AlwaysInv(Next(w, answer), es);
    CursorStays(Next(w, answer), es);
    MoreAsksWithinTheCap(After(Next(w, answer), es));
  }

  // ---- What is only shown ----

  function Shown(h: Hook, shown: bool): Hook { h.(hasMore := shown) }

  function Showing(w: World, shown: bool): World { w.(hook := Shown(w.hook, shown)) }

  /** The run with `hasMore` as it comes out at each step, whichever size it was computed from. */
  predicate LegalShowing(w: World, es: seq<Event>, shown: seq<bool>)
    requires |es| == |shown|
    decreases es
  {
    es == [] || (Enabled(w, es[0]) && LegalShowing(Showing(Next(w, es[0]), shown[0]), es[1..], shown[1..]))
  }

  function AfterShowing(w: World, es: seq<Event>, shown: seq<bool>): World
    requires |es| == |shown| && LegalShowing(w, es, shown)
    decreases es
  {
    if es == [] then w else AfterShowing(Showing(Next(w, es[0]), shown[0]), es[1..], shown[1..])
  }

  lemma PageShown(h: Hook, before: bool, after: bool, r: PageRequest, cancelled: bool, data: seq<Incident>,
                  next: Option<Cursor>, since: Option<Time>)
    ensures Shown(PageArrived(Shown(h, before), r, cancelled, data, next, since), after)
         == Shown(PageArrived(h, r, cancelled, data, next, since), after)
  {
  }

  lemma MoreShown(h: Hook, before: bool, after: bool, r: MoreRequest, data: seq<Incident>, next: Option<Cursor>)
    ensures Shown(MoreArrived(Shown(h, before), r, data, next), after) == Shown(MoreArrived(h, r, data, next), after)
  {
  }

  lemma MergeShown(h: Hook, before: bool, after: bool, filter: Filter, batch: seq<Incident>)
    ensures Shown(ChangesMerged(Shown(h, before), filter, batch), after)
         == Shown(ChangesMerged(h, filter, batch), after)
  {
  }

  lemma ShowingStep(w: World, e: Event, before: bool, after: bool)
    requires Enabled(w, e)
    ensures Enabled(Showing(w, before), e) && Showing(Next(Showing(w, before), e), after) == Showing(Next(w, e), after)
  {
    match e
    case PageArrives(k, cancelled, data, next, since) =>
      PageShown(w.hook, before, after, w.pages[k], cancelled, data, next, since);
    case MoreArrives(k, data, next) => MoreShown(w.hook, before, after, w.mores[k], data, next);
    case Changes(filter, batch) => MergeShown(w.hook, before, after, filter, batch);
    case _ =>
  }

  /**
   The flag that offers another page decides nothing: whether each updater has run before its size is read,
   so whatever value the flag takes at every step, the rest of the run is the same.
   */
  lemma {:induction false} HasMoreIsOnlyShown(w: World, es: seq<Event>, before: bool, shown: seq<bool>)
    returns (last: bool)
    requires Legal(w, es) && |shown| == |es|
    ensures LegalShowing(Showing(w, before), es, shown)
    ensures AfterShowing(Showing(w, before), es, shown) == Showing(After(w, es), last)
    decreases es
  {
    if es == [] {
      last := before;
    } else {
      ShowingStep(w, es[0], before, shown[0]);
      last := HasMoreIsOnlyShown(Next(w, es[0]), es[1..], shown[0], shown[1..]);
    }
  }

  /** Requests sent before a reload are superseded by it, whatever happens in between. */
  lemma {:induction false} EpochOnlyGrows(w: World, es: seq<Event>)
    requires Legal(w, es)
    ensures After(w, es).hook.epoch >= w.hook.epoch
    ensures (exists e :: e in es && e.Load?) ==> After(w, es).hook.epoch > w.hook.epoch
    decreases es
  {
    if es != [] {
      EpochOnlyGrows(Next(w, es[0]), es[1..]);
      assert forall e :: e in es ==> e == es[0] || e in es[1..];
    }
  }

  // ---- A removed incident stays removed ----

  lemma LiveStep(w: World, e: Event, id: Id)
    requires Enabled(w, e) && id in w.hook.live
    ensures id in Next(w, e).hook.live && Next(w, e).hook.live[id] >= w.hook.live[id]
  {
    if e.Changes? {
      var valid := Fresh(w.hook.live, e.batch);
      KeepDistinct(e.batch, (x: Incident) => NotOlder(w.hook.live, x));
      StampedAt(w.hook.live, valid, id);
    }
  }

  lemma {:induction false} LiveGrows(w: World, es: seq<Event>, id: Id)
    requires Legal(w, es) && id in w.hook.live
    ensures id in After(w, es).hook.live && After(w, es).hook.live[id] >= w.hook.live[id]
    decreases es
  {
    if es != [] {
      LiveStep(w, es[0], id);
      LiveGrows(Next(w, es[0]), es[1..], id);
    }
  }

  /** No answer built from an older server state brings back a version a live change has overtaken. */
  lemma NothingOlderReturns(w: World, es: seq<Event>, id: Id)
    requires Inv(w) && Legal(w, es) && id in w.hook.live
    ensures forall x :: x in After(w, es).hook.incidents && x.id == id ==> x.updatedAt >= w.hook.live[id]
  {
    AlwaysInv(w, es);
    LiveGrows(w, es, id);
  }

  /** In one session the filter stays and every row is the version its id and time determine. */
  ghost predicate SessionEvent(w: World, e: Event, filter: Filter, version: (Id, Time) -> Incident)
    requires Enabled(w, e)
  {
    match e
    case Load(f, _) => f == filter
    case PageArrives(_, _, data, _, _) =>
      forall x :: x in data ==> filter.Accepts(x) && x == version(x.id, x.updatedAt)
    case MoreArrives(_, data, _) => forall x :: x in data ==> x == version(x.id, x.updatedAt)
    case Changes(f, batch) => f == filter && forall x :: x in batch ==> x == version(x.id, x.updatedAt)
    case _ => true
  }

  ghost predicate SessionRun(w: World, es: seq<Event>, filter: Filter, version: (Id, Time) -> Incident)
    requires Legal(w, es)
    decreases es
  {
    es == [] || (SessionEvent(w, es[0], filter, version) && SessionRun(Next(w, es[0]), es[1..], filter, version))
  }

  ghost predicate SessionList(w: World, filter: Filter, version: (Id, Time) -> Incident) {
    && w.hook.filter == filter
    && (forall r :: r in w.mores ==> r.filter == filter)
    && forall x :: x in w.hook.incidents ==> filter.Accepts(x) && x == version(x.id, x.updatedAt)
  }

  lemma SessionStep(w: World, e: Event, filter: Filter, version: (Id, Time) -> Incident)
    requires Enabled(w, e) && SessionEvent(w, e, filter, version) && SessionList(w, filter, version)
    ensures SessionList(Next(w, e), filter, version)
  {
    var h := w.hook;
    match e
    case PageArrives(_, _, data, _, _) =>
      WindowShape(Fresh(h.live, data) + Preserved(h.live, h.filter, h.incidents, data));
    case MoreArrives(k, data, _) =>
      WindowShape(h.incidents + InFilter(w.mores[k].filter, Fresh(h.live, data)));
    case Changes(f, batch) =>
      var valid := Fresh(h.live, batch);
      WindowShape(Unmentioned(valid, h.incidents) + InFilter(f, valid));
    case _ =>
  }

  lemma {:induction false} SessionAlways(w: World, es: seq<Event>, filter: Filter, version: (Id, Time) -> Incident)
    requires Legal(w, es) && SessionRun(w, es, filter, version) && SessionList(w, filter, version)
    ensures SessionList(After(w, es), filter, version)
    decreases es
  {
    if es != [] {
      SessionStep(w, es[0], filter, version);
      SessionAlways(Next(w, es[0]), es[1..], filter, version);
    }
  }

  /** Merging a change that left the filter takes the incident out of the list and records its time. */
  lemma MergeRemoves(h: Hook, changes: seq<Incident>, c: Incident)
    requires DistinctIds(changes) && c in changes && NotOlder(h.live, c) && !h.filter.Accepts(c)
    ensures var h' := ChangesMerged(h, h.filter, changes);
            c.id in h'.live && h'.live[c.id] == c.updatedAt && forall x :: x in h'.incidents ==> x.id != c.id
  {
    var valid := Fresh(h.live, changes);
    assert c in valid;
    KeepDistinct(changes, (x: Incident) => NotOlder(h.live, x));
    StampedAt(h.live, valid, c.id);
    WindowShape(Unmentioned(valid, h.incidents) + InFilter(h.filter, valid));
    forall x | x in valid && x.id == c.id ensures x == c {
      FindDistinct(valid, x);
      FindDistinct(valid, c);
    }
  }

  lemma OvertakenStaysOut(w: World, es: seq<Event>, c: Incident, filter: Filter, version: (Id, Time) -> Incident)
    requires Inv(w) && SessionList(w, filter, version) && Legal(w, es) && SessionRun(w, es, filter, version)
    requires c.id in w.hook.live && w.hook.live[c.id] == c.updatedAt
    requires !filter.Accepts(c) && c == version(c.id, c.updatedAt)
    ensures forall x :: x in After(w, es).hook.incidents && x.id == c.id ==> x.updatedAt > c.updatedAt
  {
    NothingOlderReturns(w, es, c.id);
    SessionAlways(w, es, filter, version);
    NotThatVersion(After(w, es), c, filter, version);
  }

  lemma NotThatVersion(w: World, c: Incident, filter: Filter, version: (Id, Time) -> Incident)
    requires SessionList(w, filter, version) && !filter.Accepts(c) && c == version(c.id, c.updatedAt)
    requires forall x :: x in w.hook.incidents && x.id == c.id ==> x.updatedAt >= c.updatedAt
    ensures forall x :: x in w.hook.incidents && x.id == c.id ==> x.updatedAt > c.updatedAt
  {
    forall x | x in w.hook.incidents && x.id == c.id ensures x.updatedAt > c.updatedAt {
      assert filter.Accepts(x) && x == version(x.id, x.updatedAt);
    }
  }

  /**
   Once a change has moved an incident out of the active filter, no later page, "load more" answer
   or delta puts that version or an older one back; only a newer version can be listed again.
   */
  lemma {:induction false} NoResurrection(w: World, changes: seq<Incident>, c: Incident, es: seq<Event>,
                       filter: Filter, version: (Id, Time) -> Incident)
    requires Inv(w) && SessionList(w, filter, version)
    requires DistinctIds(changes) && c in changes && NotOlder(w.hook.live, c) && !filter.Accepts(c)
    requires forall x :: x in changes ==> x == version(x.id, x.updatedAt)
    requires Legal(Next(w, Changes(filter, changes)), es)
    requires SessionRun(Next(w, Changes(filter, changes)), es, filter, version)
    ensures forall x :: x in After(Next(w, Changes(filter, changes)), es).hook.incidents && x.id == c.id
              ==> x.updatedAt > c.updatedAt
  {
    var e := Changes(filter, changes);
    StepKeepsLists(w, e);
    StepKeepsFlights(w, e);
    SessionStep(w, e, filter, version);
    MergeRemoves(w.hook, changes, c);
    OvertakenStaysOut(Next(w, e), es, c, filter, version);
  }

  // ---- A refresh keeps live rows ----

  /** Everything that goes into a window is represented before truncation by a version at least as new. */
  lemma Represented(items: seq<Incident>, x: Incident)
    requires x in items
    ensures Find(Ranked(items), x.id).Some? && Find(Ranked(items), x.id).value in items
    ensures forall y :: y in items && y.id == x.id ==> Find(Ranked(items), x.id).value.updatedAt >= y.updatedAt
  {
    forall y | y in items && y.id == x.id
      ensures Find(Ranked(items), x.id).Some? && Find(Ranked(items), x.id).value.updatedAt >= y.updatedAt
    {
      var j :| 0 <= j < |items| && items[j] == y;
      RankedCovers(items, j);
    }
    SourceOf(items, Find(Ranked(items), x.id).value);
  }

  /** A live row survives beside the page unless the page has a version at least as new. */
  lemma PageOrLive(h: Hook, data: seq<Incident>, p: Incident) returns (x: Incident)
    requires p in h.incidents && p.id in h.live && h.live[p.id] == p.updatedAt && h.filter.Accepts(p)
    ensures x in Fresh(h.live, data) || x in Preserved(h.live, h.filter, h.incidents, data)
    ensures x.id == p.id && x.updatedAt >= p.updatedAt
  {
    var fetched := Find(data, p.id);
    x := if fetched.None? || p.updatedAt > fetched.value.updatedAt then p else fetched.value;
  }

  /**
   On an accepted page load every listed in-filter row at its live version is represented before
   truncation, at the newer of its own and the fetched version, and is missing from the list only if
   the list is full of rows that outrank it.
   */
  lemma RefreshKeepsLiveRows(h: Hook, data: seq<Incident>, next: Option<Cursor>, since: Option<Time>, p: Incident)
    requires WellShaped(h)
    requires p in h.incidents && p.id in h.live && h.live[p.id] == p.updatedAt && h.filter.Accepts(p)
    ensures exists kept: Incident ::
              && kept.id == p.id && (kept == p || kept in data)
              && kept.updatedAt >= p.updatedAt
              && (forall f :: f in data && f.id == p.id ==> kept.updatedAt >= f.updatedAt)
              && LeavesOutOnlyWorse(PageAccepted(h, data, next, since).incidents, kept)
  {
    var valid, preserved := Fresh(h.live, data), Preserved(h.live, h.filter, h.incidents, data);
    var items := valid + preserved;
    var x := PageOrLive(h, data, p);
    Represented(items, x);
    var kept := Find(Ranked(items), p.id).value;
    RankedDistinct(h.incidents);
    FindDistinct(h.incidents, p);
    if kept !in data { FindDistinct(h.incidents, kept); }
    RankedShape(items);
    TakeLeavesOutWorse(Ranked(items), MAX_RETAINED_INCIDENTS, kept);
    forall f | f in data && f.id == p.id ensures kept.updatedAt >= f.updatedAt {
      if f.updatedAt >= p.updatedAt { assert f in valid; }
    }
  }

  /** "Load more" keeps the window equal to recomputing it from every row loaded so far. */
  lemma MoreIsBatch(h: Hook, history: seq<Incident>, filter: Filter, data: seq<Incident>, next: Option<Cursor>)
    requires h.incidents == UniqueById(history)
    ensures MoreAccepted(h, filter, data, next).incidents == UniqueById(history + InFilter(filter, Fresh(h.live, data)))
  {
    IncrementalEqualsBatch(history, InFilter(filter, Fresh(h.live, data)));
  }
}
