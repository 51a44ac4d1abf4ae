/**
 Inputs on which the list stays wrong (dashboard/src/hooks/useIncidents.js): for every way in which a row
 can come from outside the session, a legal run from its opening that ends with that row stranded.
 */
module SyncInputs {
  import opened Incidents
  import opened RankedWindow
  import opened UseIncidents
  import opened IncidentsServer
  import opened IncidentSync
  import opened SyncLimits
  import Runs = IncidentRuns
  import Feeds = ChangeFeed

  // ---- Building runs ----

  lemma Follow(s: Session, e: Event, t: Session, es: seq<Event>)
    requires Enabled(s, e) && Next(s, e) == t && Legal(t, es)
    ensures Legal(s, [e] + es) && Run(s, [e] + es) == Run(t, es)
  {
    assert ([e] + es)[1..] == es;
  }

  const OPEN: Filter := Only("open")

  /** The incident as the client saw it, and what has become of it. */
  const SEEN: Incident := Incident(1, 1, "open", "")
  const CLOSED: Incident := Incident(1, 2, "closed", "")

  function OneRow(r: Incident, clock: Time): Server { Server(clock, map[r.id := r], map[], {}) }

  /** The hook with a reload under way. */
  function Reloading(
    filter: Filter, limit: nat, list: seq<Incident>, live: map<Id, Time>, cursor: Option<Cursor>): Hook
  {
    Hook(filter, limit, list, Ready, None, cursor.Some?, false, None, cursor, false, |list|, 1, live)
  }

  function Waiting(h: Hook): Runs.World { Runs.World(h, [PageRequestOf(h)], []) }

  function At(server: Server, w: Runs.World, load: Load, poller: Poller): Session {
    Session(Feeds.Begun(server, 0), w, load, None, {}, poller)
  }

  lemma WaitingRuns(h: Hook)
    requires h.loadedCount == |h.incidents| <= 1 && !h.moreInFlight && !h.loadingMore && Runs.LiveBound(h)
    ensures var w := Waiting(h);
            Runs.Inv(w) && w.hook == h && w.mores == [] && |w.pages| == 1 && w.pages[0].epoch == h.epoch
  {
  }

  lemma Opened(s: Session)
    requires ServerOk(s.feed.server) && Runs.Inv(s.world) && s.load.Requested? && s.more.None? && s.world.mores == []
    requires |s.world.pages| == 1 && s.world.pages[0].epoch == s.world.hook.epoch
    requires LiveKnown(s.feed.server, s.world.hook) && AllKnown(s.feed.server, s.world.hook.incidents)
    requires Feeds.FeedInv(s.feed) && Flying(s.feed, s.direct) && s.feed.handed == {}
    requires AllSound(s.feed.server, s.feed.initial, s.world.hook.incidents) && !s.poller.Absent?
    ensures Opening(s)
  {
  }

  /** A client that knows nothing the server could not have told it may reload. */
  lemma MayOpen(server: Server, h: Hook)
    requires ServerOk(server) && server.writers == map[] && server.clock >= 0
    requires LiveKnown(server, h) && AllKnown(server, h.incidents) && AllSound(server, 0, h.incidents)
    requires h.loadedCount == |h.incidents| <= 1 && !h.moreInFlight && !h.loadingMore && Runs.LiveBound(h)
    ensures Opening(At(server, Waiting(h), Requested, Steady))
  {
    WaitingRuns(h);
    OpenedAt(server, Waiting(h));
  }

  lemma OpenedAt(server: Server, w: Runs.World)
    requires ServerOk(server) && server.writers == map[] && server.clock >= 0
    requires Runs.Inv(w) && w.mores == [] && |w.pages| == 1 && w.pages[0].epoch == w.hook.epoch
    requires LiveKnown(server, w.hook) && AllKnown(server, w.hook.incidents) && AllSound(server, 0, w.hook.incidents)
    ensures Opening(At(server, w, Requested, Steady))
  {
    FreshFeed(server, 0);
    Opened(At(server, w, Requested, Steady));
  }

  /** A page with at most one row is the window of itself. */
  lemma WindowOfOne(x: Incident)
    ensures UniqueById([x]) == [x] && UniqueById([]) == []
  {
    assert [x][..0] == [];
    assert Ranked([x]) == Upsert([], x) == [x];
  }

  lemma KeepOfOne(x: Incident, p: Incident -> bool)
    ensures Keep([x], p) == if p(x) then [x] else []
  {
    assert [x][1..] == [];
  }

  lemma FreshOfOne(live: map<Id, Time>, x: Incident)
    requires NotOlder(live, x)
    ensures Fresh(live, [x]) == [x]
  {
    KeepOfOne(x, (y: Incident) => NotOlder(live, y));
    assert x in Fresh(live, [x]);
  }

  lemma InFilterOfOne(filter: Filter, x: Incident)
    requires filter.Accepts(x)
    ensures InFilter(filter, [x]) == [x]
  {
    KeepOfOne(x, (y: Incident) => filter.Accepts(y));
    assert x in InFilter(filter, [x]);
  }

  lemma PreservedOfOne(live: map<Id, Time>, filter: Filter, x: Incident, data: seq<Incident>)
    requires Survives(live, filter, data, x)
    ensures Preserved(live, filter, [x], data) == [x]
  {
    KeepOfOne(x, (y: Incident) => Survives(live, filter, data, y));
    assert x in Preserved(live, filter, [x], data);
  }

  /** A merge of one accepted row into an empty list. */
  lemma MergeOfOne(h: Hook, accepts: Filter, x: Incident)
    requires h.incidents == [] && NotOlder(h.live, x) && accepts.Accepts(x)
    ensures ChangesMerged(h, accepts, [x]) ==
            h.(live := h.live[x.id := x.updatedAt], incidents := [x], loadedCount := 1)
  {
    FreshOfOne(h.live, x);
    assert [x][1..] == [];
    assert Stamped(h.live, [x]) == Stamped(h.live[x.id := x.updatedAt], []) == h.live[x.id := x.updatedAt];
    InFilterOfOne(accepts, x);
    assert [] + [x] == [x];
    WindowOfOne(x);
  }

  // ---- A page without rows ----

  /** The server has nothing in the filter. */
  ghost predicate NothingOpen(server: Server) {
    && ServerOk(server) && server.writers == map[]
    && forall r :: Current(server, r) ==> !OPEN.Accepts(r)
  }

  /** The session once an empty page has started its poller at the clock. */
  function AfterEmptyPage(s: Session): Session {
    var mark := s.feed.server.clock;
    var w := s.world.(hook := PageAccepted(s.world.hook, [], None, Some(mark)), pages := []);
    Session(Feeds.Begun(s.feed.server, mark), w, Accepted, s.more, {}, Steady)
  }

  /** A session whose page is empty: its bounds, its rows, its arrival. */
  lemma EmptyPage(s: Session) returns (es: seq<Event>)
    requires NothingOpen(s.feed.server) && s.load.Requested? && s.world.hook.filter == OPEN
    requires |s.world.pages| == 1 && s.world.pages[0].epoch == s.world.hook.epoch && s.world.pages[0].limit > 0
    requires s.poller.Absent? || s.feed.initial != s.feed.server.clock
    ensures Legal(s, es) && Run(s, es) == AfterEmptyPage(s)
  {
    var mark := s.feed.server.clock;
    var s1, s2 := s.(load := Bounded(mark, mark)), s.(load := Answered([], None, mark));
    assert IsWatermark(s.feed.server, mark);
    assert ListPage(s.feed.server, OPEN, None, mark, s.world.pages[0].limit, [], None);
    assert Enabled(s, LoadBounds(mark)) && Next(s, LoadBounds(mark)) == s1;
    assert Enabled(s1, LoadRows([], None)) && Next(s1, LoadRows([], None)) == s2;
    EmptyArrives(s2);
    Follow(s2, LoadArrives, AfterEmptyPage(s), []);
    Follow(s1, LoadRows([], None), s2, [LoadArrives] + []);
    Follow(s, LoadBounds(mark), s1, [LoadRows([], None)] + ([LoadArrives] + []));
    es := [LoadBounds(mark)] + ([LoadRows([], None)] + ([LoadArrives] + []));
  }

  lemma EmptyArrives(s: Session)
    requires s.load == Answered([], None, s.feed.server.clock) && !KeepsPolling(s)
    requires |s.world.pages| == 1 && s.world.pages[0].epoch == s.world.hook.epoch
    ensures Enabled(s, LoadArrives) && Next(s, LoadArrives) == AfterEmptyPage(s)
  {
    assert RemoveAt(s.world.pages, 0) == [];
  }

  /** An accepted session in which nothing is open and one wrong row is listed. */
  lemma OneWrongRow(s: Session, x: Incident)
    requires NothingOpen(s.feed.server) && s.load.Accepted? && s.feed == Feeds.Begun(s.feed.server, s.feed.server.clock)
    requires s.world.hook.filter == OPEN && s.world.hook.incidents == [x] && s.world.hook.loadedCount == 1
    requires x.id in s.feed.server.rows
    ensures Stranded(s, x, s.feed.server.clock)
  {
    assert !Right(s, x) by { assert Current(s.feed.server, x) ==> !OPEN.Accepts(x); }
  }

  lemma ClosedServer(clock: Time)
    requires clock >= 2
    ensures NothingOpen(OneRow(CLOSED, clock)) && Known(OneRow(CLOSED, clock), SEEN)
    ensures Known(OneRow(CLOSED, clock), CLOSED)
  {
  }

  // ---- The routes ----

  lemma KeptAlone(h: Hook, mark: Time)
    requires h.filter == OPEN && h.incidents == [SEEN] && h.live == map[1 := 1]
    ensures PageAccepted(h, [], None, Some(mark)).incidents == [SEEN]
    ensures PageAccepted(h, [], None, Some(mark)).loadedCount == 1
  {
    PreservedOfOne(h.live, OPEN, SEEN, []);
    assert Fresh(h.live, []) == [] && [] + [SEEN] == [SEEN];
    WindowOfOne(SEEN);
  }

  /** The page of a session is empty and keeps the one row listed, which has left the filter. */
  lemma KeptStrands(s: Session) returns (es: seq<Event>)
    requires NothingOpen(s.feed.server) && SEEN.id in s.feed.server.rows && s.load.Requested?
    requires s.world.hook.filter == OPEN && s.world.hook.incidents == [SEEN] && s.world.hook.live == map[1 := 1]
    requires |s.world.pages| == 1 && s.world.pages[0].epoch == s.world.hook.epoch && s.world.pages[0].limit > 0
    requires s.poller.Absent? || s.feed.initial != s.feed.server.clock
    ensures Legal(s, es) && Stranded(Run(s, es), SEEN, s.feed.server.clock)
    ensures Run(s, es).feed.initial == s.feed.server.clock
  {
    es := EmptyPage(s);
    KeptAlone(s.world.hook, s.feed.server.clock);
    OneWrongRow(Run(s, es), SEEN);
  }

  lemma NothingKept(h: Hook, mark: Time)
    requires h.incidents == []
    ensures PageAccepted(h, [], None, Some(mark)).incidents == []
    ensures PageAccepted(h, [], None, Some(mark)).loadedCount == 0
  {
    assert Fresh(h.live, []) == [] && Preserved(h.live, h.filter, [], []) == [];
    var none: seq<Incident> := [];
    assert none + none == none;
    WindowOfOne(SEEN);
  }

  lemma {:induction false} RunOn(s: Session, es: seq<Event>, e: Event)
    requires Legal(s, es) && Enabled(Run(s, es), e)
    ensures Legal(s, es + [e]) && Run(s, es + [e]) == Next(Run(s, es), e)
    decreases es
  {
    if es == [] {
      Follow(s, e, Next(s, e), []);
      assert [] + [e] == [e] + [];
    } else {
      RunOn(Next(s, es[0]), es[1..], e);
      assert es + [e] == [es[0]] + (es[1..] + [e]);
      Follow(s, es[0], Next(s, es[0]), es[1..] + [e]);
    }
  }

  lemma {:induction false} RunBoth(s: Session, a: seq<Event>, b: seq<Event>)
    requires Legal(s, a) && Legal(Run(s, a), b)
    ensures Legal(s, a + b) && Run(s, a + b) == Run(Run(s, a), b)
    decreases a
  {
    if a == [] {
      assert a + b == b;
    } else {
      RunBoth(Next(s, a[0]), a[1..], b);
      assert a + b == [a[0]] + (a[1..] + b);
      Follow(s, a[0], Next(s, a[0]), a[1..] + b);
    }
  }

  /** A merge of one row from outside into the empty list of a session whose page was empty. */
  lemma StrayAfterEmptyPage(s: Session, accepts: Filter, x: Incident) returns (es: seq<Event>)
    requires NothingOpen(s.feed.server) && Known(s.feed.server, x) && x.id in s.feed.server.rows && accepts.Accepts(x)
    requires s.load.Requested? && s.world.hook.filter == OPEN && s.world.hook.incidents == []
    requires s.world.hook.live == map[]
    requires |s.world.pages| == 1 && s.world.pages[0].epoch == s.world.hook.epoch && s.world.pages[0].limit > 0
    requires s.poller.Absent? || s.feed.initial != s.feed.server.clock
    ensures Legal(s, es) && Stranded(Run(s, es), x, s.feed.server.clock)
    ensures Run(s, es).feed.initial == s.feed.server.clock
  {
    var page := EmptyPage(s);
    var mid := Run(s, page);
    NothingKept(s.world.hook, s.feed.server.clock);
    OneIsDistinct(x);
    RunOn(s, page, Stray(accepts, [x]));
    es := page + [Stray(accepts, [x])];
    MergeOfOne(mid.world.hook, accepts, x);
    StrayIsMerge(mid, accepts, [x]);
    OneWrongRow(Run(s, es), x);
  }

  lemma EmptyStart(server: Server, h: Hook)
    requires server == OneRow(CLOSED, 3) && h == Reloading(OPEN, 50, [], map[], None)
    ensures Opening(At(server, Waiting(h), Requested, Steady))
  {
    MayOpen(server, h);
  }

  lemma OldAnswerRun(server: Server, h: Hook) returns (es: seq<Event>)
    requires server == OneRow(CLOSED, 3) && h.filter == OPEN && h.limit > 0 && h.incidents == [] && h.live == map[]
    ensures var s := At(server, Waiting(h), Requested, Steady);
            Legal(s, es) && Stranded(Run(s, es), SEEN, 3) && Run(s, es).feed.initial == 3
  {
    ClosedServer(3);
    es := StrayAfterEmptyPage(At(server, Waiting(h), Requested, Steady), OPEN, SEEN);
  }

  /**
   The last page of a poller of an earlier session, or a direct answer fetched before the session, brings an
   old version.
   */
  lemma OldAnswerStrands(server: Server, h: Hook) returns (es: seq<Event>)
    requires server == OneRow(CLOSED, 3) && h == Reloading(OPEN, 50, [], map[], None)
    ensures Opening(At(server, Waiting(h), Requested, Steady))
    ensures var s := At(server, Waiting(h), Requested, Steady);
            Legal(s, es) && Stranded(Run(s, es), SEEN, 3) && Run(s, es).feed.initial == 3
  {
    EmptyStart(server, h);
    es := OldAnswerRun(server, h);
  }

  lemma OldCallbackRun(server: Server, h: Hook) returns (es: seq<Event>)
    requires server == OneRow(CLOSED, 3) && h.filter == OPEN && h.limit > 0 && h.incidents == [] && h.live == map[]
    ensures var s := At(server, Waiting(h), Requested, Steady);
            Legal(s, es) && Stranded(Run(s, es), CLOSED, 3) && Run(s, es).feed.initial == 3
  {
    ClosedServer(3);
    es := StrayAfterEmptyPage(At(server, Waiting(h), Requested, Steady), All, CLOSED);
  }

  /** A callback that still closes over no filter lists a row outside the present one. */
  lemma OldCallbackStrands(server: Server, h: Hook) returns (es: seq<Event>)
    requires server == OneRow(CLOSED, 3) && h == Reloading(OPEN, 50, [], map[], None)
    ensures Opening(At(server, Waiting(h), Requested, Steady))
    ensures var s := At(server, Waiting(h), Requested, Steady);
            Legal(s, es) && Stranded(Run(s, es), CLOSED, 3) && Run(s, es).feed.initial == 3
  {
    EmptyStart(server, h);
    es := OldCallbackRun(server, h);
  }

  lemma OneIsDistinct(x: Incident)
    ensures DistinctIds([x])
  {
    assert [x][1..] == [];
  }

  lemma DirectFirst(s: Session) returns (n: Session)
    requires Known(s.feed.server, SEEN) && s.load.Requested? && s.poller.Absent?
    requires s.world.hook.filter == OPEN && s.world.hook.incidents == [] && s.world.hook.live == map[]
    ensures var h := s.world.hook.(live := map[1 := 1], incidents := [SEEN], loadedCount := 1);
            n == s.(world := s.world.(hook := h))
    ensures Enabled(s, Stray(OPEN, [SEEN])) && Next(s, Stray(OPEN, [SEEN])) == n
  {
    var h := s.world.hook.(live := map[1 := 1], incidents := [SEEN], loadedCount := 1);
    n := s.(world := s.world.(hook := h));
    OneIsDistinct(SEEN);
    MergeOfOne(s.world.hook, OPEN, SEEN);
    StrayIsMerge(s, OPEN, [SEEN]);
  }

  lemma MountedRequest(server: Server, limit: nat)
    ensures var s := MountedSession(server, OPEN, limit);
            && s.feed == Feeds.Begun(server, 0) && s.load.Requested? && s.more.None? && s.direct == {}
            && s.poller.Absent?
            && s.world.hook.filter == OPEN && s.world.hook.incidents == [] && s.world.hook.live == map[]
            && |s.world.pages| == 1 && s.world.pages[0].epoch == s.world.hook.epoch && s.world.mores == []
            && (limit > 0 ==> s.world.pages[0].limit > 0)
  {
  }

  /** From mounting: a direct answer that arrives before the first page is kept by it like a live row. */
  lemma DirectBeforeFirstPageStrands(server: Server, limit: nat) returns (es: seq<Event>)
    requires server == OneRow(CLOSED, 3) && limit > 0
    ensures var s := MountedSession(server, OPEN, limit);
            Legal(s, es) && Stranded(Run(s, es), SEEN, 3) && Run(s, es).feed.initial == 3
  {
    var s := MountedSession(server, OPEN, limit);
    ClosedServer(3);
    MountedRequest(server, limit);
    var n := DirectFirst(s);
    var page := KeptStrands(n);
    Follow(s, Stray(OPEN, [SEEN]), n, page);
    es := [Stray(OPEN, [SEEN])] + page;
  }

  // ---- Writes and deltas ----

  /** The server once a transaction has written a version of the incident. */
  function Rewritten(server: Server, id: Id, status: string): Server {
    Server(server.clock + 1, server.rows[id := Incident(id, server.clock + 1, status, "")], map[], server.gone)
  }

  lemma WriteCommits(server: Server, id: Id, status: string)
    requires server.writers == map[] && id !in server.gone
    ensures var begun, now := server.(writers := map[id := Writer(server.clock, None)]), server.clock + 1;
            var writer := Writer(server.clock, Some(Incident(id, now, status, "")));
            var written := begun.(clock := now, writers := map[id := writer]);
            && CanDo(server, Begin(id, server.clock)) && Do(server, Begin(id, server.clock)) == begun
            && CanDo(begun, Write(id, status, "")) && Do(begun, Write(id, status, "")) == written
            && CanDo(written, Commit(id)) && Do(written, Commit(id)) == Rewritten(server, id, status)
  {
  }

  /** One transaction begins, writes and commits. */
  lemma Writes(s: Session, id: Id, status: string) returns (es: seq<Event>)
    requires s.feed.server.writers == map[] && id !in s.feed.server.gone
    ensures Legal(s, es) && Run(s, es) == s.(feed := s.feed.(server := Rewritten(s.feed.server, id, status)))
  {
    var server := s.feed.server;
    var begin, write, commit := Begin(id, server.clock), Write(id, status, ""), Commit(id);
    WriteCommits(server, id, status);
    var s1 := s.(feed := s.feed.(server := Do(server, begin)));
    var s2 := s.(feed := s.feed.(server := Do(s1.feed.server, write)));
    var s3 := s.(feed := s.feed.(server := Rewritten(server, id, status)));
    Follow(s2, ServerActs(commit), s3, []);
    Follow(s1, ServerActs(write), s2, [ServerActs(commit)] + []);
    Follow(s, ServerActs(begin), s1, [ServerActs(write)] + ([ServerActs(commit)] + []));
    es := [ServerActs(begin)] + ([ServerActs(write)] + ([ServerActs(commit)] + []));
  }

  /** A step of the poller that hands nothing over. */
  lemma FeedMoves(s: Session, step: Feeds.Event, f: Feeds.Feed)
    requires !s.poller.Absent? && !step.ServerActs? && Feeds.Enabled(s.feed, step) && f == Feeds.Next(s.feed, step)
    requires Delivered(s.feed, step) == []
    ensures Enabled(s, Poll(step)) && Next(s, Poll(step)) == s.(feed := f)
  {
  }

  lemma DeltaArrives(s: Session, x: Incident)
    requires s.poller.Steady? && s.feed.poll == Feeds.Answered(None, [x], None, x.updatedAt) && s.feed.handed == {}
    requires s.world.hook.incidents == [] && s.world.hook.live == map[] && s.world.hook.filter.Accepts(x)
    requires Feeds.Enabled(s.feed, Feeds.AnswerArrives)
    ensures var h := s.world.hook.(live := map[x.id := x.updatedAt], incidents := [x], loadedCount := 1);
            && Enabled(s, Poll(Feeds.AnswerArrives))
            && Next(s, Poll(Feeds.AnswerArrives)) ==
                 s.(feed := Feeds.Next(s.feed, Feeds.AnswerArrives), world := s.world.(hook := h))
  {
    OneIsDistinct(x);
    MergeOfOne(s.world.hook, s.world.hook.filter, x);
  }

  /** A poll of which the one page holds one row, stamped with the clock. */
  lemma DeltaOfOne(s: Session, x: Incident) returns (es: seq<Event>)
    requires s.load.Accepted? && s.poller.Steady? && s.feed.poll.Idle? && s.feed.handed == {}
    requires s.feed.server == OneRow(x, x.updatedAt) && s.feed.watermark < x.updatedAt
    requires s.world.hook.incidents == [] && s.world.hook.live == map[] && s.world.hook.filter.Accepts(x)
    ensures var h := s.world.hook.(live := map[x.id := x.updatedAt], incidents := [x], loadedCount := 1);
            && Legal(s, es)
            && Run(s, es) == s.(feed := s.feed.(watermark := x.updatedAt, handed := {x}), world := s.world.(hook := h))
  {
    var f := s.feed;
    var s1 := s.(feed := f.(poll := Feeds.Asked(None, None)));
    var s2 := s.(feed := f.(poll := Feeds.Bounded(None, None, x.updatedAt, x.updatedAt)));
    var s3 := s.(feed := f.(poll := Feeds.Answered(None, [x], None, x.updatedAt)));
    DeltaSteps(f, x);
    FeedMoves(s, Feeds.PollStarts, s1.feed);
    FeedMoves(s1, Feeds.BoundsRead(x.updatedAt), s2.feed);
    FeedMoves(s2, Feeds.RowsRead([x], None), s3.feed);
    DeltaArrives(s3, x);
    es := FourSteps(s, Poll(Feeds.PollStarts), s1, Poll(Feeds.BoundsRead(x.updatedAt)), s2,
                    Poll(Feeds.RowsRead([x], None)), s3,
                    Poll(Feeds.AnswerArrives), Next(s3, Poll(Feeds.AnswerArrives)));
  }

  lemma FourSteps(
    s: Session, a: Event, s1: Session, b: Event, s2: Session, c: Event, s3: Session, d: Event, s4: Session)
    returns (es: seq<Event>)
    requires Enabled(s, a) && Next(s, a) == s1 && Enabled(s1, b) && Next(s1, b) == s2
    requires Enabled(s2, c) && Next(s2, c) == s3 && Enabled(s3, d) && Next(s3, d) == s4
    ensures Legal(s, es) && Run(s, es) == s4
  {
    Follow(s3, d, s4, []);
    Follow(s2, c, s3, [d] + []);
    Follow(s1, b, s2, [c] + ([d] + []));
    Follow(s, a, s1, [b] + ([c] + ([d] + [])));
    es := [a] + ([b] + ([c] + ([d] + [])));
  }

  lemma DeltaSteps(f: Feeds.Feed, x: Incident)
    requires f.poll.Idle? && f.handed == {} && f.server == OneRow(x, x.updatedAt) && f.watermark < x.updatedAt
    ensures var f1 := f.(poll := Feeds.Asked(None, None));
            var f2 := f.(poll := Feeds.Bounded(None, None, x.updatedAt, x.updatedAt));
            var f3 := f.(poll := Feeds.Answered(None, [x], None, x.updatedAt));
            && Feeds.Enabled(f, Feeds.PollStarts) && Feeds.Next(f, Feeds.PollStarts) == f1
            && Feeds.Enabled(f1, Feeds.BoundsRead(x.updatedAt)) && Feeds.Next(f1, Feeds.BoundsRead(x.updatedAt)) == f2
            && Feeds.Enabled(f2, Feeds.RowsRead([x], None)) && Feeds.Next(f2, Feeds.RowsRead([x], None)) == f3
            && Feeds.Enabled(f3, Feeds.AnswerArrives)
            && Feeds.Next(f3, Feeds.AnswerArrives) == f.(watermark := x.updatedAt, handed := {x})
  {
    assert Changed(f.server, f.watermark, None, x.updatedAt, x);
    forall r | Changed(f.server, f.watermark, None, x.updatedAt, r) ensures r in [x] { assert r == x; }
    assert (set r | r in [x]) == {x};
  }

  lemma LoadEffect(s: Session, limit: nat) returns (n: Session)
    requires s.world.hook.filter == OPEN && limit > 0
    ensures Enabled(s, Reloads(OPEN, limit)) && n == Next(s, Reloads(OPEN, limit))
    ensures n == s.(world := n.world, load := Requested)
    ensures n.world.hook.filter == OPEN && n.world.hook.incidents == s.world.hook.incidents
    ensures n.world.hook.live == s.world.hook.live
    ensures |n.world.pages| == 1 && n.world.pages[0].epoch == n.world.hook.epoch && n.world.pages[0].limit > 0
  {
    n := Reloaded(s, OPEN, limit);
  }

  /** Mounted on an empty server, an incident opens and a delta lists it. */
  lemma SeenFromMounting(limit: nat) returns (es: seq<Event>, n: Session)
    requires limit > 0
    ensures var s := MountedSession(Server(0, map[], map[], {}), OPEN, limit); Legal(s, es) && Run(s, es) == n
    ensures n.feed == Feeds.Feed(OneRow(SEEN, 1), 0, 1, Feeds.Idle, [], [], {SEEN}) && n.load.Accepted?
    ensures n.poller.Steady?
    ensures n.world.hook.filter == OPEN && n.world.hook.incidents == [SEEN] && n.world.hook.live == map[1 := 1]
  {
    var s := MountedSession(Server(0, map[], map[], {}), OPEN, limit);
    MountedRequest(s.feed.server, limit);
    var page := EmptyPage(s);
    var s1 := Run(s, page);
    NothingKept(s.world.hook, 0);
    var write := Writes(s1, 1, "open");
    var s2 := Run(s1, write);
    RunBoth(s, page, write);
    var delta := DeltaOfOne(s2, SEEN);
    RunBoth(s, page + write, delta);
    es, n := page + write + delta, Run(s2, delta);
  }

  /**
   From mounting: an incident opens, a delta lists it, it is closed, and before the next delta a reload keeps it
   as a live row and moves the watermark past its change.
   */
  lemma ReloadStrands(limit: nat) returns (es: seq<Event>)
    requires limit > 0
    ensures var s := MountedSession(Server(0, map[], map[], {}), OPEN, limit);
            Legal(s, es) && Stranded(Run(s, es), SEEN, 2) && Run(s, es).feed.initial == 2
  {
    var s := MountedSession(Server(0, map[], map[], {}), OPEN, limit);
    var seen, s1 := SeenFromMounting(limit);
    var write := Writes(s1, 1, "closed");
    var s2 := Run(s1, write);
    RunBoth(s, seen, write);
    RunOn(s, seen + write, Reloads(OPEN, limit));
    var s3 := LoadEffect(s2, limit);
    ClosedServer(2);
    var page := KeptStrands(s3);
    var before := seen + write + [Reloads(OPEN, limit)];
    RunBoth(s, before, page);
    es := before + page;
  }

  // ---- An early "load more" ----

  lemma AskedEarly(h: Hook, cursor: Cursor)
    requires h == Reloading(OPEN, 50, [], map[], Some(cursor)) && cursor.at > 1
    ensures var s := At(OneRow(SEEN, 1), Waiting(h), Requested, Steady);
            var w := Waiting(h).(hook := MoreBegun(h), mores := [MoreRequestOf(h)]);
            var s1, s2 := s.(world := w), s.(world := w, more := Some(MoreAnswer([SEEN], None, true)));
            && Enabled(s, MoreAsks) && Next(s, MoreAsks) == s1
            && Enabled(s1, MoreRows(1, [SEEN], None)) && Next(s1, MoreRows(1, [SEEN], None)) == s2
  {
    var server := OneRow(SEEN, 1);
    forall r | Listed(server, OPEN, Some(cursor), 1, r) ensures r in [SEEN] { }
    assert ListPage(server, OPEN, Some(cursor), 1, 50, [SEEN], None);
  }

  lemma AddedAlone(h: Hook)
    requires h.filter == OPEN && h.incidents == [] && h.live == map[]
    ensures MoreAccepted(h, OPEN, [SEEN], None).incidents == [SEEN]
    ensures MoreAccepted(h, OPEN, [SEEN], None).loadedCount == 1
  {
    FreshOfOne(h.live, SEEN);
    assert [SEEN][1..] == [];
    InFilterOfOne(OPEN, SEEN);
    assert [] + [SEEN] == [SEEN];
    WindowOfOne(SEEN);
  }

  /** The change commits, the page arrives without rows, and the early answer brings the old version. */
  lemma LateChange(h: Hook, w: Runs.World, more: Option<MoreAnswer>) returns (es: seq<Event>)
    requires h.filter == OPEN && h.incidents == [] && h.live == map[] && w.hook == h
    requires |w.pages| == 1 && w.pages[0].epoch == h.epoch && w.pages[0].limit > 0
    requires |w.mores| == 1 && w.mores[0].epoch == h.epoch && w.mores[0].filter == OPEN
    requires more == Some(MoreAnswer([SEEN], None, true))
    ensures var s := Session(Feeds.Begun(OneRow(SEEN, 1), 0), w, Requested, more, {}, Steady);
            Legal(s, es) && Stranded(Run(s, es), SEEN, 2) && Run(s, es).feed.initial == 2
  {
    var s := Session(Feeds.Begun(OneRow(SEEN, 1), 0), w, Requested, more, {}, Steady);
    var change := Writes(s, 1, "closed");
    ClosedServer(2);
    var page := EmptyPage(Run(s, change));
    RunBoth(s, change, page);
    NothingKept(h, 2);
    var accepted := Run(s, change + page);
    RunOn(s, change + page, MoreArrives);
    AddedAlone(accepted.world.hook);
    MoreIsAdded(accepted);
    es := change + page + [MoreArrives];
    OneWrongRow(Run(s, es), SEEN);
  }

  lemma EarlyRun(server: Server, h: Hook, cursor: Cursor) returns (es: seq<Event>)
    requires server == OneRow(SEEN, 1) && h == Reloading(OPEN, 50, [], map[], Some(cursor)) && cursor.at > 1
    ensures var s := At(server, Waiting(h), Requested, Steady);
            Legal(s, es) && Stranded(Run(s, es), SEEN, 2) && Run(s, es).feed.initial == 2
  {
    var w := Waiting(h).(hook := MoreBegun(h), mores := [MoreRequestOf(h)]);
    AskedEarly(h, cursor);
    var s, more := At(server, Waiting(h), Requested, Steady), Some(MoreAnswer([SEEN], None, true));
    var rest := LateChange(w.hook, w, more);
    var rows := MoreRows(1, [SEEN], None);
    Follow(s.(world := w), rows, s.(world := w, more := more), rest);
    Follow(s, MoreAsks, s.(world := w), [rows] + rest);
    es := [MoreAsks] + ([rows] + rest);
  }

  lemma EarlyStart(server: Server, h: Hook, cursor: Cursor)
    requires server == OneRow(SEEN, 1) && h == Reloading(OPEN, 50, [], map[], Some(cursor))
    ensures Opening(At(server, Waiting(h), Requested, Steady))
  {
    MayOpen(server, h);
  }

  /** A "load more" sent between a reload and its page, with the old cursor, brings a version from before the page. */
  lemma EarlyMoreStrands(server: Server, h: Hook, cursor: Cursor) returns (es: seq<Event>)
    requires server == OneRow(SEEN, 1) && h == Reloading(OPEN, 50, [], map[], Some(cursor)) && cursor.at > 1
    ensures Opening(At(server, Waiting(h), Requested, Steady))
    ensures var s := At(server, Waiting(h), Requested, Steady);
            Legal(s, es) && Stranded(Run(s, es), SEEN, 2) && Run(s, es).feed.initial == 2
  {
    EarlyStart(server, h, cursor);
    es := EarlyRun(server, h, cursor);
  }

  /** Whatever the poller does from there, and whatever is written elsewhere, the stranded row stays. */
  lemma StrandedStays(s: Session, x: Incident, floor: Time, more: seq<Event>)
    requires Stranded(s, x, floor) && s.world.hook.filter.Only? && Legal(s, more)
    requires AllLeaveAlone(more, x.id, s.feed.initial, floor)
    requires forall e :: e in more ==> BringsNothing(e, s.world.hook.filter)
    ensures x in Run(s, more).world.hook.incidents && !Right(Run(s, more), x)
  {
    StaysForGood(s, more, x, floor);
  }

  // ---- Without a filter ----

  function Other(id: Id): Incident { Incident(id, id + 3, "open", "") }

  /** `n` other incidents, newest first. */
  function Others(n: nat): (r: seq<Incident>)
    ensures |r| == n && forall i :: 0 <= i < n ==> r[i] == Other(n + 1 - i)
  {
    if n == 0 then [] else [Other(n + 1)] + Others(n - 1)
  }

  function BusyRows(n: nat): (rows: map<Id, Incident>)
    ensures 1 in rows && rows[1] == CLOSED
    ensures forall id :: id in rows ==> 1 <= id < n + 2 && (id > 1 ==> rows[id] == Other(id))
    ensures forall id :: 1 < id < n + 2 ==> id in rows
  {
    if n == 0 then map[1 := CLOSED] else BusyRows(n - 1)[n + 1 := Other(n + 1)]
  }

  /** All of them newer than the incident that has been closed. */
  function Busy(n: nat): Server { Server(n + 5, BusyRows(n), map[], {}) }

  lemma InOthers(n: nat, x: Incident)
    ensures x in Others(n) <==> 2 <= x.id < n + 2 && x == Other(x.id)
  {
    if 2 <= x.id < n + 2 && x == Other(x.id) { assert Others(n)[n + 1 - x.id] == x; }
  }

  lemma NewestFirst(n: nat, s: seq<Incident>)
    requires n > 0 && IsRanked(s) && forall y :: y in s ==> y.id < n + 1 && y.updatedAt < n + 4
    ensures IsRanked([Other(n + 1)] + s)
  {
    assert ([Other(n + 1)] + s)[1..] == s;
  }

  lemma {:induction false} OthersRanked(n: nat)
    ensures IsRanked(Others(n) + [SEEN])
  {
    if n == 0 {
      assert Others(0) + [SEEN] == [SEEN] && [SEEN][1..] == [];
    } else {
      var rest := Others(n - 1) + [SEEN];
      OthersRanked(n - 1);
      forall y | y in rest ensures y.id < n + 1 && y.updatedAt < n + 4 {
        if y in Others(n - 1) { InOthers(n - 1, y); }
      }
      NewestFirst(n, rest);
      assert Others(n) + [SEEN] == [Other(n + 1)] + rest;
    }
  }

  lemma BusyOk(n: nat)
    ensures ServerOk(Busy(n)) && Known(Busy(n), SEEN) && Sound(Busy(n), 0, SEEN) && Busy(n).rows[1] == CLOSED
    ensures forall x :: x in Others(n) <==> Current(Busy(n), x) && x.id != 1
  {
    forall x ensures x in Others(n) <==> Current(Busy(n), x) && x.id != 1 { InOthers(n, x); }
  }

  lemma OthersNewest(n: nat)
    ensures Newest(Others(n))
  {
    var data := Others(n);
    forall i, j | 0 <= i < j < n ensures Before(data[j], KeyOf(data[i])) {
      assert data[i] == Other(n + 1 - i) && data[j] == Other(n + 1 - j);
    }
  }

  lemma BusyPage(n: nat)
    requires n > 0
    ensures ListPage(Busy(n), All, None, n + 5, n, Others(n), Some(KeyOf(Others(n)[n - 1])))
  {
    var data := Others(n);
    BusyOk(n);
    OthersNewest(n);
    forall c, x | Listed(Busy(n), All, None, n + 5, c) && c !in data && x in data ensures Before(c, KeyOf(x)) {
      InOthers(n, x);
    }
    forall x | x in data ensures Listed(Busy(n), All, None, n + 5, x) { InOthers(n, x); }
  }

  lemma {:induction false} KeepAll(items: seq<Incident>, p: Incident -> bool)
    requires forall x :: x in items ==> p(x)
    ensures Keep(items, p) == items
  {
    if items != [] { KeepAll(items[1..], p); }
  }

  /** The page of the others keeps the closed incident as it was, behind them. */
  lemma KeptBehind(h: Hook, n: nat, next: Option<Cursor>)
    requires h.filter == All && h.incidents == [SEEN] && h.live == map[1 := 1] && n < MAX_RETAINED_INCIDENTS
    ensures PageAccepted(h, Others(n), next, Some(n + 5)).incidents == Others(n) + [SEEN]
  {
    forall x | x in Others(n) ensures NotOlder(h.live, x) && x.id != 1 { InOthers(n, x); }
    KeepAll(Others(n), (x: Incident) => NotOlder(h.live, x));
    PreservedOfOne(h.live, All, SEEN, Others(n));
    OthersRanked(n);
    RankedFixed(Others(n) + [SEEN]);
  }

  /** A load of one page: its bounds at the clock, its rows, its arrival. */
  lemma OnePage(s: Session, data: seq<Incident>, next: Option<Cursor>) returns (es: seq<Event>)
    requires s.feed.server.writers == map[] && s.load.Requested? && |s.world.pages| == 1
    requires ListPage(s.feed.server, s.world.hook.filter, None, s.feed.server.clock, s.world.pages[0].limit, data, next)
    ensures var answered := s.(load := Answered(data, next, s.feed.server.clock));
            Enabled(answered, LoadArrives) && Legal(s, es) && Run(s, es) == Next(answered, LoadArrives)
  {
    var mark := s.feed.server.clock;
    var s1, s2 := s.(load := Bounded(mark, mark)), s.(load := Answered(data, next, mark));
    assert IsWatermark(s.feed.server, mark);
    assert Enabled(s, LoadBounds(mark)) && Next(s, LoadBounds(mark)) == s1;
    assert Enabled(s1, LoadRows(data, next)) && Next(s1, LoadRows(data, next)) == s2;
    Follow(s2, LoadArrives, Next(s2, LoadArrives), []);
    Follow(s1, LoadRows(data, next), s2, [LoadArrives] + []);
    Follow(s, LoadBounds(mark), s1, [LoadRows(data, next)] + ([LoadArrives] + []));
    es := [LoadBounds(mark)] + ([LoadRows(data, next)] + ([LoadArrives] + []));
  }

  lemma BehindIsStranded(s: Session, n: nat)
    requires s.load.Accepted? && s.feed == Feeds.Begun(Busy(n), n + 5) && s.world.hook.filter == All
    requires s.world.hook.incidents == Others(n) + [SEEN] && Runs.WellShaped(s.world.hook)
    ensures Stranded(s, SEEN, n + 5)
  {
    BusyOk(n);
    assert s.world.hook.incidents[n] == SEEN && !Right(s, SEEN);
  }

  lemma CutStart(server: Server, h: Hook, limit: nat)
    requires 0 < limit && server == Busy(limit) && h == Reloading(All, limit, [SEEN], map[1 := 1], None)
    ensures Opening(At(server, Waiting(h), Requested, Steady))
  {
    BusyOk(limit);
    assert LiveKnown(server, h);
    MayOpen(server, h);
  }

  lemma CutRun(s: Session, limit: nat) returns (es: seq<Event>)
    requires 0 < limit < MAX_RETAINED_INCIDENTS && s.feed == Feeds.Begun(Busy(limit), 0) && s.load.Requested?
    requires s.world.hook.filter == All && s.world.hook.incidents == [SEEN] && s.world.hook.live == map[1 := 1]
    requires |s.world.pages| == 1 && s.world.pages[0].epoch == s.world.hook.epoch && s.world.pages[0].limit == limit
    ensures Legal(s, es) && Stranded(Run(s, es), SEEN, limit + 5) && Run(s, es).feed.initial == limit + 5
  {
    var data := Others(limit);
    var next := Some(KeyOf(data[limit - 1]));
    BusyPage(limit);
    es := OnePage(s, data, next);
    PageArrivesAt(s.(load := Answered(data, next, limit + 5)));
    KeptBehind(s.world.hook, limit, next);
    PageShape(s.world.hook, data, next, Some(limit + 5));
    BehindIsStranded(Run(s, es), limit);
  }

  lemma PageArrivesAt(s: Session)
    requires Enabled(s, LoadArrives) && s.world.pages[0].epoch == s.world.hook.epoch && !KeepsPolling(s)
    ensures var n := Next(s, LoadArrives);
            && n.load.Accepted? && n.feed == Feeds.Begun(s.feed.server, s.load.mark)
            && n.world.hook == PageAccepted(s.world.hook, s.load.data, s.load.next, Some(s.load.mark))
  {
  }

  /** Without a filter a page cut by its limit does the same, whatever the limit below the size of the list. */
  lemma CutReloadStrands(server: Server, h: Hook, limit: nat) returns (es: seq<Event>)
    requires 0 < limit < MAX_RETAINED_INCIDENTS
    requires server == Busy(limit) && h == Reloading(All, limit, [SEEN], map[1 := 1], None)
    ensures Opening(At(server, Waiting(h), Requested, Steady))
    ensures var s := At(server, Waiting(h), Requested, Steady);
            Legal(s, es) && Stranded(Run(s, es), SEEN, limit + 5) && Run(s, es).feed.initial == limit + 5
  {
    CutStart(server, h, limit);
    es := CutRun(At(server, Waiting(h), Requested, Steady), limit);
  }

  // ---- Versions within a session ----

  /** A delta delayed behind a page lowers the listed version until the next one. */
  lemma DelayedDeltaLowers(h: Hook)
    requires h.filter == All && h.incidents == [CLOSED] && h.live == map[]
    ensures ChangesMerged(h, All, [SEEN]).incidents == [SEEN]
    ensures !NoOlderChange(h, All, [SEEN]) && !NeverLowers(h, All, [SEEN])
  {
    FreshOfOne(h.live, SEEN);
    assert [SEEN][1..] == [] && [CLOSED][1..] == [];
    assert Mentions([SEEN], 1) by { assert SEEN in [SEEN]; }
    KeepOfOne(CLOSED, (y: Incident) => !Mentions([SEEN], y.id));
    assert CLOSED !in Unmentioned([SEEN], [CLOSED]);
    InFilterOfOne(All, SEEN);
    assert [] + [SEEN] == [SEEN];
    WindowOfOne(SEEN);
    assert CLOSED in h.incidents && SEEN in [SEEN];
    assert IsOlderChange(h, All, [SEEN], SEEN);
  }
}
