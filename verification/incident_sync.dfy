/** The list, the change poller and the server together (dashboard/src/views/IncidentsView.jsx:685-690). */
module IncidentSync {
  import opened Incidents
  import opened RankedWindow
  import opened UseIncidents
  import opened IncidentsServer
  import Runs = IncidentRuns
  import Feeds = ChangeFeed

  /** The page load that opens the session; its bounds are read before its rows. */
  datatype Load =
    | Requested
    | Bounded(cutoff: Time, mark: Time)
    | Answered(data: seq<Incident>, next: Option<Cursor>, mark: Time)
    | Accepted

  /** `early`: the rows were read before the bounds of the session's page. */
  datatype MoreAnswer = MoreAnswer(data: seq<Incident>, next: Option<Cursor>, early: bool)

  /**
   Whether the poller has been started, and during a reload whether every listed row still fits it: a row
   from outside, or a further page of the new epoch, shakes that.
   */
  datatype Poller = Absent | Steady | Shaken

  /**
   The list from a load on, with every answer in flight for as long as the run likes.
   `direct` holds the answers to single-incident requests (`ensureIncident`) of the session still in flight.
   */
  datatype Session = Session(
    feed: Feeds.Feed,
    world: Runs.World,
    load: Load,
    more: Option<MoreAnswer>,
    direct: set<Incident>,
    poller: Poller)

  /**
   `Reloads` is a run of the load effect, with any filter and limit; the poller goes on meanwhile. `Stray` is a
   merge from outside the session: a page of a poller of an earlier session, a direct answer fetched before
   it, or either through a callback that closes over another filter.
   */
  datatype Event =
    | ServerActs(act: Act)
    | Reloads(filter: Filter, limit: nat)
    | LoadBounds(mark: Time)
    | LoadRows(data: seq<Incident>, next: Option<Cursor>)
    | LoadArrives
    | MoreAsks
    | MoreRows(cutoff: Time, data: seq<Incident>, next: Option<Cursor>)
    | MoreArrives
    | MoreFails(message: string)
    | Poll(step: Feeds.Event)
    | DirectReads(id: Id)
    | DirectArrives(item: Incident)
    | Stray(accepts: Filter, batch: seq<Incident>)

  ghost predicate Enabled(s: Session, e: Event) {
    var server, h := s.feed.server, s.world.hook;
    match e
    case ServerActs(a) => CanDo(server, a)
    case Reloads(_, _) => true
    case LoadBounds(mark) => s.load.Requested? && IsWatermark(server, mark)
    case LoadRows(data, next) =>
      s.load.Bounded? && |s.world.pages| == 1
      && ListPage(server, h.filter, None, s.load.cutoff, s.world.pages[0].limit, data, next)
    case LoadArrives => s.load.Answered? && |s.world.pages| == 1
    case MoreAsks => CanLoadMore(h)
    case MoreRows(cutoff, data, next) =>
      |s.world.mores| == 1 && s.more.None? && cutoff <= server.clock
      && var r := s.world.mores[0]; ListPage(server, r.filter, Some(r.cursor), cutoff, r.limit, data, next)
    case MoreArrives => |s.world.mores| == 1 && s.more.Some?
    case MoreFails(_) => |s.world.mores| == 1
    case Poll(step) =>
      && !s.poller.Absent? && !step.ServerActs?
      && Feeds.Enabled(s.feed, step) && DistinctIds(Delivered(s.feed, step))
    case DirectReads(id) => !s.poller.Absent? && id in server.rows
    case DirectArrives(item) => item in s.direct
    case Stray(_, batch) => DistinctIds(batch) && forall x :: x in batch ==> Known(server, x)
  }

  /** The rows a step of the poller hands to the list. */
  function Delivered(f: Feeds.Feed, step: Feeds.Event): seq<Incident> {
    match step
    case AnswerArrives => if f.poll.Answered? then f.poll.data else []
    case LateArrives(k) => if k < |f.late| then f.late[k] else []
    case _ => []
  }

  ghost function MergedWorld(w: Runs.World, data: seq<Incident>): Runs.World
    requires DistinctIds(data)
  {
    if data == [] then w else Runs.Next(w, Runs.Changes(w.hook.filter, data))
  }

  /** The load effect runs; the answers of earlier page requests, which then do nothing, are dropped. */
  function Reloaded(s: Session, filter: Filter, limit: nat): Session {
    var w := Runs.Next(s.world, Runs.Load(filter, limit));
    s.(world := w.(pages := w.pages[|w.pages| - 1..]), load := Requested)
  }

  /** The page carries the watermark the running poller started from, so the effect does not start it anew. */
  predicate KeepsPolling(s: Session) {
    !s.poller.Absent? && s.load.Answered? && s.load.mark == s.feed.initial
  }

  /** The page is accepted. A poller started anew leaves what the old one had in flight outside the session. */
  function Arrived(s: Session): Session
    requires s.load.Answered? && |s.world.pages| == 1
  {
    var page := Runs.PageArrives(0, false, s.load.data, s.load.next, Some(s.load.mark));
    var n := s.(world := Runs.Next(s.world, page), load := Accepted, poller := Steady);
    if KeepsPolling(s) then n else n.(feed := Feeds.Begun(s.feed.server, s.load.mark), direct := {})
  }

  function ShakenBy(s: Session, outside: bool): Poller {
    if outside && !s.load.Accepted? && s.poller.Steady? then Shaken else s.poller
  }

  ghost function Next(s: Session, e: Event): Session
    requires Enabled(s, e)
  {
    var server, h := s.feed.server, s.world.hook;
    match e
    case ServerActs(a) => s.(feed := Feeds.Next(s.feed, Feeds.ServerActs(a)))
    case Reloads(filter, limit) => Reloaded(s, filter, limit)
    case LoadBounds(mark) => s.(load := Bounded(server.clock, mark))
    case LoadRows(data, next) => s.(load := Answered(data, next, s.load.mark))
    case LoadArrives => Arrived(s)
    case MoreAsks => s.(world := Runs.Next(s.world, Runs.LoadMore), more := None)
    case MoreRows(_, data, next) => s.(more := Some(MoreAnswer(data, next, s.load.Requested?)))
    case MoreArrives =>
      s.(world := Runs.Next(s.world, Runs.MoreArrives(0, s.more.value.data, s.more.value.next)), more := None,
         poller := ShakenBy(s, s.world.mores[0].epoch == h.epoch))
    case MoreFails(message) => s.(world := Runs.Next(s.world, Runs.MoreFails(0, message)), more := None)
    case Poll(step) => s.(feed := Feeds.Next(s.feed, step), world := MergedWorld(s.world, Delivered(s.feed, step)))
    case DirectReads(id) => s.(direct := s.direct + {server.rows[id]})
    case DirectArrives(item) =>
      s.(world := Runs.Next(s.world, Runs.Changes(h.filter, [item])), direct := s.direct - {item})
    case Stray(accepts, batch) =>
      s.(world := Runs.Next(s.world, Runs.Changes(accepts, batch)), poller := ShakenBy(s, true))
  }

  ghost predicate Legal(s: Session, es: seq<Event>)
    decreases es
  {
    es == [] || (Enabled(s, es[0]) && Legal(Next(s, es[0]), es[1..]))
  }

  ghost function Run(s: Session, es: seq<Event>): Session
    requires Legal(s, es)
    decreases es
  {
    if es == [] then s else Run(Next(s, es[0]), es[1..])
  }

  // ---- What the client can check ----

  /** Every kept row the page does not mention is at least as new as the new watermark. */
  ghost predicate CleanRefresh(h: Hook, data: seq<Incident>, mark: Time) {
    forall p :: p in Preserved(h.live, h.filter, h.incidents, data)
                && p in UniqueById(Fresh(h.live, data) + Preserved(h.live, h.filter, h.incidents, data))
                && Find(data, p.id).None?
      ==> p.updatedAt >= mark
  }

  /** A clean refresh, or an unfiltered page that was not cut by its limit. */
  ghost predicate RefreshOk(h: Hook, data: seq<Incident>, next: Option<Cursor>, mark: Time) {
    CleanRefresh(h, data, mark) || (h.filter == All && next.None?)
  }

  /** A row from outside that would enter the list by a merge. */
  predicate RowOk(h: Hook, origin: Time, x: Incident) {
    match Find(h.incidents, x.id)
    case None =>
      x.updatedAt >= origin
      && (h.filter.Accepts(x) || (x.updatedAt > origin && (x.id !in h.live || h.live[x.id] < x.updatedAt)))
    case Some(y) => !(x.updatedAt < y.updatedAt <= origin && h.filter.Accepts(y))
  }

  ghost predicate MergeOk(h: Hook, origin: Time, accepts: Filter, batch: seq<Incident>) {
    forall x :: x in batch && x in ChangesMerged(h, accepts, batch).incidents && x !in h.incidents ==>
      RowOk(h, origin, x)
  }

  ghost predicate MoreOk(h: Hook, origin: Time, filter: Filter, data: seq<Incident>, next: Option<Cursor>) {
    forall x ::
      && x in data && x in MoreAccepted(h, filter, data, next).incidents
      && x !in h.incidents && Find(h.incidents, x.id).None?
      ==> x.updatedAt >= origin
  }

  /** What an event from outside the session has to satisfy; events of the session are always careful. */
  ghost predicate Careful(s: Session, e: Event) {
    var h := s.world.hook;
    match e
    case LoadArrives =>
      s.load.Answered? ==> RefreshOk(h, s.load.data, s.load.next, s.load.mark) || (KeepsPolling(s) && s.poller.Steady?)
    case MoreArrives =>
      && s.load.Accepted? && |s.world.mores| == 1 && s.more.Some? && s.more.value.early
      && s.world.mores[0].epoch == h.epoch ==>
        MoreOk(h, s.feed.initial, s.world.mores[0].filter, s.more.value.data, s.more.value.next)
    case Stray(accepts, batch) => s.load.Accepted? ==> MergeOk(h, s.feed.initial, accepts, batch)
    case _ => true
  }

  ghost predicate CarefulRun(s: Session, es: seq<Event>)
    requires Legal(s, es)
    decreases es
  {
    es == [] || (Careful(s, es[0]) && CarefulRun(Next(s, es[0]), es[1..]))
  }

  // ---- Versions and the session's origin ----

  /** `x` is current or deleted, or the change that replaced it is later than the session's origin. */
  ghost predicate Sound(server: Server, origin: Time, x: Incident) {
    && Known(server, x)
    && (x.id in server.gone || Current(server, x) || server.rows[x.id].updatedAt > origin)
  }

  ghost predicate AllSound(server: Server, origin: Time, items: seq<Incident>) {
    forall x :: x in items ==> Sound(server, origin, x)
  }

  /** The current version of the incident is still to be handed over, unless the incident is deleted. */
  ghost predicate Due(f: Feeds.Feed, id: Id) {
    || id in f.server.gone
    || (id in f.server.rows && f.server.rows[id].updatedAt > f.initial && f.server.rows[id] !in f.handed)
  }

  ghost predicate LiveKnown(server: Server, h: Hook) {
    forall id :: id in h.live ==> id in server.gone || (id in server.rows && h.live[id] <= server.rows[id].updatedAt)
  }

  ghost predicate AllKnown(server: Server, items: seq<Incident>) {
    forall x :: x in items ==> Known(server, x)
  }

  lemma SoundLasts(server: Server, a: Act, origin: Time)
    requires ServerOk(server) && CanDo(server, a)
    ensures Closed(server, origin) ==> forall x :: Sound(server, origin, x) ==> Sound(Do(server, a), origin, x)
  {
    KnownLasts(server, a);
  }

  lemma DueLasts(f: Feeds.Feed, a: Act)
    requires Feeds.FeedInv(f) && CanDo(f.server, a)
    ensures forall id :: Due(f, id) ==> Due(f.(server := Do(f.server, a)), id)
  {
  }

  lemma LiveKnownLasts(server: Server, a: Act, h: Hook)
    requires ServerOk(server) && CanDo(server, a) && LiveKnown(server, h)
    ensures LiveKnown(Do(server, a), h)
  {
  }

  // ---- The invariant ----

  /** Where the session's deltas begin: the bound of its page. */
  function Origin(s: Session): Time
    requires !s.load.Requested?
  {
    if s.load.Accepted? then s.feed.initial else s.load.mark
  }

  /** An answer to "load more" holds versions the rows have had; one that is not early holds sound ones. */
  ghost predicate MoreInv(s: Session) {
    s.more.Some? ==>
      && AllKnown(s.feed.server, s.more.value.data)
      && (|s.world.mores| == 1 && s.world.mores[0].epoch == s.world.hook.epoch && !s.more.value.early ==>
            !s.load.Requested? && AllSound(s.feed.server, Origin(s), s.more.value.data))
  }

  /** A listed row is sound, and in the filter unless a change of it is due. */
  ghost predicate RowFits(f: Feeds.Feed, filter: Filter, x: Incident) {
    Sound(f.server, f.initial, x) && (filter.Accepts(x) || Due(f, x.id))
  }

  ghost predicate ListFits(f: Feeds.Feed, h: Hook) {
    LiveKnown(f.server, h) && forall x :: x in h.incidents ==> RowFits(f, h.filter, x)
  }

  ghost predicate ListInv(s: Session) { ListFits(s.feed, s.world.hook) }

  ghost predicate Flying(f: Feeds.Feed, direct: set<Incident>) {
    && (f.poll.Answered? ==> AllSound(f.server, f.initial, f.poll.data))
    && (forall data :: data in f.late ==> AllSound(f.server, f.initial, data))
    && (forall x :: x in direct ==> Sound(f.server, f.initial, x))
  }

  ghost predicate FlightInv(s: Session) { Flying(s.feed, s.direct) }

  /** Whatever the poller has handed over is recorded in the live map, at that version or a newer one. */
  ghost predicate RecordedIn(handed: set<Incident>, h: Hook) {
    forall r :: r in handed ==> r.id in h.live && h.live[r.id] >= r.updatedAt
  }

  ghost predicate Recorded(s: Session) { RecordedIn(s.feed.handed, s.world.hook) }

  /** What the running poller has handed over is recorded, and what it has in flight is sound for it. */
  ghost predicate PollerInv(f: Feeds.Feed, h: Hook, direct: set<Incident>) {
    Feeds.FeedInv(f) && RecordedIn(f.handed, h) && Flying(f, direct)
  }

  /** During a load: no poller yet, or one that goes on; if nothing has shaken it, every listed row is sound for it. */
  ghost predicate MeanwhileInv(s: Session) {
    if s.poller.Absent? then s.direct == {}
    else
      && PollerInv(s.feed, s.world.hook, s.direct)
      && (s.poller.Steady? ==> AllSound(s.feed.server, s.feed.initial, s.world.hook.incidents))
  }

  ghost predicate LoadingInv(s: Session) {
    && ServerOk(s.feed.server) && MeanwhileInv(s)
    && |s.world.pages| == 1 && s.world.pages[0].epoch == s.world.hook.epoch
    && Runs.Inv(s.world) && MoreInv(s)
    && LiveKnown(s.feed.server, s.world.hook) && AllKnown(s.feed.server, s.world.hook.incidents)
    && PageInv(s)
  }

  /** A page without a cursor has left out nothing of the filter up to its bound. */
  ghost predicate PageInv(s: Session) {
    match s.load
    case Requested => true
    case Bounded(cutoff, mark) => Closed(s.feed.server, mark) && mark <= cutoff
    case Answered(data, next, mark) =>
      && Closed(s.feed.server, mark) && AllSound(s.feed.server, mark, data)
      && (forall x :: x in data ==> s.world.hook.filter.Accepts(x))
      && (next.None? ==>
            forall r :: Current(s.feed.server, r) && r.updatedAt <= mark && s.world.hook.filter.Accepts(r) ==>
              r in data)
    case Accepted => false
  }

  /** Mounted or about to reload, with no further page of the new epoch asked for yet. */
  ghost predicate Opening(s: Session) {
    LoadingInv(s) && s.load.Requested? && forall r :: r in s.world.mores ==> r.epoch != s.world.hook.epoch
  }

  ghost predicate SessionInv(s: Session) {
    && s.load.Accepted? && s.poller.Steady? && s.world.pages == []
    && Feeds.FeedInv(s.feed) && Runs.Inv(s.world)
    && ListInv(s) && FlightInv(s) && MoreInv(s) && Recorded(s)
  }

  ghost predicate Inv(s: Session) {
    if s.load.Accepted? then SessionInv(s) else LoadingInv(s)
  }

  // ---- The server moves ----

  lemma PageLasts(s: Session, a: Act)
    requires LoadingInv(s) && CanDo(s.feed.server, a)
    ensures PageInv(Next(s, ServerActs(a)))
  {
    match s.load
    case Requested =>
    case Bounded(_, mark) => StaysClosed(s.feed.server, a, mark);
    case Answered(_, _, mark) =>
      StaysClosed(s.feed.server, a, mark);
      SoundLasts(s.feed.server, a, mark);
    case Accepted =>
  }

  lemma MoreLasts(s: Session, a: Act)
    requires Inv(s) && CanDo(s.feed.server, a)
    ensures MoreInv(Next(s, ServerActs(a)))
  {
    KnownLasts(s.feed.server, a);
    if !s.load.Requested? { SoundLasts(s.feed.server, a, Origin(s)); }
  }

  lemma MeanwhileLasts(s: Session, a: Act)
    requires ServerOk(s.feed.server) && MeanwhileInv(s) && CanDo(s.feed.server, a)
    ensures MeanwhileInv(Next(s, ServerActs(a)))
  {
    if !s.poller.Absent? {
      Feeds.FeedStep(s.feed, Feeds.ServerActs(a));
      SoundLasts(s.feed.server, a, s.feed.initial);
    }
  }

  lemma ServerLoading(s: Session, a: Act)
    requires LoadingInv(s) && CanDo(s.feed.server, a)
    ensures LoadingInv(Next(s, ServerActs(a)))
  {
    MeanwhileLasts(s, a);
    ServerStaysOk(s.feed.server, a);
    KnownLasts(s.feed.server, a);
    LiveKnownLasts(s.feed.server, a, s.world.hook);
    PageLasts(s, a);
    MoreLasts(s, a);
  }

  lemma ServerInSession(s: Session, a: Act)
    requires SessionInv(s) && CanDo(s.feed.server, a)
    ensures SessionInv(Next(s, ServerActs(a)))
  {
    Feeds.FeedStep(s.feed, Feeds.ServerActs(a));
    SoundLasts(s.feed.server, a, s.feed.initial);
    DueLasts(s.feed, a);
    LiveKnownLasts(s.feed.server, a, s.world.hook);
    MoreLasts(s, a);
  }

  // ---- Loading ----

  lemma RowsAreComplete(server: Server, filter: Filter, cutoff: Time, mark: Time, limit: nat,
                        data: seq<Incident>, next: Option<Cursor>)
    requires ListPage(server, filter, None, cutoff, limit, data, next) && mark <= cutoff
    ensures forall x :: x in data ==> Current(server, x) && filter.Accepts(x)
    ensures next.None? ==> forall r :: Current(server, r) && r.updatedAt <= mark && filter.Accepts(r) ==> r in data
  {
    forall r | next.None? && Current(server, r) && r.updatedAt <= mark && filter.Accepts(r) ensures r in data {
      assert Listed(server, filter, None, cutoff, r);
    }
    forall x | x in data ensures Current(server, x) && filter.Accepts(x) {
      assert Listed(server, filter, None, cutoff, x);
    }
  }

  lemma BoundsStep(s: Session, mark: Time)
    requires LoadingInv(s) && Enabled(s, LoadBounds(mark))
    ensures LoadingInv(Next(s, LoadBounds(mark)))
  {
    WatermarkCloses(s.feed.server, mark);
  }

  lemma RowsStep(s: Session, data: seq<Incident>, next: Option<Cursor>)
    requires LoadingInv(s) && Enabled(s, LoadRows(data, next))
    ensures LoadingInv(Next(s, LoadRows(data, next)))
  {
    RowsAreComplete(s.feed.server, s.world.hook.filter, s.load.cutoff, s.load.mark, s.world.pages[0].limit, data, next);
  }

  lemma KeptIsSound(server: Server, h: Hook, data: seq<Incident>, next: Option<Cursor>, mark: Time, p: Incident)
    requires ServerOk(server) && AllSound(server, mark, data) && Known(server, p)
    requires next.None? ==> forall r :: Current(server, r) && r.updatedAt <= mark && h.filter.Accepts(r) ==> r in data
    requires Survives(h.live, h.filter, data, p)
    requires Find(data, p.id).None? ==> p.updatedAt >= mark || (h.filter == All && next.None?)
    ensures Sound(server, mark, p)
  {
    var fetched := Find(data, p.id);
    if fetched.Some? {
      assert Sound(server, mark, fetched.value);
    } else if p.id !in server.gone {
      var r := server.rows[p.id];
      assert Current(server, r) && r.id == p.id && r !in data;
    }
  }

  lemma ArrivalIsPage(s: Session)
    requires LoadingInv(s) && Enabled(s, LoadArrives)
    ensures var n := Next(s, LoadArrives);
            && n.load.Accepted? && n.more == s.more && n.poller.Steady?
            && n.world.hook == PageAccepted(s.world.hook, s.load.data, s.load.next, Some(s.load.mark))
            && n.feed.server == s.feed.server && n.feed.initial == s.load.mark
            && (KeepsPolling(s) ==> n.feed == s.feed && n.direct == s.direct)
            && (!KeepsPolling(s) ==> n.feed == Feeds.Begun(s.feed.server, s.load.mark) && n.direct == {})
  {
  }

  /** A row that a refresh keeps is sound for the page. */
  lemma SurvivorIsSound(s: Session, p: Incident)
    requires LoadingInv(s) && s.load.Answered? && Careful(s, LoadArrives)
    requires var h, data := s.world.hook, s.load.data;
             && p in Preserved(h.live, h.filter, h.incidents, data)
             && p in UniqueById(Fresh(h.live, data) + Preserved(h.live, h.filter, h.incidents, data))
    ensures Sound(s.feed.server, s.load.mark, p)
  {
    var h := s.world.hook;
    if RefreshOk(h, s.load.data, s.load.next, s.load.mark) {
      KeptIsSound(s.feed.server, h, s.load.data, s.load.next, s.load.mark, p);
    }
  }

  lemma ArrivalIsSound(s: Session)
    requires LoadingInv(s) && Enabled(s, LoadArrives) && Careful(s, LoadArrives)
    ensures ListInv(Next(s, LoadArrives))
  {
    var server, h, data, mark := s.feed.server, s.world.hook, s.load.data, s.load.mark;
    var valid, preserved := Fresh(h.live, data), Preserved(h.live, h.filter, h.incidents, data);
    ArrivalIsPage(s);
    WindowShape(valid + preserved);
    forall x | x in UniqueById(valid + preserved) ensures Sound(server, mark, x) && h.filter.Accepts(x) {
      if x !in valid { SurvivorIsSound(s, x); }
    }
  }

  lemma ArrivalKeepsRuns(s: Session)
    requires LoadingInv(s) && Enabled(s, LoadArrives)
    ensures var w := Next(s, LoadArrives).world;
            Runs.Inv(w) && w.pages == [] && w.mores == s.world.mores && w.hook.epoch == s.world.hook.epoch
  {
    var r := Runs.PageArrives(0, false, s.load.data, s.load.next, Some(s.load.mark));
    Runs.StepKeepsLists(s.world, r);
    Runs.StepKeepsFlights(s.world, r);
  }

  lemma FreshFeed(server: Server, mark: Time)
    requires ServerOk(server) && Closed(server, mark)
    ensures Feeds.FeedInv(Feeds.Begun(server, mark)) && Flying(Feeds.Begun(server, mark), {})
  {
  }

  /** The poller after the page: the one that goes on, or a new one. */
  lemma PollerAfterPage(s: Session)
    requires LoadingInv(s) && Enabled(s, LoadArrives)
    ensures var n := Next(s, LoadArrives); PollerInv(n.feed, n.world.hook, n.direct)
  {
    ArrivalIsPage(s);
    FreshFeed(s.feed.server, s.load.mark);
  }

  lemma MoreAcross(s: Session, n: Session)
    requires MoreInv(s) && s.load.Answered? && n.load.Accepted? && n.more == s.more && n.feed.server == s.feed.server
    requires n.feed.initial == s.load.mark && n.world.mores == s.world.mores && n.world.hook.epoch == s.world.hook.epoch
    ensures MoreInv(n)
  {
  }

  lemma ArrivesStep(s: Session)
    requires LoadingInv(s) && Enabled(s, LoadArrives) && Careful(s, LoadArrives)
    ensures SessionInv(Next(s, LoadArrives))
  {
    ArrivalIsPage(s);
    ArrivalIsSound(s);
    ArrivalKeepsRuns(s);
    PollerAfterPage(s);
    ArrivalTogether(s, Next(s, LoadArrives));
  }

  lemma ArrivalTogether(s: Session, n: Session)
    requires MoreInv(s) && s.load.Answered? && n.load.Accepted? && n.poller.Steady? && n.more == s.more
    requires n.feed.server == s.feed.server && n.feed.initial == s.load.mark
    requires Runs.Inv(n.world) && n.world.pages == [] && n.world.mores == s.world.mores
    requires n.world.hook.epoch == s.world.hook.epoch && ListInv(n) && PollerInv(n.feed, n.world.hook, n.direct)
    ensures SessionInv(n)
  {
    MoreAcross(s, n);
    Together(n);
  }

  // ---- Reloading ----

  lemma SessionIsKnown(s: Session)
    requires SessionInv(s)
    ensures ServerOk(s.feed.server) && MeanwhileInv(s)
    ensures LiveKnown(s.feed.server, s.world.hook) && AllKnown(s.feed.server, s.world.hook.incidents)
  {
    forall x | x in s.world.hook.incidents ensures Sound(s.feed.server, s.feed.initial, x) {
      assert RowFits(s.feed, s.world.hook.filter, x);
    }
  }

  lemma ReloadedRuns(s: Session, filter: Filter, limit: nat)
    requires Runs.Inv(s.world)
    ensures var w := Reloaded(s, filter, limit).world;
            && Runs.Inv(w) && |w.pages| == 1 && w.pages[0].epoch == w.hook.epoch && w.mores == s.world.mores
            && w.hook.incidents == s.world.hook.incidents && w.hook.live == s.world.hook.live
            && forall r :: r in w.mores ==> r.epoch != w.hook.epoch
  {
    var load := Runs.Load(filter, limit);
    Runs.StepKeepsLists(s.world, load);
    Runs.StepKeepsFlights(s.world, load);
  }

  lemma ReloadedTogether(s: Session, n: Session)
    requires ServerOk(s.feed.server) && MeanwhileInv(s) && MoreInv(s)
    requires LiveKnown(s.feed.server, s.world.hook) && AllKnown(s.feed.server, s.world.hook.incidents)
    requires n == s.(world := n.world, load := Requested) && n.world.mores == s.world.mores
    requires n.world.hook.incidents == s.world.hook.incidents && n.world.hook.live == s.world.hook.live
    requires Runs.Inv(n.world) && |n.world.pages| == 1 && n.world.pages[0].epoch == n.world.hook.epoch
    requires forall r :: r in n.world.mores ==> r.epoch != n.world.hook.epoch
    ensures Opening(n) && Inv(n)
  {
  }

  /** A reload, at whatever moment, opens the list anew while the poller goes on. */
  lemma ReloadOpens(s: Session, filter: Filter, limit: nat)
    requires Inv(s)
    ensures var n := Next(s, Reloads(filter, limit)); Opening(n) && Inv(n)
  {
    AnyIsKnown(s);
    ReloadedRuns(s, filter, limit);
    ReloadedTogether(s, Reloaded(s, filter, limit));
  }

  lemma AnyIsKnown(s: Session)
    requires Inv(s)
    ensures ServerOk(s.feed.server) && MeanwhileInv(s) && MoreInv(s) && Runs.Inv(s.world)
    ensures LiveKnown(s.feed.server, s.world.hook) && AllKnown(s.feed.server, s.world.hook.incidents)
  {
    if s.load.Accepted? { SessionIsKnown(s); }
  }

  // ---- Merging rows ----

  /** A recorded time is the old one or that of a row of the batch, and never goes back. */
  ghost predicate StampFacts(live: map<Id, Time>, valid: seq<Incident>, id: Id) {
    && (id in live ==> id in Stamped(live, valid) && Stamped(live, valid)[id] >= live[id])
    && (id in Stamped(live, valid) ==>
          || (id in live && Stamped(live, valid)[id] == live[id])
          || exists x :: x in valid && x.id == id && Stamped(live, valid)[id] == x.updatedAt)
  }

  lemma StampCases(live: map<Id, Time>, changes: seq<Incident>, id: Id)
    requires DistinctIds(changes)
    ensures StampFacts(live, Fresh(live, changes), id)
  {
    var valid := Fresh(live, changes);
    KeepDistinct(changes, (x: Incident) => NotOlder(live, x));
    Runs.StampedAt(live, valid, id);
    if Mentions(valid, id) {
      var x :| x in valid && x.id == id;
      assert Stamped(live, valid)[id] == x.updatedAt;
    }
  }

  lemma LiveAfter(server: Server, h: Hook, accepts: Filter, changes: seq<Incident>)
    requires LiveKnown(server, h) && DistinctIds(changes) && AllKnown(server, changes)
    ensures LiveKnown(server, ChangesMerged(h, accepts, changes))
  {
    var valid := Fresh(h.live, changes);
    if valid != [] {
      forall id | id in Stamped(h.live, valid)
        ensures id in server.gone || (id in server.rows && Stamped(h.live, valid)[id] <= server.rows[id].updatedAt)
      {
        StampCases(h.live, changes, id);
      }
    }
  }

  lemma Remembered(h: Hook, accepts: Filter, changes: seq<Incident>)
    requires DistinctIds(changes)
    ensures var live := ChangesMerged(h, accepts, changes).live;
            && (forall id :: id in h.live ==> id in live && live[id] >= h.live[id])
            && (forall r :: r in changes ==> r.id in live && live[r.id] >= r.updatedAt)
  {
    var valid := Fresh(h.live, changes);
    KeepDistinct(changes, (x: Incident) => NotOlder(h.live, x));
    forall id | id in h.live ensures id in Stamped(h.live, valid) && Stamped(h.live, valid)[id] >= h.live[id] {
      StampCases(h.live, changes, id);
    }
    forall r | r in changes && NotOlder(h.live, r)
      ensures r.id in Stamped(h.live, valid) && Stamped(h.live, valid)[r.id] >= r.updatedAt
    {
      Runs.StampedAt(h.live, valid, r.id);
      assert r in valid;
    }
  }

  /**
   Where a listed row comes from after a merge: it was listed and is not mentioned, or it is an accepted row of
   the batch.
   */
  ghost predicate Entered(h: Hook, accepts: Filter, changes: seq<Incident>, x: Incident) {
    || (x in h.incidents && !Mentions(Fresh(h.live, changes), x.id))
    || (x in changes && NotOlder(h.live, x) && accepts.Accepts(x))
  }

  lemma MergedFrom(h: Hook, accepts: Filter, changes: seq<Incident>)
    ensures forall x :: x in ChangesMerged(h, accepts, changes).incidents ==> Entered(h, accepts, changes, x)
    ensures ChangesMerged(h, accepts, changes).filter == h.filter
  {
    var valid := Fresh(h.live, changes);
    if valid != [] { WindowShape(Unmentioned(valid, h.incidents) + InFilter(accepts, valid)); }
  }

  lemma MergeKeepsRuns(w: Runs.World, accepts: Filter, changes: seq<Incident>)
    requires Runs.Inv(w) && DistinctIds(changes)
    ensures var n := Runs.Next(w, Runs.Changes(accepts, changes));
            && Runs.Inv(n) && n.hook.epoch == w.hook.epoch && n.hook.filter == w.hook.filter
            && n.mores == w.mores && n.pages == w.pages
  {
    Runs.StepKeepsLists(w, Runs.Changes(accepts, changes));
    Runs.StepKeepsFlights(w, Runs.Changes(accepts, changes));
  }

  /** A change that is due is accepted when it arrives, since no newer version can be recorded. */
  lemma DueIsMentioned(f: Feeds.Feed, h: Hook, changes: seq<Incident>, id: Id)
    requires LiveKnown(f.server, h) && ServerOk(f.server)
    requires id in f.server.rows && f.server.rows[id] in changes
    ensures Mentions(Fresh(h.live, changes), id)
  {
    assert f.server.rows[id].id == id && id !in f.server.gone;
    assert f.server.rows[id] in Fresh(h.live, changes);
  }

  /** Sound rows that are merged, and handed over if `g` is the feed after that, leave a list that fits. */
  lemma EnteredFits(f: Feeds.Feed, g: Feeds.Feed, h: Hook, after: Hook, data: seq<Incident>)
    requires ServerOk(f.server) && ListFits(f, h) && AllSound(f.server, f.initial, data)
    requires g.server == f.server && g.initial == f.initial && forall r :: r in g.handed ==> r in f.handed || r in data
    requires after.filter == h.filter && LiveKnown(f.server, after)
    requires forall x :: x in after.incidents ==> Entered(h, h.filter, data, x)
    ensures ListFits(g, after)
  {
    forall x | x in after.incidents ensures RowFits(g, h.filter, x) {
      assert Entered(h, h.filter, data, x);
      if !h.filter.Accepts(x) && x.id !in f.server.gone && f.server.rows[x.id] in data {
        DueIsMentioned(f, h, data, x.id);
      }
    }
  }

  lemma HandedList(f: Feeds.Feed, g: Feeds.Feed, h: Hook, data: seq<Incident>)
    requires ServerOk(f.server) && ListFits(f, h) && DistinctIds(data) && AllSound(f.server, f.initial, data)
    requires g.server == f.server && g.initial == f.initial && forall r :: r in g.handed ==> r in f.handed || r in data
    ensures ListFits(g, ChangesMerged(h, h.filter, data))
  {
    LiveAfter(f.server, h, h.filter, data);
    MergedFrom(h, h.filter, data);
    EnteredFits(f, g, h, ChangesMerged(h, h.filter, data), data);
  }

  lemma HandedRecord(before: set<Incident>, handed: set<Incident>, h: Hook, data: seq<Incident>)
    requires RecordedIn(before, h) && DistinctIds(data) && forall r :: r in handed ==> r in before || r in data
    ensures RecordedIn(handed, ChangesMerged(h, h.filter, data))
  {
    Remembered(h, h.filter, data);
  }

  /** Handing over nothing is merging nothing. */
  lemma MergedHook(w: Runs.World, data: seq<Incident>)
    requires DistinctIds(data)
    ensures MergedWorld(w, data).hook == ChangesMerged(w.hook, w.hook.filter, data)
  {
  }

  lemma MoreUnmoved(s: Session, n: Session)
    requires MoreInv(s) && n.more == s.more && n.load == s.load
    requires n.feed.server == s.feed.server && n.feed.initial == s.feed.initial
    requires n.world.mores == s.world.mores && n.world.hook.epoch == s.world.hook.epoch
    ensures MoreInv(n)
  {
  }

  /** The session with a feed that has moved on and a list that has merged rows. */
  lemma Assembled(s: Session, n: Session)
    requires MoreInv(s) && n.more == s.more && n.load == s.load && n.load.Accepted? && n.poller.Steady?
    requires n.feed.server == s.feed.server && n.feed.initial == s.feed.initial
    requires n.world.mores == s.world.mores && n.world.hook.epoch == s.world.hook.epoch && n.world.pages == []
    requires Feeds.FeedInv(n.feed) && Runs.Inv(n.world)
    requires ListFits(n.feed, n.world.hook) && RecordedIn(n.feed.handed, n.world.hook) && Flying(n.feed, n.direct)
    ensures SessionInv(n)
  {
    MoreUnmoved(s, n);
    Together(n);
  }

  lemma Together(n: Session)
    requires n.load.Accepted? && n.poller.Steady? && n.world.pages == [] && Feeds.FeedInv(n.feed) && Runs.Inv(n.world)
    requires ListInv(n) && Recorded(n) && FlightInv(n) && MoreInv(n)
    ensures SessionInv(n)
  {
  }

  lemma MergedRuns(w: Runs.World, data: seq<Incident>)
    requires Runs.Inv(w) && DistinctIds(data)
    ensures var n := MergedWorld(w, data);
            Runs.Inv(n) && n.hook.epoch == w.hook.epoch && n.mores == w.mores && n.pages == w.pages
  {
    if data != [] { MergeKeepsRuns(w, w.hook.filter, data); }
  }

  /** The rows the poller handed over are merged. */
  lemma Handed(s: Session, n: Session, data: seq<Incident>)
    requires SessionInv(s) && Feeds.FeedInv(n.feed) && DistinctIds(data)
    requires AllSound(s.feed.server, s.feed.initial, data)
    requires n.feed.server == s.feed.server && n.feed.initial == s.feed.initial
    requires n.feed.handed == s.feed.handed + (set x | x in data)
    requires n.load == s.load && n.more == s.more && n.direct == s.direct && n.poller == s.poller
    requires n.world == MergedWorld(s.world, data)
    requires Flying(n.feed, n.direct)
    ensures SessionInv(n)
  {
    MergedHook(s.world, data);
    HandedList(s.feed, n.feed, s.world.hook, data);
    HandedRecord(s.feed.handed, n.feed.handed, s.world.hook, data);
    MergedRuns(s.world, data);
    Assembled(s, n);
  }

  // ---- The poller moves ----

  lemma DeliveredIsSound(f: Feeds.Feed, direct: set<Incident>, step: Feeds.Event)
    requires Flying(f, direct) && Feeds.Enabled(f, step)
    ensures AllSound(f.server, f.initial, Delivered(f, step))
  {
    if step.LateArrives? { assert f.late[step.k] in f.late; }
  }

  /** What a step of the poller leaves in flight is sound. */
  lemma PollFlight(f: Feeds.Feed, direct: set<Incident>, step: Feeds.Event)
    requires ServerOk(f.server) && Flying(f, direct) && Feeds.Enabled(f, step) && !step.ServerActs?
    ensures var g := Feeds.Next(f, step);
            && g.server == f.server && g.initial == f.initial && Flying(g, direct)
            && g.handed == f.handed + (set x | x in Delivered(f, step))
  {
    match step
    case RowsRead(data, _) =>
      forall r | r in data ensures Current(f.server, r) {
        assert Changed(f.server, f.watermark, f.poll.cursor, f.poll.cutoff, r);
      }
    case OrphanRead(k, cutoff, data, _) =>
      forall r | r in data ensures Current(f.server, r) {
        assert Changed(f.server, f.orphans[k].since, f.orphans[k].cursor, cutoff, r);
      }
    case _ =>
  }

  lemma PollStep(s: Session, step: Feeds.Event)
    requires SessionInv(s) && Enabled(s, Poll(step))
    ensures SessionInv(Next(s, Poll(step)))
  {
    Feeds.FeedStep(s.feed, step);
    DeliveredIsSound(s.feed, s.direct, step);
    PollFlight(s.feed, s.direct, step);
    Handed(s, Next(s, Poll(step)), Delivered(s.feed, step));
  }

  // ---- Direct answers ----

  lemma DirectReadStep(s: Session, id: Id)
    requires SessionInv(s) && Enabled(s, DirectReads(id))
    ensures SessionInv(Next(s, DirectReads(id)))
  {
  }

  /** The session after a merge that moves nothing but the list. */
  lemma Merged(s: Session, n: Session, accepts: Filter, changes: seq<Incident>)
    requires SessionInv(s) && DistinctIds(changes) && n.world == Runs.Next(s.world, Runs.Changes(accepts, changes))
    requires n.feed == s.feed && n.load == s.load && n.more == s.more && n.poller == s.poller
    requires forall x :: x in n.direct ==> x in s.direct
    requires ListFits(s.feed, ChangesMerged(s.world.hook, accepts, changes))
    ensures SessionInv(n)
  {
    MergeKeepsRuns(s.world, accepts, changes);
    Remembered(s.world.hook, accepts, changes);
    Assembled(s, n);
  }

  lemma DirectArrivesStep(s: Session, item: Incident)
    requires SessionInv(s) && Enabled(s, DirectArrives(item))
    ensures SessionInv(Next(s, DirectArrives(item)))
  {
    DirectList(s, item);
    Merged(s, Next(s, DirectArrives(item)), s.world.hook.filter, [item]);
  }

  lemma DirectList(s: Session, item: Incident)
    requires SessionInv(s) && item in s.direct
    ensures ListFits(s.feed, ChangesMerged(s.world.hook, s.world.hook.filter, [item]))
  {
    var h := s.world.hook;
    LiveAfter(s.feed.server, h, h.filter, [item]);
    MergedFrom(h, h.filter, [item]);
    EnteredFits(s.feed, s.feed, h, ChangesMerged(h, h.filter, [item]), [item]);
  }

  // ---- The poller during a load ----

  /** Merging nothing is no step. */
  lemma MergedIsNext(w: Runs.World, data: seq<Incident>)
    requires DistinctIds(data)
    ensures MergedWorld(w, data) == Runs.Next(w, Runs.Changes(w.hook.filter, data))
  {
  }

  lemma SoundAfter(server: Server, origin: Time, h: Hook, accepts: Filter, changes: seq<Incident>)
    requires AllSound(server, origin, h.incidents) && AllSound(server, origin, changes)
    ensures AllSound(server, origin, ChangesMerged(h, accepts, changes).incidents)
  {
    MergedFrom(h, accepts, changes);
    forall x | x in ChangesMerged(h, accepts, changes).incidents ensures Sound(server, origin, x) {
      assert Entered(h, accepts, changes, x);
    }
  }

  lemma KnownAfter(server: Server, h: Hook, accepts: Filter, changes: seq<Incident>)
    requires AllKnown(server, h.incidents) && AllKnown(server, changes)
    ensures AllKnown(server, ChangesMerged(h, accepts, changes).incidents)
  {
    MergedFrom(h, accepts, changes);
    forall x | x in ChangesMerged(h, accepts, changes).incidents ensures Known(server, x) {
      assert Entered(h, accepts, changes, x);
    }
  }

  /** A loading session of which only the list and the poller have changed. */
  lemma StillLoading(s: Session, n: Session)
    requires LoadingInv(s) && n.feed.server == s.feed.server && n.load == s.load && n.more == s.more
    requires Runs.Inv(n.world) && n.world.pages == s.world.pages && n.world.mores == s.world.mores
    requires n.world.hook.epoch == s.world.hook.epoch && n.world.hook.filter == s.world.hook.filter
    requires LiveKnown(s.feed.server, n.world.hook) && AllKnown(s.feed.server, n.world.hook.incidents)
    requires MeanwhileInv(n)
    ensures LoadingInv(n)
  {
  }

  lemma MergedLoading(s: Session, n: Session, accepts: Filter, changes: seq<Incident>)
    requires LoadingInv(s) && DistinctIds(changes) && AllKnown(s.feed.server, changes)
    requires n.world == Runs.Next(s.world, Runs.Changes(accepts, changes))
    requires n.feed.server == s.feed.server && n.load == s.load && n.more == s.more && MeanwhileInv(n)
    ensures LoadingInv(n)
  {
    MergeKeepsRuns(s.world, accepts, changes);
    LiveAfter(s.feed.server, s.world.hook, accepts, changes);
    KnownAfter(s.feed.server, s.world.hook, accepts, changes);
    StillLoading(s, n);
  }

  /** Sound rows merged during a load, with the poller moved on to `g`. */
  lemma MeanwhileMerged(s: Session, n: Session, data: seq<Incident>)
    requires MeanwhileInv(s) && !s.poller.Absent? && n.poller == s.poller && DistinctIds(data)
    requires AllSound(s.feed.server, s.feed.initial, data)
    requires Feeds.FeedInv(n.feed) && Flying(n.feed, n.direct)
    requires n.feed.server == s.feed.server && n.feed.initial == s.feed.initial
    requires forall r :: r in n.feed.handed ==> r in s.feed.handed || r in data
    requires n.world.hook == ChangesMerged(s.world.hook, s.world.hook.filter, data)
    ensures MeanwhileInv(n)
  {
    HandedRecord(s.feed.handed, n.feed.handed, s.world.hook, data);
    if s.poller.Steady? { SoundAfter(s.feed.server, s.feed.initial, s.world.hook, s.world.hook.filter, data); }
  }

  lemma PollLoading(s: Session, step: Feeds.Event)
    requires LoadingInv(s) && Enabled(s, Poll(step))
    ensures LoadingInv(Next(s, Poll(step)))
  {
    var data, n := Delivered(s.feed, step), Next(s, Poll(step));
    Feeds.FeedStep(s.feed, step);
    DeliveredIsSound(s.feed, s.direct, step);
    PollFlight(s.feed, s.direct, step);
    MergedHook(s.world, data);
    MergedIsNext(s.world, data);
    MeanwhileMerged(s, n, data);
    MergedLoading(s, n, s.world.hook.filter, data);
  }

  lemma DirectReadLoading(s: Session, id: Id)
    requires LoadingInv(s) && Enabled(s, DirectReads(id))
    ensures LoadingInv(Next(s, DirectReads(id)))
  {
    var n := Next(s, DirectReads(id));
    SentMeanwhile(s, n, s.feed.server.rows[id]);
    StillLoading(s, n);
  }

  /** One more direct answer in flight. */
  lemma SentMeanwhile(s: Session, n: Session, item: Incident)
    requires MeanwhileInv(s) && !s.poller.Absent? && n == s.(direct := s.direct + {item})
    requires Sound(s.feed.server, s.feed.initial, item)
    ensures MeanwhileInv(n)
  {
  }

  lemma DirectArrivesLoading(s: Session, item: Incident)
    requires LoadingInv(s) && Enabled(s, DirectArrives(item))
    ensures LoadingInv(Next(s, DirectArrives(item)))
  {
    var n := Next(s, DirectArrives(item));
    DirectIsOne(s, item);
    DirectIsMerge(s, item);
    MeanwhileMerged(s, n, [item]);
    MergedLoading(s, n, s.world.hook.filter, [item]);
  }

  lemma DirectIsMerge(s: Session, item: Incident)
    requires Enabled(s, DirectArrives(item)) && DistinctIds([item])
    ensures var n, filter := Next(s, DirectArrives(item)), s.world.hook.filter;
            && n.feed == s.feed && n.load == s.load && n.more == s.more && n.direct == s.direct - {item}
            && n.poller == s.poller
            && n.world == Runs.Next(s.world, Runs.Changes(filter, [item]))
            && n.world.hook == ChangesMerged(s.world.hook, filter, [item])
  {
  }

  lemma DirectIsOne(s: Session, item: Incident)
    requires LoadingInv(s) && item in s.direct
    ensures DistinctIds([item]) && !s.poller.Absent?
    ensures AllSound(s.feed.server, s.feed.initial, [item]) && AllKnown(s.feed.server, [item])
    ensures Feeds.FeedInv(s.feed) && Flying(s.feed, s.direct - {item}) && RecordedIn(s.feed.handed, s.world.hook)
  {
    assert [item][1..] == [];
  }

  // ---- Rows from outside ----

  /** A row that satisfies `RowOk` is sound once listed, and in the filter or due to be corrected. */
  lemma StrayRow(s: Session, x: Incident)
    requires SessionInv(s) && Known(s.feed.server, x) && x !in s.world.hook.incidents
    requires NotOlder(s.world.hook.live, x) && RowOk(s.world.hook, s.feed.initial, x)
    ensures RowFits(s.feed, s.world.hook.filter, x)
  {
    var h, server := s.world.hook, s.feed.server;
    if x.id !in server.gone {
      var r := server.rows[x.id];
      var listed := Find(h.incidents, x.id);
      if listed.Some? { assert RowFits(s.feed, h.filter, listed.value); }
      if r in s.feed.handed { assert h.live[r.id] >= r.updatedAt; }
    }
  }

  lemma StrayFits(s: Session, accepts: Filter, batch: seq<Incident>, after: Hook)
    requires SessionInv(s) && AllKnown(s.feed.server, batch)
    requires after.filter == s.world.hook.filter && LiveKnown(s.feed.server, after)
    requires forall x :: x in after.incidents ==> Entered(s.world.hook, accepts, batch, x)
    requires forall x :: x in batch && x in after.incidents && x !in s.world.hook.incidents ==>
               RowOk(s.world.hook, s.feed.initial, x)
    ensures ListFits(s.feed, after)
  {
    forall x | x in after.incidents ensures RowFits(s.feed, after.filter, x) {
      assert Entered(s.world.hook, accepts, batch, x);
      if x !in s.world.hook.incidents { StrayRow(s, x); }
    }
  }

  lemma StrayList(s: Session, accepts: Filter, batch: seq<Incident>)
    requires SessionInv(s) && DistinctIds(batch) && AllKnown(s.feed.server, batch)
    requires MergeOk(s.world.hook, s.feed.initial, accepts, batch)
    ensures ListFits(s.feed, ChangesMerged(s.world.hook, accepts, batch))
  {
    LiveAfter(s.feed.server, s.world.hook, accepts, batch);
    MergedFrom(s.world.hook, accepts, batch);
    StrayFits(s, accepts, batch, ChangesMerged(s.world.hook, accepts, batch));
  }

  lemma StrayIsMerge(s: Session, accepts: Filter, batch: seq<Incident>)
    requires Enabled(s, Stray(accepts, batch))
    ensures var n := Next(s, Stray(accepts, batch));
            && n.feed == s.feed && n.load == s.load && n.more == s.more && n.direct == s.direct
            && n.poller == ShakenBy(s, true) && n.world == Runs.Next(s.world, Runs.Changes(accepts, batch))
            && n.world.hook == ChangesMerged(s.world.hook, accepts, batch)
  {
  }

  lemma StrayLoading(s: Session, accepts: Filter, batch: seq<Incident>)
    requires LoadingInv(s) && Enabled(s, Stray(accepts, batch))
    ensures LoadingInv(Next(s, Stray(accepts, batch)))
  {
    StrayIsMerge(s, accepts, batch);
    Remembered(s.world.hook, accepts, batch);
    MergedLoading(s, Next(s, Stray(accepts, batch)), accepts, batch);
  }

  lemma StrayInSession(s: Session, accepts: Filter, batch: seq<Incident>)
    requires SessionInv(s) && Enabled(s, Stray(accepts, batch)) && Careful(s, Stray(accepts, batch))
    ensures SessionInv(Next(s, Stray(accepts, batch)))
  {
    StrayList(s, accepts, batch);
    Merged(s, Next(s, Stray(accepts, batch)), accepts, batch);
  }

  // ---- Further pages ----

  /** A row a further page adds beats every listed version of its incident. */
  lemma AddedBeatsListed(listed: seq<Incident>, added: seq<Incident>, x: Incident, y: Incident)
    requires x in UniqueById(listed + added) && x !in listed && y in listed && y.id == x.id
    ensures y.updatedAt < x.updatedAt
  {
    var items := listed + added;
    RankedIsNewest(items, x);
    var k :| IsNewestAt(items, x, k);
    var j :| 0 <= j < |listed| && listed[j] == y;
    assert items[j] == y;
    forall i | 0 <= i < |listed| ensures items[i] != x {
      assert items[i] == listed[i] && listed[i] in listed;
    }
  }

  lemma MoreFrom(h: Hook, filter: Filter, data: seq<Incident>, next: Option<Cursor>, x: Incident)
    requires x in MoreAccepted(h, filter, data, next).incidents
    ensures x in h.incidents || (x in data && NotOlder(h.live, x) && filter.Accepts(x))
    ensures x !in h.incidents ==> forall y :: y in h.incidents && y.id == x.id ==> y.updatedAt < x.updatedAt
  {
    var added := InFilter(filter, Fresh(h.live, data));
    WindowShape(h.incidents + added);
    if x !in h.incidents {
      forall y | y in h.incidents && y.id == x.id
        ensures y.updatedAt < x.updatedAt
      {
        AddedBeatsListed(h.incidents, added, x, y);
      }
    }
  }

  /** A row of an early answer that is careful is sound: a listed older version shows that a change is due. */
  lemma EarlyRow(s: Session, x: Incident)
    requires SessionInv(s) && Known(s.feed.server, x)
    requires forall y :: y in s.world.hook.incidents && y.id == x.id ==> y.updatedAt < x.updatedAt
    requires Find(s.world.hook.incidents, x.id).None? ==> x.updatedAt >= s.feed.initial
    ensures Sound(s.feed.server, s.feed.initial, x)
  {
    var listed := Find(s.world.hook.incidents, x.id);
    if listed.Some? { assert RowFits(s.feed, s.world.hook.filter, listed.value); }
  }

  lemma MoreList(s: Session)
    requires SessionInv(s) && Enabled(s, MoreArrives) && Careful(s, MoreArrives)
    requires s.world.mores[0].epoch == s.world.hook.epoch
    ensures ListInv(Next(s, MoreArrives))
  {
    var h, r, a := s.world.hook, s.world.mores[0], s.more.value;
    assert r.filter == h.filter by { assert r in s.world.mores; }
    forall x | x in MoreAccepted(h, r.filter, a.data, a.next).incidents
      ensures RowFits(s.feed, h.filter, x)
    {
      MoreFrom(h, r.filter, a.data, a.next, x);
      if x !in h.incidents && a.early { EarlyRow(s, x); }
    }
  }

  lemma MoreIsAdded(s: Session)
    requires Enabled(s, MoreArrives) && s.world.mores[0].epoch == s.world.hook.epoch
    ensures var n, h, r, a := Next(s, MoreArrives), s.world.hook, s.world.mores[0], s.more.value;
            && n.feed == s.feed && n.load == s.load && n.world.hook.filter == h.filter
            && n.world.hook == MoreSettled(MoreAccepted(h, r.filter, a.data, a.next))
  {
  }

  lemma MoreArrivesStep(s: Session)
    requires Inv(s) && Enabled(s, MoreArrives) && Careful(s, MoreArrives)
    ensures Inv(Next(s, MoreArrives))
  {
    var h, r, a := s.world.hook, s.world.mores[0], s.more.value;
    var e := Runs.MoreArrives(0, a.data, a.next);
    Runs.StepKeepsLists(s.world, e);
    Runs.StepKeepsFlights(s.world, e);
    if s.load.Accepted? {
      if r.epoch == h.epoch { MoreList(s); }
    } else {
      MoreLoading(s);
    }
  }

  lemma MoreLoading(s: Session)
    requires LoadingInv(s) && Enabled(s, MoreArrives)
    ensures LoadingInv(Next(s, MoreArrives))
  {
    var h, r, a, n := s.world.hook, s.world.mores[0], s.more.value, Next(s, MoreArrives);
    Runs.StepKeepsLists(s.world, Runs.MoreArrives(0, a.data, a.next));
    Runs.StepKeepsFlights(s.world, Runs.MoreArrives(0, a.data, a.next));
    forall x | x in n.world.hook.incidents ensures Known(s.feed.server, x) {
      if r.epoch == h.epoch { MoreFrom(h, r.filter, a.data, a.next, x); }
    }
    MoreMeanwhile(s);
  }

  lemma MoreMeanwhile(s: Session)
    requires MeanwhileInv(s) && !s.load.Accepted? && Enabled(s, MoreArrives)
    ensures MeanwhileInv(Next(s, MoreArrives))
  {
  }

  lemma MoreRowsStep(s: Session, cutoff: Time, data: seq<Incident>, next: Option<Cursor>)
    requires Inv(s) && Enabled(s, MoreRows(cutoff, data, next))
    ensures Inv(Next(s, MoreRows(cutoff, data, next)))
  {
    var r := s.world.mores[0];
    forall x | x in data ensures Current(s.feed.server, x) {
      assert Listed(s.feed.server, r.filter, Some(r.cursor), cutoff, x);
    }
  }

  lemma MoreOtherStep(s: Session, e: Event)
    requires Inv(s) && Enabled(s, e) && (e.MoreAsks? || e.MoreFails?)
    ensures Inv(Next(s, e))
  {
    Runs.StepKeepsFlights(s.world, if e.MoreAsks? then Runs.LoadMore else Runs.MoreFails(0, e.message));
  }

  // ---- Every step ----

  lemma StrayStep(s: Session, accepts: Filter, batch: seq<Incident>)
    requires Inv(s) && Enabled(s, Stray(accepts, batch)) && Careful(s, Stray(accepts, batch))
    ensures Inv(Next(s, Stray(accepts, batch)))
  {
    if s.load.Accepted? { StrayInSession(s, accepts, batch); } else { StrayLoading(s, accepts, batch); }
    EitherInv(Next(s, Stray(accepts, batch)));
  }

  lemma MoreStep(s: Session, e: Event)
    requires Inv(s) && Enabled(s, e) && Careful(s, e) && (e.MoreAsks? || e.MoreRows? || e.MoreArrives? || e.MoreFails?)
    ensures Inv(Next(s, e))
  {
    match e
    case MoreRows(cutoff, data, next) => MoreRowsStep(s, cutoff, data, next);
    case MoreArrives => MoreArrivesStep(s);
    case _ => MoreOtherStep(s, e);
  }

  lemma OwnStep(s: Session, e: Event)
    requires Inv(s) && Enabled(s, e) && Careful(s, e)
    requires !e.MoreAsks? && !e.MoreRows? && !e.MoreArrives? && !e.MoreFails? && !e.Stray? && !e.Reloads?
    ensures Inv(Next(s, e))
  {
    if s.load.Accepted? {
      StepInSession(s, e);
    } else if e.LoadArrives? {
      ArrivesStep(s);
    } else {
      StepLoading(s, e);
    }
    EitherInv(Next(s, e));
  }

  lemma EitherInv(n: Session)
    requires LoadingInv(n) || SessionInv(n)
    ensures Inv(n)
  {
  }

  lemma StepLoading(s: Session, e: Event)
    requires LoadingInv(s) && Enabled(s, e)
    requires e.ServerActs? || e.LoadBounds? || e.LoadRows? || e.Poll? || e.DirectReads? || e.DirectArrives?
    ensures LoadingInv(Next(s, e))
  {
    match e
    case ServerActs(a) => ServerLoading(s, a);
    case LoadBounds(mark) => BoundsStep(s, mark);
    case LoadRows(data, next) => RowsStep(s, data, next);
    case Poll(step) => PollLoading(s, step);
    case DirectReads(id) => DirectReadLoading(s, id);
    case DirectArrives(item) => DirectArrivesLoading(s, item);
  }

  lemma StepInSession(s: Session, e: Event)
    requires SessionInv(s) && Enabled(s, e) && (e.ServerActs? || e.Poll? || e.DirectReads? || e.DirectArrives?)
    ensures SessionInv(Next(s, e))
  {
    match e
    case ServerActs(a) => ServerInSession(s, a);
    case Poll(step) => PollStep(s, step);
    case DirectReads(id) => DirectReadStep(s, id);
    case DirectArrives(item) => DirectArrivesStep(s, item);
  }

  lemma Step(s: Session, e: Event)
    requires Inv(s) && Enabled(s, e) && Careful(s, e)
    ensures Inv(Next(s, e))
  {
    if e.Reloads? {
      ReloadOpens(s, e.filter, e.limit);
    } else if e.Stray? {
      StrayStep(s, e.accepts, e.batch);
    } else if e.MoreAsks? || e.MoreRows? || e.MoreArrives? || e.MoreFails? {
      MoreStep(s, e);
    } else {
      OwnStep(s, e);
    }
  }

  lemma {:induction false} Always(s: Session, es: seq<Event>)
    requires Inv(s) && Legal(s, es) && CarefulRun(s, es)
    ensures Inv(Run(s, es))
    decreases es
  {
    if es != [] {
      Step(s, es[0]);
      Always(Next(s, es[0]), es[1..]);
    }
  }

  // ---- Convergence ----

  /** The row is the server's and in the filter, or its incident has been deleted. */
  ghost predicate Right(s: Session, x: Incident) {
    x.id in s.feed.server.gone || (Current(s.feed.server, x) && s.world.hook.filter.Accepts(x))
  }

  /** A watermark that covers every row leaves no wrong row in the list. */
  lemma CoveredMeansCurrent(s: Session)
    requires SessionInv(s) && Above(s.feed.server, s.feed.watermark)
    ensures forall x :: x in s.world.hook.incidents ==> Right(s, x)
  {
    forall x | x in s.world.hook.incidents ensures Right(s, x) {
      assert RowFits(s.feed, s.world.hook.filter, x);
      if x.id !in s.feed.server.gone { CoveredRow(s, x); }
    }
  }

  lemma CoveredRow(s: Session, x: Incident)
    requires SessionInv(s) && Above(s.feed.server, s.feed.watermark)
    requires x in s.world.hook.incidents && x.id in s.feed.server.rows && x.id !in s.feed.server.gone
    ensures Right(s, x)
  {
    var r, h := s.feed.server.rows[x.id], s.world.hook;
    assert Current(s.feed.server, r) && RowFits(s.feed, h.filter, x);
    if r.updatedAt > s.feed.initial {
      assert r in s.feed.handed;
      assert x.updatedAt >= h.live[x.id] >= r.updatedAt;
    }
  }

  /** Nothing writes or reloads, and the poll under way is neither failed nor stopped: the clock may go on. */
  ghost predicate QuietEvent(e: Event) {
    && !e.Reloads? && (e.ServerActs? ==> e.act.Tick?)
    && (e.Poll? ==> !e.step.PollFails? && !e.step.Restarts?)
  }

  ghost predicate Above(server: Server, bound: Time) {
    forall r :: Current(server, r) ==> r.updatedAt <= bound
  }

  /** While nothing writes, every bound a poll has read since is above all rows. */
  ghost predicate QuietInv(s: Session) {
    && s.load.Accepted? && ServerOk(s.feed.server) && s.feed.server.writers == map[]
    && match s.feed.poll
       case Idle => Above(s.feed.server, s.feed.watermark)
       case Asked(_, least) => least.Some? ==> Above(s.feed.server, least.value)
       case Bounded(_, least, _, mark) =>
         Above(s.feed.server, mark) && (least.Some? ==> Above(s.feed.server, least.value))
       case Answered(least, _, _, mark) =>
         Above(s.feed.server, mark) && (least.Some? ==> Above(s.feed.server, least.value))
  }

  lemma QuietStep(s: Session, e: Event)
    requires QuietInv(s) && Enabled(s, e) && QuietEvent(e)
    ensures QuietInv(Next(s, e))
  {
    if e.ServerActs? { ServerStaysOk(s.feed.server, e.act); }
  }

  lemma {:induction false} QuietAlways(s: Session, es: seq<Event>)
    requires QuietInv(s) && Legal(s, es)
    requires forall e :: e in es ==> QuietEvent(e)
    ensures QuietInv(Run(s, es))
    decreases es
  {
    if es != [] {
      assert es[0] in es;
      QuietStep(s, es[0]);
      QuietAlways(Next(s, es[0]), es[1..]);
    }
  }

  /** Nothing writes while one poll starts and runs to its end. */
  ghost predicate QuietPoll(s: Session, quiet: seq<Event>) {
    && s.load.Accepted? && s.feed.server.writers == map[] && s.feed.poll.Idle?
    && quiet != [] && quiet[0] == Poll(Feeds.PollStarts) && Legal(s, quiet)
    && (forall e :: e in quiet ==> QuietEvent(e))
    && Run(s, quiet).feed.poll.Idle?
  }

  lemma {:induction false} QuietConverges(s: Session, quiet: seq<Event>)
    requires SessionInv(s) && QuietPoll(s, quiet) && CarefulRun(s, quiet)
    ensures forall x :: x in Run(s, quiet).world.hook.incidents ==> Right(Run(s, quiet), x)
  {
    Always(s, quiet);
    QuietEnds(s, quiet);
    CoveredMeansCurrent(Run(s, quiet));
  }

  /** A poll that runs through while nothing writes ends with a watermark above every row. */
  lemma QuietEnds(s: Session, quiet: seq<Event>)
    requires ServerOk(s.feed.server) && QuietPoll(s, quiet)
    ensures Above(Run(s, quiet).feed.server, Run(s, quiet).feed.watermark) && Run(s, quiet).load.Accepted?
  {
    QuietAlways(Next(s, quiet[0]), quiet[1..]);
    QuietIdle(Run(Next(s, quiet[0]), quiet[1..]));
  }

  lemma QuietIdle(s: Session)
    requires QuietInv(s) && s.feed.poll.Idle?
    ensures Above(s.feed.server, s.feed.watermark) && s.load.Accepted?
  {
  }

  /**
   Quiescent convergence. A session opens, its page is accepted, and anything happens: commits,
   rollbacks, deletions, late "load more" and direct answers, delta pages, failed, stopped and restarted
   polls, reloads with any filter and limit, whether or not their pages start the poller anew, and rows from
   outside the session. Every reload and every row from outside is careful. Once no transaction is open and
   none begins, and one poll has been started and run to its end, every listed incident is at the server's
   current version and matches the filter, unless it has been deleted.
   */
  lemma {:induction false} QuiescentConvergence(s: Session, es: seq<Event>, quiet: seq<Event>)
    requires Opening(s) && Legal(s, es) && CarefulRun(s, es)
    requires QuietPoll(Run(s, es), quiet) && CarefulRun(Run(s, es), quiet)
    ensures var end := Run(Run(s, es), quiet);
            forall x :: x in end.world.hook.incidents ==> Right(end, x)
  {
    Always(s, es);
    QuietConverges(Run(s, es), quiet);
  }

  // ---- After mounting ----

  /** The hook has mounted and its first load effect has run. */
  function MountedSession(server: Server, filter: Filter, limit: nat): Session {
    var w := Runs.Next(Runs.Start(filter, limit), Runs.Load(filter, limit));
    Session(Feeds.Begun(server, 0), w, Requested, None, {}, Absent)
  }

  lemma MountingOpens(server: Server, filter: Filter, limit: nat)
    requires ServerOk(server)
    ensures Opening(MountedSession(server, filter, limit)) && Blank(MountedSession(server, filter, limit))
  {
  }

  /** Convergence from mounting, over any chain of careful reloads. */
  lemma ConvergesFromMounting(server: Server, filter: Filter, limit: nat, es: seq<Event>, quiet: seq<Event>)
    requires ServerOk(server)
    requires var s := MountedSession(server, filter, limit);
             && Legal(s, es) && CarefulRun(s, es)
             && QuietPoll(Run(s, es), quiet) && CarefulRun(Run(s, es), quiet)
    ensures var end := Run(Run(MountedSession(server, filter, limit), es), quiet);
            forall x :: x in end.world.hook.incidents ==> Right(end, x)
  {
    MountingOpens(server, filter, limit);
    QuiescentConvergence(MountedSession(server, filter, limit), es, quiet);
  }

  /** Nothing listed and no position to load more from. */
  ghost predicate Blank(s: Session) {
    && s.poller.Absent? && s.direct == {} && s.world.hook.incidents == [] && s.world.hook.cursor.None?
    && (forall r :: r in s.world.mores ==> r.epoch != s.world.hook.epoch)
    && (s.more.Some? && s.more.value.early ==> |s.world.mores| == 1)
  }

  lemma EmptyIsClean(h: Hook, data: seq<Incident>, mark: Time)
    requires h.incidents == []
    ensures CleanRefresh(h, data, mark)
  {
  }

  lemma BlankWhileLoading(s: Session, e: Event)
    requires LoadingInv(s) && Blank(s) && Enabled(s, e) && !e.Stray? && !e.Reloads? && !e.LoadArrives?
    ensures Blank(Next(s, e)) && !Next(s, e).load.Accepted?
  {
  }

  /** No answer of an early "load more" can still be merged. */
  ghost predicate NothingEarly(s: Session) {
    s.more.Some? && s.more.value.early && |s.world.mores| == 1 ==> s.world.mores[0].epoch != s.world.hook.epoch
  }

  lemma NothingEarlyStays(s: Session, e: Event)
    requires SessionInv(s) && NothingEarly(s) && Enabled(s, e) && !e.Stray? && !e.Reloads?
    ensures NothingEarly(Next(s, e)) && Next(s, e).load.Accepted? && Careful(s, e)
  {
  }

  lemma BlankArrives(s: Session)
    requires LoadingInv(s) && Blank(s) && Enabled(s, LoadArrives)
    ensures Careful(s, LoadArrives) && NothingEarly(Next(s, LoadArrives)) && Next(s, LoadArrives).load.Accepted?
  {
    EmptyIsClean(s.world.hook, s.load.data, s.load.mark);
  }

  /** Still blank, or accepted with nothing early on the way. */
  ghost predicate Orderly(s: Session) {
    Inv(s) && if s.load.Accepted? then NothingEarly(s) else Blank(s)
  }

  lemma OrderlyStep(s: Session, e: Event)
    requires Orderly(s) && Enabled(s, e) && !e.Stray? && !e.Reloads?
    ensures Careful(s, e) && Orderly(Next(s, e))
  {
    if s.load.Accepted? {
      NothingEarlyStays(s, e);
    } else if e.LoadArrives? {
      BlankArrives(s);
    } else {
      BlankWhileLoading(s, e);
    }
    Step(s, e);
  }

  /** A session that opens on an empty list and sees no row from outside is careful whatever its page holds. */
  lemma {:induction false} FirstLoadIsCareful(s: Session, es: seq<Event>)
    requires Orderly(s) && Legal(s, es) && forall e :: e in es ==> !e.Stray? && !e.Reloads?
    ensures CarefulRun(s, es)
    decreases es
  {
    if es != [] {
      var n := Next(s, es[0]);
      assert es[0] in es && forall e :: e in es[1..] ==> e in es;
      OrderlyStep(s, es[0]);
      FirstLoadIsCareful(n, es[1..]);
      CarefulFrom(s, es);
    }
  }

  lemma CarefulFrom(s: Session, es: seq<Event>)
    requires es != [] && Legal(s, es) && Careful(s, es[0]) && CarefulRun(Next(s, es[0]), es[1..])
    ensures CarefulRun(s, es)
  {
  }

  lemma {:induction false} CarefulSplits(s: Session, es: seq<Event>, more: seq<Event>)
    requires Legal(s, es) && Legal(Run(s, es), more)
    ensures Legal(s, es + more) && (CarefulRun(s, es + more) ==> CarefulRun(s, es) && CarefulRun(Run(s, es), more))
    decreases es
  {
    if es == [] {
      assert es + more == more;
    } else {
      assert (es + more)[1..] == es[1..] + more;
      CarefulSplits(Next(s, es[0]), es[1..], more);
    }
  }

  /** Convergence without conditions for a session that opens on an empty list, as after mounting. */
  lemma {:induction false} MountedConverges(s: Session, es: seq<Event>, quiet: seq<Event>)
    requires Opening(s) && Blank(s) && Legal(s, es) && QuietPoll(Run(s, es), quiet)
    requires forall e :: e in es + quiet ==> !e.Stray? && !e.Reloads?
    ensures var end := Run(Run(s, es), quiet);
            forall x :: x in end.world.hook.incidents ==> Right(end, x)
  {
    CarefulSplits(s, es, quiet);
    FirstLoadIsCareful(s, es + quiet);
    QuiescentConvergence(s, es, quiet);
  }

  // ---- Reloads that keep the poller ----

  /** The poller goes on undisturbed, and any load under way has its watermark. */
  ghost predicate Level(s: Session) {
    && Inv(s) && s.poller.Steady?
    && (s.load.Bounded? ==> s.load.mark == s.feed.initial) && (s.load.Answered? ==> s.load.mark == s.feed.initial)
  }

  /** Nothing from outside and no further page; every load reads the watermark the poller started from. */
  predicate KeepsLevel(e: Event, initial: Time) {
    !e.Stray? && !e.MoreArrives? && (e.LoadBounds? ==> e.mark == initial)
  }

  lemma LevelStep(s: Session, e: Event)
    requires Level(s) && Enabled(s, e) && KeepsLevel(e, s.feed.initial)
    ensures Careful(s, e) && Level(Next(s, e)) && Next(s, e).feed.initial == s.feed.initial
  {
    assert Careful(s, e);
    Step(s, e);
    LevelStays(s, e);
  }

  lemma LevelStays(s: Session, e: Event)
    requires Level(s) && Enabled(s, e) && KeepsLevel(e, s.feed.initial)
    ensures var n := Next(s, e);
            && n.poller.Steady? && n.feed.initial == s.feed.initial
            && (n.load.Bounded? ==> n.load.mark == n.feed.initial)
            && (n.load.Answered? ==> n.load.mark == n.feed.initial)
  {
  }

  /**
   As long as a long transaction holds the watermark where the poller started, reloads do not start it anew,
   and they are careful whatever their pages hold.
   */
  lemma {:induction false} HeldWatermarkIsCareful(s: Session, es: seq<Event>)
    requires Level(s) && Legal(s, es) && forall e :: e in es ==> KeepsLevel(e, s.feed.initial)
    ensures CarefulRun(s, es)
    decreases es
  {
    if es != [] {
      assert es[0] in es && forall e :: e in es[1..] ==> e in es;
      LevelStep(s, es[0]);
      HeldWatermarkIsCareful(Next(s, es[0]), es[1..]);
      CarefulFrom(s, es);
    }
  }
}
