/** Where convergence ends (dashboard/src/hooks/useIncidents.js:47-148), exactly. */
module SyncLimits {
  // When a reload, a merge from outside the session and an early "load more" cannot leave a wrong row behind,
  // and what becomes of that row when they do.

  import opened Incidents
  import opened RankedWindow
  import opened UseIncidents
  import opened IncidentsServer
  import opened IncidentSync
  import Runs = IncidentRuns
  import Feeds = ChangeFeed

  // ---- A row no delta mentions ----

  /** The incident's row is deleted or no newer than `floor`, which every bound the poller uses respects. */
  ghost predicate FeedSilent(f: Feeds.Feed, id: Id, floor: Time) {
    && ServerOk(f.server) && id !in f.server.writers
    && (forall k :: k in f.server.writers ==> floor < f.server.writers[k].start)
    && floor <= f.watermark <= f.server.clock && f.initial <= f.server.clock
    && (id in f.server.gone || (id in f.server.rows && f.server.rows[id].updatedAt <= floor))
    && BoundsAbove(f.poll, floor, f.server.clock)
    && (f.poll.Answered? ==> forall r :: r in f.poll.data ==> r.id != id)
    && (forall o :: o in f.orphans ==> o.since >= floor)
    && (forall data :: data in f.late ==> forall r :: r in data ==> r.id != id)
  }

  ghost predicate BoundsAbove(poll: Feeds.Poll, floor: Time, clock: Time) {
    match poll
    case Idle => true
    case Asked(_, least) => least.Some? ==> floor <= least.value <= clock
    case Bounded(_, least, _, mark) => floor <= mark <= clock && (least.Some? ==> floor <= least.value <= clock)
    case Answered(least, _, _, mark) => floor <= mark <= clock && (least.Some? ==> floor <= least.value <= clock)
  }

  /**
   The incident is left alone: writers take other rows, and none has begun before the floor. The poller may be
   stopped and restarted as long as the initial watermark respects the floor.
   */
  ghost predicate LeavesAlone(e: Event, id: Id, initial: Time, floor: Time) {
    match e
    case ServerActs(a) => !a.Tick? ==> a.id != id && (a.Begin? ==> floor < a.start)
    case Poll(step) => step.Restarts? ==> floor <= initial
    case _ => false
  }

  /** No version of the filter is written. */
  ghost predicate BringsNothing(e: Event, filter: Filter) {
    e.ServerActs? && e.act.Write? ==> filter.Only? && e.act.status != filter.status
  }

  lemma SilentRead(f: Feeds.Feed, id: Id, floor: Time, since: Time, cursor: Option<Cursor>, cutoff: Time,
                   data: seq<Incident>, next: Option<Cursor>)
    requires FeedSilent(f, id, floor) && since >= floor
    requires ChangesPage(f.server, since, cursor, cutoff, Feeds.CHANGES_LIMIT, data, next)
    ensures forall r :: r in data ==> r.id != id && Current(f.server, r) && r.updatedAt > floor
  {
    forall r | r in data ensures r.id != id && Current(f.server, r) && r.updatedAt > floor {
      assert Changed(f.server, since, cursor, cutoff, r);
    }
  }

  lemma SilentStep(f: Feeds.Feed, step: Feeds.Event, id: Id, floor: Time)
    requires FeedSilent(f, id, floor) && Feeds.Enabled(f, step) && !step.ServerActs?
    requires step.Restarts? ==> floor <= f.initial
    ensures FeedSilent(Feeds.Next(f, step), id, floor)
    ensures forall r :: r in Delivered(f, step) ==> r.id != id
  {
    match step
    case RowsRead(data, next) =>
      SilentRead(f, id, floor, f.watermark, f.poll.cursor, f.poll.cutoff, data, next);
    case OrphanRead(k, cutoff, data, next) =>
      assert f.orphans[k] in f.orphans;
      SilentRead(f, id, floor, f.orphans[k].since, f.orphans[k].cursor, cutoff, data, next);
    case LateArrives(k) => assert f.late[k] in f.late;
    case _ =>
  }

  lemma SilentAct(f: Feeds.Feed, a: Act, id: Id, floor: Time, initial: Time)
    requires FeedSilent(f, id, floor) && CanDo(f.server, a) && LeavesAlone(ServerActs(a), id, initial, floor)
    ensures FeedSilent(Feeds.Next(f, Feeds.ServerActs(a)), id, floor)
    ensures id in f.server.rows && id in Do(f.server, a).rows ==> Do(f.server, a).rows[id] == f.server.rows[id]
    ensures id in Do(f.server, a).rows <==> id in f.server.rows
    ensures id in Do(f.server, a).gone <==> id in f.server.gone
  {
    ServerStaysOk(f.server, a);
  }

  // ---- The list keeps it ----

  /** Pushed out by a full list of rows that all outrank it. */
  ghost predicate Crowded(list: seq<Incident>, x: Incident) {
    |list| == MAX_RETAINED_INCIDENTS && forall y :: y in list ==> Outranks(y, x)
  }

  lemma AloneOfItsId(items: seq<Incident>, x: Incident)
    requires x in items && forall y :: y in items && y.id == x.id ==> y == x
    ensures x in Ranked(items) && (x in UniqueById(items) || Crowded(UniqueById(items), x))
  {
    Runs.Represented(items, x);
    RankedShape(items);
    TakeLeavesOutWorse(Ranked(items), MAX_RETAINED_INCIDENTS, x);
  }

  /** A merge that does not mention a listed row keeps it, unless it crowds it out. */
  lemma UnmentionedStays(h: Hook, accepts: Filter, data: seq<Incident>, x: Incident)
    requires Runs.WellShaped(h) && x in h.incidents && forall r :: r in data ==> r.id != x.id
    ensures x in ChangesMerged(h, accepts, data).incidents || Crowded(ChangesMerged(h, accepts, data).incidents, x)
  {
    var valid := Fresh(h.live, data);
    var items := Unmentioned(valid, h.incidents) + InFilter(accepts, valid);
    RankedDistinct(h.incidents);
    forall y | y in items && y.id == x.id ensures y == x {
      FindDistinct(h.incidents, x);
      FindDistinct(h.incidents, y);
    }
    AloneOfItsId(items, x);
  }

  lemma ShapeAfter(h: Hook, accepts: Filter, data: seq<Incident>)
    requires Runs.WellShaped(h)
    ensures Runs.WellShaped(ChangesMerged(h, accepts, data))
  {
    var valid := Fresh(h.live, data);
    WindowShape(Unmentioned(valid, h.incidents) + InFilter(accepts, valid));
  }

  /** A list that only loses rows cannot crowd out one it keeps. */
  lemma NoCrowdOfFewer(list: seq<Incident>, after: seq<Incident>, x: Incident)
    requires IsRanked(list) && |list| <= MAX_RETAINED_INCIDENTS && x in list
    requires IsRanked(after) && forall y :: y in after ==> y in list
    ensures !Crowded(after, x)
  {
    var before, now := (set y | y in list), (set y | y in after);
    ElementCount(list);
    ElementCount(after);
    if x !in after {
      assert x !in now && now <= before - {x};
      Subset(now, before - {x});
    } else {
      assert !Outranks(x, x);
    }
  }

  // ---- A listed row that no poll will touch ----

  ghost predicate Unannounced(s: Session, x: Incident, floor: Time) {
    && s.load.Accepted? && Runs.WellShaped(s.world.hook) && x in s.world.hook.incidents
    && FeedSilent(s.feed, x.id, floor)
  }

  /** Nothing the poller may still deliver is in the filter. */
  ghost predicate NoNews(s: Session, floor: Time) {
    && (forall r :: Current(s.feed.server, r) && r.updatedAt > floor ==> !s.world.hook.filter.Accepts(r))
    && (forall k :: k in s.feed.server.writers && s.feed.server.writers[k].pending.Some? ==>
          !s.world.hook.filter.Accepts(s.feed.server.writers[k].pending.value))
    && (s.feed.poll.Answered? ==> forall r :: r in s.feed.poll.data ==> !s.world.hook.filter.Accepts(r))
    && (forall data :: data in s.feed.late ==> forall r :: r in data ==> !s.world.hook.filter.Accepts(r))
  }

  /** The server has the same row of the incident, or has it deleted as before. */
  ghost predicate SameRow(a: Server, b: Server, id: Id) {
    && (id in b.gone <==> id in a.gone) && (id in b.rows <==> id in a.rows)
    && (id in a.rows && id in b.rows ==> b.rows[id] == a.rows[id])
  }

  lemma PolledOnce(s: Session, e: Event, x: Incident, floor: Time)
    requires Unannounced(s, x, floor) && Enabled(s, e) && LeavesAlone(e, x.id, s.feed.initial, floor)
    ensures var n := Next(s, e);
            && n.feed.initial == s.feed.initial && n.world.hook.filter == s.world.hook.filter
            && SameRow(s.feed.server, n.feed.server, x.id)
            && (Unannounced(n, x, floor) || Crowded(n.world.hook.incidents, x))
  {
    match e
    case ServerActs(a) => SilentAct(s.feed, a, x.id, floor, s.feed.initial);
    case Poll(step) =>
      SilentStep(s.feed, step, x.id, floor);
      QuietMerge(s.world, Delivered(s.feed, step), x);
  }

  lemma StillWrong(s: Session, n: Session, x: Incident)
    requires SameRow(s.feed.server, n.feed.server, x.id) && n.world.hook.filter == s.world.hook.filter && !Right(s, x)
    ensures !Right(n, x)
  {
  }

  /** Rows of other incidents leave a listed row where it is, or crowd it out. */
  lemma QuietMerge(w: Runs.World, data: seq<Incident>, x: Incident)
    requires Runs.WellShaped(w.hook) && x in w.hook.incidents && DistinctIds(data)
    requires forall r :: r in data ==> r.id != x.id
    ensures var h := MergedWorld(w, data).hook;
            && Runs.WellShaped(h) && h.filter == w.hook.filter && (x in h.incidents || Crowded(h.incidents, x))
  {
    MergedHook(w, data);
    UnmentionedStays(w.hook, w.hook.filter, data, x);
    ShapeAfter(w.hook, w.hook.filter, data);
  }

  lemma NoNewsStep(s: Session, e: Event, x: Incident, floor: Time)
    requires Unannounced(s, x, floor) && NoNews(s, floor) && Enabled(s, e)
    requires LeavesAlone(e, x.id, s.feed.initial, floor) && BringsNothing(e, s.world.hook.filter)
    ensures NoNews(Next(s, e), floor)
    ensures e.Poll? ==> forall r :: r in Delivered(s.feed, e.step) ==> !s.world.hook.filter.Accepts(r)
  {
    if e.Poll? {
      NoNewsFeed(s, e.step, x, floor);
      MergedHook(s.world, Delivered(s.feed, e.step));
    }
  }

  lemma NoNewsFeed(s: Session, step: Feeds.Event, x: Incident, floor: Time)
    requires FeedSilent(s.feed, x.id, floor) && NoNews(s, floor) && Feeds.Enabled(s.feed, step) && !step.ServerActs?
    ensures NoNews(s.(feed := Feeds.Next(s.feed, step)), floor)
    ensures forall r :: r in Delivered(s.feed, step) ==> !s.world.hook.filter.Accepts(r)
  {
    var f := s.feed;
    match step
    case RowsRead(data, next) => SilentRead(f, x.id, floor, f.watermark, f.poll.cursor, f.poll.cutoff, data, next);
    case OrphanRead(k, cutoff, data, next) =>
      assert f.orphans[k] in f.orphans;
      SilentRead(f, x.id, floor, f.orphans[k].since, f.orphans[k].cursor, cutoff, data, next);
    case LateArrives(k) => assert f.late[k] in f.late;
    case _ =>
  }

  /** Without news the list only loses rows, so the row stays. */
  lemma NoNewsKeeps(s: Session, e: Event, x: Incident, floor: Time)
    requires Unannounced(s, x, floor) && NoNews(s, floor) && Enabled(s, e)
    requires LeavesAlone(e, x.id, s.feed.initial, floor) && BringsNothing(e, s.world.hook.filter)
    ensures Unannounced(Next(s, e), x, floor)
  {
    PolledOnce(s, e, x, floor);
    if e.Poll? {
      var h, data := s.world.hook, Delivered(s.feed, e.step);
      NoNewsStep(s, e, x, floor);
      MergedHook(s.world, data);
      MergedFrom(h, h.filter, data);
      ShapeAfter(h, h.filter, data);
      var after := ChangesMerged(h, h.filter, data).incidents;
      forall y | y in after ensures y in h.incidents { assert Entered(h, h.filter, data, y); }
      NoCrowdOfFewer(h.incidents, after, x);
    }
  }

  /** Somewhere along the run the row is crowded out. */
  ghost predicate EverCrowded(s: Session, es: seq<Event>, x: Incident)
    requires Legal(s, es)
    decreases es
  {
    Crowded(s.world.hook.incidents, x) || (es != [] && EverCrowded(Next(s, es[0]), es[1..], x))
  }

  ghost predicate AllLeaveAlone(es: seq<Event>, id: Id, initial: Time, floor: Time) {
    forall e :: e in es ==> LeavesAlone(e, id, initial, floor)
  }

  /**
   Through every run of polls and of acts of the server on other incidents, a wrong row no delta mentions stays
   listed and wrong, unless it is crowded out.
   */
  lemma {:induction false} StaysOrCrowds(s: Session, es: seq<Event>, x: Incident, floor: Time)
    requires Unannounced(s, x, floor) && !Right(s, x) && Legal(s, es)
    requires AllLeaveAlone(es, x.id, s.feed.initial, floor)
    ensures (x in Run(s, es).world.hook.incidents && !Right(Run(s, es), x)) || EverCrowded(s, es, x)
    decreases es
  {
    if es != [] {
      var n := Next(s, es[0]);
      assert es[0] in es;
      PolledOnce(s, es[0], x, floor);
      StillWrong(s, n, x);
      if Unannounced(n, x, floor) { StaysOrCrowds(n, es[1..], x, floor); }
    }
  }

  /** If none of them brings anything into the filter it stays for good. */
  lemma {:induction false} StaysForGood(s: Session, es: seq<Event>, x: Incident, floor: Time)
    requires Unannounced(s, x, floor) && NoNews(s, floor) && !Right(s, x) && Legal(s, es)
    requires AllLeaveAlone(es, x.id, s.feed.initial, floor)
    requires forall e :: e in es ==> BringsNothing(e, s.world.hook.filter)
    ensures x in Run(s, es).world.hook.incidents && !Right(Run(s, es), x)
    decreases es
  {
    if es != [] {
      var n := Next(s, es[0]);
      assert es[0] in es;
      PolledOnce(s, es[0], x, floor);
      StillWrong(s, n, x);
      NoNewsStep(s, es[0], x, floor);
      NoNewsKeeps(s, es[0], x, floor);
      StaysForGood(n, es[1..], x, floor);
    }
  }

  /** A deleted incident stays listed as well: there is no delta for a deletion. */
  lemma {:induction false} DeletedStays(s: Session, es: seq<Event>, x: Incident, floor: Time)
    requires Unannounced(s, x, floor) && x.id in s.feed.server.gone && Legal(s, es)
    requires AllLeaveAlone(es, x.id, s.feed.initial, floor)
    ensures x in Run(s, es).world.hook.incidents || EverCrowded(s, es, x)
    decreases es
  {
    if es != [] {
      var n := Next(s, es[0]);
      assert es[0] in es;
      PolledOnce(s, es[0], x, floor);
      if Unannounced(n, x, floor) { DeletedStays(n, es[1..], x, floor); }
    }
  }

  /** Wrong, and neither a delta nor, under a status filter, a crowd will change that. */
  ghost predicate Stranded(s: Session, x: Incident, floor: Time) {
    Unannounced(s, x, floor) && !Right(s, x) && (s.world.hook.filter.Only? ==> NoNews(s, floor))
  }

  // ---- A server that says otherwise ----

  function Ids(items: seq<Incident>): set<Id> { set x | x in items :: x.id }

  function Elsewhere(filter: Filter): string { if filter.Only? then filter.status + "!" else "" }

  /** `r` is what has become of its incident; all else has moved on since, out of the filter if there is one. */
  ghost function Adversary(ids: set<Id>, late: Time, r: Incident, elsewhere: string): Server {
    Server(late, map id | id in ids + {r.id} :: if id == r.id then r else Incident(id, late, elsewhere, ""), map[], {})
  }

  lemma {:induction false} Beyond(items: seq<Incident>, floor: Time) returns (late: Time)
    ensures late > floor && forall x :: x in items ==> x.updatedAt < late
  {
    if items == [] { late := floor + 1; }
    else {
      late := Beyond(items[1..], floor);
      if items[0].updatedAt >= late { late := items[0].updatedAt + 1; }
    }
  }

  lemma {:induction false} BeyondLive(live: map<Id, Time>, floor: Time) returns (late: Time)
    ensures late > floor && forall id :: id in live ==> live[id] < late
    decreases |live|
  {
    if forall id :: id !in live { late := floor + 1; }
    else {
      var id :| id in live;
      late := BeyondLive(live - {id}, floor);
      assert forall k :: k in live && k != id ==> k in live - {id};
      if live[id] >= late { late := live[id] + 1; }
    }
  }

  /** Later than everything the client has seen. */
  ghost predicate IsLate(h: Hook, rows: seq<Incident>, floor: Time, late: Time) {
    && late > floor && (forall x :: x in h.incidents ==> x.updatedAt < late)
    && (forall x :: x in rows ==> x.updatedAt < late) && forall id :: id in h.live ==> h.live[id] < late
  }

  lemma SomeLate(h: Hook, rows: seq<Incident>, floor: Time) returns (late: Time)
    ensures IsLate(h, rows, floor, late)
  {
    var a := Beyond(h.incidents, floor);
    var b := Beyond(rows, a);
    late := BeyondLive(h.live, b);
  }

  ghost function Opponent(h: Hook, rows: seq<Incident>, late: Time, r: Incident): Server {
    Adversary(Ids(h.incidents) + Ids(rows) + h.live.Keys, late, r, Elsewhere(h.filter))
  }

  lemma OpponentRows(h: Hook, rows: seq<Incident>, late: Time, r: Incident)
    requires r.updatedAt < late
    ensures var server := Opponent(h, rows, late, r);
            && ServerOk(server) && server.rows[r.id] == r
            && (forall x :: x in h.incidents || x in rows ==>
                  x.id in server.rows && (x.id != r.id ==> server.rows[x.id].updatedAt == late))
            && (forall id :: id in h.live ==> id in server.rows && (id != r.id ==> server.rows[id].updatedAt == late))
            && (h.filter.Only? ==> forall c :: Current(server, c) && c.id != r.id ==> !h.filter.Accepts(c))
            && (forall c :: Current(server, c) ==> c == r || c.updatedAt == late)
  {
    var server := Opponent(h, rows, late, r);
    forall x | x in h.incidents || x in rows
      ensures x.id in server.rows && (x.id != r.id ==> server.rows[x.id].updatedAt == late)
    {
      assert x.id in Ids(h.incidents) + Ids(rows);
    }
    forall id | id in h.live ensures id in server.rows && (id != r.id ==> server.rows[id].updatedAt == late) {
      assert id in h.live.Keys;
    }
    if h.filter.Only? { assert |Elsewhere(h.filter)| == |h.filter.status| + 1; }
  }

  // ---- Reloads ----

  /**
   Whatever server the client may be facing, accepting this page leaves no row that can stay wrong. A reload
   that does not start the poller anew, with nothing from outside since it began, is safe in any case.
   */
  ghost predicate RefreshSafe(w: Runs.World, data: seq<Incident>, next: Option<Cursor>, mark: Time) {
    forall s: Session ::
      && LoadingInv(s) && s.world == w && s.load == Answered(data, next, mark)
      && !(KeepsPolling(s) && s.poller.Steady?) ==>
        ListInv(Next(s, LoadArrives))
  }

  /** What becomes of the kept row: just before the watermark it was changed, out of the filter if there is one. */
  function Fate(h: Hook, mark: Time, p: Incident): Incident {
    Incident(p.id, mark, Elsewhere(h.filter), "")
  }

  /** A listed row is either the one betrayed, now newer on the server, or one the opponent has moved on. */
  lemma FacedKnown(h: Hook, data: seq<Incident>, mark: Time, late: Time, p: Incident)
    requires Runs.WellShaped(h) && IsLate(h, data, mark, late) && p in h.incidents && p.updatedAt < mark
    requires p.id in h.live && h.live[p.id] == p.updatedAt
    ensures AllKnown(Opponent(h, data, late, Fate(h, mark, p)), h.incidents)
    ensures LiveKnown(Opponent(h, data, late, Fate(h, mark, p)), h)
  {
    OpponentRows(h, data, late, Fate(h, mark, p));
    RankedDistinct(h.incidents);
    FindDistinct(h.incidents, p);
    forall x | x in h.incidents ensures Known(Opponent(h, data, late, Fate(h, mark, p)), x) {
      FindDistinct(h.incidents, x);
    }
  }

  lemma FacedPage(
    server: Server, h: Hook, data: seq<Incident>, next: Option<Cursor>, mark: Time, late: Time, p: Incident)
    requires server == Opponent(h, data, late, Fate(h, mark, p)) && IsLate(h, data, mark, late)
    requires Find(data, p.id).None?
    requires (forall x :: x in data ==> h.filter.Accepts(x)) && (h.filter == All ==> next.Some?)
    ensures ServerOk(server) && Closed(server, mark) && AllSound(server, mark, data)
    ensures next.None? ==> forall r :: Current(server, r) && r.updatedAt <= mark && h.filter.Accepts(r) ==> r in data
  {
    OpponentRows(h, data, late, Fate(h, mark, p));
    if h.filter.Only? { assert |Elsewhere(h.filter)| == |h.filter.status| + 1; }
  }

  lemma FacedWhileLoading(w: Runs.World, data: seq<Incident>, next: Option<Cursor>, mark: Time, late: Time, p: Incident)
    requires Runs.Inv(w) && |w.pages| == 1 && w.pages[0].epoch == w.hook.epoch
    requires (forall x :: x in data ==> w.hook.filter.Accepts(x)) && (w.hook.filter == All ==> next.Some?)
    requires IsLate(w.hook, data, mark, late) && p in w.hook.incidents && Find(data, p.id).None? && p.updatedAt < mark
    requires p.id in w.hook.live && w.hook.live[p.id] == p.updatedAt
    ensures LoadingInv(Session(Feeds.Begun(Opponent(w.hook, data, late, Fate(w.hook, mark, p)), mark), w,
                               Answered(data, next, mark), None, {}, Absent))
  {
    FacedKnown(w.hook, data, mark, late, p);
    FacedPage(Opponent(w.hook, data, late, Fate(w.hook, mark, p)), w.hook, data, next, mark, late, p);
  }

  lemma RefreshStrands(s: Session, p: Incident, late: Time)
    requires LoadingInv(s) && s.load.Answered? && s.poller.Absent?
    requires IsLate(s.world.hook, s.load.data, s.load.mark, late)
    requires s.feed.server == Opponent(s.world.hook, s.load.data, late, Fate(s.world.hook, s.load.mark, p))
    requires p.updatedAt < s.load.mark
    requires var h := s.world.hook;
             p in UniqueById(Fresh(h.live, s.load.data) + Preserved(h.live, h.filter, h.incidents, s.load.data))
    ensures Stranded(Next(s, LoadArrives), p, s.load.mark) && !ListInv(Next(s, LoadArrives))
  {
    ArrivalIsPage(s);
    PageShape(s.world.hook, s.load.data, s.load.next, Some(s.load.mark));
    MergeStrands(Next(s, LoadArrives), s.world.hook, s.load.data, late, Fate(s.world.hook, s.load.mark, p), p);
  }

  lemma PageShape(h: Hook, data: seq<Incident>, next: Option<Cursor>, since: Option<Time>)
    ensures Runs.WellShaped(PageAccepted(h, data, next, since))
  {
    WindowShape(Fresh(h.live, data) + Preserved(h.live, h.filter, h.incidents, data));
  }

  lemma UncleanRow(h: Hook, data: seq<Incident>, mark: Time) returns (p: Incident)
    requires !CleanRefresh(h, data, mark)
    ensures p in h.incidents && p.id in h.live && h.live[p.id] == p.updatedAt && Find(data, p.id).None?
    ensures p.updatedAt < mark
    ensures p in UniqueById(Fresh(h.live, data) + Preserved(h.live, h.filter, h.incidents, data))
  {
    p :| p in Preserved(h.live, h.filter, h.incidents, data)
         && p in UniqueById(Fresh(h.live, data) + Preserved(h.live, h.filter, h.incidents, data))
         && Find(data, p.id).None? && p.updatedAt < mark;
  }

  /** For every reload that breaks the condition there is a server on which a kept row is stranded. */
  lemma UncleanStrands(w: Runs.World, data: seq<Incident>, next: Option<Cursor>, mark: Time)
    returns (s: Session, p: Incident)
    requires Runs.Inv(w) && |w.pages| == 1 && w.pages[0].epoch == w.hook.epoch
    requires (forall x :: x in data ==> w.hook.filter.Accepts(x)) && !RefreshOk(w.hook, data, next, mark)
    ensures LoadingInv(s) && s.world == w && s.load == Answered(data, next, mark) && s.poller.Absent?
    ensures Stranded(Next(s, LoadArrives), p, mark) && !ListInv(Next(s, LoadArrives))
  {
    var h := w.hook;
    p := UncleanRow(h, data, mark);
    var late := SomeLate(h, data, mark);
    var feed := Feeds.Begun(Opponent(h, data, late, Fate(h, mark, p)), mark);
    s := Session(feed, w, Answered(data, next, mark), None, {}, Absent);
    FacedWhileLoading(w, data, next, mark, late, p);
    RefreshStrands(s, p, late);
  }

  /**
   A reload can leave no row that stays wrong if and only if every kept row the page does not mention is
   at least as new as the new watermark, or there is no filter and the page has no cursor.
   */
  lemma RefreshSafeExactly(w: Runs.World, data: seq<Incident>, next: Option<Cursor>, mark: Time)
    requires Runs.Inv(w) && |w.pages| == 1 && w.pages[0].epoch == w.hook.epoch
    requires forall x :: x in data ==> w.hook.filter.Accepts(x)
    ensures RefreshSafe(w, data, next, mark) <==> RefreshOk(w.hook, data, next, mark)
  {
    if RefreshOk(w.hook, data, next, mark) {
      forall s: Session | LoadingInv(s) && s.world == w && s.load == Answered(data, next, mark)
        ensures ListInv(Next(s, LoadArrives))
      {
        ArrivalIsSound(s);
      }
    } else {
      var s, p := UncleanStrands(w, data, next, mark);
    }
  }

  // ---- Merges from outside ----

  ghost predicate MergeSafe(w: Runs.World, origin: Time, accepts: Filter, batch: seq<Incident>)
    requires DistinctIds(batch)
  {
    forall s: Session :: SessionInv(s) && s.world == w && s.feed.initial == origin && AllKnown(s.feed.server, batch) ==>
      ListInv(Next(s, Stray(accepts, batch)))
  }

  /** A session facing the opponent, its poller idle at `watermark`. */
  ghost function Facing(w: Runs.World, origin: Time, watermark: Time, rows: seq<Incident>, late: Time, r: Incident,
                        more: Option<MoreAnswer>): Session {
    var handed := if r.updatedAt > origin then {r} else {};
    var feed := Feeds.Feed(Opponent(w.hook, rows, late, r), origin, watermark, Feeds.Idle, [], [], handed);
    Session(feed, w, Accepted, more, {}, Steady)
  }

  /**
   `r` fits what the client has: it is the only listed version of its incident, in the filter, and the live map
   knows nothing newer.
   */
  ghost predicate Plausible(h: Hook, origin: Time, watermark: Time, r: Incident) {
    && origin <= watermark && r.updatedAt <= watermark
    && (r.id in h.live ==> h.live[r.id] <= r.updatedAt)
    && (r.updatedAt > origin ==> r.id in h.live && h.live[r.id] == r.updatedAt == watermark)
    && (forall y :: y in h.incidents && y.id == r.id ==> y == r && h.filter.Accepts(y))
  }

  lemma FacedInSession(w: Runs.World, origin: Time, watermark: Time, rows: seq<Incident>, late: Time, r: Incident,
                       more: Option<MoreAnswer>)
    requires Runs.Inv(w) && w.pages == [] && IsLate(w.hook, rows, watermark, late)
    requires Plausible(w.hook, origin, watermark, r)
    requires forall x :: x in rows && x.id == r.id ==> x.updatedAt < r.updatedAt || x == r
    requires more.Some? ==> more.value.early && more.value.data == rows
    ensures var s := Facing(w, origin, watermark, rows, late, r, more);
            SessionInv(s) && AllKnown(s.feed.server, rows)
  {
    var s := Facing(w, origin, watermark, rows, late, r, more);
    OpponentRows(w.hook, rows, late, r);
    FacedFeed(s.feed, watermark, late, r);
    FacedRows(s.feed, w.hook, rows, late, r, watermark);
    FacedMore(s, rows);
    Together(s);
  }

  lemma FacedMore(s: Session, rows: seq<Incident>)
    requires s.load.Accepted? && AllKnown(s.feed.server, rows)
    requires s.more.Some? ==> s.more.value.early && s.more.value.data == rows
    ensures MoreInv(s)
  {
  }

  lemma FacedRows(f: Feeds.Feed, h: Hook, rows: seq<Incident>, late: Time, r: Incident, watermark: Time)
    requires f.server == Opponent(h, rows, late, r) && IsLate(h, rows, watermark, late)
    requires Plausible(h, f.initial, watermark, r)
    requires f.handed == if r.updatedAt > f.initial then {r} else {}
    requires forall x :: x in rows && x.id == r.id ==> x.updatedAt < r.updatedAt || x == r
    ensures ListFits(f, h) && RecordedIn(f.handed, h) && AllKnown(f.server, rows)
  {
    OpponentRows(h, rows, late, r);
    forall x | x in h.incidents ensures RowFits(f, h.filter, x) {
      assert x.id in f.server.rows;
    }
    forall id | id in h.live ensures id in f.server.rows && h.live[id] <= f.server.rows[id].updatedAt {
      assert h.live[id] < late;
    }
  }

  lemma FacedFeed(f: Feeds.Feed, watermark: Time, late: Time, r: Incident)
    requires ServerOk(f.server) && f.server.writers == map[] && f.server.clock == late && f.poll.Idle? && f.late == []
    requires f.initial <= f.watermark == watermark < late && r.updatedAt <= watermark
    requires r.id in f.server.rows && f.server.rows[r.id] == r
    requires forall c :: Current(f.server, c) ==> c == r || c.updatedAt == late
    requires f.handed == if r.updatedAt > f.initial then {r} else {}
    ensures Feeds.FeedInv(f)
  {
  }

  /** On the session after a merge the row the opponent betrays is stranded. */
  lemma MergeStrands(n: Session, h: Hook, rows: seq<Incident>, late: Time, r: Incident, x: Incident)
    requires n.load.Accepted? && n.world.hook.filter == h.filter && n.feed.initial <= n.feed.watermark < late
    requires n.feed.server == Opponent(h, rows, late, r) && n.feed.poll.Idle? && n.feed.orphans == []
    requires n.feed.late == []
    requires r.updatedAt <= n.feed.watermark && x.id == r.id
    requires r.updatedAt > n.feed.initial ==> r in n.feed.handed
    requires Runs.WellShaped(n.world.hook) && x in n.world.hook.incidents
    requires if x == r then !h.filter.Accepts(x) else r.updatedAt <= n.feed.initial
    ensures Stranded(n, x, n.feed.watermark) && !ListInv(n)
  {
    OpponentRows(h, rows, late, r);
    assert Right(n, x) ==> x == r;
    assert !RowFits(n.feed, n.world.hook.filter, x);
  }

  /** The version the opponent gives the incident of a row that is not careful, and where its poller stands. */
  ghost predicate Betrays(h: Hook, origin: Time, x: Incident, r: Incident, watermark: Time) {
    && x.id == r.id && Plausible(h, origin, watermark, r)
    && (x.updatedAt < r.updatedAt || x == r)
    && if x == r then !h.filter.Accepts(x) else r.updatedAt <= origin
  }

  lemma Betrayal(h: Hook, origin: Time, x: Incident) returns (r: Incident, watermark: Time)
    requires Runs.WellShaped(h) && x !in h.incidents && NotOlder(h.live, x) && !RowOk(h, origin, x)
    ensures Betrays(h, origin, x, r, watermark)
  {
    RankedDistinct(h.incidents);
    match Find(h.incidents, x.id)
    case Some(y) =>
      r, watermark := y, origin;
      forall z | z in h.incidents && z.id == y.id ensures z == y { FindDistinct(h.incidents, z); }
    case None =>
      if x.updatedAt < origin {
        r, watermark := Incident(x.id, origin, Elsewhere(h.filter), ""), origin;
      } else {
        r, watermark := x, x.updatedAt;
      }
  }

  lemma CarelessRow(h: Hook, origin: Time, accepts: Filter, batch: seq<Incident>) returns (x: Incident)
    requires !MergeOk(h, origin, accepts, batch)
    ensures x in batch && x in ChangesMerged(h, accepts, batch).incidents && x !in h.incidents
    ensures NotOlder(h.live, x) && !RowOk(h, origin, x)
  {
    x :| x in batch && x in ChangesMerged(h, accepts, batch).incidents && x !in h.incidents && !RowOk(h, origin, x);
    MergedFrom(h, accepts, batch);
    assert Entered(h, accepts, batch, x);
  }

  lemma OneOfItsId(rows: seq<Incident>, x: Incident)
    requires DistinctIds(rows) && x in rows
    ensures forall z :: z in rows && z.id == x.id ==> z == x
  {
    forall z | z in rows && z.id == x.id ensures z == x {
      FindDistinct(rows, z);
      FindDistinct(rows, x);
    }
  }

  /** For every merge that is not careful there is a session on which the row is stranded. */
  lemma CarelessMergeStrands(w: Runs.World, origin: Time, accepts: Filter, batch: seq<Incident>)
    returns (s: Session, x: Incident)
    requires Runs.Inv(w) && w.pages == [] && DistinctIds(batch) && !MergeOk(w.hook, origin, accepts, batch)
    ensures SessionInv(s) && s.world == w && s.feed.initial == origin && AllKnown(s.feed.server, batch)
    ensures Stranded(Next(s, Stray(accepts, batch)), x, s.feed.watermark) && !ListInv(Next(s, Stray(accepts, batch)))
  {
    x := CarelessRow(w.hook, origin, accepts, batch);
    var r, watermark := Betrayal(w.hook, origin, x);
    var late := SomeLate(w.hook, batch, watermark);
    OneOfItsId(batch, x);
    FacedInSession(w, origin, watermark, batch, late, r, None);
    s := Facing(w, origin, watermark, batch, late, r, None);
    MergeFaced(s, accepts, batch, late, r, x);
  }

  lemma MergeFaced(s: Session, accepts: Filter, batch: seq<Incident>, late: Time, r: Incident, x: Incident)
    requires s.load.Accepted? && Runs.Inv(s.world) && DistinctIds(batch) && AllKnown(s.feed.server, batch)
    requires s.feed.server == Opponent(s.world.hook, batch, late, r) && s.feed.poll.Idle? && s.feed.orphans == []
    requires s.feed.late == []
    requires s.feed.watermark < late && Betrays(s.world.hook, s.feed.initial, x, r, s.feed.watermark)
    requires r.updatedAt > s.feed.initial ==> r in s.feed.handed
    requires x in ChangesMerged(s.world.hook, accepts, batch).incidents
    ensures Stranded(Next(s, Stray(accepts, batch)), x, s.feed.watermark) && !ListInv(Next(s, Stray(accepts, batch)))
  {
    StrayIsMerge(s, accepts, batch);
    MergeKeepsRuns(s.world, accepts, batch);
    MergeStrands(Next(s, Stray(accepts, batch)), s.world.hook, batch, late, r, x);
  }

  lemma CarefulMergeIsSafe(w: Runs.World, origin: Time, accepts: Filter, batch: seq<Incident>)
    requires DistinctIds(batch) && MergeOk(w.hook, origin, accepts, batch)
    ensures MergeSafe(w, origin, accepts, batch)
  {
    forall s: Session | SessionInv(s) && s.world == w && s.feed.initial == origin && AllKnown(s.feed.server, batch)
      ensures ListInv(Next(s, Stray(accepts, batch)))
    {
      CarefulMergeFits(s, accepts, batch);
    }
  }

  lemma CarefulMergeFits(s: Session, accepts: Filter, batch: seq<Incident>)
    requires SessionInv(s) && DistinctIds(batch) && AllKnown(s.feed.server, batch)
    requires MergeOk(s.world.hook, s.feed.initial, accepts, batch)
    ensures ListInv(Next(s, Stray(accepts, batch)))
  {
    StrayIsMerge(s, accepts, batch);
    StrayList(s, accepts, batch);
  }

  /**
   A merge from outside the session can leave no row that stays wrong if and only if every row that enters
   the list by it is careful: no older than the session's origin and in the filter, or still to be
   delivered, or beside a listed version that shows it.
   */
  lemma MergeSafeExactly(w: Runs.World, origin: Time, accepts: Filter, batch: seq<Incident>)
    requires Runs.Inv(w) && w.pages == [] && DistinctIds(batch)
    ensures MergeSafe(w, origin, accepts, batch) <==> MergeOk(w.hook, origin, accepts, batch)
  {
    if MergeOk(w.hook, origin, accepts, batch) {
      CarefulMergeIsSafe(w, origin, accepts, batch);
    } else {
      var s, x := CarelessMergeStrands(w, origin, accepts, batch);
    }
  }

  // ---- An early "load more" ----

  ghost predicate MoreSafe(w: Runs.World, origin: Time, data: seq<Incident>, next: Option<Cursor>)
    requires |w.mores| == 1
  {
    forall s: Session ::
      SessionInv(s) && s.world == w && s.feed.initial == origin && s.more == Some(MoreAnswer(data, next, true)) ==>
        ListInv(Next(s, MoreArrives))
  }

  lemma CarelessMoreRow(h: Hook, origin: Time, filter: Filter, data: seq<Incident>, next: Option<Cursor>)
    returns (x: Incident)
    requires !MoreOk(h, origin, filter, data, next)
    ensures x in data && x in MoreAccepted(h, filter, data, next).incidents && NotOlder(h.live, x)
    ensures Find(h.incidents, x.id).None? && x.updatedAt < origin
  {
    x :| x in data && x in MoreAccepted(h, filter, data, next).incidents && x !in h.incidents
         && Find(h.incidents, x.id).None? && x.updatedAt < origin;
    MoreFrom(h, filter, data, next, x);
  }

  lemma MoreShape(h: Hook, filter: Filter, data: seq<Incident>, next: Option<Cursor>)
    ensures Runs.WellShaped(MoreSettled(MoreAccepted(h, filter, data, next)))
  {
    WindowShape(h.incidents + InFilter(filter, Fresh(h.live, data)));
  }

  lemma MoreFaced(s: Session, late: Time, r: Incident, x: Incident)
    requires s.load.Accepted? && s.more.Some? && |s.world.mores| == 1 && s.world.mores[0].epoch == s.world.hook.epoch
    requires s.feed.server == Opponent(s.world.hook, s.more.value.data, late, r)
    requires s.feed.poll.Idle? && s.feed.orphans == [] && s.feed.late == []
    requires s.feed.initial <= s.feed.watermark < late && r.updatedAt <= s.feed.initial && x.id == r.id
    requires x.updatedAt < r.updatedAt
    requires x in MoreAccepted(s.world.hook, s.world.mores[0].filter, s.more.value.data, s.more.value.next).incidents
    ensures Stranded(Next(s, MoreArrives), x, s.feed.watermark) && !ListInv(Next(s, MoreArrives))
  {
    MoreIsAdded(s);
    MoreShape(s.world.hook, s.world.mores[0].filter, s.more.value.data, s.more.value.next);
    MergeStrands(Next(s, MoreArrives), s.world.hook, s.more.value.data, late, r, x);
  }

  lemma CarelessMoreStrands(w: Runs.World, origin: Time, data: seq<Incident>, next: Option<Cursor>)
    returns (s: Session, x: Incident)
    requires Runs.Inv(w) && w.pages == [] && |w.mores| == 1 && w.mores[0].epoch == w.hook.epoch
    requires !MoreOk(w.hook, origin, w.mores[0].filter, data, next) && DistinctIds(data)
    ensures SessionInv(s) && s.world == w && s.feed.initial == origin && s.more == Some(MoreAnswer(data, next, true))
    ensures Stranded(Next(s, MoreArrives), x, s.feed.watermark) && !ListInv(Next(s, MoreArrives))
  {
    x := CarelessMoreRow(w.hook, origin, w.mores[0].filter, data, next);
    var r := Incident(x.id, origin, Elsewhere(w.hook.filter), "");
    var late := SomeLate(w.hook, data, origin);
    OneOfItsId(data, x);
    FacedInSession(w, origin, origin, data, late, r, Some(MoreAnswer(data, next, true)));
    s := Facing(w, origin, origin, data, late, r, Some(MoreAnswer(data, next, true)));
    MoreFaced(s, late, r, x);
  }

  lemma CarefulMoreIsSafe(w: Runs.World, origin: Time, data: seq<Incident>, next: Option<Cursor>)
    requires |w.mores| == 1 && w.mores[0].epoch == w.hook.epoch && MoreOk(w.hook, origin, w.mores[0].filter, data, next)
    ensures MoreSafe(w, origin, data, next)
  {
    forall s: Session |
      SessionInv(s) && s.world == w && s.feed.initial == origin && s.more == Some(MoreAnswer(data, next, true))
      ensures ListInv(Next(s, MoreArrives))
    {
      MoreList(s);
    }
  }

  /**
   A "load more" answer read before the bounds of the page can leave no row that stays wrong if and only
   if no row it adds is older than them.
   */
  lemma MoreSafeExactly(w: Runs.World, origin: Time, data: seq<Incident>, next: Option<Cursor>)
    requires Runs.Inv(w) && w.pages == [] && |w.mores| == 1 && w.mores[0].epoch == w.hook.epoch && DistinctIds(data)
    ensures MoreSafe(w, origin, data, next) <==> MoreOk(w.hook, origin, w.mores[0].filter, data, next)
  {
    if MoreOk(w.hook, origin, w.mores[0].filter, data, next) {
      CarefulMoreIsSafe(w, origin, data, next);
    } else {
      var s, x := CarelessMoreStrands(w, origin, data, next);
    }
  }

  // ---- Versions within a session ----

  ghost predicate NeverLowers(h: Hook, filter: Filter, changes: seq<Incident>) {
    forall x, y :: x in h.incidents && y in ChangesMerged(h, filter, changes).incidents && y.id == x.id ==>
      y.updatedAt >= x.updatedAt
  }

  /** A change that is accepted although its incident is listed at a newer version. */
  ghost predicate IsOlderChange(h: Hook, filter: Filter, changes: seq<Incident>, c: Incident) {
    && c in changes && NotOlder(h.live, c) && filter.Accepts(c)
    && exists x :: x in h.incidents && x.id == c.id && c.updatedAt < x.updatedAt
  }

  ghost predicate NoOlderChange(h: Hook, filter: Filter, changes: seq<Incident>) {
    forall c :: !IsOlderChange(h, filter, changes, c)
  }

  /** An accepted change in the filter is listed, or crowded out. */
  lemma ChangeIsMerged(h: Hook, filter: Filter, changes: seq<Incident>, c: Incident)
    requires DistinctIds(changes) && c in changes && NotOlder(h.live, c) && filter.Accepts(c)
    ensures var list := ChangesMerged(h, filter, changes).incidents; c in list || Crowded(list, c)
  {
    var valid := Fresh(h.live, changes);
    var items := Unmentioned(valid, h.incidents) + InFilter(filter, valid);
    assert c in valid && c in items;
    forall y | y in items && y.id == c.id ensures y == c {
      assert Mentions(valid, c.id);
      FindDistinct(changes, y);
      FindDistinct(changes, c);
    }
    AloneOfItsId(items, c);
  }

  lemma MergedRowFrom(h: Hook, filter: Filter, changes: seq<Incident>, x: Incident, y: Incident)
    requires DistinctIds(h.incidents) && x in h.incidents
    requires y in ChangesMerged(h, filter, changes).incidents && y.id == x.id
    ensures y == x || (y in changes && NotOlder(h.live, y) && filter.Accepts(y))
  {
    MergedFrom(h, filter, changes);
    assert Entered(h, filter, changes, y);
    FindDistinct(h.incidents, x);
    if y in h.incidents { FindDistinct(h.incidents, y); }
  }

  lemma NotBoth(list: seq<Incident>, x: Incident)
    ensures !(x in list && Crowded(list, x))
  {
    assert !Outranks(x, x);
  }

  /**
   Merging never lowers the version of a listed incident if and only if every accepted change that is older than
   the listed row of its id is crowded out: the guard of the merge compares with recorded live times only.
   */
  lemma NeverLowersExactly(h: Hook, filter: Filter, changes: seq<Incident>)
    requires DistinctIds(h.incidents) && DistinctIds(changes)
    ensures NeverLowers(h, filter, changes) <==>
              forall c :: IsOlderChange(h, filter, changes, c) ==>
                Crowded(ChangesMerged(h, filter, changes).incidents, c)
  {
    var list := ChangesMerged(h, filter, changes).incidents;
    forall c | IsOlderChange(h, filter, changes, c) ensures c in list <==> !Crowded(list, c) {
      ChangeIsMerged(h, filter, changes, c);
      NotBoth(list, c);
    }
    forall x, y | x in h.incidents && y in list && y.id == x.id
      ensures y.updatedAt >= x.updatedAt || IsOlderChange(h, filter, changes, y)
    {
      MergedRowFrom(h, filter, changes, x, y);
    }
  }

  lemma {:induction false} RankedCount(items: seq<Incident>)
    ensures |Ranked(items)| <= |items|
  {
    if items != [] {
      var front, x := items[..|items| - 1], items[|items| - 1];
      RankedCount(front);
      WithoutCount(Ranked(front), x.id);
    }
  }

  lemma {:induction false} WithoutCount(s: seq<Incident>, id: Id)
    ensures |Without(s, id)| <= |s|
  {
    if s != [] { WithoutCount(s[1..], id); }
  }

  lemma {:induction false} KeepCount(items: seq<Incident>, p: Incident -> bool)
    ensures |Keep(items, p)| <= |items|
  {
    if items != [] { KeepCount(items[1..], p); }
  }

  lemma RoomForAll(h: Hook, filter: Filter, changes: seq<Incident>, c: Incident)
    requires |h.incidents| + |changes| <= MAX_RETAINED_INCIDENTS && DistinctIds(changes)
    requires c in changes && NotOlder(h.live, c) && filter.Accepts(c)
    ensures c in ChangesMerged(h, filter, changes).incidents
  {
    var valid := Fresh(h.live, changes);
    KeepCount(changes, (x: Incident) => NotOlder(h.live, x));
    KeepCount(h.incidents, (x: Incident) => !Mentions(valid, x.id));
    KeepCount(valid, (x: Incident) => filter.Accepts(x));
    var items := Unmentioned(valid, h.incidents) + InFilter(filter, valid);
    RankedCount(items);
    assert c in valid && c in items;
    forall y | y in items && y.id == c.id ensures y == c {
      assert Mentions(valid, c.id);
      FindDistinct(changes, y);
      FindDistinct(changes, c);
    }
    AloneOfItsId(items, c);
  }

  /** With room for all of them, if and only if no accepted change is older than the listed row of its id. */
  lemma NeverLowersWithRoom(h: Hook, filter: Filter, changes: seq<Incident>)
    requires DistinctIds(h.incidents) && DistinctIds(changes)
    requires |h.incidents| + |changes| <= MAX_RETAINED_INCIDENTS
    ensures NeverLowers(h, filter, changes) <==> NoOlderChange(h, filter, changes)
  {
    NeverLowersExactly(h, filter, changes);
    var list := ChangesMerged(h, filter, changes).incidents;
    forall c | IsOlderChange(h, filter, changes, c) ensures !Crowded(list, c) {
      RoomForAll(h, filter, changes, c);
      NotBoth(list, c);
    }
  }
}
