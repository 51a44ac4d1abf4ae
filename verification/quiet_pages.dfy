/** Loading page by page from a server that nothing writes to (dashboard/src/hooks/useIncidents.js:47-115). */
module QuietPages {
  import opened Incidents
  import opened RankedWindow
  import opened UseIncidents
  import opened IncidentsServer
  import opened IncidentSync
  import Runs = IncidentRuns
  import Feeds = ChangeFeed

  // ---- Pages of a quiet server ----

  predicate Quiet(server: Server, bound: Time) {
    forall id :: id in server.rows ==> server.rows[id].updatedAt <= bound
  }

  lemma NewestIsRanked(server: Server, data: seq<Incident>)
    requires Newest(data) && forall x :: x in data ==> Current(server, x)
    ensures IsRanked(data)
    decreases |data|
  {
    if data != [] {
      forall y | y in data[1..] ensures Outranks(data[0], y) && y.id != data[0].id {
        var k :| 0 <= k < |data[1..]| && data[1..][k] == y;
        assert data[k + 1] == y && Before(data[k + 1], KeyOf(data[0]));
        assert Current(server, data[0]) && Current(server, y);
      }
      TailNewest(data);
      NewestIsRanked(server, data[1..]);
    }
  }

  lemma TailNewest(data: seq<Incident>)
    requires data != [] && Newest(data)
    ensures Newest(data[1..])
  {
    forall i, j | 0 <= i < j < |data[1..]| ensures Before(data[1..][j], KeyOf(data[1..][i])) {
      assert data[1..][i] == data[i + 1] && data[1..][j] == data[j + 1];
    }
  }

  lemma {:induction false} JoinRanked(a: seq<Incident>, b: seq<Incident>)
    requires IsRanked(a) && IsRanked(b)
    requires forall x, y :: x in a && y in b ==> Outranks(x, y) && x.id != y.id
    ensures IsRanked(a + b)
  {
    if a == [] {
      assert a + b == b;
    } else {
      JoinRanked(a[1..], b);
      assert (a + b)[1..] == a[1..] + b;
    }
  }

  lemma {:induction false} KeepAll(items: seq<Incident>, p: Incident -> bool)
    requires forall x :: x in items ==> p(x)
    ensures Keep(items, p) == items
  {
    if items != [] { KeepAll(items[1..], p); }
  }

  /** The rows of the filter down to the cursor, or all of them. */
  predicate DownTo(server: Server, filter: Filter, cursor: Option<Cursor>, c: Incident) {
    Current(server, c) && filter.Accepts(c) && (cursor.Some? ==> !Before(c, cursor.value))
  }

  /** A page that goes on from a cursor extends what goes down to it to what goes down to its own. */
  lemma PageExtends(server: Server, filter: Filter, cursor: Option<Cursor>, cutoff: Time, limit: nat,
                    data: seq<Incident>, next: Option<Cursor>, c: Incident)
    requires Quiet(server, cutoff) && ListPage(server, filter, cursor, cutoff, limit, data, next)
    ensures DownTo(server, filter, next, c) <==> (cursor.Some? && DownTo(server, filter, cursor, c)) || c in data
  {
    if c !in data && Listed(server, filter, cursor, cutoff, c) && next.Some? { assert data[limit - 1] in data; }
    if c in data {
      assert Listed(server, filter, cursor, cutoff, c);
      if next.Some? { LastOfPage(data, c); }
    }
    if cursor.Some? && next.Some? {
      assert data[limit - 1] in data && Listed(server, filter, cursor, cutoff, data[limit - 1]);
    }
  }

  lemma LastOfPage(data: seq<Incident>, c: Incident)
    requires Newest(data) && c in data
    ensures !Before(c, KeyOf(data[|data| - 1]))
  {
    var k :| 0 <= k < |data| && data[k] == c;
    if k < |data| - 1 { assert Before(data[|data| - 1], KeyOf(data[k])); }
  }

  // ---- The list ----

  /** Newest first, at most 100, and exactly the rows of the filter down to the cursor: all of them without one. */
  ghost predicate ListsDownTo(server: Server, h: Hook) {
    && IsRanked(h.incidents) && |h.incidents| <= 100 && h.loadedCount == |h.incidents|
    && forall c :: c in h.incidents <==> DownTo(server, h.filter, h.cursor, c)
  }

  /** The first page is the list. */
  lemma FirstPageIsList(server: Server, h: Hook, cutoff: Time, limit: nat, data: seq<Incident>, next: Option<Cursor>,
                        since: Option<Time>)
    requires h.incidents == [] && h.live == map[] && limit <= 100
    requires Quiet(server, cutoff) && ListPage(server, h.filter, None, cutoff, limit, data, next)
    ensures var n := PageAccepted(h, data, next, since);
            n.incidents == data && n.filter == h.filter && n.live == map[] && ListsDownTo(server, n)
  {
    forall x | x in data ensures Current(server, x) { assert Listed(server, h.filter, None, cutoff, x); }
    NewestIsRanked(server, data);
    KeepAll(data, (x: Incident) => NotOlder(h.live, x));
    assert Preserved(h.live, h.filter, [], data) == [] && data + [] == data;
    RankedFixed(data);
    forall c ensures c in data <==> DownTo(server, h.filter, next, c) {
      PageExtends(server, h.filter, None, cutoff, limit, data, next, c);
    }
  }

  /** A further page goes behind the list. */
  lemma FurtherPage(server: Server, h: Hook, cutoff: Time, limit: nat, data: seq<Incident>, next: Option<Cursor>)
    requires ListsDownTo(server, h) && h.cursor.Some? && h.live == map[] && |h.incidents| + limit <= 100
    requires Quiet(server, cutoff) && ListPage(server, h.filter, h.cursor, cutoff, limit, data, next)
    ensures var n := MoreSettled(MoreAccepted(h, h.filter, data, next));
            n.incidents == h.incidents + data && n.filter == h.filter && n.live == map[] && ListsDownTo(server, n)
  {
    forall x | x in data ensures Current(server, x) && h.filter.Accepts(x) && Before(x, h.cursor.value) {
      assert Listed(server, h.filter, h.cursor, cutoff, x);
    }
    NewestIsRanked(server, data);
    BehindCursor(server, h, data);
    JoinRanked(h.incidents, data);
    KeepAll(data, (x: Incident) => NotOlder(h.live, x));
    KeepAll(data, (x: Incident) => h.filter.Accepts(x));
    RankedFixed(h.incidents + data);
    forall c ensures c in h.incidents + data <==> DownTo(server, h.filter, next, c) {
      PageExtends(server, h.filter, h.cursor, cutoff, limit, data, next, c);
    }
  }

  lemma BehindCursor(server: Server, h: Hook, data: seq<Incident>)
    requires ListsDownTo(server, h) && h.cursor.Some?
    requires forall x :: x in data ==> Current(server, x) && Before(x, h.cursor.value)
    ensures forall x, y :: x in h.incidents && y in data ==> Outranks(x, y) && x.id != y.id
  {
    forall x, y | x in h.incidents && y in data ensures Outranks(x, y) && x.id != y.id {
      assert DownTo(server, h.filter, h.cursor, x) && Current(server, x) && Current(server, y);
    }
  }

  // ---- Runs on a quiet server ----

  /** Every bound the poller has read is above all rows, and it has nothing in flight. */
  ghost predicate FeedQuiet(f: Feeds.Feed) {
    && Quiet(f.server, f.initial) && Quiet(f.server, f.watermark)
    && (forall o :: o in f.orphans ==> Quiet(f.server, o.since)) && (forall data :: data in f.late ==> data == [])
    && match f.poll
       case Idle => true
       case Asked(_, least) => least.Some? ==> Quiet(f.server, least.value)
       case Bounded(_, least, _, mark) => Quiet(f.server, mark) && (least.Some? ==> Quiet(f.server, least.value))
       case Answered(least, data, _, mark) =>
         data == [] && Quiet(f.server, mark) && (least.Some? ==> Quiet(f.server, least.value))
  }

  /** Nothing writes or reloads; the clock, the poller, and requests for further pages go on. */
  predicate Calm(s: Session, e: Event) {
    match e
    case ServerActs(a) => a.Tick?
    case MoreRows(cutoff, _, _) => Quiet(s.feed.server, cutoff)
    case Reloads(_, _) => false
    case Stray(_, _) => false
    case DirectReads(_) => false
    case DirectArrives(_) => false
    case _ => true
  }

  ghost predicate CalmRun(s: Session, es: seq<Event>)
    requires Legal(s, es)
    decreases es
  {
    es == [] || (Calm(s, es[0]) && CalmRun(Next(s, es[0]), es[1..]))
  }

  /** A page of the server as it is, read while all rows were below its bound. */
  ghost predicate QuietPage(server: Server, filter: Filter, cursor: Option<Cursor>, limit: nat, data: seq<Incident>,
                            next: Option<Cursor>)
  {
    exists cutoff :: Quiet(server, cutoff) && ListPage(server, filter, cursor, cutoff, limit, data, next)
  }

  ghost predicate FirstLoad(s: Session) {
    && s.poller.Absent? && s.world.hook.incidents == [] && s.world.hook.cursor.None? && s.world.hook.live == map[]
    && !s.world.hook.moreInFlight && s.world.mores == [] && s.more.None?
    && |s.world.pages| == 1 && s.world.pages[0].epoch == s.world.hook.epoch
    && s.world.pages[0].limit == (if s.world.hook.limit <= 100 then s.world.hook.limit else 100)
    && match s.load
       case Requested => true
       case Bounded(cutoff, mark) => Quiet(s.feed.server, cutoff) && Quiet(s.feed.server, mark)
       case Answered(data, next, mark) =>
         && Quiet(s.feed.server, mark)
         && QuietPage(s.feed.server, s.world.hook.filter, None, s.world.pages[0].limit, data, next)
       case Accepted => false
  }

  /** With more to load, no fewer rows are listed than the limit says. */
  predicate FullPages(h: Hook) {
    h.cursor.Some? ==> |h.incidents| == 100 || |h.incidents| >= h.limit
  }

  /** The request for a further page, if one is out, goes on from the cursor of the list. */
  ghost predicate MoreQuiet(s: Session) {
    var h := s.world.hook;
    && |s.world.mores| <= 1 && (h.moreInFlight <==> |s.world.mores| == 1) && (s.more.Some? ==> |s.world.mores| == 1)
    && (|s.world.mores| == 1 ==>
          var r := s.world.mores[0];
          && r.epoch == h.epoch && r.filter == h.filter && h.cursor == Some(r.cursor)
          && |h.incidents| + r.limit <= 100
          && (s.more.Some? ==>
                QuietPage(s.feed.server, h.filter, h.cursor, r.limit, s.more.value.data, s.more.value.next)))
  }

  ghost predicate Paging(s: Session) {
    && s.load.Accepted? && FeedQuiet(s.feed) && s.world.hook.live == map[]
    && ListsDownTo(s.feed.server, s.world.hook) && MoreQuiet(s) && FullPages(s.world.hook)
  }

  ghost predicate PagesInv(s: Session) {
    && ServerOk(s.feed.server) && s.feed.server.writers == map[]
    && if s.load.Accepted? then Paging(s) else FirstLoad(s)
  }

  /** A page depends on the rows alone. */
  lemma SamePage(a: Server, b: Server, filter: Filter, cursor: Option<Cursor>, limit: nat, data: seq<Incident>,
                 next: Option<Cursor>)
    requires b.rows == a.rows && QuietPage(a, filter, cursor, limit, data, next)
    ensures QuietPage(b, filter, cursor, limit, data, next)
  {
    var cutoff :| Quiet(a, cutoff) && ListPage(a, filter, cursor, cutoff, limit, data, next);
    forall r ensures Listed(b, filter, cursor, cutoff, r) == Listed(a, filter, cursor, cutoff, r) { }
    assert Quiet(b, cutoff) && ListPage(b, filter, cursor, cutoff, limit, data, next);
  }

  lemma TickPaging(s: Session)
    requires PagesInv(s) && Enabled(s, ServerActs(Tick))
    ensures PagesInv(Next(s, ServerActs(Tick)))
  {
    var n := Next(s, ServerActs(Tick));
    var a, b, h := s.feed.server, n.feed.server, s.world.hook;
    if s.load.Accepted? {
      forall c ensures DownTo(b, h.filter, h.cursor, c) == DownTo(a, h.filter, h.cursor, c) { }
      if s.more.Some? {
        SamePage(a, b, h.filter, h.cursor, s.world.mores[0].limit, s.more.value.data, s.more.value.next);
      }
    } else if s.load.Answered? {
      SamePage(a, b, h.filter, None, s.world.pages[0].limit, s.load.data, s.load.next);
    }
  }

  lemma LoadPaging(s: Session, e: Event)
    requires PagesInv(s) && Enabled(s, e) && (e.LoadBounds? || e.LoadRows?)
    ensures PagesInv(Next(s, e))
  {
    if e.LoadRows? {
      assert ListPage(s.feed.server, s.world.hook.filter, None, s.load.cutoff, s.world.pages[0].limit, e.data, e.next);
    }
  }

  lemma ArrivesPaging(s: Session)
    requires PagesInv(s) && Enabled(s, LoadArrives)
    ensures PagesInv(Next(s, LoadArrives))
    ensures Next(s, LoadArrives).world.hook.incidents == s.load.data
  {
    var h, limit := s.world.hook, s.world.pages[0].limit;
    var cutoff :| Quiet(s.feed.server, cutoff)
                  && ListPage(s.feed.server, h.filter, None, cutoff, limit, s.load.data, s.load.next);
    FirstPageIsList(s.feed.server, h, cutoff, limit, s.load.data, s.load.next, Some(s.load.mark));
    PagingBegins(s, Next(s, LoadArrives));
  }

  lemma PagingBegins(s: Session, n: Session)
    requires PagesInv(s) && Enabled(s, LoadArrives) && n == Next(s, LoadArrives)
    requires var p := PageAccepted(s.world.hook, s.load.data, s.load.next, Some(s.load.mark));
             ListsDownTo(s.feed.server, p) && p.live == map[] && FullPages(p)
    ensures PagesInv(n)
    ensures n.world.hook == PageAccepted(s.world.hook, s.load.data, s.load.next, Some(s.load.mark))
  {
  }

  lemma MoreRowsPaging(s: Session, cutoff: Time, data: seq<Incident>, next: Option<Cursor>)
    requires PagesInv(s) && Enabled(s, MoreRows(cutoff, data, next)) && Quiet(s.feed.server, cutoff)
    ensures PagesInv(Next(s, MoreRows(cutoff, data, next)))
  {
    assert ListPage(s.feed.server, s.world.hook.filter, s.world.hook.cursor, cutoff, s.world.mores[0].limit,
                    data, next);
  }

  lemma MoreArrivesPaging(s: Session)
    requires PagesInv(s) && Enabled(s, MoreArrives)
    ensures PagesInv(Next(s, MoreArrives))
    ensures Next(s, MoreArrives).world.hook.incidents == s.world.hook.incidents + s.more.value.data
  {
    var h, r, a := s.world.hook, s.world.mores[0], s.more.value;
    var cutoff :| Quiet(s.feed.server, cutoff)
                  && ListPage(s.feed.server, h.filter, h.cursor, cutoff, r.limit, a.data, a.next);
    FurtherPage(s.feed.server, h, cutoff, r.limit, a.data, a.next);
    MoreIsAdded(s);
    PagingGoesOn(s, Next(s, MoreArrives));
  }

  lemma PagingGoesOn(s: Session, n: Session)
    requires PagesInv(s) && Enabled(s, MoreArrives) && n == Next(s, MoreArrives)
    requires ListsDownTo(s.feed.server, n.world.hook) && n.world.hook.live == map[] && FullPages(n.world.hook)
    ensures PagesInv(n)
  {
  }

  lemma MoreOtherPaging(s: Session, e: Event)
    requires PagesInv(s) && Enabled(s, e) && (e.MoreAsks? || e.MoreFails?)
    ensures PagesInv(Next(s, e))
  {
  }

  lemma NothingChanged(server: Server, since: Time, cursor: Option<Cursor>, cutoff: Time, limit: nat,
                       data: seq<Incident>, next: Option<Cursor>)
    requires Quiet(server, since) && ChangesPage(server, since, cursor, cutoff, limit, data, next)
    ensures data == []
  {
    assert data != [] ==> data[0] in data && Changed(server, since, cursor, cutoff, data[0]);
  }

  lemma PollIsQuiet(f: Feeds.Feed, step: Feeds.Event)
    requires ServerOk(f.server) && f.server.writers == map[] && FeedQuiet(f)
    requires Feeds.Enabled(f, step) && !step.ServerActs?
    ensures FeedQuiet(Feeds.Next(f, step)) && Feeds.Next(f, step).server == f.server && Delivered(f, step) == []
  {
    match step
    case RowsRead(data, next) =>
      NothingChanged(f.server, f.watermark, f.poll.cursor, f.poll.cutoff, Feeds.CHANGES_LIMIT, data, next);
    case OrphanRead(k, cutoff, data, next) =>
      assert f.orphans[k] in f.orphans;
      NothingChanged(f.server, f.orphans[k].since, f.orphans[k].cursor, cutoff, Feeds.CHANGES_LIMIT, data, next);
    case LateArrives(k) => assert f.late[k] in f.late;
    case _ =>
  }

  lemma PollPaging(s: Session, step: Feeds.Event)
    requires PagesInv(s) && Enabled(s, Poll(step))
    ensures PagesInv(Next(s, Poll(step)))
  {
    PollIsQuiet(s.feed, step);
  }

  lemma StepPaging(s: Session, e: Event)
    requires PagesInv(s) && Enabled(s, e) && Calm(s, e)
    ensures PagesInv(Next(s, e))
  {
    match e
    case ServerActs(_) => TickPaging(s);
    case LoadArrives => ArrivesPaging(s);
    case MoreRows(cutoff, data, next) => MoreRowsPaging(s, cutoff, data, next);
    case MoreArrives => MoreArrivesPaging(s);
    case Poll(step) => PollPaging(s, step);
    case _ => if e.LoadBounds? || e.LoadRows? { LoadPaging(s, e); } else { MoreOtherPaging(s, e); }
  }

  lemma {:induction false} PagesAlways(s: Session, es: seq<Event>)
    requires PagesInv(s) && Legal(s, es) && CalmRun(s, es)
    ensures PagesInv(Run(s, es))
    decreases es
  {
    if es != [] {
      StepPaging(s, es[0]);
      PagesAlways(Next(s, es[0]), es[1..]);
    }
  }

  /** The list holds exactly the rows of the filter down to its cursor, all of them without one, in the list order. */
  ghost predicate ShowsAllDownTo(server: Server, filter: Filter, h: Hook) {
    && |h.incidents| <= 100
    && (forall i, j :: 0 <= i < j < |h.incidents| ==>
          var x, y := h.incidents[i], h.incidents[j];
          x.updatedAt > y.updatedAt || (x.updatedAt == y.updatedAt && x.id > y.id))
    && (forall c :: c in h.incidents <==>
          && c.id in server.rows && server.rows[c.id] == c && (filter.Only? ==> c.status == filter.status)
          && (h.cursor.Some? ==>
                c.updatedAt > h.cursor.value.at || (c.updatedAt == h.cursor.value.at && c.id >= h.cursor.value.id)))
  }

  lemma {:induction false} SettingsStay(s: Session, es: seq<Event>)
    requires Legal(s, es) && CalmRun(s, es)
    ensures Run(s, es).world.hook.filter == s.world.hook.filter && Run(s, es).world.hook.limit == s.world.hook.limit
    decreases es
  {
    if es != [] { SettingsStay(Next(s, es[0]), es[1..]); }
  }

  /**
   Page by page. On a server nothing writes to, from mounting on and whatever the poller does, the list is at
   every moment after the first page exactly the newest rows of the filter down to its cursor, and all of them
   once no cursor is left. A list without room asks for no more.
   */
  lemma {:induction false} PageByPage(server: Server, filter: Filter, limit: nat, es: seq<Event>)
    requires ServerOk(server) && server.writers == map[]
    requires Legal(MountedSession(server, filter, limit), es) && CalmRun(MountedSession(server, filter, limit), es)
    ensures var end := Run(MountedSession(server, filter, limit), es);
            end.load.Accepted? ==>
              ShowsAllDownTo(end.feed.server, filter, end.world.hook)
              && (end.world.hook.cursor.Some? ==>
                    |end.world.hook.incidents| == 100 || |end.world.hook.incidents| >= limit)
  {
    SettingsStay(MountedSession(server, filter, limit), es);
    PagesAlways(MountedSession(server, filter, limit), es);
    var end := Run(MountedSession(server, filter, limit), es);
    if end.load.Accepted? { SpelledOut(end.feed.server, end.world.hook); }
  }

  lemma SpelledOut(server: Server, h: Hook)
    requires ServerOk(server) && ListsDownTo(server, h)
    ensures ShowsAllDownTo(server, h.filter, h)
  {
    forall i, j | 0 <= i < j < |h.incidents|
      ensures var x, y := h.incidents[i], h.incidents[j];
              x.updatedAt > y.updatedAt || (x.updatedAt == y.updatedAt && x.id > y.id)
    {
      RankedAt(h.incidents, i, j);
    }
    forall c ensures c in h.incidents <==> DownTo(server, h.filter, h.cursor, c) { }
  }
}
