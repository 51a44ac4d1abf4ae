/** What the list shows after a page, a further page and a delta (dashboard/src/hooks/useIncidents.js:56-148). */
module ShownRows {
  import opened Incidents
  import opened RankedWindow
  import opened UseIncidents
  import opened IncidentRuns

  /** The list order, spelled out. */
  predicate InFront(x: Incident, y: Incident) {
    x.updatedAt > y.updatedAt || (x.updatedAt == y.updatedAt && x.id > y.id)
  }

  /**
   The list is the best hundred of the given rows: newest first, no id twice, each the newest given version of
   its incident, and an incident is left out only by a full list of rows that are all in front of it.
   */
  ghost predicate Shows(list: seq<Incident>, given: Incident -> bool) {
    && |list| <= 100
    && (forall i, j :: 0 <= i < j < |list| ==> InFront(list[i], list[j]) && list[i].id != list[j].id)
    && (forall x :: x in list ==> given(x) && forall y :: given(y) && y.id == x.id ==> y.updatedAt <= x.updatedAt)
    && (forall y :: given(y) ==>
          (exists x :: x in list && x.id == y.id) || (|list| == 100 && forall x :: x in list ==> InFront(x, y)))
  }

  /** The guard of every callback, spelled out: no newer version has come live. */
  predicate NotOvertaken(live: map<Id, Time>, x: Incident) {
    x.id in live ==> x.updatedAt >= live[x.id]
  }

  predicate Within(filter: Filter, x: Incident) {
    match filter
    case All => true
    case Only(status) => x.status == status
  }

  /** The first row of its id on the page, if there is one, is older. */
  predicate NotAsNewOn(data: seq<Incident>, x: Incident) {
    forall k :: 0 <= k < |data| && data[k].id == x.id && (forall i :: 0 <= i < k ==> data[i].id != x.id) ==>
      data[k].updatedAt < x.updatedAt
  }

  lemma WindowShows(items: seq<Incident>, given: Incident -> bool)
    requires forall x :: given(x) <==> x in items
    ensures Shows(UniqueById(items), given)
  {
    var list := UniqueById(items);
    WindowShape(items);
    InWindowOrder(list);
    forall x, y | x in list && given(y) && y.id == x.id ensures y.updatedAt <= x.updatedAt { NewestShown(items, x, y); }
    forall y | given(y)
      ensures (exists x :: x in list && x.id == y.id) || (|list| == 100 && forall x :: x in list ==> InFront(x, y))
    {
      ShownOrCrowded(items, y);
    }
  }

  lemma InWindowOrder(list: seq<Incident>)
    requires IsRanked(list)
    ensures forall i, j :: 0 <= i < j < |list| ==> InFront(list[i], list[j]) && list[i].id != list[j].id
  {
    forall i, j | 0 <= i < j < |list| ensures InFront(list[i], list[j]) && list[i].id != list[j].id {
      RankedAt(list, i, j);
    }
  }

  lemma NewestShown(items: seq<Incident>, x: Incident, y: Incident)
    requires x in UniqueById(items) && y in items && y.id == x.id
    ensures y.updatedAt <= x.updatedAt
  {
    RankedIsNewest(items, x);
    var k :| IsNewestAt(items, x, k);
    var j :| 0 <= j < |items| && items[j] == y;
  }

  lemma ShownOrCrowded(items: seq<Incident>, y: Incident)
    requires y in items
    ensures var list := UniqueById(items);
            (exists x :: x in list && x.id == y.id) || (|list| == 100 && forall x :: x in list ==> InFront(x, y))
  {
    Represented(items, y);
    var best := Find(Ranked(items), y.id).value;
    RankedShape(items);
    TakeLeavesOutWorse(Ranked(items), MAX_RETAINED_INCIDENTS, best);
  }

  lemma FindIsFirst(data: seq<Incident>, x: Incident)
    ensures NotAsNewOn(data, x) <==>
              var found := Find(data, x.id); found.None? || x.updatedAt > found.value.updatedAt
  {
    if data != [] && data[0].id != x.id {
      FindIsFirst(data[1..], x);
      FirstBehind(data, x);
    }
  }

  lemma FirstBehind(data: seq<Incident>, x: Incident)
    requires data != [] && data[0].id != x.id
    ensures NotAsNewOn(data, x) <==> NotAsNewOn(data[1..], x)
  {
    var rest := data[1..];
    if NotAsNewOn(data, x) {
      forall k | 0 <= k < |rest| && rest[k].id == x.id && (forall i :: 0 <= i < k ==> rest[i].id != x.id)
        ensures rest[k].updatedAt < x.updatedAt
      {
        assert data[k + 1] == rest[k];
        assert forall i :: 0 < i < k + 1 ==> data[i] == rest[i - 1];
      }
    }
    if NotAsNewOn(rest, x) {
      forall k | 0 <= k < |data| && data[k].id == x.id && (forall i :: 0 <= i < k ==> data[i].id != x.id)
        ensures data[k].updatedAt < x.updatedAt
      {
        assert data[k] == rest[k - 1];
        assert forall i :: 0 <= i < k - 1 ==> rest[i] == data[i + 1];
      }
    }
  }

  /** What a page gives the list: its rows that no live change has overtaken, and listed rows at their live version. */
  ghost predicate GivenByPage(h: Hook, data: seq<Incident>, x: Incident) {
    || (x in data && NotOvertaken(h.live, x))
    || (x in h.incidents && x.id in h.live && x.updatedAt == h.live[x.id] && Within(h.filter, x) && NotAsNewOn(data, x))
  }

  /** After an accepted page the list shows what the page gives it, and the paging position, status and size follow. */
  lemma PageShows(h: Hook, data: seq<Incident>, next: Option<Cursor>, since: Option<Time>)
    ensures var n := PageAccepted(h, data, next, since);
            && Shows(n.incidents, x => GivenByPage(h, data, x))
            && n == h.(incidents := n.incidents, loadedCount := |n.incidents|, cursor := next,
                       hasMore := next.Some? && |n.incidents| < 100, syncWatermark := n.syncWatermark,
                       phase := Ready, error := None)
  {
    var items := Fresh(h.live, data) + Preserved(h.live, h.filter, h.incidents, data);
    forall x ensures GivenByPage(h, data, x) <==> x in items { FindIsFirst(data, x); }
    WindowShows(items, x => GivenByPage(h, data, x));
  }

  /** The watermark of a page is the bound it came with, or else the latest accepted row, to the millisecond. */
  lemma PageWatermark(h: Hook, data: seq<Incident>, next: Option<Cursor>, since: Option<Time>)
    ensures var mark := PageAccepted(h, data, next, since).syncWatermark;
            && (since.Some? ==> mark == since)
            && (since.None? ==>
                  && (mark.Some? ==> exists x :: x in data && NotOvertaken(h.live, x) && mark == Some(x.updatedAt))
                  && forall y :: y in data && NotOvertaken(h.live, y) ==>
                       mark.Some? && y.updatedAt / 1000 <= mark.value / 1000)
  {
    forall x ensures x in Fresh(h.live, data) <==> x in data && NotOvertaken(h.live, x) { }
  }

  /** What a further page gives the list: all that was listed, and its rows in the filter of the request. */
  ghost predicate GivenByMore(h: Hook, filter: Filter, data: seq<Incident>, x: Incident) {
    x in h.incidents || (x in data && NotOvertaken(h.live, x) && Within(filter, x))
  }

  lemma MoreShows(h: Hook, filter: Filter, data: seq<Incident>, next: Option<Cursor>)
    ensures var n := MoreAccepted(h, filter, data, next);
            && Shows(n.incidents, x => GivenByMore(h, filter, data, x))
            && n == h.(incidents := n.incidents, loadedCount := |n.incidents|, cursor := next,
                       hasMore := next.Some? && |n.incidents| < 100)
  {
    var items := h.incidents + InFilter(filter, Fresh(h.live, data));
    forall x ensures GivenByMore(h, filter, data, x) <==> x in items { }
    WindowShows(items, x => GivenByMore(h, filter, data, x));
  }

  /** The changes that no newer one has overtaken. */
  predicate IsChange(h: Hook, changes: seq<Incident>, c: Incident) {
    c in changes && NotOvertaken(h.live, c)
  }

  /** What a delta gives the list: every change in the filter, and all that was listed and is not changed. */
  ghost predicate GivenByMerge(h: Hook, filter: Filter, changes: seq<Incident>, x: Incident) {
    || (IsChange(h, changes, x) && Within(filter, x))
    || (x in h.incidents && forall c :: IsChange(h, changes, c) ==> c.id != x.id)
  }

  lemma RankedShows(list: seq<Incident>)
    requires IsRanked(list) && |list| <= 100
    ensures UniqueById(list) == list
  {
    RankedFixed(list);
  }

  /** Without an accepted change the merge returns early, with the same result. */
  lemma MergeIsWindow(h: Hook, filter: Filter, changes: seq<Incident>)
    requires WellShaped(h)
    ensures var n, valid := ChangesMerged(h, filter, changes), Fresh(h.live, changes);
            && n.incidents == UniqueById(Unmentioned(valid, h.incidents) + InFilter(filter, valid))
            && n == h.(incidents := n.incidents, loadedCount := |n.incidents|, live := n.live)
  {
    if Fresh(h.live, changes) == [] {
      RankedShows(h.incidents);
      UntouchedAll(h.incidents);
      assert h.incidents + InFilter(filter, []) == h.incidents;
    }
  }

  /** After a delta the list shows what the delta gives it, and nothing but list, size and live times has changed. */
  lemma MergeShows(h: Hook, filter: Filter, changes: seq<Incident>)
    requires WellShaped(h)
    ensures var n := ChangesMerged(h, filter, changes);
            && Shows(n.incidents, x => GivenByMerge(h, filter, changes, x))
            && n == h.(incidents := n.incidents, loadedCount := |n.incidents|, live := n.live)
  {
    var valid := Fresh(h.live, changes);
    MergeIsWindow(h, filter, changes);
    var items := Unmentioned(valid, h.incidents) + InFilter(filter, valid);
    forall x ensures GivenByMerge(h, filter, changes, x) <==> x in items { MergeGives(h, filter, changes, x); }
    WindowShows(items, x => GivenByMerge(h, filter, changes, x));
  }

  /** A delta records the time of every accepted change and forgets no other. */
  lemma MergeStamps(h: Hook, filter: Filter, changes: seq<Incident>, id: Id)
    requires DistinctIds(changes)
    ensures var live := ChangesMerged(h, filter, changes).live;
            && (forall c :: IsChange(h, changes, c) && c.id == id ==> id in live && live[id] == c.updatedAt)
            && ((forall c :: IsChange(h, changes, c) ==> c.id != id) ==>
                  (id in live <==> id in h.live) && (id in h.live ==> live[id] == h.live[id]))
  {
    var valid := Fresh(h.live, changes);
    KeepDistinct(changes, (x: Incident) => NotOlder(h.live, x));
    StampedAt(h.live, valid, id);
    forall c ensures IsChange(h, changes, c) <==> c in valid { }
  }

  lemma {:induction false} UntouchedAll(list: seq<Incident>)
    ensures Unmentioned([], list) == list
  {
    if list != [] { UntouchedAll(list[1..]); }
  }

  lemma MergeGives(h: Hook, filter: Filter, changes: seq<Incident>, x: Incident)
    ensures var valid := Fresh(h.live, changes);
            GivenByMerge(h, filter, changes, x) <==> x in Unmentioned(valid, h.incidents) + InFilter(filter, valid)
  {
    var valid := Fresh(h.live, changes);
    forall c ensures IsChange(h, changes, c) <==> c in valid { }
  }
}
