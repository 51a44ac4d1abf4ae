/**
 The incident list hook (dashboard/src/hooks/useIncidents.js): its state as a value, what each
 callback does to it, and the hook itself as an object whose methods do exactly that.
 */
module UseIncidents {
  import opened Incidents
  import opened RankedWindow

  datatype Phase = Loading | Ready | Failed

  /** A list request, with what its callbacks close over. */
  datatype PageRequest = PageRequest(epoch: nat, limit: nat, filter: Filter)

  datatype MoreRequest = MoreRequest(epoch: nat, limit: nat, cursor: Cursor, filter: Filter)

  datatype Hook = Hook(
    filter: Filter,
    limit: nat,
    incidents: seq<Incident>,
    phase: Phase,
    error: Option<string>,
    hasMore: bool,
    loadingMore: bool,
    syncWatermark: Option<Time>,
    cursor: Option<Cursor>,
    moreInFlight: bool,
    loadedCount: nat,
    epoch: nat,
    live: map<Id, Time>)

  function Mounted(filter: Filter, limit: nat): Hook {
    Hook(filter, limit, [], Loading, None, false, false, None, None, false, 0, 0, map[])
  }

  predicate NotOlder(live: map<Id, Time>, item: Incident) {
    item.id !in live || item.updatedAt >= live[item.id]
  }

  /** The rows that no live change has overtaken. */
  function Fresh(live: map<Id, Time>, items: seq<Incident>): (valid: seq<Incident>)
    ensures forall x :: x in valid <==> x in items && NotOlder(live, x)
  {
    Keep(items, (x: Incident) => NotOlder(live, x))
  }

  /** `item` is at its live version, still in the filter, and the page has nothing as new for it. */
  predicate Survives(live: map<Id, Time>, filter: Filter, data: seq<Incident>, item: Incident) {
    && item.id in live && live[item.id] == item.updatedAt
    && filter.Accepts(item)
    && var fetched := Find(data, item.id); fetched.None? || item.updatedAt > fetched.value.updatedAt
  }

  /** The listed rows a refresh keeps beside the page. */
  function Preserved(live: map<Id, Time>, filter: Filter, previous: seq<Incident>, data: seq<Incident>)
    : (kept: seq<Incident>)
    ensures forall x :: x in kept <==> x in previous && Survives(live, filter, data, x)
  {
    Keep(previous, (x: Incident) => Survives(live, filter, data, x))
  }

  function LatestUpdatedAt(items: seq<Incident>, fallback: Option<Time>): (latest: Option<Time>)
    ensures forall x :: x in items ==> latest.Some? && Millis(latest.value) >= Millis(x.updatedAt)
    ensures latest == fallback || exists x :: x in items && latest == Some(x.updatedAt)
  {
    if items == [] then fallback else
      var rest, x := LatestUpdatedAt(items[..|items| - 1], fallback), items[|items| - 1];
      assert items == items[..|items| - 1] + [x];
      if rest.None? || Millis(x.updatedAt) > Millis(rest.value) then Some(x.updatedAt) else rest
  }

  /** The last change of an id decides its recorded time. */
  function Stamped(live: map<Id, Time>, changes: seq<Incident>): map<Id, Time>
    decreases changes
  {
    if changes == [] then live
    else Stamped(live[changes[0].id := changes[0].updatedAt], changes[1..])
  }

  function Min(a: int, b: int): int { if a <= b then a else b }
  function Max(a: int, b: int): int { if a >= b then a else b }

  // ---- What each callback does ----

  function LoadBegun(h: Hook, filter: Filter, limit: nat): Hook {
    h.(filter := filter, limit := limit, epoch := h.epoch + 1, phase := if h.phase == Ready then Ready else Loading)
  }

  function PageRequestOf(h: Hook): PageRequest {
    PageRequest(h.epoch, Min(Max(h.limit, h.loadedCount), MAX_RETAINED_INCIDENTS), h.filter)
  }

  function PageAccepted(h: Hook, data: seq<Incident>, next: Option<Cursor>, since: Option<Time>): Hook {
    var valid := Fresh(h.live, data);
    var list := UniqueById(valid + Preserved(h.live, h.filter, h.incidents, data));
    h.(incidents := list, loadedCount := |list|, cursor := next,
       hasMore := next.Some? && |list| < MAX_RETAINED_INCIDENTS,
       syncWatermark := if since.Some? then since else LatestUpdatedAt(valid, None),
       phase := Ready, error := None)
  }

  function PageArrived(h: Hook, r: PageRequest, cancelled: bool, data: seq<Incident>,
                       next: Option<Cursor>, since: Option<Time>): Hook {
    if cancelled || r.epoch != h.epoch then h else PageAccepted(h, data, next, since)
  }

  function PageFailed(h: Hook, r: PageRequest, cancelled: bool, message: string): Hook {
    if cancelled || r.epoch != h.epoch then h else h.(error := Some(message), phase := Failed)
  }

  predicate CanLoadMore(h: Hook) {
    h.cursor.Some? && !h.moreInFlight && h.loadedCount < MAX_RETAINED_INCIDENTS
  }

  function MoreBegun(h: Hook): Hook {
    h.(moreInFlight := true, loadingMore := true)
  }

  function MoreRequestOf(h: Hook): MoreRequest
    requires CanLoadMore(h)
  {
    MoreRequest(h.epoch, Min(h.limit, MAX_RETAINED_INCIDENTS - h.loadedCount), h.cursor.value, h.filter)
  }

  function MoreAccepted(h: Hook, filter: Filter, data: seq<Incident>, next: Option<Cursor>): Hook {
    var list := UniqueById(h.incidents + InFilter(filter, Fresh(h.live, data)));
    h.(incidents := list, loadedCount := |list|, cursor := next,
       hasMore := next.Some? && |list| < MAX_RETAINED_INCIDENTS)
  }

  function MoreSettled(h: Hook): Hook {
    h.(moreInFlight := false, loadingMore := false)
  }

  function MoreArrived(h: Hook, r: MoreRequest, data: seq<Incident>, next: Option<Cursor>): Hook {
    MoreSettled(if r.epoch != h.epoch then h else MoreAccepted(h, r.filter, data, next))
  }

  function MoreFailed(h: Hook, message: string): Hook {
    MoreSettled(h.(error := Some(message)))
  }

  function InFilter(filter: Filter, items: seq<Incident>): (kept: seq<Incident>)
    ensures forall x :: x in kept <==> x in items && filter.Accepts(x)
  {
    Keep(items, (x: Incident) => filter.Accepts(x))
  }

  predicate Mentions(changes: seq<Incident>, id: Id) {
    exists c :: c in changes && c.id == id
  }

  function Unmentioned(changes: seq<Incident>, items: seq<Incident>): (kept: seq<Incident>)
    ensures forall x :: x in kept <==> x in items && !Mentions(changes, x.id)
  {
    Keep(items, (x: Incident) => !Mentions(changes, x.id))
  }

  function ChangesMerged(h: Hook, filter: Filter, changes: seq<Incident>): Hook {
    var valid := Fresh(h.live, changes);
    if valid == [] then h else
      var list := UniqueById(Unmentioned(valid, h.incidents) +
                             InFilter(filter, valid));
      h.(live := Stamped(h.live, valid), incidents := list, loadedCount := |list|)
  }

  // ---- The hook as an object ----

  class IncidentList {
    var filter: Filter
    var limit: nat
    var incidents: seq<Incident>
    var phase: Phase
    var error: Option<string>
    var hasMore: bool
    var loadingMore: bool
    var syncWatermark: Option<Time>
    var cursorRef: Option<Cursor>
    var loadingMoreRef: bool
    var loadedCountRef: nat
    var epochRef: nat
    var liveUpdatedAtRef: map<Id, Time>

    ghost function State(): Hook
      reads this
    {
      Hook(filter, limit, incidents, phase, error, hasMore, loadingMore, syncWatermark,
           cursorRef, loadingMoreRef, loadedCountRef, epochRef, liveUpdatedAtRef)
    }

    constructor (filter: Filter, limit: nat)
      ensures State() == Mounted(filter, limit)
    {
      this.filter, this.limit, incidents, phase, error := filter, limit, [], Loading, None;
      hasMore, loadingMore, syncWatermark := false, false, None;
      cursorRef, loadingMoreRef, loadedCountRef, epochRef, liveUpdatedAtRef := None, false, 0, 0, map[];
    }

    /** The end of every list updater. */
    method SetIncidents(items: seq<Incident>)
      modifies this`incidents, this`loadedCountRef
      ensures State() == old(State()).(incidents := UniqueById(items), loadedCount := |UniqueById(items)|)
    {
      incidents := CollectUnique(items);
      loadedCountRef := |incidents|;
    }

    /** The load effect: runs on mount and whenever the filter, the limit or the reload token changes. */
    method Load(filter: Filter, limit: nat) returns (request: PageRequest)
      modifies this
      ensures State() == LoadBegun(old(State()), filter, limit)
      ensures request == PageRequestOf(State())
    {
      this.filter, this.limit := filter, limit;
      epochRef := epochRef + 1;
      if phase != Ready { phase := Loading; }
      var fetchLimit := Min(Max(limit, loadedCountRef), MAX_RETAINED_INCIDENTS);
      request := PageRequest(epochRef, fetchLimit, filter);
    }

    method OnPage(request: PageRequest, cancelled: bool, data: seq<Incident>, next: Option<Cursor>, since: Option<Time>)
      modifies this
      ensures State() == PageArrived(old(State()), request, cancelled, data, next, since)
    {
      if cancelled || request.epoch != epochRef { return; }
      AcceptPage(data, next, since);
    }

    method AcceptPage(data: seq<Incident>, next: Option<Cursor>, since: Option<Time>)
      modifies this
      ensures State() == PageAccepted(old(State()), data, next, since)
    {
      var freshData := Fresh(liveUpdatedAtRef, data);
      var preservedLiveItems := Preserved(liveUpdatedAtRef, filter, incidents, data);
      SetIncidents(freshData + preservedLiveItems);
      SettlePage(next, if since.Some? then since else LatestUpdatedAt(freshData, None));
    }

    method SettlePage(next: Option<Cursor>, watermark: Option<Time>)
      modifies this`cursorRef, this`hasMore, this`syncWatermark, this`phase, this`error
      ensures State() == old(State()).(cursor := next,
                                       hasMore := next.Some? && old(loadedCountRef) < MAX_RETAINED_INCIDENTS,
                                       syncWatermark := watermark, phase := Ready, error := None)
    {
      cursorRef := next;
      hasMore := next.Some? && loadedCountRef < MAX_RETAINED_INCIDENTS;
      syncWatermark := watermark;
      phase, error := Ready, None;
    }

    method OnPageError(request: PageRequest, cancelled: bool, message: string)
      modifies this
      ensures State() == PageFailed(old(State()), request, cancelled, message)
    {
      if cancelled || request.epoch != epochRef { return; }
      error, phase := Some(message), Failed;
    }

    method LoadMore() returns (request: Option<MoreRequest>)
      modifies this
      ensures if old(CanLoadMore(State()))
              then State() == MoreBegun(old(State())) && request == Some(MoreRequestOf(old(State())))
              else State() == old(State()) && request == None
    {
      if cursorRef.None? || loadingMoreRef || loadedCountRef >= MAX_RETAINED_INCIDENTS { return None; }
      loadingMoreRef, loadingMore := true, true;
      var room := MAX_RETAINED_INCIDENTS - loadedCountRef;
      request := Some(MoreRequest(epochRef, Min(limit, room), cursorRef.value, filter));
    }

    method OnMore(request: MoreRequest, data: seq<Incident>, next: Option<Cursor>) returns (more: bool)
      modifies this
      ensures State() == MoreArrived(old(State()), request, data, next)
      ensures more == (request.epoch == old(epochRef) && hasMore)
    {
      if request.epoch != epochRef {
        more := false;
      } else {
        more := AcceptMore(request.filter, data, next);
      }
      loadingMoreRef, loadingMore := false, false;
    }

    method AcceptMore(filter: Filter, data: seq<Incident>, next: Option<Cursor>) returns (more: bool)
      modifies this
      ensures State() == MoreAccepted(old(State()), filter, data, next) && more == hasMore
    {
      var freshData := InFilter(filter, Fresh(liveUpdatedAtRef, data));
      SetIncidents(incidents + freshData);
      cursorRef := next;
      more := next.Some? && loadedCountRef < MAX_RETAINED_INCIDENTS;
      hasMore := more;
    }

    method OnMoreError(message: string)
      modifies this
      ensures State() == MoreFailed(old(State()), message)
    {
      error := Some(message);
      loadingMoreRef, loadingMore := false, false;
    }

    /** `accepts` is the filter of the render that created the callback, which may be an old one. */
    method MergeChanges(accepts: Filter, changes: seq<Incident>)
      modifies this
      ensures State() == ChangesMerged(old(State()), accepts, changes)
    {
      var freshChanges := Fresh(liveUpdatedAtRef, changes);
      if freshChanges == [] { return; }
      for k := 0 to |freshChanges|
        invariant State() == old(State()).(live := liveUpdatedAtRef)
        invariant Stamped(liveUpdatedAtRef, freshChanges[k..]) == Stamped(old(liveUpdatedAtRef), freshChanges)
      {
        assert freshChanges[k..][1..] == freshChanges[k + 1..];
        liveUpdatedAtRef := liveUpdatedAtRef[freshChanges[k].id := freshChanges[k].updatedAt];
      }
      SetIncidents(Unmentioned(freshChanges, incidents) + InFilter(accepts, freshChanges));
    }
  }
}
