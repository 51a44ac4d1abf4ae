/**
 What the incident API promises its pollers (servers/platform-api/app/incidents_api.py): committed
 rows, open write transactions, the commit-safe watermark and the two keyset queries.
 */
module IncidentsServer {
  import opened Incidents

  /** An open transaction that holds the lock of one row and has perhaps stamped a new version of it. */
  datatype Writer = Writer(start: Time, pending: Option<Incident>)

  /** `gone` are the incidents that retention has deleted; ids are never used again. */
  datatype Server = Server(clock: Time, rows: map<Id, Incident>, writers: map<Id, Writer>, gone: set<Id>)

  datatype Act =
    | Tick
    | Begin(id: Id, start: Time)
    | Write(id: Id, status: string, detail: string)
    | Commit(id: Id)
    | Rollback(id: Id)
    | Delete(id: Id)

  predicate CanDo(s: Server, a: Act) {
    match a
    case Tick => true
    case Begin(id, start) => id !in s.writers && id !in s.gone && start <= s.clock
    case Write(id, _, _) => id in s.writers
    case Commit(id) => id in s.writers
    case Rollback(id) => id in s.writers
    case Delete(id) => id in s.rows && s.rows[id].status == "closed" && id !in s.writers
  }

  /** A version is stamped with the clock of its write, later than every earlier reading, and seen at commit. */
  function Do(s: Server, a: Act): Server
    requires CanDo(s, a)
  {
    match a
    case Tick => s.(clock := s.clock + 1)
    case Begin(id, start) => s.(writers := s.writers[id := Writer(start, None)])
    case Write(id, status, detail) =>
      var now := s.clock + 1;
      s.(clock := now, writers := s.writers[id := s.writers[id].(pending := Some(Incident(id, now, status, detail)))])
    case Commit(id) =>
      var w := s.writers[id];
      s.(rows := if w.pending.Some? then s.rows[id := w.pending.value] else s.rows, writers := s.writers - {id})
    case Rollback(id) => s.(writers := s.writers - {id})
    case Delete(id) => s.(rows := s.rows - {id}, gone := s.gone + {id})
  }

  ghost predicate ServerOk(s: Server) {
    && (forall id :: id in s.gone ==> id !in s.rows && id !in s.writers)
    && (forall id :: id in s.rows ==> s.rows[id].id == id && s.rows[id].updatedAt <= s.clock)
    && (forall id :: id in s.writers ==> s.writers[id].start <= s.clock)
    && (forall id :: id in s.writers && s.writers[id].pending.Some? ==>
          var p := s.writers[id].pending.value;
          && p.id == id && s.writers[id].start < p.updatedAt <= s.clock
          && (id in s.rows ==> s.rows[id].updatedAt < p.updatedAt))
  }

  lemma ServerStaysOk(s: Server, a: Act)
    requires ServerOk(s) && CanDo(s, a)
    ensures ServerOk(Do(s, a))
  {
  }

  /** `Current(s, r)`: the committed version of the row is `r`. */
  predicate Current(s: Server, r: Incident) {
    r.id in s.rows && s.rows[r.id] == r
  }

  /** `x` was a committed version of its row, which may have been deleted since. */
  ghost predicate Known(s: Server, x: Incident) {
    || x.id in s.gone
    || (&& x.id in s.rows && x.updatedAt <= s.rows[x.id].updatedAt
        && (x.updatedAt == s.rows[x.id].updatedAt ==> x == s.rows[x.id]))
  }

  lemma KnownLasts(s: Server, a: Act)
    requires ServerOk(s) && CanDo(s, a)
    ensures forall x :: Known(s, x) ==> Known(Do(s, a), x)
  {
  }

  // ---- The watermark ----

  /** The clock, held back to just before the oldest open writing transaction. */
  ghost predicate IsWatermark(s: Server, mark: Time) {
    && mark <= s.clock
    && (forall id :: id in s.writers ==> mark < s.writers[id].start)
    && (mark == s.clock || exists id :: id in s.writers && mark == s.writers[id].start - 1)
  }

  lemma {:induction false} WatermarkExists(
    clock: Time, rows: map<Id, Incident>, writers: map<Id, Writer>, gone: set<Id>)
    returns (mark: Time)
    ensures IsWatermark(Server(clock, rows, writers, gone), mark)
    decreases |writers|
  {
    if forall id :: id !in writers {
      mark := clock;
    } else {
      var id :| id in writers;
      var rest := writers - {id};
      var m := WatermarkExists(clock, rows, rest, gone);
      var held := writers[id].start - 1;
      mark := if held < m then held else m;
      if mark != held && mark != clock {
        var k :| k in rest && m == rest[k].start - 1;
        assert k in writers && writers[k] == rest[k];
      }
      forall k | k in writers ensures mark < writers[k].start {
        if k != id { assert k in rest; }
      }
    }
  }

  /** No version stamped up to `mark` can still appear. */
  ghost predicate Closed(s: Server, mark: Time) {
    && mark <= s.clock
    && forall id :: id in s.writers && s.writers[id].pending.Some? ==> s.writers[id].pending.value.updatedAt > mark
  }

  /** A watermark closes the past although writers are open, and the past stays closed. */
  lemma WatermarkCloses(s: Server, mark: Time)
    requires ServerOk(s) && IsWatermark(s, mark)
    ensures Closed(s, mark)
  {
  }

  lemma StaysClosed(s: Server, a: Act, mark: Time)
    requires CanDo(s, a) && Closed(s, mark)
    ensures Closed(Do(s, a), mark)
    ensures forall r :: Current(Do(s, a), r) && r.updatedAt <= mark ==> Current(s, r)
  {
  }

  // ---- The queries ----

  predicate After(r: Incident, c: Cursor) {
    r.updatedAt > c.at || (r.updatedAt == c.at && r.id > c.id)
  }

  predicate Before(r: Incident, c: Cursor) {
    r.updatedAt < c.at || (r.updatedAt == c.at && r.id < c.id)
  }

  function KeyOf(r: Incident): Cursor { Cursor(r.updatedAt, r.id) }

  predicate Ascending(data: seq<Incident>) {
    forall i, j :: 0 <= i < j < |data| ==> After(data[j], KeyOf(data[i]))
  }

  predicate Newest(data: seq<Incident>) {
    forall i, j :: 0 <= i < j < |data| ==> Before(data[j], KeyOf(data[i]))
  }

  predicate Changed(s: Server, since: Time, cursor: Option<Cursor>, cutoff: Time, r: Incident) {
    Current(s, r) && since < r.updatedAt <= cutoff && (cursor.Some? ==> After(r, cursor.value))
  }

  /** GET /incidents/changes: the first `limit` changed rows, oldest first; a cursor exactly when the page is full. */
  ghost predicate ChangesPage(s: Server, since: Time, cursor: Option<Cursor>, cutoff: Time, limit: nat,
                              data: seq<Incident>, next: Option<Cursor>)
  {
    && Ascending(data) && |data| <= limit
    && (forall r :: r in data ==> Changed(s, since, cursor, cutoff, r))
    && next == (if |data| == limit > 0 then Some(KeyOf(data[|data| - 1])) else None)
    && (forall r :: Changed(s, since, cursor, cutoff, r) && r !in data ==>
          |data| == limit && forall x :: x in data ==> After(r, KeyOf(x)))
  }

  predicate Listed(s: Server, filter: Filter, cursor: Option<Cursor>, cutoff: Time, r: Incident) {
    Current(s, r) && filter.Accepts(r) && r.updatedAt <= cutoff && (cursor.Some? ==> Before(r, cursor.value))
  }

  /**
   GET /incidents: the first `limit` rows of the filter, newest first; a cursor exactly when the page is
   full. A limit of 0 has no page: the handler fails on the last row of an empty result.
   */
  ghost predicate ListPage(s: Server, filter: Filter, cursor: Option<Cursor>, cutoff: Time, limit: nat,
                           data: seq<Incident>, next: Option<Cursor>)
  {
    && limit > 0 && Newest(data) && |data| <= limit
    && (forall r :: r in data ==> Listed(s, filter, cursor, cutoff, r))
    && next == (if |data| == limit then Some(KeyOf(data[|data| - 1])) else None)
    && (forall r :: Listed(s, filter, cursor, cutoff, r) && r !in data ==>
          |data| == limit && forall x :: x in data ==> Before(r, KeyOf(x)))
  }

  /** A changed row is on the page or still ahead of its cursor. */
  lemma OnPageOrAhead(s: Server, since: Time, cursor: Option<Cursor>, cutoff: Time, limit: nat,
                      data: seq<Incident>, next: Option<Cursor>, r: Incident)
    requires limit > 0 && ChangesPage(s, since, cursor, cutoff, limit, data, next)
    requires Changed(s, since, cursor, cutoff, r)
    ensures r in data || (next.Some? && After(r, next.value))
  {
    if r !in data { assert data[|data| - 1] in data; }
  }

  /** Rows of one page have distinct ids. */
  lemma {:induction false} PageIdsDistinct(s: Server, data: seq<Incident>)
    requires (Ascending(data) || Newest(data)) && forall r :: r in data ==> Current(s, r)
    ensures DistinctIds(data)
  {
    if data != [] {
      forall x | x in data[1..] ensures x.id != data[0].id {
        var k :| 0 <= k < |data[1..]| && data[1..][k] == x;
        assert data[k + 1] == x;
        assert Current(s, data[0]) && Current(s, x);
      }
      PageIdsDistinct(s, data[1..]);
    }
  }
}
