/**
 The request helpers of the dashboard (dashboard/src/lib/authApi.js): one shared request per path
 (`apiGet`), and a whole list gathered page by page (`apiGetAllPages`) while the server goes on changing.
 */
module AuthApi {
  import opened Incidents
  import opened IncidentsServer
  import opened ChangeFeed

  // ---- One request per path ----

  type Path = string

  /** `inflight` is the table of the code; `open` tells which requests have really not settled, and for what path. */
  datatype Gets = Gets(inflight: map<Path, nat>, open: map<nat, Path>, sent: nat)

  function Called(g: Gets, path: Path): Gets {
    if path in g.inflight then g
    else Gets(g.inflight[path := g.sent], g.open[g.sent := path], g.sent + 1)
  }

  /** The settled request clears the entry of its path, whatever is stored there by then. */
  function Settled(g: Gets, request: nat): Gets
    requires request in g.open
  {
    g.(inflight := g.inflight - {g.open[request]}, open := g.open - {request})
  }

  class GetSharing {
    var inflightGets: map<Path, nat>
    var sent: nat
    ghost var open: map<nat, Path>

    ghost function State(): Gets
      reads this
    {
      Gets(inflightGets, open, sent)
    }

    constructor ()
      ensures State() == Gets(map[], map[], 0)
    {
      inflightGets, open, sent := map[], map[], 0;
    }

    /** Which request the caller waits for. */
    method ApiGet(path: Path) returns (request: nat)
      modifies this
      ensures State() == Called(old(State()), path)
      ensures request == (if path in old(inflightGets) then old(inflightGets)[path] else old(sent))
    {
      if path in inflightGets { return inflightGets[path]; }
      request := sent;
      sent := sent + 1;
      open := open[request := path];
      inflightGets := inflightGets[path := request];
    }

    method Finally(request: nat, path: Path)
      requires request in open && open[request] == path
      modifies this
      ensures State() == Settled(old(State()), request)
    {
      inflightGets := inflightGets - {path};
      open := open - {request};
    }
  }

  /** The table and the open requests are each other's inverse, and request numbers are never reused. */
  ghost predicate Exclusive(g: Gets) {
    && (forall p :: p in g.inflight ==> g.inflight[p] in g.open && g.open[g.inflight[p]] == p)
    && (forall r :: r in g.open ==> r < g.sent && g.open[r] in g.inflight && g.inflight[g.open[r]] == r)
  }

  datatype GetEvent = Call(path: Path) | Settle(request: nat)

  predicate CanHappen(g: Gets, e: GetEvent) { e.Settle? ==> e.request in g.open }

  function AfterGet(g: Gets, e: GetEvent): Gets
    requires CanHappen(g, e)
  {
    match e
    case Call(path) => Called(g, path)
    case Settle(request) => Settled(g, request)
  }

  predicate GetsLegal(g: Gets, es: seq<GetEvent>)
    decreases es
  {
    es == [] || (CanHappen(g, es[0]) && GetsLegal(AfterGet(g, es[0]), es[1..]))
  }

  function GetsRun(g: Gets, es: seq<GetEvent>): Gets
    requires GetsLegal(g, es)
    decreases es
  {
    if es == [] then g else GetsRun(AfterGet(g, es[0]), es[1..])
  }

  lemma {:induction false} AlwaysExclusive(g: Gets, es: seq<GetEvent>)
    requires Exclusive(g) && GetsLegal(g, es)
    ensures Exclusive(GetsRun(g, es))
    decreases es
  {
    if es != [] { AlwaysExclusive(AfterGet(g, es[0]), es[1..]); }
  }

  /**
   In every run no two open requests are for the same path, a caller joins the open request of its path
   if there is one and sends a new one if there is none, and a settling request takes no other's entry away.
   */
  lemma OneRequestPerPath(es: seq<GetEvent>, path: Path)
    requires GetsLegal(Gets(map[], map[], 0), es)
    ensures var g := GetsRun(Gets(map[], map[], 0), es);
            && (forall r, q :: r in g.open && q in g.open && g.open[r] == g.open[q] ==> r == q)
            && (forall r :: r in g.open && g.open[r] == path ==> Called(g, path) == g && g.inflight[path] == r)
            && ((forall r :: r in g.open ==> g.open[r] != path) ==> Called(g, path).sent == g.sent + 1)
            && (forall r, q :: r in g.open && q in g.open && q != r ==>
                  g.open[q] in Settled(g, r).inflight && Settled(g, r).inflight[g.open[q]] == q)
  {
    AlwaysExclusive(Gets(map[], map[], 0), es);
  }

  // ---- Gathering all pages ----

  datatype Gathering = Unfinished | Broken | Complete(all: seq<Incident>)

  function Gathered(all: seq<Incident>, answers: seq<Answer>): Gathering
    decreases answers
  {
    if answers == [] then Unfinished
    else match answers[0]
      case Failure => Broken
      case Page(data, next, _) => if next.Some? then Gathered(all + data, answers[1..]) else Complete(all + data)
  }

  /** The loop completes at the first page without a cursor, with all rows up to it, and breaks at a failure before. */
  lemma {:induction false} GatheredTold(all: seq<Incident>, answers: seq<Answer>)
    ensures var n, r := Turns(answers, |answers|), Gathered(all, answers);
            && (r.Complete? <==> n > 0 && answers[n - 1].Page? && answers[n - 1].next.None?)
            && (r.Complete? ==> r.all == all + RowsOf(answers[..n]))
            && (r.Broken? ==> n < |answers| && answers[n].Failure?)
            && (r.Unfinished? ==> n == |answers|)
    decreases answers
  {
    if answers != [] && answers[0].Page? {
      var rest := answers[1..];
      if answers[0].next.Some? {
        GatheredTold(all + answers[0].data, rest);
        RowsFirst(answers, Turns(rest, |rest|));
        assert all + answers[0].data + RowsOf(rest[..Turns(rest, |rest|)]) ==
               all + (answers[0].data + RowsOf(rest[..Turns(rest, |rest|)]));
      } else {
        RowsFirst(answers, 0);
        assert rest[..0] == [];
      }
    }
  }

  /** The loop; every page is asked for with the cursor of the one before. */
  method ApiGetAllPages(answers: seq<Answer>) returns (result: Gathering, asked: seq<Option<Cursor>>)
    ensures result == Gathered([], answers)
    ensures asked == Asks(None, answers, |answers|)
  {
    var all: seq<Incident>, cursor: Option<Cursor> := [], None;
    asked := [None];
    var pending := answers;
    while true
      invariant Gathered(all, pending) == Gathered([], answers)
      invariant asked + Asks(cursor, pending, |pending|)[1..] == Asks(None, answers, |answers|)
      decreases |pending|
    {
      if pending == [] { return Unfinished, asked; }
      var page := pending[0];
      if page.Failure? { return Broken, asked; }
      TurnAsks(asked, cursor, pending, |pending|);
      all := all + page.data;
      cursor := page.next;
      pending := pending[1..];
      if cursor.None? { return Complete(all), asked; }
      asked := asked + [cursor];
    }
  }

  // ---- The loop against the server ----

  datatype Stage = Asking(cursor: Option<Cursor>) | Fetching(cursor: Option<Cursor>, cutoff: Time) | Finished

  datatype Crawl = Crawl(
    server: Server, filter: Filter, limit: nat, stage: Stage, answers: seq<Answer>, all: seq<Incident>)

  datatype CrawlEvent =
    | ServerDoes(act: Act)
    | CutoffRead
    | PageRead(data: seq<Incident>, next: Option<Cursor>, since: Option<Time>)

  ghost predicate CanCrawl(c: Crawl, e: CrawlEvent) {
    match e
    case ServerDoes(a) => CanDo(c.server, a)
    case CutoffRead => c.stage.Asking?
    case PageRead(data, next, _) =>
      c.stage.Fetching? && ListPage(c.server, c.filter, c.stage.cursor, c.stage.cutoff, c.limit, data, next)
  }

  ghost function Crawled(c: Crawl, e: CrawlEvent): Crawl
    requires CanCrawl(c, e)
  {
    match e
    case ServerDoes(a) => c.(server := Do(c.server, a))
    case CutoffRead => c.(stage := Fetching(c.stage.cursor, c.server.clock))
    case PageRead(data, next, since) =>
      c.(stage := if next.Some? then Asking(next) else Finished,
         answers := c.answers + [Page(data, next, since)], all := c.all + data)
  }

  ghost predicate CrawlLegal(c: Crawl, es: seq<CrawlEvent>)
    decreases es
  {
    es == [] || (CanCrawl(c, es[0]) && CrawlLegal(Crawled(c, es[0]), es[1..]))
  }

  ghost function CrawlRun(c: Crawl, es: seq<CrawlEvent>): Crawl
    requires CrawlLegal(c, es)
    decreases es
  {
    if es == [] then c else CrawlRun(Crawled(c, es[0]), es[1..])
  }

  function Begun(server: Server, filter: Filter, limit: nat): Crawl {
    Crawl(server, filter, limit, Asking(None), [], [])
  }

  /** The rows gathered so far are in list order down to the cursor, each a version its incident has had. */
  ghost predicate CrawlInv(c: Crawl) {
    && ServerOk(c.server) && Newest(c.all) && DistinctIds(c.all)
    && (forall x :: x in c.all ==> Known(c.server, x) && c.filter.Accepts(x))
    && (!c.stage.Finished? ==>
          if c.stage.cursor.None? then c.all == []
          else c.all != [] && c.stage.cursor.value == KeyOf(c.all[|c.all| - 1]))
  }

  lemma {:induction false} AppendDistinct(a: seq<Incident>, b: seq<Incident>)
    requires DistinctIds(a) && DistinctIds(b) && forall x, y :: x in a && y in b ==> x.id != y.id
    ensures DistinctIds(a + b)
  {
    if a == [] {
      assert a + b == b;
    } else {
      AppendDistinct(a[1..], b);
      assert (a + b)[1..] == a[1..] + b;
    }
  }

  /** Below the cursor there is no later version of a row gathered above it. */
  lemma PageKeepsCrawl(c: Crawl, data: seq<Incident>, next: Option<Cursor>, since: Option<Time>)
    requires CrawlInv(c) && CanCrawl(c, PageRead(data, next, since))
    ensures CrawlInv(Crawled(c, PageRead(data, next, since)))
  {
    PageIdsDistinct(c.server, data);
    var all, n := c.all + data, |c.all|;
    forall i, j | 0 <= i < j < |all| ensures Before(all[j], KeyOf(all[i])) {
      if j >= n > i { AboveData(c, data, i, j - n); }
    }
    forall x, y | x in c.all && y in data ensures x.id != y.id {
      var i :| 0 <= i < n && c.all[i] == x;
      var j :| 0 <= j < |data| && data[j] == y;
      AboveData(c, data, i, j);
    }
    AppendDistinct(c.all, data);
  }

  lemma AboveData(c: Crawl, data: seq<Incident>, i: nat, j: nat)
    requires CrawlInv(c) && c.stage.Fetching? && i < |c.all| && j < |data|
    requires forall r :: r in data ==> Listed(c.server, c.filter, c.stage.cursor, c.stage.cutoff, r)
    ensures Before(data[j], KeyOf(c.all[i])) && data[j].id != c.all[i].id
  {
    var last := c.all[|c.all| - 1];
    assert data[j] in data && c.all[i] in c.all;
    assert Before(data[j], KeyOf(last));
    assert i < |c.all| - 1 ==> Before(last, KeyOf(c.all[i]));
  }

  lemma {:induction false} CrawlAlways(c: Crawl, es: seq<CrawlEvent>)
    requires CrawlInv(c) && CrawlLegal(c, es)
    ensures CrawlInv(CrawlRun(c, es))
    decreases es
  {
    if es != [] {
      match es[0] {
        case ServerDoes(a) =>
          ServerStaysOk(c.server, a);
          KnownLasts(c.server, a);
        case CutoffRead =>
        case PageRead(data, next, since) => PageKeepsCrawl(c, data, next, since);
      }
      CrawlAlways(Crawled(c, es[0]), es[1..]);
    }
  }

  /** However the rows change between the pages, no incident is gathered twice, and the result is in list order. */
  lemma NothingTwice(server: Server, filter: Filter, limit: nat, es: seq<CrawlEvent>)
    requires ServerOk(server) && CrawlLegal(Begun(server, filter, limit), es)
    ensures var all := CrawlRun(Begun(server, filter, limit), es).all;
            Newest(all) && DistinctIds(all) && forall x :: x in all ==> filter.Accepts(x)
  {
    CrawlAlways(Begun(server, filter, limit), es);
    CrawlFilter(Begun(server, filter, limit), es);
  }

  lemma {:induction false} CrawlFilter(c: Crawl, es: seq<CrawlEvent>)
    requires CrawlLegal(c, es)
    ensures CrawlRun(c, es).filter == c.filter
    decreases es
  {
    if es != [] { CrawlFilter(Crawled(c, es[0]), es[1..]); }
  }

  /** `r` is the committed version of its incident all through the run. */
  ghost predicate Steady(c: Crawl, es: seq<CrawlEvent>, r: Incident)
    requires CrawlLegal(c, es)
    decreases es
  {
    Current(c.server, r) && (es == [] || Steady(Crawled(c, es[0]), es[1..], r))
  }

  /** A steady row is gathered already or still ahead of the cursor. */
  ghost predicate Ahead(c: Crawl, r: Incident) {
    && r.updatedAt <= c.server.clock && c.filter.Accepts(r)
    && (r in c.all || match c.stage
        case Asking(cursor) => cursor.Some? ==> Before(r, cursor.value)
        case Fetching(cursor, cutoff) => r.updatedAt <= cutoff && (cursor.Some? ==> Before(r, cursor.value))
        case Finished => false)
  }

  lemma AheadStep(c: Crawl, e: CrawlEvent, r: Incident)
    requires CanCrawl(c, e) && Current(c.server, r) && Ahead(c, r)
    ensures Ahead(Crawled(c, e), r)
  {
    if e.PageRead? && r !in c.all && r !in e.data {
      assert Listed(c.server, c.filter, c.stage.cursor, c.stage.cutoff, r);
      assert e.data[|e.data| - 1] in e.data;
    }
  }

  lemma {:induction false} AheadAlways(c: Crawl, es: seq<CrawlEvent>, r: Incident)
    requires CrawlLegal(c, es) && Steady(c, es, r) && Ahead(c, r)
    ensures Ahead(CrawlRun(c, es), r)
    decreases es
  {
    if es != [] {
      AheadStep(c, es[0], r);
      AheadAlways(Crawled(c, es[0]), es[1..], r);
    }
  }

  /** Every matching row that did not change while the pages were read is in the result. */
  lemma NothingSteadyMissed(server: Server, filter: Filter, limit: nat, es: seq<CrawlEvent>, r: Incident)
    requires ServerOk(server) && CrawlLegal(Begun(server, filter, limit), es)
    requires Steady(Begun(server, filter, limit), es, r) && filter.Accepts(r)
    requires CrawlRun(Begun(server, filter, limit), es).stage.Finished?
    ensures r in CrawlRun(Begun(server, filter, limit), es).all
  {
    AheadAlways(Begun(server, filter, limit), es, r);
  }

  /** While nothing commits the committed rows stay, and what is gathered are committed rows. */
  lemma {:induction false} QuietCrawl(c: Crawl, es: seq<CrawlEvent>, r: Incident)
    requires CrawlLegal(c, es) && forall e :: e in es && e.ServerDoes? ==> !e.act.Commit? && !e.act.Delete?
    requires forall x :: x in c.all ==> Current(c.server, x)
    ensures CrawlRun(c, es).server.rows == c.server.rows
    ensures forall x :: x in CrawlRun(c, es).all ==> Current(c.server, x)
    ensures Current(c.server, r) ==> Steady(c, es, r)
    decreases es
  {
    if es != [] {
      assert es[0] in es;
      QuietCrawl(Crawled(c, es[0]), es[1..], r);
    }
  }

  /** On a quiet server the pages together are exactly the matching rows, each once. */
  lemma QuietIsExact(server: Server, filter: Filter, limit: nat, es: seq<CrawlEvent>, r: Incident)
    requires ServerOk(server) && CrawlLegal(Begun(server, filter, limit), es)
    requires forall e :: e in es && e.ServerDoes? ==> !e.act.Commit? && !e.act.Delete?
    requires CrawlRun(Begun(server, filter, limit), es).stage.Finished?
    ensures r in CrawlRun(Begun(server, filter, limit), es).all <==> Current(server, r) && filter.Accepts(r)
  {
    QuietCrawl(Begun(server, filter, limit), es, r);
    NothingTwice(server, filter, limit, es);
    if Current(server, r) && filter.Accepts(r) { NothingSteadyMissed(server, filter, limit, es, r); }
  }

  /** Fed with the answers of the run and whatever may follow, the loop has gathered what the run has. */
  ghost predicate LoopAgrees(c: Crawl) {
    if c.stage.Finished? then Gathered([], c.answers) == Complete(c.all)
    else forall more: seq<Answer> :: Gathered([], c.answers + more) == Gathered(c.all, more)
  }

  lemma AgreesStep(c: Crawl, e: CrawlEvent)
    requires CanCrawl(c, e) && LoopAgrees(c)
    ensures LoopAgrees(Crawled(c, e))
  {
    if e.PageRead? {
      var page := Page(e.data, e.next, e.since);
      if e.next.Some? {
        forall more: seq<Answer> ensures Gathered([], c.answers + [page] + more) == Gathered(c.all + e.data, more) {
          assert c.answers + [page] + more == c.answers + ([page] + more);
          assert ([page] + more)[1..] == more;
        }
      } else {
        assert Gathered([], c.answers + [page]) == Gathered(c.all, [page]);
      }
    }
  }

  lemma {:induction false} AgreesAlways(c: Crawl, es: seq<CrawlEvent>)
    requires CrawlLegal(c, es) && LoopAgrees(c)
    ensures LoopAgrees(CrawlRun(c, es))
    decreases es
  {
    if es != [] {
      AgreesStep(c, es[0]);
      AgreesAlways(Crawled(c, es[0]), es[1..]);
    }
  }

  /** Once a run has finished, the loop returns exactly what the run has gathered. */
  lemma LoopReturnsTheRun(server: Server, filter: Filter, limit: nat, es: seq<CrawlEvent>)
    requires CrawlLegal(Begun(server, filter, limit), es)
    requires CrawlRun(Begun(server, filter, limit), es).stage.Finished?
    ensures var c := CrawlRun(Begun(server, filter, limit), es);
            Gathered([], c.answers) == Complete(c.all)
  {
    forall more: seq<Answer> ensures Gathered([], [] + more) == Gathered([], more) {
      assert [] + more == more;
    }
    AgreesAlways(Begun(server, filter, limit), es);
  }
}
