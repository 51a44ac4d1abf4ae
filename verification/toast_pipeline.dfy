/** From the event log to the cards, with events indexed in any order. */
module ToastPipeline {
  // Polls that may be cancelled, a queue that slides, a consumer that remembers only the last id it processed,
  // and the stack behind it.

  import opened Incidents
  import opened LiveFeed
  import opened ToastStack

  // ---- The hand-off of one batch ----

  predicate DistinctEvents(s: seq<Event>) {
    forall i, j :: 0 <= i < j < |s| ==> s[i].id != s[j].id
  }

  /** The consumer has processed the queue to its end. */
  predicate CaughtUp(queue: seq<Event>, last: Option<Id>) {
    if queue == [] then last.None? else last == Some(queue[|queue| - 1].id)
  }

  lemma {:induction false} IndexOfAt(events: seq<Event>, k: nat)
    requires DistinctEvents(events) && k < |events|
    ensures IndexOfEvent(events, events[k].id) == k
  {
    if k > 0 {
      assert events[0].id != events[k].id;
      IndexOfAt(events[1..], k - 1);
    }
  }

  lemma CaughtUpMeansNothingNew(queue: seq<Event>, last: Option<Id>)
    requires DistinctEvents(queue) && CaughtUp(queue, last)
    ensures NewOnes(queue, last) == []
  {
    if queue != [] { IndexOfAt(queue, |queue| - 1); }
  }

  /**
   New events behind a processed history are handed over whole, and nothing else with them, exactly when
   they are no more than the queue holds: that the last processed id slides out does no harm by itself.
   */
  lemma HandedWhole(past: seq<Event>, news: seq<Event>, last: Option<Id>)
    requires DistinctEvents(past + news) && CaughtUp(past, last)
    ensures NewOnes(Last(past + news, 50), last) == news <==> |news| <= 50
  {
    var all := past + news;
    var window := Last(all, 50);
    var cut := |all| - |window|;
    assert window == all[cut..];
    if |news| <= 50 && past != [] {
      if cut < |past| {
        StillQueued(past, news, cut);
      } else {
        SlidOut(past, news, cut);
      }
    }
  }

  /** The last processed event is still in the queue, just before the new ones. */
  lemma StillQueued(past: seq<Event>, news: seq<Event>, cut: nat)
    requires DistinctEvents(past + news) && cut < |past|
    ensures NewOnes((past + news)[cut..], Some(past[|past| - 1].id)) == news
  {
    var window, p := (past + news)[cut..], |past| - 1;
    assert window[p - cut] == past[p];
    assert DistinctEvents(window);
    IndexOfAt(window, p - cut);
    assert window[p - cut + 1..] == news;
  }

  /** The last processed event has just left the queue, so all of the queue counts as new. */
  lemma SlidOut(past: seq<Event>, news: seq<Event>, cut: nat)
    requires DistinctEvents(past + news) && past != [] && cut == |past|
    ensures NewOnes((past + news)[cut..], Some(past[|past| - 1].id)) == news
  {
    var all, p := past + news, |past| - 1;
    assert all[cut..] == news && all[p] == past[p];
    forall e | e in news ensures e.id != past[p].id {
      var k :| 0 <= k < |news| && news[k] == e;
      assert all[cut + k] == e;
    }
  }

  // ---- The endpoint ----

  /** The order of the endpoint: by time, then by id. */
  predicate Precedes(a: Event, b: Event) {
    a.at < b.at || (a.at == b.at && a.id < b.id)
  }

  predicate InOrder(s: seq<Event>) {
    forall i, j :: 0 <= i < j < |s| ==> Precedes(s[i], s[j])
  }

  function Placed(s: seq<Event>, e: Event): (r: seq<Event>)
    ensures |r| == |s| + 1
    ensures forall x :: x in r <==> x in s || x == e
  {
    if s == [] || Precedes(e, s[0]) then [e] + s else [s[0]] + Placed(s[1..], e)
  }

  function Ordered(log: seq<Event>): (r: seq<Event>)
    ensures forall x :: x in r <==> x in log
  {
    if log == [] then [] else Placed(Ordered(log[1..]), log[0])
  }

  /** The events strictly after `since`. */
  function Later(s: seq<Event>, since: Time): (r: seq<Event>)
    ensures forall x :: x in r <==> x in s && x.at > since
  {
    if s == [] then []
    else if s[0].at > since then [s[0]] + Later(s[1..], since)
    else Later(s[1..], since)
  }

  /** GET /events/recent: the newest, newest first, without a cursor; the oldest after it, oldest first, with one. */
  function Answer(log: seq<Event>, since: Option<Time>, limit: nat): seq<Event> {
    if since.None? then First(Reverse(Ordered(log)), limit) else First(Later(Ordered(log), since.value), limit)
  }

  lemma {:induction false} PlacedInOrder(s: seq<Event>, e: Event)
    requires InOrder(s) && forall x :: x in s ==> x.id != e.id
    ensures InOrder(Placed(s, e))
  {
    if s != [] && !Precedes(e, s[0]) {
      PlacedInOrder(s[1..], e);
      HeadFirst(s[0], Placed(s[1..], e), s[1..], e);
    } else if s != [] {
      InFront(s, e);
    }
  }

  lemma InFront(s: seq<Event>, e: Event)
    requires InOrder(s) && s != [] && Precedes(e, s[0])
    ensures InOrder([e] + s)
  {
    var r := [e] + s;
    forall i, j | 0 <= i < j < |r| ensures Precedes(r[i], r[j]) {
      if i > 0 {
        assert Precedes(s[i - 1], s[j - 1]);
        assert r[i] == s[i - 1] && r[j] == s[j - 1];
        assert Precedes(r[i], r[j]);
      } else if j == 1 {
        assert r[i] == e && r[j] == s[0];
        assert Precedes(r[i], r[j]);
      } else {
        assert r[i] == e && r[j] == s[j - 1];
        assert Precedes(s[0], s[j - 1]);
        assert Precedes(r[i], r[j]);
      }
    }
  }

  lemma HeadFirst(head: Event, rest: seq<Event>, s: seq<Event>, e: Event)
    requires InOrder(rest) && (forall x :: x in rest <==> x in s || x == e) && InOrder([head] + s)
    requires head.id != e.id && !Precedes(e, head)
    ensures InOrder([head] + rest)
  {
    var r := [head] + rest;
    forall i, j | 0 <= i < j < |r| ensures Precedes(r[i], r[j]) {
      assert r[j] == rest[j - 1] && rest[j - 1] in rest;
      if i > 0 {
        assert r[i] == rest[i - 1] && Precedes(rest[i - 1], rest[j - 1]);
      } else if r[j] != e {
        var k :| 0 <= k < |s| && s[k] == r[j];
        assert ([head] + s)[k + 1] == r[j] && Precedes(([head] + s)[0], ([head] + s)[k + 1]);
      }
    }
  }

  lemma {:induction false} OrderedInOrder(log: seq<Event>)
    requires DistinctEvents(log)
    ensures InOrder(Ordered(log))
  {
    if log != [] {
      OrderedInOrder(log[1..]);
      forall x | x in Ordered(log[1..]) ensures x.id != log[0].id {
        var k :| 0 <= k < |log[1..]| && log[1..][k] == x;
        assert log[k + 1] == x;
      }
      PlacedInOrder(Ordered(log[1..]), log[0]);
    }
  }

  lemma {:induction false} LaterInOrder(s: seq<Event>, since: Time)
    requires InOrder(s)
    ensures InOrder(Later(s, since))
  {
    if s != [] {
      LaterInOrder(s[1..], since);
      var rest := Later(s[1..], since);
      var r := [s[0]] + rest;
      forall i, j | 0 <= i < j < |r| ensures Precedes(r[i], r[j]) {
        assert r[j] == rest[j - 1];
        if i > 0 {
          assert r[i] == rest[i - 1];
        } else {
          var k :| 0 <= k < |s[1..]| && s[1..][k] == r[j];
          assert s[k + 1] == r[j];
        }
      }
    }
  }

  /** What a poll with a cursor is told: in order, later than the cursor, and all there is unless the batch is full. */
  lemma AnswerAfter(log: seq<Event>, since: Time, limit: nat)
    requires DistinctEvents(log)
    ensures var docs := Answer(log, Some(since), limit);
            && InOrder(docs) && |docs| <= limit && (forall d :: d in docs ==> d in log && d.at > since)
            && forall e :: e in log && e.at > since && e !in docs ==>
                 |docs| == limit && forall d :: d in docs ==> Precedes(d, e)
  {
    var all := Later(Ordered(log), since);
    OrderedInOrder(log);
    LaterInOrder(Ordered(log), since);
    var docs := First(all, limit);
    forall e | e in log && e.at > since && e !in docs
      ensures |docs| == limit && forall d :: d in docs ==> Precedes(d, e)
    {
      var j :| 0 <= j < |all| && all[j] == e;
      forall d | d in docs ensures Precedes(d, e) {
        var i :| 0 <= i < |docs| && docs[i] == d;
        assert all[i] == d;
      }
    }
  }

  /** What the first poll is told: the newest events, newest first. */
  lemma AnswerFirst(log: seq<Event>, limit: nat)
    requires DistinctEvents(log)
    ensures var docs := Answer(log, None, limit);
            && InOrder(Reverse(docs)) && |docs| <= limit && (forall d :: d in docs ==> d in log)
            && (docs != [] ==> forall e :: e in log ==> e.at <= docs[0].at)
  {
    var all := Ordered(log);
    OrderedInOrder(log);
    NewestOfMany(all, limit);
    var tail := Last(all, limit);
    ReverseTwice(tail);
    ReverseHas(tail);
    if tail != [] {
      NewestFirst(tail);
      LastIsLatest(all);
    }
  }

  lemma LastIsLatest(s: seq<Event>)
    requires InOrder(s) && s != []
    ensures forall d :: d in s ==> d.at <= s[|s| - 1].at
  {
    var last := s[|s| - 1];
    forall d | d in s ensures d.at <= last.at {
      var i :| 0 <= i < |s| && s[i] == d;
      if i < |s| - 1 { assert Precedes(s[i], last); }
    }
  }

  lemma {:induction false} ReverseHas<T(!new)>(s: seq<T>)
    ensures forall x :: x in Reverse(s) <==> x in s
  {
    if s != [] { ReverseHas(s[1..]); }
  }

  lemma {:induction false} NewestFirst<T>(s: seq<T>)
    requires s != []
    ensures Reverse(s) != [] && Reverse(s)[0] == s[|s| - 1]
  {
    if |s| > 1 { NewestFirst(s[1..]); }
  }

  lemma NewestOfMany<T>(s: seq<T>, n: nat)
    ensures Reverse(Last(s, n)) == First(Reverse(s), n)
  {
    if |s| > n {
      var a, b := s[..|s| - n], s[|s| - n..];
      ReverseAppend(a, b);
      assert a + b == s;
    }
  }

  // ---- Runs ----

  /** What the server answered, and how many events were indexed then. */
  datatype Served = Served(docs: seq<Event>, indexed: nat)

  /** The one request that has not been cancelled; its answer is fixed when it is served. */
  datatype Request = Request(initial: bool, since: Option<Time>, answer: Option<Served>)

  /**
   `log` is in the order of indexing. `first` is the first non-empty load, oldest first, `history` its newest
   time, and `loaded` how many events were indexed when it was served; `accepted` is all that was accepted
   after it, `handed` all the reducer was given.
   */
  datatype Pipe = Pipe(
    log: seq<Event>,
    feed: FeedState,
    request: Option<Request>,
    lastProcessed: Option<Id>,
    handed: seq<Event>,
    history: Option<Time>,
    loaded: nat,
    first: seq<Event>,
    accepted: seq<Event>,
    stack: Stack)

  datatype Step =
    | Happens(event: Event)
    | Tick
    | Serve
    | Arrives
    | Fails
    | Consume
    | CardActs(action: Action)

  predicate CanDo(p: Pipe, s: Step) {
    match s
    case Happens(e) => forall x :: x in p.log ==> x.id != e.id
    case Serve => p.request.Some? && p.request.value.answer.None?
    case Arrives => p.request.Some? && p.request.value.answer.Some?
    case CardActs(a) => !a.Take? && CanAct(p.stack, a)
    case _ => true
  }

  function Consumed(p: Pipe): Pipe {
    var newOnes := NewOnes(p.feed.queue, p.lastProcessed);
    if newOnes == [] then p
    else p.(handed := p.handed + newOnes, lastProcessed := LastAfter(p.feed.queue, p.lastProcessed),
            stack := ToastStack.Run(p.stack, Takes(newOnes)))
  }

  function FirstArrived(p: Pipe, limit: nat, docs: seq<Event>, indexed: nat): Pipe {
    var q := p.(request := None, feed := DocsAccepted(p.feed, limit, true, docs));
    if docs == [] then q else q.(history := Some(docs[0].at), loaded := indexed, first := Reverse(docs))
  }

  function BatchArrived(p: Pipe, limit: nat, docs: seq<Event>): Pipe {
    var q := p.(request := None, feed := DocsAccepted(p.feed, limit, false, docs));
    if docs == [] then q else q.(accepted := p.accepted + docs)
  }

  /** A tick renders, which runs the consumer, then cancels the pending request and sends the next one. */
  function Do(p: Pipe, limit: nat, s: Step): Pipe
    requires CanDo(p, s)
  {
    match s
    case Happens(e) => p.(log := p.log + [e])
    case Tick => Consumed(p).(request := Some(Request(p.feed.since.None?, p.feed.since, None)))
    case Serve =>
      var r := p.request.value;
      p.(request := Some(r.(answer := Some(Served(Answer(p.log, r.since, limit), |p.log|)))))
    case Arrives =>
      var r, a := p.request.value, p.request.value.answer.value;
      if r.initial then FirstArrived(p, limit, a.docs, a.indexed) else BatchArrived(p, limit, a.docs)
    case Fails => p.(request := None)
    case Consume => Consumed(p)
    case CardActs(a) => p.(stack := Act(p.stack, a))
  }

  predicate Legal(p: Pipe, limit: nat, steps: seq<Step>)
    decreases steps
  {
    steps == [] || (CanDo(p, steps[0]) && Legal(Do(p, limit, steps[0]), limit, steps[1..]))
  }

  function Run(p: Pipe, limit: nat, steps: seq<Step>): Pipe
    requires Legal(p, limit, steps)
    decreases steps
  {
    if steps == [] then p else Run(Do(p, limit, steps[0]), limit, steps[1..])
  }

  function Mounted(log: seq<Event>): Pipe {
    Pipe(log, FeedState(None, [], []), None, None, [], None, 0, [], [], EMPTY_STACK)
  }

  // ---- The invariant ----

  function LastId(s: seq<Event>): Option<Id> {
    if s == [] then None else Some(s[|s| - 1].id)
  }

  /** The critical events accepted after the first load. */
  function Alerts(p: Pipe): seq<Event> { Criticals(p.accepted) }

  /** What has been accepted is in order, within the log, and ends at the cursor; the ticker shows the newest of it. */
  ghost predicate AcceptedOk(p: Pipe, limit: nat) {
    if p.feed.since.None? then
      p.feed == FeedState(None, [], []) && p.history.None? && p.loaded == 0 && p.first == [] && p.accepted == []
    else
      && p.history.Some? && p.history.value <= p.feed.since.value
      && p.loaded <= |p.log| && (forall e :: e in p.log[..p.loaded] ==> e.at <= p.history.value)
      && InOrder(p.accepted)
      && (forall e :: e in p.accepted ==> e in p.log && p.history.value < e.at <= p.feed.since.value)
      && (if p.accepted == [] then p.feed.since == p.history else p.feed.since == Some(p.accepted[|p.accepted| - 1].at))
      && p.feed.feed == First(Reverse(p.first + p.accepted), limit)
  }

  ghost predicate RequestOk(p: Pipe, limit: nat) {
    p.request.Some? ==>
      var r := p.request.value;
      && r.since == p.feed.since && r.initial == r.since.None?
      && (r.answer.Some? ==>
            && r.answer.value.indexed <= |p.log|
            && r.answer.value.docs == Answer(p.log[..r.answer.value.indexed], r.since, limit))
  }

  /** The queue is the tail of the alerts, and what the consumer has not seen of them is still in it. */
  ghost predicate Delivered(p: Pipe) {
    && p.handed <= Alerts(p)
    && |Alerts(p)| - |p.handed| <= CRITICAL_QUEUE_CAP
    && p.feed.queue == Last(Alerts(p), CRITICAL_QUEUE_CAP)
    && p.lastProcessed == LastId(p.handed)
    && (p.request.Some? ==> p.handed == Alerts(p))
  }

  /** The stack has consumed exactly the events handed over. */
  ghost predicate StackHolds(stack: Stack, handed: seq<Event>) {
    && StackInv(stack) && stack.consumed == |handed|
    && (forall id :: id in stack.seen ==> exists e :: e in handed && e.id == id)
  }

  ghost predicate StackOk(p: Pipe) { StackHolds(p.stack, p.handed) }

  ghost predicate PipeInv(p: Pipe, limit: nat) {
    DistinctEvents(p.log) && AcceptedOk(p, limit) && RequestOk(p, limit) && Delivered(p) && StackOk(p)
  }

  // ---- Sequences ----

  lemma OrderIsDistinct(log: seq<Event>, s: seq<Event>)
    requires DistinctEvents(log) && InOrder(s) && forall e :: e in s ==> e in log
    ensures DistinctEvents(s)
  {
    forall i, j | 0 <= i < j < |s| ensures s[i].id != s[j].id {
      assert Precedes(s[i], s[j]) && s[i] in log && s[j] in log;
      var k :| 0 <= k < |log| && log[k] == s[i];
      var l :| 0 <= l < |log| && log[l] == s[j];
      if k < l { assert log[k].id != log[l].id; } else if l < k { assert log[l].id != log[k].id; }
    }
  }

  lemma {:induction false} CriticalsDistinct(s: seq<Event>)
    requires DistinctEvents(s)
    ensures DistinctEvents(Criticals(s)) && forall e :: e in Criticals(s) ==> e in s
  {
    if s != [] {
      CriticalsDistinct(s[1..]);
      var rest := Criticals(s[1..]);
      forall e | e in rest ensures e.id != s[0].id {
        var k :| 0 <= k < |s[1..]| && s[1..][k] == e;
        assert s[k + 1] == e;
      }
      var r := [s[0]] + rest;
      forall i, j | 0 <= i < j < |r| ensures r[i].id != r[j].id {
        assert r[j] == rest[j - 1];
        if i > 0 { assert r[i] == rest[i - 1]; }
      }
    }
  }

  lemma LastOfLast<T>(a: seq<T>, b: seq<T>, n: nat)
    ensures Last(Last(a, n) + b, n) == Last(a + b, n)
  {
  }

  lemma FirstOfFirst<T>(a: seq<T>, b: seq<T>, n: nat)
    ensures First(a + First(b, n), n) == First(a + b, n)
  {
  }

  lemma AlertsDistinct(p: Pipe, limit: nat)
    requires DistinctEvents(p.log) && AcceptedOk(p, limit)
    ensures DistinctEvents(Alerts(p))
  {
    OrderIsDistinct(p.log, p.accepted);
    CriticalsDistinct(p.accepted);
  }

  // ---- Steps ----

  lemma ConsumeLeaves(p: Pipe)
    ensures var q := Consumed(p);
            && q.log == p.log && q.feed == p.feed && q.request == p.request
            && q.history == p.history && q.loaded == p.loaded && q.accepted == p.accepted && q.first == p.first
  {
  }

  lemma AcceptedUnmoved(p: Pipe, q: Pipe, limit: nat)
    requires q.log == p.log && q.feed == p.feed && q.history == p.history && q.loaded == p.loaded
    requires q.accepted == p.accepted && q.first == p.first
    ensures AcceptedOk(p, limit) ==> AcceptedOk(q, limit)
    ensures q.request == p.request && RequestOk(p, limit) ==> RequestOk(q, limit)
  {
  }

  lemma ConsumeDelivers(p: Pipe)
    requires Delivered(p) && DistinctEvents(Alerts(p))
    ensures var q := Consumed(p);
            && q.handed == Alerts(p) && q.lastProcessed == LastId(Alerts(p))
            && q.stack == ToastStack.Run(p.stack, Takes(Alerts(p)[|p.handed|..]))
  {
    var all := Alerts(p);
    var rest := all[|p.handed|..];
    assert all == p.handed + rest;
    HandedWhole(p.handed, rest, p.lastProcessed);
    assert NewOnes(p.feed.queue, p.lastProcessed) == rest;
    if rest == [] {
      assert p.handed == all;
    } else {
      assert p.feed.queue != [] && p.feed.queue[|p.feed.queue| - 1] == all[|all| - 1];
    }
  }

  lemma DeliveredThroughout(p: Pipe)
    requires p.handed == Alerts(p) && p.feed.queue == Last(Alerts(p), CRITICAL_QUEUE_CAP)
    requires p.lastProcessed == LastId(p.handed)
    ensures Delivered(p)
  {
  }

  /** The events handed over next are new to the stack, so it takes them as a legal run. */
  lemma ConsumeStacks(p: Pipe, rest: seq<Event>)
    requires StackOk(p) && DistinctEvents(p.handed + rest)
    ensures StackHolds(ToastStack.Run(p.stack, Takes(rest)), p.handed + rest)
  {
    var all := p.handed + rest;
    forall e | e in rest ensures e.id !in p.stack.seen {
      var j :| 0 <= j < |rest| && rest[j] == e;
      assert all[|p.handed| + j] == e;
      forall d | d in p.handed ensures d.id != e.id {
        var i :| 0 <= i < |p.handed| && p.handed[i] == d;
        assert all[i] == d;
      }
    }
    forall i, j | 0 <= i < j < |rest| ensures rest[i].id != rest[j].id {
      assert all[|p.handed| + i] == rest[i] && all[|p.handed| + j] == rest[j];
    }
    BatchRuns(p.stack, rest);
    SeenOfBatch(p.stack, rest);
  }

  lemma {:induction false} SeenOfBatch(s: Stack, events: seq<Event>)
    ensures forall id :: id in ToastStack.Run(s, Takes(events)).seen <==>
              id in s.seen || exists e :: e in events && e.id == id
    decreases events
  {
    if events != [] {
      assert Takes(events)[1..] == Takes(events[1..]);
      SeenOfBatch(Act(s, Take(events[0])), events[1..]);
    }
  }

  lemma ConsumeKeeps(p: Pipe, limit: nat)
    requires PipeInv(p, limit)
    ensures PipeInv(Consumed(p), limit) && Consumed(p).handed == Alerts(Consumed(p))
  {
    var q, rest := Consumed(p), Alerts(p)[|p.handed|..];
    AlertsDistinct(p, limit);
    ConsumeLeaves(p);
    AcceptedUnmoved(p, q, limit);
    ConsumeDelivers(p);
    DeliveredThroughout(q);
    assert p.handed + rest == Alerts(p);
    ConsumeStacks(p, rest);
  }

  lemma TickKeeps(p: Pipe, limit: nat)
    requires PipeInv(p, limit)
    ensures PipeInv(Do(p, limit, Tick), limit)
  {
    ConsumeKeeps(p, limit);
    ConsumeLeaves(p);
    AcceptedUnmoved(Consumed(p), Do(p, limit, Tick), limit);
    DeliveredThroughout(Do(p, limit, Tick));
  }

  lemma HappensKeeps(p: Pipe, limit: nat, e: Event)
    requires PipeInv(p, limit) && CanDo(p, Happens(e))
    ensures PipeInv(Do(p, limit, Happens(e)), limit)
  {
    LogGrows(p.log, e);
    var q := Do(p, limit, Happens(e));
    RequestLasts(p, q, limit);
    assert Alerts(q) == Alerts(p);
  }

  lemma LogGrows(log: seq<Event>, e: Event)
    requires DistinctEvents(log) && forall x :: x in log ==> x.id != e.id
    ensures DistinctEvents(log + [e])
  {
    forall i, j | 0 <= i < j < |log + [e]| ensures (log + [e])[i].id != (log + [e])[j].id {
      if j == |log| { assert (log + [e])[i] in log; }
    }
  }

  lemma RequestLasts(p: Pipe, q: Pipe, limit: nat)
    requires RequestOk(p, limit) && p.log <= q.log && q.feed == p.feed && q.request == p.request
    ensures RequestOk(q, limit)
  {
    if p.request.Some? && p.request.value.answer.Some? {
      var n := p.request.value.answer.value.indexed;
      assert q.log[..n] == p.log[..n];
    }
  }

  lemma ServeKeeps(p: Pipe, limit: nat)
    requires PipeInv(p, limit) && CanDo(p, Serve)
    ensures PipeInv(Do(p, limit, Serve), limit)
  {
    var q := Do(p, limit, Serve);
    assert p.log[..|p.log|] == p.log;
    AcceptedUnmoved(p, q, limit);
    DeliveredThroughout(q);
  }

  lemma PrefixDistinct(log: seq<Event>, n: nat)
    requires DistinctEvents(log) && n <= |log|
    ensures DistinctEvents(log[..n]) && forall e :: e in log[..n] ==> e in log
  {
  }

  /** The first non-empty load sets the origin and alerts nobody. */
  lemma FirstArrives(p: Pipe, limit: nat)
    requires PipeInv(p, limit) && CanDo(p, Arrives) && p.feed.since.None?
    ensures PipeInv(Do(p, limit, Arrives), limit)
  {
    var n, docs := p.request.value.answer.value.indexed, p.request.value.answer.value.docs;
    PrefixDistinct(p.log, n);
    AnswerFirst(p.log[..n], limit);
    if docs != [] {
      ReverseTwice(docs);
      assert docs + [] == docs && Reverse(docs) + [] == Reverse(docs);
      assert First(docs, limit) == docs;
    }
  }

  /** A batch after the cursor goes behind everything accepted so far. */
  lemma BatchInOrder(accepted: seq<Event>, docs: seq<Event>, since: Time)
    requires InOrder(accepted) && InOrder(docs)
    requires (forall e :: e in accepted ==> e.at <= since) && forall d :: d in docs ==> d.at > since
    ensures InOrder(accepted + docs)
  {
    var all, n := accepted + docs, |accepted|;
    forall i, j | 0 <= i < j < |all| ensures Precedes(all[i], all[j]) {
      if i < n <= j {
        assert all[i] == accepted[i] && all[j] == docs[j - n] && accepted[i] in accepted && docs[j - n] in docs;
      }
    }
  }

  lemma TickerAfter(first: seq<Event>, accepted: seq<Event>, docs: seq<Event>, limit: nat)
    ensures First(Reverse(docs) + First(Reverse(first + accepted), limit), limit)
         == First(Reverse(first + (accepted + docs)), limit)
  {
    assert first + (accepted + docs) == (first + accepted) + docs;
    ReverseAppend(first + accepted, docs);
    FirstOfFirst(Reverse(docs), Reverse(first + accepted), limit);
  }

  lemma BatchAccepted(p: Pipe, limit: nat, docs: seq<Event>)
    requires AcceptedOk(p, limit) && p.feed.since.Some? && docs != [] && InOrder(docs)
    requires forall d :: d in docs ==> d in p.log && d.at > p.feed.since.value
    ensures AcceptedOk(BatchArrived(p, limit, docs), limit)
  {
    BatchInOrder(p.accepted, docs, p.feed.since.value);
    TickerAfter(p.first, p.accepted, docs, limit);
    LastIsLatest(docs);
    assert docs[|docs| - 1] in docs;
  }

  lemma BatchDelivered(p: Pipe, limit: nat, docs: seq<Event>)
    requires Delivered(p) && p.handed == Alerts(p) && docs != [] && |docs| <= CRITICAL_QUEUE_CAP
    ensures Delivered(BatchArrived(p, limit, docs))
  {
    CriticalsAppend(p.accepted, docs);
    QueueIsChronological(p.feed, limit, docs);
    LastOfLast(Alerts(p), Criticals(docs), CRITICAL_QUEUE_CAP);
  }

  /** An arrival touches neither the stack nor what was handed over. */
  lemma ArrivalTogether(p: Pipe, q: Pipe, limit: nat)
    requires DistinctEvents(p.log) && StackOk(p) && AcceptedOk(q, limit) && Delivered(q)
    requires q.log == p.log && q.request.None? && q.stack == p.stack && q.handed == p.handed
    ensures PipeInv(q, limit)
  {
  }

  lemma BatchArrives(p: Pipe, limit: nat, docs: seq<Event>)
    requires limit <= 50 && AcceptedOk(p, limit) && Delivered(p) && p.handed == Alerts(p)
    requires p.feed.since.Some?
    requires InOrder(docs) && |docs| <= limit && forall d :: d in docs ==> d in p.log && d.at > p.feed.since.value
    ensures AcceptedOk(BatchArrived(p, limit, docs), limit) && Delivered(BatchArrived(p, limit, docs))
  {
    if docs != [] {
      BatchAccepted(p, limit, docs);
      BatchDelivered(p, limit, docs);
    }
  }

  lemma LaterArrives(p: Pipe, limit: nat)
    requires limit <= 50
    requires PipeInv(p, limit) && CanDo(p, Arrives) && p.feed.since.Some?
    ensures PipeInv(Do(p, limit, Arrives), limit)
  {
    var docs := p.request.value.answer.value.docs;
    BatchFacts(p, limit);
    BatchArrives(p, limit, docs);
    ArrivalTogether(p, BatchArrived(p, limit, docs), limit);
  }

  lemma BatchFacts(p: Pipe, limit: nat)
    requires DistinctEvents(p.log) && RequestOk(p, limit) && CanDo(p, Arrives) && p.feed.since.Some?
    ensures var docs := p.request.value.answer.value.docs;
            InOrder(docs) && |docs| <= limit && forall d :: d in docs ==> d in p.log && d.at > p.feed.since.value
  {
    var n := p.request.value.answer.value.indexed;
    PrefixDistinct(p.log, n);
    AnswerAfter(p.log[..n], p.feed.since.value, limit);
  }

  lemma StepKeeps(p: Pipe, limit: nat, s: Step)
    requires limit <= 50 && PipeInv(p, limit) && CanDo(p, s)
    ensures PipeInv(Do(p, limit, s), limit)
  {
    match s
    case Happens(e) => HappensKeeps(p, limit, e);
    case Tick => TickKeeps(p, limit);
    case Serve => ServeKeeps(p, limit);
    case Arrives => if p.feed.since.None? { FirstArrives(p, limit); } else { LaterArrives(p, limit); }
    case Fails =>
    case Consume => ConsumeKeeps(p, limit);
    case CardActs(a) => ActKeeps(p.stack, a);
  }

  lemma {:induction false} AlwaysInv(p: Pipe, limit: nat, steps: seq<Step>)
    requires limit <= 50 && PipeInv(p, limit) && Legal(p, limit, steps)
    ensures PipeInv(Run(p, limit, steps), limit)
    decreases steps
  {
    if steps != [] {
      StepKeeps(p, limit, steps[0]);
      AlwaysInv(Do(p, limit, steps[0]), limit, steps[1..]);
    }
  }

  lemma MountedInv(log: seq<Event>, limit: nat)
    requires DistinctEvents(log)
    ensures PipeInv(Mounted(log), limit)
  {
  }

  // ---- Exactly once ----

  lemma Reachable(log: seq<Event>, limit: nat, steps: seq<Step>)
    requires limit <= 50 && DistinctEvents(log) && Legal(Mounted(log), limit, steps)
    ensures PipeInv(Run(Mounted(log), limit, steps), limit)
  {
    MountedInv(log, limit);
    AlwaysInv(Mounted(log), limit, steps);
  }

  /**
   What the reducer has been given is a duplicate-free prefix of the alerts, and all of them once the consumer
   has run.
   */
  ghost predicate HandedOnce(p: Pipe) {
    p.handed <= Alerts(p) && DistinctEvents(p.handed) && Consumed(p).handed == Alerts(p)
  }

  lemma OnceAt(p: Pipe, limit: nat)
    requires PipeInv(p, limit)
    ensures HandedOnce(p)
  {
    AlertsDistinct(p, limit);
    ConsumeDelivers(p);
    forall i, j | 0 <= i < j < |p.handed| ensures p.handed[i].id != p.handed[j].id {
      assert p.handed[i] == Alerts(p)[i] && p.handed[j] == Alerts(p)[j];
    }
  }

  /**
   Exactly once, in order: in every run with batches no longer than the queue, and whatever the times of
   the events and the order of their indexing, what the reducer has been given is a prefix of the critical
   events accepted since the first load, with no id twice; and as soon as the consumer runs it is all of them.
   */
  lemma {:induction false} ExactlyOnce(log: seq<Event>, limit: nat, steps: seq<Step>)
    requires limit <= 50 && DistinctEvents(log) && Legal(Mounted(log), limit, steps)
    ensures HandedOnce(Run(Mounted(log), limit, steps))
  {
    Reachable(log, limit, steps);
    OnceAt(Run(Mounted(log), limit, steps), limit);
  }

  /**
   Counts shown and counts removed add up to the alerts, and at most five active cards of distinct groups are
   shown.
   */
  ghost predicate AllCounted(p: Pipe) {
    && Total(p.stack.toasts) + p.stack.retired == |Alerts(p)|
    && |Active(p.stack.toasts)| <= 5 && DistinctGroups(p.stack.toasts)
  }

  /** From the log to the cards: once the consumer has run, every alert is counted on a card, exactly once. */
  lemma {:induction false} EveryAlertIsCounted(log: seq<Event>, limit: nat, steps: seq<Step>)
    requires limit <= 50 && DistinctEvents(log) && Legal(Mounted(log), limit, steps)
    ensures AllCounted(Consumed(Run(Mounted(log), limit, steps)))
  {
    Reachable(log, limit, steps);
    CountedAt(Run(Mounted(log), limit, steps), limit);
  }

  lemma CountedAt(p: Pipe, limit: nat)
    requires PipeInv(p, limit)
    ensures AllCounted(Consumed(p))
  {
    ConsumeKeeps(p, limit);
  }

  /** The last elements of `s`, at most `n`, newest first. */
  predicate NewestOf(shown: seq<Event>, s: seq<Event>, n: nat) {
    |shown| == (if |s| < n then |s| else n) && forall k :: 0 <= k < |shown| ==> shown[k] == s[|s| - 1 - k]
  }

  /** The last elements of `s`, at most `n`, in order. */
  predicate TailOf(queue: seq<Event>, s: seq<Event>, n: nat) {
    |queue| == (if |s| < n then |s| else n) && forall k :: 0 <= k < |queue| ==> queue[k] == s[|s| - |queue| + k]
  }

  /**
   The ticker shows the newest of the first load and of what was accepted since, newest first, up to its limit; and
   the queue holds the last fifty alerts in order.
   */
  ghost predicate ShowsTheNewest(p: Pipe, limit: nat) {
    NewestOf(p.feed.feed, p.first + p.accepted, limit) && TailOf(p.feed.queue, Alerts(p), 50)
  }

  lemma {:induction false} TickerAndQueue(log: seq<Event>, limit: nat, steps: seq<Step>)
    requires limit <= 50 && DistinctEvents(log) && Legal(Mounted(log), limit, steps)
    ensures ShowsTheNewest(Run(Mounted(log), limit, steps), limit)
  {
    Reachable(log, limit, steps);
    ShownAt(Run(Mounted(log), limit, steps), limit);
  }

  lemma ShownAt(p: Pipe, limit: nat)
    requires PipeInv(p, limit)
    ensures ShowsTheNewest(p, limit)
  {
    ReversedAt(p.first + p.accepted);
  }

  // ---- What is never accepted ----

  /** Indexed after the first load was served, reached by the cursor, and not taken: it will never be. */
  ghost predicate Missed(p: Pipe, e: Event) {
    && p.feed.since.Some? && p.loaded <= |p.log|
    && e in p.log[p.loaded..] && e.at <= p.feed.since.value && e !in p.accepted
  }

  /**
   The answer moves the cursor past an event that was indexed after it was served, or, behind a cursor, that
   the limit cut off at the last time.
   */
  ghost predicate Overtaken(p: Pipe, limit: nat, e: Event)
    requires p.request.Some? && p.request.value.answer.Some?
  {
    var a := p.request.value.answer.value;
    && a.docs != [] && a.indexed <= |p.log|
    && if p.feed.since.None? then e in p.log[a.indexed..] && e.at <= a.docs[0].at
       else
         var last := a.docs[|a.docs| - 1];
         && e in p.log && p.feed.since.value < e.at <= last.at
         && (e !in p.log[..a.indexed] || (|a.docs| == limit && e.at == last.at && e.id > last.id))
  }

  /** A step that makes the cursor pass no event. */
  ghost predicate InTime(p: Pipe, limit: nat, s: Step)
    requires CanDo(p, s)
  {
    match s
    case Happens(e) => p.feed.since.Some? ==> e.at > p.feed.since.value
    case Arrives => forall e :: !Overtaken(p, limit, e)
    case _ => true
  }

  /**
   Of the events up to the last one of a batch, the batch leaves out those not indexed yet and those cut off at
   its last time.
   */
  lemma LeftOutExactly(log: seq<Event>, indexed: nat, since: Time, limit: nat, docs: seq<Event>, e: Event)
    requires DistinctEvents(log) && indexed <= |log| && docs == Answer(log[..indexed], Some(since), limit) && docs != []
    requires e in log && since < e.at <= docs[|docs| - 1].at
    ensures var last := docs[|docs| - 1];
            e !in docs <==> e !in log[..indexed] || (|docs| == limit && e.at == last.at && e.id > last.id)
  {
    PrefixDistinct(log, indexed);
    AnswerAfter(log[..indexed], since, limit);
    UpToTheLast(docs, e);
  }

  /** In a batch in order, an event up to its last time is behind the last one only by id. */
  lemma UpToTheLast(docs: seq<Event>, e: Event)
    requires InOrder(docs) && docs != []
    ensures var last := docs[|docs| - 1];
            && last in docs && (e in docs && e.at == last.at ==> e.id <= last.id)
            && (Precedes(last, e) && e.at <= last.at ==> e.at == last.at && e.id > last.id)
  {
    var last := docs[|docs| - 1];
    if e in docs {
      var i :| 0 <= i < |docs| && docs[i] == e;
      if i < |docs| - 1 { assert Precedes(docs[i], last); }
    }
  }

  lemma PassedAfter(p: Pipe, limit: nat)
    requires DistinctEvents(p.log) && RequestOk(p, limit) && CanDo(p, Arrives) && p.feed.since.Some?
    requires p.request.value.answer.value.docs != []
    ensures var docs, q := p.request.value.answer.value.docs, Do(p, limit, Arrives);
            && q.feed.since == Some(docs[|docs| - 1].at) && q.accepted == p.accepted + docs
            && q.log == p.log && q.loaded == p.loaded && docs[|docs| - 1].at > p.feed.since.value
  {
    var docs := p.request.value.answer.value.docs;
    BatchFacts(p, limit);
    assert docs[|docs| - 1] in docs;
  }

  /** What the cursor has not reached was indexed after the first load. */
  lemma Unreached(p: Pipe, limit: nat, e: Event)
    requires AcceptedOk(p, limit) && p.feed.since.Some? && e in p.log && e.at > p.feed.since.value
    ensures e in p.log[p.loaded..]
  {
    assert p.log == p.log[..p.loaded] + p.log[p.loaded..];
  }

  /** A batch adds to the missed events those it passes without holding them. */
  lemma MissedAfter(p: Pipe, q: Pipe, docs: seq<Event>, e: Event)
    requires p.feed.since.Some? && q.feed.since.Some? && q.log == p.log && q.loaded == p.loaded <= |p.log|
    requires p.feed.since.value < q.feed.since.value && q.accepted == p.accepted + docs
    requires (forall x :: x in p.accepted ==> x.at <= p.feed.since.value)
    requires forall d :: d in docs ==> d.at > p.feed.since.value
    requires e in p.log && e.at > p.feed.since.value ==> e in p.log[p.loaded..]
    ensures Missed(q, e) <==>
              Missed(p, e) || (e in p.log && p.feed.since.value < e.at <= q.feed.since.value && e !in docs)
  {
    assert forall x :: x in p.log[p.loaded..] ==> x in p.log;
  }

  /** What is overtaken is what the batch passes without holding it. */
  lemma OvertakenIsPassed(p: Pipe, limit: nat, e: Event)
    requires DistinctEvents(p.log) && RequestOk(p, limit) && CanDo(p, Arrives) && p.feed.since.Some?
    requires p.request.value.answer.value.docs != []
    ensures var docs := p.request.value.answer.value.docs;
            Overtaken(p, limit, e) <==> e in p.log && p.feed.since.value < e.at <= docs[|docs| - 1].at && e !in docs
  {
    var n, docs := p.request.value.answer.value.indexed, p.request.value.answer.value.docs;
    if e in p.log && p.feed.since.value < e.at <= docs[|docs| - 1].at {
      LeftOutExactly(p.log, n, p.feed.since.value, limit, docs, e);
    }
  }

  lemma BatchMisses(p: Pipe, limit: nat, e: Event)
    requires PipeInv(p, limit) && CanDo(p, Arrives) && p.feed.since.Some? && p.request.value.answer.value.docs != []
    ensures Missed(Do(p, limit, Arrives), e) <==> Missed(p, e) || Overtaken(p, limit, e)
  {
    PassedAfter(p, limit);
    BatchFacts(p, limit);
    if e in p.log && e.at > p.feed.since.value { Unreached(p, limit, e); }
    MissedAfter(p, Do(p, limit, Arrives), p.request.value.answer.value.docs, e);
    OvertakenIsPassed(p, limit, e);
  }

  lemma FirstMisses(p: Pipe, limit: nat, e: Event)
    requires PipeInv(p, limit) && CanDo(p, Arrives) && p.feed.since.None?
    ensures Missed(Do(p, limit, Arrives), e) <==> Overtaken(p, limit, e)
  {
  }

  /** What the cursor passes on an arrival it either takes or misses, and it misses exactly what is overtaken. */
  lemma OvertakenExactly(p: Pipe, limit: nat, e: Event)
    requires PipeInv(p, limit) && CanDo(p, Arrives)
    ensures Missed(Do(p, limit, Arrives), e) <==> Missed(p, e) || Overtaken(p, limit, e)
  {
    if p.feed.since.None? {
      FirstMisses(p, limit, e);
    } else if p.request.value.answer.value.docs != [] {
      BatchMisses(p, limit, e);
    }
  }

  lemma HappensMisses(p: Pipe, limit: nat, e: Event, x: Event)
    requires PipeInv(p, limit) && CanDo(p, Happens(e))
    ensures Missed(Do(p, limit, Happens(e)), x) <==> Missed(p, x) || (x == e && !InTime(p, limit, Happens(e)))
  {
    assert forall y :: y in p.accepted ==> y in p.log;
    if p.feed.since.Some? { assert (p.log + [e])[p.loaded..] == p.log[p.loaded..] + [e]; }
  }

  lemma MissedStays(p: Pipe, limit: nat, s: Step, e: Event)
    requires PipeInv(p, limit) && CanDo(p, s) && Missed(p, e)
    ensures Missed(Do(p, limit, s), e)
  {
    match s
    case Arrives => OvertakenExactly(p, limit, e);
    case Happens(x) => HappensMisses(p, limit, x, e);
    case Tick => ConsumeLeaves(p);
    case Consume => ConsumeLeaves(p);
    case _ =>
  }

  lemma InTimeMisses(p: Pipe, limit: nat, s: Step, e: Event)
    requires PipeInv(p, limit) && CanDo(p, s) && InTime(p, limit, s) && !Missed(p, e)
    ensures !Missed(Do(p, limit, s), e)
  {
    match s
    case Arrives => OvertakenExactly(p, limit, e);
    case Happens(x) => HappensMisses(p, limit, x, e);
    case Tick => ConsumeLeaves(p);
    case Consume => ConsumeLeaves(p);
    case _ =>
  }

  ghost predicate NoneMissed(p: Pipe) { forall e :: !Missed(p, e) }

  lemma InTimeMissesNone(p: Pipe, limit: nat, s: Step)
    requires PipeInv(p, limit) && CanDo(p, s) && InTime(p, limit, s) && NoneMissed(p)
    ensures NoneMissed(Do(p, limit, s))
  {
    forall e ensures !Missed(Do(p, limit, s), e) { InTimeMisses(p, limit, s, e); }
  }

  lemma LateMisses(p: Pipe, limit: nat, s: Step) returns (e: Event)
    requires PipeInv(p, limit) && CanDo(p, s) && !InTime(p, limit, s)
    ensures Missed(Do(p, limit, s), e)
  {
    match s {
      case Happens(x) =>
        e := x;
        HappensMisses(p, limit, x, x);
      case Arrives =>
        e :| Overtaken(p, limit, e);
        OvertakenExactly(p, limit, e);
    }
  }

  ghost predicate AllInTime(p: Pipe, limit: nat, steps: seq<Step>)
    requires Legal(p, limit, steps)
    decreases steps
  {
    steps == [] || (InTime(p, limit, steps[0]) && AllInTime(Do(p, limit, steps[0]), limit, steps[1..]))
  }

  lemma {:induction false} MissedForGood(p: Pipe, limit: nat, steps: seq<Step>, e: Event)
    requires limit <= 50 && PipeInv(p, limit) && Legal(p, limit, steps) && Missed(p, e)
    ensures Missed(Run(p, limit, steps), e)
    decreases steps
  {
    if steps != [] {
      StepKeeps(p, limit, steps[0]);
      MissedStays(p, limit, steps[0], e);
      MissedForGood(Do(p, limit, steps[0]), limit, steps[1..], e);
    }
  }

  lemma {:induction false} NothingMissedFrom(p: Pipe, limit: nat, steps: seq<Step>)
    requires limit <= 50 && PipeInv(p, limit) && Legal(p, limit, steps) && NoneMissed(p)
    ensures NoneMissed(Run(p, limit, steps)) <==> AllInTime(p, limit, steps)
    decreases steps
  {
    if steps != [] {
      var q := Do(p, limit, steps[0]);
      StepKeeps(p, limit, steps[0]);
      if InTime(p, limit, steps[0]) {
        InTimeMissesNone(p, limit, steps[0]);
        NothingMissedFrom(q, limit, steps[1..]);
      } else {
        var e := LateMisses(p, limit, steps[0]);
        MissedForGood(q, limit, steps[1..], e);
      }
    }
  }

  /**
   No event indexed after the first load is ever passed over if and only if none is indexed with a time the
   cursor has reached, none is indexed behind the times of an answer already served, the first one included,
   and no full batch ends between two events of one time.
   */
  lemma {:induction false} NothingMissedExactly(p: Pipe, limit: nat, steps: seq<Step>)
    requires limit <= 50 && DistinctEvents(p.log) && p == Mounted(p.log) && Legal(p, limit, steps)
    ensures NoneMissed(Run(p, limit, steps)) <==> AllInTime(p, limit, steps)
  {
    MountedReady(p.log, limit);
    NothingMissedFrom(p, limit, steps);
  }

  lemma MountedReady(log: seq<Event>, limit: nat)
    requires DistinctEvents(log)
    ensures PipeInv(Mounted(log), limit) && NoneMissed(Mounted(log))
  {
    MountedInv(log, limit);
    MountedMissesNone(log);
  }

  lemma MountedMissesNone(log: seq<Event>)
    ensures NoneMissed(Mounted(log))
  {
  }

  // ---- A chronological log ----

  predicate Chronological(log: seq<Event>) {
    forall i, j :: 0 <= i < j < |log| ==> log[i].at < log[j].at
  }

  /** Every event is indexed later, and has a later time, than all before it. */
  ghost predicate KeepsTime(p: Pipe, limit: nat, steps: seq<Step>)
    requires Legal(p, limit, steps)
    decreases steps
  {
    steps == []
    || ((steps[0].Happens? ==> forall x :: x in p.log ==> x.at < steps[0].event.at)
        && KeepsTime(Do(p, limit, steps[0]), limit, steps[1..]))
  }

  lemma ChronologicalStep(p: Pipe, limit: nat, s: Step)
    requires PipeInv(p, limit) && CanDo(p, s) && Chronological(p.log) && CursorInLog(p)
    requires s.Happens? ==> forall x :: x in p.log ==> x.at < s.event.at
    ensures InTime(p, limit, s) && Chronological(Do(p, limit, s).log) && CursorInLog(Do(p, limit, s))
  {
    match s
    case Happens(e) => HappensInTime(p, limit, e);
    case Arrives =>
      ArrivesInTime(p, limit);
      ArrivesWithCursor(p, limit);
    case _ =>
      StepLeaves(p, limit, s);
      CursorStays(p, Do(p, limit, s));
  }

  lemma StepLeaves(p: Pipe, limit: nat, s: Step)
    requires CanDo(p, s) && !s.Happens? && !s.Arrives?
    ensures Do(p, limit, s).log == p.log && Do(p, limit, s).feed == p.feed && InTime(p, limit, s)
  {
    ConsumeLeaves(p);
  }

  lemma CursorStays(p: Pipe, q: Pipe)
    requires CursorInLog(p) && q.log == p.log && q.feed == p.feed
    ensures CursorInLog(q)
  {
  }

  lemma LaterAtEnd(log: seq<Event>, e: Event)
    requires Chronological(log) && forall x :: x in log ==> x.at < e.at
    ensures Chronological(log + [e])
  {
    var all := log + [e];
    forall i, j | 0 <= i < j < |all| ensures all[i].at < all[j].at {
      if j == |log| { assert all[i] in log; }
    }
  }

  lemma HappensInTime(p: Pipe, limit: nat, e: Event)
    requires CanDo(p, Happens(e)) && Chronological(p.log) && CursorInLog(p) && forall x :: x in p.log ==> x.at < e.at
    ensures InTime(p, limit, Happens(e)) && Chronological(p.log + [e]) && CursorInLog(Do(p, limit, Happens(e)))
  {
    LaterAtEnd(p.log, e);
  }

  /** The cursor is the time of a logged event. */
  ghost predicate CursorInLog(p: Pipe) {
    p.feed.since.Some? ==> exists x :: x in p.log && x.at == p.feed.since.value
  }

  /** In a chronological log no event up to a logged one is indexed after it or shares its time. */
  lemma NoneBehind(log: seq<Event>, n: nat, last: Event, e: Event)
    requires Chronological(log) && n <= |log| && last in log[..n] && e in log && e.at <= last.at
    ensures e in log[..n] && (e.at == last.at ==> e == last)
  {
    var j :| 0 <= j < n && log[j] == last;
    var i :| 0 <= i < |log| && log[i] == e;
    Apart(log, i, j);
    Apart(log, j, i);
    assert log[..n][i] == e;
  }

  lemma Apart(log: seq<Event>, i: nat, j: nat)
    requires Chronological(log) && i < |log| && j < |log|
    ensures i < j ==> log[i].at < log[j].at
  {
  }

  lemma NotOvertaken(p: Pipe, limit: nat, e: Event)
    requires p.request.Some? && p.request.value.answer.Some? && Chronological(p.log)
    requires var a := p.request.value.answer.value;
             a.indexed <= |p.log| && forall d :: d in a.docs ==> d in p.log[..a.indexed]
    ensures !Overtaken(p, limit, e)
  {
    var a := p.request.value.answer.value;
    if a.docs != [] && p.feed.since.None? {
      assert a.docs[0] in a.docs;
      if e in p.log[a.indexed..] { LaterBehind(p.log, a.indexed, a.docs[0], e); }
    } else if a.docs != [] && e in p.log {
      var last := a.docs[|a.docs| - 1];
      assert last in a.docs;
      if e.at <= last.at { NoneBehind(p.log, a.indexed, last, e); }
    }
  }

  lemma LaterBehind(log: seq<Event>, n: nat, d: Event, e: Event)
    requires Chronological(log) && n <= |log| && d in log[..n] && e in log[n..]
    ensures e.at > d.at
  {
    var i :| 0 <= i < n && log[i] == d;
    var j :| 0 <= j < |log| - n && log[n..][j] == e;
    Apart(log, i, n + j);
  }

  lemma ArrivesInTime(p: Pipe, limit: nat)
    requires DistinctEvents(p.log) && RequestOk(p, limit) && CanDo(p, Arrives) && Chronological(p.log)
    ensures InTime(p, limit, Arrives)
  {
    ReadFromPrefix(p, limit);
    forall e ensures !Overtaken(p, limit, e) { NotOvertaken(p, limit, e); }
  }

  lemma ReadFromPrefix(p: Pipe, limit: nat)
    requires DistinctEvents(p.log) && RequestOk(p, limit) && CanDo(p, Arrives)
    ensures var a := p.request.value.answer.value; forall d :: d in a.docs ==> d in p.log[..a.indexed] && d in p.log
  {
    var n := p.request.value.answer.value.indexed;
    PrefixDistinct(p.log, n);
    if p.feed.since.Some? {
      AnswerAfter(p.log[..n], p.feed.since.value, limit);
    } else {
      AnswerFirst(p.log[..n], limit);
    }
  }

  lemma ArrivesWithCursor(p: Pipe, limit: nat)
    requires DistinctEvents(p.log) && RequestOk(p, limit) && CanDo(p, Arrives) && CursorInLog(p)
    ensures CursorInLog(Do(p, limit, Arrives))
  {
    var docs := p.request.value.answer.value.docs;
    ReadFromPrefix(p, limit);
    assert docs != [] ==> docs[0] in docs && docs[|docs| - 1] in docs;
  }

  /** On a log in the order of its distinct times nothing is ever missed. */
  lemma {:induction false} ChronologicalMissesNone(p: Pipe, limit: nat, steps: seq<Step>)
    requires limit <= 50 && PipeInv(p, limit) && Legal(p, limit, steps)
    requires Chronological(p.log) && CursorInLog(p) && KeepsTime(p, limit, steps)
    ensures AllInTime(p, limit, steps)
    decreases steps
  {
    if steps != [] {
      StepKeeps(p, limit, steps[0]);
      ChronologicalStep(p, limit, steps[0]);
      ChronologicalMissesNone(Do(p, limit, steps[0]), limit, steps[1..]);
    }
  }

  // ---- What the alerts are ----

  function Reached(s: seq<Event>, until: Time): (r: seq<Event>)
    ensures forall x :: x in r <==> x in s && x.at <= until
  {
    if s == [] then []
    else if s[0].at <= until then [s[0]] + Reached(s[1..], until)
    else Reached(s[1..], until)
  }

  /** The events indexed after the first load that the cursor has reached, in the order of the endpoint. */
  function Due(p: Pipe): seq<Event> {
    if p.feed.since.None? || p.loaded > |p.log| then [] else Reached(Ordered(p.log[p.loaded..]), p.feed.since.value)
  }

  lemma {:induction false} ReachedInOrder(s: seq<Event>, until: Time)
    requires InOrder(s)
    ensures InOrder(Reached(s, until))
  {
    if s != [] {
      ReachedInOrder(s[1..], until);
      Fronted(s, Reached(s[1..], until));
    }
  }

  /** Elements of the rest of an ordered sequence, in order, stay in order behind its head. */
  lemma Fronted(s: seq<Event>, rest: seq<Event>)
    requires s != [] && InOrder(s) && InOrder(rest) && forall x :: x in rest ==> x in s[1..]
    ensures InOrder([s[0]] + rest)
  {
    var r := [s[0]] + rest;
    forall i, j | 0 <= i < j < |r| ensures Precedes(r[i], r[j]) {
      assert r[j] == rest[j - 1] && rest[j - 1] in rest;
      if i > 0 {
        assert r[i] == rest[i - 1];
      } else {
        var k :| 0 <= k < |s[1..]| && s[1..][k] == r[j];
        assert s[k + 1] == r[j];
      }
    }
  }

  lemma {:induction false} CriticalsInOrder(s: seq<Event>)
    requires InOrder(s)
    ensures InOrder(Criticals(s)) && forall e :: e in Criticals(s) <==> e in s && e.severity == CRITICAL_SEVERITY
  {
    if s != [] {
      CriticalsInOrder(s[1..]);
      Fronted(s, Criticals(s[1..]));
    }
  }

  /** Two sequences in order with the same events are the same. */
  lemma {:induction false} OrderDecides(a: seq<Event>, b: seq<Event>)
    requires InOrder(a) && InOrder(b) && forall x :: x in a <==> x in b
    ensures a == b
    decreases |a|
  {
    assert (a != [] ==> a[0] in b) && (b != [] ==> b[0] in a);
    if a != [] {
      HeadsAgree(a, b);
      forall x ensures x in a[1..] <==> x in b[1..] {
        TailHas(a, x);
        TailHas(b, x);
      }
      OrderDecides(a[1..], b[1..]);
      assert a == [a[0]] + a[1..] && b == [b[0]] + b[1..];
    }
  }

  lemma HeadIsFirst(s: seq<Event>, x: Event)
    requires InOrder(s) && x in s
    ensures x == s[0] || Precedes(s[0], x)
  {
    var i :| 0 <= i < |s| && s[i] == x;
    if i > 0 { assert Precedes(s[0], s[i]); }
  }

  lemma HeadsAgree(a: seq<Event>, b: seq<Event>)
    requires InOrder(a) && InOrder(b) && a != [] && b != [] && a[0] in b && b[0] in a
    ensures a[0] == b[0]
  {
    HeadIsFirst(a, b[0]);
    HeadIsFirst(b, a[0]);
  }

  lemma TailHas(a: seq<Event>, x: Event)
    requires InOrder(a) && a != []
    ensures x in a[1..] <==> x in a && x != a[0]
  {
    forall k | 0 < k < |a| ensures a[k] != a[0] { assert Precedes(a[0], a[k]); }
  }

  lemma DueInOrder(p: Pipe)
    requires DistinctEvents(p.log)
    ensures InOrder(Due(p))
    ensures forall e :: e in Due(p) <==>
              p.feed.since.Some? && p.loaded <= |p.log| && e in p.log[p.loaded..] && e.at <= p.feed.since.value
  {
    if p.feed.since.Some? && p.loaded <= |p.log| {
      OrderedInOrder(p.log[p.loaded..]);
      ReachedInOrder(Ordered(p.log[p.loaded..]), p.feed.since.value);
    }
  }

  lemma AcceptedAreDue(p: Pipe, limit: nat)
    requires AcceptedOk(p, limit)
    ensures InOrder(p.accepted)
    ensures forall e :: e in p.accepted ==> p.feed.since.Some? && e in p.log[p.loaded..] && e.at <= p.feed.since.value
  {
    forall e | e in p.accepted ensures e in p.log[p.loaded..] {
      assert p.log == p.log[..p.loaded] + p.log[p.loaded..];
    }
  }

  lemma AlertsInOrder(p: Pipe, limit: nat)
    requires AcceptedOk(p, limit)
    ensures InOrder(Alerts(p)) && forall e :: e in Alerts(p) <==> e in p.accepted && e.severity == CRITICAL_SEVERITY
  {
    AcceptedAreDue(p, limit);
    CriticalsInOrder(p.accepted);
  }

  /**
   The alerts are exactly the critical events indexed after the first load up to the cursor, in the order of
   the endpoint, if and only if the cursor has passed over no critical event.
   */
  lemma AlertsAreTheCriticals(p: Pipe, limit: nat)
    requires PipeInv(p, limit)
    ensures Alerts(p) == Criticals(Due(p)) <==> forall e: Event :: e.severity == CRITICAL_SEVERITY ==> !Missed(p, e)
  {
    AcceptedAreDue(p, limit);
    AlertsInOrder(p, limit);
    DueInOrder(p);
    CriticalsInOrder(Due(p));
    if forall e: Event :: e.severity == CRITICAL_SEVERITY ==> !Missed(p, e) {
      forall e
        ensures e in Alerts(p) <==> e in Criticals(Due(p))
      {
        assert !Missed(p, e) || e.severity != CRITICAL_SEVERITY;
      }
      OrderDecides(Alerts(p), Criticals(Due(p)));
    }
  }

  /**
   Every critical event once: after any run that stays in time, once the consumer has run, the reducer has
   been given exactly the critical events indexed after the first load up to the cursor, in order.
   */
  lemma {:induction false} EveryCriticalOnce(p: Pipe, limit: nat, steps: seq<Step>)
    requires limit <= 50 && DistinctEvents(p.log) && p == Mounted(p.log)
    requires Legal(p, limit, steps) && AllInTime(p, limit, steps)
    ensures var end := Run(p, limit, steps); Consumed(end).handed == Criticals(Due(end))
  {
    NothingMissedExactly(p, limit, steps);
    Reachable(p.log, limit, steps);
    AlertsAreTheCriticals(Run(p, limit, steps), limit);
    OnceAt(Run(p, limit, steps), limit);
  }

  lemma ChronologicalIsOrdered(log: seq<Event>)
    requires DistinctEvents(log) && Chronological(log)
    ensures Ordered(log) == log
  {
    OrderedInOrder(log);
    OrderDecides(Ordered(log), log);
  }

  lemma {:induction false} StaysChronological(p: Pipe, limit: nat, steps: seq<Step>)
    requires Legal(p, limit, steps) && Chronological(p.log) && KeepsTime(p, limit, steps)
    ensures Chronological(Run(p, limit, steps).log)
    decreases steps
  {
    if steps != [] {
      if steps[0].Happens? { LaterAtEnd(p.log, steps[0].event); } else { LogStays(p, limit, steps[0]); }
      StaysChronological(Do(p, limit, steps[0]), limit, steps[1..]);
    }
  }

  lemma LogStays(p: Pipe, limit: nat, s: Step)
    requires CanDo(p, s) && !s.Happens?
    ensures Do(p, limit, s).log == p.log
  {
    ConsumeLeaves(p);
  }

  lemma DueAsLogged(p: Pipe, limit: nat)
    requires DistinctEvents(p.log) && AcceptedOk(p, limit) && Chronological(p.log)
    ensures p.feed.since.Some? ==>
              p.loaded <= |p.log| && Due(p) == Reached(p.log[p.loaded..], p.feed.since.value)
  {
    if p.feed.since.Some? { ChronologicalIsOrdered(p.log[p.loaded..]); }
  }

  /** The reducer has been given the critical events after the first load up to the cursor, as they were logged. */
  ghost predicate HandedAsLogged(p: Pipe) {
    p.feed.since.Some? ==>
      && p.loaded <= |p.log|
      && Consumed(p).handed == Criticals(Reached(p.log[p.loaded..], p.feed.since.value))
  }

  lemma AsLoggedAt(p: Pipe, limit: nat)
    requires PipeInv(p, limit) && Chronological(p.log) && Consumed(p).handed == Criticals(Due(p))
    ensures HandedAsLogged(p)
  {
    DueAsLogged(p, limit);
  }

  lemma MountedInTime(p: Pipe, limit: nat, steps: seq<Step>)
    requires limit <= 50 && DistinctEvents(p.log) && p == Mounted(p.log)
    requires Legal(p, limit, steps) && Chronological(p.log) && KeepsTime(p, limit, steps)
    ensures AllInTime(p, limit, steps)
  {
    NothingReached(p, limit);
    ChronologicalMissesNone(p, limit, steps);
  }

  lemma NothingReached(p: Pipe, limit: nat)
    requires DistinctEvents(p.log) && p == Mounted(p.log)
    ensures PipeInv(p, limit) && CursorInLog(p)
  {
    MountedInv(p.log, limit);
  }

  /**
   On a log in the order of its distinct times, once the consumer has run, every critical event has been handed
   over.
   */
  lemma {:induction false} ChronologicalHandsAll(p: Pipe, limit: nat, steps: seq<Step>)
    requires limit <= 50 && DistinctEvents(p.log) && p == Mounted(p.log)
    requires Legal(p, limit, steps) && Chronological(p.log) && KeepsTime(p, limit, steps)
    ensures HandedAsLogged(Run(p, limit, steps))
  {
    MountedInTime(p, limit, steps);
    EveryCriticalOnce(p, limit, steps);
    Reachable(p.log, limit, steps);
    StaysChronological(p, limit, steps);
    AsLoggedAt(Run(p, limit, steps), limit);
  }

  // ---- Progress ----

  /** A batch that is not full has caught up with everything indexed when it was served. */
  lemma PollCatchesUp(p: Pipe, limit: nat, e: Event)
    requires PipeInv(p, limit) && CanDo(p, Serve) && p.feed.since.Some? && e in p.log && e.at > p.feed.since.value
    ensures var q := Do(Do(p, limit, Serve), limit, Arrives);
            |q.accepted| < |p.accepted| + limit ==> e in q.accepted
  {
    AnswerAfter(p.log, p.feed.since.value, limit);
  }
}
