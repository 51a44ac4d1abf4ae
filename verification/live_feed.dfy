/**
 The live event feed (dashboard/src/hooks/useLiveFeed.js): the since cursor, the bounded ticker and the
 bounded queue of critical events.
 */
module LiveFeed {
  import opened Incidents

  const CRITICAL_QUEUE_CAP: nat := 50

  const CRITICAL_SEVERITY: int := 4

  datatype Event = Event(id: Id, at: Time, severity: int, source: string, message: string)

  function First<T>(s: seq<T>, n: nat): seq<T> { if |s| <= n then s else s[..n] }

  function Last<T>(s: seq<T>, n: nat): seq<T> { if |s| <= n then s else s[|s| - n..] }

  function Reverse<T>(s: seq<T>): (r: seq<T>)
    ensures |r| == |s|
  {
    if s == [] then [] else Reverse(s[1..]) + [s[0]]
  }

  function Criticals(s: seq<Event>): (r: seq<Event>)
    ensures |r| <= |s|
  {
    if s == [] then []
    else if s[0].severity == CRITICAL_SEVERITY then [s[0]] + Criticals(s[1..])
    else Criticals(s[1..])
  }

  datatype FeedState = FeedState(since: Option<Time>, feed: seq<Event>, queue: seq<Event>)

  /** `initial` is fixed when the request is sent: there was no cursor yet. */
  function DocsAccepted(s: FeedState, limit: nat, initial: bool, docs: seq<Event>): FeedState {
    if docs == [] then s else
      var ordered := if initial then docs else Reverse(docs);
      var criticals := if initial then [] else Criticals(ordered);
      FeedState(
        Some(if initial then docs[0].at else docs[|docs| - 1].at),
        First(ordered + s.feed, limit),
        if criticals != [] then Last(s.queue + Reverse(criticals), CRITICAL_QUEUE_CAP) else s.queue)
  }

  class LiveAttackFeed {
    const feedLimit: nat
    var sinceRef: Option<Time>
    var feed: seq<Event>
    var criticalEvents: seq<Event>

    ghost function State(): FeedState
      reads this
    {
      FeedState(sinceRef, feed, criticalEvents)
    }

    constructor (feedLimit: nat)
      ensures State() == FeedState(None, [], []) && this.feedLimit == feedLimit
    {
      this.feedLimit := feedLimit;
      sinceRef, feed, criticalEvents := None, [], [];
    }

    method OnDocs(isInitialLoad: bool, cancelled: bool, docs: seq<Event>)
      modifies this
      ensures State() == if cancelled then old(State()) else DocsAccepted(old(State()), feedLimit, isInitialLoad, docs)
    {
      if cancelled || docs == [] { return; }
      var ordered := if isInitialLoad then docs else Reverse(docs);
      sinceRef := Some(if isInitialLoad then docs[0].at else docs[|docs| - 1].at);
      feed := First(ordered + feed, feedLimit);
      if !isInitialLoad {
        var criticals := Criticals(ordered);
        if criticals != [] {
          criticalEvents := Last(criticalEvents + Reverse(criticals), CRITICAL_QUEUE_CAP);
        }
      }
    }
  }

  // ---- Sequence facts ----

  lemma {:induction false} ReverseAppend<T>(a: seq<T>, b: seq<T>)
    ensures Reverse(a + b) == Reverse(b) + Reverse(a)
  {
    if a == [] {
      assert a + b == b;
    } else {
      ReverseAppend(a[1..], b);
      assert (a + b)[1..] == a[1..] + b;
    }
  }

  lemma {:induction false} ReverseTwice<T>(s: seq<T>)
    ensures Reverse(Reverse(s)) == s
  {
    if s != [] {
      ReverseTwice(s[1..]);
      ReverseAppend(Reverse(s[1..]), [s[0]]);
      assert Reverse([s[0]]) == [s[0]] by { assert [s[0]][1..] == []; }
      assert s == [s[0]] + s[1..];
    }
  }

  lemma {:induction false} CriticalsAppend(a: seq<Event>, b: seq<Event>)
    ensures Criticals(a + b) == Criticals(a) + Criticals(b)
  {
    if a == [] {
      assert a + b == b;
    } else {
      CriticalsAppend(a[1..], b);
      assert a == [a[0]] + a[1..] && a + b == [a[0]] + (a[1..] + b);
      CriticalsCons(a[0], a[1..]);
      CriticalsCons(a[0], a[1..] + b);
    }
  }

  lemma CriticalsCons(e: Event, s: seq<Event>)
    ensures Criticals([e] + s) == (if e.severity == CRITICAL_SEVERITY then [e] else []) + Criticals(s)
  {
    assert ([e] + s)[1..] == s;
  }

  lemma {:induction false} CriticalsReverse(s: seq<Event>)
    ensures Criticals(Reverse(s)) == Reverse(Criticals(s))
  {
    if s != [] {
      CriticalsReverse(s[1..]);
      CriticalsAppend(Reverse(s[1..]), [s[0]]);
      assert [s[0]][1..] == [];
    }
  }

  lemma {:induction false} ReverseAt<T>(s: seq<T>, k: nat)
    requires k < |s|
    ensures Reverse(s)[k] == s[|s| - 1 - k]
  {
    if k < |s| - 1 { ReverseAt(s[1..], k); }
  }

  /** The critical events are those of severity 4, each as often as it comes. */
  lemma {:induction false} CriticalsTold(s: seq<Event>, e: Event)
    ensures multiset(Criticals(s))[e] == if e.severity == 4 then multiset(s)[e] else 0
  {
    if s != [] {
      CriticalsTold(s[1..], e);
      assert s == [s[0]] + s[1..];
    }
  }

  /** `shown` is `a` and then `b`, up to `n` of them. */
  predicate InFrontOf(shown: seq<Event>, a: seq<Event>, b: seq<Event>, n: nat) {
    && |shown| == (if |a| + |b| < n then |a| + |b| else n)
    && (forall k :: 0 <= k < |shown| && k < |a| ==> shown[k] == a[k])
    && (forall k :: |a| <= k < |shown| ==> shown[k] == b[k - |a|])
  }

  /** `shown` is `a` backwards and then `b`, up to `n` of them. */
  predicate BackwardsInFrontOf(shown: seq<Event>, a: seq<Event>, b: seq<Event>, n: nat) {
    && |shown| == (if |a| + |b| < n then |a| + |b| else n)
    && (forall k :: 0 <= k < |shown| && k < |a| ==> shown[k] == a[|a| - 1 - k])
    && (forall k :: |a| <= k < |shown| ==> shown[k] == b[k - |a|])
  }

  lemma FirstOf(a: seq<Event>, b: seq<Event>, n: nat)
    ensures InFrontOf(First(a + b, n), a, b, n)
  {
  }

  lemma FirstBackwards(a: seq<Event>, b: seq<Event>, n: nat)
    ensures BackwardsInFrontOf(First(Reverse(a) + b, n), a, b, n)
  {
    var back := Reverse(a);
    FirstOf(back, b, n);
    var shown := First(back + b, n);
    forall k | 0 <= k < |shown| && k < |a| ensures shown[k] == a[|a| - 1 - k] {
      ReverseAt(a, k);
      assert shown[k] == back[k];
    }
  }

  lemma ReversedAt<T>(s: seq<T>)
    ensures forall k :: 0 <= k < |s| ==> Reverse(s)[k] == s[|s| - 1 - k]
  {
    forall k | 0 <= k < |s| ensures Reverse(s)[k] == s[|s| - 1 - k] { ReverseAt(s, k); }
  }

  /**
   After a batch the ticker shows its events in front of the old ones, newest first, up to the limit: the first
   load comes newest first, a later batch oldest first.
   */
  lemma TickerShows(s: FeedState, limit: nat, docs: seq<Event>)
    requires |s.feed| <= limit
    ensures InFrontOf(DocsAccepted(s, limit, true, docs).feed, docs, s.feed, limit)
    ensures BackwardsInFrontOf(DocsAccepted(s, limit, false, docs).feed, docs, s.feed, limit)
  {
    FirstOf(docs, s.feed, limit);
    FirstBackwards(docs, s.feed, limit);
    if docs == [] { assert docs + s.feed == s.feed; }
  }

  /** A later batch is queued in the order it happened, behind what is queued already. */
  lemma QueueIsChronological(s: FeedState, limit: nat, docs: seq<Event>)
    requires |s.queue| <= 50
    ensures DocsAccepted(s, limit, false, docs).queue == Last(s.queue + Criticals(docs), 50)
  {
    CriticalsReverse(docs);
    ReverseTwice(Criticals(docs));
    if docs != [] && Criticals(Reverse(docs)) == [] {
      assert Criticals(docs) == [];
      assert s.queue + Criticals(docs) == s.queue;
    }
    if docs == [] {
      assert s.queue + Criticals(docs) == s.queue;
    }
  }
}
