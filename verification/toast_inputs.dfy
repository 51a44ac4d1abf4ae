/**
 Inputs on which an alert is never shown (dashboard/src/hooks/useLiveFeed.js:42-65 against
 servers/platform-api/app/events_api.py:47-72): legal runs from mounting after which the cursor has passed
 an event that was not accepted.
 */
module ToastInputs {
  import opened Incidents
  import opened LiveFeed
  import opened ToastPipeline

  lemma Follow(p: Pipe, limit: nat, s: Step, q: Pipe, rest: seq<Step>)
    requires CanDo(p, s) && q == Do(p, limit, s) && Legal(q, limit, rest)
    ensures Legal(p, limit, [s] + rest) && Run(p, limit, [s] + rest) == Run(q, limit, rest)
  {
    assert ([s] + rest)[1..] == rest;
  }

  lemma {:induction false} Extend(p: Pipe, limit: nat, steps: seq<Step>, s: Step)
    requires Legal(p, limit, steps) && CanDo(Run(p, limit, steps), s)
    ensures Legal(p, limit, steps + [s]) && Run(p, limit, steps + [s]) == Do(Run(p, limit, steps), limit, s)
    decreases steps
  {
    if steps == [] {
      Follow(p, limit, s, Do(p, limit, s), []);
      assert [] + [s] == [s] + [];
    } else {
      var q := Do(p, limit, steps[0]);
      Extend(q, limit, steps[1..], s);
      Follow(p, limit, steps[0], q, steps[1..] + [s]);
      assert steps + [s] == [steps[0]] + (steps[1..] + [s]);
    }
  }

  /** A request that has been served on the log as it is. */
  function ServedOn(p: Pipe, limit: nat): Pipe {
    var since := p.feed.since;
    p.(request := Some(Request(since.None?, since, Some(Served(Answer(p.log, since, limit), |p.log|)))))
  }

  /** A tick and its answer on the server. */
  lemma AskAndServe(base: Pipe, limit: nat, before: seq<Step>) returns (steps: seq<Step>)
    requires Legal(base, limit, before) && Run(base, limit, before).feed.queue == []
    ensures Legal(base, limit, steps) && Run(base, limit, steps) == ServedOn(Run(base, limit, before), limit)
  {
    var p := Run(base, limit, before);
    assert Consumed(p) == p;
    Extend(base, limit, before, Tick);
    Extend(base, limit, before + [Tick], Serve);
    steps := before + [Tick] + [Serve];
  }

  /** Mounted on a log of one event, which the first load has brought. */
  function Loaded(f: Event): Pipe {
    Mounted([f]).(feed := FeedState(Some(f.at), [f], []), history := Some(f.at), loaded := 1, first := [f])
  }

  lemma OneOrdered(f: Event, limit: nat)
    requires limit > 0
    ensures Answer([f], None, limit) == [f] && Reverse([f]) == [f]
  {
    assert [f][1..] == [] && Ordered([]) == [] && Ordered([f]) == [f];
    assert Reverse([]) + [f] == [f];
  }

  lemma FirstLoad(f: Event, limit: nat) returns (steps: seq<Step>)
    requires limit > 0
    ensures Legal(Mounted([f]), limit, steps) && Run(Mounted([f]), limit, steps) == Loaded(f)
  {
    var asked := AskAndServe(Mounted([f]), limit, []);
    OneOrdered(f, limit);
    Extend(Mounted([f]), limit, asked, Arrives);
    steps := asked + [Arrives];
    FirstAccepted(f, limit);
  }

  lemma FirstAccepted(f: Event, limit: nat)
    requires limit > 0 && Reverse([f]) == [f]
    ensures FirstArrived(Mounted([f]).(request := None), limit, [f], 1) == Loaded(f)
  {
  }

  // ---- What a batch holds ----

  lemma BatchIs(log: seq<Event>, since: Time, rest: seq<Event>)
    requires DistinctEvents(log) && InOrder(rest) && forall x :: x in rest <==> x in log && x.at > since
    ensures Later(Ordered(log), since) == rest
  {
    OrderedInOrder(log);
    LaterInOrder(Ordered(log), since);
    OrderDecides(Later(Ordered(log), since), rest);
  }

  lemma OneBehind(batch: seq<Event>, b: Event)
    requires batch != [] && InOrder(batch) && Precedes(batch[|batch| - 1], b)
    ensures InOrder(batch + [b])
  {
    var all := batch + [b];
    forall i, j | 0 <= i < j < |all| ensures Precedes(all[i], all[j]) {
      if j < |batch| {
        assert Precedes(batch[i], batch[j]);
      } else if i < |batch| - 1 {
        assert Precedes(batch[i], batch[|batch| - 1]);
      }
    }
  }

  /** A full batch, and one more event behind it. */
  lemma FullBatch(log: seq<Event>, f: Event, batch: seq<Event>, b: Event)
    requires log == [f] + batch + [b] && DistinctEvents(log) && batch != [] && InOrder(batch)
    requires (forall x :: x in batch ==> x.at > f.at) && Precedes(batch[|batch| - 1], b)
    ensures Answer(log, Some(f.at), |batch|) == batch
  {
    OneBehind(batch, b);
    assert batch[|batch| - 1] in batch && b.at > f.at;
    BatchIs(log, f.at, batch + [b]);
    assert First(batch + [b], |batch|) == batch;
  }

  lemma OneLater(log: seq<Event>, f: Event, a: Event, limit: nat)
    requires log == [f] + [a] && f.at < a.at && f.id != a.id && limit > 0
    ensures Answer(log, Some(f.at), limit) == [a]
  {
    BatchIs(log, f.at, [a]);
  }

  // ---- After the first load ----

  /** The first load, and any events after it. */
  lemma {:induction false} LoadedAnd(f: Event, events: seq<Event>, limit: nat) returns (steps: seq<Step>)
    requires limit > 0 && DistinctEvents([f] + events)
    ensures Legal(Mounted([f]), limit, steps)
    ensures Run(Mounted([f]), limit, steps) == Loaded(f).(log := [f] + events)
    decreases |events|
  {
    if events == [] {
      steps := FirstLoad(f, limit);
      assert [f] + [] == [f];
    } else {
      var n := |events| - 1;
      AllButLast(f, events);
      var before := LoadedAnd(f, events[..n], limit);
      Extend(Mounted([f]), limit, before, Happens(events[n]));
      steps := before + [Happens(events[n])];
      assert [f] + events[..n] + [events[n]] == [f] + events;
    }
  }

  lemma AllButLast(f: Event, events: seq<Event>)
    requires DistinctEvents([f] + events) && events != []
    ensures var n := |events| - 1;
            DistinctEvents([f] + events[..n]) && forall x :: x in [f] + events[..n] ==> x.id != events[n].id
  {
    var all, n := [f] + events, |events| - 1;
    forall x | x in [f] + events[..n] ensures x.id != events[n].id {
      var k :| 0 <= k < n + 1 && ([f] + events[..n])[k] == x;
      assert all[k] == x && all[n + 1] == events[n];
    }
    forall i, j | 0 <= i < j < n + 1 ensures ([f] + events[..n])[i].id != ([f] + events[..n])[j].id {
      assert all[i] == ([f] + events[..n])[i] && all[j] == ([f] + events[..n])[j];
    }
  }

  /** A client that has seen the first load is served these events. */
  ghost predicate Brings(p: Pipe, f: Event, docs: seq<Event>) {
    && p.feed == Loaded(f).feed && p.loaded == 1 && p.accepted == [] && p.request.Some?
    && !p.request.value.initial && p.request.value.answer.Some? && p.request.value.answer.value.docs == docs
  }

  lemma AskAndBring(base: Pipe, limit: nat, before: seq<Step>, f: Event, log: seq<Event>, docs: seq<Event>)
    returns (steps: seq<Step>)
    requires Legal(base, limit, before) && Run(base, limit, before) == Loaded(f).(log := log)
    requires Answer(log, Some(f.at), limit) == docs
    ensures Legal(base, limit, steps) && Brings(Run(base, limit, steps), f, docs) && Run(base, limit, steps).log == log
  {
    steps := AskAndServe(base, limit, before);
  }

  /** The events arrive while one not later than their last, and not among them, is logged. */
  lemma BatchPasses(f: Event, p: Pipe, limit: nat, docs: seq<Event>, b: Event)
    requires p.feed == Loaded(f).feed && p.loaded == 1 <= |p.log| && p.accepted == [] && b in p.log[1..]
    requires docs != [] && b !in docs && b.at <= docs[|docs| - 1].at
    ensures Missed(BatchArrived(p, limit, docs), b)
  {
  }

  lemma ArrivalMisses(base: Pipe, limit: nat, before: seq<Step>, f: Event, docs: seq<Event>, b: Event)
    returns (steps: seq<Step>)
    requires Legal(base, limit, before) && Brings(Run(base, limit, before), f, docs)
    requires |Run(base, limit, before).log| >= 1 && b in Run(base, limit, before).log[1..]
    requires docs != [] && b !in docs && b.at <= docs[|docs| - 1].at
    ensures Legal(base, limit, steps) && Missed(Run(base, limit, steps), b)
  {
    Extend(base, limit, before, Arrives);
    steps := before + [Arrives];
    BatchPasses(f, Run(base, limit, before), limit, docs, b);
  }

  // ---- The runs ----

  lemma LastIsNew(log: seq<Event>, f: Event, batch: seq<Event>, b: Event)
    requires log == [f] + batch + [b] && DistinctEvents(log)
    ensures b !in batch && b in log[1..]
  {
    forall k | 0 <= k < |batch| ensures batch[k] != b { assert log[k + 1] == batch[k] && log[|batch| + 1] == b; }
    assert log[1..][|batch|] == b;
  }

  /** Two events of one time on both sides of the limit, whatever the limit: the second is never accepted. */
  lemma TieIsMissed(f: Event, batch: seq<Event>, b: Event, limit: nat) returns (steps: seq<Step>)
    requires limit == |batch| > 0 && InOrder(batch) && DistinctEvents([f] + batch + [b])
    requires (forall x :: x in batch ==> x.at > f.at) && batch[limit - 1].at == b.at && batch[limit - 1].id < b.id
    ensures Legal(Mounted([f]), limit, steps) && Missed(Run(Mounted([f]), limit, steps), b)
  {
    var log := [f] + batch + [b];
    assert [f] + (batch + [b]) == log;
    FullBatch(log, f, batch, b);
    LastIsNew(log, f, batch, b);
    var logged := LoadedAnd(f, batch + [b], limit);
    var served := AskAndBring(Mounted([f]), limit, logged, f, log, batch);
    steps := ArrivalMisses(Mounted([f]), limit, served, f, batch, b);
  }

  /** An event is logged while the answer is on its way. */
  lemma LoggedMeanwhile(base: Pipe, limit: nat, before: seq<Step>, f: Event, docs: seq<Event>, b: Event)
    returns (steps: seq<Step>)
    requires Legal(base, limit, before) && Brings(Run(base, limit, before), f, docs)
    requires |Run(base, limit, before).log| >= 1 && forall x :: x in Run(base, limit, before).log ==> x.id != b.id
    ensures Legal(base, limit, steps) && Brings(Run(base, limit, steps), f, docs)
    ensures Run(base, limit, steps).log == Run(base, limit, before).log + [b]
  {
    Extend(base, limit, before, Happens(b));
    steps := before + [Happens(b)];
  }

  /** An event indexed behind a later one that is on its way is never accepted. */
  lemma LateIsMissed(f: Event, a: Event, b: Event, limit: nat) returns (steps: seq<Step>)
    requires f.at < b.at < a.at && a.id != b.id && f.id != a.id && f.id != b.id && limit > 0
    ensures Legal(Mounted([f]), limit, steps) && Missed(Run(Mounted([f]), limit, steps), b)
  {
    var log := [f] + [a];
    OneLater(log, f, a, limit);
    var one := LoadedAnd(f, [a], limit);
    var served := AskAndBring(Mounted([f]), limit, one, f, log, [a]);
    var logged := LoggedMeanwhile(Mounted([f]), limit, served, f, [a], b);
    assert (log + [b])[1..][1] == b;
    steps := ArrivalMisses(Mounted([f]), limit, logged, f, [a], b);
  }

  /** An event indexed just after the first load, with a time up to its newest, is never accepted. */
  lemma BehindFirstIsMissed(f: Event, b: Event, limit: nat) returns (steps: seq<Step>)
    requires b.at <= f.at && f.id != b.id && limit > 0
    ensures Legal(Mounted([f]), limit, steps) && Missed(Run(Mounted([f]), limit, steps), b)
  {
    steps := LoadedAnd(f, [b], limit);
    assert ([f] + [b])[1..] == [b];
  }

  /** So is one indexed while the answer of the first load is on its way. */
  lemma DuringFirstIsMissed(f: Event, b: Event, limit: nat) returns (steps: seq<Step>)
    requires b.at <= f.at && f.id != b.id && limit > 0
    ensures Legal(Mounted([f]), limit, steps) && Missed(Run(Mounted([f]), limit, steps), b)
  {
    var asked := AskAndServe(Mounted([f]), limit, []);
    OneOrdered(f, limit);
    Extend(Mounted([f]), limit, asked, Happens(b));
    Extend(Mounted([f]), limit, asked + [Happens(b)], Arrives);
    steps := asked + [Happens(b)] + [Arrives];
    FirstPasses(f, ServedOn(Mounted([f]), limit).(log := [f] + [b]), limit, b);
  }

  lemma FirstPasses(f: Event, p: Pipe, limit: nat, b: Event)
    requires p.log == [f] + [b] && b.at <= f.at && p.accepted == []
    ensures Missed(FirstArrived(p, limit, [f], 1), b)
  {
    assert ([f] + [b])[1..] == [b];
  }
}
