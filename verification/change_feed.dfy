/** Polling /incidents/changes (dashboard/src/hooks/useIncidentsSocket.js). */
module ChangeFeed {
  // The cursor loop, the earliest bound, and the watermark that moves only after the whole loop has succeeded.

  import opened Incidents
  import opened IncidentsServer

  const CHANGES_LIMIT: nat := 50

  // ---- One answer, one turn of the loop ----

  /** The bounds are compared as dates: within one millisecond the first one stays. */
  function Lower(least: Option<Time>, since: Option<Time>): (r: Option<Time>)
    ensures r.None? <==> least.None? && since.None?
    ensures r.Some? && least.Some? ==> Millis(r.value) <= Millis(least.value)
    ensures r.Some? && since.Some? ==> Millis(r.value) <= Millis(since.value)
    ensures r == least || r == since
  {
    if since.Some? && (least.None? || Millis(since.value) < Millis(least.value)) then since else least
  }

  /** How a fetch of the loop settles. */
  datatype Answer =
    | Page(data: seq<Incident>, next: Option<Cursor>, since: Option<Time>)
    | Failure

  datatype Outcome = Waiting | Failed | Done(least: Option<Time>)

  /** How the loop ends on these answers when the component is stopped before answer `stopAt` settles. */
  function Ends(least: Option<Time>, answers: seq<Answer>, stopAt: nat): Outcome
    decreases answers
  {
    if answers == [] then Waiting
    else match answers[0]
      case Failure => Failed
      case Page(_, next, since) =>
        var lower := Lower(least, since);
        if next.Some? && stopAt > 0 then Ends(lower, answers[1..], stopAt - 1) else Done(lower)
  }

  /** The batches the loop hands to the list, in order. */
  function Hands(answers: seq<Answer>, stopAt: nat): seq<seq<Incident>>
    decreases answers
  {
    if answers == [] || answers[0].Failure? then []
    else
      (if answers[0].data != [] then [answers[0].data] else []) +
      (if answers[0].next.Some? && stopAt > 0 then Hands(answers[1..], stopAt - 1) else [])
  }

  /** The cursors the loop asks with. */
  function Asks(cursor: Option<Cursor>, answers: seq<Answer>, stopAt: nat): seq<Option<Cursor>>
    decreases answers
  {
    [cursor] + if answers == [] || answers[0].Failure? || answers[0].next.None? || stopAt == 0 then []
               else Asks(answers[0].next, answers[1..], stopAt - 1)
  }

  /** Whether the cleanup ran before the loop was over. */
  predicate Stops(answers: seq<Answer>, stopAt: nat)
    decreases answers
  {
    answers != [] && (stopAt == 0 || (answers[0].Page? && answers[0].next.Some? && Stops(answers[1..], stopAt - 1)))
  }

  /** The watermark moves once, at the end of a loop that was not stopped and has seen a bound. */
  function Moved(watermark: Time, answers: seq<Answer>, stopAt: nat): Time {
    var end := Ends(None, answers, stopAt);
    if end.Done? && end.least.Some? && !Stops(answers, stopAt) then end.least.value else watermark
  }

  // ---- What the loop does on any answers ----

  /** How many pages it processes. */
  function Turns(answers: seq<Answer>, stopAt: nat): (n: nat)
    ensures n <= |answers|
    decreases answers
  {
    if answers == [] || answers[0].Failure? then 0
    else if answers[0].next.None? || stopAt == 0 then 1
    else 1 + Turns(answers[1..], stopAt - 1)
  }

  /** They are the answers up to the first failure, the first page without a cursor or the stop. */
  ghost predicate AreTheTurns(answers: seq<Answer>, stopAt: nat, n: nat) {
    && n <= |answers| && n <= stopAt + 1 && (forall i :: 0 <= i < n ==> answers[i].Page?)
    && (forall i :: 0 <= i < n - 1 ==> answers[i].Page? && answers[i].next.Some?)
    && (n == |answers| || answers[n].Failure? || IsOver(answers, stopAt, n))
  }

  /** Behind `n` pages the loop is over: the last one had no cursor, or the cleanup has run. */
  predicate IsOver(answers: seq<Answer>, stopAt: nat, n: nat)
    requires n <= |answers|
  {
    n > 0 && answers[n - 1].Page? && (answers[n - 1].next.None? || n == stopAt + 1)
  }

  lemma {:induction false} TurnsTold(answers: seq<Answer>, stopAt: nat)
    ensures AreTheTurns(answers, stopAt, Turns(answers, stopAt))
    decreases answers
  {
    if answers != [] && answers[0].Page? && answers[0].next.Some? && stopAt > 0 {
      TurnsTold(answers[1..], stopAt - 1);
      assert forall i :: 0 < i < |answers| ==> answers[i] == answers[1..][i - 1];
    }
  }

  /** It ends done exactly when it is over, and waits exactly when the answers have run out before. */
  lemma {:induction false} EndsTold(least: Option<Time>, answers: seq<Answer>, stopAt: nat)
    ensures var n, end := Turns(answers, stopAt), Ends(least, answers, stopAt);
            && (end.Done? <==> IsOver(answers, stopAt, n))
            && (end.Waiting? <==> n == |answers| && !IsOver(answers, stopAt, n))
    decreases answers
  {
    if answers != [] && answers[0].Page? && answers[0].next.Some? && stopAt > 0 {
      EndsTold(Lower(least, answers[0].since), answers[1..], stopAt - 1);
    }
  }

  /** The rows of the batches, one after the other. */
  function Flat(batches: seq<seq<Incident>>): seq<Incident> {
    if batches == [] then [] else batches[0] + Flat(batches[1..])
  }

  function RowsOf(answers: seq<Answer>): seq<Incident> {
    if answers == [] then [] else (if answers[0].Page? then answers[0].data else []) + RowsOf(answers[1..])
  }

  lemma FlatFirst(data: seq<Incident>, rest: seq<seq<Incident>>)
    ensures Flat((if data != [] then [data] else []) + rest) == data + Flat(rest)
  {
    if data != [] { assert ([data] + rest)[1..] == rest; } else { assert [] + rest == rest; }
  }

  lemma RowsFirst(answers: seq<Answer>, n: nat)
    requires n < |answers| && answers[0].Page?
    ensures RowsOf(answers[..n + 1]) == answers[0].data + RowsOf(answers[1..][..n])
  {
    assert answers[..n + 1][1..] == answers[1..][..n];
  }

  /** No row of the pages it processes is left out, be it stopped. */
  lemma {:induction false} HandsTold(answers: seq<Answer>, stopAt: nat)
    ensures Flat(Hands(answers, stopAt)) == RowsOf(answers[..Turns(answers, stopAt)])
    decreases answers
  {
    if answers == [] || answers[0].Failure? {
      assert answers[..0] == [];
    } else if answers[0].next.Some? && stopAt > 0 {
      HandsTold(answers[1..], stopAt - 1);
      FlatFirst(answers[0].data, Hands(answers[1..], stopAt - 1));
      RowsFirst(answers, Turns(answers[1..], stopAt - 1));
    } else {
      FlatFirst(answers[0].data, []);
      RowsFirst(answers, 0);
    }
  }

  /** Every fetch but the first goes on with the cursor of the page before. */
  ghost predicate GoesOn(asked: seq<Option<Cursor>>, answers: seq<Answer>) {
    |asked| <= |answers| + 1 && forall i :: 0 <= i < |asked| - 1 ==> answers[i].Page? && asked[i + 1] == answers[i].next
  }

  /** The loop asks once a page, and once more without an answer, unless it is over. */
  lemma {:induction false} AsksTold(cursor: Option<Cursor>, answers: seq<Answer>, stopAt: nat)
    ensures var n, asked := Turns(answers, stopAt), Asks(cursor, answers, stopAt);
            |asked| == (if IsOver(answers, stopAt, n) then n else n + 1) && asked[0] == cursor && GoesOn(asked, answers)
    decreases answers
  {
    if answers != [] && answers[0].Page? && answers[0].next.Some? && stopAt > 0 {
      var rest := Asks(answers[0].next, answers[1..], stopAt - 1);
      AsksTold(answers[0].next, answers[1..], stopAt - 1);
      AskBefore(cursor, rest, answers);
    }
  }

  lemma AskBefore(cursor: Option<Cursor>, rest: seq<Option<Cursor>>, answers: seq<Answer>)
    requires answers != [] && answers[0].Page? && rest != [] && rest[0] == answers[0].next && GoesOn(rest, answers[1..])
    ensures GoesOn([cursor] + rest, answers)
  {
    var asked := [cursor] + rest;
    forall i | 0 <= i < |asked| - 1 ensures answers[i].Page? && asked[i + 1] == answers[i].next {
      if i > 0 { assert answers[1..][i - 1].Page? && rest[i - 1 + 1] == answers[1..][i - 1].next; }
    }
  }

  /** The cleanup has run exactly when an answer at its place, or after it, has been waited for. */
  lemma {:induction false} StopsTold(answers: seq<Answer>, stopAt: nat)
    ensures Stops(answers, stopAt) <==>
              |answers| > stopAt && forall i :: 0 <= i < stopAt ==> answers[i].Page? && answers[i].next.Some?
    decreases answers
  {
    if answers != [] && answers[0].Page? && answers[0].next.Some? && stopAt > 0 {
      StopsTold(answers[1..], stopAt - 1);
      assert forall i :: 0 < i < |answers| ==> answers[i] == answers[1..][i - 1];
    }
  }

  /** A loop that fails, waits or is stopped leaves the watermark alone. */
  lemma MovesAtTheEnd(watermark: Time, answers: seq<Answer>, stopAt: nat)
    ensures !IsOver(answers, stopAt, Turns(answers, stopAt)) ==> Moved(watermark, answers, stopAt) == watermark
    ensures |answers| > stopAt && (forall i :: 0 <= i < stopAt ==> answers[i].Page? && answers[i].next.Some?) ==>
              Moved(watermark, answers, stopAt) == watermark
    ensures Moved(watermark, answers, stopAt) != watermark ==>
              exists n :: 0 < n <= |answers| && IsEarliest(Some(Moved(watermark, answers, stopAt)), None, answers[..n])
  {
    EndsTold(None, answers, stopAt);
    StopsTold(answers, stopAt);
    if Moved(watermark, answers, stopAt) != watermark { EarliestBound(None, answers, stopAt); }
  }

  /** A completed loop ends with the earliest bound any of its pages carried, the first of them to the millisecond. */
  lemma {:induction false} EarliestBound(least: Option<Time>, answers: seq<Answer>, stopAt: nat)
    requires Ends(least, answers, stopAt).Done?
    ensures exists n :: 0 < n <= |answers| && IsEarliest(Ends(least, answers, stopAt).least, least, answers[..n])
    decreases answers
  {
    var a, end := answers[0], Ends(least, answers, stopAt).least;
    var lower := Lower(least, a.since);
    if a.next.Some? && stopAt > 0 {
      EarliestBound(lower, answers[1..], stopAt - 1);
      var n :| 0 < n <= |answers[1..]| && IsEarliest(end, lower, answers[1..][..n]);
      EarliestBehind(end, least, a, answers[1..][..n]);
      assert answers[..n + 1] == [a] + answers[1..][..n];
      assert IsEarliest(end, least, answers[..n + 1]);
    } else {
      EarliestOfNone(lower);
      EarliestBehind(lower, least, a, []);
      assert answers[..1] == [a] + [];
      assert IsEarliest(lower, least, answers[..1]);
    }
  }

  /** The bound is in an earlier millisecond than `least` and than those of the first `k` pages. */
  ghost predicate EarlierThan(bound: Time, least: Option<Time>, answers: seq<Answer>, k: nat)
    requires k <= |answers|
  {
    && (least.Some? ==> bound / 1000 < least.value / 1000)
    && forall i :: 0 <= i < k && answers[i].Page? && answers[i].since.Some? ==>
         bound / 1000 < answers[i].since.value / 1000
  }

  ghost predicate IsEarliest(bound: Option<Time>, least: Option<Time>, answers: seq<Answer>) {
    && (forall k :: 0 <= k < |answers| ==> answers[k].Page?)
    && (least.Some? ==> bound.Some? && bound.value / 1000 <= least.value / 1000)
    && (forall k :: 0 <= k < |answers| && answers[k].Page? && answers[k].since.Some? ==>
          bound.Some? && bound.value / 1000 <= answers[k].since.value / 1000)
    && (bound == least
        || exists k :: 0 <= k < |answers| && answers[k].Page? && answers[k].since.Some? && bound == answers[k].since
             && EarlierThan(bound.value, least, answers, k))
  }

  lemma EarliestOfNone(least: Option<Time>)
    ensures IsEarliest(least, least, [])
  {
  }

  /** One page in front of those looked at. */
  lemma EarliestBehind(bound: Option<Time>, least: Option<Time>, a: Answer, rest: seq<Answer>)
    requires a.Page? && IsEarliest(bound, Lower(least, a.since), rest)
    ensures IsEarliest(bound, least, [a] + rest)
  {
    var lower, all := Lower(least, a.since), [a] + rest;
    assert forall k :: 0 < k < |all| ==> all[k] == rest[k - 1];
    if bound != lower {
      var k :| 0 <= k < |rest| && rest[k].Page? && rest[k].since.Some? && bound == rest[k].since
               && EarlierThan(bound.value, lower, rest, k);
      assert all[k + 1] == rest[k] && EarlierThan(bound.value, least, all, k + 1);
    } else if bound != least {
      assert all[0] == a && bound == a.since && EarlierThan(bound.value, least, all, 0);
    }
  }

  /** The polling effect of one session. */
  class IncidentsSocket {
    var watermarkRef: Time
    var stopped: bool
    var inFlight: bool
    var handed: seq<seq<Incident>>

    constructor (initialWatermark: Time)
      ensures watermarkRef == initialWatermark && !stopped && !inFlight && handed == []
    {
      watermarkRef, stopped, inFlight, handed := initialWatermark, false, false, [];
    }

    /** One poll; the cleanup runs, if at all, before answer `stopAt` settles. */
    method Poll(hidden: bool, answers: seq<Answer>, stopAt: nat) returns (asked: seq<Option<Cursor>>)
      modifies this
      ensures old(stopped || hidden || inFlight) ==> asked == [] && unchanged(this)
      ensures !old(stopped || hidden || inFlight) ==>
                && asked == Asks(None, answers, stopAt)
                && handed == old(handed) + Hands(answers, stopAt)
                && stopped == Stops(answers, stopAt)
                && inFlight == Ends(None, answers, stopAt).Waiting?
                && watermarkRef == Moved(old(watermarkRef), answers, stopAt)
    {
      if stopped || hidden || inFlight { return []; }
      inFlight := true;
      var cursor: Option<Cursor>, nextSince: Option<Time> := None, None;
      var pending, left, done := answers, stopAt, false;
      asked := [None];
      while !done
        invariant !done ==> asked + Asks(cursor, pending, left)[1..] == Asks(None, answers, stopAt)
        invariant !done ==> handed + Hands(pending, left) == old(handed) + Hands(answers, stopAt)
        invariant !done ==> Ends(nextSince, pending, left) == Ends(None, answers, stopAt)
        invariant !done ==> Stops(pending, left) == Stops(answers, stopAt) && !stopped
        invariant done ==> asked == Asks(None, answers, stopAt) && handed == old(handed) + Hands(answers, stopAt)
        invariant done ==> Ends(None, answers, stopAt) == Done(nextSince) && stopped == Stops(answers, stopAt)
        invariant inFlight && watermarkRef == old(watermarkRef)
        decreases !done, |pending|
      {
        if pending == [] { return; }
        var page := pending[0];
        stopped := left == 0;
        if page.Failure? {
          inFlight := false;
          return;
        }
        TurnAsks(asked, cursor, pending, left);
        TurnHands(handed, pending, left);
        if page.data != [] { handed := handed + [page.data]; }
        cursor := page.next;
        if page.since.Some? && (nextSince.None? || Millis(page.since.value) < Millis(nextSince.value)) {
          nextSince := page.since;
        }
        pending := pending[1..];
        done := cursor.None? || stopped;
        if !done {
          left := left - 1;
          asked := asked + [cursor];
        }
      }
      if !stopped && nextSince.Some? { watermarkRef := nextSince.value; }
      inFlight := false;
    }
  }

  lemma TurnAsks(asked: seq<Option<Cursor>>, cursor: Option<Cursor>, answers: seq<Answer>, stopAt: nat)
    requires answers != [] && answers[0].Page?
    ensures var page := answers[0];
            asked + Asks(cursor, answers, stopAt)[1..] ==
              if page.next.None? || stopAt == 0 then asked
              else (asked + [page.next]) + Asks(page.next, answers[1..], stopAt - 1)[1..]
  {
  }

  lemma TurnHands(handed: seq<seq<Incident>>, answers: seq<Answer>, stopAt: nat)
    requires answers != [] && answers[0].Page?
    ensures var page := answers[0];
            handed + Hands(answers, stopAt) ==
              (if page.data != [] then handed + [page.data] else handed) +
              (if page.next.None? || stopAt == 0 then [] else Hands(answers[1..], stopAt - 1))
  {
  }

  // ---- The loop against the server ----

  /** Where the session's poll is; an answer's bounds are read before its rows. */
  datatype Poll =
    | Idle
    | Asked(cursor: Option<Cursor>, least: Option<Time>)
    | Bounded(cursor: Option<Cursor>, least: Option<Time>, cutoff: Time, mark: Time)
    | Answered(least: Option<Time>, data: seq<Incident>, next: Option<Cursor>, mark: Time)

  /** A fetch of a stopped poll that has not been answered. */
  datatype Orphan = Orphan(since: Time, cursor: Option<Cursor>)

  /**
   `initial` is the watermark of the list; `late` holds the answered pages of stopped polls, still to be handed
   over.
   */
  datatype Feed = Feed(
    server: Server,
    initial: Time,
    watermark: Time,
    poll: Poll,
    orphans: seq<Orphan>,
    late: seq<seq<Incident>>,
    handed: set<Incident>)

  datatype Event =
    | ServerActs(act: Act)
    | Restarts
    | OrphanRead(k: nat, cutoff: Time, data: seq<Incident>, next: Option<Cursor>)
    | OrphanFails(k: nat)
    | LateArrives(k: nat)
    | PollStarts
    | BoundsRead(mark: Time)
    | RowsRead(data: seq<Incident>, next: Option<Cursor>)
    | AnswerArrives
    | PollFails

  ghost predicate Enabled(f: Feed, e: Event) {
    match e
    case ServerActs(a) => CanDo(f.server, a)
    case Restarts => true
    case OrphanRead(k, cutoff, data, next) =>
      k < |f.orphans| && cutoff <= f.server.clock
      && ChangesPage(f.server, f.orphans[k].since, f.orphans[k].cursor, cutoff, CHANGES_LIMIT, data, next)
    case OrphanFails(k) => k < |f.orphans|
    case LateArrives(k) => k < |f.late|
    case PollStarts => f.poll.Idle?
    case BoundsRead(mark) => f.poll.Asked? && IsWatermark(f.server, mark)
    case RowsRead(data, next) =>
      f.poll.Bounded? && ChangesPage(f.server, f.watermark, f.poll.cursor, f.poll.cutoff, CHANGES_LIMIT, data, next)
    case AnswerArrives => f.poll.Answered?
    case PollFails => !f.poll.Idle?
  }

  /** The cleanup: a fetch under way, or an answer not yet processed, outlives the poll. */
  function Stopped(f: Feed): Feed {
    match f.poll
    case Idle => f
    case Answered(_, data, _, _) => f.(poll := Idle, late := f.late + [data])
    case _ => f.(poll := Idle, orphans := f.orphans + [Orphan(f.watermark, f.poll.cursor)])
  }

  /**
   When the tab becomes active again the effect runs anew from the watermark of the list. What a stopped
   poll still fetches is handed over, once, and moves no watermark.
   */
  ghost function Next(f: Feed, e: Event): Feed
    requires Enabled(f, e)
  {
    match e
    case ServerActs(a) => f.(server := Do(f.server, a))
    case Restarts => Stopped(f).(watermark := f.initial)
    case OrphanRead(k, _, data, _) => f.(orphans := RemoveAt(f.orphans, k), late := f.late + [data])
    case OrphanFails(k) => f.(orphans := RemoveAt(f.orphans, k))
    case LateArrives(k) =>
      f.(handed := f.handed + (set x | x in f.late[k]), late := RemoveAt(f.late, k))
    case PollStarts => f.(poll := Asked(None, None))
    case BoundsRead(mark) => f.(poll := Bounded(f.poll.cursor, f.poll.least, f.server.clock, mark))
    case RowsRead(data, next) => f.(poll := Answered(f.poll.least, data, next, f.poll.mark))
    case AnswerArrives =>
      var least := Lower(f.poll.least, Some(f.poll.mark));
      var g := f.(handed := f.handed + (set x | x in f.poll.data));
      if f.poll.next.Some? then g.(poll := Asked(f.poll.next, least))
      else g.(poll := Idle, watermark := least.value)
    case PollFails => f.(poll := Idle)
  }

  ghost predicate Legal(f: Feed, es: seq<Event>)
    decreases es
  {
    es == [] || (Enabled(f, es[0]) && Legal(Next(f, es[0]), es[1..]))
  }

  ghost function Run(f: Feed, es: seq<Event>): Feed
    requires Legal(f, es)
    decreases es
  {
    if es == [] then f else Run(Next(f, es[0]), es[1..])
  }

  // ---- The machine's polls are the loop's ----

  /** The answers the poll under way gets in a run, until it is over. */
  ghost function AnswersOf(f: Feed, es: seq<Event>): seq<Answer>
    requires Legal(f, es)
    decreases es
  {
    if es == [] || f.poll.Idle? then []
    else
      var rest := AnswersOf(Next(f, es[0]), es[1..]);
      match es[0]
      case AnswerArrives => [Page(f.poll.data, f.poll.next, Some(f.poll.mark))] + rest
      case PollFails => [Failure] + rest
      case _ => rest
  }

  function Rows(batches: seq<seq<Incident>>): set<Incident> {
    if batches == [] then {} else (set x | x in batches[0]) + Rows(batches[1..])
  }

  ghost predicate OnePoll(es: seq<Event>) {
    forall e :: e in es ==> !e.PollStarts? && !e.Restarts? && !e.LateArrives?
  }

  lemma {:induction false} IdleStays(f: Feed, es: seq<Event>)
    requires f.poll.Idle? && Legal(f, es) && OnePoll(es)
    ensures var g := Run(f, es); g.poll.Idle? && g.watermark == f.watermark && g.handed == f.handed
    decreases es
  {
    if es != [] {
      assert es[0] in es;
      IdleStays(Next(f, es[0]), es[1..]);
    }
  }

  /** What a run leaves behind is what the loop makes of the answers. */
  ghost predicate EndsLike(f: Feed, g: Feed, answers: seq<Answer>) {
    && g.handed == f.handed + Rows(Hands(answers, |answers|))
    && !f.poll.Idle?
    && match Ends(f.poll.least, answers, |answers|)
       case Waiting => !g.poll.Idle? && g.watermark == f.watermark
       case Failed => g.poll.Idle? && g.watermark == f.watermark
       case Done(least) => g.poll.Idle? && least == Some(g.watermark)
  }

  lemma ArrivalEndsLike(f: Feed, g: Feed, rest: seq<Answer>)
    requires Enabled(f, AnswerArrives)
    requires var n := Next(f, AnswerArrives);
             if n.poll.Idle? then g.poll.Idle? && g.watermark == n.watermark && g.handed == n.handed && rest == []
             else EndsLike(n, g, rest)
    ensures EndsLike(f, g, [Page(f.poll.data, f.poll.next, Some(f.poll.mark))] + rest)
  {
    var page := Page(f.poll.data, f.poll.next, Some(f.poll.mark));
    assert ([page] + rest)[1..] == rest;
    RowsOfTurn(page, rest);
  }

  lemma RowsOfTurn(page: Answer, rest: seq<Answer>)
    requires page.Page?
    ensures Rows(Hands([page] + rest, |rest| + 1)) ==
            (set x | x in page.data) + if page.next.Some? then Rows(Hands(rest, |rest|)) else {}
  {
    var later := if page.next.Some? then Hands(rest, |rest|) else [];
    assert ([page] + rest)[1..] == rest;
    assert Hands([page] + rest, |rest| + 1) == (if page.data != [] then [page.data] else []) + later;
    assert ([page.data] + later)[1..] == later;
    assert [] + later == later;
  }

  /** A poll of the machine hands over the rows and moves the watermark exactly as the loop does on its answers. */
  lemma {:induction false} PollIsTheLoop(f: Feed, es: seq<Event>)
    requires !f.poll.Idle? && Legal(f, es) && OnePoll(es)
    ensures EndsLike(f, Run(f, es), AnswersOf(f, es))
    decreases es
  {
    if es != [] {
      assert es[0] in es;
      var n := Next(f, es[0]);
      if n.poll.Idle? {
        IdleStays(n, es[1..]);
      } else {
        PollIsTheLoop(n, es[1..]);
      }
      if es[0].AnswerArrives? { ArrivalEndsLike(f, Run(f, es), AnswersOf(n, es[1..])); }
    }
  }

  /** A whole poll of the machine moves the watermark as the loop that is not stopped. */
  lemma PollMoves(f: Feed, es: seq<Event>)
    requires f.poll == Asked(None, None) && Legal(f, es) && OnePoll(es)
    ensures Run(f, es).watermark == Moved(f.watermark, AnswersOf(f, es), |AnswersOf(f, es)|)
  {
    PollIsTheLoop(f, es);
    StopsTold(AnswersOf(f, es), |AnswersOf(f, es)|);
  }

  // ---- Coverage ----

  /** Every current row stamped in (low, high] has been handed over at that version. */
  ghost predicate Covered(f: Feed, low: Time, high: Time) {
    forall r :: Current(f.server, r) && low < r.updatedAt <= high ==> r in f.handed
  }

  /** Same, except for the rows the running loop still has ahead of `cursor`. */
  ghost predicate CoveredBefore(f: Feed, cursor: Option<Cursor>, least: Option<Time>) {
    && (cursor.Some? <==> least.Some?)
    && (least.Some? ==>
          && Closed(f.server, least.value) && least.value <= f.server.clock
          && forall r :: Current(f.server, r) && f.watermark < r.updatedAt <= least.value && !After(r, cursor.value) ==>
               r in f.handed)
  }

  ghost predicate PollOk(f: Feed) {
    match f.poll
    case Idle => true
    case Asked(cursor, least) => CoveredBefore(f, cursor, least)
    case Bounded(cursor, least, cutoff, mark) =>
      && CoveredBefore(f, cursor, least) && Closed(f.server, mark)
      && mark <= cutoff <= f.server.clock && (least.Some? ==> least.value <= cutoff)
    case Answered(least, data, next, mark) =>
      && Closed(f.server, mark) && (least.Some? ==> Closed(f.server, least.value))
      && mark <= f.server.clock && (least.Some? ==> least.value <= f.server.clock)
      && DistinctIds(data)
      && forall r :: Current(f.server, r) && f.watermark < r.updatedAt <= Lower(least, Some(mark)).value ==>
           r in f.handed || r in data || (next.Some? && After(r, next.value))
  }

  /** Everything fetched or handed over was a committed version, and the ids of a page are distinct. */
  ghost predicate RowsKnown(f: Feed) {
    && (forall r :: r in f.handed ==> Known(f.server, r))
    && (f.poll.Answered? ==> forall r :: r in f.poll.data ==> Known(f.server, r))
    && (forall data :: data in f.late ==> DistinctIds(data) && forall r :: r in data ==> Known(f.server, r))
  }

  ghost predicate FeedInv(f: Feed) {
    && ServerOk(f.server) && Closed(f.server, f.watermark) && Closed(f.server, f.initial)
    && Covered(f, f.initial, f.watermark) && PollOk(f) && RowsKnown(f)
  }

  lemma CoverageLasts(f: Feed, a: Act)
    requires FeedInv(f) && CanDo(f.server, a)
    ensures var g := f.(server := Do(f.server, a)); Covered(g, g.initial, g.watermark) && PollOk(g)
  {
    StaysClosed(f.server, a, f.watermark);
    match f.poll
    case Idle =>
    case Asked(_, least) => if least.Some? { StaysClosed(f.server, a, least.value); }
    case Bounded(_, least, _, mark) =>
      StaysClosed(f.server, a, mark);
      if least.Some? { StaysClosed(f.server, a, least.value); }
    case Answered(least, _, _, mark) =>
      StaysClosed(f.server, a, mark);
      if least.Some? { StaysClosed(f.server, a, least.value); }
  }

  lemma ServerActKeeps(f: Feed, a: Act)
    requires FeedInv(f) && CanDo(f.server, a)
    ensures FeedInv(f.(server := Do(f.server, a)))
  {
    ServerStaysOk(f.server, a);
    KnownLasts(f.server, a);
    StaysClosed(f.server, a, f.watermark);
    StaysClosed(f.server, a, f.initial);
    CoverageLasts(f, a);
  }

  lemma RowsReadKeeps(f: Feed, data: seq<Incident>, next: Option<Cursor>)
    requires FeedInv(f) && Enabled(f, RowsRead(data, next))
    ensures FeedInv(Next(f, RowsRead(data, next)))
  {
    var Bounded(cursor, least, cutoff, mark) := f.poll;
    var high := Lower(least, Some(mark)).value;
    PageIdsDistinct(f.server, data);
    forall r | Current(f.server, r) && f.watermark < r.updatedAt <= high
      ensures r in f.handed || r in data || (next.Some? && After(r, next.value))
    {
      if Changed(f.server, f.watermark, cursor, cutoff, r) {
        OnPageOrAhead(f.server, f.watermark, cursor, cutoff, CHANGES_LIMIT, data, next, r);
      }
    }
    forall r | r in data ensures Known(f.server, r) {
      assert Changed(f.server, f.watermark, cursor, cutoff, r);
    }
  }

  lemma OrphanReadKeeps(f: Feed, k: nat, cutoff: Time, data: seq<Incident>, next: Option<Cursor>)
    requires FeedInv(f) && Enabled(f, OrphanRead(k, cutoff, data, next))
    ensures FeedInv(Next(f, OrphanRead(k, cutoff, data, next)))
  {
    PageIdsDistinct(f.server, data);
    forall r | r in data ensures Known(f.server, r) {
      assert Changed(f.server, f.orphans[k].since, f.orphans[k].cursor, cutoff, r);
    }
  }

  lemma FeedStep(f: Feed, e: Event)
    requires FeedInv(f) && Enabled(f, e)
    ensures FeedInv(Next(f, e))
  {
    match e
    case ServerActs(a) => ServerActKeeps(f, a);
    case BoundsRead(mark) => WatermarkCloses(f.server, mark);
    case RowsRead(data, next) => RowsReadKeeps(f, data, next);
    case OrphanRead(k, cutoff, data, next) => OrphanReadKeeps(f, k, cutoff, data, next);
    case LateArrives(k) => assert f.late[k] in f.late;
    case _ =>
  }

  lemma {:induction false} FeedAlways(f: Feed, es: seq<Event>)
    requires FeedInv(f) && Legal(f, es)
    ensures FeedInv(Run(f, es)) && Run(f, es).initial == f.initial
    decreases es
  {
    if es != [] {
      FeedStep(f, es[0]);
      FeedAlways(Next(f, es[0]), es[1..]);
    }
  }

  function Begun(server: Server, initial: Time): Feed {
    Feed(server, initial, initial, Idle, [], [], {})
  }

  /**
   No lost change: whatever commits, rolls back, is deleted or fails between and during the polls, and
   however often the poller is stopped and restarted, every row whose current version lies between the
   initial and the present watermark has been handed over at it.
   */
  lemma {:induction false} NoLostChange(server: Server, initial: Time, es: seq<Event>)
    requires ServerOk(server) && Closed(server, initial)
    requires Legal(Begun(server, initial), es)
    ensures var f := Run(Begun(server, initial), es);
            forall r :: Current(f.server, r) && initial < r.updatedAt <= f.watermark ==> r in f.handed
  {
    FeedAlways(Begun(server, initial), es);
  }
}
