/**
 The lifetimes of the toast cards in milliseconds, over runs of their timers
 (dashboard/src/components/CriticalToastStack.jsx:172-229): how they start and how a card goes.
 */
module ToastLifetimes {
  import opened Incidents
  import opened LiveFeed
  import opened ToastStack
  import opened ToastTimers
  import S = ToastStack
  import T = ToastTimers

  // ---- How a lifetime starts ----

  predicate Unbumped(u: Toast, t: Toast) {
    u.id == t.id && u.bumpToken == t.bumpToken && u.incidentId == t.incidentId
  }

  lemma TakeUnbinds(s: Stack, e: Event, t: Toast)
    requires StackInv(s) && t in Act(s, Take(e)).toasts
    ensures t.incidentId.None? || exists u :: u in s.toasts && Unbumped(u, t)
  {
    ReduceOutcome(s.toasts, e);
    var r, n := Reduce(s.toasts, e), |s.toasts|;
    var i :| 0 <= i < |r| && r[i] == t;
    if i < n {
      assert s.toasts[i] in s.toasts;
      if |r| == n + 1 { assert r[..n][i] == t; }
    }
  }

  /** A batch unbinds the cards it bumps and those it makes. */
  lemma {:induction false} BatchUnbinds(s: Stack, batch: seq<Event>, t: Toast)
    requires StackInv(s) && S.Legal(s, Takes(batch)) && t in S.Run(s, Takes(batch)).toasts
    ensures t.incidentId.None? || exists u :: u in s.toasts && Unbumped(u, t)
    decreases batch
  {
    if batch != [] {
      var e := batch[0];
      TakeKeeps(s, e);
      assert Takes(batch)[1..] == Takes(batch[1..]);
      BatchUnbinds(Act(s, Take(e)), batch[1..], t);
      if t.incidentId.Some? {
        var v :| v in Act(s, Take(e)).toasts && Unbumped(v, t);
        TakeUnbinds(s, e, v);
      }
    }
  }

  lemma IdsOnce(toasts: seq<Toast>, t: Toast, u: Toast)
    requires DistinctToasts(toasts) && t in toasts && u in toasts && t.id == u.id
    ensures t == u
  {
    var i :| 0 <= i < |toasts| && toasts[i] == t;
    var j :| 0 <= j < |toasts| && toasts[j] == u;
    if i < j { IdAt(toasts, i, j); }
    if j < i { IdAt(toasts, j, i); }
  }

  /** The batch brings the card up. */
  ghost predicate BringsUp(w: World, batch: seq<Event>, exitMs: nat, t: Toast) {
    && Possible(w, Receive(batch), false) && t.id !in w.stack.seen
    && Displayed(Next(w, Receive(batch), exitMs), t)
  }

  /** The card is new, or the batch has bumped it. */
  ghost predicate NewOrBumped(w: World, t: Toast) {
    forall u :: u in w.stack.toasts && u.id == t.id ==> IsActive(u) && u.bumpToken != t.bumpToken
  }

  lemma BatchStarts(w: World, batch: seq<Event>, exitMs: nat, punctual: bool, t: Toast)
    requires Inv(w, punctual) && Possible(w, Receive(batch), false)
    requires Displayed(Next(w, Receive(batch), exitMs), t) && NewOrBumped(w, t)
    ensures StartsAnew(Next(w, Receive(batch), exitMs).timed, w.hovered, t, 15000)
  {
    BatchRuns(w.stack, batch);
    BatchUnbinds(w.stack, batch, t);
    CardsOfBatch(w.stack, batch, t);
    if t.id in w.stack.seen {
      var u :| u in w.stack.toasts && u.id == t.id && (IsActive(t) ==> IsActive(u));
      assert Settled(w.timed, w.hovered, u, punctual);
    }
    BatchRearms(w, batch, exitMs, punctual, t);
  }

  /** In any state of the invariant, so in every reachable one, a new card starts with 15 seconds. */
  lemma CardStarts(w: World, batch: seq<Event>, exitMs: nat, punctual: bool, t: Toast)
    requires Inv(w, punctual) && BringsUp(w, batch, exitMs, t)
    ensures var n := Next(w, Receive(batch), exitMs); StartsAnew(n.timed, n.hovered, t, 15000)
  {
    BatchStarts(w, batch, exitMs, punctual, t);
  }

  /** A bump starts 15 seconds anew, whatever the card had left and whatever it was bound to. */
  lemma BumpStartsAnew(w: World, batch: seq<Event>, exitMs: nat, punctual: bool, u: Toast, t: Toast)
    requires Inv(w, punctual) && Possible(w, Receive(batch), false) && Displayed(w, u)
    requires Displayed(Next(w, Receive(batch), exitMs), t) && u.id == t.id && u.bumpToken != t.bumpToken
    ensures var n := Next(w, Receive(batch), exitMs); StartsAnew(n.timed, n.hovered, t, 15000)
  {
    forall v | v in w.stack.toasts && v.id == t.id ensures v == u { IdsOnce(w.stack.toasts, v, u); }
    BatchStarts(w, batch, exitMs, punctual, t);
  }

  /** A found incident starts 2 seconds on the card it is found for. */
  lemma FindingStartsAnew(w: World, incident: string, exitMs: nat, punctual: bool, u: Toast)
    requires Inv(w, punctual) && Displayed(w, u) && u.incidentId.None?
    ensures var n, t := Next(w, Activated(u.id, incident), exitMs), u.(incidentId := Some(incident));
            Displayed(n, t) && StartsAnew(n.timed, n.hovered, t, 2000)
  {
    var t := u.(incidentId := Some(incident));
    var i :| 0 <= i < |w.stack.toasts| && w.stack.toasts[i] == u;
    ActionOutcome(w.stack, S.Activate(u.id, incident));
    assert Act(w.stack, S.Activate(u.id, incident)).toasts[i] == t;
    HappeningRearms(w, Activated(u.id, incident), exitMs, punctual, u, t);
  }

  // ---- How a card goes ----

  /** Timeout `h` is the one that takes the card away. */
  ghost predicate GoesBy(c: Clockwork, id: Id, h: nat, due: int) {
    && id in c.timers && c.timers[id].removeTimer == Some(h)
    && h in c.alarms && c.alarms[h] == Alarm(id, due, true)
    && forall other :: other in c.alarms && c.alarms[other].id == id && c.alarms[other].removal ==> other == h
  }

  ghost predicate Goes(c: Clockwork, id: Id, due: int) { exists h :: GoesBy(c, id, h, due) }

  /** The card is on its way out: it is on the screen but not active. */
  ghost predicate OnItsWay(toasts: seq<Toast>, id: Id) {
    Shown(toasts, id) && forall t :: t in toasts && t.id == id ==> t.exiting.Some?
  }

  lemma GoesAlike(a: Clockwork, b: Clockwork, id: Id, due: int)
    requires Goes(a, id, due) && SameFor(a, b, id)
    ensures Goes(b, id, due)
  {
    var h :| GoesBy(a, id, h, due);
    assert GoesBy(b, id, h, due);
  }

  /** The effect leaves a card alone whose removal is on its way. */
  lemma {:induction false} EffectSkips(c: Clockwork, toasts: seq<Toast>, exitMs: nat, id: Id)
    requires ClockOk(c) && id in c.timers && c.timers[id].removeTimer.Some?
    requires forall t :: t in toasts && t.id == id ==> t.exiting.Some?
    ensures SameFor(c, SyncToasts(c, toasts, exitMs), id)
    decreases toasts
  {
    if toasts != [] {
      var d := SyncToast(c, toasts[0], exitMs);
      SyncIsLocal(c, toasts[0], exitMs);
      assert SameFor(c, d, id);
      EffectSkips(d, toasts[1..], exitMs, id);
      SameTwice(c, d, SyncToasts(c, toasts, exitMs), id);
    }
  }

  lemma RenderGoes(w: World, clock: Clockwork, stack: Stack, exitMs: nat, id: Id, due: int)
    requires ClockOk(clock) && Goes(clock, id, due) && OnItsWay(stack.toasts, id)
    ensures Goes(Rendered(w, clock, stack, exitMs).timed.clock, id, due)
  {
    EffectSkips(clock, stack.toasts, exitMs, id);
    var all, pruned := SyncToasts(clock, stack.toasts, exitMs), Synced(clock, stack.toasts, exitMs);
    assert SameFor(all, pruned, id);
    GoesAlike(clock, all, id, due);
    GoesAlike(all, pruned, id, due);
  }

  /** Fewer timeouts, nothing else. */
  ghost predicate Fewer(c: Clockwork, d: Clockwork) {
    && d.now == c.now && d.next == c.next && d.timers == c.timers
    && forall h :: h in d.alarms ==> h in c.alarms && d.alarms[h] == c.alarms[h]
  }

  lemma FewerAlarms(c: Clockwork, d: Clockwork)
    requires ClockOk(c) && Fewer(c, d)
    ensures ClockOk(d) && forall id :: Stays(c, id) ==> Stays(d, id)
  {
  }

  /** The card has an entry, no removal, and no expiry but the one of its entry. */
  ghost predicate Stays(c: Clockwork, id: Id) {
    && id in c.timers && c.timers[id].removeTimer.None? && OnlyAlarm(c, id, c.timers[id].expireTimer)
    && forall h :: h in c.alarms && c.alarms[h].id == id ==> !c.alarms[h].removal
  }

  /** Its removal is the only timeout of the card. */
  ghost predicate NothingButRemoval(c: Clockwork, id: Id) {
    forall h :: h in c.alarms && c.alarms[h].id == id ==> c.alarms[h].removal
  }

  /** The card is taken away at `due`, and its removal is its only timeout. */
  ghost predicate Sent(c: Clockwork, id: Id, due: int) { Goes(c, id, due) && NothingButRemoval(c, id) }

  lemma TurnSends(c: Clockwork, t: Toast, exitMs: nat)
    requires ClockOk(c) && Stays(c, t.id) && t.exiting.Some?
    ensures var d := SyncToast(c, t, exitMs);
            Sent(d, t.id, c.now + exitMs) && d.timers[t.id].removeTimer.Some?
  {
    assert GoesBy(SyncToast(c, t, exitMs), t.id, c.next, c.now + exitMs);
  }

  lemma {:induction false} EffectSends(c: Clockwork, toasts: seq<Toast>, exitMs: nat, t: Toast)
    requires ClockOk(c) && Stays(c, t.id) && t in toasts && t.exiting.Some? && DistinctToasts(toasts)
    ensures Sent(SyncToasts(c, toasts, exitMs), t.id, c.now + exitMs)
    decreases toasts
  {
    var head, rest := toasts[0], toasts[1..];
    var d, end := SyncToast(c, head, exitMs), SyncToasts(c, toasts, exitMs);
    SyncIsLocal(c, head, exitMs);
    if head == t {
      TurnSends(c, t, exitMs);
      EffectSkips(d, rest, exitMs, t.id);
      GoesAlike(d, end, t.id, c.now + exitMs);
    } else {
      assert t in rest && t.id != head.id && SameFor(c, d, t.id);
      EffectSends(d, rest, exitMs, t);
    }
  }

  lemma RenderSends(w: World, clock: Clockwork, stack: Stack, exitMs: nat, t: Toast)
    requires ClockOk(w.timed.clock) && Stays(w.timed.clock, t.id) && Fewer(w.timed.clock, clock)
    requires t in stack.toasts && t.exiting.Some? && DistinctToasts(stack.toasts)
    ensures Sent(Rendered(w, clock, stack, exitMs).timed.clock, t.id, w.timed.clock.now + exitMs)
  {
    FewerAlarms(w.timed.clock, clock);
    EffectSends(clock, stack.toasts, exitMs, t);
    var all, pruned := SyncToasts(clock, stack.toasts, exitMs), Synced(clock, stack.toasts, exitMs);
    assert Shown(stack.toasts, t.id) && SameFor(all, pruned, t.id);
    GoesAlike(all, pruned, t.id, clock.now + exitMs);
  }

  /** The happening has sent an active card on its way. */
  ghost predicate SentOut(w: World, e: Happening, exitMs: nat, u: Toast, t: Toast)
    requires Possible(w, e, false)
  {
    Displayed(w, u) && t in Next(w, e, exitMs).stack.toasts && t.id == u.id && t.exiting.Some?
  }

  lemma HappeningSends(w: World, e: Happening, exitMs: nat, punctual: bool, u: Toast, t: Toast)
    requires Inv(w, punctual) && Possible(w, e, punctual) && SentOut(w, e, exitMs, u, t)
    ensures Sent(Next(w, e, exitMs).timed.clock, t.id, w.timed.clock.now + exitMs)
  {
    StepKeeps(w, e, exitMs, punctual);
    assert Settled(w.timed, w.hovered, u, punctual) && Stays(w.timed.clock, t.id);
    StepSends(w, e, exitMs, u, t);
  }

  lemma StepSends(w: World, e: Happening, exitMs: nat, u: Toast, t: Toast)
    requires Possible(w, e, false) && SentOut(w, e, exitMs, u, t)
    requires ClockOk(w.timed.clock) && Stays(w.timed.clock, t.id)
    requires DistinctToasts(w.stack.toasts) && DistinctToasts(Next(w, e, exitMs).stack.toasts)
    ensures Sent(Next(w, e, exitMs).timed.clock, t.id, w.timed.clock.now + exitMs)
  {
    var c := w.timed.clock;
    match e
    case Click(id) => RenderSends(w, Disarmed(c, id), Act(w.stack, Exit(id, Dismiss)), exitMs, t);
    case Receive(batch) => RenderSends(w, c, S.Run(w.stack, Takes(batch)), exitMs, t);
    case Activated(id, incident) => RenderSends(w, c, Act(w.stack, S.Activate(id, incident)), exitMs, t);
    case Fire(h) =>
      var a := if c.alarms[h].removal then Remove(c.alarms[h].id) else Exit(c.alarms[h].id, Expire);
      RenderSends(w, c.(alarms := c.alarms - {h}), Act(w.stack, a), exitMs, t);
    case _ => IdsOnce(w.stack.toasts, t, u);
  }

  // ---- Why a card goes ----

  lemma {:induction false} BatchForces(s: Stack, batch: seq<Event>, u: Toast, t: Toast)
    requires StackInv(s) && S.Legal(s, Takes(batch)) && u in s.toasts && t in S.Run(s, Takes(batch)).toasts
    requires t.id == u.id && t.exiting.Some?
    ensures t.exiting == if u.exiting.Some? then u.exiting else Some(Forced)
    decreases batch
  {
    if batch == [] {
      IdsOnce(s.toasts, t, u);
    } else {
      var e := batch[0];
      var next := Act(s, Take(e));
      TakeKeeps(s, e);
      assert Takes(batch)[1..] == Takes(batch[1..]);
      StillShown(s, Take(e), u.id);
      var v :| v in next.toasts && v.id == u.id;
      TakeForces(s, e, u, v);
      BatchForces(next, batch[1..], v, t);
    }
  }

  lemma TakeForces(s: Stack, e: Event, u: Toast, v: Toast)
    requires StackInv(s) && e.id !in s.seen && u in s.toasts && v in Act(s, Take(e)).toasts && v.id == u.id
    ensures v.exiting == u.exiting || (u.exiting.None? && v.exiting == Some(Forced))
  {
    ReduceOutcome(s.toasts, e);
    var r, n := Reduce(s.toasts, e), |s.toasts|;
    var i :| 0 <= i < |r| && r[i] == v;
    if i < n {
      if |r| == n + 1 { assert r[..n][i] == v; }
      IdsOnce(s.toasts, s.toasts[i], u);
    }
  }

  /** A click sends out the clicked card, a timeout its own, and a batch only evicts. */
  lemma SentOutBy(w: World, e: Happening, exitMs: nat, punctual: bool, u: Toast, t: Toast)
    requires Inv(w, punctual) && Possible(w, e, false) && SentOut(w, e, exitMs, u, t)
    ensures match e
            case Click(id) => t == u.(exiting := Some(Dismiss)) && id == t.id
            case Fire(h) => t == u.(exiting := Some(Expire)) && w.timed.clock.alarms[h].id == t.id
            case Receive(_) => t.exiting == Some(Forced)
            case _ => false
  {
    match e
    case Receive(batch) =>
      BatchRuns(w.stack, batch);
      BatchForces(w.stack, batch, u, t);
    case Click(id) => ActionForces(w.stack, Exit(id, Dismiss), u, t);
    case Fire(h) =>
      var alarm := w.timed.clock.alarms[h];
      ActionForces(w.stack, if alarm.removal then Remove(alarm.id) else Exit(alarm.id, Expire), u, t);
    case Activated(id, incident) => ActionForces(w.stack, S.Activate(id, incident), u, t);
    case _ => IdsOnce(w.stack.toasts, t, u);
  }

  lemma ActionForces(s: Stack, a: Action, u: Toast, t: Toast)
    requires DistinctToasts(s.toasts) && !a.Take? && u in s.toasts && t in Act(s, a).toasts && t.id == u.id
    requires u.exiting.None? && t.exiting.Some?
    ensures a.Exit? && a.id == t.id && t == u.(exiting := Some(a.reason))
  {
    if a.Remove? {
      DropKeeps(s.toasts, a.id);
      IdsOnce(s.toasts, t, u);
    } else {
      ActionOutcome(s, a);
      var i :| 0 <= i < |s.toasts| && Act(s, a).toasts[i] == t;
      IdsOnce(s.toasts, s.toasts[i], u);
    }
  }

  // ---- Until it is gone ----

  /** The card is on its way and its removal due at `due`, or `due` is over and it is gone for good. */
  ghost predicate GoneAt(w: World, id: Id, due: int, punctual: bool) {
    && id in w.stack.seen
    && if Shown(w.stack.toasts, id) then
         && OnItsWay(w.stack.toasts, id) && Goes(w.timed.clock, id, due)
         && (punctual ==> w.timed.clock.now <= due)
       else w.timed.clock.now >= due
  }

  lemma ActionLeaves(s: Stack, a: Action, id: Id)
    requires StackInv(s) && CanAct(s, a) && id in s.seen && OnItsWay(s.toasts, id) && a != Remove(id)
    ensures OnItsWay(Act(s, a).toasts, id)
  {
    var t :| t in s.toasts && t.id == id;
    forall u | u in s.toasts && u.id == id ensures u == t { IdsOnce(s.toasts, u, t); }
    LeavingStep(s, a, t);
    StillShown(s, a, id);
  }

  lemma TakeShows(s: Stack, e: Event, i: nat)
    requires DistinctToasts(s.toasts) && i < |s.toasts|
    ensures Shown(Reduce(s.toasts, e), s.toasts[i].id)
  {
    ReduceOutcome(s.toasts, e);
    var r := Reduce(s.toasts, e);
    if |r| > |s.toasts| { assert r[..|s.toasts|][i].id == s.toasts[i].id; }
    assert r[i].id == s.toasts[i].id;
  }

  lemma StillShown(s: Stack, a: Action, id: Id)
    requires StackInv(s) && Shown(s.toasts, id) && a != Remove(id)
    ensures Shown(Act(s, a).toasts, id)
  {
    var t :| t in s.toasts && t.id == id;
    var i :| 0 <= i < |s.toasts| && s.toasts[i] == t;
    match a
    case Take(e) => TakeShows(s, e, i);
    case Remove(other) => DropKeeps(s.toasts, other); assert t in Act(s, a).toasts;
    case _ =>
      ActionOutcome(s, a);
      assert Act(s, a).toasts[i].id == id;
  }

  lemma GoneStays(s: Stack, a: Action, id: Id)
    requires StackInv(s) && CanAct(s, a) && id in s.seen && !Shown(s.toasts, id)
    ensures !Shown(Act(s, a).toasts, id)
  {
    forall t | t in Act(s, a).toasts ensures t.id != id { CardsComeFromCards(s, a, t); }
  }

  lemma {:induction false} BatchLeaves(s: Stack, batch: seq<Event>, id: Id)
    requires StackInv(s) && S.Legal(s, Takes(batch)) && id in s.seen
    ensures var r := S.Run(s, Takes(batch));
            && id in r.seen && (OnItsWay(s.toasts, id) ==> OnItsWay(r.toasts, id))
            && (!Shown(s.toasts, id) ==> !Shown(r.toasts, id))
    decreases batch
  {
    if batch != [] {
      var e := batch[0];
      TakeKeeps(s, e);
      if OnItsWay(s.toasts, id) { ActionLeaves(s, Take(e), id); }
      if !Shown(s.toasts, id) { GoneStays(s, Take(e), id); }
      assert Takes(batch)[1..] == Takes(batch[1..]);
      BatchLeaves(Act(s, Take(e)), batch[1..], id);
    }
  }

  lemma HoverGoes(c: Clockwork, other: Id, id: Id, due: int)
    requires ClockOk(c) && Goes(c, id, due)
    ensures Goes(Paused(c, other), id, due) && Goes(Resumed(c, other), id, due)
  {
    var h :| GoesBy(c, id, h, due);
    assert GoesBy(Paused(c, other), id, h, due);
    assert GoesBy(Resumed(c, other), id, h, due);
  }

  lemma AnotherClick(c: Clockwork, other: Id, id: Id, due: int)
    requires ClockOk(c) && Goes(c, id, due)
    ensures Goes(Disarmed(c, other), id, due) && ClockOk(Disarmed(c, other)) && Disarmed(c, other).now == c.now
  {
    var h :| GoesBy(c, id, h, due);
    assert GoesBy(Disarmed(c, other), id, h, due);
  }

  lemma AnotherRings(c: Clockwork, h: nat, id: Id, due: int)
    requires ClockOk(c) && Goes(c, id, due) && h in c.alarms && (c.alarms[h].removal ==> c.alarms[h].id != id)
    ensures Goes(c.(alarms := c.alarms - {h}), id, due) && ClockOk(c.(alarms := c.alarms - {h}))
  {
    var k :| GoesBy(c, id, k, due);
    assert GoesBy(c.(alarms := c.alarms - {h}), id, k, due);
  }

  /** The effect on the stack after an action that does not take the card away. */
  lemma ActionGoes(w: World, clock: Clockwork, a: Action, exitMs: nat, id: Id, due: int, punctual: bool)
    requires StackInv(w.stack) && CanAct(w.stack, a) && GoneAt(w, id, due, punctual) && Shown(w.stack.toasts, id)
    requires ClockOk(clock) && Goes(clock, id, due) && clock.now == w.timed.clock.now && a != Remove(id)
    ensures GoneAt(Rendered(w, clock, Act(w.stack, a), exitMs), id, due, punctual)
  {
    ActionLeaves(w.stack, a, id);
    RenderGoes(w, clock, Act(w.stack, a), exitMs, id, due);
    EffectKeepsTime(clock, Act(w.stack, a).toasts, exitMs);
  }

  lemma {:induction false} EffectKeepsTime(c: Clockwork, toasts: seq<Toast>, exitMs: nat)
    ensures SyncToasts(c, toasts, exitMs).now == c.now
    decreases toasts
  {
    if toasts != [] { EffectKeepsTime(SyncToast(c, toasts[0], exitMs), toasts[1..], exitMs); }
  }

  /** A card that is gone does not come back. */
  lemma ActionGone(w: World, clock: Clockwork, a: Action, exitMs: nat, id: Id, due: int, punctual: bool)
    requires StackInv(w.stack) && CanAct(w.stack, a) && id in w.stack.seen && clock.now == w.timed.clock.now >= due
    requires !Shown(w.stack.toasts, id) || a == Remove(id)
    ensures GoneAt(Rendered(w, clock, Act(w.stack, a), exitMs), id, due, punctual)
  {
    if a == Remove(id) { DropKeeps(w.stack.toasts, id); } else { GoneStays(w.stack, a, id); }
    EffectKeepsTime(clock, Act(w.stack, a).toasts, exitMs);
  }

  lemma BatchGoes(w: World, batch: seq<Event>, exitMs: nat, id: Id, due: int, punctual: bool)
    requires Inv(w, punctual) && Possible(w, Receive(batch), false) && GoneAt(w, id, due, punctual)
    ensures GoneAt(Next(w, Receive(batch), exitMs), id, due, punctual)
  {
    BatchRuns(w.stack, batch);
    BatchLeaves(w.stack, batch, id);
    var stack := S.Run(w.stack, Takes(batch));
    EffectKeepsTime(w.timed.clock, stack.toasts, exitMs);
    if Shown(w.stack.toasts, id) { RenderGoes(w, w.timed.clock, stack, exitMs, id, due); }
  }

  lemma ClickGoes(w: World, other: Id, exitMs: nat, id: Id, due: int, punctual: bool)
    requires Inv(w, punctual) && GoneAt(w, id, due, punctual)
    ensures GoneAt(Next(w, Click(other), exitMs), id, due, punctual)
  {
    var d := Disarmed(w.timed.clock, other);
    if Shown(w.stack.toasts, id) {
      AnotherClick(w.timed.clock, other, id, due);
      ActionGoes(w, d, Exit(other, Dismiss), exitMs, id, due, punctual);
    } else {
      ActionGone(w, d, Exit(other, Dismiss), exitMs, id, due, punctual);
    }
  }

  lemma FireGoes(w: World, h: nat, exitMs: nat, id: Id, due: int, punctual: bool)
    requires Inv(w, punctual) && Possible(w, Fire(h), false) && GoneAt(w, id, due, punctual)
    ensures GoneAt(Next(w, Fire(h), exitMs), id, due, punctual)
  {
    var c := w.timed.clock;
    var d, a := c.(alarms := c.alarms - {h}), if c.alarms[h].removal then Remove(c.alarms[h].id)
                                              else Exit(c.alarms[h].id, Expire);
    if c.alarms[h].removal { RemovalReady(w, h, punctual); }
    if Shown(w.stack.toasts, id) && a != Remove(id) {
      AnotherRings(c, h, id, due);
      ActionGoes(w, d, a, exitMs, id, due, punctual);
    } else {
      ActionGone(w, d, a, exitMs, id, due, punctual);
    }
  }

  lemma StepGoes(w: World, e: Happening, exitMs: nat, id: Id, due: int, punctual: bool)
    requires Inv(w, punctual) && Possible(w, e, punctual) && GoneAt(w, id, due, punctual)
    ensures GoneAt(Next(w, e, exitMs), id, due, punctual)
  {
    match e
    case Advance(ms) => ClockGoes(w, ms, exitMs, id, due, punctual);
    case Enter(other) => if Shown(w.stack.toasts, id) { HoverGoes(w.timed.clock, other, id, due); }
    case Leave(other) => if Shown(w.stack.toasts, id) { HoverGoes(w.timed.clock, other, id, due); }
    case Click(other) => ClickGoes(w, other, exitMs, id, due, punctual);
    case Receive(batch) => BatchGoes(w, batch, exitMs, id, due, punctual);
    case Activated(other, incident) =>
      var a := S.Activate(other, incident);
      if Shown(w.stack.toasts, id) { ActionGoes(w, w.timed.clock, a, exitMs, id, due, punctual); }
      else { ActionGone(w, w.timed.clock, a, exitMs, id, due, punctual); }
    case Fire(h) => FireGoes(w, h, exitMs, id, due, punctual);
  }

  lemma ClockGoes(w: World, ms: nat, exitMs: nat, id: Id, due: int, punctual: bool)
    requires Inv(w, punctual) && Possible(w, Advance(ms), punctual) && GoneAt(w, id, due, punctual)
    ensures GoneAt(Next(w, Advance(ms), exitMs), id, due, punctual)
  {
    if Shown(w.stack.toasts, id) {
      var h :| GoesBy(w.timed.clock, id, h, due);
      assert GoesBy(Next(w, Advance(ms), exitMs).timed.clock, id, h, due);
    }
  }

  lemma {:induction false} RunGoes(w: World, es: seq<Happening>, exitMs: nat, id: Id, due: int, punctual: bool)
    requires Inv(w, punctual) && T.Legal(w, es, exitMs, punctual) && GoneAt(w, id, due, punctual)
    ensures GoneAt(T.Run(w, es, exitMs, punctual), id, due, punctual)
    decreases es
  {
    if es != [] {
      StepKeeps(w, es[0], exitMs, punctual);
      StepGoes(w, es[0], exitMs, id, due, punctual);
      RunGoes(Next(w, es[0], exitMs), es[1..], exitMs, id, due, punctual);
    }
  }

  ghost predicate IsGoing(w: World, id: Id, from: int, exitMs: nat, punctual: bool) {
    Inv(w, punctual) && GoneAt(w, id, from + exitMs, punctual)
  }

  /** Sent out at `from`: on its way before the exit time is over, and with punctual timers gone once it is over. */
  ghost predicate GoesOnTime(w: World, id: Id, from: int, exitMs: nat, punctual: bool) {
    && (w.timed.clock.now < from + exitMs ==> OnItsWay(w.stack.toasts, id))
    && (punctual && w.timed.clock.now > from + exitMs ==> !Shown(w.stack.toasts, id))
  }

  /**
   A card that is sent out, by its timeout, a click or an eviction, goes after the exit time: whatever happens
   next, before it is over the card is on the screen and stays on its way, and with punctual timers it is gone
   for good once it is over.
   */
  lemma {:induction false} SentOutGoes(
    w: World, e: Happening, es: seq<Happening>, exitMs: nat, punctual: bool, u: Toast, t: Toast)
    requires Inv(w, punctual) && Possible(w, e, punctual) && SentOut(w, e, exitMs, u, t)
    requires T.Legal(Next(w, e, exitMs), es, exitMs, punctual)
    ensures GoesOnTime(T.Run(Next(w, e, exitMs), es, exitMs, punctual), t.id, w.timed.clock.now, exitMs, punctual)
  {
    SentIsGoing(w, e, exitMs, punctual, u, t);
    RunGoesOnTime(Next(w, e, exitMs), es, exitMs, t.id, w.timed.clock.now, punctual);
  }

  lemma {:induction false} RunGoesOnTime(
    w: World, es: seq<Happening>, exitMs: nat, id: Id, from: int, punctual: bool)
    requires IsGoing(w, id, from, exitMs, punctual) && T.Legal(w, es, exitMs, punctual)
    ensures GoesOnTime(T.Run(w, es, exitMs, punctual), id, from, exitMs, punctual)
  {
    RunGoes(w, es, exitMs, id, from + exitMs, punctual);
  }

  lemma SentIsGoing(w: World, e: Happening, exitMs: nat, punctual: bool, u: Toast, t: Toast)
    requires Inv(w, punctual) && Possible(w, e, punctual) && SentOut(w, e, exitMs, u, t)
    ensures IsGoing(Next(w, e, exitMs), t.id, w.timed.clock.now, exitMs, punctual)
  {
    StepKeeps(w, e, exitMs, punctual);
    HappeningSends(w, e, exitMs, punctual, u, t);
    StartsGoing(w, e, exitMs, punctual, u, t);
  }

  lemma StartsGoing(w: World, e: Happening, exitMs: nat, punctual: bool, u: Toast, t: Toast)
    requires Inv(w, punctual) && Possible(w, e, punctual) && SentOut(w, e, exitMs, u, t)
    requires Goes(Next(w, e, exitMs).timed.clock, t.id, w.timed.clock.now + exitMs) && Inv(Next(w, e, exitMs), punctual)
    ensures GoneAt(Next(w, e, exitMs), t.id, w.timed.clock.now + exitMs, punctual)
  {
    var n := Next(w, e, exitMs);
    forall v | v in n.stack.toasts && v.id == t.id ensures v == t { IdsOnce(n.stack.toasts, v, t); }
    assert Shown(n.stack.toasts, t.id);
    if e.Click? || e.Receive? || e.Activated? || e.Fire? {
      var c := w.timed.clock;
      var d := if e.Click? then Disarmed(c, e.id) else if e.Fire? then c.(alarms := c.alarms - {e.handle}) else c;
      EffectKeepsTime(d, n.stack.toasts, exitMs);
    } else {
      IdsOnce(w.stack.toasts, t, u);
    }
  }

  // ---- Nothing is left of a card that is gone ----

  ghost predicate NoOrphans(w: World) {
    forall id :: id in w.timed.clock.timers ==> Shown(w.stack.toasts, id)
  }

  lemma StepLeavesNone(w: World, e: Happening, exitMs: nat)
    requires Possible(w, e, false) && NoOrphans(w)
    ensures NoOrphans(Next(w, e, exitMs))
  {
  }

  /** In every run only cards on the screen have a timer entry. */
  lemma {:induction false} EntriesAreOfCards(w: World, es: seq<Happening>, exitMs: nat, punctual: bool)
    requires NoOrphans(w) && T.Legal(w, es, exitMs, punctual)
    ensures NoOrphans(T.Run(w, es, exitMs, punctual))
    decreases es
  {
    if es != [] {
      StepLeavesNone(w, es[0], exitMs);
      EntriesAreOfCards(Next(w, es[0], exitMs), es[1..], exitMs, punctual);
    }
  }
}
