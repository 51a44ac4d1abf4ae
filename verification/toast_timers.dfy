/**
 The lifetime timers of the toast cards (dashboard/src/components/CriticalToastStack.jsx:172-229,
 270-293): one entry per card, browser timeouts behind it, hover pauses, bumps and activations re-arm.
 */
module ToastTimers {
  import opened Incidents
  import opened LiveFeed
  import opened ToastStack

  const FALLBACK_LIFETIME_MS: nat := 15000
  const ACTIVATED_LIFETIME_MS: nat := 2000

  /** The 300 ms of the exit animation, or 0 with reduced motion. */
  const EXIT_DURATION_MS: nat := 300

  function TargetMs(hasIncident: bool): nat {
    if hasIncident then ACTIVATED_LIFETIME_MS else FALLBACK_LIFETIME_MS
  }

  /** A pending browser timeout: expiry or removal of one card. */
  datatype Alarm = Alarm(id: Id, due: int, removal: bool)

  /** `remainingMs` is only set while the card is paused. */
  datatype Entry = Entry(
    expireTimer: Option<nat>, removeTimer: Option<nat>, expireAt: int, remainingMs: Option<int>,
    bumpToken: nat, hadIncident: bool)

  datatype Clockwork = Clockwork(now: int, next: nat, alarms: map<nat, Alarm>, timers: map<Id, Entry>)

  function Armed(c: Clockwork, id: Id, delay: int, removal: bool): Clockwork {
    c.(alarms := c.alarms[c.next := Alarm(id, c.now + delay, removal)], next := c.next + 1)
  }

  function Cleared(c: Clockwork, handle: Option<nat>): Clockwork {
    if handle.Some? then c.(alarms := c.alarms - {handle.value}) else c
  }

  /** One turn of the effect's loop. */
  function SyncToast(c: Clockwork, t: Toast, exitMs: nat): Clockwork {
    var known := t.id in c.timers;
    var existing := if known then c.timers[t.id] else Entry(None, None, 0, None, 0, false);
    var hasIncident := t.incidentId.Some?;
    var targetMs := TargetMs(hasIncident);
    if t.exiting.Some? then
      if existing.removeTimer.Some? then c
      else
        var armed := Armed(Cleared(c, existing.expireTimer), t.id, exitMs, true);
        armed.(timers := c.timers[t.id := existing.(expireTimer := None, removeTimer := Some(c.next))])
    else if !known then
      Armed(c, t.id, targetMs, false).(
        timers := c.timers[t.id := Entry(Some(c.next), None, c.now + targetMs, None, t.bumpToken, hasIncident)])
    else if existing.hadIncident != hasIncident || existing.bumpToken != t.bumpToken then
      var wasPaused := existing.expireTimer.None? && existing.remainingMs.Some?;
      var phase := existing.(bumpToken := t.bumpToken, hadIncident := hasIncident);
      if wasPaused then c.(timers := c.timers[t.id := phase.(remainingMs := Some(targetMs))])
      else
        Armed(Cleared(c, existing.expireTimer), t.id, targetMs, false).(
          timers := c.timers[t.id := phase.(expireTimer := Some(c.next), expireAt := c.now + targetMs,
                                            remainingMs := None)])
    else c
  }

  function SyncToasts(c: Clockwork, toasts: seq<Toast>, exitMs: nat): Clockwork
    decreases toasts
  {
    if toasts == [] then c else SyncToasts(SyncToast(c, toasts[0], exitMs), toasts[1..], exitMs)
  }

  predicate Shown(toasts: seq<Toast>, id: Id) {
    exists t :: t in toasts && t.id == id
  }

  /** The whole effect: every card in turn, then the entries of cards that are gone are dropped. */
  function Synced(c: Clockwork, toasts: seq<Toast>, exitMs: nat): Clockwork {
    var all := SyncToasts(c, toasts, exitMs);
    all.(timers := map id | id in all.timers && Shown(toasts, id) :: all.timers[id])
  }

  function Paused(c: Clockwork, id: Id): Clockwork {
    if id !in c.timers || c.timers[id].expireTimer.None? then c
    else
      var t := c.timers[id];
      var rest := if t.expireAt > c.now then t.expireAt - c.now else 0;
      Cleared(c, t.expireTimer).(timers := c.timers[id := t.(expireTimer := None, remainingMs := Some(rest))])
  }

  function Resumed(c: Clockwork, id: Id): Clockwork {
    if id !in c.timers || c.timers[id].expireTimer.Some? || c.timers[id].remainingMs.None? then c
    else
      var t := c.timers[id];
      Armed(c, id, t.remainingMs.value, false).(
        timers := c.timers[id := t.(expireTimer := Some(c.next), expireAt := c.now + t.remainingMs.value,
                                    remainingMs := None)])
  }

  function Disarmed(c: Clockwork, id: Id): Clockwork {
    if id in c.timers then Cleared(c, c.timers[id].expireTimer) else c
  }

  /** The timer table of the component. */
  class TimerTable {
    const exitMs: nat
    var now: int
    var next: nat
    var alarms: map<nat, Alarm>
    var timers: map<Id, Entry>

    ghost function State(): Clockwork
      reads this
    {
      Clockwork(now, next, alarms, timers)
    }

    constructor (now: int, reducedMotion: bool)
      ensures State() == Clockwork(now, 0, map[], map[])
      ensures exitMs == if reducedMotion then 0 else 300
    {
      this.now, next, alarms, timers := now, 0, map[], map[];
      exitMs := if reducedMotion then 0 else EXIT_DURATION_MS;
    }

    method SetTimeout(id: Id, delay: int, removal: bool) returns (handle: nat)
      modifies this`alarms, this`next
      ensures State() == Armed(old(State()), id, delay, removal) && handle == old(next)
    {
      handle := next;
      alarms := alarms[handle := Alarm(id, now + delay, removal)];
      next := next + 1;
    }

    method ClearTimeout(handle: Option<nat>)
      modifies this`alarms
      ensures State() == Cleared(old(State()), handle)
    {
      if handle.Some? { alarms := alarms - {handle.value}; }
    }

    method SyncOne(t: Toast)
      modifies this
      ensures State() == SyncToast(old(State()), t, exitMs)
    {
      var known := t.id in timers;
      if t.exiting.Some? {
        var existing := if known then timers[t.id] else Entry(None, None, 0, None, 0, false);
        if existing.removeTimer.None? {
          ClearTimeout(existing.expireTimer);
          var removeTimer := SetTimeout(t.id, exitMs, true);
          timers := timers[t.id := existing.(expireTimer := None, removeTimer := Some(removeTimer))];
        }
        return;
      }
      var hasIncident := t.incidentId.Some?;
      var targetMs := TargetMs(hasIncident);
      if !known {
        var expireTimer := SetTimeout(t.id, targetMs, false);
        timers := timers[t.id := Entry(Some(expireTimer), None, now + targetMs, None, t.bumpToken, hasIncident)];
        return;
      }
      var existing := timers[t.id];
      if existing.hadIncident != hasIncident || existing.bumpToken != t.bumpToken {
        var wasPaused := existing.expireTimer.None? && existing.remainingMs.Some?;
        ClearTimeout(existing.expireTimer);
        if wasPaused {
          timers := timers[t.id := existing.(expireTimer := None, remainingMs := Some(targetMs),
                                             bumpToken := t.bumpToken, hadIncident := hasIncident)];
        } else {
          var expireTimer := SetTimeout(t.id, targetMs, false);
          timers := timers[t.id := existing.(expireTimer := Some(expireTimer), expireAt := now + targetMs,
                                             remainingMs := None, bumpToken := t.bumpToken,
                                             hadIncident := hasIncident)];
        }
      }
    }

    method Sync(toasts: seq<Toast>)
      modifies this
      ensures State() == Synced(old(State()), toasts, exitMs)
    {
      var rest := toasts;
      while rest != []
        invariant SyncToasts(State(), rest, exitMs) == SyncToasts(old(State()), toasts, exitMs)
        decreases |rest|
      {
        SyncOne(rest[0]);
        rest := rest[1..];
      }
      timers := map id | id in timers && Shown(toasts, id) :: timers[id];
    }

    method Pause(id: Id)
      modifies this
      ensures State() == Paused(old(State()), id)
    {
      if id !in timers || timers[id].expireTimer.None? { return; }
      var t := timers[id];
      ClearTimeout(t.expireTimer);
      var rest := if t.expireAt > now then t.expireAt - now else 0;
      timers := timers[id := t.(expireTimer := None, remainingMs := Some(rest))];
    }

    method Resume(id: Id)
      modifies this
      ensures State() == Resumed(old(State()), id)
    {
      if id !in timers || timers[id].expireTimer.Some? || timers[id].remainingMs.None? { return; }
      var t := timers[id];
      var remaining := t.remainingMs.value;
      var expireTimer := SetTimeout(id, remaining, false);
      timers := timers[id := t.(expireTimer := Some(expireTimer), expireAt := now + remaining, remainingMs := None)];
    }
  }

  // ---- What one entry promises ----

  /** Handles are never reused, and an entry's expiry handle names its own expiry or nothing. */
  ghost predicate ClockOk(c: Clockwork) {
    && (forall h :: h in c.alarms ==> h < c.next)
    && (forall id :: id in c.timers && c.timers[id].expireTimer.Some? ==>
          var h := c.timers[id].expireTimer.value;
          h < c.next && (h in c.alarms ==> c.alarms[h].id == id && !c.alarms[h].removal))
  }

  /** The expiry alarms pending for a card. */
  ghost predicate OnlyAlarm(c: Clockwork, id: Id, handle: Option<nat>) {
    forall h :: h in c.alarms && c.alarms[h].id == id && !c.alarms[h].removal ==> handle == Some(h)
  }

  /**
   A live card's entry: paused exactly while hovered, its one alarm due when the rest of its target has
   run un-hovered. `ran` is the un-hovered time since the last re-arm; late timers may only add to it.
   */
  ghost predicate Keeps(c: Clockwork, id: Id, hovered: bool, ran: int, punctual: bool) {
    && id in c.timers && c.timers[id].removeTimer.None?
    && OnlyAlarm(c, id, c.timers[id].expireTimer)
    && (forall h :: h in c.alarms && c.alarms[h].id == id ==> !c.alarms[h].removal)
    && ran >= 0
    && var e, target := c.timers[id], TargetMs(c.timers[id].hadIncident);
       if hovered then
         && e.expireTimer.None? && e.remainingMs.Some?
         && e.remainingMs.value >= 0 && e.remainingMs.value + ran >= target
         && (punctual ==> e.remainingMs.value + ran == target)
       else
         && e.expireTimer.Some? && e.expireTimer.value in c.alarms
         && c.alarms[e.expireTimer.value] == Alarm(id, e.expireAt, false)
         && e.expireAt - c.now + ran >= target
         && (punctual ==> e.expireAt - c.now + ran == target && e.expireAt >= c.now)
  }

  /** A leaving card has its removal on the way. */
  ghost predicate Leaves(c: Clockwork, id: Id) {
    && id in c.timers && c.timers[id].removeTimer.Some?
    && c.timers[id].removeTimer.value in c.alarms
    && c.alarms[c.timers[id].removeTimer.value].id == id && c.alarms[c.timers[id].removeTimer.value].removal
  }

  /** Two clockworks that look the same to one card. */
  ghost predicate SameFor(a: Clockwork, b: Clockwork, id: Id) {
    && a.now == b.now
    && (id in a.timers <==> id in b.timers) && (id in a.timers ==> a.timers[id] == b.timers[id])
    && (forall h :: h in a.alarms && a.alarms[h].id == id ==> h in b.alarms && b.alarms[h] == a.alarms[h])
    && (forall h :: h in b.alarms && b.alarms[h].id == id ==> h in a.alarms && a.alarms[h] == b.alarms[h])
  }

  // ---- The effect ----

  /** Whether the effect starts the lifetime of this card anew. */
  predicate Rearms(c: Clockwork, t: Toast) {
    && IsActive(t)
    && (|| t.id !in c.timers || c.timers[t.id].hadIncident != t.incidentId.Some?
        || c.timers[t.id].bumpToken != t.bumpToken)
  }

  /** The effect with the un-hovered times beside it. */
  datatype Timed = Timed(clock: Clockwork, ran: map<Id, int>)

  /** One turn of the effect. */
  function Turn(s: Timed, t: Toast, exitMs: nat): Timed {
    Timed(SyncToast(s.clock, t, exitMs), if Rearms(s.clock, t) then s.ran[t.id := 0] else s.ran)
  }

  function SyncTimed(s: Timed, toasts: seq<Toast>, exitMs: nat): (r: Timed)
    ensures r.clock == SyncToasts(s.clock, toasts, exitMs)
    decreases toasts
  {
    if toasts == [] then s else SyncTimed(Turn(s, toasts[0], exitMs), toasts[1..], exitMs)
  }

  lemma SyncIsLocal(c: Clockwork, t: Toast, exitMs: nat)
    requires ClockOk(c)
    ensures ClockOk(SyncToast(c, t, exitMs))
    ensures forall id :: id != t.id ==> SameFor(c, SyncToast(c, t, exitMs), id)
  {
    SyncKeepsClock(c, t, exitMs);
  }

  lemma SyncKeepsClock(c: Clockwork, t: Toast, exitMs: nat)
    requires ClockOk(c)
    ensures ClockOk(SyncToast(c, t, exitMs))
  {
  }

  ghost predicate Ready(s: Timed, hovered: set<Id>, t: Toast, punctual: bool) {
    if IsActive(t) then
      || (&& t.id !in s.clock.timers && t.id !in hovered
          && forall h :: h in s.clock.alarms ==> s.clock.alarms[h].id != t.id)
      || (t.id in s.ran && Keeps(s.clock, t.id, t.id in hovered, s.ran[t.id], punctual))
    else t.id in s.clock.timers && s.clock.timers[t.id].removeTimer.Some? ==> Leaves(s.clock, t.id)
  }

  ghost predicate Settled(s: Timed, hovered: set<Id>, t: Toast, punctual: bool) {
    if IsActive(t) then
      && t.id in s.ran && Keeps(s.clock, t.id, t.id in hovered, s.ran[t.id], punctual)
      && s.clock.timers[t.id].bumpToken == t.bumpToken && s.clock.timers[t.id].hadIncident == t.incidentId.Some?
    else Leaves(s.clock, t.id)
  }

  lemma SyncSettles(s: Timed, hovered: set<Id>, t: Toast, exitMs: nat, punctual: bool)
    requires ClockOk(s.clock) && Ready(s, hovered, t, punctual)
    ensures Settled(Turn(s, t, exitMs), hovered, t, punctual)
  {
  }

  lemma Undisturbed(a: Timed, b: Timed, hovered: set<Id>, t: Toast, punctual: bool)
    requires SameFor(a.clock, b.clock, t.id)
    requires (t.id in a.ran <==> t.id in b.ran) && (t.id in a.ran ==> a.ran[t.id] == b.ran[t.id])
    ensures Ready(a, hovered, t, punctual) ==> Ready(b, hovered, t, punctual)
    ensures Settled(a, hovered, t, punctual) ==> Settled(b, hovered, t, punctual)
  {
  }

  ghost predicate SameBut(a: Timed, b: Timed, toasts: seq<Toast>) {
    forall id :: !Shown(toasts, id) ==>
      SameFor(a.clock, b.clock, id) && (id in a.ran <==> id in b.ran) && (id in a.ran ==> a.ran[id] == b.ran[id])
  }

  lemma {:induction false} SyncAll(s: Timed, hovered: set<Id>, toasts: seq<Toast>, exitMs: nat, punctual: bool)
    requires ClockOk(s.clock) && DistinctToasts(toasts)
    requires forall t :: t in toasts ==> Ready(s, hovered, t, punctual)
    ensures ClockOk(SyncTimed(s, toasts, exitMs).clock)
    ensures forall t :: t in toasts ==> Settled(SyncTimed(s, toasts, exitMs), hovered, t, punctual)
    ensures SameBut(s, SyncTimed(s, toasts, exitMs), toasts)
    decreases toasts
  {
    if toasts != [] {
      var t, rest := toasts[0], toasts[1..];
      var s1 := Turn(s, t, exitMs);
      var end := SyncTimed(s1, rest, exitMs);
      SyncIsLocal(s.clock, t, exitMs);
      SyncSettles(s, hovered, t, exitMs, punctual);
      forall u | u in rest ensures Ready(s1, hovered, u, punctual) {
        Undisturbed(s, s1, hovered, u, punctual);
      }
      SyncAll(s1, hovered, rest, exitMs, punctual);
      assert !Shown(rest, t.id);
      Undisturbed(s1, end, hovered, t, punctual);
      SameChain(s, s1, end, t, rest);
      assert toasts == [t] + rest;
    }
  }

  lemma SameChain(a: Timed, b: Timed, c: Timed, t: Toast, rest: seq<Toast>)
    requires forall id :: id != t.id ==> SameFor(a.clock, b.clock, id)
    requires forall id :: id != t.id ==> (id in a.ran <==> id in b.ran) && (id in a.ran ==> a.ran[id] == b.ran[id])
    requires SameBut(b, c, rest)
    ensures SameBut(a, c, [t] + rest)
  {
    forall id | !Shown([t] + rest, id)
      ensures SameFor(a.clock, c.clock, id) && (id in a.ran <==> id in c.ran)
      ensures (id in a.ran ==> a.ran[id] == c.ran[id])
    {
      assert t in [t] + rest;
      assert forall u :: u in rest ==> u in [t] + rest;
      assert !Shown(rest, id);
      SameTwice(a.clock, b.clock, c.clock, id);
    }
  }

  lemma SameTwice(a: Clockwork, b: Clockwork, c: Clockwork, id: Id)
    requires SameFor(a, b, id) && SameFor(b, c, id)
    ensures SameFor(a, c, id)
  {
  }

  // ---- Runs ----

  datatype World = World(timed: Timed, stack: Stack, hovered: set<Id>)

  datatype Happening =
    | Advance(ms: nat)
    | Enter(id: Id)
    | Leave(id: Id)
    | Click(id: Id)
    | Receive(batch: seq<Event>)
    | Activated(id: Id, incident: string)
    | Fire(handle: nat)

  /** With punctual timers the clock never passes a pending timeout. */
  predicate Possible(w: World, e: Happening, punctual: bool) {
    var c := w.timed.clock;
    match e
    case Advance(ms) => punctual ==> forall h :: h in c.alarms ==> c.now + ms <= c.alarms[h].due
    case Enter(id) => Shown(w.stack.toasts, id)
    case Receive(batch) =>
      && (forall e :: e in batch ==> e.id !in w.stack.seen)
      && forall i, j :: 0 <= i < j < |batch| ==> batch[i].id != batch[j].id
    case Fire(h) => h in c.alarms && c.alarms[h].due <= c.now
    case _ => true
  }

  /** The toasts change and the effect runs, once, on what they have become. */
  function Rendered(w: World, clock: Clockwork, stack: Stack, exitMs: nat): World {
    var timed := SyncTimed(w.timed.(clock := clock), stack.toasts, exitMs);
    w.(stack := stack, timed := timed.(clock := Synced(clock, stack.toasts, exitMs)))
  }

  function Next(w: World, e: Happening, exitMs: nat): World
    requires Possible(w, e, false)
  {
    var c := w.timed.clock;
    match e
    case Advance(ms) =>
      w.(timed := Timed(c.(now := c.now + ms),
                        map id | id in w.timed.ran ::
                          if id in w.hovered then w.timed.ran[id] else w.timed.ran[id] + ms))
    case Enter(id) => w.(hovered := w.hovered + {id}, timed := w.timed.(clock := Paused(c, id)))
    case Leave(id) => w.(hovered := w.hovered - {id}, timed := w.timed.(clock := Resumed(c, id)))
    case Click(id) => Rendered(w, Disarmed(c, id), Act(w.stack, Exit(id, Dismiss)), exitMs)
    case Receive(batch) => Rendered(w, c, ToastStack.Run(w.stack, Takes(batch)), exitMs)
    case Activated(id, incident) => Rendered(w, c, Act(w.stack, ToastStack.Activate(id, incident)), exitMs)
    case Fire(h) =>
      var alarm, rung := c.alarms[h], c.(alarms := c.alarms - {h});
      Rendered(w, rung, Act(w.stack, if alarm.removal then Remove(alarm.id) else Exit(alarm.id, Expire)), exitMs)
  }

  ghost predicate Inv(w: World, punctual: bool) {
    && ClockOk(w.timed.clock) && StackInv(w.stack)
    && (forall t :: t in w.stack.toasts ==> Settled(w.timed, w.hovered, t, punctual))
    && (forall h :: h in w.timed.clock.alarms ==> w.timed.clock.alarms[h].id in w.stack.seen)
    && (forall id :: id in w.timed.clock.timers ==> id in w.stack.seen)
    && w.hovered <= w.stack.seen
  }

  /** Every card of the new stack is new itself or goes back to a card that was there, active if it is active. */
  lemma CardsAfterTake(s: Stack, e: Event, t: Toast)
    requires StackInv(s) && CanAct(s, Take(e)) && t in Act(s, Take(e)).toasts
    ensures (t.id == e.id && IsActive(t)) || exists u :: u in s.toasts && u.id == t.id && (IsActive(t) ==> IsActive(u))
  {
    ReduceOutcome(s.toasts, e);
    var r, n := Reduce(s.toasts, e), |s.toasts|;
    var i :| 0 <= i < |r| && r[i] == t;
    if i < n {
      assert s.toasts[i] in s.toasts;
      if |r| == n + 1 { assert r[..n][i] == t; }
    }
  }

  lemma CardsAfterExit(s: Stack, id: Id, reason: Reason, t: Toast)
    requires StackInv(s) && t in StartExit(s.toasts, id, reason)
    ensures exists u :: u in s.toasts && u.id == t.id && (IsActive(t) ==> IsActive(u))
  {
    StartExitAt(s.toasts, id, reason);
    SameTail(s.toasts, StartExit(s.toasts, id, reason));
  }

  lemma CardsComeFromCards(s: Stack, a: Action, t: Toast)
    requires StackInv(s) && CanAct(s, a) && t in Act(s, a).toasts
    ensures || (a.Take? && t.id == a.event.id && IsActive(t))
            || exists u :: u in s.toasts && u.id == t.id && (IsActive(t) ==> IsActive(u))
  {
    match a
    case Take(e) => CardsAfterTake(s, e, t);
    case Exit(id, reason) => CardsAfterExit(s, id, reason, t);
    case Activate(id, incident) =>
      BindAt(s.toasts, id, incident);
      SameTail(s.toasts, Bind(s.toasts, id, incident));
    case Remove(id) => DropKeeps(s.toasts, id);
  }

  /** Dropping the entries of cards that are gone does not disturb the others. */
  lemma PruneKeeps(s: Timed, hovered: set<Id>, toasts: seq<Toast>, punctual: bool)
    requires ClockOk(s.clock) && forall t :: t in toasts ==> Settled(s, hovered, t, punctual)
    ensures var c := s.clock.(timers := map id | id in s.clock.timers && Shown(toasts, id) :: s.clock.timers[id]);
            ClockOk(c) && forall t :: t in toasts ==> Settled(s.(clock := c), hovered, t, punctual)
  {
    var c := s.clock.(timers := map id | id in s.clock.timers && Shown(toasts, id) :: s.clock.timers[id]);
    forall t | t in toasts ensures Settled(s.(clock := c), hovered, t, punctual) {
      assert Shown(toasts, t.id);
      Undisturbed(s, s.(clock := c), hovered, t, punctual);
    }
  }

  /** Only ids the stack has seen have alarms and entries. */
  ghost predicate SeenOnly(c: Clockwork, seen: set<Id>) {
    && (forall h :: h in c.alarms ==> c.alarms[h].id in seen)
    && (forall id :: id in c.timers ==> id in seen)
  }

  lemma RenderKeeps(w: World, clock: Clockwork, stack: Stack, exitMs: nat, punctual: bool)
    requires StackInv(stack) && w.hovered <= w.stack.seen <= stack.seen
    requires ClockOk(clock) && SeenOnly(clock, w.stack.seen)
    requires forall t :: t in stack.toasts ==> Ready(w.timed.(clock := clock), w.hovered, t, punctual)
    ensures Inv(Rendered(w, clock, stack, exitMs), punctual)
  {
    var start := w.timed.(clock := clock);
    SyncAll(start, w.hovered, stack.toasts, exitMs, punctual);
    var end := SyncTimed(start, stack.toasts, exitMs);
    PruneKeeps(end, w.hovered, stack.toasts, punctual);
    SeenStays(start, end, stack);
  }

  lemma SeenStays(start: Timed, end: Timed, stack: Stack)
    requires StackInv(stack) && SameBut(start, end, stack.toasts)
    requires SeenOnly(start.clock, stack.seen)
    ensures SeenOnly(end.clock, stack.seen)
  {
    forall h | h in end.clock.alarms ensures end.clock.alarms[h].id in stack.seen {
      var id := end.clock.alarms[h].id;
      if !Shown(stack.toasts, id) { assert SameFor(start.clock, end.clock, id); }
    }
    forall id | id in end.clock.timers ensures id in stack.seen {
      if !Shown(stack.toasts, id) { assert SameFor(start.clock, end.clock, id); }
    }
  }

  /** After a batch every card is new, or goes back to a card that was there, active if it is active. */
  lemma {:induction false} CardsOfBatch(s: Stack, batch: seq<Event>, t: Toast)
    requires StackInv(s) && forall e :: e in batch ==> e.id !in s.seen
    requires forall i, j :: 0 <= i < j < |batch| ==> batch[i].id != batch[j].id
    requires t in ToastStack.Run(s, Takes(batch)).toasts
    ensures t.id !in s.seen || exists u :: u in s.toasts && u.id == t.id && (IsActive(t) ==> IsActive(u))
    decreases batch
  {
    if batch != [] {
      var e, rest := batch[0], batch[1..];
      var s1 := Act(s, Take(e));
      TakeKeeps(s, e);
      forall x | x in rest ensures x.id !in s1.seen {
        var k :| 0 <= k < |rest| && rest[k] == x;
        assert batch[k + 1] == x;
      }
      assert Takes(batch)[1..] == Takes(rest);
      CardsOfBatch(s1, rest, t);
      if t.id in s.seen {
        var v :| v in s1.toasts && v.id == t.id && (IsActive(t) ==> IsActive(v));
        CardsAfterTake(s, e, v);
      }
    }
  }

  lemma {:induction false} SeenGrows(s: Stack, batch: seq<Event>)
    ensures s.seen <= ToastStack.Run(s, Takes(batch)).seen
    decreases batch
  {
    if batch != [] {
      assert Takes(batch)[1..] == Takes(batch[1..]);
      SeenGrows(Act(s, Take(batch[0])), batch[1..]);
    }
  }

  lemma ReceiveKeeps(w: World, batch: seq<Event>, exitMs: nat, punctual: bool)
    requires Inv(w, punctual) && Possible(w, Receive(batch), false)
    ensures Inv(Next(w, Receive(batch), exitMs), punctual)
  {
    BatchRuns(w.stack, batch);
    SeenGrows(w.stack, batch);
    ReadyAfterBatch(w, batch, punctual);
    RenderKeeps(w, w.timed.clock, ToastStack.Run(w.stack, Takes(batch)), exitMs, punctual);
  }

  lemma ReadyAfterBatch(w: World, batch: seq<Event>, punctual: bool)
    requires Inv(w, punctual) && Possible(w, Receive(batch), false)
    ensures forall t :: t in ToastStack.Run(w.stack, Takes(batch)).toasts ==> Ready(w.timed, w.hovered, t, punctual)
  {
    forall t | t in ToastStack.Run(w.stack, Takes(batch)).toasts ensures Ready(w.timed, w.hovered, t, punctual) {
      CardsOfBatch(w.stack, batch, t);
      if t.id in w.stack.seen {
        var u :| u in w.stack.toasts && u.id == t.id && (IsActive(t) ==> IsActive(u));
        assert Settled(w.timed, w.hovered, u, punctual);
      }
    }
  }

  /** With the clock untouched every card of the new stack is ready for the effect. */
  lemma ReadyAfter(w: World, a: Action, punctual: bool)
    requires Inv(w, punctual) && CanAct(w.stack, a)
    ensures forall t :: t in Act(w.stack, a).toasts ==> Ready(w.timed, w.hovered, t, punctual)
  {
    forall t | t in Act(w.stack, a).toasts ensures Ready(w.timed, w.hovered, t, punctual) {
      CardsComeFromCards(w.stack, a, t);
      if exists u :: u in w.stack.toasts && u.id == t.id && (IsActive(t) ==> IsActive(u)) {
        var u :| u in w.stack.toasts && u.id == t.id && (IsActive(t) ==> IsActive(u));
        assert Settled(w.timed, w.hovered, u, punctual);
      }
    }
  }

  /** Losing an expiry timeout only matters to the card it belongs to. */
  lemma WithoutExpiry(c: Clockwork, h: nat, id: Id)
    requires ClockOk(c) && h in c.alarms && c.alarms[h].id == id && !c.alarms[h].removal
    ensures var d := c.(alarms := c.alarms - {h});
            && ClockOk(d) && (forall other :: other != id ==> SameFor(c, d, other))
            && (forall other :: Leaves(c, other) ==> Leaves(d, other))
  {
  }

  /** The card whose expiry timeout is gone is sent out in the same breath. */
  lemma ExitReady(w: World, clock: Clockwork, id: Id, reason: Reason, punctual: bool)
    requires Inv(w, punctual)
    requires forall other :: other != id ==> SameFor(w.timed.clock, clock, other)
    requires clock.timers == w.timed.clock.timers
    requires forall other :: Leaves(w.timed.clock, other) ==> Leaves(clock, other)
    ensures forall t :: t in Act(w.stack, Exit(id, reason)).toasts ==>
              Ready(w.timed.(clock := clock), w.hovered, t, punctual)
  {
    var toasts := w.stack.toasts;
    var out := StartExit(toasts, id, reason);
    StartExitAt(toasts, id, reason);
    forall t | t in out ensures Ready(w.timed.(clock := clock), w.hovered, t, punctual) {
      var i :| 0 <= i < |out| && out[i] == t;
      var u := toasts[i];
      assert Settled(w.timed, w.hovered, u, punctual);
      if u.id != id { Undisturbed(w.timed, w.timed.(clock := clock), w.hovered, u, punctual); }
    }
  }

  lemma ClickKeeps(w: World, id: Id, exitMs: nat, punctual: bool)
    requires Inv(w, punctual)
    ensures Inv(Next(w, Click(id), exitMs), punctual)
  {
    var c := w.timed.clock;
    var d := Disarmed(c, id);
    if id in c.timers && c.timers[id].expireTimer.Some? && c.timers[id].expireTimer.value in c.alarms {
      WithoutExpiry(c, c.timers[id].expireTimer.value, id);
    } else {
      assert d == c;
    }
    ExitReady(w, d, id, Dismiss, punctual);
    ActKeeps(w.stack, Exit(id, Dismiss));
    RenderKeeps(w, d, Act(w.stack, Exit(id, Dismiss)), exitMs, punctual);
  }

  lemma FireKeeps(w: World, h: nat, exitMs: nat, punctual: bool)
    requires Inv(w, punctual) && Possible(w, Fire(h), false)
    ensures Inv(Next(w, Fire(h), exitMs), punctual)
  {
    var c, alarm := w.timed.clock, w.timed.clock.alarms[h];
    var d := c.(alarms := c.alarms - {h});
    if alarm.removal {
      RemovalReady(w, h, punctual);
      ActKeeps(w.stack, Remove(alarm.id));
      RenderKeeps(w, d, Act(w.stack, Remove(alarm.id)), exitMs, punctual);
    } else {
      WithoutExpiry(c, h, alarm.id);
      ExitReady(w, d, alarm.id, Expire, punctual);
      ActKeeps(w.stack, Exit(alarm.id, Expire));
      RenderKeeps(w, d, Act(w.stack, Exit(alarm.id, Expire)), exitMs, punctual);
    }
  }

  /** A removal timeout belongs to a card on its way out, and takes nothing from the others. */
  lemma RemovalReady(w: World, h: nat, punctual: bool)
    requires Inv(w, punctual) && h in w.timed.clock.alarms && w.timed.clock.alarms[h].removal
    ensures var c := w.timed.clock;
            var d, id := c.(alarms := c.alarms - {h}), c.alarms[h].id;
            && CanAct(w.stack, Remove(id)) && ClockOk(d)
            && forall t :: t in Act(w.stack, Remove(id)).toasts ==> Ready(w.timed.(clock := d), w.hovered, t, punctual)
  {
    var c := w.timed.clock;
    var d, id := c.(alarms := c.alarms - {h}), c.alarms[h].id;
    forall t | t in w.stack.toasts && t.id == id ensures !IsActive(t) {
      assert Settled(w.timed, w.hovered, t, punctual);
    }
    DropKeeps(w.stack.toasts, id);
    forall t | t in Drop(w.stack.toasts, id) ensures Ready(w.timed.(clock := d), w.hovered, t, punctual) {
      assert Settled(w.timed, w.hovered, t, punctual);
      assert SameFor(c, d, t.id);
      Undisturbed(w.timed, w.timed.(clock := d), w.hovered, t, punctual);
    }
  }

  /** Hovering and leaving touch one card's entry. */
  lemma HoverKeeps(w: World, id: Id, hover: bool, punctual: bool)
    requires Inv(w, punctual) && (hover ==> Shown(w.stack.toasts, id))
    ensures Inv(Next(w, if hover then Enter(id) else Leave(id), 0), punctual)
  {
    var c := w.timed.clock;
    var d := if hover then Paused(c, id) else Resumed(c, id);
    var hovered := if hover then w.hovered + {id} else w.hovered - {id};
    HoverLocal(c, id);
    forall t | t in w.stack.toasts ensures Settled(w.timed.(clock := d), hovered, t, punctual) {
      assert Settled(w.timed, w.hovered, t, punctual);
      if t.id == id {
        HoverOne(w.timed, w.hovered, t, hover, punctual);
      } else {
        assert t.id in hovered <==> t.id in w.hovered;
        Undisturbed(w.timed, w.timed.(clock := d), hovered, t, punctual);
      }
    }
  }

  lemma HoverLocal(c: Clockwork, id: Id)
    requires ClockOk(c)
    ensures ClockOk(Paused(c, id)) && ClockOk(Resumed(c, id))
    ensures forall other :: other != id ==> SameFor(c, Paused(c, id), other) && SameFor(c, Resumed(c, id), other)
    ensures Paused(c, id).timers.Keys == c.timers.Keys && Resumed(c, id).timers.Keys == c.timers.Keys
    ensures forall h :: h in Paused(c, id).alarms ==> h in c.alarms && Paused(c, id).alarms[h] == c.alarms[h]
    ensures forall h :: h in Resumed(c, id).alarms ==>
              || (h in c.alarms && Resumed(c, id).alarms[h] == c.alarms[h])
              || (id in c.timers && Resumed(c, id).alarms[h].id == id)
  {
  }

  lemma HoverOne(s: Timed, hovered: set<Id>, t: Toast, hover: bool, punctual: bool)
    requires ClockOk(s.clock) && Settled(s, hovered, t, punctual)
    ensures Settled(s.(clock := if hover then Paused(s.clock, t.id) else Resumed(s.clock, t.id)),
                    if hover then hovered + {t.id} else hovered - {t.id}, t, punctual)
  {
  }

  lemma AdvanceKeeps(w: World, ms: nat, punctual: bool)
    requires Inv(w, punctual) && Possible(w, Advance(ms), punctual)
    ensures Inv(Next(w, Advance(ms), 0), punctual)
  {
    var w' := Next(w, Advance(ms), 0);
    forall t | t in w.stack.toasts ensures Settled(w'.timed, w.hovered, t, punctual) {
      assert Settled(w.timed, w.hovered, t, punctual);
    }
  }

  lemma StepKeeps(w: World, e: Happening, exitMs: nat, punctual: bool)
    requires Inv(w, punctual) && Possible(w, e, punctual)
    ensures Inv(Next(w, e, exitMs), punctual)
  {
    match e
    case Advance(ms) => AdvanceKeeps(w, ms, punctual);
    case Enter(id) => HoverKeeps(w, id, true, punctual);
    case Leave(id) => HoverKeeps(w, id, false, punctual);
    case Click(id) => ClickKeeps(w, id, exitMs, punctual);
    case Receive(batch) => ReceiveKeeps(w, batch, exitMs, punctual);
    case Activated(id, incident) =>
      ReadyAfter(w, ToastStack.Activate(id, incident), punctual);
      ActKeeps(w.stack, ToastStack.Activate(id, incident));
      RenderKeeps(w, w.timed.clock, Act(w.stack, ToastStack.Activate(id, incident)), exitMs, punctual);
    case Fire(h) => FireKeeps(w, h, exitMs, punctual);
  }

  ghost predicate Legal(w: World, es: seq<Happening>, exitMs: nat, punctual: bool)
    decreases es
  {
    es == [] || (Possible(w, es[0], punctual) && Legal(Next(w, es[0], exitMs), es[1..], exitMs, punctual))
  }

  ghost function Run(w: World, es: seq<Happening>, exitMs: nat, punctual: bool): World
    requires Legal(w, es, exitMs, punctual)
    decreases es
  {
    if es == [] then w else Run(Next(w, es[0], exitMs), es[1..], exitMs, punctual)
  }

  lemma {:induction false} AlwaysInv(w: World, es: seq<Happening>, exitMs: nat, punctual: bool)
    requires Inv(w, punctual) && Legal(w, es, exitMs, punctual)
    ensures Inv(Run(w, es, exitMs, punctual), punctual)
    decreases es
  {
    if es != [] {
      StepKeeps(w, es[0], exitMs, punctual);
      AlwaysInv(Next(w, es[0], exitMs), es[1..], exitMs, punctual);
    }
  }

  function Fresh(now: int): World {
    World(Timed(Clockwork(now, 0, map[], map[]), map[]), EMPTY_STACK, {})
  }

  lemma Reachable(now: int, es: seq<Happening>, exitMs: nat, punctual: bool)
    requires Legal(Fresh(now), es, exitMs, punctual)
    ensures Inv(Run(Fresh(now), es, exitMs, punctual), punctual)
  {
    AlwaysInv(Fresh(now), es, exitMs, punctual);
  }

  /** Timeout `h` may ring now and ends the display of the active card `t`. */
  ghost predicate Rings(w: World, h: nat, t: Toast, punctual: bool) {
    && Possible(w, Fire(h), punctual) && !w.timed.clock.alarms[h].removal
    && t in w.stack.toasts && IsActive(t) && t.id == w.timed.clock.alarms[h].id
  }

  /**
   The card is not hovered, and its un-hovered time since it was last re-armed has reached 15 seconds, or two
   with an incident bound to it.
   */
  ghost predicate OnTime(w: World, t: Toast, punctual: bool) {
    && t.id !in w.hovered && t.id in w.timed.ran
    && (t.incidentId.None? ==> w.timed.ran[t.id] >= 15000 && (punctual ==> w.timed.ran[t.id] == 15000))
    && (t.incidentId.Some? ==> w.timed.ran[t.id] >= 2000 && (punctual ==> w.timed.ran[t.id] == 2000))
  }

  lemma RingsOnTime(w: World, h: nat, t: Toast, punctual: bool)
    requires Inv(w, punctual) && Rings(w, h, t, punctual)
    ensures OnTime(w, t, punctual)
  {
    assert Settled(w.timed, w.hovered, t, punctual);
  }

  /**
   Pause-exact lifetime. When an expiry timeout of a live card rings, in any run of hovers, leaves,
   bumps, activations, clicks and clock steps, the card is not hovered and its un-hovered time since it
   was last re-armed has reached 15 seconds, two with an incident; with punctual timers it is exactly that.
   */
  lemma ExpiresOnTime(now: int, es: seq<Happening>, exitMs: nat, punctual: bool, h: nat, t: Toast)
    requires Legal(Fresh(now), es, exitMs, punctual)
    requires Rings(Run(Fresh(now), es, exitMs, punctual), h, t, punctual)
    ensures OnTime(Run(Fresh(now), es, exitMs, punctual), t, punctual)
  {
    Reachable(now, es, exitMs, punctual);
    RingsOnTime(Run(Fresh(now), es, exitMs, punctual), h, t, punctual);
  }

  /** When the expiry of a card is due by its un-hovered time. */
  function DueAt(s: Timed, t: Toast): int
    requires t.id in s.ran
  {
    s.clock.now + (if t.incidentId.Some? then 2000 else 15000) - s.ran[t.id]
  }

  ghost predicate NoTimeoutFor(c: Clockwork, id: Id) {
    forall h :: h in c.alarms ==> c.alarms[h].id != id
  }

  /** Timeout `h` is the only one of the card, ends its display, and is due at `due`. */
  ghost predicate OnlyExpiry(c: Clockwork, id: Id, h: nat, due: int) {
    && h in c.alarms && c.alarms[h] == Alarm(id, due, false)
    && forall other :: other in c.alarms && c.alarms[other].id == id ==> other == h
  }

  ghost predicate RingsOnce(c: Clockwork, id: Id, due: int) { exists h :: OnlyExpiry(c, id, h, due) }

  /** The card is paused, or its one timeout is due when its target is reached. */
  ghost predicate RunsToTarget(s: Timed, hovered: set<Id>, t: Toast) {
    && t.id in s.ran
    && if t.id in hovered then NoTimeoutFor(s.clock, t.id)
       else RingsOnce(s.clock, t.id, DueAt(s, t))
  }

  lemma PendingExpiry(w: World, t: Toast)
    requires Inv(w, true) && t in w.stack.toasts && IsActive(t)
    ensures RunsToTarget(w.timed, w.hovered, t)
  {
    var s := w.timed;
    assert Settled(s, w.hovered, t, true);
    if t.id !in w.hovered {
      assert OnlyExpiry(s.clock, t.id, s.clock.timers[t.id].expireTimer.value, DueAt(s, t));
    }
  }

  ghost predicate Displayed(w: World, t: Toast) { t in w.stack.toasts && IsActive(t) }

  ghost predicate WillRing(w: World, t: Toast) { RunsToTarget(w.timed, w.hovered, t) }

  /** And it does ring: a live card has exactly one timeout, due when its target is reached, and none while hovered. */
  lemma ExpiryIsPending(now: int, es: seq<Happening>, exitMs: nat, t: Toast)
    requires Legal(Fresh(now), es, exitMs, true) && Displayed(Run(Fresh(now), es, exitMs, true), t)
    ensures WillRing(Run(Fresh(now), es, exitMs, true), t)
  {
    Reachable(now, es, exitMs, true);
    PendingExpiry(Run(Fresh(now), es, exitMs, true), t);
  }

  // ---- A card starts its lifetime ----

  /** Nothing of the lifetime has run: the card is paused with all of it ahead, or its one timeout is due after it. */
  ghost predicate StartsAnew(s: Timed, hovered: set<Id>, t: Toast, lifetime: int) {
    && t.id in s.ran && s.ran[t.id] == 0 && t.id in s.clock.timers
    && if t.id in hovered then
         && NoTimeoutFor(s.clock, t.id) && s.clock.timers[t.id].expireTimer.None?
         && s.clock.timers[t.id].remainingMs == Some(lifetime)
       else RingsOnce(s.clock, t.id, s.clock.now + lifetime)
  }

  lemma TurnRearms(s: Timed, hovered: set<Id>, t: Toast, exitMs: nat, punctual: bool)
    requires ClockOk(s.clock) && Ready(s, hovered, t, punctual) && Rearms(s.clock, t)
    ensures StartsAnew(Turn(s, t, exitMs), hovered, t, if t.incidentId.Some? then 2000 else 15000)
  {
    var lifetime, r := if t.incidentId.Some? then 2000 else 15000, Turn(s, t, exitMs);
    if t.id !in hovered { assert OnlyExpiry(r.clock, t.id, s.clock.next, r.clock.now + lifetime); }
  }

  lemma StartStays(a: Timed, b: Timed, hovered: set<Id>, t: Toast, lifetime: int)
    requires StartsAnew(a, hovered, t, lifetime)
    requires SameFor(a.clock, b.clock, t.id) && t.id in b.ran && b.ran[t.id] == a.ran[t.id]
    ensures StartsAnew(b, hovered, t, lifetime)
  {
    if t.id !in hovered {
      var h :| OnlyExpiry(a.clock, t.id, h, a.clock.now + lifetime);
      assert OnlyExpiry(b.clock, t.id, h, b.clock.now + lifetime);
    }
  }

  /** The effect as a whole starts it, whatever it does for the other cards. */
  lemma {:induction false} EffectRearms(
    s: Timed, hovered: set<Id>, toasts: seq<Toast>, exitMs: nat, punctual: bool, t: Toast)
    requires ClockOk(s.clock) && DistinctToasts(toasts) && t in toasts
    requires (forall u :: u in toasts ==> Ready(s, hovered, u, punctual)) && Rearms(s.clock, t)
    ensures StartsAnew(SyncTimed(s, toasts, exitMs), hovered, t, if t.incidentId.Some? then 2000 else 15000)
    decreases toasts
  {
    var head, rest := toasts[0], toasts[1..];
    var s1 := Turn(s, head, exitMs);
    SyncIsLocal(s.clock, head, exitMs);
    forall u | u in rest ensures Ready(s1, hovered, u, punctual) { Undisturbed(s, s1, hovered, u, punctual); }
    if head == t {
      TurnRearms(s, hovered, t, exitMs, punctual);
      SyncAll(s1, hovered, rest, exitMs, punctual);
      assert !Shown(rest, t.id);
      StartStays(s1, SyncTimed(s1, rest, exitMs), hovered, t, if t.incidentId.Some? then 2000 else 15000);
    } else {
      assert t in rest && t.id != head.id;
      EffectRearms(s1, hovered, rest, exitMs, punctual, t);
    }
  }

  lemma RenderRearms(w: World, stack: Stack, exitMs: nat, punctual: bool, t: Toast)
    requires ClockOk(w.timed.clock) && DistinctToasts(stack.toasts)
    requires forall u :: u in stack.toasts ==> Ready(w.timed, w.hovered, u, punctual)
    requires t in stack.toasts && Rearms(w.timed.clock, t)
    ensures StartsAnew(Rendered(w, w.timed.clock, stack, exitMs).timed, w.hovered, t,
                       if t.incidentId.Some? then 2000 else 15000)
  {
    assert w.timed.(clock := w.timed.clock) == w.timed;
    EffectRearms(w.timed, w.hovered, stack.toasts, exitMs, punctual, t);
    var a, b := SyncTimed(w.timed, stack.toasts, exitMs), Rendered(w, w.timed.clock, stack, exitMs).timed;
    assert Shown(stack.toasts, t.id);
    StartStays(a, b, w.hovered, t, if t.incidentId.Some? then 2000 else 15000);
  }

  /** A batch or an activation has given the card another bump, or an incident. */
  ghost predicate Rearmed(w: World, e: Happening, exitMs: nat, u: Toast, t: Toast)
    requires Possible(w, e, false)
  {
    && (e.Receive? || e.Activated?) && Displayed(w, u) && Displayed(Next(w, e, exitMs), t) && u.id == t.id
    && (u.bumpToken != t.bumpToken || u.incidentId.Some? != t.incidentId.Some?)
  }

  lemma BatchRearms(w: World, batch: seq<Event>, exitMs: nat, punctual: bool, t: Toast)
    requires Inv(w, punctual) && Possible(w, Receive(batch), false)
    requires Displayed(Next(w, Receive(batch), exitMs), t) && Rearms(w.timed.clock, t)
    ensures StartsAnew(Next(w, Receive(batch), exitMs).timed, w.hovered, t, if t.incidentId.Some? then 2000 else 15000)
  {
    BatchRuns(w.stack, batch);
    ReadyAfterBatch(w, batch, punctual);
    RenderRearms(w, ToastStack.Run(w.stack, Takes(batch)), exitMs, punctual, t);
  }

  lemma HappeningRearms(w: World, e: Happening, exitMs: nat, punctual: bool, u: Toast, t: Toast)
    requires Inv(w, punctual) && Possible(w, e, false) && Rearmed(w, e, exitMs, u, t)
    ensures StartsAnew(Next(w, e, exitMs).timed, w.hovered, t, if t.incidentId.Some? then 2000 else 15000)
  {
    assert Settled(w.timed, w.hovered, u, punctual);
    if e.Receive? {
      BatchRearms(w, e.batch, exitMs, punctual, t);
    } else {
      var a := ToastStack.Activate(e.id, e.incident);
      ActKeeps(w.stack, a);
      ReadyAfter(w, a, punctual);
      RenderRearms(w, Act(w.stack, a), exitMs, punctual, t);
    }
  }

  lemma ResumesInFull(w: World, t: Toast, exitMs: nat, lifetime: int)
    requires StartsAnew(w.timed, w.hovered, t, lifetime) && t.id in w.hovered
    ensures var c := w.timed.clock;
            OnlyExpiry(Next(w, Leave(t.id), exitMs).timed.clock, t.id, c.next, c.now + lifetime)
  {
  }

  /**
   In any run, a bump or an activation of a hovered card leaves it paused with its full new lifetime ahead; when
   the pointer leaves, its one timeout is due after exactly that lifetime.
   */
  lemma ReArmedWhileHovered(now: int, es: seq<Happening>, exitMs: nat, punctual: bool, e: Happening, u: Toast, t: Toast)
    requires Legal(Fresh(now), es, exitMs, punctual)
    requires var w := Run(Fresh(now), es, exitMs, punctual);
             Possible(w, e, false) && Rearmed(w, e, exitMs, u, t) && t.id in w.hovered
    ensures var n, lifetime :=
              Next(Run(Fresh(now), es, exitMs, punctual), e, exitMs), if t.incidentId.Some? then 2000 else 15000;
            && StartsAnew(n.timed, n.hovered, t, lifetime)
            && var c := n.timed.clock;
               OnlyExpiry(Next(n, Leave(t.id), exitMs).timed.clock, t.id, c.next, c.now + lifetime)
  {
    var w := Run(Fresh(now), es, exitMs, punctual);
    Reachable(now, es, exitMs, punctual);
    HappeningRearms(w, e, exitMs, punctual, u, t);
    ResumesInFull(Next(w, e, exitMs), t, exitMs, if t.incidentId.Some? then 2000 else 15000);
  }

}
