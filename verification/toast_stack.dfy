/** The critical toast stack (dashboard/src/components/CriticalToastStack.jsx). */
module ToastStack {
  // Finding what is new in the queue, merging by group, evicting beyond five, leaving one by one.

  import opened Arithmetic
  import opened Incidents
  import opened LiveFeed

  const MAX_TOASTS: nat := 5

  datatype Reason = Expire | Dismiss | Forced

  datatype Toast = Toast(
    id: Id, event: Event, exiting: Option<Reason>, count: nat, groupKey: string, bumpToken: nat,
    incidentId: Option<string>)

  function GroupKeyFor(e: Event): string { e.source + "|" + e.message }

  /** The longer source holds a bar, and what follows it is taken for the front of the other message. */
  ghost predicate Lookalikes(a: Event, b: Event) {
    exists rest: string :: a.source == b.source + "|" + rest && b.message == rest + "|" + a.message
  }

  /** Two events are of one group exactly when source and message agree or a bar in a source makes them look alike. */
  lemma GroupsTold(a: Event, b: Event)
    ensures GroupKeyFor(a) == GroupKeyFor(b) <==>
              (a.source == b.source && a.message == b.message) || Lookalikes(a, b) || Lookalikes(b, a)
  {
    if GroupKeyFor(a) == GroupKeyFor(b) {
      if |a.source| >= |b.source| { SplitsAlike(a, b); } else { SplitsAlike(b, a); }
    }
    if Lookalikes(a, b) { JoinsAlike(a, b); }
    if Lookalikes(b, a) { JoinsAlike(b, a); }
  }

  lemma SplitsAlike(a: Event, b: Event)
    requires GroupKeyFor(a) == GroupKeyFor(b) && |a.source| >= |b.source|
    ensures (a.source == b.source && a.message == b.message) || Lookalikes(a, b)
  {
    var key, n, m := GroupKeyFor(a), |a.source|, |b.source|;
    assert key[..n] == a.source && key[n + 1..] == a.message;
    assert key[..m] == b.source && key[m + 1..] == b.message;
    if n > m {
      var rest := key[m + 1..n];
      assert key[m] == '|' && key[n] == '|';
      assert a.source == b.source + "|" + rest && b.message == rest + "|" + a.message;
    }
  }

  lemma JoinsAlike(a: Event, b: Event)
    requires Lookalikes(a, b)
    ensures GroupKeyFor(a) == GroupKeyFor(b)
  {
    var rest: string :| a.source == b.source + "|" + rest && b.message == rest + "|" + a.message;
    assert (b.source + "|" + rest) + "|" + a.message == b.source + "|" + (rest + "|" + a.message);
  }

  lemma BarIsIn(front: string, rest: string)
    ensures '|' in front + "|" + rest
  {
    assert (front + "|" + rest)[|front|] == '|';
  }

  /** For sources without a bar a group is a source and a message. */
  lemma PlainGroupsTold(a: Event, b: Event)
    requires '|' !in a.source && '|' !in b.source
    ensures GroupKeyFor(a) == GroupKeyFor(b) <==> a.source == b.source && a.message == b.message
  {
    GroupsTold(a, b);
    forall rest: string ensures a.source != b.source + "|" + rest && b.source != a.source + "|" + rest {
      BarIsIn(b.source, rest);
      BarIsIn(a.source, rest);
    }
  }

  // ---- What is new in the queue ----

  function IndexOfEvent(events: seq<Event>, id: Id): (k: int)
    ensures -1 <= k < |events|
    ensures k >= 0 ==> events[k].id == id
    ensures k < 0 ==> forall e :: e in events ==> e.id != id
  {
    if events == [] then -1
    else if events[0].id == id then 0
    else var k := IndexOfEvent(events[1..], id); if k < 0 then -1 else k + 1
  }

  function NewOnes(events: seq<Event>, last: Option<Id>): seq<Event> {
    var lastIdx := if last.Some? then IndexOfEvent(events, last.value) else -1;
    events[lastIdx + 1..]
  }

  /** The id the effect remembers. */
  function LastAfter(events: seq<Event>, last: Option<Id>): Option<Id> {
    if NewOnes(events, last) == [] then last else Some(events[|events| - 1].id)
  }

  // ---- The reducer ----

  predicate IsActive(t: Toast) { t.exiting.None? }

  function Active(toasts: seq<Toast>): (r: seq<Toast>)
    ensures forall t :: t in r <==> t in toasts && IsActive(t)
  {
    if toasts == [] then []
    else if IsActive(toasts[0]) then [toasts[0]] + Active(toasts[1..])
    else Active(toasts[1..])
  }

  /** Where the active toast of a group is, or -1. */
  function GroupIndex(toasts: seq<Toast>, key: string): (k: int)
    ensures -1 <= k < |toasts|
    ensures k >= 0 ==> IsActive(toasts[k]) && toasts[k].groupKey == key
    ensures k < 0 ==> forall t :: t in toasts && IsActive(t) ==> t.groupKey != key
  {
    if toasts == [] then -1
    else if IsActive(toasts[0]) && toasts[0].groupKey == key then 0
    else var k := GroupIndex(toasts[1..], key); if k < 0 then -1 else k + 1
  }

  function Bumped(t: Toast, e: Event): Toast {
    t.(event := e, count := t.count + 1, bumpToken := t.bumpToken + 1, incidentId := None)
  }

  /** `map` with a change on the toasts of one id. */
  function ForceOut(toasts: seq<Toast>, id: Id): (r: seq<Toast>)
    ensures |r| == |toasts|
  {
    if toasts == [] then []
    else [if toasts[0].id == id then toasts[0].(exiting := Some(Forced)) else toasts[0]] + ForceOut(toasts[1..], id)
  }

  function StartExit(toasts: seq<Toast>, id: Id, reason: Reason): (r: seq<Toast>)
    ensures |r| == |toasts|
  {
    if toasts == [] then []
    else [if toasts[0].id == id && IsActive(toasts[0]) then toasts[0].(exiting := Some(reason)) else toasts[0]]
         + StartExit(toasts[1..], id, reason)
  }

  function Bind(toasts: seq<Toast>, id: Id, incident: string): (r: seq<Toast>)
    ensures |r| == |toasts|
  {
    if toasts == [] then []
    else [if toasts[0].id == id then toasts[0].(incidentId := Some(incident)) else toasts[0]]
         + Bind(toasts[1..], id, incident)
  }

  function Drop(toasts: seq<Toast>, id: Id): seq<Toast> {
    if toasts == [] then []
    else if toasts[0].id == id then Drop(toasts[1..], id)
    else [toasts[0]] + Drop(toasts[1..], id)
  }

  function NewToast(e: Event): Toast { Toast(e.id, e, None, 1, GroupKeyFor(e), 0, None) }

  function Reduce(toasts: seq<Toast>, e: Event): seq<Toast> {
    var dup := GroupIndex(toasts, GroupKeyFor(e));
    if dup >= 0 then toasts[dup := Bumped(toasts[dup], e)]
    else
      var active := Active(toasts);
      (if |active| >= MAX_TOASTS then ForceOut(toasts, active[0].id) else toasts) + [NewToast(e)]
  }

  function ReduceAll(toasts: seq<Toast>, events: seq<Event>): seq<Toast>
    decreases events
  {
    if events == [] then toasts else ReduceAll(Reduce(toasts, events[0]), events[1..])
  }

  class CriticalToastStack {
    var toasts: seq<Toast>
    var lastProcessedIdRef: Option<Id>

    constructor ()
      ensures toasts == [] && lastProcessedIdRef == None
    {
      toasts, lastProcessedIdRef := [], None;
    }

    /** The queue effect: everything behind the last processed event goes through the reducer, once. */
    method Consume(events: seq<Event>)
      modifies this
      ensures toasts == ReduceAll(old(toasts), NewOnes(events, old(lastProcessedIdRef)))
      ensures lastProcessedIdRef == LastAfter(events, old(lastProcessedIdRef))
    {
      if events == [] { return; }
      var lastIdx := if lastProcessedIdRef.Some? then IndexOfEvent(events, lastProcessedIdRef.value) else -1;
      var newOnes := events[lastIdx + 1..];
      if newOnes == [] { return; }
      lastProcessedIdRef := Some(events[|events| - 1].id);
      var next, rest := toasts, newOnes;
      while rest != []
        invariant ReduceAll(next, rest) == ReduceAll(old(toasts), newOnes)
        decreases |rest|
      {
        var e := rest[0];
        rest := rest[1..];
        var dupIdx := GroupIndex(next, GroupKeyFor(e));
        if dupIdx != -1 {
          next := next[dupIdx := Bumped(next[dupIdx], e)];
          continue;
        }
        var active := Active(next);
        if |active| >= MAX_TOASTS {
          next := ForceOut(next, active[0].id);
        }
        next := next + [NewToast(e)];
      }
      toasts := next;
    }
  }

  // ---- Runs of the stack ----

  /** The stack with the ids it has seen, the events it consumed and the counts of the toasts it removed. */
  datatype Stack = Stack(toasts: seq<Toast>, seen: set<Id>, consumed: nat, retired: nat)

  datatype Action =
    | Take(event: Event)
    | Exit(id: Id, reason: Reason)
    | Activate(id: Id, incident: string)
    | Remove(id: Id)

  function Total(toasts: seq<Toast>): nat {
    if toasts == [] then 0 else toasts[0].count + Total(toasts[1..])
  }

  function CountsOf(toasts: seq<Toast>, id: Id): nat {
    if toasts == [] then 0 else (if toasts[0].id == id then toasts[0].count else 0) + CountsOf(toasts[1..], id)
  }

  /** An event is new to the stack; only a toast on its way out is removed. */
  predicate CanAct(s: Stack, a: Action) {
    match a
    case Take(e) => e.id !in s.seen
    case Remove(id) => forall t :: t in s.toasts && t.id == id ==> !IsActive(t)
    case _ => true
  }

  function Act(s: Stack, a: Action): Stack {
    match a
    case Take(e) => s.(toasts := Reduce(s.toasts, e), seen := s.seen + {e.id}, consumed := s.consumed + 1)
    case Exit(id, reason) => s.(toasts := StartExit(s.toasts, id, reason))
    case Activate(id, incident) => s.(toasts := Bind(s.toasts, id, incident))
    case Remove(id) => s.(toasts := Drop(s.toasts, id), retired := s.retired + CountsOf(s.toasts, id))
  }

  predicate DistinctToasts(toasts: seq<Toast>) {
    toasts == [] || ((forall t :: t in toasts[1..] ==> t.id != toasts[0].id) && DistinctToasts(toasts[1..]))
  }

  predicate DistinctGroups(toasts: seq<Toast>) {
    toasts == []
    || ((IsActive(toasts[0]) ==> forall t :: t in toasts[1..] && IsActive(t) ==> t.groupKey != toasts[0].groupKey)
        && DistinctGroups(toasts[1..]))
  }

  ghost predicate StackInv(s: Stack) {
    && DistinctToasts(s.toasts) && (forall t :: t in s.toasts ==> t.id in s.seen)
    && |Active(s.toasts)| <= MAX_TOASTS
    && DistinctGroups(s.toasts)
    && (forall t :: t in s.toasts ==> t.count >= 1 && t.groupKey == GroupKeyFor(t.event))
    && Total(s.toasts) + s.retired == s.consumed
  }

  // ---- Pointwise changes: leave, bind, evict ----

  /** `b` is `a` with nothing but exits begun and incidents bound. */
  ghost predicate OnlyStatus(a: seq<Toast>, b: seq<Toast>) {
    && |a| == |b|
    && forall i :: 0 <= i < |a| ==>
         && b[i].(exiting := None, incidentId := None) == a[i].(exiting := None, incidentId := None)
         && (IsActive(b[i]) ==> IsActive(a[i]))
  }

  lemma {:induction false} OnlyStatusKeeps(a: seq<Toast>, b: seq<Toast>)
    requires OnlyStatus(a, b)
    ensures DistinctToasts(a) ==> DistinctToasts(b)
    ensures DistinctGroups(a) ==> DistinctGroups(b)
    ensures Total(b) == Total(a) && |Active(b)| <= |Active(a)|
  {
    if a != [] {
      OnlyStatusKeeps(a[1..], b[1..]);
      SameTail(a, b);
    }
  }

  lemma SameTail(a: seq<Toast>, b: seq<Toast>)
    requires OnlyStatus(a, b)
    ensures forall t :: t in b ==> exists u :: u in a && u.id == t.id && u.groupKey == t.groupKey && (IsActive(t) ==>
              IsActive(u))
    ensures a != [] ==> forall t :: t in b[1..] ==>
              exists u :: u in a[1..] && u.id == t.id && u.groupKey == t.groupKey && (IsActive(t) ==> IsActive(u))
  {
    forall t | t in b
      ensures exists u :: u in a && u.id == t.id && u.groupKey == t.groupKey && (IsActive(t) ==> IsActive(u))
    {
      var i :| 0 <= i < |b| && b[i] == t;
      assert a[i] in a;
    }
    if a != [] {
      forall t | t in b[1..]
        ensures exists u :: u in a[1..] && u.id == t.id && u.groupKey == t.groupKey && (IsActive(t) ==> IsActive(u))
      {
        var i :| 0 <= i < |b[1..]| && b[1..][i] == t;
        assert a[1..][i] == a[i + 1] && b[i + 1] == t;
        assert a[1..][i] in a[1..];
      }
    }
  }

  lemma {:induction false} ForceOutAt(toasts: seq<Toast>, id: Id)
    ensures var r := ForceOut(toasts, id);
            forall i :: 0 <= i < |toasts| ==>
              r[i] == if toasts[i].id == id then toasts[i].(exiting := Some(Forced)) else toasts[i]
  {
    if toasts != [] {
      ForceOutAt(toasts[1..], id);
      assert forall i :: 0 < i < |toasts| ==> toasts[i] == toasts[1..][i - 1];
    }
  }

  lemma {:induction false} StartExitAt(toasts: seq<Toast>, id: Id, reason: Reason)
    ensures var r := StartExit(toasts, id, reason);
            forall i :: 0 <= i < |toasts| ==>
              r[i] == if toasts[i].id == id && IsActive(toasts[i])
                      then toasts[i].(exiting := Some(reason)) else toasts[i]
  {
    if toasts != [] {
      StartExitAt(toasts[1..], id, reason);
      assert forall i :: 0 < i < |toasts| ==> toasts[i] == toasts[1..][i - 1];
    }
  }

  lemma {:induction false} BindAt(toasts: seq<Toast>, id: Id, incident: string)
    ensures var r := Bind(toasts, id, incident);
            forall i :: 0 <= i < |toasts| ==>
              r[i] == if toasts[i].id == id then toasts[i].(incidentId := Some(incident)) else toasts[i]
  {
    if toasts != [] {
      BindAt(toasts[1..], id, incident);
      assert forall i :: 0 < i < |toasts| ==> toasts[i] == toasts[1..][i - 1];
    }
  }

  lemma {:induction false} DropKeeps(toasts: seq<Toast>, id: Id)
    ensures forall t :: t in Drop(toasts, id) <==> t in toasts && t.id != id
    ensures DistinctToasts(toasts) ==> DistinctToasts(Drop(toasts, id))
    ensures DistinctGroups(toasts) ==> DistinctGroups(Drop(toasts, id))
    ensures |Active(Drop(toasts, id))| <= |Active(toasts)|
    ensures Total(Drop(toasts, id)) + CountsOf(toasts, id) == Total(toasts)
  {
    if toasts != [] { DropKeeps(toasts[1..], id); }
  }

  // ---- The reducer ----

  lemma {:induction false} UpdateCounts(toasts: seq<Toast>, k: nat, t: Toast)
    requires k < |toasts| && IsActive(t) && IsActive(toasts[k])
    ensures |Active(toasts[k := t])| == |Active(toasts)|
    ensures Total(toasts[k := t]) == Total(toasts) - toasts[k].count + t.count
  {
    if k == 0 {
      assert toasts[k := t] == [t] + toasts[1..];
    } else {
      UpdateCounts(toasts[1..], k - 1, t);
      assert toasts[k := t] == [toasts[0]] + toasts[1..][k - 1 := t];
    }
  }

  lemma {:induction false} UpdateKeeps(toasts: seq<Toast>, k: nat, t: Toast)
    requires k < |toasts| && t.id == toasts[k].id && t.groupKey == toasts[k].groupKey && IsActive(t)
    requires IsActive(toasts[k])
    ensures DistinctToasts(toasts) ==> DistinctToasts(toasts[k := t])
    ensures DistinctGroups(toasts) ==> DistinctGroups(toasts[k := t])
    ensures forall u :: u in toasts[k := t] ==> u == t || u in toasts
  {
    if k == 0 {
      assert toasts[k := t] == [t] + toasts[1..];
    } else {
      UpdateKeeps(toasts[1..], k - 1, t);
      assert toasts[k := t] == [toasts[0]] + toasts[1..][k - 1 := t];
      assert toasts[k] in toasts[1..];
    }
  }

  predicate NoneActiveIn(toasts: seq<Toast>, key: string) {
    forall u :: u in toasts && IsActive(u) ==> u.groupKey != key
  }

  lemma {:induction false} AppendKeeps(toasts: seq<Toast>, t: Toast)
    requires IsActive(t)
    ensures DistinctToasts(toasts) && (forall u :: u in toasts ==> u.id != t.id) ==> DistinctToasts(toasts + [t])
    ensures DistinctGroups(toasts) && NoneActiveIn(toasts, t.groupKey) ==> DistinctGroups(toasts + [t])
    ensures |Active(toasts + [t])| == |Active(toasts)| + 1
    ensures Total(toasts + [t]) == Total(toasts) + t.count
  {
    if toasts != [] {
      AppendKeeps(toasts[1..], t);
      assert (toasts + [t])[1..] == toasts[1..] + [t];
    } else {
      assert [t][1..] == [];
    }
  }

  /** The position of the oldest active toast. */
  lemma {:induction false} OldestActive(toasts: seq<Toast>) returns (k: nat)
    requires Active(toasts) != []
    ensures k < |toasts| && toasts[k] == Active(toasts)[0] && forall i :: 0 <= i < k ==> !IsActive(toasts[i])
  {
    if IsActive(toasts[0]) {
      k := 0;
    } else {
      k := OldestActive(toasts[1..]);
      assert forall i :: 0 < i < |toasts| ==> toasts[i] == toasts[1..][i - 1];
      k := k + 1;
    }
  }

  lemma {:induction false} IdAt(toasts: seq<Toast>, i: nat, j: nat)
    requires DistinctToasts(toasts) && i < j < |toasts|
    ensures toasts[i].id != toasts[j].id
  {
    if i == 0 { assert toasts[j] == toasts[1..][j - 1]; }
    else { IdAt(toasts[1..], i - 1, j - 1); }
  }

  /** Evicting the oldest active toast leaves one active toast less. */
  lemma {:induction false} ForceOutCount(toasts: seq<Toast>, id: Id)
    requires DistinctToasts(toasts)
    ensures (exists t :: t in toasts && IsActive(t) && t.id == id) ==>
              |Active(ForceOut(toasts, id))| == |Active(toasts)| - 1
    ensures (forall t :: t in toasts ==> t.id != id) ==> ForceOut(toasts, id) == toasts
  {
    if toasts != [] {
      ForceOutCount(toasts[1..], id);
    }
  }

  /** The toast has taken one more event: it shows it, counts it, starts anew and is bound to no incident. */
  predicate HasTaken(before: Toast, after: Toast, e: Event) {
    && after.event == e && after.count == before.count + 1 && after.bumpToken == before.bumpToken + 1
    && after.incidentId.None? && after.id == before.id && after.groupKey == before.groupKey
    && after.exiting == before.exiting
  }

  /** Exactly the oldest active toast is sent out. */
  lemma EvictsOldest(toasts: seq<Toast>) returns (k: nat)
    requires DistinctToasts(toasts) && Active(toasts) != []
    ensures k < |toasts| && IsActive(toasts[k]) && forall i :: 0 <= i < k ==> !IsActive(toasts[i])
    ensures ForceOut(toasts, Active(toasts)[0].id) == toasts[k := toasts[k].(exiting := Some(Forced))]
  {
    k := OldestActive(toasts);
    var n, out := |toasts|, ForceOut(toasts, Active(toasts)[0].id);
    assert Active(toasts)[0] in Active(toasts);
    ForceOutAt(toasts, Active(toasts)[0].id);
    forall i | 0 <= i < n && i != k ensures toasts[i].id != toasts[k].id {
      IdAt(toasts, if i < k then i else k, if i < k then k else i);
    }
    assert out == toasts[k := toasts[k].(exiting := Some(Forced))];
  }

  /**
   What one event does. Same group on screen: that toast, and no other, takes the event. Otherwise a new toast
   is appended, and with five active ones exactly the oldest active one is sent out.
   */
  lemma ReduceOutcome(toasts: seq<Toast>, e: Event)
    requires DistinctToasts(toasts)
    ensures var r, n, key := Reduce(toasts, e), |toasts|, e.source + "|" + e.message;
            || (exists k :: 0 <= k < n && toasts[k].exiting.None? && toasts[k].groupKey == key && |r| == n
                  && HasTaken(toasts[k], r[k], e) && forall i :: 0 <= i < n && i != k ==> r[i] == toasts[i])
            || (&& (forall t :: t in toasts && t.exiting.None? ==> t.groupKey != key)
                && |r| == n + 1 && r[n] == Toast(e.id, e, None, 1, key, 0, None)
                && if |Active(toasts)| < 5 then r[..n] == toasts
                   else exists k ::
                     && 0 <= k < n && toasts[k].exiting.None? && (forall i :: 0 <= i < k ==> toasts[i].exiting.Some?)
                     && r[..n] == toasts[k := toasts[k].(exiting := Some(Forced))])
  {
    var n, active := |toasts|, Active(toasts);
    var dup := GroupIndex(toasts, GroupKeyFor(e));
    if dup >= 0 {
      assert HasTaken(toasts[dup], Reduce(toasts, e)[dup], e);
    } else {
      var r := Reduce(toasts, e);
      if |active| < MAX_TOASTS {
        assert r[..n] == toasts;
      } else {
        var k := EvictsOldest(toasts);
        var out := ForceOut(toasts, active[0].id);
        assert r[..n] == out;
      }
    }
  }

  lemma BumpKeeps(s: Stack, e: Event, k: nat)
    requires StackInv(s) && k < |s.toasts| && IsActive(s.toasts[k]) && s.toasts[k].groupKey == GroupKeyFor(e)
    ensures StackInv(Stack(s.toasts[k := Bumped(s.toasts[k], e)], s.seen + {e.id}, s.consumed + 1, s.retired))
  {
    assert s.toasts[k] in s.toasts;
    UpdateKeeps(s.toasts, k, Bumped(s.toasts[k], e));
    UpdateCounts(s.toasts, k, Bumped(s.toasts[k], e));
  }

  lemma AppendedKeeps(s: Stack, e: Event)
    requires StackInv(s) && e.id !in s.seen && |Active(s.toasts)| < MAX_TOASTS && NoneActiveIn(s.toasts, GroupKeyFor(e))
    ensures StackInv(Stack(s.toasts + [NewToast(e)], s.seen + {e.id}, s.consumed + 1, s.retired))
  {
    AppendKeeps(s.toasts, NewToast(e));
  }

  lemma StatusKeeps(s: Stack, b: seq<Toast>)
    requires StackInv(s) && OnlyStatus(s.toasts, b)
    ensures StackInv(s.(toasts := b))
    ensures forall key :: NoneActiveIn(s.toasts, key) ==> NoneActiveIn(b, key)
  {
    OnlyStatusKeeps(s.toasts, b);
    EvictedIn(s.toasts, b);
  }

  lemma EvictionMakesRoom(s: Stack)
    requires StackInv(s) && |Active(s.toasts)| >= MAX_TOASTS
    ensures var out := ForceOut(s.toasts, Active(s.toasts)[0].id);
            OnlyStatus(s.toasts, out) && |Active(out)| < MAX_TOASTS
  {
    var oldest := Active(s.toasts)[0];
    assert oldest in Active(s.toasts);
    ForceOutAt(s.toasts, oldest.id);
    ForceOutCount(s.toasts, oldest.id);
  }

  lemma TakeKeeps(s: Stack, e: Event)
    requires StackInv(s) && e.id !in s.seen
    ensures StackInv(Act(s, Take(e)))
  {
    var dup := GroupIndex(s.toasts, GroupKeyFor(e));
    if dup >= 0 {
      BumpKeeps(s, e, dup);
    } else if |Active(s.toasts)| >= MAX_TOASTS {
      EvictionMakesRoom(s);
      var out := ForceOut(s.toasts, Active(s.toasts)[0].id);
      StatusKeeps(s, out);
      AppendedKeeps(s.(toasts := out), e);
    } else {
      AppendedKeeps(s, e);
    }
  }

  lemma EvictedIn(a: seq<Toast>, b: seq<Toast>)
    requires OnlyStatus(a, b)
    ensures forall t :: t in b ==>
              exists u :: u in a && u.id == t.id && u.groupKey == t.groupKey && u.count == t.count && u.event == t.event
                          && (IsActive(t) ==> IsActive(u))
  {
    forall t | t in b
      ensures exists u :: u in a && u.id == t.id && u.groupKey == t.groupKey && u.count == t.count && u.event == t.event
                          && (IsActive(t) ==> IsActive(u))
    {
      var i :| 0 <= i < |b| && b[i] == t;
      assert a[i] in a;
      assert b[i].(exiting := None, incidentId := None) == a[i].(exiting := None, incidentId := None);
      assert a[i].id == t.id && a[i].groupKey == t.groupKey && a[i].count == t.count && a[i].event == t.event;
    }
  }

  lemma ActKeeps(s: Stack, a: Action)
    requires StackInv(s) && CanAct(s, a)
    ensures StackInv(Act(s, a))
  {
    match a
    case Take(e) => TakeKeeps(s, e);
    case Exit(id, reason) =>
      StartExitAt(s.toasts, id, reason);
      StatusKeeps(s, StartExit(s.toasts, id, reason));
    case Activate(id, incident) =>
      BindAt(s.toasts, id, incident);
      StatusKeeps(s, Bind(s.toasts, id, incident));
    case Remove(id) => RemoveKeeps(s, id);
  }

  lemma RemoveKeeps(s: Stack, id: Id)
    requires StackInv(s)
    ensures StackInv(Act(s, Remove(id)))
  {
    DropKeeps(s.toasts, id);
  }

  predicate Legal(s: Stack, actions: seq<Action>)
    decreases actions
  {
    actions == [] || (CanAct(s, actions[0]) && Legal(Act(s, actions[0]), actions[1..]))
  }

  function Run(s: Stack, actions: seq<Action>): Stack
    decreases actions
  {
    if actions == [] then s else Run(Act(s, actions[0]), actions[1..])
  }

  const EMPTY_STACK: Stack := Stack([], {}, 0, 0)

  lemma {:induction false} StackAlways(s: Stack, actions: seq<Action>)
    requires StackInv(s) && Legal(s, actions)
    ensures StackInv(Run(s, actions))
    decreases actions
  {
    if actions != [] {
      ActKeeps(s, actions[0]);
      StackAlways(Act(s, actions[0]), actions[1..]);
    }
  }

  /** At most five active toasts, one per group, and no event lost or counted twice, in every reachable stack. */
  lemma EveryReachableStack(actions: seq<Action>)
    requires Legal(EMPTY_STACK, actions)
    ensures StackInv(Run(EMPTY_STACK, actions))
  {
    StackAlways(EMPTY_STACK, actions);
  }

  /** A toast on its way out keeps its reason, event and count until it is gone for good. */
  ghost predicate Leaving(s: Stack, t: Toast) {
    && t.id in s.seen && !IsActive(t)
    && forall u :: u in s.toasts && u.id == t.id ==> u.exiting == t.exiting && u.event == t.event && u.count == t.count
  }

  lemma TakeLeaves(s: Stack, e: Event, t: Toast)
    requires DistinctToasts(s.toasts) && e.id !in s.seen && Leaving(s, t)
    ensures Leaving(Act(s, Take(e)), t)
  {
    ReduceOutcome(s.toasts, e);
    var r, n := Reduce(s.toasts, e), |s.toasts|;
    forall u | u in r && u.id == t.id
      ensures u.exiting == t.exiting && u.event == t.event && u.count == t.count
    {
      var i :| 0 <= i < |r| && r[i] == u;
      if i < n {
        assert s.toasts[i] in s.toasts;
        if |r| == n + 1 { assert r[..n][i] == u; }
      }
    }
  }

  lemma LeavingStep(s: Stack, a: Action, t: Toast)
    requires StackInv(s) && CanAct(s, a) && Leaving(s, t)
    ensures Leaving(Act(s, a), t)
  {
    match a
    case Take(e) => TakeLeaves(s, e, t);
    case Exit(id, reason) =>
      StartExitAt(s.toasts, id, reason);
      SameIdsSameFate(s.toasts, StartExit(s.toasts, id, reason), t);
    case Activate(id, incident) =>
      BindAt(s.toasts, id, incident);
      SameIdsSameFate(s.toasts, Bind(s.toasts, id, incident), t);
    case Remove(id) => DropKeeps(s.toasts, id);
  }

  lemma SameIdsSameFate(a: seq<Toast>, b: seq<Toast>, t: Toast)
    requires OnlyStatus(a, b) && !IsActive(t)
    requires forall i :: 0 <= i < |a| && !IsActive(a[i]) ==> b[i].exiting == a[i].exiting
    requires forall u :: u in a && u.id == t.id ==> u.exiting == t.exiting && u.event == t.event && u.count == t.count
    ensures forall u :: u in b && u.id == t.id ==> u.exiting == t.exiting && u.event == t.event && u.count == t.count
  {
    forall u | u in b && u.id == t.id ensures u.exiting == t.exiting && u.event == t.event && u.count == t.count {
      var i :| 0 <= i < |b| && b[i] == u;
      assert b[i].(exiting := None, incidentId := None) == a[i].(exiting := None, incidentId := None);
      assert a[i] in a && a[i].id == u.id && a[i].event == u.event && a[i].count == u.count;
    }
  }

  lemma {:induction false} ExitReasonIsFinal(s: Stack, actions: seq<Action>, t: Toast)
    requires StackInv(s) && Legal(s, actions) && Leaving(s, t)
    ensures Leaving(Run(s, actions), t)
    decreases actions
  {
    if actions != [] {
      ActKeeps(s, actions[0]);
      LeavingStep(s, actions[0], t);
      ExitReasonIsFinal(Act(s, actions[0]), actions[1..], t);
    }
  }

  // ---- What each action does ----

  lemma {:induction false} DropNone(toasts: seq<Toast>, id: Id)
    requires forall t :: t in toasts ==> t.id != id
    ensures Drop(toasts, id) == toasts
  {
    if toasts != [] { DropNone(toasts[1..], id); }
  }

  lemma {:induction false} DropAt(toasts: seq<Toast>, k: nat)
    requires DistinctToasts(toasts) && k < |toasts|
    ensures Drop(toasts, toasts[k].id) == toasts[..k] + toasts[k + 1..]
  {
    var id, rest := toasts[k].id, toasts[1..];
    if k == 0 {
      DropNone(rest, id);
    } else {
      IdAt(toasts, 0, k);
      DropAt(rest, k - 1);
      assert toasts[..k] + toasts[k + 1..] == [toasts[0]] + (rest[..k - 1] + rest[k..]);
    }
  }

  lemma RemoveOutcome(toasts: seq<Toast>, id: Id)
    requires DistinctToasts(toasts)
    ensures (forall t :: t in toasts ==> t.id != id) ==> Drop(toasts, id) == toasts
    ensures forall k :: 0 <= k < |toasts| && toasts[k].id == id ==> Drop(toasts, id) == toasts[..k] + toasts[k + 1..]
  {
    if forall t :: t in toasts ==> t.id != id { DropNone(toasts, id); }
    forall k | 0 <= k < |toasts| && toasts[k].id == id ensures Drop(toasts, id) == toasts[..k] + toasts[k + 1..] {
      DropAt(toasts, k);
    }
  }

  /**
   A card that leaves keeps all but its status, and only an active one leaves; an incident is bound to the one
   card of the id; a removal takes away the one card of the id and leaves the others in their order.
   */
  lemma ActionOutcome(s: Stack, a: Action)
    requires DistinctToasts(s.toasts) && !a.Take?
    ensures var was, next := s.toasts, Act(s, a).toasts;
            && Act(s, a).seen == s.seen && Act(s, a).consumed == s.consumed
            && match a
               case Exit(id, reason) =>
                 && |next| == |was|
                 && forall i :: 0 <= i < |was| ==>
                      next[i] == if was[i].id == id && was[i].exiting.None?
                                 then was[i].(exiting := Some(reason)) else was[i]
               case Activate(id, incident) =>
                 && |next| == |was|
                 && forall i :: 0 <= i < |was| ==>
                      next[i] == if was[i].id == id then was[i].(incidentId := Some(incident)) else was[i]
               case Remove(id) =>
                 && ((forall t :: t in was ==> t.id != id) ==> next == was)
                 && forall k :: 0 <= k < |was| && was[k].id == id ==> next == was[..k] + was[k + 1..]
               case Take(_) => true
  {
    match a
    case Exit(id, reason) => StartExitAt(s.toasts, id, reason);
    case Activate(id, incident) => BindAt(s.toasts, id, incident);
    case Remove(id) => RemoveOutcome(s.toasts, id);
    case Take(_) =>
  }

  // ---- What a card tells ----

  /** The last event of a group among the actions. */
  function LastOf(actions: seq<Action>, key: string): Option<Event> {
    if actions == [] then None
    else
      var a := actions[|actions| - 1];
      if a.Take? && a.event.source + "|" + a.event.message == key then Some(a.event)
      else LastOf(actions[..|actions| - 1], key)
  }

  function CountOf(actions: seq<Action>, key: string): nat {
    if actions == [] then 0
    else
      var a := actions[|actions| - 1];
      CountOf(actions[..|actions| - 1], key) + if a.Take? && a.event.source + "|" + a.event.message == key then 1 else 0
  }

  /** The incident bound to the card since the last event of its group. */
  function BoundOf(actions: seq<Action>, key: string, id: Id): Option<string> {
    if actions == [] then None
    else
      var a := actions[|actions| - 1];
      if a.Take? && a.event.source + "|" + a.event.message == key then None
      else if a.Activate? && a.id == id then Some(a.incident)
      else BoundOf(actions[..|actions| - 1], key, id)
  }

  /** From its first event on, the card has taken every event of its group: it shows the last and counts them all. */
  ghost predicate TellsFrom(past: seq<Action>, i: int, t: Toast) {
    && 0 <= i < |past| && past[i].Take? && past[i].event.id == t.id
    && t.groupKey == past[i].event.source + "|" + past[i].event.message
    && LastOf(past[i..], t.groupKey) == Some(t.event)
    && t.count == CountOf(past[i..], t.groupKey) == t.bumpToken + 1
    && t.incidentId == BoundOf(past[i..], t.groupKey, t.id)
  }

  ghost predicate Tells(past: seq<Action>, t: Toast) { exists i :: TellsFrom(past, i, t) }

  ghost predicate AllTell(past: seq<Action>, s: Stack) {
    forall t :: t in s.toasts && t.exiting.None? ==> Tells(past, t)
  }

  /** An action that does not concern the card. */
  lemma TellsOn(past: seq<Action>, a: Action, t: Toast)
    requires Tells(past, t)
    requires a.Take? ==> a.event.source + "|" + a.event.message != t.groupKey
    requires a.Activate? ==> a.id != t.id
    ensures Tells(past + [a], t)
  {
    var i :| TellsFrom(past, i, t);
    assert (past + [a])[i..] == past[i..] + [a];
    assert (past[i..] + [a])[..|past[i..]|] == past[i..];
    assert TellsFrom(past + [a], i, t);
  }

  lemma TellsBump(past: seq<Action>, t: Toast, u: Toast, e: Event)
    requires Tells(past, t) && HasTaken(t, u, e) && t.groupKey == e.source + "|" + e.message
    ensures Tells(past + [Take(e)], u)
  {
    var i :| TellsFrom(past, i, t);
    assert (past + [Take(e)])[i..] == past[i..] + [Take(e)];
    assert (past[i..] + [Take(e)])[..|past[i..]|] == past[i..];
    assert TellsFrom(past + [Take(e)], i, u);
  }

  lemma TellsBound(past: seq<Action>, t: Toast, incident: string)
    requires Tells(past, t)
    ensures Tells(past + [Activate(t.id, incident)], t.(incidentId := Some(incident)))
  {
    var a: Action := Activate(t.id, incident);
    var i :| TellsFrom(past, i, t);
    assert (past + [a])[i..] == past[i..] + [a];
    assert (past[i..] + [a])[..|past[i..]|] == past[i..];
    assert TellsFrom(past + [a], i, t.(incidentId := Some(incident)));
  }

  lemma TellsNew(past: seq<Action>, e: Event)
    ensures Tells(past + [Take(e)], Toast(e.id, e, None, 1, e.source + "|" + e.message, 0, None))
  {
    var all, n := past + [Take(e)], |past|;
    var key := e.source + "|" + e.message;
    assert all[n..] == [Take(e)] && [Take(e)][..0] == [];
    assert CountOf([], key) == 0 && BoundOf([Take(e)], key, e.id) == None;
    assert TellsFrom(all, n, Toast(e.id, e, None, 1, e.source + "|" + e.message, 0, None));
  }

  lemma {:induction false} OthersOfAnotherGroup(toasts: seq<Toast>, i: nat, j: nat)
    requires DistinctGroups(toasts) && i < |toasts| && j < |toasts| && i != j
    requires IsActive(toasts[i]) && IsActive(toasts[j])
    ensures toasts[i].groupKey != toasts[j].groupKey
  {
    if i > 0 && j > 0 {
      assert toasts[i] == toasts[1..][i - 1] && toasts[j] == toasts[1..][j - 1];
      OthersOfAnotherGroup(toasts[1..], i - 1, j - 1);
    } else {
      var k := if i == 0 then j else i;
      assert toasts[k] == toasts[1..][k - 1] && toasts[1..][k - 1] in toasts[1..];
    }
  }

  lemma BumpTells(past: seq<Action>, s: Stack, e: Event, k: nat, r: seq<Toast>)
    requires StackInv(s) && AllTell(past, s) && k < |s.toasts| == |r| && s.toasts[k].exiting.None?
    requires s.toasts[k].groupKey == e.source + "|" + e.message && HasTaken(s.toasts[k], r[k], e)
    requires forall i :: 0 <= i < |r| && i != k ==> r[i] == s.toasts[i]
    ensures forall t :: t in r && t.exiting.None? ==> Tells(past + [Take(e)], t)
  {
    forall t | t in r && t.exiting.None? ensures Tells(past + [Take(e)], t) {
      var j :| 0 <= j < |r| && r[j] == t;
      assert s.toasts[j] in s.toasts;
      if j == k {
        TellsBump(past, s.toasts[k], t, e);
      } else {
        OthersOfAnotherGroup(s.toasts, j, k);
        TellsOn(past, Take(e), t);
      }
    }
  }

  lemma TakeTells(past: seq<Action>, s: Stack, e: Event)
    requires StackInv(s) && e.id !in s.seen && AllTell(past, s)
    ensures AllTell(past + [Take(e)], Act(s, Take(e)))
  {
    ReduceOutcome(s.toasts, e);
    var r, n, key := Reduce(s.toasts, e), |s.toasts|, e.source + "|" + e.message;
    if |r| == n {
      var k :| 0 <= k < n && s.toasts[k].exiting.None? && s.toasts[k].groupKey == key && HasTaken(s.toasts[k], r[k], e)
               && forall i :: 0 <= i < n && i != k ==> r[i] == s.toasts[i];
      BumpTells(past, s, e, k, r);
    } else {
      forall t | t in r && t.exiting.None? ensures Tells(past + [Take(e)], t) {
        var j :| 0 <= j < n + 1 && r[j] == t;
        if j == n {
          TellsNew(past, e);
        } else {
          assert r[..n][j] == t && s.toasts[j] in s.toasts;
          TellsOn(past, Take(e), t);
        }
      }
    }
  }

  lemma OtherTells(past: seq<Action>, s: Stack, a: Action)
    requires StackInv(s) && !a.Take? && AllTell(past, s)
    ensures AllTell(past + [a], Act(s, a))
  {
    ActionOutcome(s, a);
    if a.Remove? { DropKeeps(s.toasts, a.id); }
    forall t | t in Act(s, a).toasts && t.exiting.None? ensures Tells(past + [a], t) {
      if a.Remove? {
        TellsOn(past, a, t);
      } else {
        var i :| 0 <= i < |s.toasts| && Act(s, a).toasts[i] == t;
        assert s.toasts[i] in s.toasts;
        if a.Activate? && t.id == a.id {
          TellsBound(past, s.toasts[i], a.incident);
        } else {
          TellsOn(past, a, t);
        }
      }
    }
  }

  lemma {:induction false} CardsTellFrom(past: seq<Action>, s: Stack, actions: seq<Action>)
    requires StackInv(s) && AllTell(past, s) && Legal(s, actions)
    ensures AllTell(past + actions, Run(s, actions))
    decreases actions
  {
    if actions == [] {
      assert past + actions == past;
    } else {
      var a := actions[0];
      ActKeeps(s, a);
      if a.Take? { TakeTells(past, s, a.event); } else { OtherTells(past, s, a); }
      CardsTellFrom(past + [a], Act(s, a), actions[1..]);
      assert past + [a] + actions[1..] == past + actions;
    }
  }

  /**
   Every active card tells its events: over any run from a stack without cards it shows the last event of its
   group since the one that made it, counts all of them, and is bound to the incident found for it since that
   last event, if any.
   */
  lemma {:induction false} CardsTellTheirEvents(s: Stack, actions: seq<Action>)
    requires StackInv(s) && s.toasts == [] && Legal(s, actions)
    ensures forall t :: t in Run(s, actions).toasts && t.exiting.None? ==>
              Tells(actions, t) && LastOf(actions, t.groupKey) == Some(t.event)
  {
    assert AllTell([], s);
    assert [] + actions == actions;
    CardsTellFrom([], s, actions);
    forall t | t in Run(s, actions).toasts && t.exiting.None? ensures LastOf(actions, t.groupKey) == Some(t.event) {
      var i :| TellsFrom(actions, i, t);
      LastIsLast(actions, i, t.groupKey);
    }
  }

  lemma {:induction false} LastIsLast(actions: seq<Action>, i: nat, key: string)
    requires i <= |actions| && LastOf(actions[i..], key).Some?
    ensures LastOf(actions, key) == LastOf(actions[i..], key)
    decreases |actions|
  {
    var n := |actions|;
    if i < n {
      assert actions[i..][n - i - 1] == actions[n - 1];
      assert actions[i..][..n - i - 1] == actions[..n - 1][i..];
      if LastOf(actions[..n - 1][i..], key).Some? { LastIsLast(actions[..n - 1], i, key); }
    }
  }

  function Takes(events: seq<Event>): (r: seq<Action>)
    ensures |r| == |events|
  {
    if events == [] then [] else [Take(events[0])] + Takes(events[1..])
  }

  /** Events with new, distinct ids go through the reducer as a legal run, so their counts add up. */
  lemma {:induction false} BatchRuns(s: Stack, events: seq<Event>)
    requires StackInv(s)
    requires forall e :: e in events ==> e.id !in s.seen
    requires forall i, j :: 0 <= i < j < |events| ==> events[i].id != events[j].id
    ensures Legal(s, Takes(events))
    ensures var r := Run(s, Takes(events));
            && StackInv(r) && r.toasts == ReduceAll(s.toasts, events)
            && r.consumed == s.consumed + |events| && Total(r.toasts) + r.retired == s.consumed + |events|
    decreases events
  {
    if events != [] {
      var e, rest := events[0], events[1..];
      TakeKeeps(s, e);
      forall x | x in rest ensures x.id !in s.seen + {e.id} {
        var k :| 0 <= k < |rest| && rest[k] == x;
        assert events[k + 1] == x;
      }
      BatchRuns(Act(s, Take(e)), rest);
      assert Takes(events)[1..] == Takes(rest);
    }
  }

  // ---- How many cards fit ----

  const TOAST_STACK_GAP: real := 8.0

  function Tallest(heights: seq<real>): (h: real)
    requires heights != []
    ensures h in heights && forall x :: x in heights ==> x <= h
  {
    if |heights| == 1 then heights[0]
    else
      var rest := Tallest(heights[1..]);
      assert forall x :: x in heights ==> x == heights[0] || x in heights[1..];
      if heights[0] > rest then heights[0] else rest
  }

  function Measured(heights: seq<real>): (r: seq<real>)
    ensures forall x :: x in r <==> x in heights && x > 0.0
  {
    if heights == [] then []
    else if heights[0] > 0.0 then [heights[0]] + Measured(heights[1..])
    else Measured(heights[1..])
  }

  /** `available` is unknown while the sidebar is closed; a card without a layout has no height. */
  function VisibleLimit(available: Option<real>, heights: seq<real>): (limit: nat)
    ensures 1 <= limit <= MAX_TOASTS
  {
    var cards := Measured(heights);
    if available.None? || available.value <= 0.0 || cards == [] then MAX_TOASTS
    else
      var count := ((available.value + TOAST_STACK_GAP) / (Tallest(cards) + TOAST_STACK_GAP)).Floor;
      if count < 1 then 1 else if count > MAX_TOASTS then MAX_TOASTS else count
  }

  /** Without room known, or without a card that has a height, all five may show. */
  lemma VisibleLimitFallsBack(available: Option<real>, heights: seq<real>)
    requires available.None? || available.value <= 0.0 || forall x :: x in heights ==> x <= 0.0
    ensures VisibleLimit(available, heights) == 5
  {
    assert Measured(heights) != [] ==> Measured(heights)[0] in heights;
  }

  /** Of two to five cards as tall as the tallest, with 8 pixels between them, as many fit as the limit says. */
  lemma VisibleLimitIsWhatFits(available: real, heights: seq<real>, tallest: real, n: nat)
    requires available > 0.0 && 1 < n <= 5
    requires tallest > 0.0 && tallest in heights && forall x :: x in heights ==> x <= tallest
    ensures n as real * tallest + (n as real - 1.0) * 8.0 <= available <==> n <= VisibleLimit(Some(available), heights)
  {
    assert tallest in Measured(heights) && Tallest(Measured(heights)) == tallest;
    CountFits(available, tallest, n);
  }

  lemma CountFits(available: real, tallest: real, n: nat)
    requires available > 0.0 && tallest > 0.0
    ensures n as real * tallest + (n as real - 1.0) * 8.0 <= available <==>
              n <= ((available + 8.0) / (tallest + 8.0)).Floor
  {
    var unit, room := tallest + 8.0, available + 8.0;
    assert n as real * unit == n as real * tallest + n as real * 8.0;
    RealQuotient(room, unit, n as real);
  }
}
