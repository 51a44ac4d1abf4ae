/**
 The bounded, sorted, duplicate-free window that every update of the incident list goes through
 (dashboard/src/hooks/useIncidents.js, `uniqueById`).
 */
module RankedWindow {
  import opened Incidents

  const MAX_RETAINED_INCIDENTS: nat := 100

  /** Strictly descending, and no id twice. */
  predicate IsRanked(s: seq<Incident>) {
    s == [] || ((forall y :: y in s[1..] ==> Outranks(s[0], y) && y.id != s[0].id) && IsRanked(s[1..]))
  }

  function Take(s: seq<Incident>, n: nat): (r: seq<Incident>)
    ensures |r| <= n && r <= s && (|s| <= n ==> r == s) && (|s| >= n ==> |r| == n)
  {
    if |s| <= n then s else s[..n]
  }

  /** Sorted insertion; folding it is the library sort. */
  function Place(s: seq<Incident>, x: Incident): (r: seq<Incident>)
    ensures |r| == |s| + 1
    ensures forall y :: y in r <==> y in s || y == x
  {
    if s == [] || Outranks(x, s[0]) then [x] + s
    else [s[0]] + Place(s[1..], x)
  }

  function SortNewest(s: seq<Incident>): (r: seq<Incident>)
    ensures |r| == |s|
    ensures forall y :: y in r <==> y in s
  {
    if s == [] then [] else Place(SortNewest(s[1..]), s[0])
  }

  function Without(s: seq<Incident>, id: Id): (r: seq<Incident>)
    ensures forall y :: y in r <==> y in s && y.id != id
  {
    if s == [] then []
    else if s[0].id == id then Without(s[1..], id)
    else [s[0]] + Without(s[1..], id)
  }

  /** A newer version replaces the kept one, an equally old or older one is dropped. */
  function Upsert(s: seq<Incident>, x: Incident): seq<Incident> {
    var current := Find(s, x.id);
    if current.Some? && x.updatedAt <= current.value.updatedAt then s
    else Place(Without(s, x.id), x)
  }

  /** The newest version of every id, best first, before any truncation. */
  function Ranked(items: seq<Incident>): seq<Incident> {
    if items == [] then [] else Upsert(Ranked(items[..|items| - 1]), items[|items| - 1])
  }

  function UniqueById(items: seq<Incident>): seq<Incident> {
    Take(Ranked(items), MAX_RETAINED_INCIDENTS)
  }

  // ---- Independent reference: what the window is supposed to contain ----

  /** Among the versions of its id, `x` at `k` is the newest one, and the first of the newest. */
  ghost predicate IsNewestAt(items: seq<Incident>, x: Incident, k: int) {
    && 0 <= k < |items| && items[k] == x
    && (forall j :: 0 <= j < k && items[j].id == x.id ==> items[j].updatedAt < x.updatedAt)
    && (forall j :: k < j < |items| && items[j].id == x.id ==> items[j].updatedAt <= x.updatedAt)
  }

  ghost predicate IsNewest(items: seq<Incident>, x: Incident) {
    exists k :: IsNewestAt(items, x, k)
  }

  ghost predicate LeavesOutOnlyWorse(w: seq<Incident>, x: Incident) {
    x in w || (|w| == MAX_RETAINED_INCIDENTS && forall y :: y in w ==> Outranks(y, x))
  }

  ghost predicate IsWindow(items: seq<Incident>, w: seq<Incident>) {
    && IsRanked(w)
    && |w| <= MAX_RETAINED_INCIDENTS
    && (forall x :: x in w ==> IsNewest(items, x))
    && (forall x :: IsNewest(items, x) ==> LeavesOutOnlyWorse(w, x))
  }

  // ---- Order and identity facts ----

  lemma {:induction false} PlaceRanked(s: seq<Incident>, x: Incident)
    requires IsRanked(s) && forall y :: y in s ==> y.id != x.id
    ensures IsRanked(Place(s, x))
  {
    if s != [] && !Outranks(x, s[0]) {
      PlaceRanked(s[1..], x);
    }
  }

  lemma {:induction false} WithoutRanked(s: seq<Incident>, id: Id)
    requires IsRanked(s)
    ensures IsRanked(Without(s, id))
  {
    if s != [] { WithoutRanked(s[1..], id); }
  }

  lemma UpsertRanked(s: seq<Incident>, x: Incident)
    requires IsRanked(s)
    ensures IsRanked(Upsert(s, x))
  {
    WithoutRanked(s, x.id);
    PlaceRanked(Without(s, x.id), x);
  }

  lemma {:induction false} RankedShape(items: seq<Incident>)
    ensures IsRanked(Ranked(items))
  {
    if items != [] {
      var last := |items| - 1;
      RankedShape(items[..last]);
      UpsertRanked(Ranked(items[..last]), items[last]);
    }
  }

  lemma {:induction false} RankedDistinct(s: seq<Incident>)
    requires IsRanked(s)
    ensures DistinctIds(s)
  {
    if s != [] { RankedDistinct(s[1..]); }
  }

  /** The recursive shape in terms of positions. */
  lemma {:induction false} RankedAt(s: seq<Incident>, i: nat, j: nat)
    requires IsRanked(s) && i < j < |s|
    ensures Outranks(s[i], s[j]) && s[i].id != s[j].id
  {
    if i == 0 {
      assert s[j] == s[1..][j - 1];
    } else {
      RankedAt(s[1..], i - 1, j - 1);
    }
  }

  lemma {:induction false} TakeRanked(s: seq<Incident>, n: nat)
    requires IsRanked(s)
    ensures IsRanked(Take(s, n))
  {
    if |s| > n > 0 {
      TakeRanked(s[1..], n - 1);
      TakeUnfold(s, n);
    }
  }

  lemma TakeUnfold(s: seq<Incident>, n: nat)
    requires s != [] && n > 0
    ensures Take(s, n) == [s[0]] + Take(s[1..], n - 1)
  {
  }

  lemma {:induction false} SameElementsSameOrder(a: seq<Incident>, b: seq<Incident>)
    requires IsRanked(a) && IsRanked(b)
    requires forall x :: x in a <==> x in b
    ensures a == b
  {
    if a != [] && b != [] {
      var u, v := a[0], b[0];
      assert u in b && v in a;
      assert u == v;
      assert forall x :: x in a[1..] <==> x in a && x != u;
      assert forall x :: x in b[1..] <==> x in b && x != v;
      SameElementsSameOrder(a[1..], b[1..]);
      assert a == [u] + a[1..] && b == [v] + b[1..];
    } else {
      HeadIsElement(a);
      HeadIsElement(b);
    }
  }

  lemma HeadIsElement(s: seq<Incident>)
    ensures s == [] || exists x :: x in s
  {
    if s != [] { assert s[0] in s; }
  }

  // ---- The window is exactly the reference ----

  /** How the reference changes when one more row arrives. */
  lemma NewestExtends(before: seq<Incident>, item: Incident, x: Incident)
    ensures x.id != item.id ==> (IsNewest(before + [item], x) <==> IsNewest(before, x))
    ensures x.id == item.id ==> (IsNewest(before + [item], x) <==>
              || (IsNewest(before, x) && item.updatedAt <= x.updatedAt)
              || (&& x == item
                  && forall j :: 0 <= j < |before| && before[j].id == x.id ==> before[j].updatedAt < x.updatedAt))
  {
    var all := before + [item];
    assert forall j :: 0 <= j < |before| ==> before[j] == all[j];
    if IsNewest(before, x) && (x.id != item.id || item.updatedAt <= x.updatedAt) {
      var k :| IsNewestAt(before, x, k);
      assert IsNewestAt(all, x, k);
    }
    if x == item && forall j :: 0 <= j < |before| && before[j].id == x.id ==> before[j].updatedAt < x.updatedAt {
      assert IsNewestAt(all, x, |before|);
    }
    if IsNewest(all, x) {
      var k :| IsNewestAt(all, x, k);
      if k < |before| {
        assert IsNewestAt(before, x, k);
        assert all[|before|] == item;
      }
    }
  }

  /** The ranked list holds a version at least as new as every row seen. */
  lemma {:induction false} RankedCovers(items: seq<Incident>, j: nat)
    requires j < |items|
    ensures var kept := Find(Ranked(items), items[j].id); kept.Some? && kept.value.updatedAt >= items[j].updatedAt
  {
    var last := |items| - 1;
    var s, item := Ranked(items[..last]), items[last];
    RankedShape(items[..last]);
    if j < last {
      RankedCovers(items[..last], j);
      if item.id != items[j].id { UpsertLeaves(s, item, items[j].id); }
    }
    UpsertFinds(s, item);
  }

  lemma UpsertLeaves(s: seq<Incident>, item: Incident, id: Id)
    requires IsRanked(s) && Find(s, id).Some? && item.id != id
    ensures Find(Upsert(s, item), id) == Find(s, id)
  {
    UpsertRanked(s, item);
    RankedDistinct(Upsert(s, item));
    assert Find(s, id).value in Upsert(s, item);
    FindDistinct(Upsert(s, item), Find(s, id).value);
  }

  lemma UpsertFinds(s: seq<Incident>, item: Incident)
    requires IsRanked(s)
    ensures var kept, was := Find(Upsert(s, item), item.id), Find(s, item.id);
            && kept.Some? && kept.value.updatedAt >= item.updatedAt
            && (was.Some? ==> kept.value.updatedAt >= was.value.updatedAt)
  {
    UpsertRanked(s, item);
    RankedDistinct(Upsert(s, item));
    if item in Upsert(s, item) {
      FindDistinct(Upsert(s, item), item);
    }
  }

  lemma {:induction false} RankedIsNewest(items: seq<Incident>, x: Incident)
    ensures x in Ranked(items) <==> IsNewest(items, x)
  {
    if items != [] {
      var last := |items| - 1;
      var before, item := items[..last], items[last];
      RankedIsNewest(before, x);
      NewestExtends(before, item, x);
      assert before + [item] == items;
      RankedStep(before, item, x);
    }
  }

  lemma RankedStep(before: seq<Incident>, item: Incident, x: Incident)
    requires x in Ranked(before) <==> IsNewest(before, x)
    ensures x.id != item.id ==> (x in Upsert(Ranked(before), item) <==> x in Ranked(before))
    ensures x.id == item.id ==> (x in Upsert(Ranked(before), item) <==>
              || (IsNewest(before, x) && item.updatedAt <= x.updatedAt)
              || (&& x == item
                  && forall j :: 0 <= j < |before| && before[j].id == x.id ==> before[j].updatedAt < x.updatedAt))
  {
    var s := Ranked(before);
    RankedShape(before);
    RankedDistinct(s);
    forall j | 0 <= j < |before|
      ensures Find(s, before[j].id).Some? && Find(s, before[j].id).value.updatedAt >= before[j].updatedAt
    {
      RankedCovers(before, j);
    }
    if x.id == item.id {
      var current := Find(s, item.id);
      if x in s { FindDistinct(s, x); }
      if current.Some? { SourceOf(before, current.value); }
    }
  }

  lemma {:induction false} SourceOf(items: seq<Incident>, x: Incident)
    requires x in Ranked(items)
    ensures exists j :: 0 <= j < |items| && items[j] == x
  {
    var last := |items| - 1;
    if x == items[last] {
    } else {
      SourceOf(items[..last], x);
      var j :| 0 <= j < |items[..last]| && items[..last][j] == x;
      assert items[j] == x;
    }
  }

  lemma {:induction false} TakeLeavesOutWorse(s: seq<Incident>, n: nat, x: Incident)
    requires IsRanked(s) && x in s
    ensures x in Take(s, n) || (|Take(s, n)| == n && forall y :: y in Take(s, n) ==> Outranks(y, x))
  {
    if |s| > n > 0 {
      TakeUnfold(s, n);
      if x != s[0] { TakeLeavesOutWorse(s[1..], n - 1, x); }
    }
  }

  /** `uniqueById` returns exactly the top 100 of the newest version per id, and nothing else qualifies. */
  lemma WindowCharacterised(items: seq<Incident>, w: seq<Incident>)
    ensures IsWindow(items, w) <==> w == UniqueById(items)
  {
    var full, top := Ranked(items), UniqueById(items);
    RankedShape(items);
    TakeRanked(full, MAX_RETAINED_INCIDENTS);
    forall x ensures x in full <==> IsNewest(items, x) { RankedIsNewest(items, x); }
    forall x | x in full ensures LeavesOutOnlyWorse(top, x) {
      TakeLeavesOutWorse(full, MAX_RETAINED_INCIDENTS, x);
    }
    assert IsWindow(items, top);
    if IsWindow(items, w) {
      BestOfBoth(full, top, w);
    }
  }

  /** Two selections that both leave out only what they outrank are the same selection. */
  lemma BestOfBoth(full: seq<Incident>, a: seq<Incident>, b: seq<Incident>)
    requires IsRanked(a) && IsRanked(b)
    requires |a| <= MAX_RETAINED_INCIDENTS && |b| <= MAX_RETAINED_INCIDENTS
    requires (forall x :: x in a ==> x in full) && (forall x :: x in b ==> x in full)
    requires forall x :: x in full ==> LeavesOutOnlyWorse(a, x) && LeavesOutOnlyWorse(b, x)
    ensures a == b
  {
    forall x | x in a ensures x in b { OneSideSelected(full, a, b, x); }
    forall x | x in b ensures x in a { OneSideSelected(full, b, a, x); }
    SameElementsSameOrder(a, b);
  }

  lemma OneSideSelected(full: seq<Incident>, a: seq<Incident>, b: seq<Incident>, x: Incident)
    requires IsRanked(a) && IsRanked(b) && |a| <= MAX_RETAINED_INCIDENTS && x in a
    requires (forall z :: z in a ==> z in full) && (forall z :: z in b ==> z in full)
    requires forall z :: z in full ==> LeavesOutOnlyWorse(a, z) && LeavesOutOnlyWorse(b, z)
    ensures x in b
  {
    assert LeavesOutOnlyWorse(b, x);
    PigeonHole(a, b, x);
  }

  lemma PigeonHole(a: seq<Incident>, b: seq<Incident>, x: Incident)
    requires IsRanked(a) && IsRanked(b) && x in a
    ensures x in b || |a| > |b| || exists y :: y in b && y !in a
  {
    var sa, sb := (set y | y in a), (set y | y in b);
    ElementCount(a);
    ElementCount(b);
    if x !in b && forall y :: y in b ==> y in a {
      Subset(sb, sa - {x});
    }
  }

  lemma {:induction false} Subset(a: set<Incident>, b: set<Incident>)
    requires a <= b
    ensures |a| <= |b|
  {
    if a != {} {
      var x :| x in a;
      Subset(a - {x}, b - {x});
    }
  }

  lemma {:induction false} ElementCount(s: seq<Incident>)
    requires IsRanked(s)
    ensures |(set y | y in s)| == |s|
  {
    if s != [] {
      ElementCount(s[1..]);
      assert (set y | y in s) == (set y | y in s[1..]) + {s[0]};
    }
  }

  // ---- Incremental equals batch ----

  lemma {:induction false} TakePlace(s: seq<Incident>, x: Incident, n: nat)
    ensures Take(Place(Take(s, n), x), n) == Take(Place(s, x), n)
  {
    if s != [] && n > 0 {
      TakeUnfold(s, n);
      if Outranks(x, s[0]) {
        assert Take([x] + s, n) == [x] + Take(s, n - 1);
        assert Take([x] + Take(s, n), n) == [x] + Take(Take(s, n), n - 1);
        assert Take(Take(s, n), n - 1) == Take(s, n - 1);
      } else {
        TakePlace(s[1..], x, n - 1);
        TakeUnfold(Place(s, x), n);
        TakeUnfold(Place(Take(s, n), x), n);
      }
    }
  }

  lemma {:induction false} WithoutAbsent(s: seq<Incident>, id: Id)
    requires forall y :: y in s ==> y.id != id
    ensures Without(s, id) == s
  {
    if s != [] { WithoutAbsent(s[1..], id); }
  }

  /** Removing one entry costs the truncated list at most its last place. */
  lemma {:induction false} TakeWithout(s: seq<Incident>, id: Id, n: nat)
    requires IsRanked(s) && n > 0
    ensures Take(Without(Take(s, n), id), n - 1) == Take(Without(s, id), n - 1)
  {
    if s != [] {
      TakeUnfold(s, n);
      var rest := Take(s[1..], n - 1);
      if s[0].id == id {
        WithoutAbsent(s[1..], id);
        WithoutAbsent(rest, id);
      } else if n > 1 {
        TakeWithout(s[1..], id, n - 1);
        TakeUnfold([s[0]] + Without(rest, id), n - 1);
        TakeUnfold([s[0]] + Without(s[1..], id), n - 1);
      }
    }
  }

  /** An entry older than the whole list lands behind it. */
  lemma {:induction false} PlaceBehind(s: seq<Incident>, x: Incident)
    requires forall y :: y in s ==> Outranks(y, x)
    ensures Place(s, x) == s + [x]
  {
    if s != [] {
      assert s[0] in s;
      PlaceBehind(s[1..], x);
      assert s + [x] == [s[0]] + (s[1..] + [x]);
    }
  }

  /** An entry newer than the whole list lands in front of it. */
  lemma PlaceInFront(s: seq<Incident>, x: Incident, n: nat)
    requires n > 0 && forall y :: y in s ==> Outranks(x, y)
    ensures Take(Place(s, x), n) == [x] + Take(s, n - 1)
  {
    assert s != [] ==> s[0] in s;
    TakeUnfold([x] + s, n);
  }

  /** Replacing a kept entry by a newer version of it commutes with truncation. */
  lemma {:induction false} TakeReplace(s: seq<Incident>, x: Incident, stale: Incident, n: nat)
    requires IsRanked(s) && s != [] && n > 0 && stale in Take(s, n)
    requires stale.id == x.id && x.updatedAt > stale.updatedAt
    ensures Take(Place(Without(Take(s, n), x.id), x), n) == Take(Place(Without(s, x.id), x), n)
  {
    if Outranks(x, s[0]) {
      ReplaceInFront(s, x, n);
    } else {
      HeadIsOther(s, x, stale, n);
      TakeReplace(s[1..], x, stale, n - 1);
      ReplaceBelow(s, x, n);
    }
  }

  lemma ReplaceBelow(s: seq<Incident>, x: Incident, n: nat)
    requires s != [] && n > 0 && s[0].id != x.id && !Outranks(x, s[0])
    requires Take(Place(Without(Take(s[1..], n - 1), x.id), x), n - 1) == Take(Place(Without(s[1..], x.id), x), n - 1)
    ensures Take(Place(Without(Take(s, n), x.id), x), n) == Take(Place(Without(s, x.id), x), n)
  {
    TakeUnfold(s, n);
    var t := Take(s, n);
    assert t[1..] == Take(s[1..], n - 1);
    ReplaceDeeper(s, x, n);
    ReplaceDeeper(t, x, n);
  }

  lemma HeadIsOther(s: seq<Incident>, x: Incident, stale: Incident, n: nat)
    requires IsRanked(s) && s != [] && n > 0 && stale in Take(s, n) && !Outranks(x, s[0])
    requires stale.id == x.id && x.updatedAt > stale.updatedAt
    ensures s[0].id != x.id && s[1..] != [] && n > 1 && stale in Take(s[1..], n - 1)
  {
    TakeUnfold(s, n);
    assert stale != s[0];
    assert stale in s[1..];
  }

  lemma ReplaceInFront(s: seq<Incident>, x: Incident, n: nat)
    requires IsRanked(s) && s != [] && n > 0 && Outranks(x, s[0])
    ensures Take(Place(Without(Take(s, n), x.id), x), n) == Take(Place(Without(s, x.id), x), n)
  {
    assert forall y :: y in s ==> y == s[0] || y in s[1..];
    PlaceInFront(Without(s, x.id), x, n);
    PlaceInFront(Without(Take(s, n), x.id), x, n);
    TakeWithout(s, x.id, n);
  }

  lemma ReplaceDeeper(s: seq<Incident>, x: Incident, n: nat)
    requires s != [] && n > 0 && s[0].id != x.id && !Outranks(x, s[0])
    ensures Take(Place(Without(s, x.id), x), n) == [s[0]] + Take(Place(Without(s[1..], x.id), x), n - 1)
  {
    TakeUnfold([s[0]] + Place(Without(s[1..], x.id), x), n);
  }

  /** Removing an entry beyond the cut changes nothing before the cut. */
  lemma {:induction false} RemoveBehind(s: seq<Incident>, id: Id, n: nat)
    requires forall y :: y in Take(s, n) ==> y.id != id
    ensures Take(Without(s, id), n) == Take(s, n)
  {
    if s != [] && n > 0 {
      TakeUnfold(s, n);
      RemoveBehind(s[1..], id, n - 1);
      TakeUnfold([s[0]] + Without(s[1..], id), n);
    }
  }

  lemma TakeUpsert(s: seq<Incident>, x: Incident, n: nat)
    requires IsRanked(s)
    ensures Take(Upsert(Take(s, n), x), n) == Take(Upsert(s, x), n)
  {
    var t := Take(s, n);
    TakeRanked(s, n);
    RankedDistinct(s);
    RankedDistinct(t);
    var inFull, inKept := Find(s, x.id), Find(t, x.id);
    if |s| > n {
      if inKept.Some? {
        FindDistinct(s, inKept.value);
        if x.updatedAt > inKept.value.updatedAt {
          TakeReplace(s, x, inKept.value, n);
        }
      } else {
        WithoutAbsent(t, x.id);
        if inFull.Some? && x.updatedAt <= inFull.value.updatedAt {
          TakeLeavesOutWorse(s, n, inFull.value);
          PlaceBehind(t, x);
        } else {
          RemoveBehind(s, x.id, n);
          TakePlace(Without(s, x.id), x, n);
        }
      }
    }
  }

  /** A list that is already ranked is left alone. */
  lemma {:induction false} RankedFixed(w: seq<Incident>)
    requires IsRanked(w)
    ensures Ranked(w) == w
  {
    if w != [] {
      var last := |w| - 1;
      var s, x := w[..last], w[last];
      TakeRanked(w, last);
      assert Take(w, last) == s;
      RankedFixed(s);
      forall y | y in s ensures Outranks(y, x) && y.id != x.id {
        var k :| 0 <= k < |s| && s[k] == y;
        RankedAt(w, k, last);
      }
      WithoutAbsent(s, x.id);
      PlaceBehind(s, x);
      assert s + [x] == w;
    }
  }

  lemma {:induction false} IncrementalRanked(a: seq<Incident>, b: seq<Incident>, n: nat)
    ensures Take(Ranked(Take(Ranked(a), n) + b), n) == Take(Ranked(a + b), n)
  {
    var kept := Take(Ranked(a), n);
    if b == [] {
      RankedShape(a);
      TakeRanked(Ranked(a), n);
      RankedFixed(kept);
      assert kept + b == kept && a + b == a;
    } else {
      var last := |b| - 1;
      IncrementalRanked(a, b[..last], n);
      LastApart(kept, b);
      LastApart(a, b);
      TakeSnoc(kept + b[..last], b[last], n);
      TakeSnoc(a + b[..last], b[last], n);
    }
  }

  lemma LastApart(a: seq<Incident>, b: seq<Incident>)
    requires b != []
    ensures a + b == a + b[..|b| - 1] + [b[|b| - 1]]
  {
  }

  lemma TakeSnoc(front: seq<Incident>, x: Incident, n: nat)
    ensures Take(Ranked(front + [x]), n) == Take(Upsert(Take(Ranked(front), n), x), n)
  {
    RankedSnoc(front, x);
    RankedShape(front);
    TakeUpsert(Ranked(front), x, n);
  }

  lemma RankedSnoc(front: seq<Incident>, x: Incident)
    ensures Ranked(front + [x]) == Upsert(Ranked(front), x)
  {
    assert (front + [x])[..|front|] == front;
  }

  /** Truncating at every step loses nothing that recomputing from the whole history would keep. */
  lemma IncrementalEqualsBatch(a: seq<Incident>, b: seq<Incident>)
    ensures UniqueById(UniqueById(a) + b) == UniqueById(a + b)
  {
    IncrementalRanked(a, b, MAX_RETAINED_INCIDENTS);
  }

  /** What every published list looks like. */
  lemma WindowShape(items: seq<Incident>)
    ensures var w := UniqueById(items);
            IsRanked(w) && DistinctIds(w) && |w| <= MAX_RETAINED_INCIDENTS && forall x :: x in w ==> x in items
  {
    RankedShape(items);
    TakeRanked(Ranked(items), MAX_RETAINED_INCIDENTS);
    RankedDistinct(UniqueById(items));
    forall x | x in UniqueById(items) ensures x in items {
      SourceOf(items, x);
    }
  }

  // ---- The hook's own loop ----

  function IndexOf(entries: seq<Incident>, id: Id): (k: int)
    ensures -1 <= k < |entries|
    ensures k >= 0 ==> entries[k].id == id
    ensures k < 0 ==> forall x :: x in entries ==> x.id != id
  {
    if entries == [] then -1
    else if entries[0].id == id then 0
    else var k := IndexOf(entries[1..], id); if k < 0 then -1 else k + 1
  }

  lemma {:induction false} SortRanked(s: seq<Incident>)
    requires DistinctIds(s)
    ensures IsRanked(SortNewest(s))
  {
    if s != [] {
      SortRanked(s[1..]);
      PlaceRanked(SortNewest(s[1..]), s[0]);
    }
  }

  /** `map.set` on a key that is present: the entry keeps its place. */
  lemma {:induction false} ReplaceAt(s: seq<Incident>, k: nat, x: Incident)
    requires DistinctIds(s) && k < |s| && s[k].id == x.id
    ensures DistinctIds(s[k := x])
    ensures forall y :: y in s[k := x] <==> y == x || (y in s && y.id != x.id)
  {
    if k == 0 {
      assert s[k := x] == [x] + s[1..];
    } else {
      ReplaceAt(s[1..], k - 1, x);
      assert s[k := x] == [s[0]] + s[1..][k - 1 := x];
      assert s[k] in s[1..];
    }
  }

  lemma {:induction false} AppendNew(s: seq<Incident>, x: Incident)
    requires DistinctIds(s) && forall y :: y in s ==> y.id != x.id
    ensures DistinctIds(s + [x])
  {
    if s != [] {
      AppendNew(s[1..], x);
      assert (s + [x])[1..] == s[1..] + [x];
    }
  }

  /** Fills an insertion-ordered map by id, sorts its values and cuts at 100. */
  method CollectUnique(items: seq<Incident>) returns (window: seq<Incident>)
    ensures window == UniqueById(items)
  {
    var entries: seq<Incident> := [];
    for k := 0 to |items|
      invariant DistinctIds(entries)
      invariant forall x :: x in entries <==> x in Ranked(items[..k])
    {
      var item := items[k];
      var at := IndexOf(entries, item.id);
      CollectStep(items, k, entries);
      if at < 0 {
        entries := entries + [item];
      } else if item.updatedAt > entries[at].updatedAt {
        entries := entries[at := item];
      }
    }
    assert items[..|items|] == items;
    var sorted := SortNewest(entries);
    SortRanked(entries);
    RankedShape(items);
    SameElementsSameOrder(sorted, Ranked(items));
    window := if |sorted| <= MAX_RETAINED_INCIDENTS then sorted else sorted[..MAX_RETAINED_INCIDENTS];
  }

  lemma CollectStep(items: seq<Incident>, k: nat, entries: seq<Incident>)
    requires k < |items| && DistinctIds(entries)
    requires forall x :: x in entries <==> x in Ranked(items[..k])
    ensures DistinctIds(Collected(entries, items[k]))
    ensures forall x :: x in Collected(entries, items[k]) <==> x in Ranked(items[..k + 1])
  {
    var s, item := Ranked(items[..k]), items[k];
    assert items[..k + 1][..k] == items[..k];
    RankedShape(items[..k]);
    CollectedIds(entries, item);
    CollectedLikeUpsert(entries, s, item);
  }

  /** The map after one more row. */
  function Collected(entries: seq<Incident>, item: Incident): seq<Incident> {
    var at := IndexOf(entries, item.id);
    if at < 0 then entries + [item]
    else if item.updatedAt > entries[at].updatedAt then entries[at := item]
    else entries
  }

  lemma CollectedIds(entries: seq<Incident>, item: Incident)
    requires DistinctIds(entries)
    ensures var at, r := IndexOf(entries, item.id), Collected(entries, item);
            && DistinctIds(r)
            && forall x :: x in r <==>
                 if at >= 0 && item.updatedAt <= entries[at].updatedAt then x in entries
                 else x == item || (x in entries && x.id != item.id)
  {
    var at := IndexOf(entries, item.id);
    if at < 0 {
      AppendNew(entries, item);
    } else if item.updatedAt > entries[at].updatedAt {
      ReplaceAt(entries, at, item);
    }
  }

  lemma CollectedLikeUpsert(entries: seq<Incident>, s: seq<Incident>, item: Incident)
    requires IsRanked(s) && DistinctIds(entries) && forall x :: x in entries <==> x in s
    ensures var at := IndexOf(entries, item.id);
            forall x :: x in Upsert(s, item) <==>
              if at >= 0 && item.updatedAt <= entries[at].updatedAt then x in entries
              else x == item || (x in entries && x.id != item.id)
  {
    RankedDistinct(s);
    var at := IndexOf(entries, item.id);
    if at >= 0 {
      assert entries[at] in s;
      FindDistinct(s, entries[at]);
    }
  }
}
