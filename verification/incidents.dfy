/** The values that travel between the incident API and the dashboard. */
module Incidents {

  datatype Option<+T> = None | Some(value: T)

  // Timestamps and ids are compared by their total order, and timestamps in places as dates, to the millisecond.
  type Time = int
  type Id = int

  const MICROSECONDS_IN_A_MILLISECOND := 1000

  /** The value of a date parsed from a timestamp in microseconds. */
  function Millis(t: Time): int { t / MICROSECONDS_IN_A_MILLISECOND }

  /** One row of the incident table; `detail` stands for every column the list does not look at. */
  datatype Incident = Incident(id: Id, updatedAt: Time, status: string, detail: string)

  /** The keyset position the server hands out in X-Next-Cursor; opaque to the client. */
  datatype Cursor = Cursor(at: Time, id: Id)

  datatype Filter = All | Only(status: string) {
    predicate Accepts(item: Incident) {
      this == All || item.status == status
    }
  }

  /** The list order: newest first, the larger id first among equal timestamps. */
  predicate Outranks(a: Incident, b: Incident) {
    a.updatedAt > b.updatedAt || (a.updatedAt == b.updatedAt && a.id > b.id)
  }

  predicate DistinctIds(items: seq<Incident>) {
    items == [] || ((forall x :: x in items[1..] ==> x.id != items[0].id) && DistinctIds(items[1..]))
  }

  function RemoveAt<T>(s: seq<T>, k: nat): (r: seq<T>)
    requires k < |s|
    ensures |r| == |s| - 1
    ensures forall x :: x in r ==> x in s
  {
    s[..k] + s[k + 1..]
  }

  function Keep(items: seq<Incident>, p: Incident -> bool): (kept: seq<Incident>)
    ensures forall x :: x in kept <==> x in items && p(x)
  {
    if items == [] then [] else
      var rest := Keep(items[1..], p);
      if p(items[0]) then [items[0]] + rest else rest
  }

  lemma {:induction false} KeepDistinct(items: seq<Incident>, p: Incident -> bool)
    requires DistinctIds(items)
    ensures DistinctIds(Keep(items, p))
  {
    if items != [] { KeepDistinct(items[1..], p); }
  }

  function Find(items: seq<Incident>, id: Id): (found: Option<Incident>)
    ensures found.Some? ==> found.value in items && found.value.id == id
    ensures found.None? ==> forall x :: x in items ==> x.id != id
  {
    if items == [] then None
    else if items[0].id == id then Some(items[0])
    else Find(items[1..], id)
  }

  /** With distinct ids the lookup is determined by membership. */
  lemma {:induction false} FindDistinct(items: seq<Incident>, x: Incident)
    requires DistinctIds(items) && x in items
    ensures Find(items, x.id) == Some(x)
  {
    if items[0] != x {
      FindDistinct(items[1..], x);
    }
  }
}
