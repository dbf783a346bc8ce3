/** The pool's capacity ledger and its per-instance rows: two sums over the same tenants. */
module Ledger {
  import opened Common

  datatype QoS = Guaranteed | Burstable | BestEffort

  // `bound` is the instance the tenant is placed on, or "".
  datatype Tenant = Tenant(bound: string, guaranteed: int, burstable: int, qos: QoS)

  datatype Capacity = Capacity(
    allocatable: int, reserved: int, committedBurst: int, available: int, tenants: nat,
    bound: nat, pending: nat, guaranteed: nat, burstable: nat, bestEffort: nat)

  datatype Row = Row(name: string, reserved: int, tenants: nat)

  function Sum(ts: seq<Tenant>, of: Tenant -> int): int {
    if ts == [] then 0 else Sum(ts[..|ts| - 1], of) + of(ts[|ts| - 1])
  }

  function Tally(ts: seq<Tenant>, which: Tenant -> bool): nat {
    if ts == [] then 0 else Tally(ts[..|ts| - 1], which) + if which(ts[|ts| - 1]) then 1 else 0
  }

  function Guarantee(t: Tenant): int { t.guaranteed }
  function Burst(t: Tenant): int { t.burstable }
  predicate IsBound(t: Tenant) { t.bound != "" }
  predicate IsGuaranteed(t: Tenant) { t.qos == Guaranteed }
  predicate IsBurstable(t: Tenant) { t.qos == Burstable }

  method LedgerOf(ts: seq<Tenant>, allocatable: int) returns (l: Capacity)
    ensures l.reserved == Sum(ts, Guarantee) && l.committedBurst == Sum(ts, Burst)
    ensures l.bound == Tally(ts, IsBound) && l.guaranteed == Tally(ts, IsGuaranteed)
            && l.burstable == Tally(ts, IsBurstable)
    ensures l.bound + l.pending == l.tenants == |ts|
    ensures l.guaranteed + l.burstable + l.bestEffort == l.tenants
    ensures l.allocatable == allocatable && l.available == Max(allocatable - l.reserved, 0)
  {
    var g, b, tenants, bound, pending, gold, silver, rest := 0, 0, 0, 0, 0, 0, 0, 0;
    for i := 0 to |ts|
      invariant g == Sum(ts[..i], Guarantee) && b == Sum(ts[..i], Burst) && tenants == i
      invariant bound == Tally(ts[..i], IsBound) && bound + pending == i
      invariant gold == Tally(ts[..i], IsGuaranteed) && silver == Tally(ts[..i], IsBurstable)
      invariant gold + silver + rest == i
    {
      var t := ts[i];
      assert ts[..i + 1][..i] == ts[..i];
      g, b, tenants := g + t.guaranteed, b + t.burstable, tenants + 1;
      match t.qos {
        case Guaranteed => gold := gold + 1;
        case Burstable => silver := silver + 1;
        case BestEffort => rest := rest + 1;
      }
      if t.bound != "" { bound := bound + 1; } else { pending := pending + 1; }
    }
    assert ts[..|ts|] == ts;
    l := Capacity(allocatable, g, b, Max(allocatable - g, 0), tenants, bound, pending, gold, silver, rest);
  }

  function On(name: string): Tenant -> int { (t: Tenant) => if t.bound == name && name != "" then t.guaranteed else 0 }

  function Off(names: seq<string>): Tenant -> int {
    (t: Tenant) => if t.bound == "" || t.bound !in names then t.guaranteed else 0
  }

  function BoundTo(name: string): Tenant -> bool { (t: Tenant) => t.bound == name }

  function At(m: map<string, int>, name: string): int { if name in m then m[name] else 0 }

  method PerInstanceStatus(ts: seq<Tenant>, instances: seq<string>) returns (rows: seq<Row>)
    requires forall i | 0 <= i < |instances| :: instances[i] != ""
    ensures |rows| == |instances|
    ensures forall i | 0 <= i < |rows| ::
              rows[i] == Row(instances[i], Sum(ts, On(instances[i])), Tally(ts, BoundTo(instances[i])))
  {
    var reserved: map<string, int>, counts: map<string, nat> := map[], map[];
    for i := 0 to |ts|
      invariant forall n | n != "" :: At(reserved, n) == Sum(ts[..i], On(n))
      invariant forall n | n != "" :: (if n in counts then counts[n] else 0) == Tally(ts[..i], BoundTo(n))
    {
      assert ts[..i + 1][..i] == ts[..i];
      var bound := ts[i].bound;
      if bound != "" {
        reserved := reserved[bound := At(reserved, bound) + ts[i].guaranteed];
        counts := counts[bound := (if bound in counts then counts[bound] else 0) + 1];
      }
    }
    assert ts[..|ts|] == ts;
    rows := [];
    for i := 0 to |instances|
      invariant |rows| == i
      invariant forall j | 0 <= j < i ::
                  rows[j] == Row(instances[j], Sum(ts, On(instances[j])), Tally(ts, BoundTo(instances[j])))
    {
      var n := instances[i];
      rows := rows + [Row(n, At(reserved, n), if n in counts then counts[n] else 0)];
    }
  }

  // ------------------------------------------------------------------ what is counted

  ghost function PlacesOf(ts: seq<Tenant>, which: Tenant -> bool): set<int> { set i | 0 <= i < |ts| && which(ts[i]) }

  lemma {:induction false} TallyCounts(ts: seq<Tenant>, which: Tenant -> bool)
    ensures Tally(ts, which) == |PlacesOf(ts, which)|
  {
    if ts != [] {
      TallyCounts(ts[..|ts| - 1], which);
      OnePlaceMore(ts, which);
    }
  }

  lemma OnePlaceMore(ts: seq<Tenant>, which: Tenant -> bool)
    requires ts != []
    ensures var last, before := |ts| - 1, PlacesOf(ts[..|ts| - 1], which);
            last !in before && PlacesOf(ts, which) == if which(ts[last]) then before + {last} else before
  {
    assert forall i | 0 <= i < |ts| - 1 :: ts[..|ts| - 1][i] == ts[i];
  }

  // The places in the list of the tenants that are bound, that are of a class, and that are bound here.
  ghost function BoundAt(ts: seq<Tenant>): set<int> { set i | 0 <= i < |ts| && ts[i].bound != "" }

  ghost function ClassedAt(ts: seq<Tenant>, qos: QoS): set<int> { set i | 0 <= i < |ts| && ts[i].qos == qos }

  ghost function PlacedAt(ts: seq<Tenant>, name: string): set<int> { set i | 0 <= i < |ts| && ts[i].bound == name }

  // Each count is a number of places in the list.
  lemma CountsAre(ts: seq<Tenant>, name: string)
    ensures Tally(ts, IsBound) == |BoundAt(ts)| && Tally(ts, BoundTo(name)) == |PlacedAt(ts, name)|
    ensures Tally(ts, IsGuaranteed) == |ClassedAt(ts, Guaranteed)|
    ensures Tally(ts, IsBurstable) == |ClassedAt(ts, Burstable)|
  {
    TallyCounts(ts, IsBound);
    TallyCounts(ts, BoundTo(name));
    TallyCounts(ts, IsGuaranteed);
    TallyCounts(ts, IsBurstable);
    assert PlacesOf(ts, IsBound) == BoundAt(ts) && PlacesOf(ts, BoundTo(name)) == PlacedAt(ts, name);
    assert PlacesOf(ts, IsGuaranteed) == ClassedAt(ts, Guaranteed);
    assert PlacesOf(ts, IsBurstable) == ClassedAt(ts, Burstable);
  }

  // ------------------------------------------------------------------ conservation

  lemma {:induction false} SumsJoin(a: seq<Tenant>, b: seq<Tenant>, of: Tenant -> int)
    ensures Sum(a + b, of) == Sum(a, of) + Sum(b, of)
  {
    if b == [] {
      assert a + b == a;
    } else {
      SumsJoin(a, b[..|b| - 1], of);
      assert (a + b)[..|a + b| - 1] == a + b[..|b| - 1];
    }
  }

  // One tenant more, anywhere in the list, adds its own guarantee to what is reserved and its own burst to
  // what is committed, and its guarantee to the row of the instance it is bound to and to no other.
  lemma OneTenantMore(a: seq<Tenant>, t: Tenant, b: seq<Tenant>, name: string)
    ensures Sum(a + [t] + b, Guarantee) == Sum(a + b, Guarantee) + t.guaranteed
    ensures Sum(a + [t] + b, Burst) == Sum(a + b, Burst) + t.burstable
    ensures name != "" ==>
              Sum(a + [t] + b, On(name)) == Sum(a + b, On(name)) + if t.bound == name then t.guaranteed else 0
  {
    OneMoreOf(a, t, b, Guarantee);
    OneMoreOf(a, t, b, Burst);
    OneMoreOf(a, t, b, On(name));
  }

  lemma OneMoreOf(a: seq<Tenant>, t: Tenant, b: seq<Tenant>, of: Tenant -> int)
    ensures Sum(a + [t] + b, of) == Sum(a + b, of) + of(t)
  {
    SumsJoin(a + [t], b, of);
    SumsJoin(a, [t], of);
    SumsJoin(a, b, of);
    assert [t][..0] == [];
  }

  function RowSum(rows: seq<Row>): int {
    if rows == [] then 0 else RowSum(rows[..|rows| - 1]) + rows[|rows| - 1].reserved
  }

  ghost predicate RowsOf(ts: seq<Tenant>, instances: seq<string>, rows: seq<Row>) {
    && |rows| == |instances|
    && forall i | 0 <= i < |rows| :: rows[i].name == instances[i] && rows[i].reserved == Sum(ts, On(instances[i]))
  }

  ghost predicate Members(instances: seq<string>) {
    && (forall i | 0 <= i < |instances| :: instances[i] != "")
    && (forall i, j | 0 <= i < j < |instances| :: instances[i] != instances[j])
  }

  // Taking one instance in moves exactly its tenants' guarantees from outside to its row.
  lemma {:induction false} OneMore(ts: seq<Tenant>, names: seq<string>, name: string)
    requires name != "" && name !in names
    ensures Sum(ts, Off(names)) == Sum(ts, Off(names + [name])) + Sum(ts, On(name))
  {
    if ts != [] { OneMore(ts[..|ts| - 1], names, name); }
  }

  lemma {:induction false} NothingOff(ts: seq<Tenant>)
    ensures Sum(ts, Off([])) == Sum(ts, Guarantee)
  {
    if ts != [] { NothingOff(ts[..|ts| - 1]); }
  }

  // What the rows reserve, and what tenants bound to none of them hold, is all that is reserved.
  lemma {:induction false} ReservationsAreConserved(ts: seq<Tenant>, instances: seq<string>, rows: seq<Row>)
    requires Members(instances) && RowsOf(ts, instances, rows)
    ensures RowSum(rows) + Sum(ts, Off(instances)) == Sum(ts, Guarantee)
    decreases |rows|
  {
    if rows == [] {
      NothingOff(ts);
    } else {
      var last := |rows| - 1;
      ReservationsAreConserved(ts, instances[..last], rows[..last]);
      assert instances == instances[..last] + [instances[last]];
      assert instances[last] !in instances[..last];
      OneMore(ts, instances[..last], instances[last]);
    }
  }
}
