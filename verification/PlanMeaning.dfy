/** What a plan says, read off the signals, the policy and the packing it was made from. */
module PlanMeaning {
  import opened Common
  import opened Autoscale
  import opened Planner
  import Cron
  import PlanLaws

  // ------------------------------------------------------------------ what is measured

  ghost function PlacesOf(s: seq<InstanceSignal>, p: InstanceSignal -> bool): set<int> {
    set i | 0 <= i < |s| && p(s[i])
  }

  lemma {:induction false} CountIs(s: seq<InstanceSignal>, p: InstanceSignal -> bool)
    ensures Count(s, p) == |PlacesOf(s, p)|
  {
    if s != [] {
      CountIs(s[..|s| - 1], p);
      OnePlaceMore(s, p);
    }
  }

  lemma OnePlaceMore(s: seq<InstanceSignal>, p: InstanceSignal -> bool)
    requires s != []
    ensures var last, before := |s| - 1, PlacesOf(s[..|s| - 1], p);
            last !in before && PlacesOf(s, p) == if p(s[last]) then before + {last} else before
  {
    assert forall i | 0 <= i < |s| - 1 :: s[..|s| - 1][i] == s[i];
  }

  // The members that are up and may be scheduled on; and those that are, or that are not up yet.
  ghost function UpAt(s: seq<InstanceSignal>): set<int> { set i | 0 <= i < |s| && s[i].ready && s[i].schedulable }

  ghost function InServiceAt(s: seq<InstanceSignal>): set<int> {
    set i | 0 <= i < |s| && (s[i].schedulable || !s[i].ready)
  }

  // One member more, anywhere in the list, adds its own connections to the sums if it is up and may be
  // scheduled on, and nothing otherwise.
  lemma {:induction false} OneMemberMore(a: seq<InstanceSignal>, x: InstanceSignal, b: seq<InstanceSignal>)
    ensures InUse(a + [x] + b) == InUse(a + b) + if x.ready && x.schedulable then x.inUse else 0
    ensures Allocatable(a + [x] + b) == Allocatable(a + b) + if x.ready && x.schedulable then x.allocatable else 0
    decreases |b|
  {
    if b == [] {
      assert (a + [x])[..|a|] == a && a + [x] + b == a + [x] && a + b == a;
    } else {
      var front := b[..|b| - 1];
      OneMemberMore(a, x, front);
      assert (a + [x] + b)[..|a + [x] + b| - 1] == a + [x] + front && (a + b)[..|a + b| - 1] == a + front;
    }
  }

  // The plan's own figures.  Utilization is the whole percentage of what is allocatable that is in use.
  lemma PlanMeans(s: Signals, p: Policy, k: Packing, plan: Plan)
    requires IsPlan(s, p, k, plan)
    ensures plan.observed == |s.instances| && plan.measured == |UpAt(s.instances)|
    ensures plan.serving == |InServiceAt(s.instances)|
    ensures var used, all := InUse(s.instances), Allocatable(s.instances);
            if all == 0 then plan.utilization == 0
            else plan.utilization * all <= used * 100 < (plan.utilization + 1) * all
    ensures plan.stale <==> !s.metricsSeen || (p.staleThreshold > 0 && s.metricsAge > p.staleThreshold)
    ensures plan.evacuation == Allowed <==>
              && !s.paused && (forall i | 0 <= i < |p.blackouts| :: Cron.Shut(s.now, p.blackouts[i]))
              && WithinBudget(p, s)
  {
    CountIs(s.instances, Measurable);
    CountIs(s.instances, Serves);
    assert PlacesOf(s.instances, Measurable) == UpAt(s.instances);
    assert PlacesOf(s.instances, Serves) == InServiceAt(s.instances);
    EvacuationMeans(GuardOf(s, p, plan.consolidationTarget));
    if Allocatable(s.instances) > 0 { PlanLaws.Division(InUse(s.instances) * 100, Allocatable(s.instances)); }
  }

  // ------------------------------------------------------------------ per instance

  // The rows say of every instance what the packing put on it, and call it consolidatable exactly when that
  // is no tenant at all.
  lemma RowsMean(s: Signals, p: Policy, k: Packing, plan: Plan, i: InstanceSignal) returns (t: InstanceTarget)
    requires IsPlan(s, p, k, plan) && i in s.instances
    ensures t in plan.targets && t.name == i.name && t.allocatable == i.allocatable
    ensures t.packed == if i.name in k.connections then k.connections[i.name] else 0
    ensures t.tenants == if i.name in k.tenants then k.tenants[i.name] else 0
    ensures t.consolidatable <==> (i.name in k.tenants ==> k.tenants[i.name] == 0)
    ensures t.storage == StorageTarget(i, p)
    ensures i.allocatedBytes > 0 ==>
              t.usedPercent * i.allocatedBytes <= i.usedBytes * 100 < (t.usedPercent + 1) * i.allocatedBytes
  {
    t := TargetOf(i, p, k);
    if i.allocatedBytes > 0 { PlanLaws.Division(i.usedBytes * 100, i.allocatedBytes); }
  }

  // The size asked for: enough whole gibibytes for the usage to be that percentage of it, rounded up, sixty
  // percent unless the policy says otherwise, and no more than the cap where there is one.
  ghost predicate Sized(used: nat, p: Policy, size: nat) {
    var ideal := used * 100 / (if p.expandTo == 0 then 60 else p.expandTo);
    exists whole: nat ::
      && whole % GIBIBYTE == 0 && ideal <= whole < ideal + GIBIBYTE
      && size == if p.maxBytes > 0 && p.maxBytes < whole then p.maxBytes else whole
  }

  // A volume is grown to a size exactly when that is the size asked for, it is more than it has, and its
  // usage is known and at the percentage that calls for it.
  lemma StorageExactly(i: InstanceSignal, p: Policy, size: nat)
    ensures StorageTarget(i, p) == Some(size) <==>
              && i.allocatedBytes > 0 && i.usedBytes > 0 && i.usedBytes * 100 >= p.expandAt * i.allocatedBytes
              && Sized(i.usedBytes, p, size) && size > i.allocatedBytes
  {
    var ideal := i.usedBytes * 100 / ExpandTo(p);
    PlanLaws.RoundUp(ideal);
    assert Sized(i.usedBytes, p, Wanted(i.usedBytes, p)) by { assert RoundUpToGiB(ideal) % GIBIBYTE == 0; }
    if Sized(i.usedBytes, p, size) { OneSize(ideal, i.usedBytes, p, size); }
    if i.allocatedBytes > 0 { PercentExactly(i.usedBytes, i.allocatedBytes, p.expandAt - 1); }
  }

  lemma OneSize(ideal: nat, used: nat, p: Policy, size: nat)
    requires ideal == used * 100 / ExpandTo(p) && Sized(used, p, size)
    ensures size == Wanted(used, p)
  {
    var whole: nat :| whole % GIBIBYTE == 0 && ideal <= whole < ideal + GIBIBYTE
        && size == if p.maxBytes > 0 && p.maxBytes < whole then p.maxBytes else whole;
    PlanLaws.RoundUp(ideal);
    SameMultiple(whole, RoundUpToGiB(ideal));
  }

  lemma SameMultiple(a: nat, b: nat)
    requires a % GIBIBYTE == 0 && b % GIBIBYTE == 0 && a < b + GIBIBYTE && b < a + GIBIBYTE
    ensures a == b
  {}

  // ------------------------------------------------------------------ moves

  lemma {:induction false} TenantNamedIsLast(ts: seq<TenantSignal>, name: string)
    ensures var t := TenantNamed(ts, name);
            if forall j | 0 <= j < |ts| :: ts[j].name != name then t == NO_TENANT
            else exists i | 0 <= i < |ts| ::
                ts[i].name == name && t == ts[i] && forall j | i < j < |ts| :: ts[j].name != name
  {
    if ts != [] && ts[|ts| - 1].name != name {
      var front := ts[..|ts| - 1];
      TenantNamedIsLast(front, name);
      assert forall j | 0 <= j < |front| :: front[j] == ts[j];
    }
  }

  lemma {:induction false} InstanceNamedIsLast(s: seq<InstanceSignal>, name: string)
    ensures var i := InstanceNamed(s, name);
            if forall j | 0 <= j < |s| :: s[j].name != name then i == NO_INSTANCE
            else exists k | 0 <= k < |s| ::
                s[k].name == name && i == s[k] && forall j | k < j < |s| :: s[j].name != name
  {
    if s != [] && s[|s| - 1].name != name {
      var front := s[..|s| - 1];
      InstanceNamedIsLast(front, name);
      assert forall j | 0 <= j < |front| :: front[j] == s[j];
    }
  }

  // Each planned move is the packing's, in the packing's order.  Its worth is what the tenant takes of its
  // source, by guarantee or by packing, whichever is more; and it is unblocked exactly when its tenant may
  // be moved.
  lemma MovesMean(s: Signals, p: Policy, k: Packing, plan: Plan, i: nat)
    requires IsPlan(s, p, k, plan) && i < |plan.moves|
    ensures |plan.moves| == |k.moves|
    ensures var m, a := plan.moves[i], k.moves[i];
            var t, source := TenantNamed(s.tenants, a.tenant), InstanceNamed(s.instances, a.from);
            && m.tenant == a.tenant && m.from == a.from && m.to == a.to
            && (m.blocker.None? <==>
                  && t.migrationAllowed && (p.coldOnly ==> t.cold) && !Loaded(p, source)
                  && (source.name in s.fromSource ==> s.fromSource[source.name] == 0))
            && (source.allocatable > 0 ==>
                  && m.improvement * source.allocatable <= Max(t.guaranteed, t.packed) * 100
                  && Max(t.guaranteed, t.packed) * 100 < (m.improvement + 1) * source.allocatable)
  {
    var g, a := GuardOf(s, p, plan.consolidationTarget), k.moves[i];
    var t, source := TenantNamed(s.tenants, a.tenant), InstanceNamed(s.instances, a.from);
    assert plan.moves[i] == MoveOf(g, a);
    MoveEligibleExactly(g, t, source);
    if source.allocatable > 0 { PlanLaws.Division(Max(t.guaranteed, t.packed) * 100, source.allocatable); }
  }
}
