/** What the planner's arithmetic promises: scale-out converges, and a volume grows once and enough. */
module PlanLaws {
  import opened Common
  import opened Autoscale
  import opened Planner

  // ------------------------------------------------------------------ storage growth

  lemma RoundUp(bytes: nat)
    ensures bytes <= RoundUpToGiB(bytes) < bytes + GIBIBYTE
    ensures RoundUpToGiB(bytes) % GIBIBYTE == 0
    ensures bytes > 0 ==> RoundUpToGiB(bytes) >= GIBIBYTE
  {
    var q := (bytes + GIBIBYTE - 1) / GIBIBYTE;
    assert RoundUpToGiB(bytes) == q * GIBIBYTE;
  }

  lemma Division(a: nat, b: nat)
    requires b > 0
    ensures a / b * b <= a < (a / b + 1) * b
  {}

  lemma MulMonotone(a: nat, b: nat, c: nat)
    requires a <= b
    ensures a * c <= b * c
  {}

  lemma PercentAtMost(part: nat, whole: nat, limit: nat)
    requires whole > 0 && part * 100 < (limit + 1) * whole
    ensures Percent(part, whole) <= limit
  {
    var q := part * 100 / whole;
    Division(part * 100, whole);
    if q >= limit + 1 {
      MulMonotone(limit + 1, q, whole);
      assert false;
    }
  }

  lemma Enough(x: nat, to: nat, quotient: nat, grown: nat)
    requires x < (quotient + 1) * to && quotient <= grown && to <= grown
    ensures x < (to + 1) * grown
  {
    MulMonotone(quotient, grown, to);
    assert (quotient + 1) * to == quotient * to + to && (to + 1) * grown == grown * to + grown;
  }

  lemma QuotientPastSize(x: nat, to: nat, size: nat)
    requires to > 0 && size > 0 && x / size > to
    ensures size <= x / to && (to <= size ==> size < x / to)
  {
    Division(x, size);
    Division(x, to);
    MulMonotone(to + 1, x / size, size);
    assert (to + 1) * size == size * to + size;
    assert size * to + size < (x / to + 1) * to;
    if x / to < size { MulMonotone(x / to + 1, size, to); assert false; }
    assert (size + 1) * to == size * to + to;
  }

  // A recommendation is strictly above the allocation and within the cap, and re-evaluating at the
  // recommended size with the same usage recommends nothing.
  lemma GrowsOnce(i: InstanceSignal, p: Policy)
    requires StorageTarget(i, p).Some?
    ensures var grown := StorageTarget(i, p).value;
            && grown > i.allocatedBytes && (p.maxBytes > 0 ==> grown <= p.maxBytes)
            && Percent(i.usedBytes, i.allocatedBytes) >= p.expandAt
            && StorageTarget(i.(allocatedBytes := grown), p).None?
  {}

  predicate Capped(used: nat, p: Policy) {
    p.maxBytes > 0 && RoundUpToGiB(used * 100 / ExpandTo(p)) > p.maxBytes
  }

  // Unless the cap cut it short, the growth brings usage down to the percentage asked for, although
  // the division rounds down and only then the size rounds up.
  lemma GrowsEnough(i: InstanceSignal, p: Policy)
    requires StorageTarget(i, p).Some? && ExpandTo(p) <= 99 && !Capped(i.usedBytes, p)
    ensures Percent(i.usedBytes, StorageTarget(i, p).value) <= ExpandTo(p)
  {
    var to := ExpandTo(p);
    var quotient := i.usedBytes * 100 / to;
    RoundUp(quotient);
    Division(i.usedBytes * 100, to);
    var grown := RoundUpToGiB(quotient);
    assert StorageTarget(i, p).value == grown;
    assert quotient > 0;
    Enough(i.usedBytes * 100, to, quotient, grown);
    PercentAtMost(i.usedBytes, grown, to);
  }

  // And it does grow: a volume past both thresholds gets a recommendation whenever the cap lets it.
  lemma GrowsWhenFull(i: InstanceSignal, p: Policy)
    requires i.allocatedBytes > 0 && !Capped(i.usedBytes, p)
    requires Percent(i.usedBytes, i.allocatedBytes) >= p.expandAt
    requires Percent(i.usedBytes, i.allocatedBytes) > ExpandTo(p) && ExpandTo(p) <= 99
    ensures StorageTarget(i, p).Some?
  {
    var to, size := ExpandTo(p), i.allocatedBytes;
    var quotient := i.usedBytes * 100 / to;
    QuotientPastSize(i.usedBytes * 100, to, size);
    RoundUp(quotient);
    assert RoundUpToGiB(quotient) > size;
    assert Wanted(i.usedBytes, p) == RoundUpToGiB(quotient);
    assert i.usedBytes > 0;
  }

  // ------------------------------------------------------------------ how many members

  // Outside the dead band the recommendation is the fewest members, within the bounds, that carry the
  // measured load at the target; inside it, and with nothing measured, it never shrinks a pool that is
  // within its bounds.
  lemma RecommendsFewest(measured: nat, serving: nat, utilization: nat, p: Policy, k: nat)
    requires p.minInstances <= k < p.maxInstances
    ensures var r := RecommendedInstances(measured, serving, utilization, p);
            var outside := utilization > p.target + p.tolerance || utilization + p.tolerance < p.target;
            && (measured > 0 && p.target > 0 && outside ==> (r <= k <==> measured * utilization <= p.target * k))
            && (measured > 0 && p.target > 0 && !outside ==> r == Clamp(serving, p.minInstances, p.maxInstances))
            && (measured == 0 || p.target == 0 ==> r >= serving && (r > serving ==> r == p.minInstances))
  {}

  // A scale-in is proposed only of an instance the repack emptied, in a pool that is measured.  Where
  // every serving member is measured, the pool is past its maximum, or below its target by more than
  // the tolerance with a load the recommended members carry.
  lemma ShrinksOnlyWhenIdle(s: Signals, p: Policy, k: Packing, plan: Plan, target: Option<string>)
    requires IsPlan(s, p, k, plan) && Proposes(plan, p, ScaleIn, target) && p.minInstances <= p.maxInstances
    ensures target.Some? && exists t :: t in plan.targets && t.name == target.value && t.tenants == 0
    ensures plan.measured > 0 && |s.instances| > p.minInstances
    ensures plan.measured == plan.serving && plan.serving <= p.maxInstances ==>
              && plan.utilization + p.tolerance < p.target
              && plan.measured * plan.utilization <= p.target * plan.recommended
  {
    VictimIsEmpty(s, p, k, plan, target.value);
    Shrinks(plan.measured, plan.serving, plan.utilization, p);
  }

  lemma VictimIsEmpty(s: Signals, p: Policy, k: Packing, plan: Plan, name: string)
    requires TargetsOf(s, p, k, plan.targets) && Victim(plan.targets, p, Some(name))
    ensures exists t :: t in plan.targets && t.name == name && t.tenants == 0
    ensures |s.instances| > p.minInstances
  {
    var i :| 0 <= i < |plan.targets| && plan.targets[i].name == name && plan.targets[i].consolidatable;
    assert plan.targets[i] in plan.targets;
  }

  lemma Shrinks(measured: nat, serving: nat, utilization: nat, p: Policy)
    requires p.minInstances <= p.maxInstances && RecommendedInstances(measured, serving, utilization, p) < serving
    ensures measured > 0
    ensures measured == serving && serving <= p.maxInstances ==>
              && utilization + p.tolerance < p.target
              && measured * utilization <= p.target * RecommendedInstances(measured, serving, utilization, p)
  {
    if measured == serving && serving <= p.maxInstances {
      var r := RecommendedInstances(measured, serving, utilization, p);
      RecommendsFewest(measured, serving, utilization, p, r);
      if utilization > p.target + p.tolerance { RatioGrows(measured, utilization, p.target); }
    }
  }

  // Above the band, a scale-in is proposed if and only if the repack emptied some instance and the
  // members the measured load needs are fewer than the serving ones; and where every serving member is
  // measured, if and only if there are more of them than the bounds allow.
  lemma ShrinksOverloadedExactly(s: Signals, p: Policy, k: Packing, plan: Plan)
    requires IsPlan(s, p, k, plan) && p.target > 0 && plan.utilization > p.target + p.tolerance
    ensures plan.measured > 0
    ensures (exists target :: Proposes(plan, p, ScaleIn, target)) <==>
              && plan.consolidationTarget.Some?
              && plan.serving >
                   Clamp(CeilDiv(plan.measured * plan.utilization, p.target), p.minInstances, p.maxInstances)
    ensures plan.measured == plan.serving ==>
              ((exists target :: Proposes(plan, p, ScaleIn, target)) <==>
                 plan.consolidationTarget.Some? && plan.serving > Max(p.minInstances, p.maxInstances))
  {
    Unmeasured(s.instances);
    RatioGrows(plan.measured, plan.utilization, p.target);
    if plan.consolidationTarget.Some? && plan.recommended < plan.serving {
      assert Proposes(plan, p, ScaleIn, plan.consolidationTarget);
    }
  }

  // With the other gates open, the guardrails let it if and only if no member's status says a change is
  // in flight and every tenant has been watched for the whole evidence window.
  lemma ShrinkPermittedExactly(s: Signals, p: Policy, victim: Option<string>)
    requires Assembled(s)
    requires GuardOf(s.(rollout := false, evidenceSpan := p.evidenceWindow), p, victim).Evaluate(ScaleIn) == Allowed
    ensures GuardOf(s, p, victim).Evaluate(ScaleIn) == Allowed <==>
              && (forall i | 0 <= i < |s.instances| :: !s.instances[i].progressing)
              && (if s.tenants == [] || exists i | 0 <= i < |s.tenants| :: s.tenants[i].evidence.None?
                  then p.evidenceWindow <= 0
                  else forall i | 0 <= i < |s.tenants| :: s.tenants[i].evidence.value >= p.evidenceWindow)
  {
    ShrinkGates(s, p, victim);
  }

  lemma ShrinkGates(s: Signals, p: Policy, victim: Option<string>)
    requires GuardOf(s.(rollout := false, evidenceSpan := p.evidenceWindow), p, victim).Evaluate(ScaleIn) == Allowed
    ensures GuardOf(s, p, victim).Evaluate(ScaleIn) == Allowed <==> !s.rollout && s.evidenceSpan >= p.evidenceWindow
  {}

  // So above the band and within its bounds a pool is shrunk only if some member is not up and says
  // nothing of a change in flight.  Where every member that is not up says so, it never is.
  lemma OverloadedShrinkNeedsASilentMember(s: Signals, p: Policy, k: Packing, plan: Plan, target: Option<string>)
    requires IsPlan(s, p, k, plan) && Assembled(s) && p.target > 0 && plan.utilization > p.target + p.tolerance
    requires Proposes(plan, p, ScaleIn, target) && GuardOf(s, p, plan.consolidationTarget).Evaluate(ScaleIn) == Allowed
    requires plan.serving <= Max(p.minInstances, p.maxInstances)
    ensures exists i | 0 <= i < |s.instances| :: !s.instances[i].ready && !s.instances[i].progressing
  {
    assert !s.rollout by { PermissionMeans(GuardOf(s, p, plan.consolidationTarget), ScaleIn); }
    if forall i | 0 <= i < |s.instances| :: s.instances[i].ready {
      AllReadyAllMeasured(s.instances);
      ShrinksOverloadedExactly(s, p, k, plan);
      assert false;
    }
  }

  lemma {:induction false} AllReadyAllMeasured(s: seq<InstanceSignal>)
    requires forall i | 0 <= i < |s| :: s[i].ready
    ensures Count(s, Measurable) == Count(s, Serves)
  {
    if s != [] { AllReadyAllMeasured(s[..|s| - 1]); }
  }

  lemma {:induction false} Unmeasured(s: seq<InstanceSignal>)
    ensures Count(s, Measurable) == 0 ==> Allocatable(s) == 0
  {
    if s != [] { Unmeasured(s[..|s| - 1]); }
  }

  // ------------------------------------------------------------------ convergence

  // A pool of n equal members of capacity c, all serving, carrying `load` between them.
  ghost predicate EqualMembers(s: seq<InstanceSignal>, n: nat, c: nat, load: nat) {
    |s| == n && InUse(s) == load && forall i | 0 <= i < n :: Measurable(s[i]) && s[i].allocatable == c
  }

  lemma {:induction false} EqualSums(s: seq<InstanceSignal>, c: nat)
    requires forall i | 0 <= i < |s| :: Measurable(s[i]) && s[i].allocatable == c
    ensures Count(s, Measurable) == |s| && Count(s, Serves) == |s| && Allocatable(s) == |s| * c
  {
    if s != [] {
      EqualSums(s[..|s| - 1], c);
      assert (|s| - 1) * c + c == |s| * c;
    }
  }

  // The pool asks for one more member.
  predicate Grows(load: nat, c: nat, p: Policy, n: nat) {
    0 < n < p.maxInstances && RecommendedInstances(n, n, Percent(load, n * c), p) > n
  }

  // That is what the plan of such a pool proposes, as far as the size bound lets it.
  lemma PlanGrowsExactly(s: Signals, p: Policy, k: Packing, plan: Plan, c: nat, load: nat)
    requires IsPlan(s, p, k, plan) && EqualMembers(s.instances, |s.instances|, c, load)
    requires |s.instances| < p.maxInstances
    ensures Proposes(plan, p, ScaleOut, None) <==> Grows(load, c, p, |s.instances|)
  {
    EqualSums(s.instances, c);
  }

  // The members the load needs at the target.
  function Needed(load: nat, c: nat, p: Policy): nat
    requires c * p.target > 0
  { CeilDiv(100 * load, c * p.target) }

  lemma RecommendsAtMostNeeded(load: nat, c: nat, p: Policy, n: nat)
    requires n > 0 && c > 0 && p.target > 0 && c * p.target > 0
    ensures CeilDiv(n * Percent(load, n * c), p.target) <= Needed(load, c, p)
  {
    var needed, whole := Needed(load, c, p), n * c;
    var u := Percent(load, whole);
    assert whole > 0;
    assert u * whole <= 100 * load by { assert u == load * 100 / whole; }
    assert 100 * load <= (c * p.target) * needed;
    assert u * whole == c * (n * u) by { assert u * (n * c) == c * (n * u); }
    assert (c * p.target) * needed == c * (p.target * needed);
    Cancel(n * u, p.target * needed, c);
  }

  lemma Cancel(a: nat, b: nat, c: nat)
    requires c > 0 && c * a <= c * b
    ensures a <= b
  {
    assert (b + 1) * c == c * b + c && a * c == c * a;
    if a > b {
      MulMonotone(b + 1, a, c);
      assert false;
    }
  }

  lemma GrowsOnlyTowardsNeed(load: nat, c: nat, p: Policy, n: nat)
    requires c * p.target > 0 && Grows(load, c, p, n)
    ensures n < Max(p.minInstances, Needed(load, c, p))
  {
    assert c > 0 && p.target > 0;
    RecommendsAtMostNeeded(load, c, p, n);
  }

  // The one-at-a-time walk under constant load: where it stops.
  function Walk(load: nat, c: nat, p: Policy, n: nat): (stop: nat)
    requires c * p.target > 0
    ensures n <= stop
    decreases Max(p.minInstances, Needed(load, c, p)) - n
  {
    if Grows(load, c, p, n) then GrowsOnlyTowardsNeed(load, c, p, n); Walk(load, c, p, n + 1) else n
  }

  lemma {:induction false} WalkConverges(load: nat, c: nat, p: Policy, start: nat)
    requires c * p.target > 0
    ensures var stop := Walk(load, c, p, start);
            && start <= stop <= Max(start, Max(p.minInstances, Needed(load, c, p)))
            && stop <= Max(start, p.maxInstances)
            && (stop >= p.maxInstances || Percent(load, stop * c) <= p.target + p.tolerance)
            && forall n | start <= n < stop :: Grows(load, c, p, n)
    decreases Max(p.minInstances, Needed(load, c, p)) - start
  {
    if Grows(load, c, p, start) {
      GrowsOnlyTowardsNeed(load, c, p, start);
      WalkConverges(load, c, p, start + 1);
    } else {
      StopsInBand(load, c, p, start);
    }
  }

  lemma StopsInBand(load: nat, c: nat, p: Policy, n: nat)
    requires p.target > 0 && !Grows(load, c, p, n)
    ensures n >= p.maxInstances || Percent(load, n * c) <= p.target + p.tolerance
  {
    var u := Percent(load, n * c);
    if n == 0 {
      assert n * c == 0;
    } else if u > p.target + p.tolerance {
      RatioGrows(n, u, p.target);
    }
  }

  lemma RatioGrows(n: nat, u: nat, target: nat)
    requires n > 0 && u > target > 0
    ensures CeilDiv(n * u, target) > n
  {
    MulMonotone(target + 1, u, n);
    assert (target + 1) * n == target * n + n && u * n == n * u;
    assert !(CeilDiv(n * u, target) <= n);
  }
}
