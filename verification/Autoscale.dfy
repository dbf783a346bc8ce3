/** What the planner reads and the guardrails it asks: pure verdicts over one pass's signals. */
module Autoscale {
  import opened Common
  import Cron

  datatype Class = TenantGucTune | StorageExpand | ScaleOut | Rebalance | VerticalResize | ScaleIn

  // Cheapest and most reversible first; at most one class executes per pass.
  const ACTION_ORDER: seq<Class> := [TenantGucTune, StorageExpand, ScaleOut, Rebalance, VerticalResize, ScaleIn]

  function Rank(c: Class): (r: nat)
    ensures r < |ACTION_ORDER| && ACTION_ORDER[r] == c
  {
    match c
    case TenantGucTune => 0
    case StorageExpand => 1
    case ScaleOut => 2
    case Rebalance => 3
    case VerticalResize => 4
    case ScaleIn => 5
  }

  datatype Mode = Recommend | Auto

  datatype Budget = Budget(maxConcurrent: int, maxPerWindow: int, windows: seq<Cron.Window>)

  datatype Policy = Policy(
    mode: Mode, autoActions: set<Class>,
    minInstances: nat, maxInstances: nat, target: nat, tolerance: nat,
    scaleUpWindow: int, scaleDownWindow: int, staleThreshold: int,
    dwell: int, evidenceWindow: int,
    budget: Budget, blackouts: seq<Cron.Window>,
    expandAt: nat, expandTo: nat, maxBytes: nat,
    rebalanceEnabled: bool, coldOnly: bool, minImbalance: int, forbidAbove: int)

  // `progressing` is that its published status says a change is in flight on it.
  datatype InstanceSignal = InstanceSignal(
    name: string, ready: bool, schedulable: bool, progressing: bool,
    allocatable: nat, inUse: nat, allocatedBytes: nat, usedBytes: nat)

  // `evidence` is the span of its history, absent when it is not metered.
  datatype TenantSignal = TenantSignal(
    name: string, guaranteed: nat, packed: nat, cold: bool, migrationAllowed: bool, evidence: Option<int>)

  datatype Signals = Signals(
    now: int, paused: bool, instances: seq<InstanceSignal>, tenants: seq<TenantSignal>, declared: nat,
    metricsSeen: bool, metricsAge: int, evidenceSpan: int, rollout: bool,
    inFlight: nat, startedInWindow: nat, fromSource: map<string, nat>,
    lastScaleUp: Option<int>, lastScaleDown: Option<int>, consolidatableSince: map<string, int>)

  // The shortest history in the pool, and none when any tenant goes unmetered or there is none.
  ghost predicate IsEvidence(ts: seq<TenantSignal>, span: int) {
    if ts == [] || exists i | 0 <= i < |ts| :: ts[i].evidence.None? then span == 0
    else
      && (exists i | 0 <= i < |ts| :: ts[i].evidence == Some(span))
      && forall i | 0 <= i < |ts| :: span <= ts[i].evidence.value
  }

  // The two signals that are read off the others.
  ghost predicate Assembled(s: Signals) {
    && (s.rollout <==> exists i | 0 <= i < |s.instances| :: s.instances[i].progressing)
    && IsEvidence(s.tenants, s.evidenceSpan)
  }

  method SignalsOf(seen: Signals) returns (s: Signals)
    ensures Assembled(s) && s == seen.(rollout := s.rollout, evidenceSpan := s.evidenceSpan)
  {
    var rollout := false;
    for i := 0 to |seen.instances|
      invariant rollout <==> exists j | 0 <= j < i :: seen.instances[j].progressing
    {
      if seen.instances[i].progressing { rollout := true; }
    }
    var span := EvidenceSpanOf(seen.tenants);
    s := seen.(rollout := rollout, evidenceSpan := span);
  }

  method EvidenceSpanOf(ts: seq<TenantSignal>) returns (span: int)
    ensures IsEvidence(ts, span)
  {
    span := 0;
    for i := 0 to |ts|
      invariant forall j | 0 <= j < i :: ts[j].evidence.Some? && span <= ts[j].evidence.value
      invariant i == 0 ==> span == 0
      invariant i > 0 ==> exists j | 0 <= j < i :: ts[j].evidence == Some(span)
    {
      if ts[i].evidence.None? { return 0; }
      if i == 0 || ts[i].evidence.value < span { span := ts[i].evidence.value; }
    }
  }

  // A share as a whole percentage, rounded down; nothing over nothing is zero.
  function Percent(part: nat, whole: nat): nat { if whole == 0 then 0 else part * 100 / whole }

  predicate Measurable(i: InstanceSignal) { i.ready && i.schedulable }

  // Serving, or on its way to it: everything but what was deliberately taken out of service.
  predicate Serves(i: InstanceSignal) { !i.ready || i.schedulable }

  function Count(s: seq<InstanceSignal>, p: InstanceSignal -> bool): nat {
    if s == [] then 0 else Count(s[..|s| - 1], p) + if p(s[|s| - 1]) then 1 else 0
  }

  lemma {:induction false} CountAll(s: seq<InstanceSignal>, p: InstanceSignal -> bool)
    ensures Count(s, p) <= |s|
    ensures Count(s, p) == |s| <==> forall i | 0 <= i < |s| :: p(s[i])
  {
    if s != [] {
      var rest := s[..|s| - 1];
      CountAll(rest, p);
      assert forall i | 0 <= i < |rest| :: rest[i] == s[i];
    }
  }

  method ServingInstances(s: Signals) returns (serving: nat)
    ensures serving == Count(s.instances, Serves)
  {
    serving := 0;
    for i := 0 to |s.instances|
      invariant serving == Count(s.instances[..i], Serves)
    {
      assert s.instances[..i + 1][..i] == s.instances[..i];
      if s.instances[i].ready && !s.instances[i].schedulable { continue; }
      serving := serving + 1;
    }
    assert s.instances[..|s.instances|] == s.instances;
  }

  predicate IsReady(i: InstanceSignal) { i.ready }

  method ReadyInstances(s: Signals) returns (ready: nat)
    ensures ready == Count(s.instances, IsReady)
    ensures ready == |s.instances| <==> forall i | 0 <= i < |s.instances| :: s.instances[i].ready
  {
    ready := 0;
    for i := 0 to |s.instances|
      invariant ready == Count(s.instances[..i], IsReady)
    {
      assert s.instances[..i + 1][..i] == s.instances[..i];
      if s.instances[i].ready { ready := ready + 1; }
    }
    assert s.instances[..|s.instances|] == s.instances;
    CountAll(s.instances, IsReady);
  }

  // ------------------------------------------------------------------ the guardrails

  datatype Verdict =
    | Allowed | StaleMetrics | RolloutInProgress | BlackoutWindow | RecommendModeOnly | NotOptedIn
    | StabilizationWindow | MigrationBudgetExhausted | OutsideMigrationWindow | DwellTimeNotElapsed
    | InsufficientEvidence | AtInstanceBound | ScaleOutUnrealised | HumanGated | PoolPaused
    | ScheduleInvalid | RebalancingDisabled

  datatype Guard = Guard(policy: Policy, signals: Signals, target: Option<string>) {

    function Staleness(): Verdict {
      if !signals.metricsSeen then StaleMetrics
      else if policy.staleThreshold > 0 && signals.metricsAge > policy.staleThreshold then StaleMetrics
      else Allowed
    }

    function Blackout(): Verdict {
      match Cron.AnyOpen(signals.now, policy.blackouts)
      case Invalid => ScheduleInvalid
      case Open => BlackoutWindow
      case Closed => Allowed
    }

    // Recommend mode executes storage expansion and nothing else.
    function ModeGate(c: Class): Verdict {
      if policy.mode != Auto then if c == StorageExpand then Allowed else RecommendModeOnly
      else if c !in policy.autoActions then NotOptedIn
      else Allowed
    }

    function Since(at: Option<int>): Option<int> {
      match at
      case None => None
      case Some(t) => Some(signals.now - t)
    }

    function ScaleOutGate(): Verdict {
      var members := |signals.instances|;
      if members >= policy.maxInstances then AtInstanceBound
      else if signals.declared > members then ScaleOutUnrealised
      else if members > Count(signals.instances, IsReady) then ScaleOutUnrealised
      else if Since(signals.lastScaleUp).Some? && Since(signals.lastScaleUp).value < policy.scaleUpWindow
      then StabilizationWindow
      else Allowed
    }

    // A concurrency cap, a rate cap, and windows outside which the budget is nothing.
    function MigrationBudget(): Verdict {
      var opening := Cron.AnyOpen(signals.now, policy.budget.windows);
      if policy.budget.windows != [] && opening == Cron.Invalid then ScheduleInvalid
      else if policy.budget.windows != [] && opening == Cron.Closed then OutsideMigrationWindow
      else if policy.budget.maxConcurrent <= 0 then MigrationBudgetExhausted
      else if signals.inFlight >= policy.budget.maxConcurrent then MigrationBudgetExhausted
      else if policy.budget.maxPerWindow > 0 && signals.startedInWindow >= policy.budget.maxPerWindow
      then MigrationBudgetExhausted
      else Allowed
    }

    function RebalanceGate(): Verdict {
      if !policy.rebalanceEnabled then RebalancingDisabled else MigrationBudget()
    }

    // The clock read is the chosen instance's own.
    function Dwelt(): Option<int> {
      match target
      case None => None
      case Some(name) =>
        if name in signals.consolidatableSince then Some(signals.now - signals.consolidatableSince[name]) else None
    }

    function ScaleInGate(): Verdict {
      if |signals.instances| <= policy.minInstances then AtInstanceBound
      else if Since(signals.lastScaleDown).Some? && Since(signals.lastScaleDown).value < policy.scaleDownWindow
      then StabilizationWindow
      else if signals.evidenceSpan < policy.evidenceWindow then InsufficientEvidence
      else if Dwelt().None? then DwellTimeNotElapsed
      else if Dwelt().value < policy.dwell then DwellTimeNotElapsed
      else MigrationBudget()
    }

    function PerClass(c: Class): Verdict {
      match c
      case StorageExpand => Allowed
      case TenantGucTune => Allowed
      case ScaleOut => ScaleOutGate()
      case Rebalance => RebalanceGate()
      case VerticalResize => HumanGated
      case ScaleIn => ScaleInGate()
    }

    function Evaluate(c: Class): Verdict {
      if signals.paused then PoolPaused
      else if Staleness() != Allowed then Staleness()
      else if signals.rollout then RolloutInProgress
      else if Blackout() != Allowed then Blackout()
      else if ModeGate(c) != Allowed then ModeGate(c)
      else PerClass(c)
    }

    // A drain is an instruction: no mode, no stabilization, no rollout check, no heat.
    function Evacuation(): Verdict {
      if signals.paused then PoolPaused
      else if Blackout() != Allowed then Blackout()
      else MigrationBudget()
    }

    function MoveEligible(t: TenantSignal, source: InstanceSignal): Option<Blocker> {
      if !t.migrationAllowed then Some(WorkloadClass)
      else if policy.coldOnly && !t.cold then Some(Heat)
      else if Percent(source.inUse, source.allocatable) > policy.forbidAbove then Some(SourceLoad)
      else if source.name in signals.fromSource && signals.fromSource[source.name] > 0 then Some(InFlightMove)
      else None
    }

    function EvacuationEligible(t: TenantSignal, source: InstanceSignal): Option<Blocker> {
      this.(policy := policy.(coldOnly := false)).MoveEligible(t, source)
    }
  }

  datatype Blocker = WorkloadClass | Heat | SourceLoad | InFlightMove

  // Dropping the heat rule drops nothing else, whichever refusal was reported first.
  lemma EvacuationDropsOnlyHeat(g: Guard, t: TenantSignal, source: InstanceSignal)
    ensures g.MoveEligible(t, source).None? <==>
              g.EvacuationEligible(t, source).None? && (g.policy.coldOnly ==> t.cold)
    ensures g.MoveEligible(t, source) != Some(Heat) ==> g.MoveEligible(t, source) == g.EvacuationEligible(t, source)
  {}

  // ------------------------------------------------------------------ what a verdict means

  predicate Fresh(p: Policy, s: Signals) {
    s.metricsSeen && (p.staleThreshold > 0 ==> s.metricsAge <= p.staleThreshold)
  }

  // The last such change, if there was one, is a whole window ago.
  predicate Stable(s: Signals, last: Option<int>, window: int) { last.Some? ==> s.now - last.value >= window }

  // Room for one more migration: under the concurrency cap, under the rate cap where there is one, and
  // where the budget has windows, inside the first that is not shut.
  ghost predicate WithinBudget(p: Policy, s: Signals) {
    && s.inFlight < p.budget.maxConcurrent
    && (p.budget.maxPerWindow > 0 ==> s.startedInWindow < p.budget.maxPerWindow)
    && (p.budget.windows != [] ==>
          exists i | 0 <= i < |p.budget.windows| && !Cron.Malformed(p.budget.windows[i])
              && !Cron.Shut(s.now, p.budget.windows[i]) ::
            forall j | 0 <= j < i :: Cron.Shut(s.now, p.budget.windows[j]))
  }

  lemma BudgetExactly(g: Guard)
    ensures g.MigrationBudget() == Allowed <==> WithinBudget(g.policy, g.signals)
  {
    Cron.AnyOpenExactly(g.signals.now, g.policy.budget.windows);
  }

  lemma ScaleOutExactly(g: Guard)
    ensures g.ScaleOutGate() == Allowed <==>
              && g.signals.declared <= |g.signals.instances| < g.policy.maxInstances
              && (forall i | 0 <= i < |g.signals.instances| :: g.signals.instances[i].ready)
              && Stable(g.signals, g.signals.lastScaleUp, g.policy.scaleUpWindow)
  {
    CountAll(g.signals.instances, IsReady);
  }

  lemma ScaleInExactly(g: Guard)
    ensures g.ScaleInGate() == Allowed <==>
              && |g.signals.instances| > g.policy.minInstances
              && Stable(g.signals, g.signals.lastScaleDown, g.policy.scaleDownWindow)
              && g.signals.evidenceSpan >= g.policy.evidenceWindow
              && g.target.Some? && g.target.value in g.signals.consolidatableSince
              && g.signals.now - g.signals.consolidatableSince[g.target.value] >= g.policy.dwell
              && WithinBudget(g.policy, g.signals)
  {
    BudgetExactly(g);
  }

  // A class is permitted exactly when the pool is running and not rolling out, its metrics were seen and
  // are no older than the threshold where there is one, every blackout window is shut, the class was opted
  // into (without auto mode, it is storage expansion), and what that class asks for itself holds.
  lemma PermissionMeans(g: Guard, c: Class)
    ensures g.Evaluate(c) == Allowed <==>
              && !g.signals.paused && !g.signals.rollout && c != VerticalResize
              && g.signals.metricsSeen
              && (g.policy.staleThreshold > 0 ==> g.signals.metricsAge <= g.policy.staleThreshold)
              && (forall i | 0 <= i < |g.policy.blackouts| :: Cron.Shut(g.signals.now, g.policy.blackouts[i]))
              && (if g.policy.mode == Auto then c in g.policy.autoActions else c == StorageExpand)
              && (c == ScaleOut ==>
                    && g.signals.declared <= |g.signals.instances| < g.policy.maxInstances
                    && (forall i | 0 <= i < |g.signals.instances| :: g.signals.instances[i].ready)
                    && Stable(g.signals, g.signals.lastScaleUp, g.policy.scaleUpWindow))
              && (c == Rebalance ==> g.policy.rebalanceEnabled && WithinBudget(g.policy, g.signals))
              && (c == ScaleIn ==>
                    && |g.signals.instances| > g.policy.minInstances
                    && Stable(g.signals, g.signals.lastScaleDown, g.policy.scaleDownWindow)
                    && g.signals.evidenceSpan >= g.policy.evidenceWindow
                    && g.target.Some? && g.target.value in g.signals.consolidatableSince
                    && g.signals.now - g.signals.consolidatableSince[g.target.value] >= g.policy.dwell
                    && WithinBudget(g.policy, g.signals))
  {
    Cron.AnyOpenExactly(g.signals.now, g.policy.blackouts);
    BudgetExactly(g);
    ScaleOutExactly(g);
    ScaleInExactly(g);
  }

  // An evacuation asks only that the pool runs, every blackout is shut and the budget has room.
  lemma EvacuationMeans(g: Guard)
    ensures g.Evacuation() == Allowed <==>
              && !g.signals.paused
              && (forall i | 0 <= i < |g.policy.blackouts| :: Cron.Shut(g.signals.now, g.policy.blackouts[i]))
              && WithinBudget(g.policy, g.signals)
  {
    Cron.AnyOpenExactly(g.signals.now, g.policy.blackouts);
    BudgetExactly(g);
  }

  // A blackout that cannot be read permits nothing, wherever in the list it stands.
  lemma MalformedBlackoutStopsAll(g: Guard, i: nat, c: Class)
    requires i < |g.policy.blackouts| && Cron.Malformed(g.policy.blackouts[i])
    ensures g.Evaluate(c) != Allowed && g.Evacuation() != Allowed
  {
    PermissionMeans(g, c);
    EvacuationMeans(g);
    assert !Cron.Shut(g.signals.now, g.policy.blackouts[i]);
  }

  ghost predicate SomeMalformed(windows: seq<Cron.Window>) {
    exists i | 0 <= i < |windows| :: Cron.Malformed(windows[i])
  }

  // No refusal is reported for a reason that does not hold.
  lemma RefusalIsTrue(g: Guard, c: Class)
    ensures match g.Evaluate(c)
            case PoolPaused => g.signals.paused
            case StaleMetrics => !Fresh(g.policy, g.signals)
            case RolloutInProgress => g.signals.rollout
            case BlackoutWindow =>
              exists i | 0 <= i < |g.policy.blackouts| ::
                !Cron.Malformed(g.policy.blackouts[i]) && !Cron.Shut(g.signals.now, g.policy.blackouts[i])
            case ScheduleInvalid => SomeMalformed(g.policy.blackouts) || SomeMalformed(g.policy.budget.windows)
            case RecommendModeOnly => g.policy.mode == Recommend && c != StorageExpand
            case NotOptedIn => g.policy.mode == Auto && c !in g.policy.autoActions
            case HumanGated => c == VerticalResize
            case RebalancingDisabled => c == Rebalance && !g.policy.rebalanceEnabled
            case AtInstanceBound =>
              || (c == ScaleOut && |g.signals.instances| >= g.policy.maxInstances)
              || (c == ScaleIn && |g.signals.instances| <= g.policy.minInstances)
            case ScaleOutUnrealised =>
              && c == ScaleOut
              && (|| g.signals.declared > |g.signals.instances|
                  || exists i | 0 <= i < |g.signals.instances| :: !g.signals.instances[i].ready)
            case StabilizationWindow =>
              || (c == ScaleOut && !Stable(g.signals, g.signals.lastScaleUp, g.policy.scaleUpWindow))
              || (c == ScaleIn && !Stable(g.signals, g.signals.lastScaleDown, g.policy.scaleDownWindow))
            case InsufficientEvidence => c == ScaleIn && g.signals.evidenceSpan < g.policy.evidenceWindow
            case DwellTimeNotElapsed =>
              && c == ScaleIn
              && (g.target.Some? && g.target.value in g.signals.consolidatableSince ==>
                    g.signals.now - g.signals.consolidatableSince[g.target.value] < g.policy.dwell)
            case MigrationBudgetExhausted =>
              && (c == Rebalance || c == ScaleIn)
              && (|| g.signals.inFlight >= g.policy.budget.maxConcurrent
                  || (g.policy.budget.maxPerWindow > 0 && g.signals.startedInWindow >= g.policy.budget.maxPerWindow))
            case OutsideMigrationWindow =>
              && (c == Rebalance || c == ScaleIn) && g.policy.budget.windows != []
              && forall i | 0 <= i < |g.policy.budget.windows| :: Cron.Shut(g.signals.now, g.policy.budget.windows[i])
            case Allowed => true
  {
    Cron.AnyOpenExactly(g.signals.now, g.policy.blackouts);
    BudgetRefusalIsTrue(g);
    CountAll(g.signals.instances, IsReady);
  }

  lemma BudgetRefusalIsTrue(g: Guard)
    ensures match g.MigrationBudget()
            case ScheduleInvalid => SomeMalformed(g.policy.budget.windows)
            case OutsideMigrationWindow =>
              && g.policy.budget.windows != []
              && forall i | 0 <= i < |g.policy.budget.windows| :: Cron.Shut(g.signals.now, g.policy.budget.windows[i])
            case MigrationBudgetExhausted =>
              || g.signals.inFlight >= g.policy.budget.maxConcurrent
              || (g.policy.budget.maxPerWindow > 0 && g.signals.startedInWindow >= g.policy.budget.maxPerWindow)
            case v => v == Allowed
  {
    Cron.AnyOpenExactly(g.signals.now, g.policy.budget.windows);
  }

  // A scale-out is allowed only when every declared member exists, all of them are up, there is room
  // for one more, and the last one is a whole window ago.
  lemma ScaleOutMeans(g: Guard)
    requires g.Evaluate(ScaleOut) == Allowed
    ensures g.signals.declared <= |g.signals.instances| < g.policy.maxInstances
    ensures forall i | 0 <= i < |g.signals.instances| :: g.signals.instances[i].ready
    ensures g.signals.lastScaleUp.Some? ==> g.signals.now - g.signals.lastScaleUp.value >= g.policy.scaleUpWindow
  {
    CountAll(g.signals.instances, IsReady);
  }

  lemma ScaleInMeans(g: Guard)
    requires g.Evaluate(ScaleIn) == Allowed
    ensures g.target.Some? && g.target.value in g.signals.consolidatableSince
    ensures g.signals.now - g.signals.consolidatableSince[g.target.value] >= g.policy.dwell
    ensures |g.signals.instances| > g.policy.minInstances && g.signals.evidenceSpan >= g.policy.evidenceWindow
    ensures g.signals.lastScaleDown.Some? ==> g.signals.now - g.signals.lastScaleDown.value >= g.policy.scaleDownWindow
  {}

  // ------------------------------------------------------------------ which tenant may be moved

  // The share is over the limit exactly when the part is at least one whole percent more of the whole.
  lemma PercentExactly(part: nat, whole: nat, limit: int)
    ensures whole > 0 ==> (Percent(part, whole) > limit <==> part * 100 >= (limit + 1) * whole)
    ensures whole == 0 ==> Percent(part, whole) == 0
  {
    if whole > 0 { QuotientAbove(part * 100, whole, limit); }
  }

  lemma QuotientAbove(a: nat, b: nat, k: int)
    requires b > 0
    ensures a / b > k <==> a >= (k + 1) * b
  {
    var q := a / b;
    assert a == q * b + a % b;
    if q > k {
      AtMostTimes(k + 1, q, b);
    } else {
      AtMostTimes(q + 1, k + 1, b);
      assert (q + 1) * b == q * b + b;
    }
  }

  lemma AtMostTimes(a: int, b: int, c: nat)
    requires a <= b
    ensures a * c <= b * c
  {}

  // A tenant may be moved exactly when its class allows it, it is cold or heat does not matter, its source
  // is not above the limit, and nothing is already leaving that source; and a refusal is for one of those.
  lemma MoveEligibleExactly(g: Guard, t: TenantSignal, source: InstanceSignal)
    ensures g.MoveEligible(t, source).None? <==>
              && t.migrationAllowed && (g.policy.coldOnly ==> t.cold) && !Loaded(g.policy, source)
              && (source.name in g.signals.fromSource ==> g.signals.fromSource[source.name] == 0)
    ensures match g.MoveEligible(t, source)
            case Some(WorkloadClass) => !t.migrationAllowed
            case Some(Heat) => g.policy.coldOnly && !t.cold
            case Some(SourceLoad) => Loaded(g.policy, source)
            case Some(InFlightMove) => source.name in g.signals.fromSource && g.signals.fromSource[source.name] > 0
            case None => true
  {
    PercentExactly(source.inUse, source.allocatable, g.policy.forbidAbove);
  }

  predicate Loaded(p: Policy, source: InstanceSignal) {
    if source.allocatable == 0 then p.forbidAbove < 0
    else source.inUse * 100 >= (p.forbidAbove + 1) * source.allocatable
  }
}
