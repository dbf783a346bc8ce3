/** The planner: one recommendation from one pass's signals.  What the packer decided is an input. */
module Planner {
  import opened Common
  import opened Autoscale
  import opened Sorting

  datatype Assignment = Assignment(tenant: string, from: string, to: string)

  // The repack: connections and tenants per instance, and the moves it implies.
  datatype Packing = Packing(connections: map<string, nat>, tenants: map<string, nat>, moves: seq<Assignment>)

  datatype InstanceTarget = InstanceTarget(
    name: string, allocatable: nat, packed: nat, tenants: nat, usedPercent: nat,
    storage: Option<nat>, consolidatable: bool)

  datatype Move = Move(tenant: string, from: string, to: string, improvement: nat, blocker: Option<Blocker>)

  // `target` is the instance acted on; None is the pool itself.
  datatype Action = Action(class_: Class, target: Option<string>, verdict: Verdict)

  datatype Plan = Plan(
    observed: nat, measured: nat, serving: nat, utilization: nat, recommended: nat,
    stale: bool, evacuation: Verdict,
    targets: seq<InstanceTarget>, consolidationTarget: Option<string>, moves: seq<Move>, actions: seq<Action>)

  // ------------------------------------------------------------------ how many members

  function Clamp(value: int, low: int, high: int): (r: int)
    ensures low <= r && (low <= value <= high ==> r == value)
    ensures low <= high ==> r <= high
  { Min(Max(value, low), Max(low, high)) }

  function CeilDiv(a: nat, b: nat): (q: nat)
    requires b > 0
    ensures forall k: nat :: q <= k <==> a <= b * k
  {
    CeilDivLeast(a, b, (a + b - 1) / b);
    (a + b - 1) / b
  }

  lemma CeilDivLeast(a: nat, b: nat, q: nat)
    requires b > 0 && q == (a + b - 1) / b
    ensures forall k: nat :: q <= k <==> a <= b * k
  {
    var n := a + b - 1;
    assert q * b <= n < q * b + b;
    forall k: nat ensures q <= k <==> a <= b * k { CeilDivAt(a, b, q, k); }
  }

  lemma CeilDivAt(a: nat, b: nat, q: nat, k: nat)
    requires b > 0 && q * b <= a + b - 1 < q * b + b
    ensures q <= k <==> a <= b * k
  {
    if q <= k { Multiples(q, k, b); } else { Multiples(k + 1, q, b); }
  }

  lemma Multiples(a: nat, b: nat, c: nat)
    requires a <= b
    ensures a * c <= b * c
  {}

  // The ratio with its dead band, in members that serve.
  function RecommendedInstances(measured: nat, serving: nat, utilization: nat, p: Policy): nat {
    if measured == 0 || p.target == 0 then Max(serving, p.minInstances)
    else
      var deviation := if utilization < p.target then p.target - utilization else utilization - p.target;
      if deviation <= p.tolerance then Clamp(serving, p.minInstances, p.maxInstances)
      else Clamp(CeilDiv(measured * utilization, p.target), p.minInstances, p.maxInstances)
  }

  function InUse(s: seq<InstanceSignal>): nat {
    if s == [] then 0 else InUse(s[..|s| - 1]) + if Measurable(s[|s| - 1]) then s[|s| - 1].inUse else 0
  }

  function Allocatable(s: seq<InstanceSignal>): nat {
    if s == [] then 0 else Allocatable(s[..|s| - 1]) + if Measurable(s[|s| - 1]) then s[|s| - 1].allocatable else 0
  }

  // ------------------------------------------------------------------ storage

  const GIBIBYTE: nat := 1024 * 1024 * 1024

  const DEFAULT_EXPAND_TO: nat := 60

  function RoundUpToGiB(bytes: nat): nat { (bytes + GIBIBYTE - 1) / GIBIBYTE * GIBIBYTE }

  function ExpandTo(p: Policy): nat { if p.expandTo == 0 then DEFAULT_EXPAND_TO else p.expandTo }

  function Wanted(used: nat, p: Policy): nat {
    var wanted := RoundUpToGiB(used * 100 / ExpandTo(p));
    if p.maxBytes > 0 then Min(wanted, p.maxBytes) else wanted
  }

  // The size a volume should grow to, if it should grow at all.
  function StorageTarget(i: InstanceSignal, p: Policy): Option<nat> {
    if i.allocatedBytes == 0 || i.usedBytes == 0 then None
    else if Percent(i.usedBytes, i.allocatedBytes) < p.expandAt then None
    else if Wanted(i.usedBytes, p) <= i.allocatedBytes then None
    else Some(Wanted(i.usedBytes, p))
  }

  // ------------------------------------------------------------------ per instance

  function Lookup(m: map<string, nat>, name: string): nat { if name in m then m[name] else 0 }

  function TargetOf(i: InstanceSignal, p: Policy, k: Packing): InstanceTarget {
    InstanceTarget(i.name, i.allocatable, Lookup(k.connections, i.name), Lookup(k.tenants, i.name),
      Percent(i.usedBytes, i.allocatedBytes), StorageTarget(i, p), Lookup(k.tenants, i.name) == 0)
  }

  predicate ByName(a: InstanceTarget, b: InstanceTarget) { a.name == b.name || Before(a.name, b.name) }

  lemma ByNameTotal()
    ensures TotalOrder(ByName)
  {
    forall a, b ensures ByName(a, b) || ByName(b, a) { BeforeTotal(a.name, b.name); }
    forall a, b, c | ByName(a, b) && ByName(b, c) ensures ByName(a, c) {
      if Before(a.name, b.name) && Before(b.name, c.name) { BeforeTransitive(a.name, b.name, c.name); }
    }
  }

  ghost predicate TargetsOf(s: Signals, p: Policy, k: Packing, targets: seq<InstanceTarget>) {
    && Sorted(targets, ByName) && |targets| == |s.instances|
    && (forall t | t in targets :: exists i :: i in s.instances && t == TargetOf(i, p, k))
    && (forall i | i in s.instances :: TargetOf(i, p, k) in targets)
  }

  method InstanceTargets(s: Signals, p: Policy, k: Packing) returns (targets: seq<InstanceTarget>)
    ensures TargetsOf(s, p, k, targets)
  {
    var rows := [];
    for i := 0 to |s.instances|
      invariant |rows| == i && forall j | 0 <= j < i :: rows[j] == TargetOf(s.instances[j], p, k)
    {
      rows := rows + [TargetOf(s.instances[i], p, k)];
    }
    ByNameTotal();
    targets := SortBy(rows, ByName);
    SameMembers(targets, rows);
    forall i | i in s.instances ensures TargetOf(i, p, k) in targets {
      var j :| 0 <= j < |s.instances| && s.instances[j] == i;
      assert rows[j] in rows;
    }
  }

  // The first row, in name order, the repack left empty; none in a pool already at its minimum.
  ghost predicate Victim(targets: seq<InstanceTarget>, p: Policy, victim: Option<string>) {
    match victim
    case None => |targets| <= p.minInstances || forall i | 0 <= i < |targets| :: !targets[i].consolidatable
    case Some(name) =>
      && |targets| > p.minInstances
      && exists i | 0 <= i < |targets| :: targets[i].name == name && targets[i].consolidatable
           && forall j | 0 <= j < i :: !targets[j].consolidatable
  }

  method ConsolidationTarget(targets: seq<InstanceTarget>, p: Policy) returns (victim: Option<string>)
    ensures Victim(targets, p, victim)
  {
    if |targets| <= p.minInstances { return None; }
    for i := 0 to |targets|
      invariant forall j | 0 <= j < i :: !targets[j].consolidatable
    {
      if targets[i].consolidatable { return Some(targets[i].name); }
    }
    return None;
  }

  // ------------------------------------------------------------------ moves

  const NO_TENANT := TenantSignal("", 0, 0, false, false, None)
  const NO_INSTANCE := InstanceSignal("", false, false, false, 0, 0, 0, 0)

  // The last tenant of that name, or the zero value.
  function TenantNamed(ts: seq<TenantSignal>, name: string): TenantSignal {
    if ts == [] then NO_TENANT
    else if ts[|ts| - 1].name == name then ts[|ts| - 1]
    else TenantNamed(ts[..|ts| - 1], name)
  }

  function InstanceNamed(members: seq<InstanceSignal>, name: string): InstanceSignal {
    if members == [] then NO_INSTANCE
    else if members[|members| - 1].name == name then members[|members| - 1]
    else InstanceNamed(members[..|members| - 1], name)
  }

  function Improvement(t: TenantSignal, source: InstanceSignal): nat {
    Percent(Max(t.guaranteed, t.packed), source.allocatable)
  }

  function MoveOf(g: Guard, a: Assignment): Move {
    var t, source := TenantNamed(g.signals.tenants, a.tenant), InstanceNamed(g.signals.instances, a.from);
    Move(a.tenant, a.from, a.to, Improvement(t, source), g.MoveEligible(t, source))
  }

  ghost predicate MovesOf(g: Guard, k: Packing, moves: seq<Move>) {
    |moves| == |k.moves| && forall i | 0 <= i < |moves| :: moves[i] == MoveOf(g, k.moves[i])
  }

  method IndexTenants(ts: seq<TenantSignal>) returns (index: map<string, TenantSignal>)
    ensures forall n :: (if n in index then index[n] else NO_TENANT) == TenantNamed(ts, n)
  {
    index := map[];
    for i := 0 to |ts|
      invariant forall n :: (if n in index then index[n] else NO_TENANT) == TenantNamed(ts[..i], n)
    {
      assert ts[..i + 1][..i] == ts[..i];
      index := index[ts[i].name := ts[i]];
    }
    assert ts[..|ts|] == ts;
  }

  method IndexInstances(members: seq<InstanceSignal>) returns (index: map<string, InstanceSignal>)
    ensures forall n :: (if n in index then index[n] else NO_INSTANCE) == InstanceNamed(members, n)
  {
    index := map[];
    for i := 0 to |members|
      invariant forall n :: (if n in index then index[n] else NO_INSTANCE) == InstanceNamed(members[..i], n)
    {
      assert members[..i + 1][..i] == members[..i];
      index := index[members[i].name := members[i]];
    }
    assert members[..|members|] == members;
  }

  method Moves(g: Guard, k: Packing) returns (moves: seq<Move>)
    ensures MovesOf(g, k, moves)
  {
    var instances := IndexInstances(g.signals.instances);
    var tenants := IndexTenants(g.signals.tenants);
    moves := [];
    for i := 0 to |k.moves|
      invariant |moves| == i && forall j | 0 <= j < i :: moves[j] == MoveOf(g, k.moves[j])
    {
      var a := k.moves[i];
      var t := if a.tenant in tenants then tenants[a.tenant] else NO_TENANT;
      var source := if a.from in instances then instances[a.from] else NO_INSTANCE;
      moves := moves + [Move(a.tenant, a.from, a.to, Improvement(t, source), g.MoveEligible(t, source))];
    }
  }

  predicate WorthMore(a: Move, b: Move) {
    a.improvement > b.improvement ||
    (a.improvement == b.improvement && (a.tenant == b.tenant || Before(a.tenant, b.tenant)))
  }

  lemma WorthMoreTotal()
    ensures TotalOrder(WorthMore)
  {
    forall a, b ensures WorthMore(a, b) || WorthMore(b, a) { BeforeTotal(a.tenant, b.tenant); }
    forall a, b, c | WorthMore(a, b) && WorthMore(b, c) ensures WorthMore(a, c) {
      if Before(a.tenant, b.tenant) && Before(b.tenant, c.tenant) { BeforeTransitive(a.tenant, b.tenant, c.tenant); }
    }
  }

  function Unblocked(moves: seq<Move>): seq<Move> {
    if moves == [] then []
    else Unblocked(moves[..|moves| - 1]) + if moves[|moves| - 1].blocker.None? then [moves[|moves| - 1]] else []
  }

  lemma {:induction false} UnblockedAre(moves: seq<Move>)
    ensures forall m :: m in Unblocked(moves) <==> m in moves && m.blocker.None?
  {
    if moves != [] {
      UnblockedAre(moves[..|moves| - 1]);
      assert moves == moves[..|moves| - 1] + [moves[|moves| - 1]];
    }
  }

  // Exactly the unblocked moves, best first; moves that tie stay in the order they were planned in.
  method EligibleMoves(moves: seq<Move>) returns (eligible: seq<Move>)
    ensures Sorted(eligible, WorthMore) && multiset(eligible) == multiset(Unblocked(moves))
    ensures forall m :: Ties(eligible, m, WorthMore) == Ties(Unblocked(moves), m, WorthMore)
    ensures forall m :: m in eligible <==> m in moves && m.blocker.None?
  {
    var kept := [];
    for i := 0 to |moves|
      invariant kept == Unblocked(moves[..i])
    {
      assert moves[..i + 1][..i] == moves[..i];
      if moves[i].blocker.None? { kept := kept + [moves[i]]; }
    }
    assert moves[..|moves|] == moves;
    WorthMoreTotal();
    eligible := SortBy(kept, WorthMore);
    SameMembers(eligible, kept);
    UnblockedAre(moves);
  }

  // ------------------------------------------------------------------ actions

  function PackedPercent(t: InstanceTarget): nat { Percent(t.packed, t.allocatable) }

  // The spread between the fullest and the emptiest instance.
  method ImbalancePercent(targets: seq<InstanceTarget>) returns (spread: int)
    ensures Spread(targets, spread)
  {
    if |targets| < 2 { return 0; }
    var lowest, highest := -1, 0;
    ghost var lo, hi := 0, 0;
    for i := 0 to |targets|
      invariant i == 0 ==> lowest == -1 && highest == 0
      invariant i > 0 ==>
                0 <= lo < i && 0 <= hi < i && lowest == PackedPercent(targets[lo])
                    && highest == PackedPercent(targets[hi])
      invariant forall j | 0 <= j < i :: lowest <= PackedPercent(targets[j]) <= highest
    {
      var u := PackedPercent(targets[i]);
      if lowest < 0 || u < lowest { lowest, lo := u, i; }
      if i == 0 || u > highest { hi := i; }
      highest := Max(highest, u);
    }
    spread := highest - lowest;
  }

  ghost predicate Spread(targets: seq<InstanceTarget>, spread: int) {
    if |targets| < 2 then spread == 0
    else
      && (exists i, j | 0 <= i < |targets| && 0 <= j < |targets| ::
            spread == PackedPercent(targets[i]) - PackedPercent(targets[j]))
      && forall i, j | 0 <= i < |targets| && 0 <= j < |targets| ::
           PackedPercent(targets[i]) - PackedPercent(targets[j]) <= spread
  }

  // The action a class has work for on this plan, before anything is asked of the guardrails.
  ghost predicate Proposes(plan: Plan, p: Policy, c: Class, target: Option<string>) {
    match c
    case StorageExpand =>
      exists i | 0 <= i < |plan.targets| ::
        && plan.targets[i].storage.Some? && target == Some(plan.targets[i].name)
        && forall j | 0 <= j < i :: plan.targets[j].storage.None?
    case ScaleOut => target.None? && plan.measured > 0 && plan.recommended > plan.serving
    case Rebalance =>
      target.None? && plan.moves != [] && exists spread :: Spread(plan.targets, spread) && spread >= p.minImbalance
    case ScaleIn => target.Some? && target == plan.consolidationTarget && plan.recommended < plan.serving
    case _ => false
  }

  // One entry per class with work to do, in ACTION_ORDER, each with the guardrails' verdict.
  ghost predicate ActionsOf(g: Guard, plan: Plan) {
    && (forall i, j | 0 <= i < j < |plan.actions| :: Rank(plan.actions[i].class_) < Rank(plan.actions[j].class_))
    && (forall a | a in plan.actions ::
          Proposes(plan, g.policy, a.class_, a.target) && a.verdict == g.Evaluate(a.class_))
    && (forall c, target :: Proposes(plan, g.policy, c, target) ==>
          exists a :: a in plan.actions && a.class_ == c && a.target == target)
  }

  lemma SpreadUnique(targets: seq<InstanceTarget>, a: int, b: int)
    requires Spread(targets, a) && Spread(targets, b)
    ensures a == b
  {}

  // The first row that wants storage.
  method FirstExpansion(targets: seq<InstanceTarget>) returns (first: Option<string>)
    ensures first.None? ==> forall i | 0 <= i < |targets| :: targets[i].storage.None?
    ensures first.Some? ==> exists i | 0 <= i < |targets| ::
              && targets[i].storage.Some? && first == Some(targets[i].name)
              && forall j | 0 <= j < i :: targets[j].storage.None?
  {
    for i := 0 to |targets|
      invariant forall j | 0 <= j < i :: targets[j].storage.None?
    {
      if targets[i].storage.Some? { return Some(targets[i].name); }
    }
    return None;
  }

  function If<T>(present: bool, x: T): seq<T> { if present then [x] else [] }

  // The proposals in the order they are made, which is already ACTION_ORDER.
  function Proposals(expansion: Option<string>, grow: bool, spread: bool, victim: Option<string>,
                     v: Class -> Verdict): seq<Action> {
    If(expansion.Some?, Action(StorageExpand, expansion, v(StorageExpand)))
    + If(grow, Action(ScaleOut, None, v(ScaleOut)))
    + If(spread, Action(Rebalance, None, v(Rebalance)))
    + If(victim.Some?, Action(ScaleIn, victim, v(ScaleIn)))
  }

  lemma ProposalsOrdered(expansion: Option<string>, grow: bool, spread: bool, victim: Option<string>,
                         v: Class -> Verdict)
    ensures var actions := Proposals(expansion, grow, spread, victim, v);
            forall i, j | 0 <= i < j < |actions| :: Rank(actions[i].class_) < Rank(actions[j].class_)
  {}

  lemma ProposalsExactly(expansion: Option<string>, grow: bool, spread: bool, victim: Option<string>,
                         v: Class -> Verdict)
    ensures forall a :: a in Proposals(expansion, grow, spread, victim, v) <==>
              a.verdict == v(a.class_) && HasWork(expansion, grow, spread, victim, a.class_, a.target)
  {}

  predicate HasWork(expansion: Option<string>, grow: bool, spread: bool, victim: Option<string>, c: Class,
                    target: Option<string>) {
    match c
    case StorageExpand => target.Some? && target == expansion
    case ScaleOut => target.None? && grow
    case Rebalance => target.None? && spread
    case ScaleIn => target.Some? && target == victim
    case _ => false
  }

  method Actions(g: Guard, plan: Plan) returns (actions: seq<Action>)
    ensures ActionsOf(g, plan.(actions := actions))
  {
    var expansion := FirstExpansion(plan.targets);
    var grow := plan.measured > 0 && plan.recommended > plan.serving;
    var spread := ImbalancePercent(plan.targets);
    var uneven := |plan.moves| > 0 && spread >= g.policy.minImbalance;
    var victim := if plan.recommended < plan.serving then plan.consolidationTarget else None;
    var v := (c: Class) => g.Evaluate(c);
    actions := Proposals(expansion, grow, uneven, victim, v);
    ghost var done := plan.(actions := actions);
    forall c, target
      ensures Proposes(done, g.policy, c, target) <==> HasWork(expansion, grow, uneven, victim, c, target)
    {
      ProposesExactly(done, g.policy, expansion, spread, c, target);
    }
    ProposalsOrdered(expansion, grow, uneven, victim, v);
    ProposalsExactly(expansion, grow, uneven, victim, v);
    Assemble(done, g.policy, expansion, grow, uneven, victim, v);
  }

  // ActionsOf, for any way of judging a class.
  ghost predicate ActionsBy(v: Class -> Verdict, p: Policy, plan: Plan) {
    && (forall i, j | 0 <= i < j < |plan.actions| :: Rank(plan.actions[i].class_) < Rank(plan.actions[j].class_))
    && (forall a | a in plan.actions :: Proposes(plan, p, a.class_, a.target) && a.verdict == v(a.class_))
    && (forall c, target :: Proposes(plan, p, c, target) ==>
          exists a :: a in plan.actions && a.class_ == c && a.target == target)
  }

  lemma Assemble(plan: Plan, p: Policy, expansion: Option<string>, grow: bool, uneven: bool, victim: Option<string>,
                 v: Class -> Verdict)
    requires forall i, j | 0 <= i < j < |plan.actions| :: Rank(plan.actions[i].class_) < Rank(plan.actions[j].class_)
    requires forall a :: a in plan.actions <==>
               a.verdict == v(a.class_) && HasWork(expansion, grow, uneven, victim, a.class_, a.target)
    requires forall c, target :: Proposes(plan, p, c, target) <==> HasWork(expansion, grow, uneven, victim, c, target)
    ensures ActionsBy(v, p, plan)
  {
    forall c, target | Proposes(plan, p, c, target)
      ensures exists a :: a in plan.actions && a.class_ == c && a.target == target
    {
      assert Action(c, target, v(c)) in plan.actions;
    }
  }

  lemma ProposesExactly(plan: Plan, p: Policy, expansion: Option<string>, spread: int, c: Class, target: Option<string>)
    requires Spread(plan.targets, spread)
    requires expansion.None? ==> forall i | 0 <= i < |plan.targets| :: plan.targets[i].storage.None?
    requires expansion.Some? ==> exists i | 0 <= i < |plan.targets| ::
               && plan.targets[i].storage.Some? && expansion == Some(plan.targets[i].name)
               && forall j | 0 <= j < i :: plan.targets[j].storage.None?
    ensures Proposes(plan, p, c, target) <==>
              HasWork(expansion, plan.measured > 0 && plan.recommended > plan.serving,
                |plan.moves| > 0 && spread >= p.minImbalance,
                if plan.recommended < plan.serving then plan.consolidationTarget else None, c, target)
  {
    if c == Rebalance && Proposes(plan, p, c, target) {
      var s :| Spread(plan.targets, s) && s >= p.minImbalance;
      SpreadUnique(plan.targets, s, spread);
    }
  }

  // ------------------------------------------------------------------ the plan

  function GuardOf(s: Signals, p: Policy, victim: Option<string>): Guard { Guard(p, s, victim) }

  ghost predicate IsPlan(s: Signals, p: Policy, k: Packing, plan: Plan) {
    var g := GuardOf(s, p, plan.consolidationTarget);
    && plan.observed == |s.instances|
    && plan.measured == Count(s.instances, Measurable) && plan.serving == Count(s.instances, Serves)
    && plan.utilization == Percent(InUse(s.instances), Allocatable(s.instances))
    && plan.recommended == RecommendedInstances(plan.measured, plan.serving, plan.utilization, p)
    && plan.stale == (g.Staleness() != Allowed) && plan.evacuation == g.Evacuation()
    && TargetsOf(s, p, k, plan.targets) && Victim(plan.targets, p, plan.consolidationTarget)
    && MovesOf(g, k, plan.moves) && ActionsOf(g, plan)
  }

  method RecommendPlan(s: Signals, p: Policy, k: Packing) returns (plan: Plan)
    ensures IsPlan(s, p, k, plan)
  {
    var serving := ServingInstances(s);
    var measured, inUse, allocatable := 0, 0, 0;
    for i := 0 to |s.instances|
      invariant measured == Count(s.instances[..i], Measurable)
      invariant inUse == InUse(s.instances[..i]) && allocatable == Allocatable(s.instances[..i])
    {
      assert s.instances[..i + 1][..i] == s.instances[..i];
      if !Measurable(s.instances[i]) { continue; }
      measured := measured + 1;
      inUse := inUse + s.instances[i].inUse;
      allocatable := allocatable + s.instances[i].allocatable;
    }
    assert s.instances[..|s.instances|] == s.instances;
    var utilization := Percent(inUse, allocatable);
    var recommended := RecommendedInstances(measured, serving, utilization, p);
    var targets := InstanceTargets(s, p, k);
    var victim := ConsolidationTarget(targets, p);
    var g := GuardOf(s, p, victim);
    var moves := Moves(g, k);
    plan := Plan(|s.instances|, measured, serving, utilization, recommended,
      g.Staleness() != Allowed, g.Evacuation(), targets, victim, moves, []);
    var actions := Actions(g, plan);
    plan := plan.(actions := actions);
  }

  // ------------------------------------------------------------------ what may run

  // The earliest class, in ACTION_ORDER, that is both proposed and permitted.
  ghost predicate IsSelected(plan: Plan, selected: Option<Action>) {
    match selected
    case None => forall a | a in plan.actions :: a.verdict != Allowed
    case Some(b) =>
      && b in plan.actions && b.verdict == Allowed
      && forall a | a in plan.actions && a.verdict == Allowed :: a == b || Rank(b.class_) < Rank(a.class_)
  }

  method ActionFor(plan: Plan, c: Class) returns (found: Option<Action>)
    ensures found.None? ==> forall a | a in plan.actions :: a.class_ != c
    ensures found.Some? ==> found.value in plan.actions && found.value.class_ == c
  {
    for i := 0 to |plan.actions|
      invariant forall j | 0 <= j < i :: plan.actions[j].class_ != c
    {
      if plan.actions[i].class_ == c { return Some(plan.actions[i]); }
    }
    return None;
  }

  ghost predicate OnePerClass(plan: Plan) {
    forall a, b | a in plan.actions && b in plan.actions && a.class_ == b.class_ :: a == b
  }

  method Selected(plan: Plan) returns (selected: Option<Action>)
    requires OnePerClass(plan)
    ensures IsSelected(plan, selected)
  {
    for r := 0 to |ACTION_ORDER|
      invariant forall a | a in plan.actions && Rank(a.class_) < r :: a.verdict != Allowed
    {
      var found := ActionFor(plan, ACTION_ORDER[r]);
      if found.Some? && found.value.verdict == Allowed {
        assert Rank(found.value.class_) == r;
        return found;
      }
    }
    return None;
  }

  lemma PlanHasOnePerClass(g: Guard, plan: Plan)
    requires ActionsOf(g, plan)
    ensures OnePerClass(plan)
  {
    forall a, b | a in plan.actions && b in plan.actions && a.class_ == b.class_ ensures a == b {
      var i :| 0 <= i < |plan.actions| && plan.actions[i] == a;
      var j :| 0 <= j < |plan.actions| && plan.actions[j] == b;
      assert !(i < j) && !(j < i);
    }
  }

  // The first tenant, and the first instance, of the name a move gives.
  function FirstTenant(ts: seq<TenantSignal>, name: string): TenantSignal {
    if ts == [] then NO_TENANT else if ts[0].name == name then ts[0] else FirstTenant(ts[1..], name)
  }

  function FirstInstance(members: seq<InstanceSignal>, name: string): InstanceSignal {
    if members == [] then NO_INSTANCE
    else if members[0].name == name then members[0]
    else FirstInstance(members[1..], name)
  }

  method SignalsFor(s: Signals, move: Move) returns (tenant: TenantSignal, source: InstanceSignal)
    ensures tenant == FirstTenant(s.tenants, move.tenant) && source == FirstInstance(s.instances, move.from)
  {
    tenant, source := NO_TENANT, NO_INSTANCE;
    for i := 0 to |s.tenants|
      invariant tenant == NO_TENANT && FirstTenant(s.tenants, move.tenant) == FirstTenant(s.tenants[i..], move.tenant)
    {
      assert s.tenants[i..][1..] == s.tenants[i + 1..];
      if s.tenants[i].name == move.tenant { tenant := s.tenants[i]; break; }
    }
    for i := 0 to |s.instances|
      invariant source == NO_INSTANCE
      invariant FirstInstance(s.instances, move.from) == FirstInstance(s.instances[i..], move.from)
    {
      assert s.instances[i..][1..] == s.instances[i + 1..];
      if s.instances[i].name == move.from { source := s.instances[i]; break; }
    }
  }

  predicate Evacuates(g: Guard, planned: Move, m: Move) {
    && m == planned.(blocker := None)
    && g.EvacuationEligible(FirstTenant(g.signals.tenants, m.tenant), FirstInstance(g.signals.instances, m.from)).None?
  }

  // The planned moves the evacuation rule admits, in order, with no blocker on them.
  function Evacuable(g: Guard, moves: seq<Move>): seq<Move> {
    if moves == [] then []
    else
      var last := moves[|moves| - 1];
      Evacuable(g, moves[..|moves| - 1])
      + if Evacuates(g, last, last.(blocker := None)) then [last.(blocker := None)] else []
  }

  lemma {:induction false} EvacuableAre(g: Guard, moves: seq<Move>)
    ensures forall m :: m in Evacuable(g, moves) <==> exists planned :: planned in moves && Evacuates(g, planned, m)
  {
    if moves != [] {
      var front, last := moves[..|moves| - 1], moves[|moves| - 1];
      EvacuableAre(g, front);
      assert moves == front + [last];
      forall m ensures m in Evacuable(g, moves) <==> exists planned :: planned in moves && Evacuates(g, planned, m) {
        if planned :| planned in moves && Evacuates(g, planned, m) {
          assert planned in front || planned == last;
        }
        assert last in moves;
      }
    }
  }

  // The moves an operator-ordered drain may make: every safety rule, and not the heat rule.
  method EvacuationMoves(g: Guard, plan: Plan) returns (moves: seq<Move>)
    ensures moves == Evacuable(g, plan.moves)
    ensures forall m :: m in moves <==> exists planned :: planned in plan.moves && Evacuates(g, planned, m)
  {
    moves := [];
    for i := 0 to |plan.moves|
      invariant moves == Evacuable(g, plan.moves[..i])
    {
      assert plan.moves[..i + 1][..i] == plan.moves[..i];
      var move := plan.moves[i];
      var t, source := SignalsFor(g.signals, move);
      if g.EvacuationEligible(t, source).None? { moves := moves + [move.(blocker := None)]; }
    }
    assert plan.moves[..|plan.moves|] == plan.moves;
    EvacuableAre(g, plan.moves);
  }
}
