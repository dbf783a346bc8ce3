/** A plan that shrinks a pool whose members are overloaded. */
module PlanLimits {
  import opened Common
  import opened Autoscale
  import opened Planner
  import opened PlanLaws

  // One member up and full, holding the only tenant, and two that are not up and publish nothing about
  // a change in flight: their spec was refused, or their credentials have not come.
  const FULL_MEMBER := InstanceSignal("a", true, true, false, 100, 100, 0, 0)
  const SILENT_B := InstanceSignal("b", false, true, false, 0, 0, 0, 0)
  const SILENT_C := InstanceSignal("c", false, true, false, 0, 0, 0, 0)

  const TENANT := TenantSignal("t", 1, 100, false, true, Some(604800))

  const MEMBERS := [FULL_MEMBER, SILENT_B, SILENT_C]

  const SHRINKING := Policy(
    Auto, {ScaleIn}, 1, 64, 70, 10, 180, 1800, 300, 86400, 604800,
    Budget(1, 0, []), [], 80, 60, 0, true, false, 0, 100)

  // A day of plans has found the second member empty, and there is a week of evidence.
  const SEEN := Signals(
    86400, false, MEMBERS, [TENANT], 3, true, 0, 604800, false, 0, 0, map[], None, None, map["b" := 0])

  const PACKED := Packing(map[], map["a" := 1], [])

  const ROWS := [
    InstanceTarget("a", 100, 0, 1, 0, None, false), InstanceTarget("b", 0, 0, 0, 0, None, true),
    InstanceTarget("c", 0, 0, 0, 0, None, true)]

  const PLAN := Plan(3, 1, 3, 100, 2, false, Allowed, ROWS, Some("b"), [], [Action(ScaleIn, Some("b"), Allowed)])

  lemma Sums()
    ensures Count(MEMBERS, Measurable) == 1 && Count(MEMBERS, Serves) == 3
    ensures InUse(MEMBERS) == 100 && Allocatable(MEMBERS) == 100
  {
    var one, two := [FULL_MEMBER], [FULL_MEMBER, SILENT_B];
    assert one[..0] == [] && two[..1] == one && MEMBERS[..2] == two;
    assert Count(one, Measurable) == 1 && Count(one, Serves) == 1 && InUse(one) == 100 && Allocatable(one) == 100;
    assert Count(two, Measurable) == 1 && Count(two, Serves) == 2 && InUse(two) == 100 && Allocatable(two) == 100;
  }

  lemma Targets()
    ensures TargetsOf(SEEN, SHRINKING, PACKED, ROWS) && Victim(ROWS, SHRINKING, Some("b"))
  {
    assert Before("a", "b") && Before("a", "c") && Before("b", "c");
    assert forall i | 0 <= i < 3 :: ROWS[i] == TargetOf(MEMBERS[i], SHRINKING, PACKED);
    assert ROWS[1].name == "b";
  }

  lemma Guards()
    ensures GuardOf(SEEN, SHRINKING, Some("b")).Evaluate(ScaleIn) == Allowed
    ensures GuardOf(SEEN, SHRINKING, Some("b")).Evacuation() == Allowed
  {}

  lemma ActionsAre()
    ensures ActionsOf(GuardOf(SEEN, SHRINKING, Some("b")), PLAN)
  {
    Guards();
    assert Proposes(PLAN, SHRINKING, ScaleIn, Some("b"));
    forall c, target | Proposes(PLAN, SHRINKING, c, target) ensures c == ScaleIn && target == Some("b") {}
    assert Action(ScaleIn, Some("b"), Allowed) in PLAN.actions;
  }

  // The plan of a pool whose only measured member is at its full capacity, well above its target,
  // proposes to retire a member that is not up; and every guardrail lets it.
  lemma ShrinksWhileOverloaded()
    ensures Assembled(SEEN)
    ensures IsPlan(SEEN, SHRINKING, PACKED, PLAN)
    ensures PLAN.utilization > SHRINKING.target + SHRINKING.tolerance && PLAN.measured < PLAN.serving
    ensures Proposes(PLAN, SHRINKING, ScaleIn, Some("b")) && IsSelected(PLAN, Some(Action(ScaleIn, Some("b"), Allowed)))
  {
    assert SEEN.tenants[0].evidence == Some(604800);
    Sums();
    Targets();
    Guards();
    ActionsAre();
    assert RecommendedInstances(1, 3, 100, SHRINKING) == 2;
  }
}
