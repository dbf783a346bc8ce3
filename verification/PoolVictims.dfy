/** A run that lowers a pool's count to its recommendation and marks nobody: its victim had been cordoned
    by hand. */
module PoolVictims {
  import opened Common
  import opened Autoscale
  import opened Planner
  import opened History
  import opened Sorting
  import opened PoolRun
  import PoolLimits

  // An empty member somebody cordoned, and three others with a tenant each and little to do.
  function Light(name: string): InstanceSignal { InstanceSignal(name, true, true, false, 100, 10, 0, 0) }

  const EMPTY := InstanceSignal("a", true, false, false, 100, 0, 0, 0)
  const MEMBERS := [EMPTY, Light("b"), Light("c"), Light("d")]

  function Watched(name: string): TenantSignal { TenantSignal(name, 1, 1, true, true, Some(604800)) }

  const TENANTS := [Watched("t"), Watched("u"), Watched("v")]

  const POLICY := Policy(
    Auto, {ScaleIn}, 1, 64, 70, 10, 180, 1800, 300, 86400, 604800,
    Budget(1, 0, []), [], 80, 60, 0, true, false, 0, 100)

  const PACKED := Packing(map[], map["b" := 1, "c" := 1, "d" := 1], [])

  function RowFor(name: string): InstanceTarget { InstanceTarget(name, 100, 0, 1, 0, None, false) }

  const ROWS := [InstanceTarget("a", 100, 0, 0, 0, None, true), RowFor("b"), RowFor("c"), RowFor("d")]

  function Sight(now: int, n: nat, last: Option<int>, since: map<string, int>): Signals {
    Signals(now, false, MEMBERS, TENANTS, n, true, 0, 604800, false, 0, 0, map[], None, last, since)
  }

  function PlanWith(verdict: Verdict): Plan {
    Plan(4, 3, 3, 10, 1, false, Allowed, ROWS, Some("a"), [], [Action(ScaleIn, Some("a"), verdict)])
  }

  function Look(now: int, n: nat, last: Option<int>, since: map<string, int>, verdict: Verdict): View {
    View(Sight(now, n, last, since), POLICY, PACKED, PlanWith(verdict), {}, {"a"}, {})
  }

  // ------------------------------------------------------------------ the plan

  lemma Sums()
    ensures Count(MEMBERS, Measurable) == 3 && Count(MEMBERS, Serves) == 3
    ensures InUse(MEMBERS) == 30 && Allocatable(MEMBERS) == 300
  {
    var one, two, three := [EMPTY], [EMPTY, Light("b")], [EMPTY, Light("b"), Light("c")];
    assert one[..0] == [] && two[..1] == one && three[..2] == two && MEMBERS[..3] == three;
    assert Count(one, Measurable) == 0 && Count(one, Serves) == 0 && InUse(one) == 0 && Allocatable(one) == 0;
    assert Count(two, Measurable) == 1 && Count(two, Serves) == 1 && InUse(two) == 10 && Allocatable(two) == 100;
    assert Count(three, Measurable) == 2 && Count(three, Serves) == 2 && InUse(three) == 20
        && Allocatable(three) == 200;
  }

  lemma Targets(now: int, n: nat, last: Option<int>, since: map<string, int>)
    ensures TargetsOf(Sight(now, n, last, since), POLICY, PACKED, ROWS) && Victim(ROWS, POLICY, Some("a"))
  {
    assert Before("a", "b") && Before("a", "c") && Before("a", "d");
    assert Before("b", "c") && Before("b", "d") && Before("c", "d");
    assert forall i | 0 <= i < 4 :: ROWS[i] == TargetOf(MEMBERS[i], POLICY, PACKED);
    assert ROWS[0].name == "a";
  }

  lemma Signalled(now: int, n: nat, last: Option<int>, since: map<string, int>)
    ensures Assembled(Sight(now, n, last, since))
  {
    assert TENANTS[0].evidence == Some(604800);
  }

  // Nobody has watched the victim yet; or it has been empty for a day, and the last scale-in is over.
  predicate Verdicts(now: int, last: Option<int>, since: map<string, int>, verdict: Verdict) {
    || (since == map[] && last == None && verdict == DwellTimeNotElapsed)
    || (since == map["a" := 0] && now >= 86400 && (last.Some? ==> now - last.value >= 1800) && verdict == Allowed)
  }

  lemma Judged(now: int, n: nat, last: Option<int>, since: map<string, int>, verdict: Verdict)
    requires Verdicts(now, last, since, verdict)
    ensures var g := GuardOf(Sight(now, n, last, since), POLICY, Some("a"));
            g.Evaluate(ScaleIn) == verdict && g.Evacuation() == Allowed && g.Staleness() == Allowed
  {}

  lemma PlanIsPlan(now: int, n: nat, last: Option<int>, since: map<string, int>, verdict: Verdict)
    requires Verdicts(now, last, since, verdict)
    ensures IsPlan(Sight(now, n, last, since), POLICY, PACKED, PlanWith(verdict))
  {
    Sums();
    Targets(now, n, last, since);
    Judged(now, n, last, since, verdict);
    assert RecommendedInstances(3, 3, 10, POLICY) == 1;
    Acts(now, n, last, since, verdict);
  }

  lemma Acts(now: int, n: nat, last: Option<int>, since: map<string, int>, verdict: Verdict)
    requires Verdicts(now, last, since, verdict)
    ensures ActionsOf(GuardOf(Sight(now, n, last, since), POLICY, Some("a")), PlanWith(verdict))
  {
    var plan := PlanWith(verdict);
    Judged(now, n, last, since, verdict);
    assert Proposes(plan, POLICY, ScaleIn, Some("a"));
    forall c, target | Proposes(plan, POLICY, c, target) ensures c == ScaleIn && target == Some("a") {}
    assert Action(ScaleIn, Some("a"), verdict) in plan.actions;
  }

  // ------------------------------------------------------------------ the status

  function StatusRow(name: string): Row { Row(name, false, None) }

  function StatusWith(permitted: bool, last: Option<int>): PlanStatus {
    PlanStatus([Row("a", true, Some(0)), StatusRow("b"), StatusRow("c"), StatusRow("d")],
               [Entry(ScaleIn, permitted, last)])
  }

  lemma StatusReads(permitted: bool, last: Option<int>, now: int, n: nat)
    ensures Reads(Sight(now, n, last, map["a" := 0]), Some(StatusWith(permitted, last)))
  {
    var status := StatusWith(permitted, last);
    RunAt(status.entries, 0);
    RunAbsent(status.entries, ScaleOut);
    forall name
      ensures (if name in map["a" := 0] then Some(0) else None) == Clock(Some(status), name)
    {
      if name == "a" { ClockAt(status.rows, 0); } else { ClockAbsent(status.rows, name); }
    }
  }

  lemma StatusFollows(previous: Option<PlanStatus>, verdict: Verdict, applied: Option<Executed>, now: int,
                      last: Option<int>)
    requires previous == None ==> verdict != Allowed && applied == None && last == None && now == 0
    requires previous.Some? ==>
               && verdict == Allowed && applied == Some(Executed(ScaleIn, now, true, false)) && last == Some(now)
               && exists p, l :: previous == Some(StatusWith(p, l))
    ensures StatusOf(previous, PlanWith(verdict), applied, now, StatusWith(verdict == Allowed, last))
  {
    var plan, status := PlanWith(verdict), StatusWith(verdict == Allowed, last);
    if previous.Some? {
      var p, l :| previous == Some(StatusWith(p, l));
      StatusReads(p, l, now, 0);
      assert Clock(previous, "a") == Some(0);
      forall c | c != ScaleIn ensures LastRun(previous, c) == None { RunAbsent(previous.value.entries, c); }
    }
    assert status.rows[0] == RowOf(previous, plan.targets[0], now);
    assert plan.actions[0] in plan.actions;
    assert EntryOf(previous, applied, plan.actions[0]) == status.entries[0];
  }

  // ------------------------------------------------------------------ the passes

  // Between passes: the count, when the last scale-in was, and nobody marked.
  ghost predicate Resting(w: World, n: nat, last: Option<int>) {
    && w.pass.Idle? && w.declared == n && w.cordoned == {"a"} && w.marked == {}
    && exists permitted :: w.status == Some(StatusWith(permitted, last))
  }

  // The first pass finds the victim empty and starts its clock.
  lemma FirstLook(n: nat, w: World) returns (steps: seq<Step>, w': World)
    requires w == World(n, None, map[], {"a"}, {}, Idle, 0, [], [], 0, 0)
    ensures Reaches(w, steps, w') && Resting(w', n, None) && w'.clock == 0 && w'.runs == []
  {
    var v := Look(0, n, None, map[], DwellTimeNotElapsed);
    PlanIsPlan(0, n, None, map[], DwellTimeNotElapsed);
    Signalled(0, n, None, map[]);
    var w2 := PoolLimits.Opens(w, v);
    var s3 := Execute(0, None, [], false, 2);
    Skips(w2, v, s3);
    steps := PoolLimits.Then(w, [Observe(v), Evacuate([], 0)], w2, s3);
    var w3 := Apply(w2, s3);
    StatusFollows(None, DwellTimeNotElapsed, None, 0, None);
    var s4 := Publish(0, StatusWith(false, None));
    w' := Apply(w3, s4);
    steps := PoolLimits.Then(w, steps, w3, s4);
  }

  lemma Skips(w: World, v: View, step: Step)
    requires w.pass == Evacuated(v, false, 0) && w.clock == 0 && v.plan == PlanWith(DwellTimeNotElapsed)
    requires step == Execute(0, None, [], false, 2)
    ensures Enabled(w, step) && Apply(w, step) == w.(pass := Acted(v, None, 0))
  {}

  // Each further pass, half an hour after the last, lowers the count and leaves the victim as it was.
  lemma Lowers(w: World, n: nat, last: Option<int>, now: int) returns (steps: seq<Step>, w': World)
    requires Resting(w, n, last) && n > 1 && w.clock <= now && now >= 86400 && (last.Some? ==> now - last.value >= 1800)
    ensures Reaches(w, steps, w') && Resting(w', n - 1, Some(now)) && w'.clock == now && |w'.runs| == |w.runs| + 1
  {
    var w3;
    steps, w3 := Retires(w, n, last, now);
    var permitted :| w.status == Some(StatusWith(permitted, last));
    StatusFollows(w.status, Allowed, Some(Executed(ScaleIn, now, true, false)), now, Some(now));
    var s4 := Publish(now, StatusWith(true, Some(now)));
    w' := Apply(w3, s4);
    steps := PoolLimits.Then(w, steps, w3, s4);
  }

  lemma Retires(w: World, n: nat, last: Option<int>, now: int) returns (steps: seq<Step>, w': World)
    requires Resting(w, n, last) && n > 1 && w.clock <= now && now >= 86400 && (last.Some? ==> now - last.value >= 1800)
    ensures Reaches(w, steps, w') && w'.pass.Acted? && w'.pass.view.plan == PlanWith(Allowed)
    ensures w'.pass.executed == Some(Executed(ScaleIn, now, true, false)) && w'.status == w.status && w'.clock == now
    ensures w'.declared == n - 1 && w'.cordoned == {"a"} && w'.marked == {} && |w'.runs| == |w.runs| + 1
  {
    var v := Look(now, n, last, map["a" := 0], Allowed);
    PlanIsPlan(now, n, last, map["a" := 0], Allowed);
    Signalled(now, n, last, map["a" := 0]);
    var permitted :| w.status == Some(StatusWith(permitted, last));
    StatusReads(permitted, last, now, n);
    var chosen := Action(ScaleIn, Some("a"), Allowed);
    var w2 := PoolLimits.Opens(w, v);
    var s3 := Execute(now, Some(chosen), [], false, 2);
    PassesOver(w2, v, n, s3);
    w' := Apply(w2, s3);
    steps := PoolLimits.Then(w, [Observe(v), Evacuate([], 0)], w2, s3);
  }

  lemma PassesOver(w: World, v: View, n: nat, step: Step)
    requires w.pass == Evacuated(v, false, 0) && w.declared == n > 1
    requires v.plan == PlanWith(Allowed) && v.cordoned == {"a"}
    requires step == Execute(w.clock, Some(Action(ScaleIn, Some("a"), Allowed)), [], false, 2)
    ensures Enabled(w, step)
    ensures var w' := Apply(w, step);
            && w'.pass == Acted(v, Some(Executed(ScaleIn, w.clock, true, false)), 0)
            && w'.declared == n - 1 && |w'.runs| == |w.runs| + 1
            && w'.status == w.status && w'.clock == w.clock && w'.cordoned == w.cordoned && w'.marked == w.marked
  {
    assert IsSelected(v.plan, step.selected);
  }

  lemma {:induction false} WalksDown(w: World, n: nat, last: Option<int>, now: int)
    returns (steps: seq<Step>, w': World)
    requires Resting(w, n, last) && n >= 1 && w.clock <= now && now >= 86400
    requires last.Some? ==> now - last.value >= 1800
    ensures Reaches(w, steps, w') && w'.declared == 1 && w'.marked == {} && |w'.runs| == |w.runs| + n - 1
    decreases n
  {
    if n == 1 {
      steps, w' := [], w;
    } else {
      var first, w1 := Lowers(w, n, last, now);
      var rest;
      rest, w' := WalksDown(w1, n - 1, Some(now), now + 1800);
      PoolLimits.Append(w, first, w1, rest, w');
      steps := first + rest;
    }
  }

  // Somebody cordons an empty member of a pool of four.  From then on every scale-in picks it, passes it
  // over and lowers the count, down to the recommendation; nobody is ever marked for reclaim.
  lemma CordonedVictimSparesEverybody(n: nat) returns (steps: seq<Step>, w: World)
    requires 1 <= n <= 4
    ensures Reaches(World(n, None, map[], {}, {}, Idle, 0, [], [], 0, 0), steps, w)
    ensures w.declared == 1 == PlanWith(Allowed).recommended && w.marked == {} && |w.runs| == n - 1
  {
    var w0 := World(n, None, map[], {}, {}, Idle, 0, [], [], 0, 0);
    var w1 := Apply(w0, Cordon("a"));
    assert Reaches(w0, [], w0);
    var cordon := PoolLimits.Then(w0, [], w0, Cordon("a"));
    var first, w2 := FirstLook(n, w1);
    var rest;
    rest, w := WalksDown(w2, n, None, 86400);
    PoolLimits.Append(w1, first, w2, rest, w);
    PoolLimits.Append(w0, cordon, w1, first + rest, w);
    steps := cordon + (first + rest);
  }
}
