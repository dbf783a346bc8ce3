/** Runs that show where the pool's promises end: what a lost publish costs, and what a refused
    migration that comes back costs. */
module PoolLimits {
  import opened Common
  import opened Autoscale
  import opened Planner
  import opened History
  import opened Sorting
  import opened PoolRun
  import opened PoolLaws

  // A pool at twice its target on every member, allowed to grow and to move.
  const EAGER := Policy(
    Auto, {ScaleOut, Rebalance}, 1, 64, 50, 10, 180, 1800, 300, 86400, 604800,
    Budget(1, 0, []), [], 80, 60, 0, true, false, 0, 100)

  function Busy(name: string): InstanceSignal { InstanceSignal(name, true, true, false, 100, 100, 0, 0) }

  function Names(n: nat): seq<InstanceSignal>
    requires n <= 2
  { if n == 0 then [] else if n == 1 then [Busy("a")] else [Busy("a"), Busy("b")] }

  function Small(name: string): TenantSignal { TenantSignal(name, 1, 1, true, true, Some(0)) }

  function Sight(now: int, members: seq<InstanceSignal>, flying: nat): Signals {
    Signals(now, false, members, [Small("t"), Small("u")], |members|,
      true, 0, 0, false, flying, 0, map[], None, None, map[])
  }

  lemma SightAssembled(now: int, members: seq<InstanceSignal>)
    requires forall i | 0 <= i < |members| :: !members[i].progressing
    ensures Assembled(Sight(now, members, 0))
  {
    var ts := Sight(now, members, 0).tenants;
    assert ts[0].evidence == Some(0) && ts[1].evidence == Some(0);
  }

  // The two tenants on one member, or one on each of two.
  function Rows(members: seq<InstanceSignal>): seq<InstanceTarget> {
    var each := if |members| == 1 then 2 else 1;
    seq(|members|, i requires 0 <= i < |members| => InstanceTarget(members[i].name, 100, 0, each, 0, None, false))
  }

  function Full(n: nat): map<string, nat> { if n == 1 then map["a" := 2] else map["a" := 1, "b" := 1] }

  function Hot(now: int, n: nat): View
    requires 1 <= n <= 2
  {
    View(Sight(now, Names(n), 0), EAGER, Packing(map[], Full(n), []),
      Plan(n, n, n, 100, 2 * n, false, Allowed, Rows(Names(n)), None, [], [Action(ScaleOut, None, Allowed)]),
      {}, {}, {})
  }

  lemma HotTargets(n: nat)
    requires 1 <= n <= 2
    ensures TargetsOf(Sight(0, Names(n), 0), EAGER, Packing(map[], Full(n), []), Rows(Names(n)))
  {
    var k := Packing(map[], Full(n), []);
    var rows := Rows(Names(n));
    assert forall i | 0 <= i < n :: rows[i] == TargetOf(Names(n)[i], EAGER, k);
    assert Before("a", "b");
  }

  lemma HotSums(n: nat)
    requires 1 <= n <= 2
    ensures Count(Names(n), Measurable) == n && Count(Names(n), Serves) == n && Count(Names(n), IsReady) == n
    ensures InUse(Names(n)) == 100 * n && Allocatable(Names(n)) == 100 * n
  {
    assert Names(2)[..1] == Names(1) && Names(1)[..0] == [];
  }

  lemma HotRecommends(n: nat)
    requires 1 <= n <= 2
    ensures RecommendedInstances(n, n, 100, EAGER) == 2 * n && Percent(100 * n, 100 * n) == 100
  {}

  lemma HotIsAPlan(now: int, n: nat)
    requires 1 <= n <= 2
    ensures var v := Hot(now, n); IsPlan(v.signals, v.policy, v.packing, v.plan)
  {
    var v := Hot(now, n);
    HotTargets(n);
    HotSums(n);
    HotRecommends(n);
    var g := GuardOf(v.signals, v.policy, None);
    assert g.Evaluate(ScaleOut) == Allowed;
    assert Proposes(v.plan, v.policy, ScaleOut, None);
    forall c, target | Proposes(v.plan, v.policy, c, target) ensures c == ScaleOut && target == None {}
    assert Action(ScaleOut, None, Allowed) in v.plan.actions;
  }

  const START := World(1, None, map[], {}, {}, Idle, 0, [], [], 0, 0)

  // Any pass with nothing to drain comes to its execution.
  lemma Opens(w: World, v: View) returns (w': World)
    requires Enabled(w, Observe(v)) && v.draining == {}
    ensures w' == w.(clock := v.signals.now, pass := Evacuated(v, false, 0), reopenedAtLook := w.reopened)
    ensures Reaches(w, [Observe(v), Evacuate([], 0)], w')
  {
    var a, b := Observe(v), Evacuate([], 0);
    var w1 := Apply(w, a);
    w' := Apply(w1, b);
    assert Enabled(w1, b);
    assert [b][1..] == [] && Reaches(w', [], w');
    assert Reaches(w1, [b], w');
    assert [a, b][1..] == [b];
  }

  lemma Then(w: World, steps: seq<Step>, w1: World, step: Step) returns (all: seq<Step>)
    requires Reaches(w, steps, w1) && Enabled(w1, step)
    ensures all == steps + [step] && Reaches(w, all, Apply(w1, step))
  {
    assert [step][1..] == [];
    assert Reaches(Apply(w1, step), [], Apply(w1, step));
    Append(w, steps, w1, [step], Apply(w1, step));
    all := steps + [step];
  }

  // One pass of the hot pool up to its scale-out.
  lemma Grows(w: World, now: int, n: nat) returns (steps: seq<Step>, w': World)
    requires 1 <= n <= 2 && w.pass.Idle? && w.status.None? && w.clock <= now && w.declared == n
    requires w.cordoned == {} && w.marked == {}
    ensures Reaches(w, steps, w')
    ensures w' == w.(declared := n + 1, clock := now, pass := w'.pass, reopenedAtLook := w.reopened,
                        runs := w.runs + [Run(Hot(now, n), ScaleOut, now, n, n + 1, w.marked, |w.log|, false)])
    ensures !w'.pass.Idle?
  {
    var v := Hot(now, n);
    HotIsAPlan(now, n);
    SightAssembled(now, Names(n));
    var w2 := Opens(w, v);
    var s3 := Execute(now, Some(Action(ScaleOut, None, Allowed)), [], false, 0);
    assert IsSelected(v.plan, s3.selected);
    w' := Apply(w2, s3);
    steps := Then(w, [Observe(v), Evacuate([], 0)], w2, s3);
  }

  lemma Three(w: World, a: Step, b: Step, c: Step)
    requires Enabled(w, a) && Enabled(Apply(w, a), b) && Enabled(Apply(Apply(w, a), b), c)
    ensures Reaches(w, [a, b, c], Apply(Apply(Apply(w, a), b), c))
  {
    var w1, w2, w3 := Apply(w, a), Apply(Apply(w, a), b), Apply(Apply(Apply(w, a), b), c);
    assert Reaches(w3, [], w3);
    assert [c][1..] == [];
    assert Reaches(w2, [c], w3);
    assert [b, c][1..] == [c];
    assert Reaches(w1, [b, c], w3);
    assert [a, b, c][1..] == [b, c];
  }

  lemma {:induction false} Append(w: World, s: seq<Step>, w1: World, t: seq<Step>, w2: World)
    requires Reaches(w, s, w1) && Reaches(w1, t, w2)
    ensures Reaches(w, s + t, w2)
    decreases |s|
  {
    if s == [] {
      assert s + t == t;
    } else {
      assert (s + t)[1..] == s[1..] + t;
      Append(Apply(w, s[0]), s[1..], w1, t, w2);
    }
  }

  // A pass that scaled out and died before it published leaves no trace of when: the next scale-out
  // can follow a second later, as soon as the new member is up.
  lemma LostPublishLosesSpacing() returns (steps: seq<Step>, w: World)
    ensures Reaches(START, steps, w)
    ensures |w.runs| == 2 && w.runs[0].class_ == ScaleOut && w.runs[1].class_ == ScaleOut && !w.runs[0].published
    ensures w.runs[1].at - w.runs[0].at < w.runs[1].view.policy.scaleUpWindow
  {
    var first, w1 := Grows(START, 0, 1);
    var w2 := Apply(w1, Die);
    assert Enabled(w1, Die);
    assert Reaches(w1, [Die], w2) by { assert [Die][1..] == []; assert Reaches(w2, [], w2); }
    var second, w3 := Grows(w2, 1, 2);
    Append(w1, [Die], w2, second, w3);
    Append(START, first, w1, [Die] + second, w3);
    steps, w := first + ([Die] + second), w3;
  }

  const PARKED := START.(declared := 2, moves := map["t-to-b" := Refused])

  // One pass that rebalances while another migration is parked at its gate.
  lemma Rebalances() returns (s1: Step, s2: Step, s3: Step, w: World)
    ensures Reaches(PARKED, [s1, s2, s3], w)
    ensures Counts(PARKED, s1, 1) && !s2.Observe? && !s3.Observe?
    ensures w.moves == map["t-to-b" := Refused, "u-to-b" := InFlight] && w.reopened == 0
  {
    var v, move := Uneven();
    s1, s2 := Observe(v), Evacuate([], 0);
    assert Flying(PARKED.moves) == {};
    var w1 := Apply(PARKED, s1);
    var w2 := Apply(w1, s2);
    assert w2 == PARKED.(pass := Evacuated(v, false, 0));
    s3, w := RebalanceMakesOne(v, move, w2);
    Three(PARKED, s1, s2, s3);
  }

  lemma RebalanceMakesOne(v: View, move: Move, w2: World) returns (s3: Step, w: World)
    requires w2 == PARKED.(pass := Evacuated(v, false, 0))
    requires v.plan.moves == [move] && move.blocker.None? && move.tenant == "u" && move.to == "b"
    requires v.plan.actions == [Action(Rebalance, None, Allowed)]
    ensures s3.Execute? && Enabled(w2, s3) && w == Apply(w2, s3)
    ensures w.moves == map["t-to-b" := Refused, "u-to-b" := InFlight] && w.reopened == 0
  {
    s3 := Execute(0, Some(Action(Rebalance, None, Allowed)), [move], false, 1);
    assert IsSelected(v.plan, s3.selected);
    assert MoveName(move) == "u-to-b";
    EmitsOne(move);
    w := Apply(w2, s3);
  }

  lemma EmitsOne(move: Move)
    requires MoveName(move) == "u-to-b"
    ensures EmitUpTo(map["t-to-b" := Refused], [move], 1) ==
              Emission(map["t-to-b" := Refused, "u-to-b" := InFlight], true, true)
  {
    assert "u-to-b"[0] != "t-to-b"[0];
  }

  // A refused migration that passes its gate after another was let in takes its place beside it, one
  // past a cap of one.
  lemma ReopeningPassesTheCap() returns (steps: seq<Step>, w: World)
    ensures Reaches(PARKED, steps, w) && RunCounts(PARKED, steps, 1)
    ensures |Flying(w.moves)| == 2 && w.reopened == 1
  {
    var s1, s2, s3, w3 := Rebalances();
    var s4 := Reopen("t-to-b");
    w := Apply(w3, s4);
    assert Flying(w.moves) == {"t-to-b", "u-to-b"};
    assert Reaches(w3, [s4], w) by { assert [s4][1..] == []; assert Reaches(w, [], w); }
    Append(PARKED, [s1, s2, s3], w3, [s4], w);
    steps := [s1, s2, s3] + [s4];
    CountsThrough(PARKED, s1, s2, s3, s4);
  }

  lemma CountsThrough(w: World, a: Step, b: Step, c: Step, d: Step)
    requires Counts(w, a, 1) && !b.Observe? && !c.Observe? && !d.Observe?
    ensures RunCounts(w, [a, b, c] + [d], 1)
  {
    var w1, w2, w3 := Apply(w, a), Apply(Apply(w, a), b), Apply(Apply(Apply(w, a), b), c);
    assert RunCounts(Apply(w3, d), [], 1);
    assert [d][1..] == [];
    assert RunCounts(w3, [d], 1);
    assert [c, d][1..] == [d];
    assert RunCounts(w2, [c, d], 1);
    assert [b, c, d][1..] == [c, d];
    assert RunCounts(w1, [b, c, d], 1);
    assert ([a, b, c] + [d])[1..] == [b, c, d];
  }

  // Two members at their target, and a packing that moves a tenant from the first to the second.
  function Quietly(name: string): InstanceSignal { InstanceSignal(name, true, true, false, 100, 50, 0, 0) }

  const PAIR := [Quietly("a"), Quietly("b")]

  const ACROSS := Packing(map[], Full(2), [Assignment("u", "a", "b")])

  const PAIR_ROWS := [InstanceTarget("a", 100, 0, 1, 0, None, false), InstanceTarget("b", 100, 0, 1, 0, None, false)]

  lemma PairSums()
    ensures Count(PAIR, Measurable) == 2 && Count(PAIR, Serves) == 2 && InUse(PAIR) == 100 && Allocatable(PAIR) == 200
  {
    var one := [Quietly("a")];
    assert one[..0] == [] && PAIR[..1] == one;
    assert Count(one, Measurable) == 1 && Count(one, Serves) == 1 && InUse(one) == 50 && Allocatable(one) == 100;
  }

  lemma PairTargets()
    ensures TargetsOf(Sight(0, PAIR, 0), EAGER, ACROSS, PAIR_ROWS) && Spread(PAIR_ROWS, 0)
  {
    assert Before("a", "b");
    assert forall i | 0 <= i < 2 :: PAIR_ROWS[i] == TargetOf(PAIR[i], EAGER, ACROSS);
    assert PackedPercent(PAIR_ROWS[0]) == 0 && PackedPercent(PAIR_ROWS[1]) == 0;
  }

  lemma PairMoves(g: Guard, move: Move)
    requires g == GuardOf(Sight(0, PAIR, 0), EAGER, None) && move == Move("u", "a", "b", 1, None)
    ensures MovesOf(g, ACROSS, [move]) && g.Evaluate(Rebalance) == Allowed
  {
    var t := Small("u");
    assert TenantNamed(g.signals.tenants, "u") == t;
    assert PAIR[..1] == [Quietly("a")];
    assert InstanceNamed(PAIR, "a") == Quietly("a");
    assert MoveOf(g, ACROSS.moves[0]) == move;
  }

  lemma Uneven() returns (v: View, move: Move)
    ensures IsPlan(v.signals, v.policy, v.packing, v.plan) && v.signals.inFlight == 0 && v.policy == EAGER
            && v.draining == {}
    ensures v.signals.now == 0 && v.signals.declared == 2 && Reads(v.signals, None) && Assembled(v.signals)
    ensures v.cordoned == {} && v.marked == {}
    ensures v.plan.moves == [move] && move.blocker.None? && move.tenant == "u" && move.to == "b"
    ensures v.plan.actions == [Action(Rebalance, None, Allowed)]
  {
    var signals := Sight(0, PAIR, 0);
    move := Move("u", "a", "b", 1, None);
    var plan := Plan(2, 2, 2, 50, 2, false, Allowed, PAIR_ROWS, None, [move], [Action(Rebalance, None, Allowed)]);
    v := View(signals, EAGER, ACROSS, plan, {}, {}, {});
    PairSums();
    PairTargets();
    SightAssembled(0, PAIR);
    var g := GuardOf(signals, EAGER, None);
    PairMoves(g, move);
    assert Proposes(plan, EAGER, Rebalance, None);
    forall c, target | Proposes(plan, EAGER, c, target) ensures c == Rebalance && target == None {}
    assert Action(Rebalance, None, Allowed) in plan.actions;
  }
}
