/** The pool controller's pass as it runs, statement by statement.  Whatever call fails, a pass is a
    run of the steps whose laws are proved. */
module PoolController {
  import opened Common
  import opened Autoscale
  import opened Planner
  import opened History
  import opened Sorting
  import opened PoolRun

  // Where a pass is made to fail: the calls of its two emissions, and the fleet write before the
  // status is published.
  datatype Faults = Faults(evacuation: nat, execution: nat, beforePublish: bool)

  class Controller {
    var declared: int
    var status: Option<PlanStatus>
    var moves: map<string, MoveState>
    var cordoned: set<string>
    var marked: set<string>
    ghost var world: World

    ghost predicate Valid()
      reads this
    {
      && world.declared == declared >= 0 && world.status == status && world.moves == moves
      && world.cordoned == cordoned && world.marked == marked
      && (status.Some? ==> WellFormed(status.value))
    }

    constructor (declared: nat, clock: int)
      ensures Valid() && world == World(declared, None, map[], {}, {}, Idle, clock, [], [], 0, 0)
    {
      this.declared, status, moves, cordoned, marked := declared, None, map[], {}, {};
      world := World(declared, None, map[], {}, {}, Idle, clock, [], [], 0, 0);
    }

    method MigrationSignals() returns (inFlight: nat)
      ensures inFlight == |Flying(moves)|
    {
      inFlight := 0;
      var left := moves.Keys;
      ghost var seen: set<string> := {};
      while left != {}
        invariant left !! seen && left + seen == moves.Keys
        invariant inFlight == |Flying(moves) * seen|
        decreases left
      {
        var name :| name in left;
        if moves[name] == InFlight {
          inFlight := inFlight + 1;
          assert Flying(moves) * (seen + {name}) == Flying(moves) * seen + {name};
        } else {
          assert Flying(moves) * (seen + {name}) == Flying(moves) * seen;
        }
        left, seen := left - {name}, seen + {name};
      }
      assert Flying(moves) * seen == Flying(moves);
    }

    // Takes a finished migration out of the way of the same move being made again.
    method ClearSettledMigration(name: string) returns (cleared: bool)
      modifies this`moves
      ensures cleared <==> name in old(moves) && old(moves)[name] == Settled
      ensures moves == if cleared then old(moves) - {name} else old(moves)
    {
      if name !in moves { return false; }
      if moves[name] == Refused { return false; }
      if moves[name] != Settled { return false; }
      moves := moves - {name};
      return true;
    }

    // The call for asked[cut] fails, if it is reached.
    method EmitMigrations(asked: seq<Move>, cut: nat) returns (emitted: bool, created: bool, failed: bool)
      modifies this`moves
      ensures EmitUpTo(old(moves), asked, cut) == Emission(moves, emitted, created)
      ensures failed <==> Broke(Emission(moves, emitted, created), asked, cut)
    {
      emitted, created, failed := false, false, false;
      ghost var list := if cut < |asked| then asked[..cut] else asked;
      for i := 0 to |asked|
        invariant i <= cut && !created && !failed
        invariant i <= |list|
                  && (if emitted then Emit(moves, list[i..]).(emitted := true)
                      else Emit(moves, list[i..])) == Emit(old(moves), list)
      {
        if i == cut { failed := true; return; }
        assert list[i] == asked[i] && list[i..][1..] == list[i + 1..];
        var name := MoveName(asked[i]);
        if name in moves {
          var cleared := ClearSettledMigration(name);
          if cleared { emitted := true; }
          continue;
        }
        moves := moves[name := InFlight];
        emitted, created := true, true;
        return;
      }
    }

    // The eligible moves off one instance, still the most worthwhile first.
    method MovesOff(plan: Plan, from: string) returns (off: seq<Move>)
      ensures Sorted(off, WorthMore)
      ensures forall m :: m in off <==> m in plan.moves && m.blocker.None? && m.from == from
    {
      var eligible := EligibleMoves(plan.moves);
      off := [];
      for i := 0 to |eligible|
        invariant forall m :: m in off <==> m in eligible[..i] && m.from == from
        invariant Sorted(off, WorthMore)
      {
        forall j | 0 <= j < |off| ensures WorthMore(off[j], eligible[i]) {
          assert off[j] in eligible[..i];
          var k :| 0 <= k < i && eligible[k] == off[j];
        }
        if eligible[i].from == from { off := off + [eligible[i]]; }
      }
      assert eligible[..|eligible|] == eligible;
    }

    // Carries out every drain that was asked for, one migration at most.
    method EvacuateDraining(v: View, cut: nat) returns (evacuated: bool, failed: bool, ghost step: Step)
      requires Valid() && world.pass == Planned(v)
      modifies this
      ensures Valid() && declared == old(declared)
      ensures step.Evacuate? && step.cut == cut && Stepped(old(world), step, world)
      ensures failed <==> world.pass.Idle?
      ensures !failed ==> world.pass.Evacuated? && world.pass.view == v && world.pass.emitted == evacuated
      ensures world.clock == old(world).clock
    {
      var asked: seq<Move> := [];
      if v.draining != {} && v.plan.evacuation == Allowed {
        var g := GuardOf(v.signals, v.policy, v.plan.consolidationTarget);
        var movable := EvacuationMoves(g, v.plan);
        for i := 0 to |movable|
          invariant forall m :: m in asked <==> m in movable[..i] && m.from in v.draining
        {
          if movable[i].from in v.draining { asked := asked + [movable[i]]; }
        }
        assert movable[..|movable|] == movable;
      }
      assert Drains(v, asked);
      var created;
      evacuated, created, failed := EmitMigrations(asked, cut);
      step := Evacuate(asked, cut);
      assert Enabled(old(world), step);
      world := Apply(world, step);
    }

    method ScaleOutCount(plan: Plan) returns (applied: bool)
      modifies this`declared
      ensures applied <==> plan.recommended > plan.serving
      ensures declared == old(declared) + (if applied then 1 else 0)
    {
      if plan.recommended <= plan.serving { return false; }
      declared := declared + 1;
      return true;
    }

    // Takes the empty victim out of service and then lowers the count, unless it is low enough.  A
    // victim that was cordoned when the pass looked is passed over, and the count follows all the same.
    // The patch of the victim is call 0 and that of the count call 1; either may fail.
    method RetireVictim(v: View, victim: string, cut: nat, ghost w: World, ghost made: nat, ghost at: int)
      returns (applied: bool, failed: bool)
      requires w.declared == declared && w.cordoned == cordoned && w.marked == marked
      modifies this`declared, this`cordoned, this`marked
      ensures var w' := Retire(w, v, made, at, victim, cut);
              && w'.declared == declared && w'.cordoned == cordoned && w'.marked == marked
              && (failed <==> w'.pass.Idle?)
              && (!failed ==> w'.pass.Acted? && w'.pass.executed == Some(Executed(ScaleIn, at, applied, false)))
    {
      if victim !in v.cordoned {
        if cut == 0 { return false, true; }
        cordoned := cordoned + {victim};
        marked := marked + {victim};
      }
      if declared <= v.plan.recommended { return false, false; }
      if cut == 1 { return false, true; }
      declared := declared - 1;
      return true, false;
    }

    // The moves the selected action would make.
    method AskedFor(v: View, c: Class) returns (asked: seq<Move>)
      ensures Asks(v, c, asked)
    {
      asked := [];
      if c == Rebalance {
        asked := EligibleMoves(v.plan.moves);
      } else if c == ScaleIn && v.plan.consolidationTarget.Some? {
        asked := MovesOff(v.plan, v.plan.consolidationTarget.value);
      }
    }

    method PerformAction(v: View, c: Class, asked: seq<Move>, at: int, grew: bool, cut: nat, ghost w: World,
                         ghost made: nat)
      returns (applied: bool, refused: bool, failed: bool)
      requires w.declared == declared && w.moves == moves && w.cordoned == cordoned && w.marked == marked
      modifies this`declared, this`moves, this`cordoned, this`marked
      ensures var w' := Perform(w, v, made, c, at, asked, grew, cut);
              && w'.declared == declared && w'.moves == moves && w'.cordoned == cordoned && w'.marked == marked
              && (failed <==> w'.pass.Idle?)
              && (!failed ==> w'.pass.Acted? && w'.pass.executed == Some(Executed(c, at, applied, refused)))
    {
      applied, refused, failed := false, false, false;
      var created;
      match c
      case StorageExpand => applied := grew;
      case ScaleOut => applied := ScaleOutCount(v.plan);
      case Rebalance => applied, created, failed := EmitMigrations(asked, cut);
      case ScaleIn =>
        if v.plan.consolidationTarget.Some? {
          if asked != [] {
            applied, created, failed := EmitMigrations(asked, cut);
          } else {
            applied, failed := RetireVictim(v, v.plan.consolidationTarget.value, cut, w, made, at);
          }
        }
      case _ => refused := true;
    }

    // Applies at most one action: the single one the guardrails selected.
    method ExecuteSelected(v: View, evacuated: bool, at: int, grew: bool, cut: nat)
      returns (executed: Option<Executed>, failed: bool, ghost step: Step)
      requires Valid() && OnePerClass(v.plan) && world.clock <= at
      requires world.pass.Evacuated? && world.pass.view == v && world.pass.emitted == evacuated
      modifies this
      ensures Valid()
      ensures step.Execute? && step.at == at && Stepped(old(world), step, world)
      ensures failed <==> world.pass.Idle?
      ensures !failed ==> world.pass.Acted? && world.pass.view == v && world.pass.executed == executed
      ensures world.clock == at
    {
      executed, failed := None, false;
      var asked: seq<Move> := [];
      var selected := Selected(v.plan);
      ghost var w, made := world.(clock := at), world.pass.made;
      if selected.Some? {
        var c := selected.value.class_;
        asked := AskedFor(v, c);
        if evacuated && (c == Rebalance || c == ScaleIn) {
          executed := Some(Executed(c, at, false, true));
        } else {
          var applied, refused;
          applied, refused, failed := PerformAction(v, c, asked, at, grew, cut, w, made);
          PerformShape(w, v, made, c, at, asked, grew, cut);
          if !failed { executed := Some(Executed(c, at, applied, refused)); }
        }
      }
      step := Execute(at, selected, asked, grew, cut);
      assert Enabled(old(world), step);
      world := Apply(world, step);
      assert world == Act(w, v, evacuated, made, step);
    }

    // Writes the plan, carrying forward what only exists across passes.
    method PublishPlan(v: View, executed: Option<Executed>, at: int) returns (ghost step: Step)
      requires Valid() && IsPlan(v.signals, v.policy, v.packing, v.plan) && world.clock <= at
      requires world.pass.Acted? && world.pass.view == v && world.pass.executed == executed
      modifies this
      ensures Valid()
      ensures step.Publish? && step.at == at && Stepped(old(world), step, world) && world.pass.Idle?
    {
      var s := PlanStatusOf(status, v.plan, executed, at);
      TargetsOfAgree(v.signals, v.policy, v.packing, v.plan.targets);
      ClockCarried(status, v.plan, executed, at, s, "");
      step := Publish(at, s);
      assert Enabled(world, step);
      world := Apply(world, step);
      status := Some(s);
    }

    // What this pass sees: the cluster it was handed, with what the controller itself remembers.
    method Observed(seen: Signals, now: int) returns (s: Signals)
      requires Valid()
      ensures s.now == now && s.declared == declared && s.inFlight == |Flying(moves)| && Reads(s, status)
      ensures Assembled(s) && s.instances == seen.instances && s.tenants == seen.tenants
    {
      var assembled := SignalsOf(seen);
      var inFlight := MigrationSignals();
      var up, down, since := HistorySignals(status);
      s := assembled.(now := now, declared := declared, inFlight := inFlight, lastScaleUp := up, lastScaleDown := down,
                      consolidatableSince := since);
    }

    // Reads the cluster and plans.
    method Plan(seen: Signals, policy: Policy, packing: Packing, draining: set<string>, now: int)
      returns (v: View, ghost step: Step)
      requires Valid() && world.pass.Idle? && world.clock <= now
      modifies this`world
      ensures Valid() && step == Observe(v) && Stepped(old(world), step, world)
      ensures world.pass == Planned(v) && world.clock == now
      ensures OnePerClass(v.plan) && IsPlan(v.signals, v.policy, v.packing, v.plan)
      ensures v.signals.inFlight == |Flying(moves)| && v.policy == policy && v.draining == draining
    {
      var s := Observed(seen, now);
      var plan := RecommendPlan(s, policy, packing);
      v := View(s, policy, packing, plan, draining, cordoned, marked);
      PlanHasOnePerClass(GuardOf(s, policy, plan.consolidationTarget), plan);
      step := Observe(v);
      assert Enabled(world, step);
      world := Apply(world, step);
    }

    // One whole pass that makes and reclaims no member.
    method Reconcile(seen: Signals, policy: Policy, packing: Packing, draining: set<string>, grew: bool,
                     now: int, executing: int, publishing: int, faults: Faults)
      returns (ghost steps: seq<Step>)
      requires Valid() && world.pass.Idle? && world.clock <= now <= executing <= publishing
      modifies this
      ensures Valid() && world.pass.Idle? && Reaches(old(world), steps, world)
      // It looked once, and counted the migrations that were in flight.
      ensures steps != [] && steps[0].Observe? && steps[0].view.policy == policy
      ensures steps[0].view.signals.inFlight == |Flying(old(moves))|
      ensures forall i | 0 < i < |steps| :: !steps[i].Observe?
    {
      ghost var step, before := Die, world;
      var v;
      v, step := Plan(seen, policy, packing, draining, now);
      Extend(old(world), [], before, step, world);
      steps := [] + [step];

      before := world;
      var evacuated, failed;
      evacuated, failed, step := EvacuateDraining(v, faults.evacuation);
      Extend(old(world), steps, before, step, world);
      steps := steps + [step];
      if failed { return; }
      steps := ExecuteAndPublish(v, evacuated, grew, executing, publishing, faults, old(world), steps);
    }

    // The rest of the pass, which may fail at its emission or before it publishes.
    method ExecuteAndPublish(v: View, evacuated: bool, grew: bool, executing: int, publishing: int, faults: Faults,
                             ghost start: World, ghost done: seq<Step>)
      returns (ghost steps: seq<Step>)
      requires Valid() && OnePerClass(v.plan) && IsPlan(v.signals, v.policy, v.packing, v.plan)
      requires world.pass.Evacuated? && world.pass.view == v && world.pass.emitted == evacuated
      requires world.clock <= executing <= publishing && Reaches(start, done, world)
      modifies this
      ensures Valid() && world.pass.Idle? && Reaches(start, steps, world)
      ensures done <= steps && forall i | |done| <= i < |steps| :: !steps[i].Observe?
    {
      ghost var step, before := Die, world;
      var executed, failed;
      executed, failed, step := ExecuteSelected(v, evacuated, executing, grew, faults.execution);
      Extend(start, done, before, step, world);
      steps := done + [step];
      if failed { return; }

      before := world;
      if faults.beforePublish {
        world := world.(pass := Idle);
        step := Die;
      } else {
        step := PublishPlan(v, executed, publishing);
      }
      Extend(start, steps, before, step, world);
      steps := steps + [step];
    }
  }

  ghost predicate Stepped(w: World, step: Step, w': World) { Enabled(w, step) && w' == Apply(w, step) }

  lemma PerformShape(w: World, v: View, made: nat, c: Class, at: int, asked: seq<Move>, grew: bool, cut: nat)
    ensures var w' := Perform(w, v, made, c, at, asked, grew, cut);
            && w'.status == w.status && w'.clock == w.clock
            && (w'.pass.Idle? || (w'.pass.Acted? && w'.pass.view == v))
            && (w'.declared < w.declared ==> w'.declared >= v.plan.recommended)
  {}

  // A run goes on by one step.
  lemma {:induction false} Extend(w: World, steps: seq<Step>, w1: World, step: Step, w2: World)
    requires Reaches(w, steps, w1) && Stepped(w1, step, w2)
    ensures Reaches(w, steps + [step], w2)
    decreases |steps|
  {
    var all := steps + [step];
    if steps == [] {
      assert all[1..] == [];
      assert Reaches(w2, [], w2);
    } else {
      assert all[1..] == steps[1..] + [step];
      Extend(Apply(w, steps[0]), steps[1..], w1, step, w2);
    }
  }
}
