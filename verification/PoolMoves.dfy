/** Which migrations a pool's passes start: only planned ones there is a permission for, and the best of
    them whenever there is one to start. */
module PoolMoves {
  import opened Common
  import opened Autoscale
  import opened Planner
  import opened PoolRun
  import opened Sorting

  // A drain asks for this planned move: off an instance being drained, with the evacuation permitted, of a
  // tenant that may be moved whatever its heat.
  ghost predicate Drained(v: View, m: Move) {
    var t, source := FirstTenant(v.signals.tenants, m.tenant), FirstInstance(v.signals.instances, m.from);
    && m in v.plan.moves && m.from in v.draining && v.plan.evacuation == Allowed
    && t.migrationAllowed && !Loaded(v.policy, source)
    && (source.name in v.signals.fromSource ==> v.signals.fromSource[source.name] == 0)
  }

  // The action asks for it: planned and unblocked, and in a scale-in off the victim.
  ghost predicate Chosen(v: View, c: Class, m: Move) {
    && m in v.plan.moves && m.blocker.None?
    && (c == Rebalance || (c == ScaleIn && v.plan.consolidationTarget == Some(m.from)))
  }

  lemma EvacuatesExactly(v: View, m: Move)
    requires m in v.plan.moves && m.from in v.draining && v.plan.evacuation == Allowed
    ensures Drained(v, m) <==>
              Evacuates(GuardOf(v.signals, v.policy, v.plan.consolidationTarget), m, m.(blocker := None))
  {
    var g := GuardOf(v.signals, v.policy, v.plan.consolidationTarget);
    var anyHeat := g.(policy := g.policy.(coldOnly := false));
    MoveEligibleExactly(anyHeat, FirstTenant(v.signals.tenants, m.tenant), FirstInstance(v.signals.instances, m.from));
  }

  // What an emission puts in flight is one of the moves asked for, and nothing of that name was there.
  lemma Started(moves: map<string, MoveState>, asked: seq<Move>, cut: nat, name: string) returns (k: nat)
    requires name in Flying(EmitUpTo(moves, asked, cut).moves) && name !in Flying(moves)
    ensures k < |asked| && MoveName(asked[k]) == name
    ensures forall j | 0 <= j < k :: MoveName(asked[j]) in moves
  {
    var tried := if cut < |asked| then asked[..cut] else asked;
    EmitAddsAtMostOne(moves, tried);
    assert tried <= asked;
    k :| 0 <= k < |tried| && Flying(Emit(moves, tried).moves) == Flying(moves) + {MoveName(tried[k])}
      && MoveName(tried[k]) !in Flying(moves) && forall j | 0 <= j < k :: MoveName(tried[j]) in moves;
    assert tried[k] == asked[k] && forall j | 0 <= j < k :: tried[j] == asked[j];
  }

  // A drain starts only what it may.
  lemma DrainStartsOnlyDrained(w: World, asked: seq<Move>, cut: nat, name: string) returns (m: Move)
    requires Enabled(w, Evacuate(asked, cut))
    requires name in Flying(Apply(w, Evacuate(asked, cut)).moves) && name !in Flying(w.moves)
    ensures Drained(w.pass.view, m) && MoveName(m) == name
  {
    var k := Started(w.moves, asked, cut, name);
    var v := w.pass.view;
    var g := GuardOf(v.signals, v.policy, v.plan.consolidationTarget);
    assert asked[k] in asked;
    m :| m in v.plan.moves && Evacuates(g, m, asked[k]);
    EvacuatesExactly(v, m);
  }

  // And it starts one whenever it may and some name is free.
  lemma DrainStarts(w: World, asked: seq<Move>, cut: nat, m: Move) returns (name: string)
    requires Enabled(w, Evacuate(asked, cut)) && |asked| <= cut
    requires Drained(w.pass.view, m) && MoveName(m) !in w.moves
    ensures name in Flying(Apply(w, Evacuate(asked, cut)).moves) && name !in Flying(w.moves)
  {
    EvacuatesExactly(w.pass.view, m);
    assert m.(blocker := None) in asked;
    name := Starts(w.moves, asked, m.(blocker := None));
  }

  lemma Starts(moves: map<string, MoveState>, asked: seq<Move>, m: Move) returns (name: string)
    requires m in asked && MoveName(m) !in moves
    ensures name in Flying(Emit(moves, asked).moves) && name !in Flying(moves)
  {
    EmitAddsAtMostOne(moves, asked);
    assert Emit(moves, asked).created by {
      var j :| 0 <= j < |asked| && asked[j] == m;
    }
    var k :| 0 <= k < |asked| && Flying(Emit(moves, asked).moves) == Flying(moves) + {MoveName(asked[k])}
      && MoveName(asked[k]) !in Flying(moves);
    name := MoveName(asked[k]);
  }

  // The selected action starts only what it may, and the most worthwhile of it: every move it might have
  // started that is worth more has a record already.
  lemma ActionStartsTheBest(w: World, step: Step, name: string) returns (m: Move)
    requires step.Execute? && Enabled(w, step)
    requires name in Flying(Apply(w, step).moves) && name !in Flying(w.moves)
    ensures step.selected.Some? && step.selected.value.verdict == Allowed && !w.pass.emitted
    ensures Chosen(w.pass.view, step.selected.value.class_, m) && MoveName(m) == name
    ensures forall other | Chosen(w.pass.view, step.selected.value.class_, other) :: NotBetter(w, m, other)
  {
    var v, c := w.pass.view, step.selected.value.class_;
    var k := Started(w.moves, step.asked, step.cut, name);
    m := step.asked[k];
    assert m in step.asked;
    forall other | Chosen(v, c, other) ensures NotBetter(w, m, other) {
      assert other in step.asked;
      var j :| 0 <= j < |step.asked| && step.asked[j] == other;
      if k < j { assert WorthMore(step.asked[k], step.asked[j]); }
    }
  }

  predicate NotBetter(w: World, m: Move, other: Move) {
    other.improvement > m.improvement ==> MoveName(other) in w.moves
  }

  // And one is started whenever an action that moves tenants is selected, no drain started one before it,
  // and some move it may start has its name free.
  lemma ActionStarts(w: World, step: Step, m: Move) returns (name: string)
    requires step.Execute? && Enabled(w, step) && step.selected.Some? && |step.asked| <= step.cut && !w.pass.emitted
    requires Chosen(w.pass.view, step.selected.value.class_, m) && MoveName(m) !in w.moves
    ensures name in Flying(Apply(w, step).moves) && name !in Flying(w.moves)
  {
    assert m in step.asked;
    name := Starts(w.moves, step.asked, m);
  }

  // Nothing else starts one, but a refused migration that comes back.
  lemma OnlyPassesStart(w: World, step: Step, name: string)
    requires Enabled(w, step) && name in Flying(Apply(w, step).moves) && name !in Flying(w.moves)
    ensures step.Evacuate? || step.Execute? || step == Reopen(name)
  {}
}
