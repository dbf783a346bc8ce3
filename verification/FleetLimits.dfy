/** Runs from an empty namespace that show where the fleet's promises end. */
module FleetLimits {
  import opened Common
  import opened Migration
  import opened Fleet
  import opened FleetLaws
  import LiveData
  import LiveDataLimits

  const BARE := Namespace(map[], map[], map[], Pool(true, false, false), 0, 0)

  // A member the pool made with one tenant on it, and another member, which the pool made or did not.
  function Settled(y: string, x: string, made: bool, tenant: string): Fleet {
    Namespace(map[y := Instance(0, 0, false, false, true, true), x := Instance(1, 0, false, false, made, true)],
              map[tenant := At(y, 0)], map[], Pool(true, true, false), 2, 0)
  }

  // A move of the tenant from one to the other that has advanced `i` phases.
  function Moving(y: string, x: string, made: bool, tenant: string, move: string, i: nat): Fleet
    requires i < 6
  {
    var source := if i == 0 then Nowhere else At(y, 0);
    Settled(y, x, made, tenant).(moves := map[move := Move(tenant, x, source, Offline, LiveDataLimits.Status0(i))])
  }

  // The tenant on the other member, inside its rollback window.
  function Moved(y: string, x: string, made: bool, tenant: string, move: string): Fleet {
    Settled(y, x, made, tenant).(
      tenants := map[tenant := At(x, 1)],
      moves := map[move := Move(tenant, x, At(y, 0), Offline, LiveDataLimits.FlippedStatus(0, 60))])
  }

  // ------------------------------------------------------------------ getting there

  lemma {:induction false} Append(a: Fleet, first: seq<Step>, b: Fleet, second: seq<Step>, c: Fleet)
    requires Reaches(a, first, b) && Reaches(b, second, c)
    ensures Reaches(a, first + second, c)
    decreases |first|
  {
    if first == [] {
      assert first + second == second;
    } else {
      assert (first + second)[1..] == first[1..] + second;
      Append(Apply(a, first[0]), first[1..], b, second, c);
    }
  }

  lemma Then(f: Fleet, steps: seq<Step>, g: Fleet, step: Step) returns (all: seq<Step>)
    requires Reaches(f, steps, g) && Enabled(g, step)
    ensures Reaches(f, all, Apply(g, step))
  {
    assert [step][1..] == [];
    assert Reaches(Apply(g, step), [], Apply(g, step));
    Append(f, steps, g, [step], Apply(g, step));
    all := steps + [step];
  }

  lemma Settles(y: string, x: string, made: bool, tenant: string) returns (steps: seq<Step>)
    requires x != y
    ensures Reaches(BARE, steps, Settled(y, x, made, tenant))
  {
    var f1 := Apply(BARE, Hold);
    var f2 := Apply(f1, Provision(y));
    var another := if made then Provision(x) else Create(x, true);
    var f3 := Apply(f2, another);
    assert f3.instances == Settled(y, x, made, tenant).instances;
    steps := Then(BARE, [], BARE, Hold);
    steps := Then(BARE, steps, f1, Provision(y));
    steps := Then(BARE, steps, f2, another);
    steps := Then(BARE, steps, f3, Bind(tenant, y));
  }

  // With its work done, each phase before the flip is left for the next.
  lemma Forward(y: string, x: string, made: bool, tenant: string, move: string, i: nat)
    requires x != y && i < 5
    ensures var step := Reconcile(move, LiveDataLimits.GO, 0, 60, Published, Routes(false, true));
            var f := Moving(y, x, made, tenant, move, i);
            Enabled(f, step) && Apply(f, step) == Moving(y, x, made, tenant, move, i + 1)
  {
    var f := Moving(y, x, made, tenant, move, i);
    var m := f.moves[move];
    LiveDataLimits.ForwardDecides(y, i, 0, 60);
    var live := LiveData.Move(y, Offline, LiveDataLimits.Status0(i));
    assert LiveData.DecisionOf(live, LiveDataLimits.GO, 0) ==
           Decide(m.status.phase, Seen(m.status, LiveDataLimits.GO, 0));
    StaysHome(f, m, Decide(m.status.phase, Seen(m.status, LiveDataLimits.GO, 0)), Routes(false, true));
  }

  // Serving from the source where the tenant stands writes no routing.
  lemma StaysHome(f: Fleet, m: Move, d: Decision, r: Routes)
    requires Resolves(f, m) && f.tenants[m.tenant] == ResolvedSource(f, m)
    ensures Restore(f, m.(source := ResolvedSource(f, m)), d, r) == f
  {}

  lemma {:induction false} ForwardTo(y: string, x: string, made: bool, tenant: string, move: string, i: nat)
    returns (steps: seq<Step>)
    requires x != y && i <= 5
    ensures Reaches(BARE, steps, Moving(y, x, made, tenant, move, i))
    decreases i
  {
    if i == 0 {
      steps := Settles(y, x, made, tenant);
      assert LiveDataLimits.Status0(0) == Admitted by { assert PhaseOrder(Offline)[..1] == [Preflight]; }
      steps := Then(BARE, steps, Settled(y, x, made, tenant), Emit(move, tenant, x, Offline));
    } else {
      steps := ForwardTo(y, x, made, tenant, move, i - 1);
      Forward(y, x, made, tenant, move, i - 1);
      var step := Reconcile(move, LiveDataLimits.GO, 0, 60, Published, Routes(false, true));
      steps := Then(BARE, steps, Moving(y, x, made, tenant, move, i - 1), step);
    }
  }

  function Flipping(move: string): Step {
    Reconcile(move, LiveDataLimits.FLIP, 0, 60, Published, Routes(true, true))
  }

  // One reconcile flips the routing, whatever anybody has done to the two members but delete them.
  lemma Flips(f: Fleet, y: string, x: string, tenant: string, move: string)
    requires x != y && y in f.instances && x in f.instances && f.clock == 0
    requires f.tenants == map[tenant := At(y, 0)]
    requires f.moves == map[move := Move(tenant, x, At(y, 0), Offline, LiveDataLimits.Status0(5))]
    ensures Enabled(f, Flipping(move)) && FlipsOnto(f, Flipping(move), x)
    ensures Apply(f, Flipping(move)) == f.(
              tenants := map[tenant := At(x, f.instances[x].uid)],
              moves := map[move := Move(tenant, x, At(y, 0), Offline, LiveDataLimits.FlippedStatus(0, 60))])
  {
    var m := f.moves[move];
    LiveDataLimits.FlipDecides(y, 0, 60);
    var live := LiveData.Move(y, Offline, LiveDataLimits.Status0(5));
    assert LiveData.DecisionOf(live, LiveDataLimits.FLIP, 0) ==
           Decide(m.status.phase, Seen(m.status, LiveDataLimits.FLIP, 0));
    assert Resolves(f, m);
  }

  lemma MovesOver(y: string, x: string, made: bool, tenant: string, move: string) returns (steps: seq<Step>)
    requires x != y
    ensures Reaches(BARE, steps, Moved(y, x, made, tenant, move))
  {
    steps := ForwardTo(y, x, made, tenant, move, 5);
    Flips(Moving(y, x, made, tenant, move, 5), y, x, tenant, move);
    steps := Then(BARE, steps, Moving(y, x, made, tenant, move, 5), Flipping(move));
  }

  // ------------------------------------------------------------------ the runs

  // A tenant moved from a member the pool made to one somebody else wrote, inside its rollback window,
  // and the pool is deleted: the release is allowed, and the rollback then finds no machine to go back to.
  lemma ReleaseCanEndARollback(made: string, adopted: string, tenant: string, move: string)
    returns (steps: seq<Step>, f: Fleet)
    requires made != adopted
    ensures Reaches(BARE, steps, f) && Enabled(f, Finalize)
    ensures move in f.moves && CanRollBack(f.moves[move].status, f.clock)
    ensures !Alive(Apply(f, Finalize), f.moves[move].source)
    ensures !Resolves(Apply(f, Finalize), f.moves[move])
  {
    var moved := Moved(made, adopted, false, tenant, move);
    steps := MovesOver(made, adopted, false, tenant, move);
    steps := Then(BARE, steps, moved, DeletePool);
    f := moved.(pool := Pool(true, true, true));
    RollBackExactly(f.moves[move].status, f.clock);
    Releases(f, made, adopted, tenant, f.moves[move]);
  }

  lemma Releases(f: Fleet, made: string, adopted: string, tenant: string, m: Move)
    requires made != adopted && f.instances.Keys == {made, adopted}
    requires f.instances[made].owned && !f.instances[adopted].owned
    requires f.tenants == map[tenant := At(adopted, 1)] && f.pool == Pool(true, true, true) && m.source == At(made, 0)
    ensures Enabled(f, Finalize) && !Alive(Apply(f, Finalize), m.source) && !Resolves(Apply(f, Finalize), m)
  {
    assert made !in Apply(f, Finalize).instances;
  }

  // A pass that still reads the tenant where it was asks for the same move again and clears the record,
  // whose rollback is still open; the member the tenant could have gone back to, drained meanwhile, is
  // then reclaimed.
  lemma ClearedRecordLosesItsSource(y: string, x: string, tenant: string, move: string)
    returns (steps: seq<Step>, f: Fleet, seen: Instance)
    requires x != y
    ensures Reaches(BARE, steps, f) && move in f.moves && CanRollBack(f.moves[move].status, f.clock)
    ensures f.moves[move].source.At? && f.moves[move].source.name == y && !Reclaimable(f, y, seen)
    ensures Enabled(f, Clear(move)) && Enabled(Apply(f, Clear(move)), Reclaim(y, seen))
  {
    var moved := Moved(y, x, true, tenant, move);
    steps := MovesOver(y, x, true, tenant, move);
    steps := Then(BARE, steps, moved, Edit(y, true, true));
    f := Apply(moved, Edit(y, true, true));
    seen := f.instances[y];
    RollBackExactly(f.moves[move].status, f.clock);
    assert Retains(f, y);
    var g := Apply(f, Clear(move));
    assert g.moves == map[];
    assert !Holds(g, y);
  }

  // A member that was empty, marked and cordoned when a pass read its lists, and a migration to it
  // admitted before the cordon: the migration cuts over, and the delete is then still accepted.
  lemma CutoverDefeatsStaleReclaim(y: string, x: string, tenant: string, move: string)
    returns (steps: seq<Step>, f: Fleet, flip: Step)
    requires x != y
    ensures Reaches(BARE, steps, f) && x in f.instances && Reclaimable(f, x, f.instances[x])
    ensures Enabled(f, flip) && FlipsOnto(f, flip, x)
    ensures var g := Apply(f, flip); x in g.instances && g.instances[x] == f.instances[x] && Holds(g, x)
  {
    var moving := Moving(y, x, true, tenant, move, 5);
    steps := ForwardTo(y, x, true, tenant, move, 5);
    steps := Then(BARE, steps, moving, Edit(x, true, true));
    f := Apply(moving, Edit(x, true, true));
    flip := Flipping(move);
    Flips(f, y, x, tenant, move);
    var g := Apply(f, flip);
    assert g.tenants[tenant].name == x;
  }
}
