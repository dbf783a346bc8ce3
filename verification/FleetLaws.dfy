/** What whole runs of the fleet keep, and where the promises stop. */
module FleetLaws {
  import opened Common
  import opened Migration
  import opened Fleet

  lemma CollectKeeps(f: Fleet)
    requires StatusesOk(f) && TenantsAlive(f)
    requires Covered(f) || (f.pool.exists_ && f.pool.deleting && !f.pool.finalizer)
    requires forall n | n in f.instances && f.instances[n].owned :: f.instances[n].member
    requires !Occupied(f) || Covered(f)
    ensures Inv(Collect(f))
    ensures Covered(f) && SourcesAlive(f) ==> SourcesAlive(Collect(f))
  {
    var f' := Collect(f);
    forall t | t in f'.tenants ensures Alive(f', f'.tenants[t]) {
      var p := f.tenants[t];
      assert Alive(f, p);
      if p.At? { assert Holds(f, p.name); }
    }
  }

  // Every step, pool deletion included, keeps every tenant's machine and covers every member the
  // pool made.  Every step but the release of a deleted pool also keeps every machine a migration
  // may still send its tenant back to.
  lemma StepKeeps(f: Fleet, step: Step)
    requires Inv(f) && Enabled(f, step)
    ensures Inv(Apply(f, step))
    ensures SourcesAlive(f) && step != Finalize ==> SourcesAlive(Apply(f, step))
  {
    var f' := Apply(f, step);
    match step
    case Reconcile(move, o, now, window, reach, r) => ReconcileKeeps(f, move, o, now, window, reach, r);
    case DeletePool => CollectKeeps(f.(pool := f.pool.(deleting := true)));
    case Finalize => CollectKeeps(f.(pool := f.pool.(finalizer := false)));
    case Reclaim(name, seen) =>
      forall t | t in f'.tenants ensures Alive(f', f'.tenants[t]) {
        assert f.tenants[t].At? && f.tenants[t].name == name ==> Holds(f, name);
      }
      forall m | m in f'.moves && !f'.moves[m].status.dropped && SourcesAlive(f) ensures Alive(f', f'.moves[m].source) {
        assert f.moves[m].source.At? && f.moves[m].source.name == name ==> Retains(f, name);
      }
    case _ =>
  }

  // In every run nothing ever removes a machine that some tenant's clients are sent to.
  lemma {:induction false} NoTenantIsStranded(f: Fleet, steps: seq<Step>, f': Fleet)
    requires Inv(f) && Reaches(f, steps, f')
    ensures Inv(f')
    ensures forall t | t in f'.tenants && f'.tenants[t].At? ::
              f'.tenants[t].name in f'.instances && f'.instances[f'.tenants[t].name].uid == f'.tenants[t].uid
    decreases |steps|
  {
    if steps != [] {
      StepKeeps(f, steps[0]);
      NoTenantIsStranded(Apply(f, steps[0]), steps[1..], f');
    }
  }

  // In every run in which no deleted pool is released, every source not yet dropped is still the
  // machine it was.
  lemma {:induction false} EverySourceIsKept(f: Fleet, steps: seq<Step>, f': Fleet)
    requires Inv(f) && SourcesAlive(f) && Reaches(f, steps, f')
    requires forall i | 0 <= i < |steps| :: steps[i] != Finalize
    ensures Inv(f') && SourcesAlive(f')
    decreases |steps|
  {
    if steps != [] {
      StepKeeps(f, steps[0]);
      EverySourceIsKept(Apply(f, steps[0]), steps[1..], f');
    }
  }

  // So a rollback that is still possible puts the tenant back on the very machine it came from,
  // exactly when its routing write goes through: a write that fails leaves it on the target, and the
  // record says rolled back all the same.
  lemma RollbackReturnsHome(f: Fleet, move: string, o: Observation, now: int, window: nat, r: Routes)
    requires Inv(f) && SourcesAlive(f) && Enabled(f, Reconcile(move, o, now, window, Published, r))
    requires var m := f.moves[move];
             && m.status.phase == Completed && !WindowClosed(m.status, now) && o.rollbackRequested
             && m.source.At? && m.source.name != m.target
             && m.tenant in f.tenants && f.tenants[m.tenant].At? && f.tenants[m.tenant].name == m.target
    ensures var f' := Apply(f, Reconcile(move, o, now, window, Published, r));
            var m := f.moves[move];
            && f'.tenants[m.tenant] == (if r.restored then m.source else f.tenants[m.tenant])
            && move in f'.moves && f'.moves[move].status.phase == RolledBack
  {
    var m := f.moves[move];
    RollbackDecides(m.status, o, now, window);
    assert !m.status.dropped && Alive(f, m.source) && Alive(f, f.tenants[m.tenant]);
    assert m.(source := m.source) == m && !r.flipped && Resolves(f, m);
    RestoreRoutes(f.(clock := now), m, Decide(m.status.phase, Seen(m.status, o, now)), r);
  }

  lemma RollbackDecides(s: Status, o: Observation, now: int, window: nat)
    requires s.phase == Completed && !WindowClosed(s, now) && o.rollbackRequested
    ensures Decide(s.phase, Seen(s, o, now)).serving == Source && Record(s, o, now, window).phase == RolledBack
  {
    assert Decide(s.phase, Seen(s, o, now)) == DecideCompleted(Seen(s, o, now));
  }

  lemma RestoreRoutes(f: Fleet, m: Move, d: Decision, r: Routes)
    requires Resolves(f, m) && m.source.At? && d.serving == Source && Alive(f, m.source)
    requires f.tenants[m.tenant].At? && f.tenants[m.tenant].name == m.target
    ensures var f' := Restore(f, m, d, r);
            f'.tenants[m.tenant] == (if r.restored then m.source else f.tenants[m.tenant]) && f'.moves == f.moves
  {}

  predicate OwnedSource(f: Fleet, m: Move) {
    m.source.At? && m.source.name in f.instances && f.instances[m.source.name].owned
  }

  // Releasing a deleted pool keeps them exactly when none of them is a member the pool made: the
  // hold counts bound tenants and not the sources migrations have retained.
  lemma ReleaseKeepsSourcesExactly(f: Fleet)
    requires Inv(f) && SourcesAlive(f) && Enabled(f, Finalize)
    ensures SourcesAlive(Apply(f, Finalize)) <==>
            forall m | m in f.moves && !f.moves[m].status.dropped && f.moves[m].source.At? ::
              f.moves[m].source.name in f.instances && !f.instances[f.moves[m].source.name].owned
  {
    var f' := Apply(f, Finalize);
    if m :| m in f.moves && !f.moves[m].status.dropped && f.moves[m].source.At? && OwnedSource(f, f.moves[m]) {
      assert Alive(f, f.moves[m].source) && !Alive(f', f'.moves[m].source);
    }
  }

  // ------------------------------------------------------------------ what a reconcile writes

  // A reconcile changes its own record and no other, and only if it publishes: to what it decided, with the
  // source it resolved; or, where the ends do not resolve, to no more than the source, and then it routes
  // nobody.
  lemma RecordsExactly(f: Fleet, move: string, o: Observation, now: int, window: nat, reach: Reach, r: Routes)
    requires Enabled(f, Reconcile(move, o, now, window, reach, r))
    ensures var f', m := Apply(f, Reconcile(move, o, now, window, reach, r)), f.moves[move];
            var source := m.(source := ResolvedSource(f, m));
            && (reach != Published ==> f'.moves == f.moves)
            && (reach == Published ==>
                  f'.moves == f.moves[move :=
                    if Resolves(f, m) then source.(status := Record(m.status, o, now, window))
                    else if m.tenant in f.tenants then source else m])
            && (!Resolves(f, m) ==> f'.tenants == f.tenants)
  {
    assert f.moves[move := f.moves[move]] == f.moves;
  }

  // It routes its own tenant and no other: nowhere new if somebody else placed it elsewhere; else home, if it
  // decided to serve from the source and that write went through; else to the target, if it cut over.
  lemma RoutesExactly(f: Fleet, move: string, o: Observation, now: int, window: nat, reach: Reach, r: Routes)
    requires Enabled(f, Reconcile(move, o, now, window, reach, r)) && Resolves(f, f.moves[move])
    ensures var f', m := Apply(f, Reconcile(move, o, now, window, reach, r)), f.moves[move];
            var source, home := ResolvedSource(f, m).name, f.tenants[m.tenant];
            && m.tenant in f'.tenants && f'.tenants == f.tenants[m.tenant := f'.tenants[m.tenant]]
            && var after := f'.tenants[m.tenant];
               if home.At? && home.name != source && home.name != m.target then after == home
               else if reach != Died && Decide(m.status.phase, Seen(m.status, o, now)).serving == Source && r.restored
               then after.At? && after.name == source
               else if r.flipped then after == At(m.target, f.instances[m.target].uid)
               else after == home
  {
    var m := f.moves[move];
    assert f.tenants[m.tenant := f.tenants[m.tenant]] == f.tenants;
  }

  // While a pool is being deleted no member is made for it and its hold does not come back.
  lemma {:induction false} DeletingMakesNothing(f: Fleet, steps: seq<Step>, f': Fleet)
    requires Reaches(f, steps, f') && Fresh(f) && f.pool.deleting
    ensures f'.pool.deleting && (!f.pool.finalizer ==> !f'.pool.finalizer) && (!f.pool.exists_ ==> !f'.pool.exists_)
    ensures forall n | n in f'.instances && f'.instances[n].owned ::
              n in f.instances && f.instances[n].owned && f.instances[n].uid == f'.instances[n].uid
    decreases |steps|
  {
    if steps != [] {
      var g := Apply(f, steps[0]);
      if steps[0].Reconcile? {
        var s := steps[0];
        ReconcileShape(f, s.move, s.o, s.now, s.window, s.reach, s.r);
      }
      VersionsMoveOn(f, "", steps[0]);
      DeletingMakesNothing(g, steps[1..], f');
    }
  }

  // Letting a deleted pool go ends it, and takes exactly the machines it owns.
  lemma ReleaseTakesExactly(f: Fleet)
    requires Enabled(f, Finalize)
    ensures !Apply(f, Finalize).pool.exists_
    ensures forall n :: n in Apply(f, Finalize).instances <==> n in f.instances && !f.instances[n].owned
  {}

  // ------------------------------------------------------------------ clearing a record

  // Some reconcile, now or later, could still decide to roll this back.
  ghost predicate CanRollBack(s: Status, clock: int) {
    s.phase != RolledBack && exists o, now :: clock <= now && Decide(s.phase, Seen(s, o, now)).phase == RolledBack
  }

  // A settled record is cleared to make way for the same move.  That ends a rollback that was possible if
  // and only if the record is Completed and its window open; and it leaves the source retained if and only
  // if some other record retains it, whether a rollback was possible or not.
  lemma ClearEndsRollbackExactly(f: Fleet, move: string)
    requires Inv(f) && Enabled(f, Clear(move))
    ensures CanRollBack(f.moves[move].status, f.clock) <==>
              f.moves[move].status.phase == Completed && !WindowClosed(f.moves[move].status, f.clock)
    ensures f.moves[move].source.At? ==>
              var x := f.moves[move].source.name;
              && (CanRollBack(f.moves[move].status, f.clock) ==> Retains(f, x))
              && (Retains(Apply(f, Clear(move)), x) <==>
                    exists other | other in f.moves && other != move ::
                      f.moves[other].source.At? && f.moves[other].source.name == x && !f.moves[other].status.dropped)
  {
    var s := f.moves[move].status;
    assert StatusOk(s, f.clock);
    RollBackExactly(s, f.clock);
    var g := Apply(f, Clear(move));
    assert forall k :: k in g.moves <==> k in f.moves && k != move;
  }

  lemma RollBackExactly(s: Status, clock: int)
    requires Terminal(s.phase) && StatusOk(s, clock)
    ensures CanRollBack(s, clock) <==> s.phase == Completed && !WindowClosed(s, clock)
  {
    if s.phase == Completed {
      var o := Observation(Online, false, true, false, false, false, false, false, false, false, false,
                           false, false, false, false, false);
      assert Decide(s.phase, Seen(s, o, clock)) == DecideCompleted(Seen(s, o, clock));
      forall p, now | clock <= now && Decide(s.phase, Seen(s, p, now)).phase == RolledBack
        ensures !WindowClosed(s, clock)
      {
        assert Decide(s.phase, Seen(s, p, now)) == DecideCompleted(Seen(s, p, now));
      }
    }
  }

  // ------------------------------------------------------------------ reclaiming from a stale list

  // Nothing lives on x, and nothing can be sent back to it.
  ghost predicate Empty(f: Fleet, x: string) { !Holds(f, x) && !Retains(f, x) }

  // The one step that can put a tenant on a cordoned machine: an earlier migration cutting over to it
  // and leaving it there.
  predicate FlipsOnto(f: Fleet, step: Step, x: string) {
    && step.Reconcile? && step.move in f.moves && f.moves[step.move].target == x && step.r.flipped
    && var m := f.moves[step.move];
       || step.reach == Died || !step.r.restored
       || Decide(m.status.phase, Seen(m.status, step.o, step.now)).serving == Target
  }

  lemma DroppedServesTarget(s: Status, o: Observation, now: int)
    requires StatusOk(s, now) && s.dropped
    ensures Decide(s.phase, Seen(s, o, now)).serving == Target
  {}

  lemma ReconcileKeepsEmpty(f: Fleet, x: string, move: string, o: Observation, now: int, window: nat, reach: Reach,
                            r: Routes)
    requires Inv(f) && Empty(f, x) && Enabled(f, Reconcile(move, o, now, window, reach, r))
    requires !FlipsOnto(f, Reconcile(move, o, now, window, reach, r), x)
    ensures Empty(Apply(f, Reconcile(move, o, now, window, reach, r)), x)
  {
    var m := f.moves[move];
    var f' := ReconcileMove(f, move, o, now, window, reach, r);
    assert StatusOk(m.status, now);
    RecordKeeps(m.status, o, now, window, now);
    SourceIsElsewhere(f, x, m);
    if m.status.dropped { DroppedServesTarget(m.status, o, now); }
    EmptyTenants(f, x, move, o, now, window, reach, r, f');
    ReconcileShape(f, move, o, now, window, reach, r);
    StillUnretained(f, x, move, Record(m.status, o, now, window), f');
  }

  // On an empty machine, a migration's source is elsewhere unless it has been dropped.
  lemma SourceIsElsewhere(f: Fleet, x: string, m: Move)
    requires Empty(f, x) && exists k :: k in f.moves && f.moves[k] == m
    ensures ResolvedSource(f, m).At? && ResolvedSource(f, m).name == x ==> m.status.dropped
  {
    assert m.tenant in f.tenants && f.tenants[m.tenant].At? && f.tenants[m.tenant].name == x ==> Holds(f, x);
  }

  lemma StillUnretained(f: Fleet, x: string, move: string, s: Status, f': Fleet)
    requires !Retains(f, x) && move in f.moves && Shape(f, move, s, f') && (f.moves[move].status.dropped ==> s.dropped)
    requires var source := ResolvedSource(f, f.moves[move]);
             source.At? && source.name == x ==> f.moves[move].status.dropped
    ensures !Retains(f', x)
  {
    forall k | k in f'.moves && f'.moves[k].source.At? && f'.moves[k].source.name == x
      ensures f'.moves[k].status.dropped
    {
      assert k != move ==> f'.moves[k] == f.moves[k];
    }
  }

  lemma EmptyTenants(f: Fleet, x: string, move: string, o: Observation, now: int, window: nat, reach: Reach,
                     r: Routes, f': Fleet)
    requires Enabled(f, Reconcile(move, o, now, window, reach, r))
             && f' == ReconcileMove(f, move, o, now, window, reach, r)
    requires !Holds(f, x) && !FlipsOnto(f, Reconcile(move, o, now, window, reach, r), x)
    requires var m := f.moves[move];
             var source := ResolvedSource(f, m);
             source.At? && source.name == x ==> Decide(m.status.phase, Seen(m.status, o, now)).serving == Target
    ensures !Holds(f', x)
  {
    var m := f.moves[move];
    var d := Decide(m.status.phase, Seen(m.status, o, now));
    if Resolves(f, m) {
      var resolved := m.(source := ResolvedSource(f, m));
      var flipped := Flip(f.(clock := now), resolved, r);
      var restored := Restore(flipped, resolved, d, r);
      if r.flipped && m.target == x {
        var home := At(resolved.source.name, f.instances[resolved.source.name].uid);
        assert restored.tenants == f.tenants[m.tenant := home];
        StillOff(f, x, m.tenant, restored);
      } else {
        StillOff(f, x, m.tenant, flipped);
        StillOff(flipped, x, m.tenant, restored);
      }
    }
  }

  lemma StillOff(f: Fleet, x: string, tenant: string, f': Fleet)
    requires !Holds(f, x)
    requires || f'.tenants == f.tenants
             || exists p: Place :: (p.At? ==> p.name != x) && f'.tenants == f.tenants[tenant := p]
    ensures !Holds(f', x)
  {
    forall t | t in f'.tenants ensures !(f'.tenants[t].At? && f'.tenants[t].name == x) {
      assert t in f.tenants ==> !(f.tenants[t].At? && f.tenants[t].name == x);
    }
  }

  // While x keeps the version it was seen at, it stays cordoned, so nothing is admitted to it.
  lemma QuietStepKeepsEmpty(f: Fleet, x: string, step: Step)
    requires Inv(f) && Empty(f, x) && Enabled(f, step) && !FlipsOnto(f, step, x)
    requires x in f.instances && f.instances[x].cordoned
    ensures Empty(Apply(f, step), x)
  {
    var f' := Apply(f, step);
    match step
    case Reconcile(move, o, now, window, reach, r) => ReconcileKeepsEmpty(f, x, move, o, now, window, reach, r);
    case Bind(tenant, name) => StillOff(f, x, tenant, f');
    case Emit(_, _, _, _) =>
    case Clear(_) =>
    case Unbind(_) =>
    case _ => assert f'.tenants == f.tenants && f'.moves == f.moves;
  }

  // An object's version only moves forward, and a machine that is gone does not come back.
  lemma VersionsMoveOn(f: Fleet, x: string, step: Step)
    requires Enabled(f, step) && Fresh(f)
    ensures Fresh(Apply(f, step))
    ensures var f' := Apply(f, step);
            x in f'.instances && f'.instances[x].uid < f.nextUid ==>
            && x in f.instances && f.instances[x].uid == f'.instances[x].uid
            && (f'.instances[x] == f.instances[x] || f'.instances[x].rv > f.instances[x].rv)
  {
    if step.Reconcile? { ReconcileShape(f, step.move, step.o, step.now, step.window, step.reach, step.r); }
  }

  ghost predicate Fresh(f: Fleet) { forall n | n in f.instances :: f.instances[n].uid < f.nextUid }

  ghost predicate NeverFlipsOnto(f: Fleet, steps: seq<Step>, x: string)
    decreases |steps|
  {
    steps == [] || (Enabled(f, steps[0]) && !FlipsOnto(f, steps[0], x)
        && NeverFlipsOnto(Apply(f, steps[0]), steps[1..], x))
  }

  lemma {:induction false} SameVersionThroughout(f: Fleet, steps: seq<Step>, f': Fleet, x: string)
    requires Fresh(f) && Reaches(f, steps, f') && x in f'.instances && f'.instances[x].uid < f.nextUid
    ensures x in f.instances && f.instances[x].uid == f'.instances[x].uid
    ensures f'.instances[x] == f.instances[x] || f'.instances[x].rv > f.instances[x].rv
    decreases |steps|
  {
    if steps != [] {
      VersionsMoveOn(f, x, steps[0]);
      SameVersionThroughout(Apply(f, steps[0]), steps[1..], f', x);
    }
  }

  // The pass reads its lists, other steps happen, and then the delete goes out carrying the identity
  // and version of the member it read.  If the delete is accepted the member is as empty as the
  // lists said, whatever ran in between - provided no migration cut over onto it.
  lemma {:induction false} StaleReclaimIsSafe(f: Fleet, steps: seq<Step>, f': Fleet, x: string)
    requires Inv(f) && Fresh(f) && x in f.instances && Reclaimable(f, x, f.instances[x])
    requires Reaches(f, steps, f') && NeverFlipsOnto(f, steps, x)
    requires x in f'.instances && f'.instances[x].uid == f.instances[x].uid && f'.instances[x].rv == f.instances[x].rv
    ensures !Holds(f', x) && !Retains(f', x)
    decreases |steps|
  {
    if steps != [] {
      StaleStep(f, steps, f', x);
      StaleReclaimIsSafe(Apply(f, steps[0]), steps[1..], f', x);
    }
  }

  // As long as the version is still to be the one that was read, a step leaves the member reclaimable.
  lemma StaleStep(f: Fleet, steps: seq<Step>, f': Fleet, x: string)
    requires Inv(f) && Fresh(f) && x in f.instances && Reclaimable(f, x, f.instances[x]) && steps != []
    requires Reaches(f, steps, f') && !FlipsOnto(f, steps[0], x)
    requires x in f'.instances && f'.instances[x].uid == f.instances[x].uid && f'.instances[x].rv == f.instances[x].rv
    ensures var g := Apply(f, steps[0]);
            Inv(g) && Fresh(g) && x in g.instances && g.instances[x] == f.instances[x]
                && Reclaimable(g, x, g.instances[x])
  {
    VersionsMoveOn(f, x, steps[0]);
    SameVersionThroughout(Apply(f, steps[0]), steps[1..], f', x);
    StepKeeps(f, steps[0]);
    QuietStepKeepsEmpty(f, x, steps[0]);
  }

  // In every run, whatever takes a machine away other than the pool's deletion takes one that is marked
  // for reclaim, the pool's own and cordoned at that moment, although the pass saw it some time before;
  // nobody is bound to it and no migration keeps it.
  lemma OnlyDrainedIsReclaimed(f: Fleet, steps: seq<Step>, f': Fleet, step: Step, x: string)
    requires Fresh(f) && Reaches(f, steps, f') && Enabled(f', step) && step != DeletePool && step != Finalize
    requires x in f'.instances && x !in Apply(f', step).instances
    requires step.Reclaim? ==> step.name in f.instances && step.seen == f.instances[step.name]
    ensures f'.instances[x].marked && f'.instances[x].owned && f'.instances[x].cordoned
    ensures forall t | t in f'.tenants && f'.tenants[t].At? :: f'.tenants[t].name != x
    ensures forall m | m in f'.moves && f'.moves[m].source.At? && f'.moves[m].source.name == x ::
              f'.moves[m].status.dropped
  {
    if step.Reconcile? { ReconcileShape(f', step.move, step.o, step.now, step.window, step.reach, step.r); }
    SameVersionThroughout(f, steps, f', x);
    assert !Holds(f', x) && !Retains(f', x);
  }

  // And that proviso is exact: on an empty cordoned member, a step places a tenant if and only if it
  // is such a cutover.  Nothing in the cutover asks whether its target has been cordoned since.
  lemma OnlyACutoverFillsIt(f: Fleet, x: string, step: Step)
    requires Inv(f) && Empty(f, x) && Enabled(f, step) && x in f.instances && f.instances[x].cordoned
    ensures Holds(Apply(f, step), x) <==> FlipsOnto(f, step, x)
  {
    if FlipsOnto(f, step, x) {
      var m := f.moves[step.move];
      var f' := Apply(f, step);
      assert f'.tenants[m.tenant].At? && f'.tenants[m.tenant].name == x;
    } else {
      QuietStepKeepsEmpty(f, x, step);
    }
  }

  // ------------------------------------------------------------------ a record nobody clears

  predicate EndedOnSource(s: Status) { s.phase == Failed || s.phase == Aborted || s.phase == RolledBack }

  // A migration that ended on its source never drops it, so as long as its record is kept the member
  // is never reclaimed, however empty it is.
  lemma {:induction false} EndedRecordPinsItsSource(f: Fleet, steps: seq<Step>, f': Fleet, move: string, seen: Instance)
    requires Inv(f) && Reaches(f, steps, f') && move in f.moves
    requires EndedOnSource(f.moves[move].status) && f.moves[move].source.At?
    requires forall i | 0 <= i < |steps| :: steps[i] != Clear(move)
    ensures move in f'.moves && f'.moves[move] == f.moves[move]
    ensures !Reclaimable(f', f.moves[move].source.name, seen)
    decreases |steps|
  {
    var m := f.moves[move];
    assert StatusOk(m.status, f.clock);
    if steps == [] {
      assert Retains(f, m.source.name);
    } else {
      StepKeeps(f, steps[0]);
      EndedStays(f, steps[0], move);
      EndedRecordPinsItsSource(Apply(f, steps[0]), steps[1..], f', move, seen);
    }
  }

  lemma EndedStays(f: Fleet, step: Step, move: string)
    requires Inv(f) && Enabled(f, step) && move in f.moves && step != Clear(move)
    requires EndedOnSource(f.moves[move].status) && f.moves[move].source.At?
    ensures move in Apply(f, step).moves && Apply(f, step).moves[move] == f.moves[move]
  {
    if step.Reconcile? {
      var m := f.moves[step.move];
      assert StatusOk(m.status, step.now);
      RecordKeeps(m.status, step.o, step.now, step.window, step.now);
      ReconcileShape(f, step.move, step.o, step.now, step.window, step.reach, step.r);
    }
  }
}
