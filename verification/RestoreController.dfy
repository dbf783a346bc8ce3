/** The tenant restore's pass as it runs: straight-line statements, early returns, and cleanups that
    run on the way out in the reverse of the order they were registered in.  Every pass is a run of the
    restore's steps, whichever calls fail. */
module RestoreController {
  import opened Restore

  // What each call of one pass answers.  `roles` and `part` are as in the steps.
  datatype Calls = Calls(
    observe: Outcome, prepare: Outcome, enumerate: Outcome, mark: Outcome, hold: Outcome, copy: Outcome,
    readmit: Outcome, revoke: Outcome, publish: Outcome, roles: set<Role>, heldPart: set<Role>, backPart: set<Role>)

  class Reconciler {
    // The API server and the live tenant, and this pass's in-memory status.
    var world: World
    const id: nat
    var rv: nat
    var phase: Phase
    var marker: bool
    ghost const start: World
    ghost var steps: seq<Step>

    // The pass is about to run this statement, with this result so far and these roles to put back.
    ghost predicate At(point: Point, failed: bool, held: set<Role>)
      reads this
    {
      && Reaches(start, steps, world)
      && |world.versions| > 0 && rv < |world.versions| && id in world.passes
      && var p := world.passes[id];
         p.rv == rv && p.phase == phase && p.marker == marker && p.at == point && p.failed == failed && p.held == held
    }

    // A pass begins by reading some stored version.
    constructor (w: World, id: nat, rv: nat)
      requires Enabled(w, Begin(id, rv))
      ensures At(Converge, false, {}) && start == w && steps == [Begin(id, rv)] && this.id == id
    {
      this.id, this.rv, start := id, rv, w;
      phase, marker := w.versions[rv].phase, w.versions[rv].marker;
      world := Restore.Apply(w, Begin(id, rv));
      steps := [Begin(id, rv)];
      new;
      assert steps[1..] == [];
    }

    // Runs one statement against the world.
    method Run(outcome: Outcome, roles: set<Role>, part: set<Role>)
      requires |world.versions| > 0 && Enabled(world, Act(id, outcome, roles, part)) && Reaches(start, steps, world)
      modifies this`world, this`steps
      ensures world == Advance(old(world), id, outcome, roles, part) && Reaches(start, steps, world)
      ensures steps == old(steps) + [Act(id, outcome, roles, part)]
    {
      ghost var before := world;
      world := Advance(world, id, outcome, roles, part);
      Append(start, steps, before, [Act(id, outcome, roles, part)], world);
      steps := steps + [Act(id, outcome, roles, part)];
    }

    // The copy and its own cleanup; the hold-out's result is kept whether or not it went through.
    method HoldAndCopy(c: Calls) returns (failed: bool, held: set<Role>)
      requires At(Hold, false, {})
      modifies this`world, this`steps, this`phase
      ensures At(Readmit, failed, held) && held == c.roles
      ensures failed <==> c.hold != Ok || c.copy != Ok
      ensures phase == old(phase) || phase == Loading
      ensures world.versions == old(world).versions
    {
      Run(c.hold, c.roles, c.heldPart);
      held := c.roles;
      if c.hold != Ok { return true, held; }
      phase := Loading;
      Run(c.copy, {}, {});
      failed := c.copy != Ok;
      // deferred: discard the dump
      Run(Ok, {}, {});
    }

    // From enumerating the roles to letting them back in.
    method ClearAndCopy(c: Calls) returns (failed: bool)
      requires At(Enumerate, false, {}) && !marker
      modifies this`world, this`steps, this`phase, this`marker, this`rv
      ensures exists held :: At(Revoke, failed, held)
      ensures marker <==> c.enumerate == Ok && old(rv) == Newest(old(world)) && c.mark == Ok
      ensures marker ==> rv == Newest(world)
      ensures phase == old(phase) || phase == Loading
      ensures !failed <==> marker && c.hold == Ok && c.copy == Ok && c.readmit == Ok
    {
      Run(c.enumerate, {}, {});
      if c.enumerate != Ok {
        assert At(Revoke, true, {});
        return true;
      }
      // Set, flushed, and taken back off if the flush fails.
      var accepted := rv == Newest(world) && c.mark == Ok;
      Run(c.mark, {}, {});
      if !accepted {
        assert At(Revoke, true, {});
        return true;
      }
      marker, rv := true, Newest(world);
      var held;
      failed, held := HoldAndCopy(c);
      // deferred: readmit
      Run(c.readmit, {}, c.backPart);
      failed := failed || c.readmit != Ok;
      assert At(Revoke, failed, held);
    }

    method ReplaceTenant(c: Calls) returns (failed: bool)
      requires At(Prepare, false, {}) && !marker
      modifies this`world, this`steps, this`phase, this`marker, this`rv
      ensures exists held :: At(Conclude, failed, held)
      ensures marker <==> c.prepare == Ok && c.enumerate == Ok && old(rv) == Newest(old(world)) && c.mark == Ok
      ensures marker ==> rv == Newest(world)
      ensures phase == old(phase) || phase == Loading
      ensures !failed <==> marker && c.hold == Ok && c.copy == Ok && c.readmit == Ok && c.revoke == Ok
    {
      Run(c.prepare, {}, {});
      if c.prepare != Ok {
        assert At(Conclude, true, {});
        return true;
      }
      failed := ClearAndCopy(c);
      ghost var held :| At(Revoke, failed, held);
      // deferred: revoke the reads
      Run(c.revoke, {}, {});
      failed := failed || c.revoke != Ok;
      assert At(Conclude, failed, held);
    }

    // Everything between the guards and the final write; `ended` is a pass that returns an error instead.
    method TenantRestore(c: Calls) returns (ended: bool)
      requires At(Observe, false, {}) && !marker && !Terminal(phase)
      modifies this`world, this`steps, this`phase, this`marker, this`rv
      ensures ended ==> exists held, failed :: At(Done, failed, held)
      ensures !ended ==> exists held, failed :: At(Publish, failed, held)
      ensures marker <==> && c.observe == Ok && c.prepare == Ok && c.enumerate == Ok
                          && old(rv) == Newest(old(world)) && c.mark == Ok
      ensures marker ==> !ended && Terminal(phase) && rv == Newest(world)
      ensures phase == Completed <==> marker && c.hold == Ok && c.copy == Ok && c.readmit == Ok && c.revoke == Ok
      ensures phase == Failed ==> marker
      ensures ended <==> c.observe == Fails || c.observe == Ambiguous
      ensures c.observe == NotReady ==> phase == Recovering
      ensures c.observe == Refused ==> phase == old(phase)
      ensures c.observe != Ok ==>
                world.versions == old(world).versions && world.live == old(world).live && rv == old(rv)
    {
      Run(c.observe, {}, {});
      if c.observe == NotReady {
        phase := Recovering;
        assert At(Publish, false, {});
        return false;
      }
      if c.observe == Refused {
        assert At(Publish, false, {});
        return false;
      }
      if c.observe != Ok {
        assert At(Done, false, {});
        return true;
      }
      phase := Extracting;
      var failed := ReplaceTenant(c);
      ghost var held :| At(Conclude, failed, held);
      Run(Ok, {}, {});
      if !failed { phase := Completed; } else if marker { phase := Failed; }
      assert At(Publish, failed, held);
      return false;
    }

    // A whole pass.  It ends, having been a run of steps.  It comes to Completed exactly when it read no
    // marker and no ending, its version was still the newest, and every one of its calls went through;
    // it comes to Failed exactly when it read a marker and no ending, or was cleared and a later call
    // failed.  The ending of a cleared pass is stored if its last write goes through.
    method Reconcile(c: Calls)
      requires At(Converge, false, {})
      modifies this
      ensures Reaches(start, steps, world) && id in world.passes && world.passes[id].at == Done
      ensures phase == Completed && old(phase) != Completed <==>
                && !old(marker) && !Terminal(old(phase)) && old(rv) == Newest(old(world))
                && c.observe == Ok && c.prepare == Ok && c.enumerate == Ok && c.mark == Ok
                && c.hold == Ok && c.copy == Ok && c.readmit == Ok && c.revoke == Ok
      ensures phase == Failed && old(phase) != Failed <==>
                && !Terminal(old(phase))
                && (old(marker)
                    || (&& old(rv) == Newest(old(world))
                        && c.observe == Ok && c.prepare == Ok && c.enumerate == Ok && c.mark == Ok
                        && !(c.hold == Ok && c.copy == Ok && c.readmit == Ok && c.revoke == Ok)))
      ensures !old(marker) && marker && c.publish == Ok ==>
                |world.versions| > 0 && world.versions[Newest(world)].phase == phase
      ensures !old(marker) && !Terminal(old(phase)) ==>
                && (c.observe == NotReady ==> phase == Recovering) && (c.observe == Refused ==> phase == old(phase))
                && (c.observe != Ok ==> world.live == old(world).live)
                && (c.observe == Fails || c.observe == Ambiguous ==> world.versions == old(world).versions)
      ensures old(marker) && !Terminal(old(phase)) ==> phase == Failed && world.live == old(world).live
      ensures Terminal(old(phase)) ==> phase == old(phase) && world.live == old(world).live
    {
      Run(Ok, {}, {});
      if Terminal(phase) { return; }
      if marker {
        phase := Failed;
        assert At(Publish, false, {});
      } else {
        assert At(Observe, false, {});
        var ended := TenantRestore(c);
        if ended { return; }
      }
      Run(c.publish, {}, {});
    }
  }
}
