/** Runs in which a tenant loses committed data, each of them breaking one rule of the discipline in
    LiveDataLaws. */
module LiveDataLimits {
  import opened Common
  import opened Migration
  import opened LiveData

  // An observation in which the phase's work is done and nothing is wrong.
  const GO: Observation := Observation(
    Offline, false, false, false, false, true, true, true, true, true, true, false, false, false, false, false)

  const FLIP: Observation := GO.(cutoverComplete := true)

  // Only the preflight gate answered; and a phase that went on failing past its retry budget.
  const GATE: Observation := Observation(
    Offline, false, false, false, false, true, false, false, false, false, false, false, false, false, false, false)

  const FAULT: Observation := GATE.(preflightPassed := false, fault := true, faultBudgetExceeded := true)

  // Every effect goes through; with and without a cutover among them.
  const FINE: Outcomes := Outcomes(true, Nothing, FenceAndRoute, true, true, true)

  const FLIPPING: Outcomes := FINE.(cutover := FenceAndRoute)

  function Status0(i: nat): Status
    requires i < 7
  { Status(PhaseOrder(Offline)[i], None, false, PhaseOrder(Offline)[..i + 1]) }

  // An offline move to `k` that has advanced `i` phases.
  function Mid(t: Tenant, k: Inst, i: nat): Tenant
    requires i < 6
  {
    t.(moves := t.moves[k := Move(t.home, Offline, Status0(i))],
       copies := if i < 2 then t.copies else t.copies[k := Copy(0, false)],
       held := i >= 4)
  }

  ghost predicate CanMove(t: Tenant, k: Inst) {
    t.home != k && k !in t.copies && !t.held && t.home in t.copies && !t.copies[t.home].fenced
  }

  // ------------------------------------------------------------------ a move that goes well

  // With its work done, each phase before the flip is left for the next.
  lemma ForwardDecides(source: Inst, i: nat, now: int, window: nat)
    requires i < 5
    ensures var m := Move(source, Offline, Status0(i));
            && DecisionOf(m, GO, now) ==
                 Decision(PhaseOrder(Offline)[i + 1], Progressing, Source, false, false, false, false, false)
            && Record(m.status, GO, now, window) == Status0(i + 1)
  {
    var order := PhaseOrder(Offline);
    assert order[..i + 2] == order[..i + 1] + [order[i + 1]];
  }

  // Provisioning builds an empty copy, quiescing closes the gate, and nothing else changes.
  lemma ForwardEffect(t: Tenant, k: Inst, i: nat, m: Move)
    requires CanMove(t, k) && i < 5 && m == Move(t.home, Offline, Status0(i))
    ensures Effect(Mid(t, k, i), k, m, GO, FINE) == Mid(t, k, i + 1).(moves := Mid(t, k, i).moves)
  {}

  // Serving from a source that is where the tenant stands, unfenced, changes nothing.
  lemma Homeward(e: Tenant, k: Inst, m: Move, d: Decision)
    requires d.serving == Source && !d.releaseQuiesce && !d.discardTarget && !d.dropSource && d.phase != RolledBack
    requires e.home == m.source && m.source in e.copies && !e.copies[m.source].fenced
    ensures Perform(e, k, m, d, FINE) == e
  {
    assert Fence(e.copies, m.source, false) == e.copies;
    assert e.copies - {} - {} == e.copies;
  }

  lemma Forward(t: Tenant, k: Inst, i: nat, window: nat)
    requires CanMove(t, k) && i < 5
    ensures var step := Reconcile(k, GO, t.clock, window, Published, FINE);
            Enabled(Mid(t, k, i), step) && Apply(Mid(t, k, i), step) == Mid(t, k, i + 1)
  {
    var m := Move(t.home, Offline, Status0(i));
    ForwardDecides(t.home, i, t.clock, window);
    var before := Mid(t, k, i);
    ForwardEffect(t, k, i, m);
    Homeward(Effect(before, k, m, GO, FINE).(clock := t.clock), k, m, DecisionOf(m, GO, t.clock));
    assert before.moves[k := m.(status := Status0(i + 1))] == Mid(t, k, i + 1).moves;
  }

  lemma Prepend(a: Tenant, step: Step, steps: seq<Step>, c: Tenant)
    requires Enabled(a, step) && Reaches(Apply(a, step), steps, c)
    ensures Reaches(a, [step] + steps, c)
  {
    assert ([step] + steps)[1..] == steps;
  }

  // Every phase but the flip can be taken, whatever follows it.
  lemma {:induction false} ForwardFrom(t: Tenant, k: Inst, i: nat, window: nat, rest: seq<Step>, c: Tenant)
    returns (steps: seq<Step>)
    requires CanMove(t, k) && i <= 5 && Reaches(Mid(t, k, 5), rest, c)
    ensures Reaches(Mid(t, k, i), steps, c)
    decreases 5 - i
  {
    if i == 5 {
      steps := rest;
    } else {
      steps := ForwardFrom(t, k, i + 1, window, rest, c);
      Forward(t, k, i, window);
      var step := Reconcile(k, GO, t.clock, window, Published, FINE);
      Prepend(Mid(t, k, i), step, steps, c);
      steps := [step] + steps;
    }
  }

  // The tenant standing on `k` after the flip, its old home fenced.
  function Flipped(t: Tenant, k: Inst, held: bool, status: Status): Tenant
    requires t.home in t.copies
  {
    t.(home := k, held := held,
       copies := t.copies[k := Copy(t.copies[t.home].rows, false)][t.home := t.copies[t.home].(fenced := true)],
       moves := t.moves[k := Move(t.home, Offline, status)])
  }

  function FlippedStatus(clock: int, window: nat): Status {
    Status(Completed, Some(clock + window), false, PhaseOrder(Offline))
  }

  function AfterFlip(t: Tenant, k: Inst, window: nat, reach: Reach): Tenant
    requires t.home in t.copies
  { Flipped(t, k, reach == Died, if reach == Published then FlippedStatus(t.clock, window) else Status0(5)) }

  lemma FlipDecides(source: Inst, now: int, window: nat)
    ensures var m := Move(source, Offline, Status0(5));
            && DecisionOf(m, FLIP, now) == Decision(Completed, CutoverComplete, Target, true, true, false, false, false)
            && Record(m.status, FLIP, now, window) == FlippedStatus(now, window)
            && DecisionOf(m, GO.(fault := true), now) ==
                 Decision(Cutover, Retrying, Source, false, false, false, false, false)
            && DecisionOf(m, GO.(abortRequested := true), now) ==
                 Decision(Aborted, AbortRequested, Source, true, true, false, true, false)
  {
    assert PhaseOrder(Offline)[..6] + [Completed] == PhaseOrder(Offline);
  }

  // Copied in full, one reconcile away from the flip.
  function Full(t: Tenant, k: Inst): Tenant
    requires t.home in t.copies
  { Mid(t, k, 5).(copies := t.copies[k := Copy(t.copies[t.home].rows, false)]) }

  lemma Fill(t: Tenant, k: Inst)
    requires CanMove(t, k)
    ensures Enabled(Mid(t, k, 5), Replicate(k)) && Apply(Mid(t, k, 5), Replicate(k)) == Full(t, k)
  {
    assert Mid(t, k, 5).copies[k := Copy(t.copies[t.home].rows, false)] == Full(t, k).copies;
  }

  lemma Hand(e: Tenant, k: Inst, m: Move, d: Decision)
    requires d == Decision(Completed, CutoverComplete, Target, true, true, false, false, false)
    ensures Perform(e, k, m, d, FLIPPING) == e.(held := false)
  { assert e.copies - {} - {} == e.copies; }

  lemma Flip(t: Tenant, k: Inst, window: nat, reach: Reach)
    requires CanMove(t, k)
    ensures var step := Reconcile(k, FLIP, t.clock, window, reach, FLIPPING);
            Enabled(Full(t, k), step) && Apply(Full(t, k), step) == AfterFlip(t, k, window, reach)
  {
    var m := Move(t.home, Offline, Status0(5));
    FlipDecides(t.home, t.clock, window);
    FlipEffect(t, k, m);
    Hand(Effect(Full(t, k), k, m, FLIP, FLIPPING).(clock := t.clock), k, m, DecisionOf(m, FLIP, t.clock));
  }

  lemma FlipEffect(t: Tenant, k: Inst, m: Move)
    requires CanMove(t, k) && m == Move(t.home, Offline, Status0(5))
    ensures Effect(Full(t, k), k, m, FLIP, FLIPPING) == Flipped(t, k, true, Status0(5))
    ensures Verified(Full(t, k), k, m)
  {}

  // Any tenant at rest can be moved to an instance that holds nothing of it.
  lemma MoveOver(t: Tenant, k: Inst, window: nat, reach: Reach, rest: seq<Step>, c: Tenant) returns (steps: seq<Step>)
    requires CanMove(t, k) && (k in t.moves ==> Terminal(t.moves[k].status.phase))
    requires Reaches(AfterFlip(t, k, window, reach), rest, c)
    ensures Reaches(t, steps, c)
  {
    var flip := Reconcile(k, FLIP, t.clock, window, reach, FLIPPING);
    Flip(t, k, window, reach);
    Fill(t, k);
    Prepend(Full(t, k), flip, rest, c);
    Prepend(Mid(t, k, 5), Replicate(k), [flip] + rest, c);
    steps := ForwardFrom(t, k, 0, window, [Replicate(k)] + ([flip] + rest), c);
    assert Status0(0) == Admitted by { assert PhaseOrder(Offline)[..1] == [Preflight]; }
    assert Apply(t, Start(k, Offline)) == Mid(t, k, 0);
    Prepend(t, Start(k, Offline), steps, c);
    steps := [Start(k, Offline)] + steps;
  }

  function Rest(home: Inst, gated: bool): Tenant {
    Tenant(home, map[home := Copy(0, false)], gated, false, map[], 0, 0)
  }

  // On the target, with one more write there than on the source behind it.
  function Written(a: Inst, b: Inst, gated: bool, held: bool): Tenant {
    Tenant(b, map[b := Copy(1, false), a := Copy(0, true)], gated, held, map[b := Move(a, Offline, Status0(5))], 1, 0)
  }

  lemma Writes(a: Inst, b: Inst, gated: bool, reach: Reach)
    requires a != b && reach != Published && (reach == Died ==> !gated)
    ensures var flipped := AfterFlip(Rest(a, gated), b, 1, reach);
            Enabled(flipped, Write) && Apply(flipped, Write) == Written(a, b, gated, reach == Died)
  {
    var flipped := AfterFlip(Rest(a, gated), b, 1, reach);
    assert flipped.copies == map[b := Copy(0, false), a := Copy(0, true)];
    assert flipped.copies[b := Copy(1, false)] == Written(a, b, gated, reach == Died).copies;
  }

  // ------------------------------------------------------------------ what the discipline rules out

  // A retry in the phase before the flip, or an abort, serves from the source again.
  lemma SendsBack(a: Inst, b: Inst, gated: bool, held: bool, o: Observation) returns (step: Step, t: Tenant)
    requires a != b && (o == GO.(fault := true) || o == GO.(abortRequested := true))
    ensures Enabled(Written(a, b, gated, held), step) && t == Apply(Written(a, b, gated, held), step)
    ensures t.home == a && a in t.copies && t.copies[a].rows == 0 && t.committed == 1
  {
    FlipDecides(a, 0, 1);
    step := Reconcile(b, o, 0, 1, Published, FINE);
    var w := Written(a, b, gated, held);
    var m := Move(a, Offline, Status0(5));
    assert w.moves[b] == m && Effect(w, b, m, o, FINE) == w;
    BackHome(a, b, gated, held, m, DecisionOf(m, o, 0));
    t := Apply(w, step);
  }

  lemma BackHome(a: Inst, b: Inst, gated: bool, held: bool, m: Move, d: Decision)
    requires a != b && m.source == a && d.serving == Source && d.phase != RolledBack && !d.dropSource
    ensures var p := Perform(Written(a, b, gated, held), b, m, d, FINE);
            p.home == a && a in p.copies && p.copies[a].rows == 0 && p.committed == 1
  {}

  lemma LosesAfter(a: Inst, b: Inst, gated: bool, reach: Reach, o: Observation) returns (steps: seq<Step>, t: Tenant)
    requires a != b && reach != Published && (reach == Died ==> !gated)
    requires o == GO.(fault := true) || o == GO.(abortRequested := true)
    ensures Reaches(Rest(a, gated), steps, t)
    ensures t.home == a && a in t.copies && t.copies[a].rows < t.committed
  {
    var back;
    back, t := SendsBack(a, b, gated, reach == Died, o);
    assert Reaches(Written(a, b, gated, reach == Died), [back], t) by { assert [back][1..] == []; }
    Writes(a, b, gated, reach);
    Prepend(AfterFlip(Rest(a, gated), b, 1, reach), Write, [back], t);
    steps := MoveOver(Rest(a, gated), b, 1, reach, [Write] + [back], t);
  }

  // A flip that is applied and not published is undone by the next reconcile that sees a fault; a
  // write committed in between is gone, although nobody asked for a rollback.
  lemma UnpublishedFlipLosesWrites(a: Inst, b: Inst) returns (steps: seq<Step>, t: Tenant)
    requires a != b
    ensures Reaches(Rest(a, true), steps, t)
    ensures t.home == a && a in t.copies && t.copies[a].rows < t.committed
  { steps, t := LosesAfter(a, b, true, Unpublished, GO.(fault := true)); }

  // In a pool with no gate the pass need only die after the flip: a client writes on the target, and
  // an abort, every effect of which goes through and is published, takes the write away.
  lemma GatelessAbortLosesWrites(a: Inst, b: Inst) returns (steps: seq<Step>, t: Tenant)
    requires a != b
    ensures Reaches(Rest(a, false), steps, t)
    ensures t.home == a && a in t.copies && t.copies[a].rows < t.committed
  { steps, t := LosesAfter(a, b, false, Died, GO.(abortRequested := true)); }

  // With a gate, the same once the hold the dead pass left behind has run out.
  lemma ExpiredHoldLosesWrites(a: Inst, b: Inst) returns (steps: seq<Step>, t: Tenant)
    requires a != b
    ensures Reaches(Rest(a, true), steps, t)
    ensures t.home == a && a in t.copies && t.copies[a].rows < t.committed
  {
    var back;
    back, t := SendsBack(a, b, true, false, GO.(abortRequested := true));
    assert Reaches(Written(a, b, true, false), [back], t) by { assert [back][1..] == []; }
    Writes(a, b, true, Unpublished);
    var open := AfterFlip(Rest(a, true), b, 1, Unpublished);
    Prepend(open, Write, [back], t);
    var flipped := AfterFlip(Rest(a, true), b, 1, Died);
    assert Enabled(flipped, Expire) && Apply(flipped, Expire) == open;
    Prepend(flipped, Expire, [Write] + [back], t);
    steps := MoveOver(Rest(a, true), b, 1, Died, [Expire] + ([Write] + [back]), t);
  }

  // A rollback whose restore fails at its first call goes on to discard the target the tenant is
  // still on, and is published.
  lemma FailedRestoreDropsLiveCopy(a: Inst, b: Inst) returns (steps: seq<Step>, t: Tenant)
    requires a != b
    ensures Reaches(Rest(a, true), steps, t)
    ensures t.home == b && b !in t.copies && b in t.moves && t.moves[b].status.phase == RolledBack
  {
    var flipped := AfterFlip(Rest(a, true), b, 1, Published);
    var m := Move(a, Offline, FlippedStatus(0, 1));
    var o := GO.(rollbackRequested := true);
    var undo := Reconcile(b, o, 0, 1, Published, FINE.(restore := Nothing));
    OutIs(a, b, flipped);
    assert DecisionOf(m, o, 0) == Decision(RolledBack, WasRolledBack, Source, true, true, false, true, false);
    t := Apply(flipped, undo);
    assert Reaches(flipped, [undo], t) by { assert [undo][1..] == []; }
    steps := MoveOver(Rest(a, true), b, 1, Published, [undo], t);
  }

  // A rollback that is applied and not published leaves the record Completed; once the window closes
  // the record drops the source the tenant is back on.
  lemma UnpublishedRollbackDropsLiveCopy(a: Inst, b: Inst) returns (steps: seq<Step>, t: Tenant)
    requires a != b
    ensures Reaches(Rest(a, true), steps, t)
    ensures t.home == a && a !in t.copies
  {
    var flipped := AfterFlip(Rest(a, true), b, 1, Published);
    var undo := Reconcile(b, GO.(rollbackRequested := true), 0, 1, Unpublished, FINE);
    var drop := Reconcile(b, GO, 1, 1, Published, FINE);
    var undone := UndoneUnpublished(a, b, undo);
    t := DropsHome(a, b, undone, drop);
    assert Reaches(undone, [drop], t) by { assert [drop][1..] == []; }
    Prepend(flipped, undo, [drop], t);
    steps := MoveOver(Rest(a, true), b, 1, Published, [undo] + [drop], t);
  }

  lemma UndoneUnpublished(a: Inst, b: Inst, undo: Step) returns (undone: Tenant)
    requires a != b && undo == Reconcile(b, GO.(rollbackRequested := true), 0, 1, Unpublished, FINE)
    ensures var flipped := AfterFlip(Rest(a, true), b, 1, Published);
            Enabled(flipped, undo) && undone == Apply(flipped, undo)
    ensures undone.home == a && undone.clock == 0 && b in undone.moves
            && undone.moves[b] == Move(a, Offline, FlippedStatus(0, 1))
    ensures b in undone.copies ==> !undone.copies[b].fenced
  {
    var flipped := AfterFlip(Rest(a, true), b, 1, Published);
    OutIs(a, b, flipped);
    var m := Move(a, Offline, FlippedStatus(0, 1));
    assert DecisionOf(m, undo.o, 0) == Decision(RolledBack, WasRolledBack, Source, true, true, false, true, false);
    undone := Apply(flipped, undo);
  }

  lemma DropsHome(a: Inst, b: Inst, undone: Tenant, drop: Step) returns (t: Tenant)
    requires a != b && drop == Reconcile(b, GO, 1, 1, Published, FINE)
    requires undone.home == a && undone.clock == 0 && b in undone.moves
             && undone.moves[b] == Move(a, Offline, FlippedStatus(0, 1))
    requires b in undone.copies ==> !undone.copies[b].fenced
    ensures Enabled(undone, drop) && t == Apply(undone, drop) && t.home == a && a !in t.copies
  {
    var m := undone.moves[b];
    assert DecisionOf(m, GO, 1) == Decision(Completed, SourceDropped, Target, false, false, true, false, false);
    t := Apply(undone, drop);
  }

  // ------------------------------------------------------------------ overlapping moves

  const PROVISIONING_FAILED := Status(Failed, None, false, [Preflight, Provisioning, Failed])

  // The first attempt to come back meets the fenced copy, fails, and discards it.
  function FailedBack(a: Inst, b: Inst): Tenant {
    var failed := Move(b, Offline, Status(Failed, None, false, [Preflight, Provisioning, Failed]));
    Tenant(b, map[b := Copy(0, false)], true, false,
           map[b := Move(a, Offline, FlippedStatus(0, 1)), a := failed], 0, 0)
  }

  lemma PassPreflight(out: Tenant, a: Inst, m: Move) returns (passed: Tenant)
    requires out.clock == 0 && m == Move(out.home, Offline, Admitted)
    requires out.home in out.copies && !out.copies[out.home].fenced && !out.held
    ensures var status := Status(Provisioning, None, false, [Preflight, Provisioning]);
            passed == out.(moves := out.moves[a := m.(status := status)])
    ensures var begun := out.(moves := out.moves[a := m]);
            var step := Reconcile(a, GATE, 0, 1, Published, FINE);
            Enabled(begun, step) && Apply(begun, step) == passed
  {
    var begun := out.(moves := out.moves[a := m]);
    var d := DecisionOf(m, GATE, 0);
    assert d == Decision(Provisioning, Progressing, Source, false, false, false, false, false);
    assert Effect(begun, a, m, GATE, FINE) == begun;
    Homeward(begun, a, m, d);
    assert Record(m.status, GATE, 0, 1) == Status(Provisioning, None, false, [Preflight, Provisioning]);
    passed := out.(moves := out.moves[a := m.(status := Status(Provisioning, None, false, [Preflight, Provisioning]))]);
    assert begun.moves[a := passed.moves[a]] == passed.moves;
  }

  lemma FailProvisioning(passed: Tenant, a: Inst, m: Move)
    requires passed.clock == 0 && a in passed.copies && a in passed.moves && passed.moves[a] == m && !passed.held
    requires m == Move(passed.home, Offline, Status(Provisioning, None, false, [Preflight, Provisioning]))
    requires passed.home in passed.copies && !passed.copies[passed.home].fenced && passed.home != a
    ensures var step := Reconcile(a, FAULT, 0, 1, Published, FINE);
            && Enabled(passed, step)
            && Apply(passed, step) == passed.(
                 copies := passed.copies - {a},
                 moves := passed.moves[a := m.(status := PROVISIONING_FAILED)])
  {
    var d := DecisionOf(m, FAULT, 0);
    assert d == Decision(Failed, Faulted, Source, true, false, false, true, false);
    assert Effect(passed, a, m, FAULT, FINE) == passed;
    assert Fence(passed.copies, passed.home, false) == passed.copies;
    assert Perform(passed, a, m, d, FINE).copies == passed.copies - {a};
    assert Record(m.status, FAULT, 0, 1) == Status(Failed, None, false, [Preflight, Provisioning, Failed]);
  }

  lemma OutIs(a: Inst, b: Inst, out: Tenant)
    requires a != b && out == AfterFlip(Rest(a, true), b, 1, Published)
    ensures out == Tenant(b, map[b := Copy(0, false), a := Copy(0, true)], true, false,
                          map[b := Move(a, Offline, FlippedStatus(0, 1))], 0, 0)
  {}

  lemma FailedIs(a: Inst, b: Inst, passed: Tenant, m: Move, t: Tenant)
    requires a != b && m == Move(b, Offline, Status(Provisioning, None, false, [Preflight, Provisioning]))
    requires passed == Tenant(b, map[b := Copy(0, false), a := Copy(0, true)], true, false,
                              map[b := Move(a, Offline, FlippedStatus(0, 1))][a := m], 0, 0)
    requires t == passed.(
               copies := passed.copies - {a},
               moves := passed.moves[a := m.(status := PROVISIONING_FAILED)])
    ensures t == FailedBack(a, b)
  {
    assert t.copies == map[b := Copy(0, false)];
  }

  lemma ComeBackFails(a: Inst, b: Inst, rest: seq<Step>, c: Tenant) returns (steps: seq<Step>)
    requires a != b && Reaches(FailedBack(a, b), rest, c)
    ensures Reaches(AfterFlip(Rest(a, true), b, 1, Published), steps, c)
  {
    var out := AfterFlip(Rest(a, true), b, 1, Published);
    OutIs(a, b, out);
    var m := Move(b, Offline, Admitted);
    var gate, fail := Reconcile(a, GATE, 0, 1, Published, FINE), Reconcile(a, FAULT, 0, 1, Published, FINE);
    var passed := PassPreflight(out, a, m);
    FailProvisioning(passed, a, passed.moves[a]);
    FailedIs(a, b, passed, passed.moves[a], Apply(passed, fail));
    Prepend(passed, fail, rest, c);
    Prepend(out.(moves := out.moves[a := m]), gate, [fail] + rest, c);
    Prepend(out, Start(a, Offline), [gate] + ([fail] + rest), c);
    steps := [Start(a, Offline)] + ([gate] + ([fail] + rest));
  }

  // Moving a tenant again while an earlier move is still inside its rollback window: the earlier
  // record closes its window by dropping the database the tenant has come back to.
  lemma OverlappingMovesDropLiveCopy(a: Inst, b: Inst) returns (steps: seq<Step>, t: Tenant)
    requires a != b
    ensures Reaches(Rest(a, true), steps, t)
    ensures t.home == a && a !in t.copies
  {
    var clear := FailedBack(a, b);
    var back := AfterFlip(clear, a, 9, Published);
    var drop;
    drop, t := DropOnClose(back, a, b);
    assert Reaches(back, [drop], t) by { assert [drop][1..] == []; }
    steps := MoveOver(clear, a, 9, Published, [drop], t);
    steps := ComeBackFails(a, b, steps, t);
    steps := MoveOver(Rest(a, true), b, 1, Published, steps, t);
  }

  lemma DropOnClose(back: Tenant, a: Inst, b: Inst) returns (drop: Step, t: Tenant)
    requires back.home == a != b && back.clock <= 1
    requires b in back.moves && back.moves[b] == Move(a, Offline, FlippedStatus(0, 1))
    requires b in back.copies
    ensures Enabled(back, drop) && Apply(back, drop) == t && t.home == a && a !in t.copies
  {
    drop := Reconcile(b, GATE, 1, 1, Published, FINE);
    var d := DecisionOf(back.moves[b], GATE, 1);
    assert d == Decision(Completed, SourceDropped, Target, false, false, true, false, false);
    t := Apply(back, drop);
  }
}
