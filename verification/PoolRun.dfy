/** Runs of autoscaling passes: observe and plan, evacuate, execute one action, publish.

    A pass may die between any two of these.  Migrations change under it.  Clocks only move forward,
    and one pass of a pool runs at a time. */
module PoolRun {
  import opened Common
  import opened Autoscale
  import opened Planner
  import opened History
  import opened Sorting

  // ------------------------------------------------------------------ migrations

  datatype MoveState = InFlight | Refused | Settled

  // What one emission did to the migration records.
  datatype Emission = Emission(moves: map<string, MoveState>, emitted: bool, created: bool)

  function MoveName(m: Move): string { m.tenant + "-to-" + m.to }

  // Names are tried in order: a free one is created and ends the emission, a settled record of the
  // same name is cleared for the next pass, and anything else is passed over.
  function Emit(moves: map<string, MoveState>, asked: seq<Move>): Emission {
    if asked == [] then Emission(moves, false, false)
    else
      var name := MoveName(asked[0]);
      if name !in moves then Emission(moves[name := InFlight], true, true)
      else if moves[name] == Settled then Emit(moves - {name}, asked[1..]).(emitted := true)
      else Emit(moves, asked[1..])
  }

  function Flying(moves: map<string, MoveState>): set<string> { set n | n in moves && moves[n] == InFlight }

  // It adds at most one migration in flight: the first asked for whose name was free.
  ghost predicate AddsFirstFree(moves: map<string, MoveState>, asked: seq<Move>, e: Emission) {
    if e.created then
      exists k | 0 <= k < |asked| ::
        && Flying(e.moves) == Flying(moves) + {MoveName(asked[k])} && MoveName(asked[k]) !in Flying(moves)
        && forall j | 0 <= j < k :: MoveName(asked[j]) in moves
    else
      Flying(e.moves) == Flying(moves) && e.moves.Keys <= moves.Keys
      && forall j | 0 <= j < |asked| :: MoveName(asked[j]) in moves
  }

  // It removes only settled records of moves it was asked for, and says it emitted exactly when it made
  // one or removed one.
  ghost predicate ClearsSettled(moves: map<string, MoveState>, asked: seq<Move>, e: Emission) {
    && (e.emitted <==> e.created || e.moves != moves)
    && (forall n | n in moves && moves[n] != Settled :: n in e.moves && e.moves[n] == moves[n])
    && (forall n | n in moves && n !in e.moves :: exists k | 0 <= k < |asked| :: MoveName(asked[k]) == n)
  }

  lemma {:induction false} EmitAddsAtMostOne(moves: map<string, MoveState>, asked: seq<Move>)
    ensures AddsFirstFree(moves, asked, Emit(moves, asked)) && ClearsSettled(moves, asked, Emit(moves, asked))
    decreases |asked|
  {
    if asked != [] {
      var name, rest := MoveName(asked[0]), asked[1..];
      if name !in moves {
        assert Flying(Emit(moves, asked).moves) == Flying(moves) + {MoveName(asked[0])};
      } else {
        var left := if moves[name] == Settled then moves - {name} else moves;
        EmitAddsAtMostOne(left, rest);
        AddsPast(moves, asked, left, Emit(left, rest));
        ClearsPast(moves, asked, left, Emit(left, rest));
      }
    }
  }

  // What the rest of an emission does, seen from before its first name was passed over or cleared.
  lemma AddsPast(moves: map<string, MoveState>, asked: seq<Move>, left: map<string, MoveState>, e: Emission)
    requires asked != [] && MoveName(asked[0]) in moves && AddsFirstFree(left, asked[1..], e)
    requires left == moves || (moves[MoveName(asked[0])] == Settled && left == moves - {MoveName(asked[0])})
    ensures AddsFirstFree(moves, asked, e) && AddsFirstFree(moves, asked, e.(emitted := true))
  {
    assert Flying(left) == Flying(moves);
    var rest := asked[1..];
    if e.created {
      var k :| 0 <= k < |rest| && Flying(e.moves) == Flying(left) + {MoveName(rest[k])}
          && MoveName(rest[k]) !in Flying(left)
               && forall j | 0 <= j < k :: MoveName(rest[j]) in left;
      assert asked[k + 1] == rest[k];
      NamedBefore(moves, asked, left, k);
    } else {
      NamedBefore(moves, asked, left, |rest|);
    }
  }

  lemma NamedBefore(moves: map<string, MoveState>, asked: seq<Move>, left: map<string, MoveState>, k: nat)
    requires asked != [] && MoveName(asked[0]) in moves && left.Keys <= moves.Keys && k <= |asked[1..]|
    requires forall j | 0 <= j < k :: MoveName(asked[1..][j]) in left
    ensures forall j | 0 <= j < k + 1 :: MoveName(asked[j]) in moves
  {
    forall j | 0 <= j < k + 1 ensures MoveName(asked[j]) in moves { if j > 0 { assert asked[j] == asked[1..][j - 1]; } }
  }

  lemma ClearsPast(moves: map<string, MoveState>, asked: seq<Move>, left: map<string, MoveState>, e: Emission)
    requires asked != [] && MoveName(asked[0]) in moves && ClearsSettled(left, asked[1..], e)
    requires left == moves || (moves[MoveName(asked[0])] == Settled && left == moves - {MoveName(asked[0])})
    requires e.created || e.moves.Keys <= left.Keys
    ensures ClearsSettled(moves, asked, if left == moves then e else e.(emitted := true))
  {
    forall n | n in moves && n !in e.moves ensures exists k | 0 <= k < |asked| :: MoveName(asked[k]) == n {
      if n != MoveName(asked[0]) {
        var k :| 0 <= k < |asked[1..]| && MoveName(asked[1..][k]) == n;
        assert asked[k + 1] == asked[1..][k];
      }
    }
  }

  // By the time this move's turn comes nothing has its name: nothing had, or what had was settled and an
  // earlier move of the same name cleared it.
  ghost predicate FreeAt(moves: map<string, MoveState>, asked: seq<Move>, k: nat)
    requires k < |asked|
  {
    var name := MoveName(asked[k]);
    name !in moves || (moves[name] == Settled && exists j | 0 <= j < k :: MoveName(asked[j]) == name)
  }

  ghost predicate Names(asked: seq<Move>, n: string) { exists j | 0 <= j < |asked| :: MoveName(asked[j]) == n }

  // What is left once the settled records these moves name are cleared.
  ghost predicate LeftOf(moves: map<string, MoveState>, asked: seq<Move>, left: map<string, MoveState>) {
    && (forall n :: n in left <==>
          n in moves && !(moves[n] == Settled && Names(asked, n)))
    && (forall n | n in left :: left[n] == moves[n])
  }

  // All an emission does: the settled records of the moves before the first free one are cleared, that
  // one is created in flight, and every other record is as it was.
  ghost predicate EmissionAt(moves: map<string, MoveState>, asked: seq<Move>, k: nat, left: map<string, MoveState>,
                             e: Emission)
  {
    && k <= |asked| && LeftOf(moves, asked[..k], left)
    && (forall j | 0 <= j < k :: !FreeAt(moves, asked, j))
    && (k < |asked| ==> FreeAt(moves, asked, k))
    && e.created == (k < |asked|)
    && e.moves == (if k < |asked| then left[MoveName(asked[k]) := InFlight] else left)
    && (e.emitted <==> e.created || left != moves)
  }

  lemma {:induction false} EmitExactly(moves: map<string, MoveState>, asked: seq<Move>)
    returns (k: nat, left: map<string, MoveState>)
    ensures EmissionAt(moves, asked, k, left, Emit(moves, asked))
    decreases |asked|
  {
    if asked == [] || MoveName(asked[0]) !in moves {
      k, left := 0, moves;
    } else {
      var name, rest := MoveName(asked[0]), asked[1..];
      var now := if moves[name] == Settled then moves - {name} else moves;
      k, left := EmitExactly(now, rest);
      forall j | 0 <= j < |rest| ensures FreeAt(now, rest, j) <==> FreeAt(moves, asked, j + 1) {
        FreeLater(moves, asked, now, j);
      }
      LeftLater(moves, asked, now, k, left);
      forall j | 0 <= j < k + 1 ensures !FreeAt(moves, asked, j) {
        if j > 0 { assert !FreeAt(now, rest, j - 1); }
      }
      k := k + 1;
    }
  }

  lemma FreeLater(moves: map<string, MoveState>, asked: seq<Move>, now: map<string, MoveState>, j: nat)
    requires asked != [] && MoveName(asked[0]) in moves && j < |asked[1..]|
    requires now == if moves[MoveName(asked[0])] == Settled then moves - {MoveName(asked[0])} else moves
    ensures FreeAt(now, asked[1..], j) <==> FreeAt(moves, asked, j + 1)
  {
    var rest := asked[1..];
    assert forall i | 0 <= i < |rest| :: rest[i] == asked[i + 1];
    assert forall i | 0 < i < |asked| :: asked[i] == rest[i - 1];
    var name := MoveName(rest[j]);
    if name in moves && moves[name] == Settled && name != MoveName(asked[0]) && FreeAt(moves, asked, j + 1) {
      var i :| 0 <= i < j + 1 && MoveName(asked[i]) == name;
      assert MoveName(rest[i - 1]) == name;
    }
  }

  lemma LeftLater(moves: map<string, MoveState>, asked: seq<Move>, now: map<string, MoveState>, k: nat,
                  left: map<string, MoveState>)
    requires asked != [] && MoveName(asked[0]) in moves && k <= |asked[1..]|
    requires now == if moves[MoveName(asked[0])] == Settled then moves - {MoveName(asked[0])} else moves
    requires LeftOf(now, asked[1..][..k], left)
    ensures LeftOf(moves, asked[..k + 1], left)
  {
    forall n
      ensures Names(asked[..k + 1], n) <==> n == MoveName(asked[0]) || Names(asked[1..][..k], n)
    {
      NamesFirst(asked[..k + 1], asked[1..][..k], n);
    }
  }

  lemma NamesFirst(all: seq<Move>, rest: seq<Move>, n: string)
    requires all != [] && all[1..] == rest
    ensures Names(all, n) <==> n == MoveName(all[0]) || Names(rest, n)
  {
    if j :| 0 <= j < |rest| && MoveName(rest[j]) == n { assert MoveName(all[j + 1]) == n; }
    if j :| 0 <= j < |all| && MoveName(all[j]) == n { assert j > 0 ==> MoveName(rest[j - 1]) == n; }
  }

  lemma EmitCount(moves: map<string, MoveState>, asked: seq<Move>)
    ensures |Flying(Emit(moves, asked).moves)| == |Flying(moves)| + (if Emit(moves, asked).created then 1 else 0)
  { EmitAddsAtMostOne(moves, asked); }

  // ------------------------------------------------------------------ the world

  // What a pass looked at; `cordoned` and `marked` are the members that were, as it saw them.
  datatype View = View(
    signals: Signals, policy: Policy, packing: Packing, plan: Plan,
    draining: set<string>, cordoned: set<string>, marked: set<string>)

  datatype Published = Published(at: int, plan: Plan, ran: Option<Executed>)

  // One applied action: what it was decided on, when it ran, how many members were declared before and
  // after it, which members were marked after it, how many plans had been published by then, and whether
  // its own pass went on to publish.
  datatype Run = Run(
    view: View, class_: Class, at: int, declared: int, after: int, marked: set<string>, before: nat, published: bool)

  // Where the pass in hand is; `made` counts the migrations it has created.
  datatype Pass =
    | Idle
    | Planned(view: View)
    | Evacuated(view: View, emitted: bool, made: nat)
    | Acted(view: View, executed: Option<Executed>, made: nat)

  // `reopened` counts the refused migrations that came back, and `reopenedAtLook` those that had when
  // the pass in hand looked.
  datatype World = World(
    declared: int, status: Option<PlanStatus>, moves: map<string, MoveState>,
    cordoned: set<string>, marked: set<string>,
    pass: Pass, clock: int, log: seq<Published>, runs: seq<Run>, reopened: nat, reopenedAtLook: nat)

  datatype Step =
    | Quiet(now: int)
    | Observe(view: View)
    | Evacuate(asked: seq<Move>, cut: nat)
    | Execute(at: int, selected: Option<Action>, asked: seq<Move>, grew: bool, cut: nat)
    | Publish(at: int, status: PlanStatus)
    | Die
    | Settle(name: string)
    | Refuse(name: string)
    | Reopen(name: string)
    | Remove(name: string)
    | Cordon(name: string)
    | Uncordon(name: string)
    | Gone(name: string)

  // The history a pass reads off the last published plan.
  ghost predicate Reads(s: Signals, status: Option<PlanStatus>) {
    && s.lastScaleUp == LastRun(status, ScaleOut) && s.lastScaleDown == LastRun(status, ScaleIn)
    && forall n :: (if n in s.consolidatableSince then Some(s.consolidatableSince[n]) else None) == Clock(status, n)
  }

  // The moves a drain asks for.
  ghost predicate Drains(v: View, asked: seq<Move>) {
    var g := GuardOf(v.signals, v.policy, v.plan.consolidationTarget);
    if v.draining == {} || v.plan.evacuation != Allowed then asked == []
    else forall m :: m in asked <==>
              m.from in v.draining && exists planned :: planned in v.plan.moves && Evacuates(g, planned, m)
  }

  // The moves the selected action asks for, the most worthwhile first.
  ghost predicate Asks(v: View, c: Class, asked: seq<Move>) {
    && Sorted(asked, WorthMore)
    && match c
       case Rebalance => forall m :: m in asked <==> m in v.plan.moves && m.blocker.None?
       case ScaleIn => forall m :: m in asked <==>
                 m in v.plan.moves && m.blocker.None? && Some(m.from) == v.plan.consolidationTarget
       case _ => asked == []
  }

  ghost predicate Enabled(w: World, step: Step) {
    match step
    case Quiet(now) => w.pass.Idle? && w.clock <= now
    case Observe(v) =>
      && w.pass.Idle? && w.clock <= v.signals.now
      && v.signals.declared == w.declared && Reads(v.signals, w.status) && Assembled(v.signals)
      && v.cordoned == w.cordoned && v.marked == w.marked
      && IsPlan(v.signals, v.policy, v.packing, v.plan)
    case Evacuate(asked, _) => w.pass.Planned? && Drains(w.pass.view, asked)
    case Execute(at, selected, asked, _, _) =>
      && w.pass.Evacuated? && w.clock <= at && IsSelected(w.pass.view.plan, selected)
      && (selected.Some? ==> Asks(w.pass.view, selected.value.class_, asked))
    case Publish(at, status) =>
      w.pass.Acted? && w.clock <= at && StatusOf(w.status, w.pass.view.plan, w.pass.executed, at, status)
    case Die => !w.pass.Idle?
    case Settle(name) => name in w.moves && w.moves[name] != Settled
    case Refuse(name) => name in w.moves && w.moves[name] == InFlight
    case Reopen(name) => name in w.moves && w.moves[name] == Refused
    case Remove(name) => name in w.moves
    case Cordon(_) => true
    case Uncordon(_) => true
    case Gone(_) => w.pass.Idle?
  }

  // ------------------------------------------------------------------ the steps

  // An emission cut short by a failing call, unless it had already made its one migration.
  function EmitUpTo(moves: map<string, MoveState>, asked: seq<Move>, cut: nat): Emission {
    Emit(moves, if cut < |asked| then asked[..cut] else asked)
  }

  predicate Broke(e: Emission, asked: seq<Move>, cut: nat) { cut < |asked| && !e.created }

  function Finish(w: World, v: View, made: nat, c: Class, at: int, applied: bool, declared: int): World {
    var ran := w.(pass := Acted(v, Some(Executed(c, at, applied, false)), made), declared := declared);
    if applied then ran.(runs := w.runs + [Run(v, c, at, w.declared, declared, w.marked, |w.log|, false)]) else ran
  }

  // The empty victim is cordoned and marked, unless it was cordoned when the pass looked; the count
  // follows, unless it is low enough already.  Either patch may fail, which ends the pass.
  function Retire(w: World, v: View, made: nat, at: int, victim: string, cut: nat): World {
    var left :=
      if victim in v.cordoned then w else w.(cordoned := w.cordoned + {victim}, marked := w.marked + {victim});
    if victim !in v.cordoned && cut == 0 then w.(pass := Idle)
    else if w.declared <= v.plan.recommended then Finish(left, v, made, ScaleIn, at, false, w.declared)
    else if cut == 1 then left.(pass := Idle)
    else Finish(left, v, made, ScaleIn, at, true, w.declared - 1)
  }

  function Emitting(w: World, v: View, made: nat, c: Class, at: int, asked: seq<Move>, cut: nat): World {
    var e := EmitUpTo(w.moves, asked, cut);
    if Broke(e, asked, cut) then w.(moves := e.moves, pass := Idle)
    else Finish(w.(moves := e.moves), v, made + (if e.created then 1 else 0), c, at, e.emitted, w.declared)
  }

  function Perform(w: World, v: View, made: nat, c: Class, at: int, asked: seq<Move>, grew: bool, cut: nat): World {
    match c
    case StorageExpand => Finish(w, v, made, c, at, grew, w.declared)
    case ScaleOut =>
      if v.plan.recommended <= v.plan.serving then Finish(w, v, made, c, at, false, w.declared)
      else Finish(w, v, made, c, at, true, w.declared + 1)
    case Rebalance => Emitting(w, v, made, c, at, asked, cut)
    case ScaleIn =>
      if v.plan.consolidationTarget.None? then Finish(w, v, made, c, at, false, w.declared)
      else if asked != [] then Emitting(w, v, made, c, at, asked, cut)
      else Retire(w, v, made, at, v.plan.consolidationTarget.value, cut)
    case _ => w.(pass := Acted(v, Some(Executed(c, at, false, true)), made))
  }

  function Act(w: World, v: View, emitted: bool, made: nat, step: Step): World
    requires step.Execute?
  {
    match step.selected
    case None => w.(pass := Acted(v, None, made))
    case Some(a) =>
      if emitted && (a.class_ == Rebalance || a.class_ == ScaleIn)
      then w.(pass := Acted(v, Some(Executed(a.class_, step.at, false, true)), made))
      else Perform(w, v, made, a.class_, step.at, step.asked, step.grew, step.cut)
  }

  function Applied(executed: Option<Executed>): bool { executed.Some? && executed.value.applied }

  function MarkLast(runs: seq<Run>): seq<Run>
    requires runs != []
  { runs[|runs| - 1 := runs[|runs| - 1].(published := true)] }

  function Apply(w: World, step: Step): World {
    match step
    case Quiet(now) => w.(clock := now)
    case Observe(v) => w.(clock := v.signals.now, pass := Planned(v), reopenedAtLook := w.reopened)
    case Evacuate(asked, cut) =>
      if !w.pass.Planned? then w
      else
        var e := EmitUpTo(w.moves, asked, cut);
        if Broke(e, asked, cut) then w.(moves := e.moves, pass := Idle)
        else w.(moves := e.moves, pass := Evacuated(w.pass.view, e.emitted, if e.created then 1 else 0))
    case Execute(at, _, _, _, _) =>
      if !w.pass.Evacuated? then w
      else Act(w.(clock := at), w.pass.view, w.pass.emitted, w.pass.made, step)
    case Publish(at, status) =>
      if !w.pass.Acted? then w
      else w.(clock := at, status := Some(status), pass := Idle,
              log := w.log + [Published(at, w.pass.view.plan, w.pass.executed)],
              runs := if Applied(w.pass.executed) && w.runs != [] then MarkLast(w.runs) else w.runs)
    case Die => w.(pass := Idle)
    case Settle(name) => w.(moves := w.moves[name := Settled])
    case Refuse(name) => w.(moves := w.moves[name := Refused])
    case Reopen(name) => w.(moves := w.moves[name := InFlight], reopened := w.reopened + 1)
    case Remove(name) => w.(moves := w.moves - {name})
    case Cordon(name) => w.(cordoned := w.cordoned + {name})
    case Uncordon(name) => w.(cordoned := w.cordoned - {name})
    case Gone(name) => w.(cordoned := w.cordoned - {name}, marked := w.marked - {name})
  }

  ghost predicate Reaches(w: World, steps: seq<Step>, w': World)
    decreases |steps|
  {
    if steps == [] then w' == w
    else Enabled(w, steps[0]) && Reaches(Apply(w, steps[0]), steps[1..], w')
  }

  // ------------------------------------------------------------------ what a plan in hand promises

  ghost predicate MayGrow(v: View) {
    && v.signals.declared <= |v.signals.instances| < v.policy.maxInstances
    && (forall i | 0 <= i < |v.signals.instances| :: v.signals.instances[i].ready)
    && (v.signals.lastScaleUp.Some? ==> v.signals.now - v.signals.lastScaleUp.value >= v.policy.scaleUpWindow)
  }

  ghost predicate MayShrink(v: View) {
    && v.plan.consolidationTarget.Some? && v.plan.consolidationTarget.value in v.signals.consolidatableSince
    && v.signals.now - v.signals.consolidatableSince[v.plan.consolidationTarget.value] >= v.policy.dwell
  }

  ghost predicate Offers(plan: Plan, c: Class) {
    exists a :: a in plan.actions && a.class_ == c && a.verdict == Allowed
  }

  ghost predicate PlanFacts(v: View) {
    && TargetsAgree(v.plan)
    && v.plan.recommended >= v.policy.minInstances
    && (Offers(v.plan, ScaleOut) ==> MayGrow(v))
    && (Offers(v.plan, ScaleIn) ==> MayShrink(v))
    && (Offers(v.plan, Rebalance) || Offers(v.plan, ScaleIn) || v.plan.evacuation == Allowed ==>
          v.signals.inFlight < v.policy.budget.maxConcurrent)
  }

  lemma PlanKeepsPromises(v: View)
    requires IsPlan(v.signals, v.policy, v.packing, v.plan)
    ensures PlanFacts(v)
  {
    var g := GuardOf(v.signals, v.policy, v.plan.consolidationTarget);
    if Offers(v.plan, ScaleOut) { OfferedIsAllowed(g, v.plan, ScaleOut); ScaleOutMeans(g); }
    if Offers(v.plan, ScaleIn) { OfferedIsAllowed(g, v.plan, ScaleIn); ScaleInMeans(g); PermissionMeans(g, ScaleIn); }
    if Offers(v.plan, Rebalance) { OfferedIsAllowed(g, v.plan, Rebalance); PermissionMeans(g, Rebalance); }
    EvacuationMeans(g);
    TargetsOfAgree(v.signals, v.policy, v.packing, v.plan.targets);
  }

  lemma OfferedIsAllowed(g: Guard, plan: Plan, c: Class)
    requires ActionsOf(g, plan) && Offers(plan, c)
    ensures g.Evaluate(c) == Allowed
  {}

  lemma EvacuationMeans(g: Guard)
    ensures g.Evacuation() == Allowed ==> g.signals.inFlight < g.policy.budget.maxConcurrent
  {}

  lemma TargetsOfAgree(s: Signals, p: Policy, k: Packing, targets: seq<InstanceTarget>)
    requires TargetsOf(s, p, k, targets)
    ensures forall t, u | t in targets && u in targets && t.name == u.name :: t.consolidatable == u.consolidatable
  {}
}
