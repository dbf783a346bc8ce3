/** What every run of autoscaling passes keeps. */
module PoolLaws {
  import opened Common
  import opened Autoscale
  import opened Planner
  import opened History
  import opened PoolRun

  // ------------------------------------------------------------------ the history as a fold

  // When a class last ran in a pass that published.
  function LastApplied(log: seq<Published>, c: Class): Option<int> {
    if log == [] then None
    else if Ran(log[|log| - 1].ran, c) then Some(log[|log| - 1].ran.value.at)
    else LastApplied(log[..|log| - 1], c)
  }

  // Since when every published plan has found this instance empty.
  ghost function Onset(log: seq<Published>, name: string): Option<int> {
    if log == [] then None
    else
      var last := log[|log| - 1];
      if !Empties(last.plan, name) then None
      else match Onset(log[..|log| - 1], name) { case Some(t) => Some(t) case None => Some(last.at) }
  }

  ghost predicate Reflects(status: Option<PlanStatus>, log: seq<Published>) {
    && (status.Some? ==> WellFormed(status.value))
    && (forall c :: LastRun(status, c) == LastApplied(log, c))
    && (forall n :: Clock(status, n) == Onset(log, n))
  }

  // A pass knew the history the log held when it began.
  ghost predicate Recalls(s: Signals, log: seq<Published>) {
    && s.lastScaleUp == LastApplied(log, ScaleOut) && s.lastScaleDown == LastApplied(log, ScaleIn)
    && forall n :: n in s.consolidatableSince ==> Onset(log, n) == Some(s.consolidatableSince[n])
  }

  ghost predicate InHand(w: World) {
    !w.pass.Idle? ==>
      PlanFacts(w.pass.view) && Recalls(w.pass.view.signals, w.log) && w.pass.view.signals.now <= w.clock
  }

  // What an applied action was decided on.
  ghost predicate RunOk(r: Run, log: seq<Published>, clock: int) {
    && r.before <= |log| && PlanFacts(r.view) && Offers(r.view.plan, r.class_)
    && Recalls(r.view.signals, log[..r.before]) && r.view.signals.now <= r.at <= clock
    && (r.published ==> r.before < |log| && log[r.before].ran == Some(Executed(r.class_, r.at, true, false)))
  }

  ghost predicate RunsOk(w: World) { forall i | 0 <= i < |w.runs| :: RunOk(w.runs[i], w.log, w.clock) }

  ghost predicate RunsOrdered(runs: seq<Run>) {
    forall i, j | 0 <= i < j < |runs| ::
      && runs[i].at <= runs[j].at && runs[i].before <= runs[j].before
      && (runs[i].published ==> runs[i].before < runs[j].before)
  }

  // Published runs carry times that never go back.
  ghost predicate LogOrdered(log: seq<Published>, clock: int) {
    && (forall i | 0 <= i < |log| && Applied(log[i].ran) :: log[i].ran.value.at <= clock)
    && forall i, j | 0 <= i < j < |log| && Applied(log[i].ran) && Applied(log[j].ran) ::
         log[i].ran.value.at <= log[j].ran.value.at
  }

  // A run of this pass, not yet published.
  ghost predicate IsRunOf(r: Run, v: View, c: Class, at: int, before: nat) {
    r == Run(v, c, at, r.declared, r.after, r.marked, before, false)
  }

  // A pass that applied its action left it as the last run, not yet published.
  ghost predicate LastIsMine(w: World) {
    w.pass.Acted? && Applied(w.pass.executed) ==>
      && w.runs != []
      && IsRunOf(w.runs[|w.runs| - 1], w.pass.view, w.pass.executed.value.class_, w.pass.executed.value.at, |w.log|)
      && Offers(w.pass.view.plan, w.pass.executed.value.class_)
      && !w.pass.executed.value.failed
      && LogOrdered(w.log, w.pass.executed.value.at)
  }

  ghost predicate PassInv(w: World) { InHand(w) && LastIsMine(w) }

  ghost predicate HistoryInv(w: World) {
    && Reflects(w.status, w.log) && PassInv(w)
    && RunsOk(w) && RunsOrdered(w.runs) && LogOrdered(w.log, w.clock)
    && (forall i | 0 <= i < |w.runs| && w.runs[i].before == |w.log| :: !w.runs[i].published)
  }

  // ------------------------------------------------------------------ each step keeps it

  lemma ObserveKeeps(w: World, v: View)
    requires HistoryInv(w) && Enabled(w, Observe(v))
    ensures HistoryInv(Apply(w, Observe(v)))
  {
    PlanKeepsPromises(v);
    assert Recalls(v.signals, w.log) by {
      forall n | n in v.signals.consolidatableSince ensures Onset(w.log, n) == Some(v.signals.consolidatableSince[n]) {
        assert Clock(w.status, n) == Onset(w.log, n);
      }
    }
  }

  lemma SelectedOffers(plan: Plan, a: Action)
    requires IsSelected(plan, Some(a))
    ensures Offers(plan, a.class_)
  {}

  // All an execution can do to what the history invariant reads.
  ghost predicate ActShape(w: World, v: View, at: int, w': World) {
    && w'.status == w.status && w'.log == w.log && w'.clock == w.clock
    && (w'.pass.Idle? || (w'.pass.Acted? && w'.pass.view == v))
    && (w'.runs == w.runs || |w'.runs| > |w.runs|)
    && (w'.runs == w.runs ==> !(w'.pass.Acted? && Applied(w'.pass.executed)))
    && (w'.runs != w.runs ==>
          && w'.pass.Acted? && w'.pass.executed.Some?
          && Offers(v.plan, w'.pass.executed.value.class_)
          && w'.pass.executed.value == Executed(w'.pass.executed.value.class_, at, true, false)
          && |w'.runs| == |w.runs| + 1 && w'.runs[..|w.runs|] == w.runs
          && IsRunOf(w'.runs[|w.runs|], v, w'.pass.executed.value.class_, at, |w.log|))
  }

  lemma ActHasShape(w: World, v: View, emitted: bool, made: nat, step: Step)
    requires step.Execute? && IsSelected(v.plan, step.selected)
    ensures ActShape(w, v, step.at, Act(w, v, emitted, made, step))
  {
    if step.selected.Some? { SelectedOffers(v.plan, step.selected.value); }
  }

  lemma RecallsNow(s: Signals, log: seq<Published>)
    requires Recalls(s, log)
    ensures Recalls(s, log[..|log|])
  { assert log[..|log|] == log; }

  lemma ShapeKeeps(w: World, v: View, at: int, w': World)
    requires HistoryInv(w) && w.clock == at && ActShape(w, v, at, w')
    requires PlanFacts(v) && Recalls(v.signals, w.log) && v.signals.now <= at
    ensures HistoryInv(w')
  {
    RecallsNow(v.signals, w.log);
    if |w'.runs| > |w.runs| {
      var r := w'.runs[|w.runs|];
      assert w'.runs == w.runs + [r];
      LongerRuns(w.runs, r, w.log, w.clock);
    }
  }

  // A run at the present moment joins the others at the end.
  lemma LongerRuns(runs: seq<Run>, r: Run, log: seq<Published>, clock: int)
    requires forall i | 0 <= i < |runs| :: RunOk(runs[i], log, clock)
    requires forall i | 0 <= i < |runs| && runs[i].before == |log| :: !runs[i].published
    requires RunsOrdered(runs) && RunOk(r, log, clock) && r.at == clock && r.before == |log| && !r.published
    ensures forall i | 0 <= i < |runs + [r]| :: RunOk((runs + [r])[i], log, clock)
    ensures forall i | 0 <= i < |runs + [r]| && (runs + [r])[i].before == |log| :: !(runs + [r])[i].published
    ensures RunsOrdered(runs + [r])
  {
    forall i | 0 <= i < |runs| ensures runs[i].at <= clock && runs[i].before <= |log| {
      assert RunOk(runs[i], log, clock);
    }
  }

  lemma ClockMoves(w: World, at: int)
    requires HistoryInv(w) && w.clock <= at
    ensures HistoryInv(w.(clock := at))
  {
    forall i | 0 <= i < |w.runs| ensures RunOk(w.runs[i], w.log, at) { assert RunOk(w.runs[i], w.log, w.clock); }
  }

  lemma ExecuteKeeps(w: World, step: Step)
    requires HistoryInv(w) && step.Execute? && Enabled(w, step)
    ensures HistoryInv(Apply(w, step))
  {
    ClockMoves(w, step.at);
    ActHasShape(w.(clock := step.at), w.pass.view, w.pass.emitted, w.pass.made, step);
    ShapeKeeps(w.(clock := step.at), w.pass.view, step.at, Apply(w, step));
  }

  // Publishing appends to the log, and the new status is the fold of the longer log.
  lemma PublishReflects(status: Option<PlanStatus>, log: seq<Published>, entry: Published, next: PlanStatus)
    requires Reflects(status, log) && TargetsAgree(entry.plan)
    requires StatusOf(status, entry.plan, entry.ran, entry.at, next)
    requires Applied(entry.ran) ==> Offers(entry.plan, entry.ran.value.class_)
    ensures Reflects(Some(next), log + [entry])
  {
    var longer := log + [entry];
    assert longer[..|longer| - 1] == log;
    forall c ensures LastRun(Some(next), c) == LastApplied(longer, c) {
      StampCarried(status, entry.plan, entry.ran, entry.at, next, c);
    }
    forall n ensures Clock(Some(next), n) == Onset(longer, n) {
      ClockCarried(status, entry.plan, entry.ran, entry.at, next, n);
    }
    ClockCarried(status, entry.plan, entry.ran, entry.at, next, "");
  }

  lemma RunOkLonger(r: Run, log: seq<Published>, clock: int, entry: Published, later: int)
    requires RunOk(r, log, clock) && clock <= later
    ensures RunOk(r, log + [entry], later)
  { assert (log + [entry])[..r.before] == log[..r.before]; }

  lemma LogLonger(log: seq<Published>, entry: Published, clock: int)
    requires LogOrdered(log, if Applied(entry.ran) then entry.ran.value.at else clock)
    requires Applied(entry.ran) ==> entry.ran.value.at <= clock
    ensures LogOrdered(log + [entry], clock)
  {}

  // The runs after a publish: the pass's own, if it applied anything, is now a published one.
  lemma PublishRuns(runs: seq<Run>, log: seq<Published>, clock: int, entry: Published, at: int)
    requires forall i | 0 <= i < |runs| :: RunOk(runs[i], log, clock)
    requires RunsOrdered(runs) && clock <= at
    requires forall i | 0 <= i < |runs| && runs[i].before == |log| :: !runs[i].published
    requires Applied(entry.ran) ==>
               && runs != [] && runs[|runs| - 1].before == |log|
               && entry.ran == Some(Executed(runs[|runs| - 1].class_, runs[|runs| - 1].at, true, false))
    ensures var runs' := if Applied(entry.ran) && runs != [] then MarkLast(runs) else runs;
            && (forall i | 0 <= i < |runs'| :: RunOk(runs'[i], log + [entry], at) && runs'[i].before <= |log|)
            && RunsOrdered(runs')
  {
    forall i | 0 <= i < |runs| ensures RunOk(runs[i], log + [entry], at) {
      RunOkLonger(runs[i], log, clock, entry, at);
    }
  }

  // What the pass applied, if anything, is the last run, and later than all that was published.
  lemma MineIsLast(w: World)
    requires HistoryInv(w) && w.pass.Acted?
    ensures TargetsAgree(w.pass.view.plan)
    ensures Applied(w.pass.executed) ==>
              && w.runs != [] && w.runs[|w.runs| - 1].before == |w.log|
              && w.pass.executed == Some(Executed(w.runs[|w.runs| - 1].class_, w.runs[|w.runs| - 1].at, true, false))
              && Offers(w.pass.view.plan, w.pass.executed.value.class_)
              && LogOrdered(w.log, w.pass.executed.value.at) && w.pass.executed.value.at <= w.clock
  {
    if Applied(w.pass.executed) { assert RunOk(w.runs[|w.runs| - 1], w.log, w.clock); }
  }

  lemma PublishKeeps(w: World, at: int, status: PlanStatus)
    requires HistoryInv(w) && Enabled(w, Publish(at, status))
    ensures HistoryInv(Apply(w, Publish(at, status)))
  {
    var entry := Published(at, w.pass.view.plan, w.pass.executed);
    MineIsLast(w);
    PublishRuns(w.runs, w.log, w.clock, entry, at);
    PublishReflects(w.status, w.log, entry, status);
    LogLonger(w.log, entry, at);
  }

  lemma StepKeepsHistory(w: World, step: Step)
    requires HistoryInv(w) && Enabled(w, step)
    ensures HistoryInv(Apply(w, step))
  {
    match step
    case Quiet(now) => ClockMoves(w, now);
    case Observe(v) => ObserveKeeps(w, v);
    case Execute(_, _, _, _, _) => ExecuteKeeps(w, step);
    case Publish(at, status) => PublishKeeps(w, at, status);
    case Evacuate(asked, cut) => EvacuateKeeps(w, asked, cut);
    case _ => MovesDoNotMatter(w, Apply(w, step));
  }

  lemma EvacuateKeeps(w: World, asked: seq<Move>, cut: nat)
    requires HistoryInv(w) && Enabled(w, Evacuate(asked, cut))
    ensures HistoryInv(Apply(w, Evacuate(asked, cut)))
  {}

  lemma MovesDoNotMatter(w: World, w': World)
    requires HistoryInv(w)
    requires || w' == w.(moves := w'.moves, reopened := w'.reopened, cordoned := w'.cordoned, marked := w'.marked)
             || w' == w.(pass := Idle)
    ensures HistoryInv(w')
  {}

  ghost predicate Begins(w: World) {
    w.status.None? && w.log == [] && w.runs == [] && w.pass.Idle? && w.reopened == 0 && w.reopenedAtLook == 0
  }

  lemma {:induction false} RunKeepsHistory(w: World, steps: seq<Step>, w': World)
    requires HistoryInv(w) && Reaches(w, steps, w')
    ensures HistoryInv(w')
    decreases |steps|
  {
    if steps != [] {
      StepKeepsHistory(w, steps[0]);
      RunKeepsHistory(Apply(w, steps[0]), steps[1..], w');
    }
  }

  // ------------------------------------------------------------------ the theorems about history

  // In every reachable state each class's published time is when it last ran in a published pass,
  // proposed still or not; entries are one per class, in ACTION_ORDER.
  lemma HistoryIsAFold(w: World, steps: seq<Step>, w': World)
    requires Begins(w) && Reaches(w, steps, w')
    ensures forall c :: LastRun(w'.status, c) == LastApplied(w'.log, c)
    ensures forall n :: Clock(w'.status, n) == Onset(w'.log, n)
    ensures w'.status.Some? ==> Ordered(w'.status.value.entries)
  { RunKeepsHistory(w, steps, w'); }

  lemma {:induction false} LastAppliedNoEarlier(log: seq<Published>, clock: int, c: Class, b: nat)
    requires LogOrdered(log, clock) && b < |log| && Ran(log[b].ran, c)
    ensures LastApplied(log, c).Some? && LastApplied(log, c).value >= log[b].ran.value.at
  {
    var last := |log| - 1;
    if !Ran(log[last].ran, c) { LastAppliedNoEarlier(log[..last], clock, c, b); }
  }

  // Any two scale-outs are a whole scale-up window apart, provided the first one's pass published.
  lemma ScaleOutsAreSpaced(w: World, steps: seq<Step>, w': World, i: nat, j: nat)
    requires Begins(w) && Reaches(w, steps, w') && i < j < |w'.runs|
    requires w'.runs[i].class_ == ScaleOut && w'.runs[j].class_ == ScaleOut && w'.runs[i].published
    ensures w'.runs[j].at - w'.runs[i].at >= w'.runs[j].view.policy.scaleUpWindow
  {
    RunKeepsHistory(w, steps, w');
    SpacedRuns(w'.runs[i], w'.runs[j], w'.log, w'.clock);
  }

  lemma SpacedRuns(first: Run, second: Run, log: seq<Published>, clock: int)
    requires RunOk(first, log, clock) && RunOk(second, log, clock) && LogOrdered(log, clock)
    requires first.class_ == ScaleOut && second.class_ == ScaleOut && first.published && first.before < second.before
    ensures second.at - first.at >= second.view.policy.scaleUpWindow
  {
    var known := log[..second.before];
    assert known[first.before].ran == Some(Executed(ScaleOut, first.at, true, false));
    LastAppliedNoEarlier(known, clock, ScaleOut, first.before);
    assert MayGrow(second.view);
  }

  // Plans k..end all found the instance empty, and the one before them, if any, did not.
  ghost predicate Unbroken(log: seq<Published>, k: nat, end: nat, name: string) {
    && k < end <= |log|
    && (forall j | k <= j < end :: Empties(log[j].plan, name))
    && (k > 0 ==> !Empties(log[k - 1].plan, name))
  }

  // An onset is the start of the unbroken stretch of plans that reaches to the end of the log.
  lemma {:induction false} OnsetMeans(log: seq<Published>, name: string) returns (k: nat)
    requires Onset(log, name).Some?
    ensures Unbroken(log, k, |log|, name) && log[k].at == Onset(log, name).value
  {
    var last := |log| - 1;
    var front := log[..last];
    if Onset(front, name).Some? {
      k := OnsetMeans(front, name);
      UnbrokenPrefix(log, last, k, name);
    } else {
      k := last;
      if last > 0 { assert front[|front| - 1] == log[last - 1]; }
    }
  }

  lemma UnbrokenPrefix(log: seq<Published>, end: nat, k: nat, name: string)
    requires end <= |log| && Unbroken(log[..end], k, end, name)
    ensures Unbroken(log, k, end, name)
  {
    forall j | k <= j < end ensures Empties(log[j].plan, name) { assert log[..end][j] == log[j]; }
  }

  // Scale-in acts on an instance only after plans published over at least the dwell time have, every
  // one of them, found that instance empty; passes that died or published nothing neither break the
  // stretch nor lengthen it.
  lemma DwellIsUnbroken(w: World, steps: seq<Step>, w': World, i: nat) returns (k: nat)
    requires Begins(w) && Reaches(w, steps, w') && i < |w'.runs| && w'.runs[i].class_ == ScaleIn
    ensures var r := w'.runs[i];
            && r.view.plan.consolidationTarget.Some?
            && Unbroken(w'.log, k, r.before, r.view.plan.consolidationTarget.value)
            && w'.log[k].at <= r.view.signals.now - r.view.policy.dwell
  {
    RunKeepsHistory(w, steps, w');
    k := DwellOf(w'.runs[i], w'.log, w'.clock);
  }

  lemma DwellOf(r: Run, log: seq<Published>, clock: int) returns (k: nat)
    requires RunOk(r, log, clock) && r.class_ == ScaleIn
    ensures r.view.plan.consolidationTarget.Some?
    ensures Unbroken(log, k, r.before, r.view.plan.consolidationTarget.value)
    ensures log[k].at <= r.view.signals.now - r.view.policy.dwell
  {
    assert MayShrink(r.view);
    var known, victim := log[..r.before], r.view.plan.consolidationTarget.value;
    k := OnsetMeans(known, victim);
    UnbrokenPrefix(log, r.before, k, victim);
    assert known[k] == log[k];
  }

  // ------------------------------------------------------------------ the member count

  // Every plan of the run was made under the same bounds.
  ghost predicate Steady(steps: seq<Step>, low: nat, high: nat) {
    forall i | 0 <= i < |steps| && steps[i].Observe? ::
      steps[i].view.policy.minInstances == low && steps[i].view.policy.maxInstances == high
  }

  ghost predicate Within(w: World, low: nat, high: nat) {
    && low <= w.declared <= high
    && (!w.pass.Idle? ==>
          && PlanFacts(w.pass.view)
          && w.pass.view.policy.minInstances == low && w.pass.view.policy.maxInstances == high
          && (!w.pass.Acted? ==> w.pass.view.signals.declared == w.declared))
  }

  ghost predicate GrewReady(r: Run) {
    r.class_ == ScaleOut ==> r.declared == r.view.signals.declared && MayGrow(r.view)
  }

  ghost predicate AllGrewReady(w: World) { forall i | 0 <= i < |w.runs| :: GrewReady(w.runs[i]) }

  // What an execution can do to the count and to the runs.
  ghost predicate CountShape(w: World, v: View, w': World) {
    && (w'.pass.Idle? || (w'.pass.Acted? && w'.pass.view == v))
    && (|| (w'.declared == w.declared && w'.runs == w.runs)
        || (w'.declared == w.declared && |w'.runs| == |w.runs| + 1 && w'.runs[..|w.runs|] == w.runs
            && w'.runs[|w.runs|].class_ != ScaleOut)
        || (w'.declared == w.declared - 1 >= v.plan.recommended && |w'.runs| == |w.runs| + 1
            && w'.runs[..|w.runs|] == w.runs
            && w'.runs[|w.runs|].class_ != ScaleOut)
        || (w'.declared == w.declared + 1 && Offers(v.plan, ScaleOut) && |w'.runs| == |w.runs| + 1
            && w'.runs[..|w.runs|] == w.runs
            && w'.runs[|w.runs|].class_ == ScaleOut && w'.runs[|w.runs|].view == v
                && w'.runs[|w.runs|].declared == w.declared))
  }

  lemma PerformCounts(w: World, v: View, made: nat, c: Class, at: int, asked: seq<Move>, grew: bool, cut: nat)
    requires Offers(v.plan, c)
    ensures CountShape(w, v, Perform(w, v, made, c, at, asked, grew, cut))
  {
    var w' := Perform(w, v, made, c, at, asked, grew, cut);
    assert w'.runs == w.runs || w'.runs[..|w.runs|] == w.runs;
  }

  lemma ExecuteCounts(w: World, step: Step)
    requires step.Execute? && Enabled(w, step)
    ensures CountShape(w, w.pass.view, Apply(w, step))
  {
    if step.selected.Some? {
      SelectedOffers(w.pass.view.plan, step.selected.value);
      PerformCounts(w.(clock := step.at), w.pass.view, w.pass.made, step.selected.value.class_, step.at, step.asked,
          step.grew, step.cut);
    }
  }

  lemma CountsWithin(w: World, v: View, w': World, low: nat, high: nat)
    requires Within(w, low, high) && AllGrewReady(w) && w.pass.Evacuated? && w.pass.view == v && CountShape(w, v, w')
    ensures Within(w', low, high) && AllGrewReady(w')
  {
    forall i | 0 <= i < |w'.runs| ensures GrewReady(w'.runs[i]) {
      if i < |w.runs| { assert w'.runs[i] == w.runs[i] && GrewReady(w.runs[i]); }
    }
  }

  lemma StepKeepsBounds(w: World, step: Step, low: nat, high: nat)
    requires Within(w, low, high) && AllGrewReady(w) && Enabled(w, step) && Steady([step], low, high)
    ensures Within(Apply(w, step), low, high) && AllGrewReady(Apply(w, step))
  {
    match step
    case Observe(v) =>
      PlanKeepsPromises(v);
      assert [step][0].Observe?;
    case Execute(_, _, _, _, _) =>
      ExecuteCounts(w, step);
      CountsWithin(w, w.pass.view, Apply(w, step), low, high);
    case Publish(_, _) =>
      assert forall i | 0 <= i < |w.runs| :: GrewReady(w.runs[i]);
    case _ =>
  }

  // The declared count never leaves its bounds, and every scale-out found each declared member
  // present and every member Ready — whatever passes died in between.
  lemma {:induction false} CountStaysInBounds(w: World, steps: seq<Step>, w': World, low: nat, high: nat)
    requires Within(w, low, high) && AllGrewReady(w) && Steady(steps, low, high) && Reaches(w, steps, w')
    ensures low <= w'.declared <= high
    ensures forall i | 0 <= i < |w'.runs| && w'.runs[i].class_ == ScaleOut ::
              && w'.runs[i].declared <= |w'.runs[i].view.signals.instances| < w'.runs[i].view.policy.maxInstances
              && forall j | 0 <= j < |w'.runs[i].view.signals.instances| :: w'.runs[i].view.signals.instances[j].ready
    decreases |steps|
  {
    if steps != [] {
      assert Steady([steps[0]], low, high) by { assert [steps[0]][0] == steps[0]; }
      StepKeepsBounds(w, steps[0], low, high);
      assert Steady(steps[1..], low, high);
      CountStaysInBounds(Apply(w, steps[0]), steps[1..], w', low, high);
    } else {
      assert forall i | 0 <= i < |w'.runs| :: GrewReady(w'.runs[i]);
    }
  }

  // ------------------------------------------------------------------ the victims

  // Until the pass in hand acts, the marks are the ones it saw.
  ghost predicate MarksAsSeen(w: World) {
    w.pass.Planned? || w.pass.Evacuated? ==> w.marked == w.pass.view.marked
  }

  // A run that lowered the count left its victim marked exactly when it was not cordoned and unmarked.
  ghost predicate RetiredOk(r: Run) {
    r.after < r.declared ==>
      && r.class_ == ScaleIn && r.view.plan.consolidationTarget.Some?
      && var victim := r.view.plan.consolidationTarget.value;
         victim in r.marked <==> !(victim in r.view.cordoned && victim !in r.view.marked)
  }

  ghost predicate AllRetiredOk(w: World) { forall i | 0 <= i < |w.runs| :: RetiredOk(w.runs[i]) }

  lemma PerformRetires(w: World, v: View, made: nat, c: Class, at: int, asked: seq<Move>, grew: bool, cut: nat)
    requires w.marked == v.marked
    ensures var w' := Perform(w, v, made, c, at, asked, grew, cut);
            && (w'.pass.Idle? || w'.pass.Acted?)
            && (|| w'.runs == w.runs
                || (|w'.runs| == |w.runs| + 1 && w'.runs[..|w.runs|] == w.runs && RetiredOk(w'.runs[|w.runs|])))
  {}

  lemma ExecuteRetires(w: World, step: Step)
    requires step.Execute? && Enabled(w, step) && MarksAsSeen(w) && AllRetiredOk(w)
    ensures AllRetiredOk(Apply(w, step)) && MarksAsSeen(Apply(w, step))
  {
    var w' := Apply(w, step);
    ActRetires(w.(clock := step.at), w.pass.view, w.pass.emitted, w.pass.made, step);
    forall i | 0 <= i < |w'.runs| ensures RetiredOk(w'.runs[i]) {
      if i < |w.runs| { assert w'.runs[..|w.runs|][i] == w.runs[i] && RetiredOk(w.runs[i]); }
    }
  }

  lemma ActRetires(w: World, v: View, emitted: bool, made: nat, step: Step)
    requires step.Execute? && w.marked == v.marked
    ensures var w' := Act(w, v, emitted, made, step);
            && (w'.pass.Idle? || w'.pass.Acted?)
            && (|| w'.runs == w.runs
                || (|w'.runs| == |w.runs| + 1 && w'.runs[..|w.runs|] == w.runs && RetiredOk(w'.runs[|w.runs|])))
  {
    if step.selected.Some? {
      PerformRetires(w, v, made, step.selected.value.class_, step.at, step.asked, step.grew, step.cut);
    }
  }

  lemma StepRetires(w: World, step: Step)
    requires Enabled(w, step) && MarksAsSeen(w) && AllRetiredOk(w)
    ensures AllRetiredOk(Apply(w, step)) && MarksAsSeen(Apply(w, step))
  {
    match step
    case Execute(_, _, _, _, _) => ExecuteRetires(w, step);
    case Publish(_, _) =>
      assert forall i | 0 <= i < |w.runs| :: RetiredOk(w.runs[i]);
    case _ =>
  }

  // Over every run, whatever anybody cordons or uncordons: a scale-in that lowers the count leaves its
  // victim marked for reclaim if and only if the victim was not cordoned and unmarked when the pass looked.
  lemma {:induction false} RetiresMarkedExactly(w: World, steps: seq<Step>, w': World)
    requires MarksAsSeen(w) && AllRetiredOk(w) && Reaches(w, steps, w')
    ensures forall i | 0 <= i < |w'.runs| && w'.runs[i].after < w'.runs[i].declared ::
              var r := w'.runs[i];
              && r.class_ == ScaleIn && r.view.plan.consolidationTarget.Some?
              && var victim := r.view.plan.consolidationTarget.value;
                 victim in r.marked <==> !(victim in r.view.cordoned && victim !in r.view.marked)
    decreases |steps|
  {
    if steps != [] {
      StepRetires(w, steps[0]);
      RetiresMarkedExactly(Apply(w, steps[0]), steps[1..], w');
    } else {
      assert forall i | 0 <= i < |w'.runs| :: RetiredOk(w'.runs[i]);
    }
  }

  // ------------------------------------------------------------------ migrations

  // The pass read the migrations as they stood, under this cap.
  ghost predicate Counts(w: World, step: Step, cap: int) {
    step.Observe? ==>
      step.view.signals.inFlight == |Flying(w.moves)| && step.view.policy.budget.maxConcurrent == cap
  }

  ghost predicate RunCounts(w: World, steps: seq<Step>, cap: int)
    decreases |steps|
  {
    steps == [] || (Counts(w, steps[0], cap) && RunCounts(Apply(w, steps[0]), steps[1..], cap))
  }

  // How many more migrations this pass may still make.
  ghost predicate Budgeted(w: World, cap: int) {
    && w.reopenedAtLook <= w.reopened && |Flying(w.moves)| <= Max(0, cap) + w.reopened
    && (w.pass.Planned? ==>
          PlanFacts(w.pass.view) && w.pass.view.policy.budget.maxConcurrent == cap
          && |Flying(w.moves)| <= w.pass.view.signals.inFlight + w.reopened - w.reopenedAtLook)
    && (w.pass.Evacuated? ==>
          PlanFacts(w.pass.view) && w.pass.view.policy.budget.maxConcurrent == cap
          && (w.pass.made == 0 ==> |Flying(w.moves)| <= w.pass.view.signals.inFlight + w.reopened - w.reopenedAtLook)
          && w.pass.made <= 1 && (w.pass.made == 1 ==> w.pass.emitted))
    && (w.pass.Acted? ==> w.pass.made <= 1)
  }

  lemma OutsideCount(moves: map<string, MoveState>, name: string, s: MoveState)
    requires name in moves
    ensures |Flying(moves - {name})| <= |Flying(moves)|
    ensures s != InFlight ==> |Flying(moves[name := s])| <= |Flying(moves)|
    ensures |Flying(moves[name := s])| <= |Flying(moves)| + 1
  {
    assert Flying(moves - {name}) == Flying(moves) - {name};
    assert Flying(moves[name := s]) == if s == InFlight then Flying(moves) + {name} else Flying(moves) - {name};
  }

  lemma EvacuateKeepsBudget(w: World, asked: seq<Move>, cut: nat, cap: int)
    requires Budgeted(w, cap) && Enabled(w, Evacuate(asked, cut))
    ensures Budgeted(Apply(w, Evacuate(asked, cut)), cap)
  {
    EmitCount(w.moves, if cut < |asked| then asked[..cut] else asked);
    EmitAddsAtMostOne(w.moves, if cut < |asked| then asked[..cut] else asked);
    if w.pass.view.plan.evacuation != Allowed { assert asked == []; }
  }

  // All an execution can do to the migrations: nothing, or one emission the budget allowed.
  ghost predicate FlightShape(w: World, v: View, emitted: bool, made: nat, w': World) {
    && (w'.pass.Idle? || (w'.pass.Acted? && w'.pass.made <= made + |Flying(w'.moves)| - |Flying(w.moves)|))
    && w'.reopened == w.reopened
    && |Flying(w.moves)| <= |Flying(w'.moves)| <= |Flying(w.moves)| + 1
    && (|Flying(w'.moves)| > |Flying(w.moves)| ==> !emitted && (Offers(v.plan, Rebalance) || Offers(v.plan, ScaleIn)))
  }

  lemma PerformFlights(w: World, v: View, made: nat, c: Class, at: int, asked: seq<Move>, grew: bool, cut: nat)
    requires Offers(v.plan, c)
    ensures FlightShape(w, v, false, made, Perform(w, v, made, c, at, asked, grew, cut))
    ensures c != Rebalance && c != ScaleIn ==> Perform(w, v, made, c, at, asked, grew, cut).moves == w.moves
  {
    EmitCount(w.moves, if cut < |asked| then asked[..cut] else asked);
  }

  lemma ExecuteFlights(w: World, step: Step)
    requires step.Execute? && Enabled(w, step)
    ensures FlightShape(w, w.pass.view, w.pass.emitted, w.pass.made, Apply(w, step))
  {
    if step.selected.Some? {
      SelectedOffers(w.pass.view.plan, step.selected.value);
      PerformFlights(w.(clock := step.at), w.pass.view, w.pass.made, step.selected.value.class_, step.at, step.asked,
          step.grew, step.cut);
    }
  }

  lemma ExecuteKeepsBudget(w: World, step: Step, cap: int)
    requires step.Execute? && Budgeted(w, cap) && Enabled(w, step)
    ensures Budgeted(Apply(w, step), cap)
  {
    ExecuteFlights(w, step);
  }

  lemma StepKeepsBudget(w: World, step: Step, cap: int)
    requires Budgeted(w, cap) && Enabled(w, step) && Counts(w, step, cap)
    ensures Budgeted(Apply(w, step), cap)
  {
    match step
    case Observe(v) => PlanKeepsPromises(v);
    case Evacuate(asked, cut) => EvacuateKeepsBudget(w, asked, cut, cap);
    case Execute(_, _, _, _, _) => ExecuteKeepsBudget(w, step, cap);
    case Settle(name) => OutsideCount(w.moves, name, Settled);
    case Refuse(name) => OutsideCount(w.moves, name, Refused);
    case Reopen(name) => OutsideCount(w.moves, name, InFlight);
    case Remove(name) => OutsideCount(w.moves, name, Settled);
    case _ =>
  }

  lemma {:induction false} RunKeepsBudget(w: World, steps: seq<Step>, w': World, cap: int)
    requires Budgeted(w, cap) && Reaches(w, steps, w') && RunCounts(w, steps, cap)
    ensures Budgeted(w', cap)
    decreases |steps|
  {
    if steps != [] {
      StepKeepsBudget(w, steps[0], cap);
      RunKeepsBudget(Apply(w, steps[0]), steps[1..], w', cap);
    }
  }

  // A pass makes at most one migration, its drain and its action together, and the migrations in
  // flight exceed the cap by no more than the refused ones that came back; with none, they never do.
  lemma ConcurrencyIsCapped(w: World, steps: seq<Step>, w': World, cap: nat)
    requires Begins(w) && Flying(w.moves) == {} && Reaches(w, steps, w') && RunCounts(w, steps, cap)
    ensures |Flying(w'.moves)| <= cap + w'.reopened
    ensures w'.reopened == 0 ==> |Flying(w'.moves)| <= cap
    ensures w'.pass.Evacuated? || w'.pass.Acted? ==> w'.pass.made <= 1
  { RunKeepsBudget(w, steps, w', cap); }

  // In every reachable state within the cap, coming back takes the pool past it exactly at the cap; and
  // any other step that does is the emission, at the cap, of a pass during which one came back.
  lemma PastTheCapExactly(w: World, steps: seq<Step>, w': World, cap: nat, step: Step)
    requires Begins(w) && Flying(w.moves) == {} && Reaches(w, steps, w') && RunCounts(w, steps, cap)
    requires Enabled(w', step) && Counts(w', step, cap) && |Flying(w'.moves)| <= cap
    ensures var past := |Flying(Apply(w', step).moves)| > cap;
            && (step.Reopen? ==> (past <==> |Flying(w'.moves)| == cap))
            && (past && !step.Reopen? ==>
                  (step.Evacuate? || step.Execute?) && |Flying(w'.moves)| == cap && w'.reopened > w'.reopenedAtLook)
  {
    RunKeepsBudget(w, steps, w', cap);
    StepPastTheCap(w', step, cap);
  }

  lemma StepPastTheCap(w: World, step: Step, cap: nat)
    requires Budgeted(w, cap) && Enabled(w, step) && |Flying(w.moves)| <= cap
    ensures var past := |Flying(Apply(w, step).moves)| > cap;
            && (step.Reopen? ==> (past <==> |Flying(w.moves)| == cap))
            && (past && !step.Reopen? ==>
                  (step.Evacuate? || step.Execute?) && |Flying(w.moves)| == cap && w.reopened > w.reopenedAtLook)
  {
    match step
    case Evacuate(asked, cut) =>
      EmitCount(w.moves, if cut < |asked| then asked[..cut] else asked);
      if w.pass.view.plan.evacuation != Allowed { assert asked == []; }
    case Execute(_, _, _, _, _) => ExecuteFlights(w, step);
    case Settle(name) => OutsideCount(w.moves, name, Settled);
    case Refuse(name) => OutsideCount(w.moves, name, Refused);
    case Reopen(name) => ReopenCount(w.moves, name);
    case Remove(name) => OutsideCount(w.moves, name, Settled);
    case _ =>
  }

  lemma ReopenCount(moves: map<string, MoveState>, name: string)
    requires name in moves && moves[name] == Refused
    ensures |Flying(moves[name := InFlight])| == |Flying(moves)| + 1
  {
    assert Flying(moves[name := InFlight]) == Flying(moves) + {name};
  }

  // A scale-out the other guardrails allow is held back exactly when a published one is less than a
  // window old; one whose pass did not publish holds back nothing.
  lemma SpacingRefusesExactly(w: World, steps: seq<Step>, w': World, v: View)
    requires Begins(w) && Reaches(w, steps, w') && Enabled(w', Observe(v))
    requires var g := GuardOf(v.signals, v.policy, v.plan.consolidationTarget);
             g.(signals := v.signals.(lastScaleUp := None)).Evaluate(ScaleOut) == Allowed
    ensures var g := GuardOf(v.signals, v.policy, v.plan.consolidationTarget);
            var last := LastApplied(w'.log, ScaleOut);
            g.Evaluate(ScaleOut) == Allowed <==> last.None? || v.signals.now - last.value >= v.policy.scaleUpWindow
  {
    HistoryIsAFold(w, steps, w');
    SpacingGate(GuardOf(v.signals, v.policy, v.plan.consolidationTarget));
  }

  lemma SpacingGate(g: Guard)
    requires g.(signals := g.signals.(lastScaleUp := None)).Evaluate(ScaleOut) == Allowed
    ensures g.Evaluate(ScaleOut) == Allowed <==>
              g.signals.lastScaleUp.None? || g.signals.now - g.signals.lastScaleUp.value >= g.policy.scaleUpWindow
  {}
}
