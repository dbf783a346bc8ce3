/** The tenant migration's phase machine: what one reconcile decides, and what whole runs keep. */
module Migration {
  import opened Common

  datatype Phase =
    | Preflight | Provisioning | PreWarm | Copying | Catchup | Quiescing | Cutover
    | Completed | Failed | Aborted | RolledBack

  datatype Strategy = Online | Offline

  datatype Serving = Source | Target

  datatype Reason =
    | Progressing | Waiting | Retrying | CutoverComplete | AbortRequested | Faulted
    | DrainTimedOut | CutoverTimedOut | WasRolledBack | SourceRetained | SourceDropped

  // What the engine saw on this reconcile.
  datatype Observation = Observation(
    strategy: Strategy,
    abortRequested: bool, rollbackRequested: bool,
    fault: bool, faultBudgetExceeded: bool,
    preflightPassed: bool, provisioned: bool, preWarmed: bool, copyComplete: bool,
    caughtUp: bool, drained: bool, cutoverComplete: bool,
    drainDeadlineExceeded: bool, cutoverDeadlineExceeded: bool,
    windowClosed: bool, sourceDropped: bool)

  datatype Decision = Decision(
    phase: Phase, reason: Reason, serving: Serving,
    cleanup: bool, releaseQuiesce: bool, dropSource: bool, discardTarget: bool, settled: bool)

  function PhaseOrder(strategy: Strategy): seq<Phase> {
    match strategy
    case Online => [Preflight, Provisioning, PreWarm, Copying, Catchup, Quiescing, Cutover, Completed]
    case Offline => [Preflight, Provisioning, PreWarm, Quiescing, Copying, Cutover, Completed]
  }

  predicate Terminal(phase: Phase) {
    phase == Completed || phase == Failed || phase == Aborted || phase == RolledBack
  }

  // The place of a phase in its strategy's order, or -1.
  function Index(phase: Phase, strategy: Strategy): (i: int)
    ensures -1 <= i < |PhaseOrder(strategy)|
    ensures i >= 0 ==> PhaseOrder(strategy)[i] == phase
    ensures i < 0 ==> phase !in PhaseOrder(strategy)
  {
    match (strategy, phase)
    case (_, Preflight) => 0
    case (_, Provisioning) => 1
    case (_, PreWarm) => 2
    case (Online, Copying) => 3
    case (Online, Catchup) => 4
    case (Online, Quiescing) => 5
    case (Online, Cutover) => 6
    case (Online, Completed) => 7
    case (Offline, Quiescing) => 3
    case (Offline, Copying) => 4
    case (Offline, Cutover) => 5
    case (Offline, Completed) => 6
    case _ => -1
  }

  // Whether the tenant's clients are queued in this phase.  Offline this includes the copy.
  predicate Quiesced(phase: Phase, strategy: Strategy) {
    phase == Quiescing || phase == Cutover || (phase == Copying && strategy == Offline)
  }

  function NextPhase(phase: Phase, strategy: Strategy): Phase {
    match phase
    case Preflight => Provisioning
    case Provisioning => PreWarm
    case PreWarm => if strategy == Online then Copying else Quiescing
    case Copying => if strategy == Online then Catchup else Cutover
    case Catchup => if strategy == Online then Quiescing else Catchup
    case Quiescing => if strategy == Online then Cutover else Copying
    case Cutover => Completed
    case _ => phase
  }

  // Both are read off the strategy's order: clients are queued from Quiescing to before the end, and
  // the next phase is the next in order, or none.
  lemma OrderDecides(phase: Phase, strategy: Strategy)
    ensures Quiesced(phase, strategy) <==>
              Index(Quiescing, strategy) <= Index(phase, strategy) < |PhaseOrder(strategy)| - 1
    ensures var i := Index(phase, strategy);
            NextPhase(phase, strategy) ==
              if i < 0 || i + 1 >= |PhaseOrder(strategy)| then phase else PhaseOrder(strategy)[i + 1]
  {}

  predicate Ready(phase: Phase, o: Observation) {
    match phase
    case Preflight => o.preflightPassed
    case Provisioning => o.provisioned
    case PreWarm => o.preWarmed
    case Copying => o.copyComplete
    case Catchup => o.caughtUp
    case Quiescing => o.drained
    case Cutover => o.cutoverComplete
    case _ => false
  }

  // Every departure from the happy path.
  function Abort(phase: Phase, reason: Reason, from: Phase, o: Observation): Decision {
    Decision(phase, reason, Source, true, Quiesced(from, o.strategy), false, true, false)
  }

  function DecideCompleted(o: Observation): Decision {
    if o.rollbackRequested && !o.windowClosed then
      Decision(RolledBack, WasRolledBack, Source, true, true, false, true, false)
    else if o.windowClosed && o.sourceDropped then
      Decision(Completed, SourceDropped, Target, false, false, false, false, true)
    else if o.windowClosed then
      Decision(Completed, SourceDropped, Target, false, false, true, false, false)
    else
      Decision(Completed, SourceRetained, Target, false, false, false, false, false)
  }

  function Decide(current: Phase, o: Observation): Decision {
    if current == Failed || current == Aborted || current == RolledBack then
      Decision(current,
               if current == Aborted then AbortRequested else if current == RolledBack then WasRolledBack else Faulted,
               Source, false, false, false, false, true)
    else if current == Completed then DecideCompleted(o)
    else if o.abortRequested then Abort(Aborted, AbortRequested, current, o)
    else if o.fault then
      if !o.faultBudgetExceeded then Decision(current, Retrying, Source, false, false, false, false, false)
      else Abort(Failed, Faulted, current, o)
    else if current == Quiescing && o.drainDeadlineExceeded then Abort(Failed, DrainTimedOut, current, o)
    else if Quiesced(current, o.strategy) && o.cutoverDeadlineExceeded then Abort(Failed, CutoverTimedOut, current, o)
    else if !Ready(current, o) then Decision(current, Waiting, Source, false, false, false, false, false)
    else
      var next := NextPhase(current, o.strategy);
      if next == Completed
      then Decision(next, CutoverComplete, Target, true, true, false, false, false)
      else Decision(next, Progressing, Source, false, false, false, false, false)
  }

  // ------------------------------------------------------------------ one decision

  // The migration's single safety invariant, both ways: clients are sent to the target exactly when
  // the phase published is Completed.
  lemma ServingLaw(current: Phase, o: Observation)
    ensures Decide(current, o).serving == Target <==> Decide(current, o).phase == Completed
  {}

  // The evidence each phase waits for: its own, and nothing else's.
  predicate Shown(phase: Phase, o: Observation) {
    && (phase == Preflight ==> o.preflightPassed)
    && (phase == Provisioning ==> o.provisioned)
    && (phase == PreWarm ==> o.preWarmed)
    && (phase == Copying ==> o.copyComplete)
    && (phase == Catchup ==> o.caughtUp)
    && (phase == Quiescing ==> o.drained)
    && (phase == Cutover ==> o.cutoverComplete)
  }

  // A phase is left forwards exactly when its own evidence was seen, nobody asked to stop, nothing is
  // wrong and no deadline that counts there has passed; and then one place at a time.
  lemma AdvanceLaw(current: Phase, o: Observation)
    requires !Terminal(current)
    ensures var next := Decide(current, o).phase;
            next != current && next != Failed && next != Aborted <==>
            && !o.abortRequested && !o.fault && Shown(current, o) && Index(current, o.strategy) >= 0
            && !(current == Quiescing && o.drainDeadlineExceeded)
            && !(Index(Quiescing, o.strategy) <= Index(current, o.strategy) && o.cutoverDeadlineExceeded)
    ensures var next := Decide(current, o).phase;
            next == current || next == Failed || next == Aborted
                || Index(next, o.strategy) == Index(current, o.strategy) + 1
  { OrderDecides(current, o.strategy); }

  // An abort is taken exactly when it is asked for; a failure exactly when nobody asked to abort and
  // either the fault budget is spent or, with no fault, a deadline that counts there has passed.  A fault
  // within its budget holds the phase where it is.
  lemma DepartureLaw(current: Phase, o: Observation)
    requires !Terminal(current)
    ensures var d := Decide(current, o);
            && (d.phase == Aborted <==> o.abortRequested)
            && (d.phase == Failed <==>
                  && !o.abortRequested
                  && (if o.fault then o.faultBudgetExceeded
                      else
                        || (current == Quiescing && o.drainDeadlineExceeded)
                        || (Quiesced(current, o.strategy) && o.cutoverDeadlineExceeded)))
            && (d.reason == Retrying <==> !o.abortRequested && o.fault && !o.faultBudgetExceeded)
            && (d.reason == Retrying ==> d.phase == current)
            && (d.reason == AbortRequested <==> d.phase == Aborted)
            && (d.reason == Faulted <==> d.phase == Failed && o.fault)
            && (d.reason == DrainTimedOut <==>
                  d.phase == Failed && !o.fault && current == Quiescing && o.drainDeadlineExceeded)
  {}

  // A half-built copy is discarded exactly on the endings that serve from the source, the source is
  // dropped only behind a closed window, a completed migration is rolled back exactly on request before
  // it, and only a settled migration is left alone.
  lemma EndingLaw(current: Phase, o: Observation)
    ensures var d := Decide(current, o);
            && (d.discardTarget <==> !d.settled && (d.phase == Failed || d.phase == Aborted || d.phase == RolledBack))
            && (d.dropSource <==> current == Completed && o.windowClosed && !o.sourceDropped)
            && (d.dropSource ==> d.serving == Target)
            && (current == Completed ==> (d.phase == RolledBack <==> o.rollbackRequested && !o.windowClosed))
            && (d.settled <==>
                  || current == Failed || current == Aborted || current == RolledBack
                  || (current == Completed && o.windowClosed && o.sourceDropped))
            && (current == Failed ==> d.reason == Faulted) && (current == Aborted ==> d.reason == AbortRequested)
            && (current == RolledBack || d.phase == RolledBack ==> d.reason == WasRolledBack)
  {}

  // No migration ends still holding the tenant's clients: they are let go exactly on an ending that finds
  // them queued, on completion and on rollback.  What the migration set up is cleaned up exactly on
  // reaching an ending.
  lemma ReleaseLaw(current: Phase, o: Observation)
    ensures var d := Decide(current, o);
            && (Quiesced(current, o.strategy) && Terminal(d.phase) ==> d.releaseQuiesce)
            && (d.releaseQuiesce <==>
                  && d.phase != current && Terminal(d.phase)
                  && (Quiesced(current, o.strategy) || d.phase == Completed || d.phase == RolledBack))
            && (d.cleanup <==> d.phase != current && Terminal(d.phase))
  {
    var d := Decide(current, o);
    if Terminal(current) {
      assert current == Completed ==> d == DecideCompleted(o);
    } else if d.phase == Aborted || d.phase == Failed {
      assert d == Abort(d.phase, d.reason, current, o);
    } else {
      assert d.phase != RolledBack;
    }
  }

  // ------------------------------------------------------------------ runs of reconciles

  // The status the controller keeps.  `dropped` is the Succeeded condition reading SourceDropped.
  // `path` is history: the phases published, in order.
  datatype Status = Status(phase: Phase, deadline: Option<int>, dropped: bool, path: seq<Phase>)

  const Admitted: Status := Status(Preflight, None, false, [Preflight])

  function WindowClosed(s: Status, now: int): bool { s.deadline.Some? && s.deadline.value <= now }

  // The observation with the three facts read back off the status.
  function Seen(s: Status, o: Observation, now: int): Observation {
    o.(windowClosed := WindowClosed(s, now), sourceDropped := s.dropped)
  }

  // One reconcile that publishes: what the controller records of the decision it took.
  function Record(s: Status, o: Observation, now: int, window: nat): Status {
    var d := Decide(s.phase, Seen(s, o, now));
    Status(d.phase,
           if d.phase == Completed && s.deadline.None? then Some(now + window) else s.deadline,
           if d.settled then s.dropped else d.reason == SourceDropped,
           if d.phase == s.phase then s.path else s.path + [d.phase])
  }

  ghost predicate StatusOk(s: Status, now: int) {
    && (s.deadline.Some? ==> s.phase == Completed || s.phase == RolledBack)
    && (s.phase == Completed ==> s.deadline.Some?)
    && (s.dropped ==> s.phase == Completed && WindowClosed(s, now))
  }

  lemma UnfinishedDecision(current: Phase, o: Observation)
    requires !Terminal(current)
    ensures var d := Decide(current, o);
            !d.settled && d.reason != SourceDropped && d.phase != RolledBack && !d.dropSource
  {}

  // Every reconcile keeps the status sound at any later time; a dropped source stays dropped and is
  // never rolled back to; an ending is left only by a rollback, inside its window.
  lemma RecordKeeps(s: Status, o: Observation, now: int, window: nat, later: int)
    requires StatusOk(s, now) && now <= later
    ensures StatusOk(Record(s, o, now, window), later)
    ensures s.dropped ==> Record(s, o, now, window) == s
    ensures Terminal(s.phase) && Record(s, o, now, window).phase != s.phase ==>
              s.phase == Completed && Record(s, o, now, window).phase == RolledBack && !WindowClosed(s, now)
                  && !s.dropped
    ensures s.phase == Failed || s.phase == Aborted || s.phase == RolledBack ==> Record(s, o, now, window) == s
    ensures Decide(s.phase, Seen(s, o, now)).dropSource ==> !s.dropped && Record(s, o, now, window).dropped
  {
    if !Terminal(s.phase) {
      UnfinishedDecision(s.phase, Seen(s, o, now));
    } else if s.phase == Completed {
      assert Decide(s.phase, Seen(s, o, now)) == DecideCompleted(Seen(s, o, now));
    }
  }

  datatype Tick = Tick(o: Observation, now: int, window: nat, published: bool)

  // A run of reconciles at nondecreasing times; one that could not publish leaves the status alone.
  ghost predicate Run(s: Status, ticks: seq<Tick>, s': Status)
    decreases |ticks|
  {
    if ticks == [] then s' == s
    else
      && (|ticks| > 1 ==> ticks[0].now <= ticks[1].now)
      && Run(After(s, ticks[0]), ticks[1..], s')
  }

  function After(s: Status, t: Tick): Status {
    if t.published then Record(s, t.o, t.now, t.window) else s
  }

  // sourceDropped is monotone over any run, and from the moment it holds the migration is final.
  lemma {:induction false} DroppedIsFinal(s: Status, ticks: seq<Tick>, s': Status)
    requires Run(s, ticks, s') && s.dropped && (ticks == [] || StatusOk(s, ticks[0].now))
    ensures s' == s
    decreases |ticks|
  {
    if ticks != [] {
      var next := if |ticks| > 1 then ticks[1].now else ticks[0].now;
      RecordKeeps(s, ticks[0].o, ticks[0].now, ticks[0].window, next);
      DroppedIsFinal(After(s, ticks[0]), ticks[1..], s');
    }
  }

  // How far along its strategy's order a status is, judged by the phases it has published.
  ghost predicate PathOk(s: Status, strategy: Strategy) {
    var order := PhaseOrder(strategy);
    && |s.path| > 0 && s.path[|s.path| - 1] == s.phase
    && match s.phase
       case RolledBack => s.path == order + [RolledBack]
       case Failed => |s.path| <= |order| && s.path[..|s.path| - 1] == order[..|s.path| - 1]
       case Aborted => |s.path| <= |order| && s.path[..|s.path| - 1] == order[..|s.path| - 1]
       case _ => |s.path| <= |order| && s.path == order[..|s.path|] && Index(s.phase, strategy) == |s.path| - 1
  }

  lemma RecordKeepsPath(s: Status, o: Observation, now: int, window: nat)
    requires PathOk(s, o.strategy)
    ensures PathOk(Record(s, o, now, window), o.strategy)
  {
    var s' := Record(s, o, now, window);
    if s'.phase != s.phase {
      assert s'.path[..|s'.path| - 1] == s.path;
      if s.phase == Completed {
        assert s.path == PhaseOrder(o.strategy)[..|PhaseOrder(o.strategy)|];
      } else if !Terminal(s.phase) {
        ForwardKeepsPath(s, Seen(s, o, now), s');
      }
    }
  }

  lemma ForwardKeepsPath(s: Status, o: Observation, s': Status)
    requires PathOk(s, o.strategy) && !Terminal(s.phase)
    requires s'.phase == Decide(s.phase, o).phase != s.phase
    requires |s'.path| == |s.path| + 1 && s'.path[|s.path|] == s'.phase && s'.path[..|s.path|] == s.path
    ensures PathOk(s', o.strategy)
  {
    var order := PhaseOrder(o.strategy);
    assert s'.phase != RolledBack by { UnfinishedDecision(s.phase, o); }
    AdvanceLaw(s.phase, o);
    if s'.phase == Failed || s'.phase == Aborted {
      assert |s.path| < |order|;
    } else {
      assert order[..|s.path| + 1] == order[..|s.path|] + [order[|s.path|]];
      assert s'.path == s.path + [s'.phase];
    }
  }

  // A migration reaches the target only through every phase of its strategy, in order: online it
  // copies and catches up before clients are queued, offline it copies while they are.
  lemma {:induction false} CompletedTookEveryPhase(s: Status, ticks: seq<Tick>, s': Status, strategy: Strategy)
    requires PathOk(s, strategy) && Run(s, ticks, s')
    requires forall i | 0 <= i < |ticks| :: ticks[i].o.strategy == strategy
    ensures PathOk(s', strategy)
    ensures s'.phase == Completed ==> s'.path == PhaseOrder(strategy)
    decreases |ticks|
  {
    if ticks != [] {
      if ticks[0].published { RecordKeepsPath(s, ticks[0].o, ticks[0].now, ticks[0].window); }
      CompletedTookEveryPhase(After(s, ticks[0]), ticks[1..], s', strategy);
    }
  }

  lemma {:induction false} EndedRunStays(s: Status, ticks: seq<Tick>, s': Status)
    requires Run(s, ticks, s') && (s.phase == Failed || s.phase == Aborted)
    ensures s'.phase == s.phase
    decreases |ticks|
  {
    if ticks != [] { EndedRunStays(After(s, ticks[0]), ticks[1..], s'); }
  }

  // Which of these ticks showed each phase from the one at `done` to the last before Completed: each was
  // published, each after the one before, and each saw that phase's own evidence.
  ghost predicate ShownInOrder(ticks: seq<Tick>, strategy: Strategy, done: nat, at: seq<nat>) {
    var order := PhaseOrder(strategy);
    && done + |at| == |order| - 1
    && (forall i | 0 <= i < |at| :: at[i] < |ticks| && ShownBy(ticks[at[i]], order[done + i]))
    && (forall i, j | 0 <= i < j < |at| :: at[i] < at[j])
  }

  predicate ShownBy(t: Tick, phase: Phase) { t.published && Shown(phase, t.o) }

  lemma ShownLater(ticks: seq<Tick>, strategy: Strategy, done: nat, at: seq<nat>) returns (later: seq<nat>)
    requires ticks != [] && ShownInOrder(ticks[1..], strategy, done, at)
    ensures ShownInOrder(ticks, strategy, done, later) && (forall i | 0 <= i < |later| :: later[i] > 0)
  {
    later := seq(|at|, i requires 0 <= i < |at| => at[i] + 1);
    assert forall i | 0 <= i < |at| :: ticks[1..][at[i]] == ticks[later[i]];
  }

  lemma ShownFirst(ticks: seq<Tick>, strategy: Strategy, done: nat, rest: seq<nat>) returns (at: seq<nat>)
    requires ticks != [] && ShownInOrder(ticks, strategy, done + 1, rest) && (forall i | 0 <= i < |rest| :: rest[i] > 0)
    requires done < |PhaseOrder(strategy)| && ShownBy(ticks[0], PhaseOrder(strategy)[done])
    ensures ShownInOrder(ticks, strategy, done, at)
  {
    at := [0] + rest;
  }

  // What one decision about an unfinished migration can come to.
  lemma Moves(current: Phase, o: Observation)
    requires !Terminal(current)
    ensures var next := Decide(current, o).phase;
            || next == current || next == Failed || next == Aborted
            || (Shown(current, o) && Index(next, o.strategy) == Index(current, o.strategy) + 1 && next != RolledBack)
  {
    AdvanceLaw(current, o);
    UnfinishedDecision(current, o);
  }

  // What one reconcile of an unfinished migration does to its path, and what it saw if it went on.
  lemma TickShows(s: Status, t: Tick, strategy: Strategy)
    requires PathOk(s, strategy) && !Terminal(s.phase) && t.o.strategy == strategy
    ensures PathOk(After(s, t), strategy)
    ensures Moved(s, t, strategy, After(s, t))
  {
    if t.published {
      RecordKeepsPath(s, t.o, t.now, t.window);
      Moves(s.phase, Seen(s, t.o, t.now));
      MovesShow(s, t, strategy, Decide(s.phase, Seen(s, t.o, t.now)).phase, Record(s, t.o, t.now, t.window));
    }
  }

  ghost predicate Moved(s: Status, t: Tick, strategy: Strategy, next: Status) {
    || (next.phase == s.phase && next.path == s.path)
    || next.phase == Failed || next.phase == Aborted
    || (&& |next.path| == |s.path| + 1 && (next.phase == Completed || !Terminal(next.phase))
        && (next.phase == Completed ==> |s.path| == |PhaseOrder(strategy)| - 1)
        && 0 < |s.path| <= |PhaseOrder(strategy)| && ShownBy(t, PhaseOrder(strategy)[|s.path| - 1]))
  }

  lemma MovesShow(s: Status, t: Tick, strategy: Strategy, phase: Phase, next: Status)
    requires PathOk(s, strategy) && !Terminal(s.phase) && t.published
    requires next.phase == phase && next.path == if phase == s.phase then s.path else s.path + [phase]
    requires || phase == s.phase || phase == Failed || phase == Aborted
             || (Shown(s.phase, t.o) && Index(phase, strategy) == Index(s.phase, strategy) + 1 && phase != RolledBack)
    ensures Moved(s, t, strategy, next)
  {
    assert phase == Completed ==> Index(phase, strategy) == |PhaseOrder(strategy)| - 1;
  }

  lemma ShownBefore(s: Status, ticks: seq<Tick>, strategy: Strategy, next: Status, rest: seq<nat>)
    returns (at: seq<nat>)
    requires ticks != [] && |s.path| > 0 && |next.path| > 0 && !Terminal(next.phase)
    requires Moved(s, ticks[0], strategy, next) && ShownInOrder(ticks[1..], strategy, |next.path| - 1, rest)
    ensures ShownInOrder(ticks, strategy, |s.path| - 1, at)
  {
    at := ShownLater(ticks, strategy, |next.path| - 1, rest);
    if |next.path| != |s.path| { at := ShownFirst(ticks, strategy, |s.path| - 1, at); }
  }

  // A migration that reaches the target had, for every phase of its strategy in order, a reconcile that
  // saw that phase's own evidence and published.
  lemma {:induction false} CompletedSawEveryPhase(s: Status, ticks: seq<Tick>, s': Status, strategy: Strategy)
    returns (at: seq<nat>)
    requires PathOk(s, strategy) && !Terminal(s.phase) && Run(s, ticks, s') && s'.phase == Completed
    requires forall i | 0 <= i < |ticks| :: ticks[i].o.strategy == strategy
    ensures ShownInOrder(ticks, strategy, |s.path| - 1, at)
    decreases |ticks|
  {
    var next := After(s, ticks[0]);
    TickShows(s, ticks[0], strategy);
    if next.phase == Failed || next.phase == Aborted { EndedRunStays(next, ticks[1..], s'); }
    if next.phase == Completed {
      at := ShownFirst(ticks, strategy, |s.path| - 1, []);
    } else {
      var rest := CompletedSawEveryPhase(next, ticks[1..], s', strategy);
      at := ShownBefore(s, ticks, strategy, next, rest);
    }
  }

  // ------------------------------------------------------------------ and it gets there

  // Everything a migration can wait for, and nothing against it.
  function AllWell(strategy: Strategy): Observation {
    Observation(strategy, false, false, false, false, true, true, true, true, true, true, true, false, false, false,
                false)
  }

  lemma AllWellAdvances(s: Status, now: int, window: nat, strategy: Strategy)
    requires PathOk(s, strategy) && !Terminal(s.phase)
    ensures var next := Record(s, AllWell(strategy), now, window);
            Index(next.phase, strategy) == Index(s.phase, strategy) + 1
  {
    AdvanceLaw(s.phase, Seen(s, AllWell(strategy), now));
  }

  // From any status a run can come to, short of an ending, a migration can complete: a reconcile for each
  // phase that is left, each seeing what it waits for.
  lemma {:induction false} UnfinishedCanComplete(s: Status, now: int, window: nat, strategy: Strategy)
    returns (ticks: seq<Tick>, s': Status)
    requires PathOk(s, strategy) && !Terminal(s.phase)
    ensures Run(s, ticks, s') && s'.phase == Completed && s'.deadline.Some?
    ensures forall i | 0 <= i < |ticks| :: ticks[i] == Tick(AllWell(strategy), now, window, true)
    decreases |PhaseOrder(strategy)| - Index(s.phase, strategy)
  {
    var tick := Tick(AllWell(strategy), now, window, true);
    var next := After(s, tick);
    AllWellAdvances(s, now, window, strategy);
    RecordKeepsPath(s, tick.o, now, window);
    if next.phase == Completed {
      ticks, s' := [tick], next;
      assert ticks[1..] == [] && Run(next, [], next);
    } else {
      var rest;
      rest, s' := UnfinishedCanComplete(next, now, window, strategy);
      ticks := [tick] + rest;
      assert ticks[1..] == rest;
    }
  }
}
