/** The discipline under which migrations lose nothing: a gate, one move at a time, and no effect that
    presumes a hand-over going through without it. */
module LiveDataLaws {
  import opened Common
  import opened Migration
  import opened LiveData

  // A tenant of a pool with a gate is moved again only once every earlier move of it is final.  While
  // the tenant is not back on the source, a decision to serve from it neither opens the gate, nor
  // discards the target, nor is published as an ending.  A flip that is not published does not open
  // the gate, nor does another ending unless it discards the target; and a rollback that is not
  // published did not reach the routing.  A hold does not run out while a move is past quiescing.
  predicate Disciplined(t: Tenant, step: Step)
    requires Enabled(t, step)
  {
    && t.gated
    && match step
       case Start(_, _) => forall k | k in t.moves :: Final(t.moves[k].status)
       case Expire =>
         forall k | k in t.moves && !Terminal(t.moves[k].status.phase) ::
           Index(t.moves[k].status.phase, t.moves[k].strategy) <= Index(Quiescing, t.moves[k].strategy)
       case Reconcile(target, o, now, _, reach, x) =>
         reach == Died || Orderly(t, target, t.moves[target], DecisionOf(t.moves[target], o, now), reach, x)
       case _ => true
  }

  predicate Orderly(t: Tenant, target: Inst, m: Move, d: Decision, reach: Reach, x: Outcomes) {
    var home := HomeAfter(t.(home := Standing(t, target, x)), target, m, d, x);
    && (d.serving == Source && home == target ==>
          && !(d.discardTarget && x.discarded)
          && !(d.releaseQuiesce && x.released && m.status.phase != Completed)
          && !(Terminal(d.phase) && reach == Published))
    && (d.phase == Completed && m.status.phase != Completed && reach == Unpublished ==> !x.released)
    && (d.phase == Failed || d.phase == Aborted ==>
          reach == Published || !(d.releaseQuiesce && x.released) || x.discarded)
    && (d.phase == RolledBack && m.status.phase == Completed && reach == Unpublished ==> home == target)
  }

  // Where a move that is not final has the tenant.
  ghost predicate ActiveOk(t: Tenant, k: Inst, m: Move) {
    var phase := m.status.phase;
    if phase == Completed then
      t.home == k && (m.source in t.copies || WindowClosed(m.status, t.clock))
    else
      && m.source in t.copies && Index(phase, m.strategy) >= 0
      && (Index(phase, m.strategy) > Index(Quiescing, m.strategy) && k in t.copies ==> t.held)
      && (t.home == m.source || (t.home == k && phase == Cutover && k in t.copies
                                 && t.copies[k].rows == t.copies[m.source].rows))
  }

  predicate Ended(s: Status) { s.phase == Failed || s.phase == Aborted || s.phase == RolledBack }

  ghost predicate MoveOk(t: Tenant, k: Inst)
    requires k in t.moves
  {
    var m := t.moves[k];
    && m.source != k && StatusOk(m.status, t.clock)
    && (!Final(m.status) ==> ActiveOk(t, k, m))
    // A record that ended on the source goes on restoring it for ever, which is harmless only
    // because the tenant never stands on that record's target again while the record exists.
    && (Ended(m.status) ==> t.home != k)
  }

  ghost predicate Apart(t: Tenant, k: Inst, j: Inst)
    requires k in t.moves && j in t.moves
  {
    && (k != j ==> Final(t.moves[k].status) || Final(t.moves[j].status))
    && (!Final(t.moves[j].status) && Ended(t.moves[k].status) ==> t.moves[j].source != k)
  }

  ghost predicate Safe(t: Tenant) {
    && t.gated && Whole(t)
    && (forall k | k in t.moves :: MoveOk(t, k))
    && (forall k, j | k in t.moves && j in t.moves :: Apart(t, k, j))
  }

  lemma WriteKeeps(t: Tenant)
    requires Safe(t) && Enabled(t, Write)
    ensures Safe(Apply(t, Write))
  {
    var t' := Apply(t, Write);
    forall k | k in t'.moves ensures MoveOk(t', k) { assert MoveOk(t, k); }
    forall k, j | k in t'.moves && j in t'.moves ensures Apart(t', k, j) { assert Apart(t, k, j); }
  }

  lemma ReplicateKeeps(t: Tenant, target: Inst)
    requires Safe(t) && Enabled(t, Replicate(target))
    ensures Safe(Apply(t, Replicate(target)))
  {
    var t' := Apply(t, Replicate(target));
    assert MoveOk(t, target);
    forall k | k in t'.moves ensures MoveOk(t', k) { assert MoveOk(t, k); }
    forall k, j | k in t'.moves && j in t'.moves ensures Apart(t', k, j) { assert Apart(t, k, j); }
  }

  lemma StartKeeps(t: Tenant, target: Inst, strategy: Strategy)
    requires Safe(t) && Enabled(t, Start(target, strategy)) && Disciplined(t, Start(target, strategy))
    ensures Safe(Apply(t, Start(target, strategy)))
  {
    var t' := Apply(t, Start(target, strategy));
    forall k | k in t'.moves ensures MoveOk(t', k) { if k != target { assert MoveOk(t, k); } }
    forall k, j | k in t'.moves && j in t'.moves ensures Apart(t', k, j) {
      if k != target { assert MoveOk(t, k); }
    }
  }

  lemma ExpireKeeps(t: Tenant)
    requires Safe(t) && Enabled(t, Expire) && Disciplined(t, Expire)
    ensures Safe(Apply(t, Expire))
  {
    var t' := Apply(t, Expire);
    forall k | k in t'.moves ensures MoveOk(t', k) { assert MoveOk(t, k); }
    forall k, j | k in t'.moves && j in t'.moves ensures Apart(t', k, j) { assert Apart(t, k, j); }
  }

  // ------------------------------------------------------------------ the other records

  // Every record but the one reconciled is untouched, and being final it only asks that the tenant
  // does not stand on its target.
  lemma OthersKeep(t: Tenant, target: Inst, t': Tenant)
    requires Safe(t) && target in t.moves && t.clock <= t'.clock && t'.gated
    requires exists s :: t'.moves == t.moves[target := t.moves[target].(status := s)]
    requires Final(t.moves[target].status) ==> t'.home == t.home && t'.moves == t.moves
    requires !Final(t.moves[target].status) ==> t'.home == t.moves[target].source || t'.home == target
    requires Final(t.moves[target].status) ==>
               forall k | k in t.moves && !Final(t.moves[k].status) :: ActiveOk(t', k, t.moves[k])
    requires MoveOk(t', target) && Whole(t')
    ensures Safe(t')
  {
    forall k | k in t'.moves ensures MoveOk(t', k) {
      if k != target { assert MoveOk(t, k) && Apart(t, k, target); }
    }
    forall k, j | k in t'.moves && j in t'.moves ensures Apart(t', k, j) {
      assert Apart(t, k, j) && MoveOk(t', target) && MoveOk(t', k);
      assert k != target ==> Apart(t, k, target) && Apart(t, target, k);
      assert j != target ==> Apart(t, j, target) && Apart(t, target, j);
    }
  }

  // ------------------------------------------------------------------ a final record

  // It decides nothing new: at most it unfences its source again.
  lemma FinalDecision(m: Move, o: Observation, now: int, window: nat)
    requires StatusOk(m.status, now) && Final(m.status)
    ensures var d := DecisionOf(m, o, now);
            && !d.releaseQuiesce && !d.discardTarget && !d.dropSource && d.phase == m.status.phase
            && (d.serving == Source ==> Ended(m.status))
    ensures Record(m.status, o, now, window) == m.status
  {
    RecordKeeps(m.status, o, now, window, now);
  }

  lemma FenceKeepsActive(t: Tenant, at: Inst, k: Inst, now: int)
    requires k in t.moves && MoveOk(t, k) && !Final(t.moves[k].status) && t.clock <= now
    ensures ActiveOk(t.(clock := now), k, t.moves[k])
    ensures ActiveOk(t.(clock := now, copies := Fence(t.copies, at, false)), k, t.moves[k])
  {}

  lemma UnfenceKeeps(t: Tenant, target: Inst, t': Tenant)
    requires Safe(t) && target in t.moves && Final(t.moves[target].status) && t.clock <= t'.clock
    requires t' == t.(clock := t'.clock)
             || t' == t.(clock := t'.clock, copies := Fence(t.copies, t.moves[target].source, false))
    ensures Safe(t')
  {
    var m := t.moves[target];
    assert MoveOk(t, target);
    forall k | k in t.moves && !Final(t.moves[k].status) ensures ActiveOk(t', k, t.moves[k]) {
      assert MoveOk(t, k);
      FenceKeepsActive(t, m.source, k, t'.clock);
    }
    assert t'.moves == t.moves[target := m.(status := m.status)];
    OthersKeep(t, target, t');
  }

  lemma PerformNothing(t: Tenant, target: Inst, m: Move, d: Decision, x: Outcomes)
    requires !d.releaseQuiesce && !d.discardTarget && !d.dropSource
    requires d.serving == Source ==> t.home != target
    ensures var t' := Perform(t, target, m, d, x);
            t' == t || t' == t.(copies := Fence(t.copies, m.source, false))
  {
    var fenced := Fence(t.copies, m.source, false);
    assert fenced - {} - {} == fenced && t.copies - {} - {} == t.copies;
  }

  lemma FinalSafe(t: Tenant, k: Inst, m: Move, d: Decision, now: int, reach: Reach, x: Outcomes, t': Tenant)
    requires Safe(t) && k in t.moves && t.moves[k] == m && Final(m.status) && t.clock <= now
    requires !d.releaseQuiesce && !d.discardTarget && !d.dropSource && (d.serving == Source ==> Ended(m.status))
    requires t' == if reach == Died then t.(clock := now) else Perform(t.(clock := now), k, m, d, x)
    ensures Safe(t')
  {
    assert MoveOk(t, k);
    if reach != Died { PerformNothing(t.(clock := now), k, m, d, x); }
    UnfenceKeeps(t, k, t');
  }

  lemma FinalIs(t: Tenant, k: Inst, m: Move, o: Observation, now: int, window: nat, reach: Reach, x: Outcomes)
    requires k in t.moves && t.moves[k] == m && Terminal(m.status.phase) && Record(m.status, o, now, window) == m.status
    ensures Reconciled(t, k, o, now, window, reach, x) ==
              if reach == Died then t.(clock := now) else Perform(t.(clock := now), k, m, DecisionOf(m, o, now), x)
  {
    assert t.moves == t.moves[k := m.(status := m.status)];
  }

  lemma FinalReconcileKeeps(t: Tenant, k: Inst, o: Observation, now: int, window: nat, reach: Reach, x: Outcomes)
    requires Safe(t) && Enabled(t, Reconcile(k, o, now, window, reach, x)) && Final(t.moves[k].status)
    ensures Safe(Reconciled(t, k, o, now, window, reach, x))
  {
    var m := t.moves[k];
    assert MoveOk(t, k);
    FinalDecision(m, o, now, window);
    FinalIs(t, k, m, o, now, window, reach, x);
    FinalSafe(t, k, m, DecisionOf(m, o, now), now, reach, x, Reconciled(t, k, o, now, window, reach, x));
  }

  // ------------------------------------------------------------------ a move not yet finished

  // What a decision about it can be.
  ghost predicate UnfinishedStep(m: Move, o: Observation, d: Decision) {
    var phase := m.status.phase;
    && (d.serving == Target <==> d.phase == Completed)
    && !d.dropSource && d.phase != RolledBack
    && (d.discardTarget <==> d.phase == Failed || d.phase == Aborted)
    && (d.releaseQuiesce ==> Terminal(d.phase))
    && (d.phase == Completed ==> o.cutoverComplete && phase == Cutover)
    && (!Terminal(d.phase) && d.phase != phase ==>
          Index(d.phase, m.strategy) == Index(phase, m.strategy) + 1 && !o.abortRequested && !o.fault
          && (phase == Quiescing ==> o.drained))
    && (o.cutoverComplete && phase == Cutover && !o.abortRequested && !o.fault && !o.cutoverDeadlineExceeded ==>
          d.phase == Completed)
  }

  lemma UnfinishedSteps(m: Move, o: Observation, now: int)
    requires !Terminal(m.status.phase) && o.strategy == m.strategy
    ensures UnfinishedStep(m, o, DecisionOf(m, o, now))
  {
    var seen := Seen(m.status, o, now);
    ServingLaw(m.status.phase, seen);
    AdvanceLaw(m.status.phase, seen);
    EndingLaw(m.status.phase, seen);
    UnfinishedDecision(m.status.phase, seen);
  }

  // After the phase's effect the move stands where it stood, except that a cutover may have sent the
  // tenant to an equal copy and a quiesce may have closed the gate.
  lemma EffectKeeps(t: Tenant, k: Inst, m: Move, o: Observation, x: Outcomes)
    requires t.gated && Whole(t) && m.source != k
    requires !Terminal(m.status.phase) && ActiveOk(t, k, m) && Evidence(t, k, m, o, x)
    ensures var e := Effect(t, k, m, o, x);
            && Whole(e) && ActiveOk(e, k, m) && e.moves == t.moves && e.gated
            && e.home == Standing(t, k, x)
            && (m.status.phase == Cutover ==> e.held == t.held)
            && (m.status.phase == Quiescing && o.drained && !o.abortRequested ==> e.held)
  {
    assert m.status.phase == Cutover && k in t.copies ==> t.held;
  }

  lemma PerformKeepsData(e: Tenant, k: Inst, m: Move, o: Observation, d: Decision, x: Outcomes)
    requires Whole(e) && m.source != k && !Terminal(m.status.phase) && ActiveOk(e, k, m) && UnfinishedStep(m, o, d)
    requires d.phase == Completed ==> e.home == k
    requires d.serving == Source && HomeAfter(e, k, m, d, x) == k ==> !(d.discardTarget && x.discarded)
    ensures var p := Perform(e, k, m, d, x);
            && Whole(p) && p.moves == e.moves && p.clock == e.clock && p.gated == e.gated
            && p.copies.Keys <= e.copies.Keys && (d.discardTarget && x.discarded ==> k !in p.copies)
            && m.source in p.copies && p.copies[m.source].rows == e.copies[m.source].rows
            && (d.phase == Completed ==> p.home == k)
            && (d.phase != Completed ==> p.home == m.source || p.home == k == e.home)
            && (p.home == k ==> k in p.copies && p.copies[k].rows == e.copies[k].rows)
            && (!(d.releaseQuiesce && x.released) ==> p.held == e.held)
  {}

  // What a decision that was applied leaves behind.
  ghost predicate Left(e: Tenant, k: Inst, m: Move, d: Decision, reach: Reach, x: Outcomes, p: Tenant)
    requires m.source in e.copies
  {
    && m.source in p.copies && p.copies[m.source].rows == e.copies[m.source].rows && p.copies.Keys <= e.copies.Keys
    && (p.home == k ==> k in p.copies && k in e.copies && p.copies[k].rows == e.copies[k].rows)
    && (d.phase == Completed ==> p.home == k == e.home)
    && (d.phase != Completed ==> p.home == m.source || (p.home == k == e.home))
    && (!(d.releaseQuiesce && x.released) ==> p.held == e.held)
    && (d.serving == Source && p.home == k ==>
          !(d.releaseQuiesce && x.released) && !(Terminal(d.phase) && reach == Published))
    && (d.phase == Completed && reach != Published ==> !x.released)
    && (d.phase == Failed || d.phase == Aborted ==>
          reach == Published || !(d.releaseQuiesce && x.released) || k !in p.copies)
  }

  lemma PerformLeaves(t: Tenant, e: Tenant, k: Inst, m: Move, o: Observation, d: Decision, reach: Reach, x: Outcomes)
    requires Whole(e) && m.source != k && !Terminal(m.status.phase) && ActiveOk(e, k, m) && UnfinishedStep(m, o, d)
    requires d.phase == Completed ==> e.home == k
    requires reach != Died && e.home == Standing(t, k, x) && Orderly(t, k, m, d, reach, x)
    ensures var p := Perform(e, k, m, d, x);
            Whole(p) && Left(e, k, m, d, reach, x, p) && p.moves == e.moves && p.clock == e.clock && p.gated == e.gated
  {
    assert HomeAfter(t.(home := Standing(t, k, x)), k, m, d, x) == HomeAfter(e, k, m, d, x);
    PerformKeepsData(e, k, m, o, d, x);
  }

  // Puts the pieces together for the record reconciled.
  lemma UnfinishedOutcome(e: Tenant, p: Tenant, k: Inst, m: Move, o: Observation, d: Decision, reach: Reach,
                          s: Status, x: Outcomes)
    requires m.source != k && !Terminal(m.status.phase) && ActiveOk(e, k, m) && UnfinishedStep(m, o, d)
    requires m.status.phase == Quiescing && o.drained && !o.abortRequested ==> e.held
    requires StatusOk(s, p.clock) && p.clock == e.clock
    requires reach == Published ==> s.phase == d.phase && !s.dropped
    requires reach == Unpublished ==> s == m.status
    requires reach != Died && Left(e, k, m, d, reach, x, p)
    requires k in p.moves && p.moves[k] == m.(status := s)
    ensures MoveOk(p, k)
  {}

  lemma UnfinishedRecord(m: Move, o: Observation, now: int, window: nat, reach: Reach)
    requires StatusOk(m.status, now) && !Terminal(m.status.phase)
    ensures var s := StatusAfter(m, o, now, window, reach);
            var d := DecisionOf(m, o, now);
            StatusOk(s, now) && (reach == Published ==> s.phase == d.phase && !s.dropped)
  {
    UnfinishedDecision(m.status.phase, Seen(m.status, o, now));
    RecordKeeps(m.status, o, now, window, now);
  }

  lemma UnfinishedSafe(t: Tenant, e: Tenant, k: Inst, m: Move, o: Observation, d: Decision, reach: Reach, s: Status,
                       x: Outcomes)
    requires Safe(t) && k in t.moves && t.moves[k] == m && !Terminal(m.status.phase) && t.clock <= e.clock
    requires e.gated && Whole(e) && e.moves == t.moves && ActiveOk(e, k, m) && e.home == Standing(t, k, x)
    requires m.status.phase == Quiescing && o.drained && !o.abortRequested ==> e.held
    requires UnfinishedStep(m, o, d) && (d.phase == Completed ==> e.home == k)
    requires reach == Died || Orderly(t, k, m, d, reach, x)
    requires StatusOk(s, e.clock)
    requires reach == Published ==> s.phase == d.phase && !s.dropped
    requires reach != Published ==> s == m.status
    ensures Safe((if reach == Died then e else Perform(e, k, m, d, x)).(moves := t.moves[k := m.(status := s)]))
  {
    assert MoveOk(t, k) && !Final(m.status);
    var t' := (if reach == Died then e else Perform(e, k, m, d, x)).(moves := t.moves[k := m.(status := s)]);
    if reach != Died {
      PerformLeaves(t, e, k, m, o, d, reach, x);
      UnfinishedOutcome(e, t', k, m, o, d, reach, s, x);
    }
    OthersKeep(t, k, t');
  }

  lemma UnfinishedReconcileKeeps(t: Tenant, k: Inst, o: Observation, now: int, window: nat, reach: Reach, x: Outcomes)
    requires Safe(t) && Enabled(t, Reconcile(k, o, now, window, reach, x))
    requires Disciplined(t, Reconcile(k, o, now, window, reach, x))
    requires !Terminal(t.moves[k].status.phase)
    ensures Safe(Reconciled(t, k, o, now, window, reach, x))
  {
    var m := t.moves[k];
    assert MoveOk(t, k) && !Final(m.status);
    EffectKeeps(t, k, m, o, x);
    UnfinishedSteps(m, o, now);
    UnfinishedRecord(m, o, now, window, reach);
    UnfinishedSafe(t, Effect(t, k, m, o, x).(clock := now), k, m, o, DecisionOf(m, o, now), reach,
                   StatusAfter(m, o, now, window, reach), x);
  }

  // ------------------------------------------------------------------ a move inside its rollback window

  // What a decision about it can be.
  ghost predicate CompletedStep(m: Move, d: Decision, now: int) {
    && (d.phase == RolledBack || d.phase == Completed)
    && (d.serving == Source <==> d.phase == RolledBack) && (d.discardTarget <==> d.phase == RolledBack)
    && (d.phase == RolledBack ==> !WindowClosed(m.status, now) && !d.dropSource)
    && (d.dropSource <==> WindowClosed(m.status, now))
  }

  lemma CompletedSafe(t: Tenant, k: Inst, m: Move, d: Decision, now: int, reach: Reach, s: Status, x: Outcomes)
    requires Safe(t) && k in t.moves && t.moves[k] == m && t.clock <= now
    requires m.status.phase == Completed && !m.status.dropped
    requires CompletedStep(m, d, now) && (reach == Died || Orderly(t, k, m, d, reach, x)) && x.cutover == Nothing
    requires StatusOk(s, now)
    requires reach == Published ==> s.phase == d.phase && (s.phase == Completed ==> s.deadline == m.status.deadline)
    requires reach != Published ==> s == m.status
    ensures var e := t.(clock := now);
            Safe((if reach == Died then e else Perform(e, k, m, d, x)).(moves := t.moves[k := m.(status := s)]))
  {
    assert MoveOk(t, k);
    var e := t.(clock := now);
    OthersKeep(t, k, (if reach == Died then e else Perform(e, k, m, d, x)).(moves := t.moves[k := m.(status := s)]));
  }

  lemma CompletedSteps(m: Move, o: Observation, now: int)
    requires m.status.phase == Completed && !m.status.dropped
    ensures CompletedStep(m, DecisionOf(m, o, now), now)
  {
    assert DecisionOf(m, o, now) == DecideCompleted(Seen(m.status, o, now));
  }

  lemma CompletedRecord(m: Move, o: Observation, now: int, window: nat, reach: Reach)
    requires StatusOk(m.status, now) && m.status.phase == Completed
    ensures var s := StatusAfter(m, o, now, window, reach);
            && StatusOk(s, now)
            && (reach == Published ==>
                  s.phase == DecisionOf(m, o, now).phase && (s.phase == Completed ==> s.deadline == m.status.deadline))
  {
    RecordKeeps(m.status, o, now, window, now);
    assert Record(m.status, o, now, window).phase == DecisionOf(m, o, now).phase;
  }

  lemma CompletedReconcileKeeps(t: Tenant, k: Inst, o: Observation, now: int, window: nat, reach: Reach, x: Outcomes)
    requires Safe(t) && Enabled(t, Reconcile(k, o, now, window, reach, x))
    requires Disciplined(t, Reconcile(k, o, now, window, reach, x))
    requires t.moves[k].status.phase == Completed && !t.moves[k].status.dropped
    ensures Safe(Reconciled(t, k, o, now, window, reach, x))
  {
    var m := t.moves[k];
    assert MoveOk(t, k);
    CompletedSteps(m, o, now);
    CompletedRecord(m, o, now, window, reach);
    assert Effect(t, k, m, o, x) == t;
    CompletedSafe(t, k, m, DecisionOf(m, o, now), now, reach, StatusAfter(m, o, now, window, reach), x);
  }

  // ------------------------------------------------------------------ whole runs

  lemma StepKeeps(t: Tenant, step: Step)
    requires Safe(t) && Enabled(t, step) && Disciplined(t, step)
    ensures Safe(Apply(t, step))
  {
    match step
    case Write => WriteKeeps(t);
    case Replicate(target) => ReplicateKeeps(t, target);
    case Expire => ExpireKeeps(t);
    case Start(target, strategy) => StartKeeps(t, target, strategy);
    case Reconcile(target, o, now, window, reach, x) =>
      var s := t.moves[target].status;
      if Final(s) { FinalReconcileKeeps(t, target, o, now, window, reach, x); }
      else if s.phase == Completed { CompletedReconcileKeeps(t, target, o, now, window, reach, x); }
      else { UnfinishedReconcileKeeps(t, target, o, now, window, reach, x); }
  }

  ghost predicate DisciplinedRun(t: Tenant, steps: seq<Step>)
    decreases |steps|
  {
    steps == [] || (Enabled(t, steps[0]) && Disciplined(t, steps[0]) && DisciplinedRun(Apply(t, steps[0]), steps[1..]))
  }

  // A tenant newly placed on one instance of a pool with a gate, with nothing moving.
  predicate Placed(t: Tenant) { t.gated && t.moves == map[] && !t.held && Whole(t) }

  // In every disciplined run, whatever dies or fails within it, the tenant's clients are always sent
  // to an instance that holds its database with every committed write in it.
  lemma {:induction false} NoCommittedWriteIsLost(t: Tenant, steps: seq<Step>, t': Tenant)
    requires (Placed(t) || Safe(t)) && Reaches(t, steps, t') && DisciplinedRun(t, steps)
    ensures Whole(t') && AlwaysWhole(t, steps)
    decreases |steps|
  {
    if steps != [] {
      StepKeeps(t, steps[0]);
      NoCommittedWriteIsLost(Apply(t, steps[0]), steps[1..], t');
    }
  }

  // ------------------------------------------------------------------ effect by effect

  lemma EffectChanges(t: Tenant, k: Inst, m: Move, o: Observation, x: Outcomes, i: Inst)
    requires x.cutover != Nothing ==> m.status.phase == Cutover && !o.abortRequested
    ensures var e := Effect(t, k, m, o, x);
            && (e.held <==> t.held || (m.status.phase == Quiescing && !o.abortRequested && x.quiesced))
            && (i in e.copies <==> i in t.copies || (i == k && m.status.phase == Provisioning && !o.abortRequested))
            && (i in e.copies ==>
                  && e.copies[i].rows == (if i in t.copies then t.copies[i].rows else 0)
                  && (e.copies[i].fenced <==>
                        i in t.copies && (t.copies[i].fenced || (i == m.source && x.cutover != Nothing))))
  {}

  lemma DecisionChanges(e: Tenant, k: Inst, m: Move, d: Decision, x: Outcomes, i: Inst)
    ensures var t' := Perform(e, k, m, d, x);
            && (t'.held <==> e.held && !(d.releaseQuiesce && x.released))
            && (i in t'.copies <==>
                  && i in e.copies && !(i == k && d.discardTarget && x.discarded)
                  && !(i == m.source && d.dropSource && x.dropped))
            && (i in t'.copies ==>
                  && t'.copies[i].rows == e.copies[i].rows
                  && (t'.copies[i].fenced <==>
                        e.copies[i].fenced && !(i == m.source && d.serving == Source && x.restore != Nothing)))
  {}

  // What a reconcile does, effect by effect.  The clients are queued after it exactly when they were, or its
  // quiesce went through, and its release did not.  A copy is there after it exactly when it was, or was
  // provisioned, and was neither discarded nor dropped; it has the rows it had, or none.  It is fenced after it
  // exactly when it was fenced, or is the source the cutover fenced, and is not the source the restore freed.
  lemma ReconcileChanges(t: Tenant, k: Inst, o: Observation, now: int, window: nat, reach: Reach, x: Outcomes, i: Inst,
                         d: Decision)
    requires Enabled(t, Reconcile(k, o, now, window, reach, x)) && d == DecisionOf(t.moves[k], o, now)
    ensures var t', m := Apply(t, Reconcile(k, o, now, window, reach, x)), t.moves[k];
            && (t'.held <==>
                  && (t.held || (m.status.phase == Quiescing && !o.abortRequested && x.quiesced))
                  && !(reach != Died && d.releaseQuiesce && x.released))
            && (i in t'.copies <==>
                  && (i in t.copies || (i == k && m.status.phase == Provisioning && !o.abortRequested))
                  && !(i == k && reach != Died && d.discardTarget && x.discarded)
                  && !(i == m.source && reach != Died && d.dropSource && x.dropped))
            && (i in t'.copies ==>
                  && t'.copies[i].rows == (if i in t.copies then t.copies[i].rows else 0)
                  && (t'.copies[i].fenced <==>
                        && i in t.copies && (t.copies[i].fenced || (i == m.source && x.cutover != Nothing))
                        && !(i == m.source && reach != Died && d.serving == Source && x.restore != Nothing)))
  {
    var m := t.moves[k];
    EffectChanges(t, k, m, o, x, i);
    DecisionChanges(Effect(t, k, m, o, x).(clock := now), k, m, d, x, i);
  }

  // Nobody writes past a fence, or past a gate that holds: until some migration is reconciled, or the hold
  // runs out, what is committed stays as it is.
  lemma {:induction false} ShutOutWritesNothing(t: Tenant, steps: seq<Step>, t': Tenant)
    requires Reaches(t, steps, t') && forall i | 0 <= i < |steps| :: !steps[i].Reconcile?
    requires || (t.home in t.copies && t.copies[t.home].fenced)
             || (t.gated && t.held && forall i | 0 <= i < |steps| :: steps[i] != Expire)
    ensures t'.committed == t.committed && t'.home == t.home
    ensures t.home in t.copies && t.copies[t.home].fenced ==>
              t'.home in t'.copies && t'.copies[t'.home] == t.copies[t.home]
    decreases |steps|
  {
    if steps != [] { ShutOutWritesNothing(Apply(t, steps[0]), steps[1..], t'); }
  }
}
