/** One tenant's data while migrations move it: where its clients are sent, which instances hold a
    copy of its database, and which of the writes it committed each copy carries.

    A reconcile can die after its phase's effect, and each effect of its decision can fail on its own
    while the rest go on and the result is published.  Records are kept by target, because the pool
    names a migration after the tenant and the target. */
module LiveData {
  import opened Common
  import opened Migration

  type Inst = string

  datatype Copy = Copy(rows: nat, fenced: bool)

  datatype Move = Move(source: Inst, strategy: Strategy, status: Status)

  // `gated`: the pool has a proxy fleet, whose gate queues the clients of a tenant that is `held`.
  // `committed` is history: the writes the tenant was told are durable, less those an explicit
  // rollback gives up.
  datatype Tenant = Tenant(
    home: Inst, copies: map<Inst, Copy>, gated: bool, held: bool, moves: map<Inst, Move>, committed: nat, clock: int)

  // How far one reconcile got.
  datatype Reach = Died | Unpublished | Published

  // How far a pair of calls got: the fence on the source, then the routing.
  datatype Extent = Nothing | FenceOnly | FenceAndRoute

  // What became of each effect: the quiesce and the cutover of the phase, and the restore, the
  // release, the discard and the drop of the decision.
  datatype Outcomes = Outcomes(
    quiesced: bool, cutover: Extent, restore: Extent, released: bool, discarded: bool, dropped: bool)

  datatype Step =
    | Write
    | Start(target: Inst, strategy: Strategy)
    | Replicate(target: Inst)
    | Expire
    | Reconcile(target: Inst, o: Observation, now: int, window: nat, reach: Reach, x: Outcomes)

  // Nothing further will ever be decided about it: it ended on the source, or its source is gone.
  predicate Final(s: Status) {
    s.phase == Failed || s.phase == Aborted || s.phase == RolledBack || s.dropped
  }

  predicate OwnsRouting(t: Tenant, m: Move, target: Inst) { t.home == m.source || t.home == target }

  // What the verifier saw before the cutover touched anything.  Only a closed gate keeps the two
  // copies equal from then on.
  predicate Verified(t: Tenant, target: Inst, m: Move) {
    && OwnsRouting(t, m, target) && m.source in t.copies && target in t.copies && !t.copies[target].fenced
    && (t.gated && t.held ==> t.copies[m.source].rows == t.copies[target].rows)
  }

  // What the engine's evidence entails.  Nothing can be built in a database that refuses
  // connections; a drain is reported only behind a quiesce that went through; a cutover is reported
  // complete only when both its calls did, and one that stops half way is a fault.
  predicate Evidence(t: Tenant, target: Inst, m: Move, o: Observation, x: Outcomes) {
    && o.strategy == m.strategy
    && (m.status.phase == Preflight ==> !o.fault)
    && ((if o.strategy == Online then o.provisioned else o.copyComplete) ==>
          target in t.copies ==> !t.copies[target].fenced)
    && (m.status.phase == Quiescing && o.drained ==> x.quiesced)
    && (x.cutover != Nothing ==> m.status.phase == Cutover && !o.abortRequested && Verified(t, target, m))
    && (o.cutoverComplete ==> x.cutover == FenceAndRoute && !o.fault && !o.cutoverDeadlineExceeded)
    && (x.cutover != Nothing && !o.cutoverComplete ==> o.fault)
  }

  predicate Enabled(t: Tenant, step: Step) {
    match step
    case Write => !(t.gated && t.held) && t.home in t.copies && !t.copies[t.home].fenced
    case Start(target, _) => target != t.home && (target in t.moves ==> Terminal(t.moves[target].status.phase))
    case Replicate(target) =>
      && target in t.moves && !Terminal(t.moves[target].status.phase) && t.home == t.moves[target].source
      && target in t.copies && !t.copies[target].fenced && t.home in t.copies
    // A hold nobody renews runs out: an operator that is down for the length of its lease.
    case Expire => t.gated && t.held
    case Reconcile(target, o, now, _, _, x) =>
      && target in t.moves && t.clock <= now && Evidence(t, target, t.moves[target], o, x)
  }

  function Fence(copies: map<Inst, Copy>, at: Inst, fenced: bool): map<Inst, Copy> {
    if at in copies then copies[at := copies[at].(fenced := fenced)] else copies
  }

  // The effect of the phase the migration is in.  An abort request and a finished phase have none.
  function Effect(t: Tenant, target: Inst, m: Move, o: Observation, x: Outcomes): Tenant {
    if o.abortRequested || Terminal(m.status.phase) then t
    else match m.status.phase
      case Provisioning => if target in t.copies then t else t.(copies := t.copies[target := Copy(0, false)])
      case Quiescing => t.(held := t.held || x.quiesced)
      case Cutover =>
        if x.cutover == Nothing then t
        else t.(copies := Fence(t.copies, m.source, true),
                home := if x.cutover == FenceAndRoute then target else t.home)
      case _ => t
  }

  // The restore reached the routing, and the routing was this migration's to write.
  predicate Returns(t: Tenant, target: Inst, m: Move, d: Decision, x: Outcomes) {
    d.serving == Source && x.restore == FenceAndRoute && OwnsRouting(t, m, target)
  }

  function HomeAfter(t: Tenant, target: Inst, m: Move, d: Decision, x: Outcomes): Inst {
    if Returns(t, target, m, d, x) then m.source else t.home
  }

  // The effects a decision calls for: routing first, then the gate, then the physical copies.  None
  // waits for another.
  function Perform(t: Tenant, target: Inst, m: Move, d: Decision, x: Outcomes): Tenant {
    var home := HomeAfter(t, target, m, d, x);
    t.(home := home,
       held := t.held && !(d.releaseQuiesce && x.released),
       committed := if d.phase == RolledBack && home != t.home && m.source in t.copies then t.copies[m.source].rows
                    else t.committed,
       copies := (if d.serving == Source && x.restore != Nothing then Fence(t.copies, m.source, false) else t.copies)
                 - (if d.discardTarget && x.discarded then {target} else {})
                 - (if d.dropSource && x.dropped then {m.source} else {}))
  }

  function DecisionOf(m: Move, o: Observation, now: int): Decision {
    Decide(m.status.phase, Seen(m.status, o, now))
  }

  function StatusAfter(m: Move, o: Observation, now: int, window: nat, reach: Reach): Status {
    if reach == Published then Record(m.status, o, now, window) else m.status
  }

  // A reconcile is its phase's effect, then its decision's if it got that far, then its record.
  function Reconciled(t: Tenant, k: Inst, o: Observation, now: int, window: nat, reach: Reach, x: Outcomes): Tenant
    requires k in t.moves
  {
    var m := t.moves[k];
    var e := Effect(t, k, m, o, x).(clock := now);
    (if reach == Died then e else Perform(e, k, m, DecisionOf(m, o, now), x))
    .(moves := t.moves[k := m.(status := StatusAfter(m, o, now, window, reach))])
  }

  function Apply(t: Tenant, step: Step): Tenant
    requires Enabled(t, step)
  {
    match step
    case Write =>
      t.(committed := t.committed + 1,
         copies := t.copies[t.home := t.copies[t.home].(rows := t.copies[t.home].rows + 1)])
    case Start(target, strategy) => t.(moves := t.moves[target := Move(t.home, strategy, Admitted)])
    case Replicate(target) =>
      t.(copies := t.copies[target := t.copies[target].(rows := t.copies[t.home].rows)])
    case Expire => t.(held := false)
    case Reconcile(target, o, now, window, reach, x) => Reconciled(t, target, o, now, window, reach, x)
  }

  ghost predicate Reaches(t: Tenant, steps: seq<Step>, t': Tenant)
    decreases |steps|
  {
    if steps == [] then t' == t
    else Enabled(t, steps[0]) && Reaches(Apply(t, steps[0]), steps[1..], t')
  }

  // The tenant's database exists where its clients are sent.
  predicate Served(t: Tenant) { t.home in t.copies }

  // And holds every write the tenant was told is durable.
  predicate Whole(t: Tenant) { Served(t) && t.copies[t.home].rows == t.committed }

  // ------------------------------------------------------------------ one reconcile, exactly

  lemma CutoverCompletes(m: Move, o: Observation, now: int)
    requires m.status.phase == Cutover && o.strategy == m.strategy
    requires !o.abortRequested && !o.fault && o.cutoverComplete && !o.cutoverDeadlineExceeded
    ensures DecisionOf(m, o, now).phase == Completed
    ensures DecisionOf(m, o, now).serving == Target && !DecisionOf(m, o, now).dropSource
    ensures !DecisionOf(m, o, now).discardTarget
  {}

  // Where the tenant stands once the phase's own effect is done.
  function Standing(t: Tenant, target: Inst, x: Outcomes): Inst {
    if x.cutover == FenceAndRoute then target else t.home
  }

  lemma EffectStands(t: Tenant, target: Inst, m: Move, o: Observation, x: Outcomes)
    requires Evidence(t, target, m, o, x) && m.source != target && Served(t)
    ensures var e := Effect(t, target, m, o, x);
            && e.home == Standing(t, target, x) && e.committed == t.committed && Served(e)
            && (forall i | i in t.copies :: i in e.copies && e.copies[i].rows == t.copies[i].rows)
            && (m.source in e.copies <==> m.source in t.copies)
  {}

  // Taking the live database away: the copy the tenant ends up on is discarded or dropped, or it is
  // sent back to a source that holds none.
  predicate Unserves(t: Tenant, target: Inst, m: Move, d: Decision, x: Outcomes) {
    var e := t.(home := Standing(t, target, x));
    var home := HomeAfter(e, target, m, d, x);
    || (d.discardTarget && x.discarded && home == target)
    || (d.dropSource && x.dropped && home == m.source)
    || (home == m.source && e.home == target && m.source !in t.copies)
  }

  // Leaving committed writes behind: the copy the tenant ends up on lacks some, and no rollback has
  // given those up.
  predicate Forgets(t: Tenant, target: Inst, m: Move, d: Decision, x: Outcomes) {
    var e := t.(home := Standing(t, target, x));
    var home := HomeAfter(e, target, m, d, x);
    home in t.copies && t.copies[home].rows != t.committed && !(d.phase == RolledBack && home != e.home)
  }

  // A tenant that has lost nothing yet does so in two ways: the cutover takes it to a target that is
  // behind, or a restore that is no rollback takes it back from the target to a source that is.
  lemma ForgetsTwoWays(t: Tenant, target: Inst, m: Move, d: Decision, x: Outcomes)
    requires m.source != target && Whole(t) && OwnsOrStays(t, target, m, x)
    requires d.phase == RolledBack ==> x.cutover == Nothing
    ensures Forgets(t, target, m, d, x) <==>
              var sentBack := Returns(t.(home := Standing(t, target, x)), target, m, d, x);
              || (x.cutover == FenceAndRoute && !sentBack && t.home == m.source && t.copies[target].rows != t.committed)
              || (sentBack && t.home == target && d.phase != RolledBack
                  && m.source in t.copies && t.copies[m.source].rows != t.committed)
  {}

  lemma PerformExactly(t: Tenant, e: Tenant, target: Inst, m: Move, d: Decision, x: Outcomes)
    requires m.source != target && Served(t) && Served(e) && OwnsOrStays(t, target, m, x)
    requires e.home == Standing(t, target, x) && e.committed == t.committed
    requires forall i | i in t.copies :: i in e.copies && e.copies[i].rows == t.copies[i].rows
    requires m.source in e.copies <==> m.source in t.copies
    requires d.discardTarget || d.phase == RolledBack ==> d.serving == Source && !d.dropSource
    requires d.phase == RolledBack ==> x.cutover == Nothing
    ensures Served(Perform(e, target, m, d, x)) <==> !Unserves(t, target, m, d, x)
    ensures Whole(Perform(e, target, m, d, x)) <==> !Unserves(t, target, m, d, x) && !Forgets(t, target, m, d, x)
  {}

  predicate OwnsOrStays(t: Tenant, target: Inst, m: Move, x: Outcomes) {
    x.cutover == FenceAndRoute ==> OwnsRouting(t, m, target) && target in t.copies
  }

  // The decision as it was applied: a pass that died applied none.
  function AppliedDecision(m: Move, o: Observation, now: int, reach: Reach): Decision {
    if reach == Died then Decision(m.status.phase, Waiting, Target, false, false, false, false, false)
    else DecisionOf(m, o, now)
  }

  lemma RollbackIsWhole(m: Move, o: Observation, now: int, t: Tenant, target: Inst, x: Outcomes)
    requires Evidence(t, target, m, o, x)
    ensures var d := DecisionOf(m, o, now);
            && (d.discardTarget || d.phase == RolledBack ==> d.serving == Source && !d.dropSource)
            && (d.phase == RolledBack ==> x.cutover == Nothing)
  {
    var seen := Seen(m.status, o, now);
    ServingLaw(m.status.phase, seen);
    EndingLaw(m.status.phase, seen);
    if !Terminal(m.status.phase) { UnfinishedDecision(m.status.phase, seen); }
  }

  // What a step takes away, judged on the state before it and on which of its effects go through.
  predicate Loses(t: Tenant, step: Step)
    requires Enabled(t, step)
  {
    match step
    case Reconcile(target, o, now, _, reach, x) =>
      var m := t.moves[target];
      var d := AppliedDecision(m, o, now, reach);
      Unserves(t, target, m, d, x) || Forgets(t, target, m, d, x)
    case _ => false
  }

  // A reconcile takes the live database away exactly when it discards or drops the copy the tenant is
  // left on, or sends it back to a source with no copy; and it leaves the tenant with every committed
  // write exactly when it does not, and the copy the tenant is left on lacks none that no rollback gave up.
  lemma ReconcileServesExactly(t: Tenant, target: Inst, o: Observation, now: int, window: nat, reach: Reach,
                               x: Outcomes)
    requires Enabled(t, Reconcile(target, o, now, window, reach, x))
    requires Served(t) && t.moves[target].source != target
    ensures var m := t.moves[target];
            var d := AppliedDecision(m, o, now, reach);
            var t' := Apply(t, Reconcile(target, o, now, window, reach, x));
            && (Served(t') <==> !Unserves(t, target, m, d, x))
            && (Whole(t') <==> !Unserves(t, target, m, d, x) && !Forgets(t, target, m, d, x))
  {
    var m := t.moves[target];
    EffectStands(t, target, m, o, x);
    RollbackIsWhole(m, o, now, t, target, x);
    var e := Effect(t, target, m, o, x).(clock := now);
    if reach == Died {
      DiedExactly(t, e, target, m, AppliedDecision(m, o, now, reach), x);
    } else {
      PerformExactly(t, e, target, m, DecisionOf(m, o, now), x);
    }
  }

  lemma DiedExactly(t: Tenant, e: Tenant, target: Inst, m: Move, d: Decision, x: Outcomes)
    requires m.source != target && Served(t) && Served(e) && OwnsOrStays(t, target, m, x)
    requires e.home == Standing(t, target, x) && e.committed == t.committed
    requires forall i | i in t.copies :: i in e.copies && e.copies[i].rows == t.copies[i].rows
    requires d.serving == Target && !d.discardTarget && !d.dropSource
    ensures !Unserves(t, target, m, d, x) && (Whole(e) <==> !Forgets(t, target, m, d, x))
  {}

  // ------------------------------------------------------------------ whole runs, exactly

  // No migration is from an instance to itself.
  ghost predicate Distinct(t: Tenant) { forall k | k in t.moves :: t.moves[k].source != k }

  lemma StepExactly(t: Tenant, step: Step)
    requires Whole(t) && Distinct(t) && Enabled(t, step)
    ensures Distinct(Apply(t, step))
    ensures Whole(Apply(t, step)) <==> !Loses(t, step)
  {
    match step
    case Reconcile(target, o, now, window, reach, x) => ReconcileServesExactly(t, target, o, now, window, reach, x);
    case _ =>
  }

  ghost predicate AlwaysWhole(t: Tenant, steps: seq<Step>)
    decreases |steps|
  {
    Whole(t) && (steps != [] ==> Enabled(t, steps[0]) && AlwaysWhole(Apply(t, steps[0]), steps[1..]))
  }

  ghost predicate NeverLoses(t: Tenant, steps: seq<Step>)
    decreases |steps|
  {
    steps != [] ==> Enabled(t, steps[0]) && !Loses(t, steps[0]) && NeverLoses(Apply(t, steps[0]), steps[1..])
  }

  // Over every run, gate or no gate, whatever fails: the tenant is served with every committed write
  // throughout if and only if no step of the run is one of those.
  lemma {:induction false} RunKeepsWritesExactly(t: Tenant, steps: seq<Step>, t': Tenant)
    requires Whole(t) && Distinct(t) && Reaches(t, steps, t')
    ensures AlwaysWhole(t, steps) <==> NeverLoses(t, steps)
    decreases |steps|
  {
    if steps != [] {
      StepExactly(t, steps[0]);
      if Whole(Apply(t, steps[0])) { RunKeepsWritesExactly(Apply(t, steps[0]), steps[1..], t'); }
      else { assert !AlwaysWhole(Apply(t, steps[0]), steps[1..]); }
    }
  }
}
