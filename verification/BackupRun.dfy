/** The backup protocol: the instance controller elects, the elected member's agent claims and takes
    the backup, and the backup controller fails one whose taker is gone. */
module BackupRun {
  import opened Common
  import opened Backup

  // A member's agent session as the instance publishes it; zero is a member that is not reporting.
  datatype Report = Report(member: string, session: nat)

  datatype Election = Election(name: string, member: string)

  // What an agent process is doing in memory.
  datatype Taking = Taking(session: nat, name: string)

  datatype State = State(
    backups: map<string, Backup>, pending: Option<Election>, reports: seq<Report>,
    live: map<string, nat>, taking: map<string, Taking>, nextSession: nat)

  // ------------------------------------------------------------------ the backup controller

  function FirstReport(reports: seq<Report>, member: string): nat {
    if reports == [] then 0
    else if reports[0].member == member then reports[0].session
    else FirstReport(reports[1..], member)
  }

  // The member that claimed it reports a session, and not the one that claimed it.
  predicate Orphaned(b: Backup, reports: seq<Report>) {
    b.phase == Running && b.session != 0
    && FirstReport(reports, b.member) != 0 && FirstReport(reports, b.member) != b.session
  }

  // The status step: fail an orphan, and otherwise carry the phase the member wrote.
  function Reconciled(b: Backup, reports: seq<Report>): Backup {
    b.(phase := if Orphaned(b, reports) then Failed else if b.phase == Unset then Pending else b.phase)
  }

  method OrphanIfNobodyIsTakingIt(b: Backup, instance: Option<seq<Report>>) returns (b': Backup)
    ensures instance.None? ==> b' == b
    ensures instance.Some? ==> b' == if Orphaned(b, instance.value) then b.(phase := Failed) else b
  {
    b' := b;
    if b.phase != Running || b.session == 0 { return; }
    if instance.None? { return; }
    var reports := instance.value;
    for i := 0 to |reports|
      invariant FirstReport(reports, b.member) == FirstReport(reports[i..], b.member)
    {
      assert reports[i..][1..] == reports[i + 1..];
      if reports[i].member != b.member { continue; }
      if reports[i].session == 0 || reports[i].session == b.session { return; }
      b' := b.(phase := Failed);
      return;
    }
  }

  method ReconcileStatus(b: Backup, instance: Option<seq<Report>>) returns (b': Backup)
    ensures b' == Reconciled(b, if instance.Some? then instance.value else [])
    ensures b.phase == Completed || b.phase == Failed ==> b' == b
    ensures b'.phase != Unset && (b'.phase == Running ==> b.phase == Running)
  {
    b' := OrphanIfNobodyIsTakingIt(b, instance);
    if b'.phase == Unset { b' := b'.(phase := Pending); }
  }

  // ------------------------------------------------------------------ the steps

  datatype Step =
    | Create(b: Backup)
    | Delete(name: string)
    | Elect(listed: seq<Backup>, next: Option<Backup>, archiving: bool, primary: string)
    | Claim(member: string)
    | CannotClaim(member: string)
    | Finish(member: string, completed: bool)
    | Reconcile(name: string)
    | Restart(member: string)
    | Publish(reports: seq<Report>)

  ghost predicate Lists(backups: map<string, Backup>, listed: seq<Backup>) {
    && NamesDistinct(listed)
    && (forall b | b in listed :: b.name in backups && backups[b.name] == b)
    && (forall n | n in backups :: backups[n] in listed)
  }

  // A member's report is a session it has or had.
  ghost predicate Reportable(s: State, reports: seq<Report>) {
    forall r | r in reports :: r.session < s.nextSession
  }

  // The agent of this member may act on the election it was given.
  predicate MayTake(s: State, member: string) {
    && s.pending.Some? && s.pending.value.member == member && member in s.live && member !in s.taking
    && s.pending.value.name in s.backups && Waiting(s.backups[s.pending.value.name])
  }

  ghost predicate Enabled(s: State, step: Step) {
    match step
    case Create(b) => b.name !in s.backups && Waiting(b)
    case Delete(name) => name in s.backups
    case Elect(listed, next, _, _) => Lists(s.backups, listed) && Elected(listed, next)
    case Claim(member) => MayTake(s, member)
    case CannotClaim(member) => MayTake(s, member)
    case Finish(member, _) => member in s.taking
    case Reconcile(name) => name in s.backups
    case Restart(member) => true
    case Publish(reports) => Reportable(s, reports)
  }

  function Apply(s: State, step: Step): State {
    match step
    case Create(b) => s.(backups := s.backups[b.name := b])
    case Delete(name) => s.(backups := s.backups - {name})
    case Elect(_, next, archiving, primary) =>
      s.(pending := if archiving && next.Some? && primary != "" then Some(Election(next.value.name, primary)) else None)
    case Claim(member) =>
      if !MayTake(s, member) then s
      else
        var name := s.pending.value.name;
        var claimed := s.backups[name].(phase := Running, member := member, session := s.live[member]);
        s.(backups := s.backups[name := claimed],
           taking := s.taking[member := Taking(s.live[member], name)])
    // No repository to write to: failed without ever running.
    case CannotClaim(member) =>
      if !MayTake(s, member) then s
      else
        var name := s.pending.value.name;
        s.(backups := s.backups[name := s.backups[name].(phase := Failed)])
    // The agent writes how it ended on whatever the object is by then.
    case Finish(member, completed) =>
      if member !in s.taking then s
      else
        var name := s.taking[member].name;
        var done := s.(taking := s.taking - {member});
        if name !in s.backups then done
        else done.(backups := s.backups[name := s.backups[name].(phase := if completed then Completed else Failed)])
    case Reconcile(name) =>
      if name !in s.backups then s
      else s.(backups := s.backups[name := Reconciled(s.backups[name], s.reports)])
    // A restarted process has a new session and no memory of what it was taking.
    case Restart(member) =>
      s.(live := s.live[member := s.nextSession], taking := s.taking - {member}, nextSession := s.nextSession + 1)
    case Publish(reports) => s.(reports := reports)
  }

  ghost predicate Reaches(s: State, steps: seq<Step>, s': State)
    decreases |steps|
  {
    if steps == [] then s' == s
    else Enabled(s, steps[0]) && Reaches(Apply(s, steps[0]), steps[1..], s')
  }

  ghost predicate Begins(s: State) {
    s == State(map[], None, [], map[], map[], 1)
  }

  // The instance controller's election: whichever backup is next in line, if archiving works and some
  // member is primary.
  method ReconcileBackups(s: State, listed: seq<Backup>, archiving: bool, primary: string)
    returns (pending: Option<Election>)
    requires Lists(s.backups, listed)
    ensures exists next :: Enabled(s, Elect(listed, next, archiving, primary))
              && pending == Apply(s, Elect(listed, next, archiving, primary)).pending
    ensures pending.Some? <==>
              archiving && primary != "" && exists b :: b in listed && (b.phase == Running || Waiting(b))
    ensures pending.Some? ==> pending.value.member == primary && pending.value.name in s.backups
  {
    var next := OldestPending(listed);
    assert Enabled(s, Elect(listed, next, archiving, primary));
    assert next.Some? ==> next.value in listed;
    if !archiving || next.None? || primary == "" { return None; }
    return Some(Election(next.value.name, primary));
  }

  // An election names a backup exactly when archiving works, some member is primary and some backup is
  // running or waiting.  It names the primary, and a running backup if there is one, else a waiting one
  // that no other is ahead of: created before it, or at the same time under an earlier name.
  lemma ElectsExactly(s: State, step: Step)
    requires step.Elect? && Enabled(s, step) && forall n | n in s.backups :: s.backups[n].name == n
    ensures var e := Apply(s, step).pending;
            && (e.Some? <==>
                  && step.archiving && step.primary != ""
                  && exists n | n in s.backups ::
                       || s.backups[n].phase == Running || s.backups[n].phase == Unset || s.backups[n].phase == Pending)
            && (e.Some? ==>
                  && e.value.member == step.primary && e.value.name in s.backups
                  && (s.backups[e.value.name].phase == Running ||
                      (&& (s.backups[e.value.name].phase == Unset || s.backups[e.value.name].phase == Pending)
                       && forall n | n in s.backups && n != e.value.name ::
                            && s.backups[n].phase != Running
                            && (s.backups[n].phase == Unset || s.backups[n].phase == Pending ==>
                                  Ahead(s.backups[e.value.name], s.backups[n])))))
  {
    if step.next.Some? {
      assert step.next.value in step.listed;
      forall n | n in s.backups && n != step.next.value.name && Waiting(s.backups[n]) && Waiting(step.next.value)
        ensures Ahead(step.next.value, s.backups[n])
      {
        assert s.backups[n] in step.listed;
        BeforeTotal(step.next.value.name, n);
      }
    }
    forall n | n in s.backups ensures s.backups[n] in step.listed {}
  }

  predicate Ahead(a: Backup, b: Backup) {
    a.created < b.created || (a.created == b.created && Before(a.name, b.name))
  }

  // ------------------------------------------------------------------ one at a time

  // Names are keys; a running backup has the election to itself or nobody has it.
  ghost predicate OneAtATime(s: State) {
    && (forall n | n in s.backups :: s.backups[n].name == n)
    && (forall n | n in s.backups && s.backups[n].phase == Running :: s.pending.None? || s.pending.value.name == n)
    && (forall m, n | m in s.backups && n in s.backups ::
          s.backups[m].phase == Running && s.backups[n].phase == Running ==> m == n)
  }

  lemma ElectKeeps(s: State, step: Step)
    requires OneAtATime(s) && step.Elect? && Enabled(s, step)
    ensures OneAtATime(Apply(s, step))
  {
    forall n | n in s.backups && s.backups[n].phase == Running
      ensures Apply(s, step).pending.None? || Apply(s, step).pending.value.name == n
    {
      assert s.backups[n] in step.listed;
      if step.next.Some? { assert step.next.value in step.listed; }
    }
  }

  lemma StepKeepsOne(s: State, step: Step)
    requires OneAtATime(s) && Enabled(s, step)
    ensures OneAtATime(Apply(s, step))
  {
    if step.Elect? { ElectKeeps(s, step); }
  }

  // At most one backup of the instance is Running in any reachable state.
  lemma {:induction false} AtMostOneRunning(s: State, steps: seq<Step>, s': State)
    requires OneAtATime(s) && Reaches(s, steps, s')
    ensures OneAtATime(s')
    decreases |steps|
  {
    if steps != [] {
      StepKeepsOne(s, steps[0]);
      AtMostOneRunning(Apply(s, steps[0]), steps[1..], s');
    }
  }

  // So two orders of one list never elect two different backups in a reachable state.
  lemma ElectionsAgree(s: State, steps: seq<Step>, s': State, a: seq<Backup>, b: seq<Backup>, inA: Option<Backup>,
                       inB: Option<Backup>)
    requires Begins(s) && Reaches(s, steps, s')
    requires Lists(s'.backups, a) && multiset(a) == multiset(b) && Elected(a, inA) && Elected(b, inB)
    ensures inA == inB
  {
    AtMostOneRunning(s, steps, s');
    assert OneRunning(a) by {
      forall i, j | 0 <= i < j < |a| ensures !(a[i].phase == Running && a[j].phase == Running) {
        assert a[i] in a && a[j] in a && a[i].name != a[j].name;
      }
    }
    ElectionIsOrderFree(a, b, inA, inB);
  }

  // ------------------------------------------------------------------ endings and orphans

  // The first report of this member in the list says another session than this one, and is not silent.
  predicate ReportedElsewhere(reports: seq<Report>, member: string, session: nat) {
    exists i | 0 <= i < |reports| ::
      && reports[i].member == member && reports[i].session != 0 && reports[i].session != session
      && forall j | 0 <= j < i :: reports[j].member != member
  }

  lemma {:induction false} FirstReportIs(reports: seq<Report>, member: string, session: nat)
    ensures ReportedElsewhere(reports, member, session) <==>
              FirstReport(reports, member) != 0 && FirstReport(reports, member) != session
  {
    if reports != [] && reports[0].member != member {
      var rest := reports[1..];
      FirstReportIs(rest, member, session);
      assert forall i | 0 <= i < |rest| :: rest[i] == reports[i + 1];
      assert forall i | 0 < i < |reports| :: reports[i] == rest[i - 1];
      if ReportedElsewhere(rest, member, session) {
        var i :| 0 <= i < |rest| && rest[i].member == member && rest[i].session != 0 && rest[i].session != session
            && forall j | 0 <= j < i :: rest[j].member != member;
        assert reports[i + 1].member == member;
      }
      if ReportedElsewhere(reports, member, session) {
        var i :| 0 <= i < |reports| && reports[i].member == member && reports[i].session != 0
            && reports[i].session != session && forall j | 0 <= j < i :: reports[j].member != member;
        assert rest[i - 1].member == member;
      }
    }
  }

  // A backup starts to run exactly when the member it was elected for claims it, which takes a live agent
  // that is taking nothing and a backup that is waiting, and leaves that agent's session on it.
  lemma StartsExactly(s: State, step: Step, n: string)
    requires Enabled(s, step) && n in s.backups && s.backups[n].phase != Running && n in Apply(s, step).backups
    ensures var b, a := s.backups[n], Apply(s, step).backups[n];
            && (a.phase == Running <==> step.Claim? && s.pending == Some(Election(n, step.member)))
            && (a.phase == Running ==>
                  && (b.phase == Unset || b.phase == Pending) && step.member in s.live && step.member !in s.taking
                  && a.member == step.member && a.session == s.live[step.member]
                  && TakerAlive(Apply(s, step), n))
  {}

  // It completes exactly when the agent taking it says so, and fails exactly when that agent says so, when
  // the member it was elected for cannot take it, or when it is reconciled running with its member first
  // reported under another session.
  lemma EndsExactly(s: State, step: Step, n: string)
    requires Enabled(s, step) && n in s.backups && n in Apply(s, step).backups
    requires s.backups[n].phase != Completed && s.backups[n].phase != Failed
    ensures var b, a := s.backups[n], Apply(s, step).backups[n];
            && (a.phase == Completed <==> step.Finish? && step.completed && s.taking[step.member].name == n)
            && (a.phase == Failed <==>
                  || (step.Finish? && !step.completed && s.taking[step.member].name == n)
                  || (step.CannotClaim? && s.pending == Some(Election(n, step.member)))
                  || (&& step == Reconcile(n) && b.phase == Running && b.session != 0
                      && ReportedElsewhere(s.reports, b.member, b.session)))
            && (b.phase == Unset ==> (a.phase == Pending <==> step == Reconcile(n)))
  {
    FirstReportIs(s.reports, s.backups[n].member, s.backups[n].session);
  }

  // Neither controller leaves a terminal phase.
  lemma ControllersKeepEndings(s: State, step: Step, name: string)
    requires Enabled(s, step) && (step.Elect? || step.Reconcile?)
    requires name in s.backups && (s.backups[name].phase == Completed || s.backups[name].phase == Failed)
    ensures name in Apply(s, step).backups && Apply(s, step).backups[name] == s.backups[name]
  {}

  // A running backup whose member reports another session is failed by its next reconcile, and the
  // election that follows goes to somebody else, or to nobody.
  lemma OrphanIsReleased(s: State, name: string, elect: Step)
    requires OneAtATime(s) && name in s.backups && Orphaned(s.backups[name], s.reports)
    requires elect.Elect? && Enabled(Apply(s, Reconcile(name)), elect)
    ensures Apply(s, Reconcile(name)).backups[name].phase == Failed
    ensures var pending := Apply(Apply(s, Reconcile(name)), elect).pending;
            pending.Some? ==> pending.value.name != name
    ensures var s1 := Apply(s, Reconcile(name));
            forall n | n in s1.backups :: s1.backups[n].phase != Running
  {
    var s1 := Apply(s, Reconcile(name));
    assert elect.next.Some? ==> elect.next.value in elect.listed;
    assert forall b | b in elect.listed && b.name == name :: b == s1.backups[name];
  }

  // What agents hold in memory: their own session, and a running backup they claimed under it.
  ghost predicate AgentsOk(s: State) {
    && (forall m | m in s.live :: 0 < s.live[m] < s.nextSession)
    && s.nextSession > 0
    && (forall m | m in s.taking :: m in s.live && s.taking[m].session == s.live[m])
  }

  // The process that claimed this running backup is still taking it.
  predicate TakerAlive(s: State, name: string)
    requires name in s.backups
  {
    var b := s.backups[name];
    b.phase == Running && b.member in s.taking && s.taking[b.member] == Taking(b.session, name)
  }

  predicate ReportIsCurrent(s: State, member: string) {
    member in s.live && FirstReport(s.reports, member) == s.live[member]
  }

  lemma StepKeepsAgents(s: State, step: Step)
    requires AgentsOk(s) && Enabled(s, step)
    ensures AgentsOk(Apply(s, step))
  {}

  lemma {:induction false} RunKeepsAgents(s: State, steps: seq<Step>, s': State)
    requires AgentsOk(s) && Reaches(s, steps, s')
    ensures AgentsOk(s')
    decreases |steps|
  {
    if steps != [] {
      StepKeepsAgents(s, steps[0]);
      RunKeepsAgents(Apply(s, steps[0]), steps[1..], s');
    }
  }

  // A backup that is still being taken is failed as an orphan exactly when its member's published
  // session is neither silent nor current.
  lemma LiveBackupFailedExactly(s: State, steps: seq<Step>, s': State, name: string)
    requires Begins(s) && Reaches(s, steps, s') && name in s'.backups && TakerAlive(s', name)
    ensures Apply(s', Reconcile(name)).backups[name].phase == Failed <==>
              var member := s'.backups[name].member;
              FirstReport(s'.reports, member) != 0 && !ReportIsCurrent(s', member)
  {
    RunKeepsAgents(s, steps, s');
  }

  const START := State(map[], None, [], map[], map[], 1)
  const FIRST := Backup("b", 0, Pending, "", 0, None)

  // A member that restarted and is still reported under its first session, with one backup waiting.
  const RESTARTED := State(map["b" := FIRST], None, [Report("m", 1)], map["m" := 2], map[], 3)

  const CLAIMED := State(
    map["b" := FIRST.(phase := Running, member := "m", session := 2)], Some(Election("b", "m")),
    [Report("m", 1)], map["m" := 2], map["m" := Taking(2, "b")], 3)

  lemma ComesToRestart(rest: seq<Step>, s: State) returns (steps: seq<Step>)
    requires Reaches(RESTARTED, rest, s)
    ensures Reaches(START, steps, s)
  {
    var s1 := Apply(START, Restart("m"));
    var s2 := Apply(s1, Publish([Report("m", 1)]));
    var s3 := Apply(s2, Restart("m"));
    assert s3.live == map["m" := 2] && s3.taking == map[];
    assert Apply(s3, Create(FIRST)) == RESTARTED;
    steps := Prepend(Create(FIRST), s3, rest, s);
    steps := Prepend(Restart("m"), s2, steps, s);
    steps := Prepend(Publish([Report("m", 1)]), s1, steps, s);
    steps := Prepend(Restart("m"), START, steps, s);
  }

  lemma ComesToClaim(rest: seq<Step>, s: State) returns (steps: seq<Step>)
    requires Reaches(CLAIMED, rest, s)
    ensures Reaches(RESTARTED, steps, s)
  {
    var elect := Elect([FIRST], Some(FIRST), true, "m");
    BeforeIrreflexive("b");
    assert [FIRST][0] == FIRST;
    assert Elected([FIRST], Some(FIRST)) && Lists(RESTARTED.backups, [FIRST]);
    var s5 := Apply(RESTARTED, elect);
    assert Apply(s5, Claim("m")) == CLAIMED;
    steps := Prepend(Claim("m"), s5, rest, s);
    steps := Prepend(elect, RESTARTED, steps, s);
  }

  // A process that restarts and claims before its new session is published has its backup failed
  // while it is taking it, and its own report of success then overwrites the failure.
  lemma LaggingReportFailsALiveBackup() returns (steps: seq<Step>, s: State)
    ensures Reaches(START, steps, s)
    ensures "b" in s.backups && s.backups["b"].phase == Failed
    ensures "m" in s.taking && s.taking["m"].name == "b"
    ensures Apply(s, Finish("m", true)).backups["b"].phase == Completed
  {
    s := Apply(CLAIMED, Reconcile("b"));
    assert Orphaned(CLAIMED.backups["b"], CLAIMED.reports);
    assert Reaches(s, [], s);
    steps := Prepend(Reconcile("b"), CLAIMED, [], s);
    steps := ComesToClaim(steps, s);
    steps := ComesToRestart(steps, s);
  }

  lemma Prepend(step: Step, s: State, rest: seq<Step>, s': State) returns (steps: seq<Step>)
    requires Enabled(s, step) && Reaches(Apply(s, step), rest, s')
    ensures Reaches(s, steps, s')
  {
    steps := [step] + rest;
    assert steps[1..] == rest;
  }
}
