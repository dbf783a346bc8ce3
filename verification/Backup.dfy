/** Backups: which slot is due, minting it once, and electing which backup runs next. */
module Backup {
  import opened Common
  import opened Cron
  import opened Sorting

  datatype Phase = Unset | Pending | Running | Completed | Failed

  // `member` and `session` are who claimed it; a session of zero is none.
  datatype Backup = Backup(name: string, created: int, phase: Phase, member: string, session: nat,
                           stoppedAt: Option<int>)

  // ------------------------------------------------------------------ the due slot

  // An hour: how late a scheduled backup may still be taken.
  const GRACE: int := 3600

  // The greatest firing in (now-grace, now].
  ghost predicate IsDue(fires: int -> bool, now: int, slot: int) {
    now - GRACE < slot <= now && fires(slot) && forall t | slot < t <= now :: !fires(t)
  }

  method DueSlot(schedule: Schedule, now: int, ghost fires: int -> bool) returns (due: Option<int>)
    requires Walks(schedule, fires)
    ensures due.Some? ==> IsDue(fires, now, due.value)
    ensures due.None? <==> forall t | now - GRACE < t <= now :: !fires(t)
  {
    var first := schedule.next(now - GRACE);
    if first.None? || first.value > now { return None; }
    var slot := first.value;
    while true
      invariant now - GRACE < slot <= now && fires(slot)
      decreases now - slot
    {
      var following := schedule.next(slot);
      if following.None? || following.value > now { return Some(slot); }
      slot := following.value;
    }
  }

  lemma DueUnique(fires: int -> bool, now: int, a: int, b: int)
    requires IsDue(fires, now, a) && IsDue(fires, now, b)
    ensures a == b
  {}

  // ------------------------------------------------------------------ minting

  // A backup's name carries the slot it fills, so the slots filled stand for the names taken.
  // `listed` is what the pass read of them, which may lag; a create of a name that exists is refused,
  // and a create may fail outright.
  method MintScheduledBackup(schedule: Schedule, now: int, listed: set<int>, minted: set<int>, fails: bool,
                             ghost fires: int -> bool)
    returns (minted': set<int>, untilNext: int)
    requires Walks(schedule, fires) && listed <= minted
    // How long until the schedule fires again; zero when it does not within the walk.
    ensures untilNext >= 0 && (untilNext > 0 ==> fires(now + untilNext))
    ensures untilNext > 0 ==> forall t | now < t < now + untilNext :: !fires(t)
    ensures untilNext == 0 ==> forall t | now < t <= now + HORIZON :: !fires(t)
    ensures minted <= minted'
    ensures Mints(fires, now, minted, minted')
    ensures !fails ==> forall slot | IsDue(fires, now, slot) :: slot in minted'
  {
    minted', untilNext := minted, 0;
    var next := schedule.next(now);
    if next.Some? { untilNext := next.value - now; }
    var due := DueSlot(schedule, now, fires);
    if due.None? { return; }
    if due.value in listed { return; }
    if fails { return; }
    minted' := minted + {due.value};
    forall slot | IsDue(fires, now, slot) ensures slot in minted' { DueUnique(fires, now, slot, due.value); }
  }

  // A pass mints the due slot or nothing.
  ghost predicate Mints(fires: int -> bool, now: int, minted: set<int>, minted': set<int>) {
    minted' == minted || exists slot :: IsDue(fires, now, slot) && minted' == minted + {slot}
  }

  datatype Mint = Mint(now: int, slot: int)

  // The slots a run of passes created, in order: each was due when it was created and not there yet.
  ghost predicate MintRun(fires: int -> bool, log: seq<Mint>) {
    && (forall i | 0 <= i < |log| :: IsDue(fires, log[i].now, log[i].slot))
    && (forall i, j | 0 <= i < j < |log| :: log[i].now <= log[j].now && log[i].slot != log[j].slot)
  }

  // A slot due later is no earlier.
  lemma DueNeverGoesBack(fires: int -> bool, now: int, slot: int, now': int, slot': int)
    requires IsDue(fires, now, slot) && IsDue(fires, now', slot') && now <= now'
    ensures slot <= slot'
  {
    assert fires(slot);
  }

  // Over any run of passes each slot is minted once and they never go back: strictly forwards.
  lemma MintedSlotsIncrease(fires: int -> bool, log: seq<Mint>)
    requires MintRun(fires, log)
    ensures forall i, j | 0 <= i < j < |log| :: log[i].slot < log[j].slot
  {
    forall i, j | 0 <= i < j < |log| ensures log[i].slot < log[j].slot {
      DueNeverGoesBack(fires, log[i].now, log[i].slot, log[j].now, log[j].slot);
    }
  }

  function Slots(log: seq<Mint>): set<int> { set m | m in log :: m.slot }

  // One more pass extends such a run: what it mints was not there, so it joins at the end.
  lemma MintExtendsRun(fires: int -> bool, log: seq<Mint>, now: int, minted': set<int>) returns (log': seq<Mint>)
    requires MintRun(fires, log) && forall i | 0 <= i < |log| :: log[i].now <= now
    requires Mints(fires, now, Slots(log), minted')
    ensures log <= log' && MintRun(fires, log') && Slots(log') == minted'
    ensures forall i | 0 <= i < |log'| :: log'[i].now <= now
    ensures log' == log || log'[..|log'| - 1] == log
  {
    if minted' == Slots(log) { return log; }
    var slot :| IsDue(fires, now, slot) && minted' == Slots(log) + {slot};
    log' := log + [Mint(now, slot)];
    assert forall m :: m in log' <==> m in log || m == Mint(now, slot);
    forall i | 0 <= i < |log| ensures log[i].slot != slot { assert log[i] in log; }
  }

  // Passes at times that do not go back, starting with nothing minted; sets[i] is what is there after i
  // of them.
  ghost predicate MintPasses(fires: int -> bool, times: seq<int>, sets: seq<set<int>>) {
    && |sets| == |times| + 1 && sets[0] == {}
    && (forall i, j | 0 <= i < j < |times| :: times[i] <= times[j])
    && forall i | 0 <= i < |times| :: Mints(fires, times[i], sets[i], sets[i + 1])
  }

  // Over any sequence of passes, each slot is minted once, when it was due, and the slots go strictly
  // forwards.
  lemma {:induction false} EachSlotOnce(fires: int -> bool, times: seq<int>, sets: seq<set<int>>)
    returns (log: seq<Mint>)
    requires MintPasses(fires, times, sets)
    ensures MintRun(fires, log) && Slots(log) == sets[|times|] && |log| <= |times|
    ensures forall i, j | 0 <= i < j < |log| :: log[i].slot < log[j].slot
    ensures times != [] ==> forall i | 0 <= i < |log| :: log[i].now <= times[|times| - 1]
    ensures times == [] ==> log == []
  {
    log := [];
    if times != [] {
      var last := |times| - 1;
      log := EachSlotOnce(fires, times[..last], sets[..last + 1]);
      log := MintExtendsRun(fires, log, times[last], sets[last + 1]);
    }
    MintedSlotsIncrease(fires, log);
  }

  // ------------------------------------------------------------------ the election

  predicate Waiting(b: Backup) { b.phase == Unset || b.phase == Pending }

  predicate EarlierBackup(a: Backup, b: Backup) { Earlier(a.created, a.name, b.created, b.name) }

  // A running backup keeps the election; otherwise the oldest waiting one has it.
  ghost predicate Elected(backups: seq<Backup>, next: Option<Backup>) {
    match next
    case None => forall i | 0 <= i < |backups| :: !Waiting(backups[i]) && backups[i].phase != Running
    case Some(b) =>
      exists i | 0 <= i < |backups| ::
        && backups[i] == b
        && (b.phase == Running ==> forall j | 0 <= j < i :: backups[j].phase != Running)
        && (b.phase != Running ==> Waiting(b) && forall j | 0 <= j < |backups| ::
              backups[j].phase != Running && (Waiting(backups[j]) ==> !EarlierBackup(backups[j], b)))
  }

  method OldestPending(backups: seq<Backup>) returns (next: Option<Backup>)
    ensures Elected(backups, next)
  {
    for i := 0 to |backups|
      invariant forall j | 0 <= j < i :: backups[j].phase != Running
    {
      if backups[i].phase == Running { return Some(backups[i]); }
    }
    next := None;
    ghost var at := 0;
    for i := 0 to |backups|
      invariant next.None? ==> forall j | 0 <= j < i :: !Waiting(backups[j])
      invariant next.Some? ==> 0 <= at < i && backups[at] == next.value && Waiting(next.value)
      invariant next.Some? ==> forall j | 0 <= j < i && Waiting(backups[j]) :: !EarlierBackup(backups[j], next.value)
    {
      var candidate := backups[i];
      if !Waiting(candidate) { continue; }
      if next.None? || EarlierBackup(candidate, next.value) {
        if next.Some? { Displaces(backups[..i], next.value, candidate); }
        BeforeIrreflexive(candidate.name);
        next, at := Some(candidate), i;
      }
    }
  }

  // What nothing seen so far was earlier than, nothing seen so far is earlier than its better.
  lemma Displaces(seen: seq<Backup>, old_: Backup, new_: Backup)
    requires EarlierBackup(new_, old_)
    requires forall j | 0 <= j < |seen| && Waiting(seen[j]) :: !EarlierBackup(seen[j], old_)
    ensures forall j | 0 <= j < |seen| && Waiting(seen[j]) :: !EarlierBackup(seen[j], new_)
  {
    forall j | 0 <= j < |seen| && Waiting(seen[j]) ensures !EarlierBackup(seen[j], new_) {
      EarlierIsStrictTotalOrder(seen[j].created, seen[j].name, new_.created, new_.name, old_.created, old_.name);
    }
  }

  ghost predicate NamesDistinct(backups: seq<Backup>) {
    forall i, j | 0 <= i < j < |backups| :: backups[i].name != backups[j].name
  }

  ghost predicate OneRunning(backups: seq<Backup>) {
    forall i, j | 0 <= i < j < |backups| :: !(backups[i].phase == Running && backups[j].phase == Running)
  }

  ghost predicate SameNameSameBackup(backups: seq<Backup>) {
    forall a, b | a in backups && b in backups && a.name == b.name :: a == b
  }

  // With one backup running at most, every order of the same list elects the same backup.
  lemma ElectionIsOrderFree(a: seq<Backup>, b: seq<Backup>, inA: Option<Backup>, inB: Option<Backup>)
    requires multiset(a) == multiset(b) && NamesDistinct(a) && OneRunning(a)
    requires Elected(a, inA) && Elected(b, inB)
    ensures inA == inB
  {
    SameMembers(a, b);
    assert forall i | 0 <= i < |a| :: a[i] in b;
    assert forall i | 0 <= i < |b| :: b[i] in a;
    if inA.Some? && inB.Some? {
      var x, y := inA.value, inB.value;
      assert x in a && y in a;
      if x.phase == Running || y.phase == Running {
        assert x.phase == Running && y.phase == Running;
      } else {
        EarlierIsStrictTotalOrder(x.created, x.name, y.created, y.name, x.created, x.name);
      }
    }
  }

  // And with two running it does not: some order of the list elects a different one.
  lemma TwoRunningSplitTheElection(a: seq<Backup>, i: nat, j: nat, inA: Option<Backup>)
    requires NamesDistinct(a) && i < j < |a| && a[i].phase == Running && a[j].phase == Running
    requires Elected(a, inA)
    ensures exists b, inB :: multiset(b) == multiset(a) && Elected(b, inB) && inB != inA
  {
    var first :| 0 <= first < |a| && a[first] == inA.value && forall k | 0 <= k < first :: a[k].phase != Running;
    assert first <= i;
    var b := ToFront(a, j);
    assert Elected(b, Some(a[j])) by { assert b[0] == a[j]; }
    assert a[first].name != a[j].name;
  }

  lemma ToFront(a: seq<Backup>, j: nat) returns (b: seq<Backup>)
    requires j < |a|
    ensures multiset(b) == multiset(a) && |b| > 0 && b[0] == a[j]
  {
    b := [a[j]] + (a[..j] + a[j + 1..]);
    assert a == a[..j] + [a[j]] + a[j + 1..];
  }

  // ------------------------------------------------------------------ the newest backup

  predicate Summarised(b: Backup) { b.phase == Completed && b.stoppedAt.Some? }

  // The completed backup that stopped last, the first listed of equals.
  method LastBackupSummary(backups: seq<Backup>) returns (latest: Option<Backup>)
    ensures latest.None? <==> forall i | 0 <= i < |backups| ::
              backups[i].phase != Completed || backups[i].stoppedAt.None?
    ensures latest.Some? ==> exists i | 0 <= i < |backups| ::
              && backups[i] == latest.value && Summarised(latest.value)
              && (forall j | 0 <= j < |backups| && Summarised(backups[j]) ::
                    backups[j].stoppedAt.value <= latest.value.stoppedAt.value)
              && (forall j | 0 <= j < i && Summarised(backups[j]) ::
                    backups[j].stoppedAt.value < latest.value.stoppedAt.value)
  {
    latest := None;
    ghost var at := 0;
    for i := 0 to |backups|
      invariant latest.None? ==> forall j | 0 <= j < i :: !Summarised(backups[j])
      invariant latest.Some? ==> 0 <= at < i && backups[at] == latest.value && Summarised(latest.value)
      invariant latest.Some? ==> forall j | 0 <= j < i && Summarised(backups[j]) ::
                  backups[j].stoppedAt.value <= latest.value.stoppedAt.value
                  && (j < at ==> backups[j].stoppedAt.value < latest.value.stoppedAt.value)
    {
      var candidate := backups[i];
      if !Summarised(candidate) { continue; }
      if latest.None? || candidate.stoppedAt.value > latest.value.stoppedAt.value {
        latest, at := Some(candidate), i;
      }
    }
  }
}
