/** The published plan status: the only memory a pass has of the passes before it. */
module History {
  import opened Common
  import opened Autoscale
  import opened Planner
  import opened Sorting

  datatype Row = Row(name: string, consolidatable: bool, since: Option<int>)

  // `permitted` is published beside the time the class last ran.
  datatype Entry = Entry(class_: Class, permitted: bool, executedAt: Option<int>)

  datatype PlanStatus = PlanStatus(rows: seq<Row>, entries: seq<Entry>)

  // What one pass did with the action it selected.
  datatype Executed = Executed(class_: Class, at: int, applied: bool, failed: bool)

  // ------------------------------------------------------------------ reading the last plan

  function ClockIn(rows: seq<Row>, name: string): Option<int> {
    if rows == [] then None
    else if rows[0].name == name && rows[0].consolidatable && rows[0].since.Some? then rows[0].since
    else ClockIn(rows[1..], name)
  }

  // Since when the last plan has this instance consolidatable.
  function Clock(previous: Option<PlanStatus>, name: string): Option<int> {
    if previous.None? then None else ClockIn(previous.value.rows, name)
  }

  function RunIn(entries: seq<Entry>, c: Class): Option<int> {
    if entries == [] then None
    else if entries[0].class_ == c then entries[0].executedAt
    else RunIn(entries[1..], c)
  }

  // When the last plan says this class last ran.
  function LastRun(previous: Option<PlanStatus>, c: Class): Option<int> {
    if previous.None? then None else RunIn(previous.value.entries, c)
  }

  method ConsolidatableSince(previous: Option<PlanStatus>, name: string, now: int) returns (since: int)
    ensures since == match Clock(previous, name) { case Some(t) => t case None => now }
  {
    if previous.Some? {
      var rows := previous.value.rows;
      for i := 0 to |rows|
        invariant ClockIn(rows, name) == ClockIn(rows[i..], name)
      {
        assert rows[i..][1..] == rows[i + 1..];
        if rows[i].name == name && rows[i].consolidatable && rows[i].since.Some? { return rows[i].since.value; }
      }
    }
    return now;
  }

  method ExecutedAt(previous: Option<PlanStatus>, c: Class) returns (at: Option<int>)
    ensures at == LastRun(previous, c)
  {
    if previous.Some? {
      var entries := previous.value.entries;
      for i := 0 to |entries|
        invariant RunIn(entries, c) == RunIn(entries[i..], c)
      {
        assert entries[i..][1..] == entries[i + 1..];
        if entries[i].class_ == c { return entries[i].executedAt; }
      }
    }
    return None;
  }

  ghost predicate Ordered(entries: seq<Entry>) {
    forall i, j | 0 <= i < j < |entries| :: Rank(entries[i].class_) < Rank(entries[j].class_)
  }

  // Rows of one name agree, as they do in every published plan.
  ghost predicate RowsAgree(rows: seq<Row>) {
    forall i, j | 0 <= i < |rows| && 0 <= j < |rows| && rows[i].name == rows[j].name :: rows[i] == rows[j]
  }

  ghost predicate WellFormed(status: PlanStatus) {
    && Ordered(status.entries) && RowsAgree(status.rows)
    && forall i | 0 <= i < |status.rows| :: status.rows[i].consolidatable <==> status.rows[i].since.Some?
  }

  lemma {:induction false} RunAt(entries: seq<Entry>, i: nat)
    requires Ordered(entries) && i < |entries|
    ensures RunIn(entries, entries[i].class_) == entries[i].executedAt
  {
    if i > 0 {
      assert entries[0].class_ != entries[i].class_;
      assert entries[1..][i - 1] == entries[i];
      RunAt(entries[1..], i - 1);
    }
  }

  lemma {:induction false} RunAbsent(entries: seq<Entry>, c: Class)
    requires forall e | e in entries :: e.class_ != c
    ensures RunIn(entries, c) == None
  {
    if entries != [] { RunAbsent(entries[1..], c); }
  }

  lemma {:induction false} ClockAt(rows: seq<Row>, i: nat)
    requires RowsAgree(rows) && i < |rows| && rows[i].consolidatable && rows[i].since.Some?
    ensures ClockIn(rows, rows[i].name) == rows[i].since
  {
    if i > 0 && rows[0].name != rows[i].name {
      assert rows[1..][i - 1] == rows[i];
      ClockAt(rows[1..], i - 1);
    }
  }

  lemma {:induction false} ClockAbsent(rows: seq<Row>, name: string)
    requires forall r | r in rows :: !(r.name == name && r.consolidatable && r.since.Some?)
    ensures ClockIn(rows, name) == None
  {
    if rows != [] { ClockAbsent(rows[1..], name); }
  }

  // The signals a pass recovers from the last plan.
  method HistorySignals(previous: Option<PlanStatus>)
    returns (up: Option<int>, down: Option<int>, since: map<string, int>)
    requires previous.Some? ==> WellFormed(previous.value)
    ensures up == LastRun(previous, ScaleOut) && down == LastRun(previous, ScaleIn)
    ensures forall n :: (if n in since then Some(since[n]) else None) == Clock(previous, n)
  {
    up, down, since := None, None, map[];
    if previous.None? { return; }
    var entries, rows := previous.value.entries, previous.value.rows;
    for i := 0 to |entries|
      invariant up.Some? ==> exists j | 0 <= j < i :: entries[j].class_ == ScaleOut && entries[j].executedAt == up
      invariant up.None? ==> forall j | 0 <= j < i && entries[j].class_ == ScaleOut :: entries[j].executedAt.None?
      invariant down.Some? ==> exists j | 0 <= j < i :: entries[j].class_ == ScaleIn && entries[j].executedAt == down
      invariant down.None? ==> forall j | 0 <= j < i && entries[j].class_ == ScaleIn :: entries[j].executedAt.None?
    {
      if entries[i].executedAt.None? { continue; }
      match entries[i].class_
      case ScaleOut => up := entries[i].executedAt;
      case ScaleIn => down := entries[i].executedAt;
      case _ =>
    }
    LastRunIs(entries, ScaleOut, up);
    LastRunIs(entries, ScaleIn, down);
    for i := 0 to |rows|
      invariant forall n | n in since :: exists j | 0 <= j < i :: rows[j] == Row(n, true, Some(since[n]))
      invariant forall j | 0 <= j < i && rows[j].consolidatable && rows[j].since.Some? :: rows[j].name in since
    {
      if rows[i].consolidatable && rows[i].since.Some? { since := since[rows[i].name := rows[i].since.value]; }
    }
    forall n ensures (if n in since then Some(since[n]) else None) == ClockIn(rows, n) {
      if n in since {
        var j :| 0 <= j < |rows| && rows[j] == Row(n, true, Some(since[n]));
        ClockAt(rows, j);
      } else {
        ClockAbsent(rows, n);
      }
    }
  }

  lemma LastRunIs(entries: seq<Entry>, c: Class, at: Option<int>)
    requires Ordered(entries)
    requires at.Some? ==> exists j | 0 <= j < |entries| :: entries[j].class_ == c && entries[j].executedAt == at
    requires at.None? ==> forall j | 0 <= j < |entries| && entries[j].class_ == c :: entries[j].executedAt.None?
    ensures RunIn(entries, c) == at
  {
    if j: int :| 0 <= j < |entries| && entries[j].class_ == c && (at.Some? ==> entries[j].executedAt == at) {
      RunAt(entries, j);
    } else {
      RunAbsent(entries, c);
    }
  }

  // ------------------------------------------------------------------ writing this plan

  predicate Ran(applied: Option<Executed>, c: Class) {
    applied.Some? && applied.value.applied && applied.value.class_ == c
  }

  function StampOf(previous: Option<PlanStatus>, applied: Option<Executed>, c: Class): Option<int> {
    if Ran(applied, c) then Some(applied.value.at) else LastRun(previous, c)
  }

  function RowOf(previous: Option<PlanStatus>, t: InstanceTarget, now: int): Row {
    Row(t.name, t.consolidatable,
      if !t.consolidatable then None
      else match Clock(previous, t.name) { case Some(since) => Some(since) case None => Some(now) })
  }

  predicate Proposed(plan: Plan, c: Class) { exists a | a in plan.actions :: a.class_ == c }

  function EntryOf(previous: Option<PlanStatus>, applied: Option<Executed>, a: Action): Entry {
    Entry(a.class_,
      a.verdict == Allowed && !(applied.Some? && applied.value.class_ == a.class_ && applied.value.failed),
      StampOf(previous, applied, a.class_))
  }

  // The published status: a row per target, and in ACTION_ORDER one entry for every class that is
  // proposed or ever ran.
  ghost predicate StatusOf(previous: Option<PlanStatus>, plan: Plan, applied: Option<Executed>, now: int,
                           status: PlanStatus) {
    && |status.rows| == |plan.targets|
    && (forall i | 0 <= i < |status.rows| :: status.rows[i] == RowOf(previous, plan.targets[i], now))
    && Ordered(status.entries)
    && (forall a | a in plan.actions :: EntryOf(previous, applied, a) in status.entries)
    && (forall c | !Proposed(plan, c) && LastRun(previous, c).Some? ::
          Entry(c, false, LastRun(previous, c)) in status.entries)
    && (forall e | e in status.entries ::
          || (exists a :: a in plan.actions && e == EntryOf(previous, applied, a))
          || (!Proposed(plan, e.class_) && e.executedAt.Some?
              && e == Entry(e.class_, false, LastRun(previous, e.class_))))
  }

  // What is published of an action: permitted exactly when the guardrails allowed it and this pass did not
  // try it and fail, with the time it ran if it ran now and otherwise the time it had.
  lemma EntryMeans(previous: Option<PlanStatus>, plan: Plan, applied: Option<Executed>, now: int, status: PlanStatus,
                   a: Action) returns (e: Entry)
    requires StatusOf(previous, plan, applied, now, status) && a in plan.actions
    ensures e in status.entries && e.class_ == a.class_
    ensures e.permitted <==>
              a.verdict == Allowed
              && !(applied.Some? && applied.value.class_ == a.class_ && applied.value.failed)
    ensures if applied.Some? && applied.value.applied && applied.value.class_ == a.class_
            then e.executedAt == Some(applied.value.at)
            else e.executedAt == LastRun(previous, a.class_)
    ensures forall other | other in status.entries && other.class_ == a.class_ :: other == e
  {
    e := EntryOf(previous, applied, a);
    forall other | other in status.entries && other.class_ == a.class_ ensures other == e {
      var i :| 0 <= i < |status.entries| && status.entries[i] == other;
      var j :| 0 <= j < |status.entries| && status.entries[j] == e;
      assert !(i < j) && !(j < i);
    }
  }

  predicate ByRank(a: Entry, b: Entry) { Rank(a.class_) <= Rank(b.class_) }

  ghost predicate ClassesDistinct(entries: seq<Entry>) {
    forall i, j | 0 <= i < j < |entries| :: entries[i].class_ != entries[j].class_
  }

  lemma SortedIsOrdered(sorted: seq<Entry>, entries: seq<Entry>)
    requires ClassesDistinct(entries) && multiset(sorted) == multiset(entries) && Sorted(sorted, ByRank)
    ensures Ordered(sorted)
  {
    assert Distinct(entries);
    PermutationDistinct(sorted, entries);
    SameMembers(sorted, entries);
    forall i, j | 0 <= i < j < |sorted| ensures Rank(sorted[i].class_) < Rank(sorted[j].class_) {
      assert sorted[i] in entries && sorted[j] in entries && sorted[i] != sorted[j];
      assert sorted[i].class_ != sorted[j].class_;
      assert ByRank(sorted[i], sorted[j]);
    }
  }

  method StatusRows(previous: Option<PlanStatus>, plan: Plan, now: int) returns (rows: seq<Row>)
    ensures |rows| == |plan.targets| && forall i | 0 <= i < |rows| :: rows[i] == RowOf(previous, plan.targets[i], now)
  {
    rows := [];
    for i := 0 to |plan.targets|
      invariant |rows| == i && forall j | 0 <= j < i :: rows[j] == RowOf(previous, plan.targets[j], now)
    {
      var t := plan.targets[i];
      var row := Row(t.name, t.consolidatable, None);
      if t.consolidatable {
        var since := ConsolidatableSince(previous, t.name, now);
        row := row.(since := Some(since));
      }
      rows := rows + [row];
    }
  }

  method ProposedEntries(previous: Option<PlanStatus>, plan: Plan, applied: Option<Executed>)
    returns (entries: seq<Entry>, proposed: set<Class>)
    ensures |entries| == |plan.actions|
    ensures forall i | 0 <= i < |entries| :: entries[i] == EntryOf(previous, applied, plan.actions[i])
    ensures forall c :: c in proposed <==> Proposed(plan, c)
  {
    entries, proposed := [], {};
    for i := 0 to |plan.actions|
      invariant |entries| == i && forall j | 0 <= j < i :: entries[j] == EntryOf(previous, applied, plan.actions[j])
      invariant forall c :: c in proposed <==> exists j | 0 <= j < i :: plan.actions[j].class_ == c
    {
      var a := plan.actions[i];
      proposed := proposed + {a.class_};
      var at := ExecutedAt(previous, a.class_);
      var entry := Entry(a.class_, a.verdict == Allowed, at);
      if applied.Some? && applied.value.applied && applied.value.class_ == a.class_ {
        entry := entry.(executedAt := Some(applied.value.at));
      }
      if applied.Some? && applied.value.class_ == a.class_ && applied.value.failed {
        entry := entry.(permitted := false);
      }
      entries := entries + [entry];
    }
  }

  // Classes that ran once and have nothing to do now keep their time.
  method CarriedEntries(previous: Option<PlanStatus>, proposed: set<Class>) returns (entries: seq<Entry>)
    ensures forall i | 0 <= i < |entries| :: entries[i].class_ !in proposed && entries[i].executedAt.Some?
              && entries[i] == Entry(entries[i].class_, false, LastRun(previous, entries[i].class_))
    ensures forall c | c !in proposed && LastRun(previous, c).Some? :: Entry(c, false, LastRun(previous, c)) in entries
    ensures ClassesDistinct(entries)
  {
    entries := [];
    for r := 0 to |ACTION_ORDER|
      invariant forall i | 0 <= i < |entries| :: Rank(entries[i].class_) < r && entries[i].class_ !in proposed
                  && entries[i].executedAt.Some?
                      && entries[i] == Entry(entries[i].class_, false, LastRun(previous, entries[i].class_))
      invariant forall c | c !in proposed && LastRun(previous, c).Some? && Rank(c) < r ::
                  Entry(c, false, LastRun(previous, c)) in entries
      invariant ClassesDistinct(entries)
    {
      var c := ACTION_ORDER[r];
      assert Rank(c) == r;
      assert forall d | Rank(d) == r :: d == c;
      if c in proposed { continue; }
      var at := ExecutedAt(previous, c);
      if at.None? { continue; }
      entries := entries + [Entry(c, false, at)];
    }
  }

  method PlanStatusOf(previous: Option<PlanStatus>, plan: Plan, applied: Option<Executed>, now: int)
    returns (status: PlanStatus)
    requires forall i, j | 0 <= i < j < |plan.actions| :: Rank(plan.actions[i].class_) < Rank(plan.actions[j].class_)
    ensures StatusOf(previous, plan, applied, now, status)
  {
    var rows := StatusRows(previous, plan, now);
    var first, proposed := ProposedEntries(previous, plan, applied);
    var carried := CarriedEntries(previous, proposed);
    var all := first + carried;
    forall i, j | 0 <= i < j < |all| ensures all[i].class_ != all[j].class_ {
      if i < |first| <= j { assert Proposed(plan, all[i].class_) by { assert plan.actions[i] in plan.actions; } }
    }
    var entries := SortBy(all, ByRank);
    SortedIsOrdered(entries, all);
    SameMembers(entries, all);
    status := PlanStatus(rows, entries);
    forall a | a in plan.actions ensures EntryOf(previous, applied, a) in entries {
      var i :| 0 <= i < |plan.actions| && plan.actions[i] == a;
      assert all[i] in all;
    }
    forall e | e in entries ensures
        || (exists a :: a in plan.actions && e == EntryOf(previous, applied, a))
        || (!Proposed(plan, e.class_) && e.executedAt.Some? && e == Entry(e.class_, false, LastRun(previous, e.class_)))
    {
      var i :| 0 <= i < |all| && all[i] == e;
      if i < |first| { assert plan.actions[i] in plan.actions; }
    }
  }

  // ------------------------------------------------------------------ what a published status says

  ghost predicate Empties(plan: Plan, name: string) {
    exists t :: t in plan.targets && t.name == name && t.consolidatable
  }

  // The stamp of a class is this pass's when it ran, and otherwise the one before, whether or not
  // the class is proposed any more.
  lemma StampCarried(previous: Option<PlanStatus>, plan: Plan, applied: Option<Executed>, now: int,
                     status: PlanStatus, c: Class)
    requires StatusOf(previous, plan, applied, now, status)
    requires applied.Some? && applied.value.applied ==> Proposed(plan, applied.value.class_)
    ensures LastRun(Some(status), c) == StampOf(previous, applied, c)
  {
    if Proposed(plan, c) {
      var a :| a in plan.actions && a.class_ == c;
      EntryStands(status.entries, EntryOf(previous, applied, a));
    } else if LastRun(previous, c).Some? {
      EntryStands(status.entries, Entry(c, false, LastRun(previous, c)));
    } else {
      RunAbsent(status.entries, c);
    }
  }

  lemma EntryStands(entries: seq<Entry>, e: Entry)
    requires Ordered(entries) && e in entries
    ensures RunIn(entries, e.class_) == e.executedAt
  {
    var i :| 0 <= i < |entries| && entries[i] == e;
    RunAt(entries, i);
  }

  ghost predicate TargetsAgree(plan: Plan) {
    forall t, u | t in plan.targets && u in plan.targets && t.name == u.name :: t.consolidatable == u.consolidatable
  }

  // The clock of an instance runs on while plans keep finding it empty, starts at this pass when the
  // last plan did not, and is gone when this plan does not.
  lemma ClockCarried(previous: Option<PlanStatus>, plan: Plan, applied: Option<Executed>, now: int,
                     status: PlanStatus, name: string)
    requires StatusOf(previous, plan, applied, now, status) && TargetsAgree(plan)
    ensures WellFormed(status)
    ensures Clock(Some(status), name) ==
              if !Empties(plan, name) then None
              else match Clock(previous, name) { case Some(t) => Some(t) case None => Some(now) }
  {
    var rows := status.rows;
    forall i | 0 <= i < |rows|
      ensures rows[i] == RowOf(previous, plan.targets[i], now) && plan.targets[i] in plan.targets
    {}
    assert RowsAgree(rows);
    if Empties(plan, name) {
      var t :| t in plan.targets && t.name == name && t.consolidatable;
      var i :| 0 <= i < |plan.targets| && plan.targets[i] == t;
      assert rows[i] == RowOf(previous, t, now);
      ClockAt(rows, i);
    } else {
      ClockAbsent(rows, name);
    }
  }
}
