/** The dwell clock and the machines behind the names: runs of passes in which members come and go. */
module PoolMachines {
  import opened Common
  import opened Autoscale
  import opened Planner
  import opened History
  import opened PoolRun
  import opened PoolLaws

  // The members there are, by name; and for each name how many plans had been published when its
  // machine was made, and when the one before it went.
  datatype Site = Site(w: World, present: set<string>, madeAt: map<string, nat>, goneAt: map<string, nat>)

  // Members are made and lost between passes: the passes that do it publish nothing.
  datatype Event = Pass(step: Step) | Make(name: string) | Lose(name: string)

  function Names(members: seq<InstanceSignal>): set<string> { set i | 0 <= i < |members| :: members[i].name }

  ghost predicate Happens(s: Site, e: Event) {
    match e
    case Pass(step) => Enabled(s.w, step) && (step.Observe? ==> Names(step.view.signals.instances) == s.present)
    case Make(name) => s.w.pass.Idle? && name !in s.present
    case Lose(name) => s.w.pass.Idle? && name in s.present
  }

  function After(s: Site, e: Event): Site {
    match e
    case Pass(step) => s.(w := Apply(s.w, step))
    case Make(name) => s.(present := s.present + {name}, madeAt := s.madeAt[name := |s.w.log|])
    case Lose(name) => s.(present := s.present - {name}, goneAt := s.goneAt[name := |s.w.log|])
  }

  ghost predicate Leads(s: Site, events: seq<Event>, s': Site)
    decreases |events|
  {
    if events == [] then s' == s else Happens(s, events[0]) && Leads(After(s, events[0]), events[1..], s')
  }

  ghost predicate SiteBegins(s: Site) { Begins(s.w) && s.present == {} && s.madeAt == map[] && s.goneAt == map[] }

  // ------------------------------------------------------------------ what plans can name

  // A plan in hand names only members that are there.
  ghost predicate HandOk(s: Site) {
    !s.w.pass.Idle? ==> forall t | t in s.w.pass.view.plan.targets :: t.name in s.present
  }

  // No plan published while a name was absent found it empty.
  ghost predicate AbsentOk(s: Site, name: string) {
    && (name in s.present ==> name in s.madeAt && s.madeAt[name] <= |s.w.log|)
    && (name in s.goneAt ==> s.goneAt[name] <= |s.w.log|)
    && (name in s.present && name in s.goneAt ==> s.goneAt[name] <= s.madeAt[name])
    && forall j | 0 <= j < |s.w.log| && Empties(s.w.log[j].plan, name) ::
         if name in s.present then j >= s.madeAt[name] || (name in s.goneAt && j < s.goneAt[name])
         else name in s.goneAt && j < s.goneAt[name]
  }

  ghost predicate SiteOk(s: Site) { HistoryInv(s.w) && HandOk(s) && forall n :: AbsentOk(s, n) }

  lemma TargetsNamed(s: Signals, p: Policy, k: Packing, targets: seq<InstanceTarget>)
    requires TargetsOf(s, p, k, targets)
    ensures forall t | t in targets :: t.name in Names(s.instances)
  {
    forall t | t in targets ensures t.name in Names(s.instances) {
      var i :| i in s.instances && t == TargetOf(i, p, k);
      var j :| 0 <= j < |s.instances| && s.instances[j] == i;
    }
  }

  // The pass in hand stays the one that looked, and only a publish adds to the log.
  lemma PassShape(w: World, step: Step)
    requires Enabled(w, step)
    ensures var w' := Apply(w, step);
            && (|| w'.log == w.log
                || (step.Publish? && w.pass.Acted? && |w'.log| == |w.log| + 1 && w'.log[..|w.log|] == w.log
                    && w'.log[|w.log|].plan == w.pass.view.plan))
            && (w'.pass.Idle? || step.Observe? || (!w.pass.Idle? && w'.pass.view == w.pass.view))
            && (step.Observe? ==> w'.pass == Planned(step.view))
  {
    if step.Execute? { ActHasShape(w.(clock := step.at), w.pass.view, w.pass.emitted, w.pass.made, step); }
  }

  lemma PassKeepsSite(s: Site, step: Step)
    requires SiteOk(s) && Happens(s, Pass(step))
    ensures SiteOk(After(s, Pass(step)))
  {
    var s' := After(s, Pass(step));
    StepKeepsHistory(s.w, step);
    PassShape(s.w, step);
    if step.Observe? { TargetsNamed(step.view.signals, step.view.policy, step.view.packing, step.view.plan.targets); }
    forall n ensures AbsentOk(s', n) {
      assert AbsentOk(s, n);
      if s'.w.log != s.w.log {
        assert Empties(s'.w.log[|s.w.log|].plan, n) ==> n in s.present;
        forall j | 0 <= j < |s'.w.log| && Empties(s'.w.log[j].plan, n)
          ensures if n in s.present then j >= s.madeAt[n] || (n in s.goneAt && j < s.goneAt[n])
                  else n in s.goneAt && j < s.goneAt[n]
        {
          if j < |s.w.log| { assert s'.w.log[j] == s.w.log[j]; }
        }
      }
    }
  }

  lemma EventKeepsSite(s: Site, e: Event)
    requires SiteOk(s) && Happens(s, e)
    ensures SiteOk(After(s, e))
  {
    match e
    case Pass(step) => PassKeepsSite(s, step);
    case _ =>
      var s' := After(s, e);
      forall n ensures AbsentOk(s', n) { assert AbsentOk(s, n); }
  }

  lemma {:induction false} RunKeepsSite(s: Site, events: seq<Event>, s': Site)
    requires SiteOk(s) && Leads(s, events, s')
    ensures SiteOk(s')
    decreases |events|
  {
    if events != [] {
      EventKeepsSite(s, events[0]);
      RunKeepsSite(After(s, events[0]), events[1..], s');
    }
  }

  // ------------------------------------------------------------------ one clock, two machines

  // The stretch of plans the clock measures begins before the machine that has the name was made.
  ghost predicate SpansMachines(s: Site, name: string) {
    name in s.madeAt && exists k :: Unbroken(s.w.log, k, |s.w.log|, name) && k < s.madeAt[name]
  }

  // In every reachable state the clock of a member that is there measures its own machine alone, unless
  // the name's last machine was found empty and went, this one was made with no plan published in
  // between, and every plan since has found this one empty too; and then it measures both.
  lemma ClockSpansMachinesExactly(s: Site, events: seq<Event>, s': Site, name: string)
    requires SiteBegins(s) && Leads(s, events, s') && name in s'.present && Clock(s'.w.status, name).Some?
    ensures name in s'.madeAt
    ensures SpansMachines(s', name) <==>
              && name in s'.goneAt && s'.goneAt[name] == s'.madeAt[name] > 0 && s'.madeAt[name] <= |s'.w.log|
              && forall j | s'.madeAt[name] - 1 <= j < |s'.w.log| :: Empties(s'.w.log[j].plan, name)
  {
    assert SiteOk(s);
    RunKeepsSite(s, events, s');
    assert AbsentOk(s', name);
    var log, made := s'.w.log, s'.madeAt[name];
    var k := OnsetMeans(log, name);
    forall i | Unbroken(log, i, |log|, name) ensures i == k { StretchUnique(log, name, i, k); }
    if k < made {
      assert Empties(log[made - 1].plan, name);
    } else if 0 < made {
      assert k > made - 1 && (k > 0 ==> !Empties(log[k - 1].plan, name));
    }
  }

  lemma StretchUnique(log: seq<Published>, name: string, a: nat, b: nat)
    requires Unbroken(log, a, |log|, name) && Unbroken(log, b, |log|, name)
    ensures a == b
  {
    var j := Max(a, b) - 1;
    assert a != b ==> Min(a, b) <= j < |log|;
  }

  // And it does happen: whatever the state, a member with a clock that is lost and made again between
  // two passes has the same clock, which was running before its machine existed.
  lemma RemadeKeepsTheClock(s: Site, events: seq<Event>, s1: Site, name: string) returns (s2: Site)
    requires SiteBegins(s) && Leads(s, events, s1) && s1.w.pass.Idle?
    requires name in s1.present && Clock(s1.w.status, name).Some?
    ensures Happens(s1, Lose(name)) && Happens(After(s1, Lose(name)), Make(name))
    ensures s2 == After(After(s1, Lose(name)), Make(name))
    ensures Clock(s2.w.status, name) == Clock(s1.w.status, name) && SpansMachines(s2, name)
  {
    assert SiteOk(s);
    RunKeepsSite(s, events, s1);
    s2 := After(After(s1, Lose(name)), Make(name));
    var k := OnsetMeans(s1.w.log, name);
    assert Unbroken(s2.w.log, k, |s2.w.log|, name) && k < s2.madeAt[name];
  }
}
