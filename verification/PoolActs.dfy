/** What executing the selected action does to the pool, whichever of its calls fails. */
module PoolActs {
  import opened Common
  import opened Autoscale
  import opened Planner
  import opened History
  import opened PoolRun

  // Some move that was tried had its name free.
  ghost predicate SomeFree(moves: map<string, MoveState>, asked: seq<Move>, cut: nat) {
    exists k | 0 <= k < |asked| && k < cut :: FreeAt(moves, asked, k)
  }

  // An emission creates exactly when some name it tries is free, emits exactly when the records change, and
  // breaks off exactly when a call fails before it has created.
  lemma EmissionMeans(moves: map<string, MoveState>, asked: seq<Move>, cut: nat)
    ensures var e := EmitUpTo(moves, asked, cut);
            && (e.created <==> SomeFree(moves, asked, cut)) && (e.emitted <==> e.moves != moves)
            && (Broke(e, asked, cut) <==> cut < |asked| && !SomeFree(moves, asked, cut))
            && (Broke(e, asked, cut) ==> LeftOf(moves, asked[..cut], e.moves))
  {
    var tried := if cut < |asked| then asked[..cut] else asked;
    var k, left := EmitExactly(moves, tried);
    forall j | 0 <= j < |tried| ensures FreeAt(moves, tried, j) <==> FreeAt(moves, asked, j) {
      assert forall i | 0 <= i <= j :: tried[i] == asked[i];
    }
    if k == |tried| { assert tried[..k] == tried; }
    if k < |tried| { assert MoveName(tried[k]) !in left || left[MoveName(tried[k])] == Settled; }
  }

  // An action that moves tenants, with no drain ahead of it.  The pass ends there exactly when a call failed
  // before any migration was made, with the settled records of the moves tried cleared all the same;
  // otherwise it reports the action applied exactly when the records changed.  The declared count and the
  // members are as they were.
  lemma MovingMeans(w: World, step: Step)
    requires step.Execute? && Enabled(w, step) && step.selected.Some? && !w.pass.emitted
    requires var c := step.selected.value.class_;
             c == Rebalance || (c == ScaleIn && w.pass.view.plan.consolidationTarget.Some? && step.asked != [])
    ensures var w', c := Apply(w, step), step.selected.value.class_;
            && (w'.pass.Idle? <==> step.cut < |step.asked| && !SomeFree(w.moves, step.asked, step.cut))
            && (!w'.pass.Idle? ==>
                  && w'.pass == Acted(w.pass.view, Some(Executed(c, step.at, w'.moves != w.moves, false)),
                                      w.pass.made + if SomeFree(w.moves, step.asked, step.cut) then 1 else 0)
                  && Ran(w, w', c, step.at, w'.moves != w.moves))
            && (w'.pass.Idle? ==> w'.runs == w.runs && LeftOf(w.moves, step.asked[..step.cut], w'.moves))
            && w'.declared == w.declared && w'.cordoned == w.cordoned && w'.marked == w.marked
  {
    EmissionMeans(w.moves, step.asked, step.cut);
  }

  // The runs gained one if the action applied, decided on the view in hand, and otherwise none.
  ghost predicate Ran(w: World, w': World, c: Class, at: int, applied: bool)
    requires !w.pass.Idle?
  {
    w'.runs == w.runs +
      if applied then [Run(w.pass.view, c, at, w.declared, w'.declared, w'.marked, |w.log|, false)] else []
  }

  // A scale-in whose victim has nothing left to move.  The victim is cordoned and marked exactly when it was
  // not cordoned as the pass saw it and the first patch goes through; the count is lowered, by one, exactly
  // when that did not fail, it is above the recommendation, and the second patch goes through; and the pass
  // ends there exactly when a patch it tried fails.
  lemma RetiringMeans(w: World, step: Step)
    requires step.Execute? && Enabled(w, step) && step.selected.Some? && !w.pass.emitted && step.asked == []
    requires step.selected.value.class_ == ScaleIn && w.pass.view.plan.consolidationTarget.Some?
    ensures var w', v := Apply(w, step), w.pass.view;
            var victim := v.plan.consolidationTarget.value;
            var spared := victim in v.cordoned;
            && w'.cordoned == w.cordoned + (if !spared && step.cut != 0 then {victim} else {})
            && w'.marked == w.marked + (if !spared && step.cut != 0 then {victim} else {})
            && w'.declared == w.declared -
                 (if (spared || step.cut != 0) && step.cut != 1 && w.declared > v.plan.recommended then 1 else 0)
            && (w'.pass.Idle? <==>
                  (!spared && step.cut == 0) || (step.cut == 1 && w.declared > v.plan.recommended))
            && (!w'.pass.Idle? ==>
                  && w'.pass == Acted(v, Some(Executed(ScaleIn, step.at, w'.declared < w.declared, false)), w.pass.made)
                  && Ran(w, w', ScaleIn, step.at, w'.declared < w.declared))
            && (w'.pass.Idle? ==> w'.runs == w.runs) && w'.moves == w.moves
  {}

  // Growing: one more member is declared exactly when more are recommended than serve.  A volume is grown
  // without a member more or less.
  lemma GrowingMeans(w: World, step: Step)
    requires step.Execute? && Enabled(w, step) && step.selected.Some?
    requires step.selected.value.class_ == ScaleOut || step.selected.value.class_ == StorageExpand
    ensures var w', v, c := Apply(w, step), w.pass.view, step.selected.value.class_;
            var applied := if c == ScaleOut then v.plan.recommended > v.plan.serving else step.grew;
            && w'.declared == w.declared + (if c == ScaleOut && applied then 1 else 0)
            && w'.pass == Acted(v, Some(Executed(c, step.at, applied, false)), w.pass.made)
            && Ran(w, w', c, step.at, applied)
            && w'.moves == w.moves && w'.cordoned == w.cordoned && w'.marked == w.marked
  {}

  // Behind a drain that emitted, an action that would move tenants is put off, and says it failed; and with
  // nothing selected nothing is done.
  lemma PutOffMeans(w: World, step: Step)
    requires step.Execute? && Enabled(w, step)
    requires step.selected.Some? ==>
               w.pass.emitted && (step.selected.value.class_ == Rebalance || step.selected.value.class_ == ScaleIn)
    ensures var w' := Apply(w, step);
            && w' == w.(clock := step.at, pass := w'.pass)
            && w'.pass.Acted? && w'.pass.view == w.pass.view && w'.pass.made == w.pass.made
            && match step.selected
               case None => w'.pass.executed.None?
               case Some(a) => w'.pass.executed == Some(Executed(a.class_, step.at, false, true))
  {}

  // A drain: the pass ends there exactly when a call failed before any migration was made; otherwise it goes
  // on, knowing whether the records changed and whether one was made.  Nothing else changes.
  lemma DrainingMeans(w: World, asked: seq<Move>, cut: nat)
    requires Enabled(w, Evacuate(asked, cut))
    ensures var w' := Apply(w, Evacuate(asked, cut));
            && w' == w.(moves := w'.moves, pass := w'.pass)
            && (w'.pass.Idle? <==> cut < |asked| && !SomeFree(w.moves, asked, cut))
            && (w'.pass.Idle? ==> LeftOf(w.moves, asked[..cut], w'.moves))
            && (!w'.pass.Idle? ==>
                  w'.pass == Evacuated(w.pass.view, w'.moves != w.moves,
                                       if SomeFree(w.moves, asked, cut) then 1 else 0))
  {
    EmissionMeans(w.moves, asked, cut);
  }

  // Publishing: the status, the log and the clock, and the run of this pass is marked published.
  lemma PublishingMeans(w: World, at: int, status: PlanStatus)
    requires Enabled(w, Publish(at, status))
    ensures var w' := Apply(w, Publish(at, status));
            && w'.status == Some(status) && w'.clock == at && w'.pass.Idle?
            && |w'.log| == |w.log| + 1 && w'.log[..|w.log|] == w.log
            && w'.log[|w.log|] == Published(at, w.pass.view.plan, w.pass.executed)
            && |w'.runs| == |w.runs| && (w.runs != [] ==> w'.runs[..|w.runs| - 1] == w.runs[..|w.runs| - 1])
            && (w.runs != [] && w.pass.executed.Some? && w.pass.executed.value.applied ==>
                  w'.runs[|w.runs| - 1] == w.runs[|w.runs| - 1].(published := true))
            && (!(w.pass.executed.Some? && w.pass.executed.value.applied) ==> w'.runs == w.runs)
            && w'.declared == w.declared && w'.moves == w.moves && w'.cordoned == w.cordoned && w'.marked == w.marked
  {}
}
