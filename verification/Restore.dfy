/** The tenant restore: a destructive copy that must run at most once.

    The API server keeps every version of the PgRestore object; a version's index is its
    resource version, and a write is accepted only when it carries the newest one.  Any number of
    reconcile passes may be in flight at once (an old leader finishing while a new one starts),
    each may have read an arbitrarily old version out of its cache, any call may fail, a write may
    be applied and still be reported as failed, and a pass may die between any two statements. */
module Restore {

  type Role = string

  datatype Phase = Preflight | Recovering | Extracting | Loading | Completed | Failed

  predicate Terminal(phase: Phase) { phase == Completed || phase == Failed }

  // What a pass did to the live tenant, in order.  History only: nothing branches on it.
  datatype Effect = HeldOut | Copied(ok: bool) | Discarded | Readmitted(ok: bool) | Revoked(ok: bool)

  // One stored version: the phase, whether copyStartedAt is set, and (history) the effects of the
  // pass that wrote it.
  datatype Version = Version(phase: Phase, marker: bool, trail: seq<Effect>)

  // Where a pass is: the statement it runs next.
  datatype Point =
    | Converge | Observe | Prepare | Enumerate | Mark | Hold | Copy
    | Discard | Readmit | Revoke | Conclude | Publish | Done

  // A pass: the version it read or last wrote, its in-memory status, the named result of
  // replaceTenant, and the roles it has to put back.  `cleared` is history: its marker is durable.
  datatype Pass = Pass(
    rv: nat, phase: Phase, marker: bool, at: Point, failed: bool,
    held: set<Role>, cleared: bool, trail: seq<Effect>)

  // The live tenant: how many destructive copies were started on it, whether one loaded in full,
  // the roles locked out, and whether the replication role may be holding reads.
  datatype Live = Live(copies: nat, loaded: bool, out: set<Role>, granted: bool)

  datatype World = World(versions: seq<Version>, passes: map<nat, Pass>, live: Live)

  // What one call answered.  Ambiguous is a write the server applied and the caller saw fail.
  // `roles` is what a hold-out read off the tenant's ACL; `part` is the roles a hold-out or a
  // readmission that failed part way had got through.
  // NotReady is a recovery instance still being built; Refused is a refusal written on the object.
  datatype Outcome = Ok | Fails | Ambiguous | NotReady | Refused

  datatype Step =
    | Begin(id: nat, rv: nat)
    | Act(id: nat, outcome: Outcome, roles: set<Role>, part: set<Role>)
    | Crash(id: nat)
    | Touch

  function Newest(w: World): nat
    requires |w.versions| > 0
  { |w.versions| - 1 }

  predicate Enabled(w: World, step: Step) {
    && |w.versions| > 0
    && match step
       case Begin(id, rv) => id !in w.passes && rv < |w.versions|
       case Act(id, _, _, _) => id in w.passes && w.passes[id].rv < |w.versions| && w.passes[id].at != Done
       case Crash(id) => id in w.passes
       case Touch => true
  }

  // A status update: accepted only on the newest version, in which case the object gains one.
  function Write(w: World, p: Pass, outcome: Outcome): (r: (World, bool))
    requires |w.versions| > 0
  {
    var accepted := p.rv == Newest(w) && (outcome == Ok || outcome == Ambiguous);
    (if accepted
     then w.(versions := w.versions + [Version(p.phase, p.marker, p.trail)])
     else w,
     accepted && outcome == Ok)
  }

  function With(w: World, id: nat, p: Pass): World { w.(passes := w.passes[id := p]) }

  // The statement each point stands for, except the two status writes.  Failing out of
  // replaceTenant jumps to the deferred calls registered so far, which run last-registered first:
  // discard, readmit, revoke.
  function Work(p: Pass, live: Live, outcome: Outcome, roles: set<Role>, part: set<Role>): (Pass, Live) {
    match p.at
    case Converge =>
      // A finished restore converges towards nothing; a marker with no ending is a dead copy.
      if Terminal(p.phase) then (p.(at := Done), live)
      else if p.marker then (p.(phase := Failed, at := Publish), live)
      else (p.(at := Observe), live)
    case Observe =>
      // The tenant, the recovery instance and its credentials.
      if outcome == Ok then (p.(phase := Extracting, at := Prepare), live)
      else if outcome == NotReady then (p.(phase := Recovering, at := Publish), live)
      else if outcome == Refused then (p.(at := Publish), live)
      else (p.(at := Done), live)
    case Prepare =>
      // Collation, credential and the grants on the recovered copy: no cleanup registered yet.
      (if outcome == Ok then p.(at := Enumerate) else p.(failed := true, at := Conclude), live)
    case Enumerate =>
      (if outcome == Ok then p.(at := Mark) else p.(failed := true, at := Revoke), live)
    case Hold =>
      // What was read is kept whether or not every revoke went through.
      var gone := if outcome == Ok then roles else part * roles;
      (p.(held := roles, failed := outcome != Ok, trail := p.trail + [HeldOut],
          at := if outcome == Ok then Copy else Readmit),
       live.(out := live.out + gone))
    case Copy =>
      // pg_restore --clean carries the source's ACLs, so the reads ride in with the data.
      (p.(phase := Loading, failed := outcome != Ok, trail := p.trail + [Copied(outcome == Ok)], at := Discard),
       live.(copies := live.copies + 1, loaded := outcome == Ok, granted := true))
    case Discard => (p.(trail := p.trail + [Discarded], at := Readmit), live)
    case Readmit =>
      var back := if outcome == Ok then p.held else part * p.held;
      (p.(failed := p.failed || outcome != Ok, trail := p.trail + [Readmitted(outcome == Ok)], at := Revoke),
       live.(out := live.out - back))
    case Revoke =>
      (p.(failed := p.failed || outcome != Ok, trail := p.trail + [Revoked(outcome == Ok)], at := Conclude),
       live.(granted := live.granted && outcome != Ok))
    case Conclude =>
      // Past the clearance a failure is terminal; before it, nothing happened and it is retried.
      (p.(phase := if !p.failed then Completed else if p.marker then Failed else p.phase, at := Publish), live)
    case _ => (p, live)
  }

  // One statement of one pass.
  function Advance(w: World, id: nat, outcome: Outcome, roles: set<Role>, part: set<Role>): World
    requires Enabled(w, Act(id, outcome, roles, part))
  {
    var p := w.passes[id];
    if p.at == Mark then
      // The clearance, flushed before anything is touched and taken back off if the flush fails.
      var (w', ok) := Write(w, p.(marker := true), outcome);
      With(w', id, if ok then p.(marker := true, rv := Newest(w'), cleared := true, at := Hold)
                   else p.(failed := true, at := Revoke))
    else if p.at == Publish then
      With(Write(w, p, outcome).0, id, p.(at := Done))
    else
      var (p', live') := Work(p, w.live, outcome, roles, part);
      With(w.(live := live'), id, p')
  }

  function Apply(w: World, step: Step): World
    requires Enabled(w, step)
  {
    match step
    case Begin(id, rv) =>
      var v := w.versions[rv];
      With(w, id, Pass(rv, v.phase, v.marker, Converge, false, {}, false, []))
    case Act(id, outcome, roles, part) => Advance(w, id, outcome, roles, part)
    case Crash(id) => w.(passes := w.passes - {id})
    case Touch => w.(versions := w.versions + [w.versions[Newest(w)]])
  }

  // A new restore, before anything has been done for it.
  const Fresh: World := World([Version(Preflight, false, [])], map[], Live(0, false, {}, false))

  ghost predicate Reaches(w: World, steps: seq<Step>, w': World)
    decreases |steps|
  {
    if steps == [] then w' == w
    else Enabled(w, steps[0]) && Reaches(Apply(w, steps[0]), steps[1..], w')
  }

  // ------------------------------------------------------------------ the invariant

  // The whole trail of a pass that will report Completed.
  const FULL: seq<Effect> := [HeldOut, Copied(true), Discarded, Readmitted(true), Revoked(true)]

  predicate Finished(live: Live) {
    live.copies == 1 && live.loaded && live.out == {} && !live.granted
  }

  // The first `n` effects of the whole trail, and no more.
  predicate SoFar(trail: seq<Effect>, n: nat)
    requires n <= 5
  {
    |trail| == n && forall i | 0 <= i < n :: trail[i] == FULL[i]
  }

  // A pass that failed somewhere has not left the trail of one that did not, and a cleared one ends.
  predicate TrailOk(p: Pass) {
    match p.at
    case Discard => p.failed ==> !SoFar(p.trail, 2)
    case Readmit => p.failed ==> !SoFar(p.trail, 3)
    case Revoke => p.failed ==> !SoFar(p.trail, 4)
    case Conclude => p.failed ==> !SoFar(p.trail, 5)
    case Publish => (p.phase != Completed ==> p.trail != FULL) && (p.marker <==> Terminal(p.phase))
    case _ => true
  }

  // What a pass may believe, given the version it holds and the live tenant.  Only a cleared pass
  // ever depends on the live tenant.
  ghost predicate PassOk(v: Version, live: Live, p: Pass) {
    && p.marker == v.marker
    && (p.cleared ==> p.marker)
    && TrailOk(p)
    && match p.at
       case Converge => !p.cleared && !p.failed && p.trail == [] && p.phase == v.phase
       case Observe => Untouched(v, p)
       case Prepare => Untouched(v, p)
       case Enumerate => Untouched(v, p)
       case Mark => Untouched(v, p)
       case Hold =>
         && p.cleared && !p.failed && p.trail == FULL[..0] && Unended(v, p)
         && live.copies == 0 && live.out == {}
       case Copy =>
         && p.cleared && !p.failed && p.trail == FULL[..1] && Unended(v, p)
         && live.copies == 0 && live.out <= p.held
       case Discard =>
         && p.cleared && live.copies == 1 && live.out <= p.held && Unended(v, p)
         && (!p.failed ==> live.loaded && p.trail == FULL[..2])
       case Readmit =>
         && p.cleared && live.out <= p.held && Unended(v, p)
         && (!p.failed ==> live.copies == 1 && live.loaded && p.trail == FULL[..3])
       case Revoke =>
         && Unended(v, p)
         && (!p.failed ==> p.cleared && live.copies == 1 && live.loaded && live.out == {} && p.trail == FULL[..4])
       case Conclude =>
         && Unended(v, p)
         && (!p.failed ==> p.cleared && Finished(live) && p.trail == FULL)
       case Publish =>
         && !Terminal(v.phase)
         && (p.phase == Completed ==> p.cleared && Finished(live) && p.trail == FULL)
       case Done => true
  }

  ghost predicate Unended(v: Version, p: Pass) { !Terminal(v.phase) && !Terminal(p.phase) }

  ghost predicate Untouched(v: Version, p: Pass) {
    !p.marker && !p.failed && p.trail == [] && !Terminal(p.phase) && !Terminal(v.phase)
  }

  // The marker is never cleared, an ending is never left, the Completed versions are those written by
  // a pass that did everything in order, and a cleared pass that did anything wrote an ending.
  ghost predicate HistoryOk(versions: seq<Version>) {
    && |versions| > 0
    && (forall i, j | 0 <= i <= j < |versions| && versions[i].marker :: versions[j].marker)
    && (forall i, j | 0 <= i <= j < |versions| && Terminal(versions[i].phase) ::
          versions[j].phase == versions[i].phase)
    && (forall i | 0 <= i < |versions| :: VersionOk(versions[i]))
  }

  predicate VersionOk(v: Version) {
    && (v.phase == Completed <==> v.trail == FULL)
    && (v.marker && v.trail != [] ==> Terminal(v.phase)) && (Terminal(v.phase) ==> v.marker)
  }

  ghost predicate PassesOk(w: World) {
    && (forall id | id in w.passes ::
          w.passes[id].rv < |w.versions| && PassOk(w.versions[w.passes[id].rv], w.live, w.passes[id]))
    && (forall a, b | a in w.passes && b in w.passes && w.passes[a].cleared && w.passes[b].cleared :: a == b)
  }

  ghost predicate LiveOk(w: World)
    requires |w.versions| > 0
  {
    var newest := w.versions[Newest(w)];
    && w.live.copies <= 1
    && (!newest.marker ==> w.live == Live(0, false, {}, false))
    && (newest.phase == Completed ==>
          Finished(w.live) && forall id | id in w.passes && w.passes[id].cleared :: w.passes[id].at == Done)
  }

  ghost predicate Inv(w: World) {
    HistoryOk(w.versions) && PassesOk(w) && LiveOk(w)
  }

  lemma BeginKeeps(w: World, id: nat, rv: nat)
    requires Inv(w) && Enabled(w, Begin(id, rv))
    ensures Inv(Apply(w, Begin(id, rv)))
  {}

  lemma CrashKeeps(w: World, id: nat)
    requires Inv(w) && Enabled(w, Crash(id))
    ensures Inv(Apply(w, Crash(id)))
  {}

  lemma TouchKeeps(w: World)
    requires Inv(w)
    ensures Inv(Apply(w, Touch))
  {}

  predicate Writes(at: Point) { at == Mark || at == Publish }

  // A trail already spoilt stays so, whatever is done next.
  lemma Spoilt(trail: seq<Effect>, n: nat, e: Effect)
    requires n < 5 && (SoFar(trail, n) ==> e != FULL[n])
    ensures !SoFar(trail + [e], n + 1)
  {
    assert forall i | 0 <= i < |trail| :: trail[i] == (trail + [e])[i];
    assert (trail + [e])[|trail|] == e;
  }

  lemma WorkKeepsTrail(v: Version, live: Live, p: Pass, outcome: Outcome, roles: set<Role>, part: set<Role>)
    requires PassOk(v, live, p)
    ensures TrailOk(Work(p, live, outcome, roles, part).0)
  {
    var n := match p.at case Copy => 1 case Discard => 2 case Readmit => 3 case Revoke => 4 case _ => 0;
    var p' := Work(p, live, outcome, roles, part).0;
    if p'.failed && n > 0 {
      Spoilt(p.trail, n, p'.trail[|p.trail|]);
    }
    assert p.trail == FULL ==> SoFar(p.trail, 5);
  }

  lemma WorkKeepsPass(v: Version, live: Live, p: Pass, outcome: Outcome, roles: set<Role>, part: set<Role>)
    requires PassOk(v, live, p) && !Writes(p.at)
    ensures var (p', live') := Work(p, live, outcome, roles, part);
            && p'.rv == p.rv && p'.cleared == p.cleared
            && PassOk(v, live', p')
            && (!p.cleared ==> live' == live || live' == live.(granted := false))
            && (live.copies <= 1 ==> live'.copies <= 1)
            && (p.at == Done ==> p' == p && live' == live)
  {
    WorkKeepsTrail(v, live, p, outcome, roles, part);
  }

  // A pass that is not cleared does not depend on the live tenant, and taking the reads back never
  // hurts anybody.
  lemma OthersKeep(v: Version, live: Live, q: Pass, live': Live)
    requires PassOk(v, live, q)
    requires !q.cleared || live' == live || live' == live.(granted := false)
    ensures PassOk(v, live', q)
  {}

  lemma WorkKeeps(w: World, id: nat, outcome: Outcome, roles: set<Role>, part: set<Role>)
    requires Inv(w) && Enabled(w, Act(id, outcome, roles, part)) && !Writes(w.passes[id].at)
    ensures Inv(Advance(w, id, outcome, roles, part))
  {
    var w' := Advance(w, id, outcome, roles, part);
    var p := w.passes[id];
    WorkKeepsPass(w.versions[p.rv], w.live, p, outcome, roles, part);
    forall other | other in w'.passes
      ensures w'.passes[other].rv < |w'.versions|
      ensures PassOk(w'.versions[w'.passes[other].rv], w'.live, w'.passes[other])
    {
      if other != id {
        OthersKeep(w.versions[w.passes[other].rv], w.live, w.passes[other], w'.live);
      }
    }
  }

  // A write that is accepted replaces exactly the version the writer holds.
  lemma WriteKeepsHistory(w: World, p: Pass, outcome: Outcome)
    requires HistoryOk(w.versions) && p.rv < |w.versions|
    requires w.versions[p.rv].marker ==> p.marker
    requires !Terminal(w.versions[p.rv].phase)
    requires VersionOk(Version(p.phase, p.marker, p.trail))
    ensures var (w', ok) := Write(w, p, outcome);
            && HistoryOk(w'.versions) && w' == w.(versions := w'.versions)
            && w.versions <= w'.versions
            && (w' != w ==> p.rv == Newest(w) && w'.versions[Newest(w')] == Version(p.phase, p.marker, p.trail))
            && (ok ==> |w'.versions| == |w.versions| + 1)
  {}

  // The other passes do not notice a version being added.
  lemma OthersStand(w: World, id: nat, w': World)
    requires PassesOk(w) && id in w.passes && id in w'.passes && w'.passes == w.passes[id := w'.passes[id]]
    requires w'.live == w.live && w.versions <= w'.versions
    requires w'.passes[id].rv < |w'.versions| && PassOk(w'.versions[w'.passes[id].rv], w'.live, w'.passes[id])
    requires w'.passes[id].cleared ==> forall other | other in w.passes && other != id :: !w.passes[other].cleared
    ensures PassesOk(w')
  {
    forall other | other in w'.passes && other != id
      ensures w'.passes[other].rv < |w'.versions|
      ensures PassOk(w'.versions[w'.passes[other].rv], w'.live, w'.passes[other])
    {
      assert w'.versions[w.passes[other].rv] == w.versions[w.passes[other].rv];
    }
  }

  // A cleared pass holds a version with the marker, so where the newest has none nobody is cleared.
  lemma NobodyCleared(w: World, id: nat)
    requires HistoryOk(w.versions) && PassesOk(w) && !w.versions[Newest(w)].marker && id in w.passes
    ensures !w.passes[id].cleared
  { assert PassOk(w.versions[w.passes[id].rv], w.live, w.passes[id]); }

  // What the marker's write does: refused, it sends the pass to its cleanup; accepted, it is the
  // newest version's first marker.
  lemma MarkShape(w: World, id: nat, outcome: Outcome, roles: set<Role>, part: set<Role>)
    requires Inv(w) && Enabled(w, Act(id, outcome, roles, part)) && w.passes[id].at == Mark
    ensures var w' := Advance(w, id, outcome, roles, part);
            && id in w'.passes && w'.passes == w.passes[id := w'.passes[id]]
            && w'.live == w.live && w.versions <= w'.versions && HistoryOk(w'.versions)
            && w'.passes[id].rv < |w'.versions| && PassOk(w'.versions[w'.passes[id].rv], w'.live, w'.passes[id])
            && (w'.passes[id].cleared ==> !w.versions[Newest(w)].marker)
            && (w'.versions != w.versions ==>
                  w'.versions[Newest(w')].marker && w'.versions[Newest(w')].phase != Completed)
  {
    var p := w.passes[id];
    assert PassOk(w.versions[p.rv], w.live, p);
    WriteKeepsHistory(w, p.(marker := true), outcome);
  }

  lemma MarkKeeps(w: World, id: nat, outcome: Outcome, roles: set<Role>, part: set<Role>)
    requires Inv(w) && Enabled(w, Act(id, outcome, roles, part)) && w.passes[id].at == Mark
    ensures Inv(Advance(w, id, outcome, roles, part))
  {
    MarkShape(w, id, outcome, roles, part);
    MarkedKeeps(w, id, Advance(w, id, outcome, roles, part));
  }

  lemma MarkedKeeps(w: World, id: nat, w': World)
    requires Inv(w) && id in w.passes && w.passes[id].at == Mark
    requires id in w'.passes && w'.passes == w.passes[id := w'.passes[id]]
    requires w'.live == w.live && w.versions <= w'.versions && HistoryOk(w'.versions)
    requires w'.passes[id].rv < |w'.versions| && PassOk(w'.versions[w'.passes[id].rv], w'.live, w'.passes[id])
    requires w'.passes[id].cleared ==> !w.versions[Newest(w)].marker
    requires w'.versions != w.versions ==> w'.versions[Newest(w')].marker && w'.versions[Newest(w')].phase != Completed
    ensures Inv(w')
  {
    forall other | other in w.passes && w'.passes[id].cleared ensures !w.passes[other].cleared {
      NobodyCleared(w, other);
    }
    OthersStand(w, id, w');
    if w'.versions == w.versions {
      assert Newest(w') == Newest(w);
      assert w'.versions[Newest(w)].phase == Completed ==> !w'.passes[id].cleared by {
        assert PassOk(w.versions[w.passes[id].rv], w.live, w.passes[id]);
        assert PassOk(w'.versions[w'.passes[id].rv], w'.live, w'.passes[id]);
      }
    }
  }

  lemma PublishKeeps(w: World, id: nat, outcome: Outcome, roles: set<Role>, part: set<Role>)
    requires Inv(w) && Enabled(w, Act(id, outcome, roles, part)) && w.passes[id].at == Publish
    ensures Inv(Advance(w, id, outcome, roles, part))
  {
    var w' := Advance(w, id, outcome, roles, part);
    var p := w.passes[id];
    assert PassOk(w.versions[p.rv], w.live, p);
    WriteKeepsHistory(w, p, outcome);
    OthersStand(w, id, w');
  }

  lemma StepKeeps(w: World, step: Step)
    requires Inv(w) && Enabled(w, step)
    ensures Inv(Apply(w, step))
  {
    match step
    case Begin(id, rv) => BeginKeeps(w, id, rv);
    case Crash(id) => CrashKeeps(w, id);
    case Touch => TouchKeeps(w);
    case Act(id, outcome, roles, part) =>
      if w.passes[id].at == Mark { MarkKeeps(w, id, outcome, roles, part); }
      else if w.passes[id].at == Publish { PublishKeeps(w, id, outcome, roles, part); }
      else { WorkKeeps(w, id, outcome, roles, part); }
  }

  lemma {:induction false} RunKeeps(w: World, steps: seq<Step>, w': World)
    requires Inv(w) && Reaches(w, steps, w')
    ensures Inv(w')
    decreases |steps|
  {
    if steps != [] {
      StepKeeps(w, steps[0]);
      RunKeeps(Apply(w, steps[0]), steps[1..], w');
    }
  }

  // ------------------------------------------------------------------ what the restore promises

  // Whatever crashes, fails, is read stale or runs concurrently: the destructive copy starts at most
  // once, and never before a stored version says it was cleared to.
  lemma CopyRunsAtMostOnce(steps: seq<Step>, w: World)
    requires Reaches(Fresh, steps, w)
    ensures w.live.copies <= 1
    ensures w.live.copies == 1 ==> exists i :: 0 <= i < |w.versions| && w.versions[i].marker
    ensures w.live.out != {} ==> exists i :: 0 <= i < |w.versions| && w.versions[i].marker
  {
    RunKeeps(Fresh, steps, w);
    assert w.versions[Newest(w)].marker || w.live == Live(0, false, {}, false);
  }

  // Completed means the one copy loaded in full, every role held out was let back in and only then
  // were the replication reads taken back; and none of that is undone afterwards.
  lemma CompletedMeansDone(steps: seq<Step>, w: World, i: nat)
    requires Reaches(Fresh, steps, w) && i < |w.versions| && w.versions[i].phase == Completed
    ensures w.live == Live(1, true, {}, false)
    ensures w.versions[i].trail == [HeldOut, Copied(true), Discarded, Readmitted(true), Revoked(true)]
  {
    RunKeeps(Fresh, steps, w);
    assert w.versions[Newest(w)].phase == Completed;
  }

  // And it is said: whatever else ran, a stored version whose pass did all five in order says
  // Completed, one whose cleared pass did anything else says Failed, and a failure before the clearance is
  // no ending.
  lemma EndingSaysWhatWasDone(steps: seq<Step>, w: World, i: nat)
    requires Reaches(Fresh, steps, w) && i < |w.versions|
    ensures w.versions[i].trail == [HeldOut, Copied(true), Discarded, Readmitted(true), Revoked(true)] ==>
              w.versions[i].phase == Completed
    ensures w.versions[i].marker && w.versions[i].trail != []
            && w.versions[i].trail != [HeldOut, Copied(true), Discarded, Readmitted(true), Revoked(true)] ==>
              w.versions[i].phase == Failed
    ensures Terminal(w.versions[i].phase) ==> w.versions[i].marker
  {
    RunKeeps(Fresh, steps, w);
    assert VersionOk(w.versions[i]);
  }

  // A cleared pass that nothing has failed, and that nobody has overtaken.
  predicate OnCourse(w: World, id: nat) {
    && id in w.passes
    && var p := w.passes[id];
       && p.cleared && p.rv + 1 == |w.versions| && StepsToEnd(p.at) > 0
       && (if p.at == Publish then p.phase == Completed else !p.failed)
  }

  function StepsToEnd(at: Point): nat {
    match at
    case Hold => 7
    case Copy => 6
    case Discard => 5
    case Readmit => 4
    case Revoke => 3
    case Conclude => 2
    case Publish => 1
    case _ => 0
  }

  lemma StaysOnCourse(w: World, id: nat, roles: set<Role>)
    requires OnCourse(w, id) && w.passes[id].at != Publish
    ensures Enabled(w, Act(id, Ok, roles, {})) && OnCourse(Apply(w, Act(id, Ok, roles, {})), id)
    ensures StepsToEnd(Apply(w, Act(id, Ok, roles, {})).passes[id].at) < StepsToEnd(w.passes[id].at)
  {}

  // It completes if every call it still has to make answers.
  lemma {:induction false} CourseCompletes(w: World, id: nat, roles: set<Role>)
    returns (steps: seq<Step>, w': World)
    requires Inv(w) && OnCourse(w, id)
    ensures Reaches(w, steps, w') && |w'.versions| > 0 && w'.versions[Newest(w')].phase == Completed
    decreases StepsToEnd(w.passes[id].at)
  {
    var step := Act(id, Ok, roles, {});
    var next := Apply(w, step);
    if w.passes[id].at == Publish {
      steps, w' := [step], next;
      Prepend(w, step, next, [], next);
    } else {
      StaysOnCourse(w, id, roles);
      StepKeeps(w, step);
      var rest;
      rest, w' := CourseCompletes(next, id, roles);
      steps := [step] + rest;
      Prepend(w, step, next, rest, w');
    }
  }

  // A restore can complete: from the object as created, for any roles found with a way in, a run in
  // which every call answers stores a Completed version.
  lemma RestoreCanComplete(roles: set<Role>) returns (steps: seq<Step>, w: World)
    ensures Reaches(Fresh, steps, w) && Act(0, Ok, roles, {}) in steps
    ensures |w.versions| > 0 && w.versions[Newest(w)].phase == Completed && w.live == Live(1, true, {}, false)
  {
    var go := Act(0, Ok, roles, {});
    var opening := [Begin(0, 0), go, go, go, go, go, go];
    var v0, v1 := Version(Preflight, false, []), Version(Extracting, true, []);
    var mid := World([v0, v1], map[0 := Pass(1, Extracting, true, Copy, false, roles, true, [HeldOut])],
                     Live(0, false, roles, false));
    HeldOutRun(roles, go, opening, mid);
    RunKeeps(Fresh, opening, mid);
    var ending;
    ending, w := CourseCompletes(mid, 0, roles);
    steps := opening + ending;
    Append(Fresh, opening, mid, ending, w);
    assert steps[1] == go;
    CompletedMeansDone(steps, w, Newest(w));
  }

  // The marker is never cleared and an ending is never left, although every pass rewrites the whole
  // status from what it read.
  lemma EndingsAndMarkersStay(steps: seq<Step>, w: World, i: nat, j: nat)
    requires Reaches(Fresh, steps, w) && i <= j < |w.versions|
    ensures w.versions[i].marker ==> w.versions[j].marker
    ensures Terminal(w.versions[i].phase) ==> w.versions[j].phase == w.versions[i].phase
  {
    RunKeeps(Fresh, steps, w);
  }

  // A version is stored exactly when somebody else touches the object or a pass writes on the newest
  // version and the server applies it; and a pass is cleared exactly when it hears that its marker was.
  lemma StoresExactly(w: World, step: Step)
    requires Inv(w) && Enabled(w, step)
    ensures Apply(w, step).versions != w.versions <==>
              || step.Touch?
              || (&& step.Act? && (w.passes[step.id].at == Mark || w.passes[step.id].at == Publish)
                  && w.passes[step.id].rv == Newest(w) && (step.outcome == Ok || step.outcome == Ambiguous))
    ensures step.Act? && step.id in Apply(w, step).passes && !w.passes[step.id].cleared ==>
              (Apply(w, step).passes[step.id].cleared <==>
                 w.passes[step.id].at == Mark && w.passes[step.id].rv == Newest(w) && step.outcome == Ok)
  {
    assert |Apply(w, step).versions| == |w.versions| ==> Apply(w, step).versions == w.versions;
  }

  // The replication reads are on the tenant exactly from a copy, finished or not, to the next revocation
  // that goes through.
  lemma ReadsStandExactly(w: World, step: Step)
    requires Enabled(w, step)
    ensures Apply(w, step).live.granted <==>
              || (step.Act? && w.passes[step.id].at == Copy)
              || (w.live.granted && !(step.Act? && w.passes[step.id].at == Revoke && step.outcome == Ok))
  {}

  // Readmission puts back everything that was held out exactly when every role it read goes through.
  lemma ReadmissionExact(w: World, id: nat, outcome: Outcome, roles: set<Role>, part: set<Role>)
    requires Inv(w) && Enabled(w, Act(id, outcome, roles, part)) && w.passes[id].at == Readmit
    ensures Advance(w, id, outcome, roles, part).live.out == {} <==> outcome == Ok || w.live.out <= part
  {
    var p := w.passes[id];
    assert PassOk(w.versions[p.rv], w.live, p);
    var after := Advance(w, id, outcome, roles, part).live.out;
    assert forall r :: r in after <==> r in w.live.out && !(outcome == Ok || r in part);
  }

  // It is registered before the hold-out and so runs on every exit of the call, but a pass that dies
  // in between runs nothing: the next one fails the restore and lets nobody back in.
  lemma DeadPassStrandsRoles(role: Role) returns (steps: seq<Step>, w: World)
    ensures Reaches(Fresh, steps, w)
    ensures |w.versions| == 3 && w.versions[2].phase == Failed && w.live.out == {role} && w.live.copies == 0
    ensures forall id | id in w.passes :: w.passes[id].at == Done
  {
    var go := Act(0, Ok, {role}, {});
    var opening := [Begin(0, 0), go, go, go, go, go, go];
    var ending := [Crash(0), Begin(1, 1), Act(1, Ok, {}, {}), Act(1, Ok, {}, {})];
    var p := Pass(1, Extracting, true, Copy, false, {role}, true, [HeldOut]);
    var v0, v1 := Version(Preflight, false, []), Version(Extracting, true, []);
    var mid := World([v0, v1], map[0 := p], Live(0, false, {role}, false));
    w := World([v0, v1, Version(Failed, true, [])],
               map[1 := Pass(1, Failed, true, Done, false, {}, false, [])], Live(0, false, {role}, false));
    assert Reaches(Fresh, opening, mid) by { HeldOutRun({role}, go, opening, mid); }
    assert Reaches(mid, ending, w);
    steps := opening + ending;
    Append(Fresh, opening, mid, ending, w);
  }

  // A pass that has yet to let back in the roles it locked out.
  predicate Owes(p: Pass) { p.cleared && (p.at == Hold || p.at == Copy || p.at == Discard || p.at == Readmit) }

  // Roles may be out, the clearance is on record, and nobody is left to let them back in.
  ghost predicate Stranded(w: World) {
    Inv(w) && w.versions[Newest(w)].marker && NobodyOwes(w)
  }

  // A pass that comes to the clearance after it is on record is refused it.
  lemma SecondClearanceRefused(w: World, id: nat, outcome: Outcome, roles: set<Role>, part: set<Role>)
    requires Stranded(w) && Enabled(w, Act(id, outcome, roles, part)) && w.passes[id].at == Mark
    ensures Advance(w, id, outcome, roles, part) == With(w, id, w.passes[id].(failed := true, at := Revoke))
  {
    assert PassOk(w.versions[w.passes[id].rv], w.live, w.passes[id]);
  }

  // A pass that owes nothing does not come to owe, and leaves everybody where they are.
  lemma WorkStaysClear(v: Version, live: Live, p: Pass, outcome: Outcome, roles: set<Role>, part: set<Role>)
    requires PassOk(v, live, p) && !Writes(p.at) && !Owes(p)
    ensures var (p', live') := Work(p, live, outcome, roles, part); !Owes(p') && live'.out == live.out
  {}

  ghost predicate NobodyOwes(w: World) { forall id | id in w.passes :: !Owes(w.passes[id]) }

  lemma ActStaysClear(w: World, id: nat, outcome: Outcome, roles: set<Role>, part: set<Role>)
    requires Stranded(w) && Enabled(w, Act(id, outcome, roles, part))
    ensures var w' := Advance(w, id, outcome, roles, part);
            && w.versions <= w'.versions && w'.live.out == w.live.out
            && id in w'.passes && w'.passes == w.passes[id := w'.passes[id]] && !Owes(w'.passes[id])
  {
    var p := w.passes[id];
    assert PassOk(w.versions[p.rv], w.live, p);
    if p.at == Mark {
      SecondClearanceRefused(w, id, outcome, roles, part);
    } else if p.at == Publish {
      WriteKeepsHistory(w, p, outcome);
    } else {
      WorkStaysClear(w.versions[p.rv], w.live, p, outcome, roles, part);
    }
  }

  lemma OthersOweNothing(w: World, id: nat, w': World)
    requires NobodyOwes(w) && id in w'.passes && w'.passes == w.passes[id := w'.passes[id]] && !Owes(w'.passes[id])
    ensures NobodyOwes(w')
  {}

  lemma StrandedStays(w: World, step: Step)
    requires Stranded(w) && Enabled(w, step)
    ensures Stranded(Apply(w, step)) && Apply(w, step).live.out == w.live.out
  {
    var w' := Apply(w, step);
    assert w.versions <= w'.versions && NobodyOwes(w') && w'.live.out == w.live.out by {
      if step.Act? {
        ActStaysClear(w, step.id, step.outcome, step.roles, step.part);
        OthersOweNothing(w, step.id, w');
      }
    }
    StepKeeps(w, step);
    NewestKeepsMarker(w, w');
  }

  lemma NewestKeepsMarker(w: World, w': World)
    requires |w.versions| > 0 && w.versions[Newest(w)].marker && HistoryOk(w'.versions) && w.versions <= w'.versions
    ensures w'.versions[Newest(w')].marker
  {
    assert w'.versions[Newest(w)].marker;
  }

  // From then on, whatever happens, the same roles stay out.
  lemma {:induction false} StrandedForGood(w: World, steps: seq<Step>, w': World)
    requires Stranded(w) && Reaches(w, steps, w')
    ensures w'.live.out == w.live.out
    decreases |steps|
  {
    if steps != [] {
      StrandedStays(w, steps[0]);
      StrandedForGood(Apply(w, steps[0]), steps[1..], w');
    }
  }

  function StepsToReadmit(at: Point): nat {
    match at
    case Hold => 3
    case Copy => 2
    case Discard => 1
    case _ => 0
  }

  // And as long as one pass owes, it can still let everybody back in.
  lemma OwingCanReadmit(w: World, id: nat) returns (steps: seq<Step>, w': World)
    requires Inv(w) && id in w.passes && Owes(w.passes[id])
    ensures Reaches(w, steps, w') && w'.live.out == {}
    decreases StepsToReadmit(w.passes[id].at)
  {
    var step := Act(id, Ok, {}, {});
    var p := w.passes[id];
    assert PassOk(w.versions[p.rv], w.live, p);
    var next := Apply(w, step);
    StepKeeps(w, step);
    if p.at == Readmit {
      assert next.live.out == {};
      steps, w' := [step], next;
      assert steps[1..] == [] && Reaches(next, [], next);
    } else {
      var rest;
      rest, w' := OwingCanReadmit(next, id);
      steps := [step] + rest;
      assert steps[1..] == rest;
    }
  }

  // In every reachable world with roles out: they can come back in if and only if a cleared pass is
  // still alive between its hold-out and its readmission.  A death in that stretch is for good.
  lemma StrandedExactly(steps: seq<Step>, w: World)
    requires Reaches(Fresh, steps, w) && w.live.out != {}
    ensures CanReadmit(w) <==> !NobodyOwes(w)
  {
    RunKeeps(Fresh, steps, w);
    if NobodyOwes(w) {
      assert w.versions[Newest(w)].marker;
      if CanReadmit(w) {
        var more, w' :| Reaches(w, more, w') && w'.live.out == {};
        StrandedForGood(w, more, w');
        assert false;
      }
    } else {
      var id :| id in w.passes && Owes(w.passes[id]);
      var more, w' := OwingCanReadmit(w, id);
    }
  }

  // Some continuation lets everybody back in.
  ghost predicate CanReadmit(w: World) { exists more, w' :: Reaches(w, more, w') && w'.live.out == {} }

  lemma Prepend(a: World, step: Step, b: World, steps: seq<Step>, c: World)
    requires Enabled(a, step) && Apply(a, step) == b && Reaches(b, steps, c)
    ensures Reaches(a, [step] + steps, c)
  {
    assert ([step] + steps)[1..] == steps;
  }

  lemma HeldOutRun(roles: set<Role>, go: Step, opening: seq<Step>, mid: World)
    requires go == Act(0, Ok, roles, {}) && opening == [Begin(0, 0), go, go, go, go, go, go]
    requires mid == World([Version(Preflight, false, []), Version(Extracting, true, [])],
                          map[0 := Pass(1, Extracting, true, Copy, false, roles, true, [HeldOut])],
                          Live(0, false, roles, false))
    ensures Reaches(Fresh, opening, mid)
  {
    var p := Pass(0, Extracting, false, Mark, false, {}, false, []);
    var cleared := p.(rv := 1, marker := true, cleared := true, at := Hold);
    assert [] + [HeldOut] == [HeldOut] && {} + roles == roles;
    Prepend(mid.(passes := map[0 := cleared], live := Fresh.live), go, mid, [], mid);
    Prepend(At(p), go, mid.(passes := map[0 := cleared], live := Fresh.live), [go], mid);
    Prepend(At(p.(at := Enumerate)), go, At(p), [go, go], mid);
    Prepend(At(p.(at := Prepare)), go, At(p.(at := Enumerate)), [go, go, go], mid);
    p := p.(phase := Preflight);
    Prepend(At(p.(at := Observe)), go, At(p.(phase := Extracting, at := Prepare)), [go, go, go, go], mid);
    Prepend(At(p.(at := Converge)), go, At(p.(at := Observe)), [go, go, go, go, go], mid);
    Prepend(Fresh, Begin(0, 0), At(p.(at := Converge)), [go, go, go, go, go, go], mid);
    assert opening == [Begin(0, 0)] + [go, go, go, go, go, go];
  }

  function At(p: Pass): World { Fresh.(passes := map[0 := p]) }

  lemma {:induction false} Append(a: World, first: seq<Step>, b: World, second: seq<Step>, c: World)
    requires Reaches(a, first, b) && Reaches(b, second, c)
    ensures Reaches(a, first + second, c)
    decreases |first|
  {
    if first == [] {
      assert first + second == second;
    } else {
      Append(Apply(a, first[0]), first[1..], b, second, c);
      assert (first + second)[1..] == first[1..] + second;
    }
  }
}
