/** Recurring windows and the schedules they open on. */
module Cron {
  import opened Common

  // A parsed schedule walks forwards only: its first activation strictly after a time, or none when
  // the walk gives up.
  datatype Schedule = Schedule(next: int -> Option<int>)

  // Five years, the least distance the walk covers before it gives up.
  const HORIZON: int := 5 * 365 * 86400

  // `schedule` is absent when the expression does not parse.  `zoned` is that its time zone loads;
  // the schedule is read in that zone, and in UTC when it does not load.
  datatype Window = Window(schedule: Option<Schedule>, zoned: bool, duration: int)

  datatype Opening = Open | Closed | Invalid

  // The schedule's walk finds the firings and skips none.
  ghost predicate Walks(s: Schedule, fires: int -> bool) {
    forall t ::
      match s.next(t)
      case Some(u) => t < u && fires(u) && forall v | t < v < u :: !fires(v)
      case None => forall v | t < v <= t + HORIZON :: !fires(v)
  }

  // ------------------------------------------------------------------ is a window open

  // The first activation after now-duration, held against now.  A walk that gave up yields the zero
  // time, which is not after anything.
  function OneWindowOpen(now: int, w: Window): Opening {
    if w.schedule.None? || !w.zoned || w.duration <= 0 then Invalid
    else match w.schedule.value.next(now - w.duration)
      case Some(u) => if u <= now then Open else Closed
      case None => Open
  }

  ghost predicate FiredWithin(fires: int -> bool, now: int, duration: int) {
    exists t :: now - duration < t <= now && fires(t)
  }

  // The schedule fires in the window, but only past the distance the walk is sure to cover.
  ghost predicate FiresOutOfReach(fires: int -> bool, now: int, duration: int) {
    exists t :: now - duration + HORIZON < t <= now && fires(t)
  }

  // A window is open when it was activated in (now-duration, now].  The answer is exactly that if and
  // only if the walk from now-duration finds an activation, or the window is so long that one lies
  // beyond the walk's reach.
  lemma OpenExactly(now: int, w: Window, fires: int -> bool)
    requires w.schedule.Some? && w.zoned && w.duration > 0 && Walks(w.schedule.value, fires)
    ensures OneWindowOpen(now, w) != Invalid
    ensures (OneWindowOpen(now, w) == Open <==> FiredWithin(fires, now, w.duration)) <==>
              w.schedule.value.next(now - w.duration).Some? || FiresOutOfReach(fires, now, w.duration)
    ensures w.duration <= HORIZON ==> !FiresOutOfReach(fires, now, w.duration)
  {
    var from := now - w.duration;
    match w.schedule.value.next(from)
    case Some(u) =>
      assert fires(u);
    case None =>
      assert forall v | from < v <= from + HORIZON :: !fires(v);
      if FiresOutOfReach(fires, now, w.duration) {
        var t :| now - w.duration + HORIZON < t <= now && fires(t);
        assert from < t;
      }
  }

  // A window nothing can be read off: its expression does not parse, its zone does not load, or it
  // lasts no time.
  predicate Malformed(w: Window) { w.schedule.None? || !w.zoned || w.duration <= 0 }

  // A window that can be read, and whose next activation from its own length ago is still to come.
  predicate Shut(now: int, w: Window) {
    && w.schedule.Some? && w.zoned && w.duration > 0
    && w.schedule.value.next(now - w.duration).Some? && w.schedule.value.next(now - w.duration).value > now
  }

  lemma OneExactly(now: int, w: Window)
    ensures OneWindowOpen(now, w) == Closed <==> Shut(now, w)
    ensures OneWindowOpen(now, w) == Invalid <==> Malformed(w)
  {}

  // The first window that is not shut answers for the list.
  lemma {:induction false} FirstAnswers(now: int, windows: seq<Window>) returns (k: nat)
    ensures k <= |windows| && forall j | 0 <= j < k :: Shut(now, windows[j])
    ensures k < |windows| ==> !Shut(now, windows[k])
    ensures AnyOpen(now, windows) == if k == |windows| then Closed else OneWindowOpen(now, windows[k])
  {
    k := 0;
    if windows != [] {
      OneExactly(now, windows[0]);
      if Shut(now, windows[0]) {
        k := FirstAnswers(now, windows[1..]);
        assert forall j | 0 < j < |windows| :: windows[j] == windows[1..][j - 1];
        k := k + 1;
      }
    }
  }

  // In a list read in order: it is closed exactly when every window is shut; invalid exactly when some
  // window is malformed and every one before it is shut; and open exactly when it is neither.
  lemma AnyOpenExactly(now: int, windows: seq<Window>)
    ensures AnyOpen(now, windows) == Closed <==> forall i | 0 <= i < |windows| :: Shut(now, windows[i])
    ensures AnyOpen(now, windows) == Invalid <==>
              exists i | 0 <= i < |windows| && Malformed(windows[i]) :: forall j | 0 <= j < i :: Shut(now, windows[j])
    ensures AnyOpen(now, windows) == Open <==>
              exists i | 0 <= i < |windows| && !Malformed(windows[i]) && !Shut(now, windows[i]) ::
                forall j | 0 <= j < i :: Shut(now, windows[j])
  {
    var k := FirstAnswers(now, windows);
    if k < |windows| {
      OneExactly(now, windows[k]);
      forall i | 0 <= i < |windows| && !Shut(now, windows[i]) && (forall j | 0 <= j < i :: Shut(now, windows[j]))
        ensures i == k
      {}
    }
    assert forall i | 0 <= i < |windows| && Malformed(windows[i]) :: !Shut(now, windows[i]);
  }

  // A schedule that never fires holds its window open for ever.
  lemma NeverFiringIsOpen(now: int)
    ensures var never := Schedule(_ => None);
            Walks(never, _ => false) && OneWindowOpen(now, Window(Some(never), true, 60)) == Open
            && !FiredWithin(_ => false, now, 60)
  {}

  // Windows are read in order; the first that is open or invalid decides.
  function AnyOpen(now: int, windows: seq<Window>): Opening {
    if windows == [] then Closed
    else
      var first := OneWindowOpen(now, windows[0]);
      if first == Closed then AnyOpen(now, windows[1..]) else first
  }

  method WindowOpen(now: int, windows: seq<Window>) returns (opening: Opening)
    ensures opening == AnyOpen(now, windows)
    ensures opening == Closed <==> forall i | 0 <= i < |windows| :: OneWindowOpen(now, windows[i]) == Closed
    ensures opening != Closed ==>
              exists i | 0 <= i < |windows| ::
                && OneWindowOpen(now, windows[i]) == opening
                && forall j | 0 <= j < i :: OneWindowOpen(now, windows[j]) == Closed
  {
    for i := 0 to |windows|
      invariant AnyOpen(now, windows) == AnyOpen(now, windows[i..])
      invariant forall j | 0 <= j < i :: OneWindowOpen(now, windows[j]) == Closed
    {
      assert windows[i..][1..] == windows[i + 1..];
      var one := OneWindowOpen(now, windows[i]);
      if one != Closed { return one; }
    }
    return Closed;
  }

  // ------------------------------------------------------------------ when the next one opens

  // What window i contributes: nothing when unparsable, else an activation or the zero time.
  predicate Parses(w: Window) { w.schedule.Some? }

  function Activation(now: int, w: Window): Option<int>
    requires Parses(w)
  { w.schedule.value.next(now) }

  // The earliest activation among the parsable windows from index k on.
  ghost predicate Earliest(now: int, windows: seq<Window>, k: nat, next: Option<int>) {
    && (next.None? ==> forall i | k <= i < |windows| && Parses(windows[i]) :: Activation(now, windows[i]).None?)
    && (next.Some? ==>
          && (exists i | k <= i < |windows| :: Parses(windows[i]) && Activation(now, windows[i]) == next)
          && forall i | k <= i < |windows| && Parses(windows[i]) && Activation(now, windows[i]).Some? ::
               next.value <= Activation(now, windows[i]).value)
  }

  // A window that never fires restarts the running minimum, so what is reported is the earliest of
  // the windows after the last such one, which is at k - 1.
  ghost predicate Restarts(now: int, windows: seq<Window>, k: nat, next: Option<int>) {
    && k <= |windows| && Earliest(now, windows, k, next)
    && (k > 0 ==> Parses(windows[k - 1]) && Activation(now, windows[k - 1]).None?)
    && forall i | k <= i < |windows| && Parses(windows[i]) :: Activation(now, windows[i]).Some?
  }

  // It is the earliest of all if and only if no window listed before that one fires sooner.
  lemma NextIsEarliestExactly(now: int, windows: seq<Window>, k: nat, next: Option<int>)
    requires Restarts(now, windows, k, next)
    ensures Earliest(now, windows, 0, next) <==>
              forall i | 0 <= i < k && Parses(windows[i]) && Activation(now, windows[i]).Some? ::
                next.Some? && next.value <= Activation(now, windows[i]).value
  {
    if next.Some? {
      var i :| k <= i < |windows| && Parses(windows[i]) && Activation(now, windows[i]) == next;
    }
  }

  // A window that opens in a minute, listed before one that never does: nothing is reported to open.
  lemma NextWindowForgets(now: int)
    ensures var soon := Window(Some(Schedule(t => Some(t + 60))), true, 60);
            var never := Window(Some(Schedule(_ => None)), true, 60);
            && Activation(now, soon) == Some(now + 60)
            && Restarts(now, [soon, never], 2, None) && !Earliest(now, [soon, never], 0, None)
  {
    var soon := Window(Some(Schedule(t => Some(t + 60))), true, 60);
    var never := Window(Some(Schedule(_ => None)), true, 60);
    var windows := [soon, never];
    assert Parses(windows[0]) && Activation(now, windows[0]).Some?;
  }

  method NextWindow(now: int, windows: seq<Window>) returns (next: Option<int>)
    ensures exists k: nat :: Restarts(now, windows, k, next)
    ensures (forall i | 0 <= i < |windows| && Parses(windows[i]) :: Activation(now, windows[i]).Some?)
            ==> Earliest(now, windows, 0, next)
  {
    next := None;
    ghost var k: nat := 0;
    for i := 0 to |windows|
      invariant k <= i
      invariant next == None ==> forall j | k <= j < i :: !Parses(windows[j])
      invariant next.Some? ==> exists j | k <= j < i :: Parses(windows[j]) && Activation(now, windows[j]) == next
      invariant forall j | k <= j < i && Parses(windows[j]) ::
                  Activation(now, windows[j]).Some? && next.Some? && next.value <= Activation(now, windows[j]).value
      invariant k > 0 ==> Parses(windows[k - 1]) && Activation(now, windows[k - 1]).None?
    {
      if !Parses(windows[i]) { continue; }
      var activation := Activation(now, windows[i]);
      if next.None? || activation.None? || activation.value < next.value { next := activation; }
      if activation.None? { k := i + 1; }
    }
    assert Restarts(now, windows, k, next);
  }
}
