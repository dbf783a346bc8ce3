/** The pool controller's convergence steps over the namespace, as it runs them: make one member, or
    reclaim one drained member, or let a deleted pool go.  Each is a step of the fleet. */
module Members {
  import opened Common
  import opened Migration
  import opened Fleet
  import opened Sorting

  // ------------------------------------------------------------------ member names

  function Digit(d: nat): char
    requires d < 10
  { "0123456789"[d] }

  function Decimal(n: nat): (s: string)
    ensures |s| > 0
  { if n < 10 then [Digit(n)] else Decimal(n / 10) + [Digit(n % 10)] }

  function MemberName(pool: string, ordinal: nat): string { pool + "-" + Decimal(ordinal) }

  lemma DigitInjective(a: nat, b: nat)
    requires a < 10 && b < 10 && Digit(a) == Digit(b)
    ensures a == b
  {}

  lemma {:induction false} DecimalInjective(a: nat, b: nat)
    requires Decimal(a) == Decimal(b)
    ensures a == b
    decreases a
  {
    var s := Decimal(a);
    assert (a < 10) == (|s| == 1) == (b < 10);
    if a >= 10 {
      assert Decimal(a / 10) == s[..|s| - 1] == Decimal(b / 10);
      DecimalInjective(a / 10, b / 10);
      assert Digit(a % 10) == s[|s| - 1] == Digit(b % 10);
      DigitInjective(a % 10, b % 10);
    } else {
      assert Digit(a) == s[0] == Digit(b);
      DigitInjective(a, b);
    }
  }

  lemma MemberNameInjective(pool: string, a: nat, b: nat)
    requires MemberName(pool, a) == MemberName(pool, b)
    ensures a == b
  {
    var prefix := pool + "-";
    assert MemberName(pool, a)[|prefix|..] == Decimal(a) && MemberName(pool, b)[|prefix|..] == Decimal(b);
    DecimalInjective(a, b);
  }

  // The first n ordinals name n different members, so they cannot all be taken by fewer than n.
  lemma {:induction false} Pigeonhole(pool: string, taken: set<string>, n: nat)
    requires forall k | 1 <= k <= n :: MemberName(pool, k) in taken
    ensures n <= |taken|
    decreases n
  {
    if n > 0 {
      var rest := taken - {MemberName(pool, n)};
      forall k | 1 <= k <= n - 1 ensures MemberName(pool, k) in rest {
        if MemberName(pool, k) == MemberName(pool, n) { MemberNameInjective(pool, k, n); }
      }
      Pigeonhole(pool, rest, n - 1);
    }
  }

  ghost predicate LowestFree(pool: string, taken: set<string>, name: string) {
    && name !in taken
    && exists k: nat :: 1 <= k && name == MemberName(pool, k) && forall j | 1 <= j < k :: MemberName(pool, j) in taken
  }

  // Two passes that read the same names choose the same name, so whichever is second is refused by
  // the API server: a stale list cannot make a second member.
  lemma SameViewSameName(pool: string, taken: set<string>, a: string, b: string)
    requires LowestFree(pool, taken, a) && LowestFree(pool, taken, b)
    ensures a == b
  {
    var i: nat :| 1 <= i && a == MemberName(pool, i) && forall j | 1 <= j < i :: MemberName(pool, j) in taken;
    var k: nat :| 1 <= k && b == MemberName(pool, k) && forall j | 1 <= j < k :: MemberName(pool, j) in taken;
    assert i == k;
  }

  // The lowest unused ordinal, for any finite set of names already taken.
  method FreeMemberName(pool: string, taken: set<string>) returns (name: string)
    ensures LowestFree(pool, taken, name)
  {
    var ordinal := 1;
    while true
      invariant 1 <= ordinal <= |taken| + 1
      invariant forall j | 1 <= j < ordinal :: MemberName(pool, j) in taken
      decreases |taken| + 1 - ordinal
    {
      name := MemberName(pool, ordinal);
      if name !in taken { return; }
      Pigeonhole(pool, taken, ordinal);
      ordinal := ordinal + 1;
    }
  }

  // ------------------------------------------------------------------ the controller

  // How many members the pool may have: what it declares, bounded by its class.
  function Wanted(declared: nat, ceiling: nat): nat {
    if ceiling > 0 && declared > ceiling then ceiling else declared
  }

  function MembersIn(instances: map<string, Instance>): set<string> { set n | n in instances && instances[n].member }

  function MembersOf(f: Fleet): set<string> { MembersIn(f.instances) }

  // What one pass read of one instance.
  datatype Seen = Seen(name: string, instance: Instance)

  // One member still holding tenants, and how many.
  datatype Occupant = Occupant(name: string, tenants: nat)

  predicate ByOccupant(a: Occupant, b: Occupant) { a.name == b.name || Before(a.name, b.name) }

  lemma ByOccupantTotal()
    ensures TotalOrder(ByOccupant)
  {
    forall a, b ensures ByOccupant(a, b) || ByOccupant(b, a) { BeforeTotal(a.name, b.name); }
    forall a, b, c | ByOccupant(a, b) && ByOccupant(b, c) ensures ByOccupant(a, c) {
      if Before(a.name, b.name) && Before(b.name, c.name) { BeforeTransitive(a.name, b.name, c.name); }
    }
  }

  function BoundTo(f: Fleet, name: string): set<string> {
    set t | t in f.tenants && f.tenants[t].At? && f.tenants[t].name == name
  }

  // The migrations that may still send their tenant back here.
  function KeptFor(f: Fleet, name: string): set<string> {
    set m | m in f.moves && f.moves[m].source.At? && f.moves[m].source.name == name && !f.moves[m].status.dropped
  }

  // The delete goes out exactly for a member seen marked, owned and cordoned that no tenant is bound to
  // and no migration keeps, and that is still the object that was seen.
  lemma ReclaimableExactly(f: Fleet, name: string, seen: Instance)
    ensures Reclaimable(f, name, seen) <==>
              && seen.marked && seen.owned && seen.cordoned
              && BoundTo(f, name) == {} && KeptFor(f, name) == {}
              && name in f.instances && f.instances[name].uid == seen.uid && f.instances[name].rv == seen.rv
  {
    if Holds(f, name) {
      var t :| t in f.tenants && f.tenants[t].At? && f.tenants[t].name == name;
      assert t in BoundTo(f, name);
    }
    if Retains(f, name) {
      var m :| m in f.moves && f.moves[m].source.At? && f.moves[m].source.name == name && !f.moves[m].status.dropped;
      assert m in KeptFor(f, name);
    }
    assert BoundTo(f, name) != {} ==> exists t :: t in BoundTo(f, name);
    assert KeptFor(f, name) != {} ==> exists m :: m in KeptFor(f, name);
  }

  class Controller {
    var fleet: Fleet

    constructor (f: Fleet)
      ensures fleet == f
    { fleet := f; }

    // Counts every tenant bound here, whatever else is true of it.
    method TenantsBoundTo(name: string) returns (held: nat)
      ensures held == |BoundTo(fleet, name)|
      ensures held == 0 <==> !Holds(fleet, name)
    {
      held := 0;
      var left := fleet.tenants.Keys;
      ghost var counted: set<string> := {};
      while left != {}
        invariant left + counted == fleet.tenants.Keys && left !! counted
        invariant held == |counted * BoundTo(fleet, name)|
        decreases left
      {
        var t :| t in left;
        if fleet.tenants[t].At? && fleet.tenants[t].name == name {
          held := held + 1;
          assert (counted + {t}) * BoundTo(fleet, name) == counted * BoundTo(fleet, name) + {t};
        } else {
          assert (counted + {t}) * BoundTo(fleet, name) == counted * BoundTo(fleet, name);
        }
        counted, left := counted + {t}, left - {t};
      }
      assert counted * BoundTo(fleet, name) == BoundTo(fleet, name);
      assert Holds(fleet, name) ==> exists t :: t in BoundTo(fleet, name);
      assert BoundTo(fleet, name) != {} ==> Holds(fleet, name);
    }

    method RetainedSourceOn(name: string) returns (retained: bool)
      ensures retained == Retains(fleet, name)
    {
      var left := fleet.moves.Keys;
      while left != {}
        invariant left <= fleet.moves.Keys
        invariant forall m | m in fleet.moves && m !in left ::
                    !(fleet.moves[m].source.At? && fleet.moves[m].source.name == name && !fleet.moves[m].status.dropped)
        decreases left
      {
        var m :| m in left;
        left := left - {m};
        if fleet.moves[m].source.At? && fleet.moves[m].source.name == name && !fleet.moves[m].status.dropped {
          return true;
        }
      }
      return false;
    }

    // Deletes the first member in the view that scale-in emptied, and at most one.
    method ReclaimDrainedMembers(view: seq<Seen>) returns (reclaimed: bool)
      modifies this
      ensures reclaimed <==> exists i | 0 <= i < |view| ::
                && view[i].instance.marked && view[i].instance.owned && view[i].instance.cordoned
                && BoundTo(old(fleet), view[i].name) == {} && KeptFor(old(fleet), view[i].name) == {}
                && view[i].name in old(fleet).instances
                && old(fleet).instances[view[i].name].uid == view[i].instance.uid
                && old(fleet).instances[view[i].name].rv == view[i].instance.rv
      ensures forall n | n in old(fleet).instances && n !in fleet.instances ::
                exists i | 0 <= i < |view| && view[i].name == n ::
                  && view[i].instance.marked && view[i].instance.owned && view[i].instance.cordoned
                  && view[i].instance.uid == old(fleet).instances[n].uid
                  && view[i].instance.rv == old(fleet).instances[n].rv
      ensures forall n | n in old(fleet).instances && n !in fleet.instances ::
                BoundTo(old(fleet), n) == {} && KeptFor(old(fleet), n) == {}
      ensures reclaimed ==> exists i | 0 <= i < |view| ::
                && Enabled(old(fleet), Reclaim(view[i].name, view[i].instance))
                && fleet == Apply(old(fleet), Reclaim(view[i].name, view[i].instance))
                && forall j | 0 <= j < i :: !Reclaimable(old(fleet), view[j].name, view[j].instance)
      ensures !reclaimed ==> fleet == old(fleet)
    {
      forall j | 0 <= j < |view| { ReclaimableExactly(fleet, view[j].name, view[j].instance); }
      for i := 0 to |view|
        invariant fleet == old(fleet)
        invariant forall j | 0 <= j < i :: !Reclaimable(fleet, view[j].name, view[j].instance)
      {
        var name, seen := view[i].name, view[i].instance;
        if !seen.marked || !seen.owned || !seen.cordoned { continue; }
        var held := TenantsBoundTo(name);
        if held > 0 { continue; }
        var retained := RetainedSourceOn(name);
        if retained { continue; }
        // The delete carries the identity and the version of what was seen.
        if name !in fleet.instances || fleet.instances[name].uid != seen.uid || fleet.instances[name].rv != seen.rv {
          continue;
        }
        fleet := fleet.(instances := fleet.instances - {name});
        assert Enabled(old(fleet), Reclaim(view[i].name, view[i].instance));
        return true;
      }
      return false;
    }

    // Makes up one member of the difference between what the pool declares and what it has.
    // `members` and `taken` are what the pass read, which may lag the namespace; `settled` is that
    // this spec has been seen before.  A name already in use is refused and the pass goes on.
    method ProvisionMembers(pool: string, declared: nat, ceiling: nat, settled: bool, members: nat, taken: set<string>)
      returns (provisioned: bool)
      requires fleet.pool.exists_ && !fleet.pool.deleting && fleet.pool.finalizer
      modifies this
      ensures taken == old(fleet).instances.Keys ==>
                (provisioned <==> settled && members < declared && (ceiling > 0 ==> members < ceiling))
      ensures provisioned ==> settled && members < declared && (ceiling > 0 ==> members < ceiling)
      ensures provisioned ==> members < Wanted(declared, ceiling)
      ensures provisioned ==>
                exists name ::
                  && LowestFree(pool, taken, name)
                  && Enabled(old(fleet), Provision(name)) && fleet == Apply(old(fleet), Provision(name))
      ensures !provisioned ==> fleet == old(fleet)
    {
      var wanted := declared;
      if ceiling > 0 && wanted > ceiling { wanted := ceiling; }
      if members >= wanted { return false; }
      if !settled { return false; }
      var name := FreeMemberName(pool, taken);
      if name in fleet.instances { return false; }
      fleet := fleet.(
        nextUid := fleet.nextUid + 1,
        instances := fleet.instances[name := Instance(fleet.nextUid, 0, false, false, true, true)]);
      assert fleet == Apply(old(fleet), Provision(name));
      return true;
    }

    // One reconcile of a live pool up to planning: hold the finalizer, then make one member, or else
    // reclaim one.  A pass that does either plans and publishes nothing.
    method Converge(pool: string, declared: nat, ceiling: nat, settled: bool, view: seq<Seen>, taken: set<string>)
      returns (changed: bool)
      requires fleet.pool.exists_ && !fleet.pool.deleting
      modifies this
      ensures fleet.pool.finalizer
      ensures !changed ==> fleet == Apply(old(fleet), Hold)
      ensures changed ==>
                exists step: Step ::
                  && Enabled(Apply(old(fleet), Hold), step) && fleet == Apply(Apply(old(fleet), Hold), step)
                  && (step.Reclaim? || (step.Provision? && |view| < Wanted(declared, ceiling)))
    {
      fleet := fleet.(pool := fleet.pool.(finalizer := true));
      ghost var held := fleet;
      assert held == Apply(old(fleet), Hold);
      changed := ProvisionMembers(pool, declared, ceiling, settled, |view|, taken);
      if changed { return; }
      changed := ReclaimDrainedMembers(view);
    }

    // The members the pool made that still hold tenants, with how many, in name order.
    method OccupiedMembersOf() returns (listed: seq<Occupant>)
      ensures Sorted(listed, ByOccupant)
      ensures forall o :: o in listed <==>
                && o.name in fleet.instances && fleet.instances[o.name].member && fleet.instances[o.name].owned
                && Holds(fleet, o.name) && o.tenants == |BoundTo(fleet, o.name)|
      ensures listed == [] <==> !Occupied(fleet)
    {
      var held := HeldCounts();
      listed := [];
      var left := held.Keys;
      while left != {}
        invariant left <= held.Keys
        invariant forall o :: o in listed <==> o.name in held.Keys - left && o.tenants == held[o.name]
        decreases left
      {
        var n :| n in left;
        left := left - {n};
        listed := listed + [Occupant(n, held[n])];
      }
      ByOccupantTotal();
      var unsorted := listed;
      listed := SortBy(unsorted, ByOccupant);
      SameMembers(listed, unsorted);
      if Occupied(fleet) {
        var n :| n in fleet.instances && fleet.instances[n].member && fleet.instances[n].owned && Holds(fleet, n);
        assert Occupant(n, held[n]) in listed;
      }
      assert listed != [] ==> listed[0] in listed;
    }

    method HeldCounts() returns (occupied: map<string, nat>)
      ensures forall n :: n in occupied <==>
                n in fleet.instances && fleet.instances[n].member && fleet.instances[n].owned && Holds(fleet, n)
      ensures forall n | n in occupied :: occupied[n] == |BoundTo(fleet, n)|
    {
      occupied := map[];
      var left := fleet.instances.Keys;
      while left != {}
        invariant left <= fleet.instances.Keys
        invariant occupied.Keys == set n | n in fleet.instances.Keys - left
                    && fleet.instances[n].member && fleet.instances[n].owned && Holds(fleet, n)
        invariant forall n | n in occupied :: occupied[n] == |BoundTo(fleet, n)|
        decreases left
      {
        var n :| n in left;
        var held := TenantsBoundTo(n);
        left := left - {n};
        if fleet.instances[n].member && held != 0 && fleet.instances[n].owned {
          occupied := occupied[n := held];
        }
      }
    }

    // A pool being deleted is let go exactly when no member it made holds a tenant.
    method FinalizePool() returns (released: bool)
      requires fleet.pool.exists_ && fleet.pool.deleting
      modifies this
      ensures released <==> old(fleet).pool.finalizer && !Occupied(old(fleet))
      ensures released ==> Enabled(old(fleet), Finalize) && fleet == Apply(old(fleet), Finalize)
      ensures !released ==> fleet == old(fleet)
    {
      if !fleet.pool.finalizer { return false; }
      var occupied := OccupiedMembersOf();
      if occupied != [] { return false; }
      fleet := Collect(fleet.(pool := fleet.pool.(finalizer := false)));
      return true;
    }
  }

  // ------------------------------------------------------------------ over a run

  // No step but provisioning makes a member of this pool.
  lemma StepMembers(f: Fleet, step: Step)
    requires Enabled(f, step) && (step.Create? ==> !step.member)
    ensures MembersOf(Apply(f, step)) <= MembersOf(f) + (if step.Provision? then {step.name} else {})
  {
    match step
    case Reconcile(move, o, now, window, reach, r) => ReconcileShape(f, move, o, now, window, reach, r);
    case _ =>
  }

  predicate MakesNoMember(step: Step) { !step.Provision? && (step.Create? ==> !step.member) }

  // One state of a run follows from the one before: by any step that makes no member, or by a pass
  // that provisioned on lists it had read of earlier states, one for the count and one for the names.
  ghost predicate ByStep(f: Fleet, f': Fleet) {
    exists step: Step :: Enabled(f, step) && MakesNoMember(step) && f' == Apply(f, step)
  }

  ghost predicate ByPass(pool: string, wanted: nat, counted: Fleet, named: Fleet, f: Fleet, f': Fleet) {
    && |MembersOf(counted)| < wanted
    && exists name :: LowestFree(pool, named.instances.Keys, name) && Enabled(f, Provision(name))
         && f' == Apply(f, Provision(name))
  }

  // State i came of a pass that counted in state c and took its names from state n, and was told to make
  // this many.
  ghost predicate FromLists(pool: string, h: seq<Fleet>, i: nat, c: nat, n: nat, declared: nat, ceiling: nat)
    requires 0 < i < |h|
  {
    c < i && n < i && ByPass(pool, Wanted(declared, ceiling), h[c], h[n], h[i - 1], h[i])
  }

  // The list it took its names from had room for one more, and it was told to make no more than `wanted`.
  ghost predicate NamedWithRoom(wanted: nat, h: seq<Fleet>, n: nat, declared: nat, ceiling: nat)
    requires n < |h|
  {
    |MembersOf(h[n])| < Wanted(declared, ceiling) <= wanted
  }

  ghost predicate Follows(pool: string, wanted: nat, h: seq<Fleet>, i: nat)
    requires 0 < i < |h|
  {
    || ByStep(h[i - 1], h[i])
    || exists c, n, declared, ceiling ::
         FromLists(pool, h, i, c, n, declared, ceiling) && NamedWithRoom(wanted, h, n, declared, ceiling)
  }

  // The states of a run whose passes count in one earlier state and take their names from another, and
  // each find room on the list of names.
  ghost predicate ListedRun(pool: string, wanted: nat, h: seq<Fleet>) {
    |h| > 0 && forall i | 0 < i < |h| :: Follows(pool, wanted, h, i)
  }

  // Nobody else's instance goes by a name the pool would give.
  ghost predicate Unsquatted(pool: string, f: Fleet) {
    forall k: nat :: MemberName(pool, k) in f.instances ==> f.instances[MemberName(pool, k)].member
  }

  // The members there throughout.
  ghost function Throughout(h: seq<Fleet>): set<string>
    requires |h| > 0
  {
    if |h| == 1 then MembersOf(h[0]) else Throughout(h[..|h| - 1]) * MembersOf(h[|h| - 1])
  }

  lemma {:induction false} ThroughoutIsIn(h: seq<Fleet>, i: nat)
    requires i < |h|
    ensures Throughout(h) <= MembersOf(h[i])
  {
    if |h| > 1 && i < |h| - 1 { ThroughoutIsIn(h[..|h| - 1], i); }
  }

  // The names up to an ordinal that none of these has.
  ghost function NamesUpTo(pool: string, kept: set<string>, k: nat): set<string> {
    (set j | 1 <= j <= k :: MemberName(pool, j)) - kept
  }

  lemma Subset(a: set<string>, b: set<string>)
    requires a <= b
    ensures |a| <= |b|
  { assert b == a + (b - a); }

  // Everything made since has one of those names, and there is room for them all.
  ghost predicate Room(pool: string, wanted: nat, kept: set<string>, members: set<string>, k: nat) {
    members - kept <= NamesUpTo(pool, kept, k) && |NamesUpTo(pool, kept, k)| + |kept| <= wanted
  }

  lemma RoomShrinks(pool: string, wanted: nat, kept: set<string>, members: set<string>, k: nat, members': set<string>)
    requires Room(pool, wanted, kept, members, k) && members' <= members
    ensures Room(pool, wanted, kept * members', members', k)
  {
    var kept' := kept * members';
    var gone := kept - kept';
    assert NamesUpTo(pool, kept', k) <= NamesUpTo(pool, kept, k) + gone;
    Subset(NamesUpTo(pool, kept', k), NamesUpTo(pool, kept, k) + gone);
    assert kept == kept' + gone;
  }

  // A pass that saw fewer than wanted chooses a name among the first that are free.
  lemma NameFits(pool: string, seen: Fleet, wanted: nat, kept: set<string>, name: string) returns (k: nat)
    requires |MembersOf(seen)| < wanted && Unsquatted(pool, seen) && kept <= MembersOf(seen)
    requires LowestFree(pool, seen.instances.Keys, name)
    ensures name in NamesUpTo(pool, kept, k) && |NamesUpTo(pool, kept, k)| + |kept| <= wanted
  {
    k :| 1 <= k && name == MemberName(pool, k) && forall j | 1 <= j < k :: MemberName(pool, j) in seen.instances.Keys;
    var members := MembersOf(seen);
    forall j | 1 <= j < k ensures MemberName(pool, j) in members { assert MemberName(pool, j) in seen.instances; }
    NamesCounted(pool, members, kept, name, k);
  }

  lemma NamesCounted(pool: string, members: set<string>, kept: set<string>, name: string, k: nat)
    requires kept <= members && name !in members && 1 <= k && name == MemberName(pool, k)
    requires forall j | 1 <= j < k :: MemberName(pool, j) in members
    ensures name in NamesUpTo(pool, kept, k) && |NamesUpTo(pool, kept, k)| + |kept| <= |members| + 1
  {
    var others := members - kept;
    assert NamesUpTo(pool, kept, k) <= others + {name};
    Subset(NamesUpTo(pool, kept, k), others + {name});
    assert members == kept + others;
  }

  lemma RoomForOne(pool: string, wanted: nat, kept: set<string>, members: set<string>, k: nat, name: string, n: nat)
    requires members <= kept || Room(pool, wanted, kept, members, k)
    requires name in NamesUpTo(pool, kept, n) && |NamesUpTo(pool, kept, n)| + |kept| <= wanted
    ensures exists m :: Room(pool, wanted, kept, members + {name}, m)
  {
    if members <= kept || k <= n {
      assert members <= kept || NamesUpTo(pool, kept, k) <= NamesUpTo(pool, kept, n);
      assert Room(pool, wanted, kept, members + {name}, n);
    } else {
      assert NamesUpTo(pool, kept, n) <= NamesUpTo(pool, kept, k);
      assert Room(pool, wanted, kept, members + {name}, k);
    }
  }

  ghost predicate HasRoom(pool: string, wanted: nat, h: seq<Fleet>)
    requires |h| > 0
  {
    var now, kept := MembersOf(h[|h| - 1]), Throughout(h);
    now <= kept || exists k :: Room(pool, wanted, kept, now, k)
  }

  lemma StepKeepsRoom(pool: string, wanted: nat, h: seq<Fleet>)
    requires |h| > 1 && HasRoom(pool, wanted, h[..|h| - 1]) && ByStep(h[|h| - 2], h[|h| - 1])
    ensures HasRoom(pool, wanted, h)
  {
    var front, last := h[..|h| - 1], h[|h| - 1];
    var before := h[|h| - 2];
    var step :| Enabled(before, step) && MakesNoMember(step) && last == Apply(before, step);
    StepMembers(before, step);
    var kept, was, now := Throughout(front), MembersOf(before), MembersOf(last);
    if k :| Room(pool, wanted, kept, was, k) { RoomShrinks(pool, wanted, kept, was, k, now); }
  }

  lemma PassKeepsRoom(pool: string, wanted: nat, h: seq<Fleet>, s: nat, counted: Fleet, told: nat)
    requires |h| > 1 && HasRoom(pool, wanted, h[..|h| - 1]) && s < |h| - 1 && Unsquatted(pool, h[s])
    requires ByPass(pool, told, counted, h[s], h[|h| - 2], h[|h| - 1]) && |MembersOf(h[s])| < wanted
    ensures HasRoom(pool, wanted, h)
  {
    var front, last, before := h[..|h| - 1], h[|h| - 1], h[|h| - 2];
    var name :| LowestFree(pool, h[s].instances.Keys, name) && Enabled(before, Provision(name))
        && last == Apply(before, Provision(name));
    var kept, was := Throughout(front), MembersOf(before);
    ProvisionAddsOne(before, name);
    ThroughoutIsIn(front, s);
    ThroughoutIsIn(front, |h| - 2);
    assert kept * MembersOf(last) == kept;
    var n := NameFits(pool, h[s], wanted, kept, name);
    if was <= kept {
      RoomForOne(pool, wanted, kept, was, 0, name, n);
    } else {
      var k :| Room(pool, wanted, kept, was, k);
      RoomForOne(pool, wanted, kept, was, k, name, n);
    }
  }

  lemma {:induction false} RunKeepsRoom(pool: string, wanted: nat, h: seq<Fleet>)
    requires ListedRun(pool, wanted, h) && forall i | 0 <= i < |h| :: Unsquatted(pool, h[i])
    ensures HasRoom(pool, wanted, h)
  {
    if |h| > 1 {
      var last := |h| - 1;
      var front := h[..last];
      forall i | 0 < i < |front| ensures Follows(pool, wanted, front, i) { FollowsPrefix(pool, wanted, h, last, i); }
      RunKeepsRoom(pool, wanted, front);
      assert Follows(pool, wanted, h, last);
      if ByStep(h[last - 1], h[last]) {
        StepKeepsRoom(pool, wanted, h);
      } else {
        var c: nat, n: nat, declared: nat, ceiling: nat :|
          FromLists(pool, h, last, c, n, declared, ceiling) && NamedWithRoom(wanted, h, n, declared, ceiling);
        PassKeepsRoom(pool, wanted, h, n, h[c], Wanted(declared, ceiling));
      }
    }
  }

  lemma FollowsPrefix(pool: string, wanted: nat, h: seq<Fleet>, end: nat, i: nat)
    requires 0 < i < end <= |h| && Follows(pool, wanted, h, i)
    ensures Follows(pool, wanted, h[..end], i)
  {
    if !ByStep(h[i - 1], h[i]) {
      var c: nat, n: nat, declared: nat, ceiling: nat :|
        FromLists(pool, h, i, c, n, declared, ceiling) && NamedWithRoom(wanted, h, n, declared, ceiling);
      var front := h[..end];
      assert FromLists(pool, front, i, c, n, declared, ceiling) && NamedWithRoom(wanted, front, n, declared, ceiling);
    }
  }

  // However old its two lists are, and whatever the first says: as long as each pass finds room on the
  // list it takes its names from, the pool never goes past what it had or what passes were told to make,
  // because an old list of names leads to a name that is taken.
  lemma NeverPastWanted(pool: string, wanted: nat, h: seq<Fleet>)
    requires ListedRun(pool, wanted, h) && forall i | 0 <= i < |h| :: Unsquatted(pool, h[i])
    ensures |MembersOf(h[|h| - 1])| <= Max(|MembersOf(h[0])|, wanted)
  {
    RunKeepsRoom(pool, wanted, h);
    var now, kept := MembersOf(h[|h| - 1]), Throughout(h);
    ThroughoutIsIn(h, 0);
    if now <= kept {
      Subset(now, MembersOf(h[0]));
    } else {
      var k :| Room(pool, wanted, kept, now, k);
      Subset(now, kept + NamesUpTo(pool, kept, k));
    }
  }

  // And where the list of names is current that is exact, whatever the count said: the pool goes past what
  // the pass was told to make if and only if that list shows as many already.
  lemma PassGoesPastExactly(pool: string, wanted: nat, counted: Fleet, named: Fleet, f: Fleet, f': Fleet)
    requires ByPass(pool, wanted, counted, named, f, f') && MembersOf(named) == MembersOf(f)
    ensures |MembersOf(f')| > wanted <==> |MembersOf(named)| >= wanted
  {
    assert exists name :: Enabled(f, Provision(name)) && f' == Apply(f, Provision(name));
    var name :| Enabled(f, Provision(name)) && f' == Apply(f, Provision(name));
    ProvisionAddsOne(f, name);
  }

  lemma ProvisionAddsOne(f: Fleet, name: string)
    requires Enabled(f, Provision(name))
    ensures MembersOf(Apply(f, Provision(name))) == MembersOf(f) + {name} && name !in MembersOf(f)
    ensures |MembersOf(Apply(f, Provision(name)))| == |MembersOf(f)| + 1
  {
    var i := Instance(f.nextUid, 0, false, false, true, true);
    assert Apply(f, Provision(name)).instances == f.instances[name := i];
    OneMoreMember(f.instances, name, i);
  }

  lemma OneMoreMember(instances: map<string, Instance>, name: string, i: Instance)
    requires name !in instances && i.member
    ensures MembersIn(instances[name := i]) == MembersIn(instances) + {name}
  {}

  // The controller reads two lists.  A count that lags behind the names makes a member too many: one
  // was seen, two are there, and the first name free is the third.
  lemma SplitReadsPassWanted(pool: string, f: Fleet) returns (f1: Fleet, f2: Fleet)
    requires f.instances == map[MemberName(pool, 1) := Instance(0, 0, false, false, true, true)]
    requires f.pool == Pool(true, true, false)
    ensures ByPass(pool, 2, f, f, f, f1) && ByPass(pool, 2, f, f1, f1, f2)
    ensures |MembersOf(f2)| == 3
  {
    var a, b, c := MemberName(pool, 1), MemberName(pool, 2), MemberName(pool, 3);
    NamesDiffer(pool);
    OneMember(f, a);
    f1 := ProvisionsNext(pool, f, f, 2, b);
    f2 := ProvisionsNext(pool, f, f1, 3, c);
    ThreeMembers(f, f1, f2, a, b, c);
  }

  // Nor does one list suffice when somebody else's instance takes a name the pool would give and goes
  // again: a pass on a list from before it came still has that name to make.
  lemma SquattedNamePassesWanted(pool: string, f: Fleet) returns (squatted: Fleet, f1: Fleet, f2: Fleet, f3: Fleet)
    requires f.instances == map[MemberName(pool, 1) := Instance(0, 0, false, false, true, true)]
    requires f.pool == Pool(true, true, false)
    ensures Enabled(f, Create(MemberName(pool, 2), false)) && squatted == Apply(f, Create(MemberName(pool, 2), false))
    ensures ByPass(pool, 2, squatted, squatted, squatted, f1)
    ensures f2 == f1.(instances := f1.instances - {MemberName(pool, 2)})
    ensures ByPass(pool, 2, f, f, f2, f3) && |MembersOf(f3)| == 3
  {
    var a, b, c := MemberName(pool, 1), MemberName(pool, 2), MemberName(pool, 3);
    NamesDiffer(pool);
    OneMember(f, a);
    squatted := Squatted(f, a, b);
    f1 := ProvisionsNext(pool, squatted, squatted, 3, c);
    f2 := Vacated(squatted, a, b, c, f1);
    f3 := ProvisionsOld(pool, f, f2, b);
  }

  lemma Squatted(f: Fleet, a: string, b: string) returns (g: Fleet)
    requires a != b && f.instances == map[a := Instance(0, 0, false, false, true, true)]
    ensures Enabled(f, Create(b, false)) && g == Apply(f, Create(b, false))
    ensures g.instances.Keys == {a, b} && g.instances[a].member && !g.instances[b].member
    ensures MembersOf(g) == {a} && g.pool == f.pool
  {
    g := Apply(f, Create(b, false));
    Squats(f.instances, a, b, g.instances);
  }

  lemma Vacated(squatted: Fleet, a: string, b: string, c: string, f: Fleet) returns (g: Fleet)
    requires a != b && a != c && b != c && squatted.instances.Keys == {a, b}
    requires squatted.instances[a].member && !squatted.instances[b].member
    requires Enabled(squatted, Provision(c)) && f == Apply(squatted, Provision(c))
    ensures g == f.(instances := f.instances - {b}) && b !in g.instances
    ensures MembersOf(g) == {a, c} && |MembersOf(g)| == 2
  {
    g := f.(instances := f.instances - {b});
    Leaves(squatted.instances, a, b, c, f.instances, g.instances);
  }

  lemma Squats(was: map<string, Instance>, a: string, b: string, now: map<string, Instance>)
    requires a != b && was == map[a := Instance(0, 0, false, false, true, true)]
    requires now.Keys == {a, b} && now[a] == was[a] && !now[b].member
    ensures MembersIn(now) == {a}
  {}

  lemma Leaves(was: map<string, Instance>, a: string, b: string, c: string, now: map<string, Instance>,
               after: map<string, Instance>)
    requires a != b && a != c && b != c && was.Keys == {a, b} && was[a].member && !was[b].member
    requires now.Keys == was.Keys + {c} && now[a] == was[a] && now[b] == was[b] && now[c].member
    requires after == now - {b}
    ensures MembersIn(after) == {a, c} && b !in after
  {}

  lemma ProvisionsOld(pool: string, seen: Fleet, f: Fleet, name: string) returns (f': Fleet)
    requires name == MemberName(pool, 2) && MemberName(pool, 1) != name && seen.instances.Keys == {MemberName(pool, 1)}
    requires |MembersOf(seen)| == 1 && f.pool == Pool(true, true, false) && name !in f.instances && |MembersOf(f)| == 2
    ensures ByPass(pool, 2, seen, seen, f, f') && |MembersOf(f')| == 3
  {
    f' := Apply(f, Provision(name));
    assert LowestFree(pool, seen.instances.Keys, name);
    ProvisionAddsOne(f, name);
  }

  lemma NamesDiffer(pool: string)
    ensures MemberName(pool, 1) != MemberName(pool, 2) && MemberName(pool, 1) != MemberName(pool, 3)
    ensures MemberName(pool, 2) != MemberName(pool, 3)
  {
    if MemberName(pool, 1) == MemberName(pool, 2) { MemberNameInjective(pool, 1, 2); }
    if MemberName(pool, 1) == MemberName(pool, 3) { MemberNameInjective(pool, 1, 3); }
    if MemberName(pool, 2) == MemberName(pool, 3) { MemberNameInjective(pool, 2, 3); }
  }

  lemma OneMember(f: Fleet, a: string)
    requires f.instances == map[a := Instance(0, 0, false, false, true, true)]
    ensures MembersOf(f) == {a}
  {}

  lemma ThreeMembers(f: Fleet, f1: Fleet, f2: Fleet, a: string, b: string, c: string)
    requires a != b && a != c && b != c && MembersOf(f) == {a}
    requires Enabled(f, Provision(b)) && f1 == Apply(f, Provision(b))
    requires Enabled(f1, Provision(c)) && f2 == Apply(f1, Provision(c))
    ensures |MembersOf(f2)| == 3
  {
    assert MembersOf(f1) == {a, b};
    assert MembersOf(f2) == {a, b, c};
  }

  lemma ProvisionsNext(pool: string, counted: Fleet, f: Fleet, k: nat, name: string) returns (f': Fleet)
    requires MembersOf(counted) == {MemberName(pool, 1)} && f.pool == Pool(true, true, false)
    requires 1 <= k && name == MemberName(pool, k) && name !in f.instances
    requires forall j | 1 <= j < k :: MemberName(pool, j) in f.instances
    ensures ByPass(pool, 2, counted, f, f, f') && f' == Apply(f, Provision(name))
  {
    f' := Apply(f, Provision(name));
    assert LowestFree(pool, f.instances.Keys, name);
  }
}
