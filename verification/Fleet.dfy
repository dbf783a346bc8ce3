/** The pool's members and what lives on them: provisioning, cordoning, migration, reclaim and pool
    deletion as one step system over the namespace.

    Instances, tenants and migrations are kept by name, as the API server keeps them.  Next to every
    name a binding or a migration stores, the model carries the identity (UID) that name meant when
    it was written: a name can come to mean a different machine, and the promise is about machines. */
module Fleet {
  import opened Common
  import opened Migration

  // `rv` is the object's resource version; `member` means its poolRef names this pool, which is
  // immutable; `owned` means this pool is its controller owner.
  datatype Instance = Instance(uid: nat, rv: nat, cordoned: bool, marked: bool, owned: bool, member: bool)

  datatype Place = Nowhere | At(name: string, uid: nat)

  datatype Move = Move(tenant: string, target: string, source: Place, strategy: Strategy, status: Status)

  // The pool object: whether it still exists, carries the members finalizer, and is being deleted.
  datatype Pool = Pool(exists_: bool, finalizer: bool, deleting: bool)

  datatype Fleet = Namespace(
    instances: map<string, Instance>, tenants: map<string, Place>, moves: map<string, Move>,
    pool: Pool, nextUid: nat, clock: int)

  datatype Reach = Died | Unpublished | Published

  // Whether the cutover's routing write was applied, and whether the restore's was.  Either may be
  // reported as failed, or fail, and the reconcile goes on.
  datatype Routes = Routes(flipped: bool, restored: bool)

  datatype Step =
    | Hold
    | Provision(name: string)
    | Create(name: string, member: bool)
    | Edit(name: string, cordoned: bool, marked: bool)
    | Bind(tenant: string, name: string)
    | Unbind(tenant: string)
    | Emit(move: string, tenant: string, target: string, strategy: Strategy)
    | Clear(move: string)
    | Reconcile(move: string, o: Observation, now: int, window: nat, reach: Reach, r: Routes)
    | Reclaim(name: string, seen: Instance)
    | DeletePool
    | Finalize

  // ------------------------------------------------------------------ what reclaim and deletion ask

  // Some tenant's binding names this instance.
  predicate Holds(f: Fleet, name: string) {
    exists t | t in f.tenants :: f.tenants[t].At? && f.tenants[t].name == name
  }

  // Some migration record names it as a source that has not been dropped.
  predicate Retains(f: Fleet, name: string) {
    exists m | m in f.moves :: f.moves[m].source.At? && f.moves[m].source.name == name && !f.moves[m].status.dropped
  }

  // The guard on the delete: what the pass saw of the instance, what the lists say, and the
  // preconditions the delete carries.
  predicate Reclaimable(f: Fleet, name: string, seen: Instance) {
    && seen.marked && seen.owned && seen.cordoned
    && !Holds(f, name) && !Retains(f, name)
    && name in f.instances && f.instances[name].uid == seen.uid && f.instances[name].rv == seen.rv
  }

  predicate Occupied(f: Fleet) {
    exists n | n in f.instances :: f.instances[n].member && f.instances[n].owned && Holds(f, n)
  }

  // ------------------------------------------------------------------ the steps

  function ResolvedSource(f: Fleet, m: Move): Place {
    if m.source.At? then m.source else if m.tenant in f.tenants then f.tenants[m.tenant] else Nowhere
  }

  // The source is resolved once, off the binding; both ends have to exist and differ.
  predicate Resolves(f: Fleet, m: Move) {
    var source := ResolvedSource(f, m);
    && m.tenant in f.tenants && source.At? && source.name != m.target
    && source.name in f.instances && m.target in f.instances
  }

  predicate OwnsRouting(f: Fleet, m: Move, source: string)
    requires m.tenant in f.tenants
  {
    var home := f.tenants[m.tenant];
    home.Nowhere? || home.name == source || home.name == m.target
  }

  predicate Enabled(f: Fleet, step: Step) {
    match step
    case Hold => f.pool.exists_ && !f.pool.deleting
    case Provision(name) => f.pool.exists_ && !f.pool.deleting && f.pool.finalizer && name !in f.instances
    case Create(name, _) => name !in f.instances
    case Edit(name, _, _) => name in f.instances
    case Bind(tenant, name) =>
      // Admission places only what is placed nowhere, and never on a cordoned member.
      && (tenant in f.tenants ==> f.tenants[tenant].Nowhere?)
      && name in f.instances && !f.instances[name].cordoned
    case Unbind(tenant) => true
    case Emit(move, _, _, _) => move !in f.moves
    case Clear(move) => move in f.moves && Terminal(f.moves[move].status.phase)
    case Reconcile(move, o, now, _, _, r) =>
      && move in f.moves && f.clock <= now
      && var m := f.moves[move];
      && o.strategy == m.strategy
      && (o.cutoverComplete ==> r.flipped && !o.fault && !o.cutoverDeadlineExceeded)
      && (r.flipped ==>
            && m.status.phase == Cutover && !o.abortRequested && (o.cutoverComplete || o.fault)
            && Resolves(f, m) && OwnsRouting(f, m, ResolvedSource(f, m).name))
    case Reclaim(name, seen) => Reclaimable(f, name, seen)
    case DeletePool => f.pool.exists_
    case Finalize => f.pool.exists_ && f.pool.deleting && f.pool.finalizer && !Occupied(f)
  }

  // Once nothing holds a pool that is being deleted it is gone, and garbage collection takes every
  // member it owns.
  function Collect(f: Fleet): Fleet {
    if f.pool.exists_ && f.pool.deleting && !f.pool.finalizer
    then f.(pool := f.pool.(exists_ := false),
            instances := map n | n in f.instances && !f.instances[n].owned :: f.instances[n])
    else f
  }

  // Routing is written by name, so it means whatever machine carries that name now.
  function Route(f: Fleet, tenant: string, name: string): Fleet
    requires name in f.instances
  { f.(tenants := f.tenants[tenant := At(name, f.instances[name].uid)]) }

  function Flip(f: Fleet, m: Move, r: Routes): Fleet
    requires Resolves(f, m)
  { if r.flipped then Route(f, m.tenant, m.target) else f }

  function Restore(f: Fleet, m: Move, d: Decision, r: Routes): Fleet
    requires Resolves(f, m)
  {
    var source := ResolvedSource(f, m).name;
    if d.serving == Source && r.restored && OwnsRouting(f, m, source)
       && !(f.tenants[m.tenant].At? && f.tenants[m.tenant].name == source)
    then Route(f, m.tenant, source) else f
  }

  function ReconcileMove(f: Fleet, move: string, o: Observation, now: int, window: nat, reach: Reach, r: Routes): Fleet
    requires Enabled(f, Reconcile(move, o, now, window, reach, r))
  {
    var m := f.moves[move];
    var source := ResolvedSource(f, m);
    var g := f.(clock := now);
    if !Resolves(f, m) then
      // Reported on the object, source included, and nothing is done.
      if reach == Published && m.tenant in f.tenants then g.(moves := f.moves[move := m.(source := source)]) else g
    else
      // Read before anything is written: a flip must not change what "the source" means.
      var resolved := m.(source := source);
      var flipped := Flip(g, resolved, r);
      if reach == Died then flipped
      else
        var done := Restore(flipped, resolved, Decide(m.status.phase, Seen(m.status, o, now)), r);
        if reach == Unpublished then done
        else done.(moves := f.moves[move := resolved.(status := Record(m.status, o, now, window))])
  }

  function Apply(f: Fleet, step: Step): Fleet
    requires Enabled(f, step)
  {
    match step
    case Hold => f.(pool := f.pool.(finalizer := true))
    case Provision(name) =>
      f.(nextUid := f.nextUid + 1, instances := f.instances[name := Instance(f.nextUid, 0, false, false, true, true)])
    case Create(name, member) =>
      f.(nextUid := f.nextUid + 1,
         instances := f.instances[name := Instance(f.nextUid, 0, false, false, false, member)])
    case Edit(name, cordoned, marked) =>
      var i := f.instances[name];
      f.(instances := f.instances[name := i.(rv := i.rv + 1, cordoned := cordoned, marked := marked)])
    case Bind(tenant, name) => Route(f, tenant, name)
    case Unbind(tenant) => f.(tenants := f.tenants - {tenant})
    case Emit(move, tenant, target, strategy) =>
      f.(moves := f.moves[move := Move(tenant, target, Nowhere, strategy, Admitted)])
    case Clear(move) => f.(moves := f.moves - {move})
    case Reconcile(move, o, now, window, reach, r) => ReconcileMove(f, move, o, now, window, reach, r)
    case Reclaim(name, seen) => f.(instances := f.instances - {name})
    case DeletePool => Collect(f.(pool := f.pool.(deleting := true)))
    case Finalize => Collect(f.(pool := f.pool.(finalizer := false)))
  }

  ghost predicate Reaches(f: Fleet, steps: seq<Step>, f': Fleet)
    decreases |steps|
  {
    if steps == [] then f' == f
    else Enabled(f, steps[0]) && Reaches(Apply(f, steps[0]), steps[1..], f')
  }

  // ------------------------------------------------------------------ the invariants

  // The machine this place named when it was written still carries the name.
  predicate Alive(f: Fleet, p: Place) {
    p.At? ==> p.name in f.instances && f.instances[p.name].uid == p.uid
  }

  // Every tenant's machine is there.
  ghost predicate TenantsAlive(f: Fleet) { forall t | t in f.tenants :: Alive(f, f.tenants[t]) }

  // Every source a migration may still send its tenant back to is there.
  ghost predicate SourcesAlive(f: Fleet) {
    forall m | m in f.moves && !f.moves[m].status.dropped :: Alive(f, f.moves[m].source)
  }

  // Every member the pool made is covered by the finalizer.
  ghost predicate Covered(f: Fleet) {
    forall n | n in f.instances && f.instances[n].owned ::
      f.pool.exists_ && f.pool.finalizer && f.instances[n].member
  }

  ghost predicate StatusesOk(f: Fleet) { forall m | m in f.moves :: StatusOk(f.moves[m].status, f.clock) }

  ghost predicate Inv(f: Fleet) { TenantsAlive(f) && Covered(f) && StatusesOk(f) }

  // ------------------------------------------------------------------ migrations

  // All a reconcile can change: its own record, whose source is what the binding said, and its
  // tenant's binding, which it points at a machine that is there.
  ghost predicate Shape(f: Fleet, move: string, s: Status, f': Fleet)
    requires move in f.moves
  {
    var m := f.moves[move];
    && f'.instances == f.instances && f'.pool == f.pool && f.clock <= f'.clock
    && (f'.tenants == f.tenants ||
        exists n | n in f.instances :: f'.tenants == f.tenants[m.tenant := At(n, f.instances[n].uid)])
    && (f'.moves == f.moves || f'.moves == f.moves[move := m.(source := ResolvedSource(f, m))]
        || f'.moves == f.moves[move := m.(source := ResolvedSource(f, m), status := s)])
  }

  lemma RestoreShape(f: Fleet, m: Move, d: Decision, r: Routes)
    requires Resolves(f, m) && m.source.At?
    ensures var g := Restore(f, m, d, r);
            && g.instances == f.instances && g.pool == f.pool && g.clock == f.clock
            && (g.tenants == f.tenants
                || g.tenants == f.tenants[m.tenant := At(m.source.name, f.instances[m.source.name].uid)])
  {}

  lemma ReconcileShape(f: Fleet, move: string, o: Observation, now: int, window: nat, reach: Reach, r: Routes)
    requires Enabled(f, Reconcile(move, o, now, window, reach, r))
    ensures Shape(f, move, Record(f.moves[move].status, o, now, window),
                  ReconcileMove(f, move, o, now, window, reach, r))
  {
    var m := f.moves[move];
    if Resolves(f, m) {
      var resolved := m.(source := ResolvedSource(f, m));
      var flipped := Flip(f.(clock := now), resolved, r);
      RestoreShape(flipped, resolved, Decide(m.status.phase, Seen(m.status, o, now)), r);
      var f' := ReconcileMove(f, move, o, now, window, reach, r);
      var back := At(resolved.source.name, f.instances[resolved.source.name].uid);
      assert f'.tenants == flipped.tenants || f'.tenants == f.tenants[m.tenant := back];
    }
  }

  lemma ShapeKeeps(f: Fleet, move: string, s: Status, f': Fleet)
    requires Inv(f) && move in f.moves && Shape(f, move, s, f')
    requires StatusOk(s, f'.clock) && (f.moves[move].status.dropped ==> s.dropped)
    ensures Inv(f')
    ensures SourcesAlive(f) ==> SourcesAlive(f')
  {}

  lemma ReconcileKeeps(f: Fleet, move: string, o: Observation, now: int, window: nat, reach: Reach, r: Routes)
    requires Inv(f) && Enabled(f, Reconcile(move, o, now, window, reach, r))
    ensures var f' := Apply(f, Reconcile(move, o, now, window, reach, r));
            Inv(f') && (SourcesAlive(f) ==> SourcesAlive(f'))
  {
    var m := f.moves[move];
    assert StatusOk(m.status, now);
    RecordKeeps(m.status, o, now, window, now);
    ReconcileShape(f, move, o, now, window, reach, r);
    var f' := ReconcileMove(f, move, o, now, window, reach, r);
    assert f'.clock == now;
    ShapeKeeps(f, move, Record(m.status, o, now, window), f');
  }
}
