/** The proxy fleet's routing table and login table, built separately and read together. */
module Proxy {
  import opened Common
  import opened Sorting

  // What reading a credentials Secret comes to.
  datatype Secret = Unreferenced | Absent | Unreadable | Holding(password: string)

  // `bound` is the instance it is placed on, or "".  `guaranteed` and `burstable` are what its workload
  // class gives it; `credential` is that its backend credential can be looked up.
  datatype Tenant = Tenant(
    name: string, created: int, pool: string, deleting: bool, database: string, owner: string, bound: string,
    guaranteed: nat, burstable: nat, credential: bool, secret: Secret)

  datatype Login = Login(tenant: string, userName: string, canLogin: bool, secret: Secret)

  datatype Route = Route(database: string, instance: string, guaranteed: nat, burstable: nat)

  datatype Routing = Unrendered | Routing(routes: seq<Route>)

  datatype User = User(name: string, tenant: string, password: string, contained: bool)

  // A read that failed fails the whole document.
  datatype Table = Failed | Rendered(users: seq<User>)

  // `resolved` are the tenants whose workload class could be read.
  datatype View = View(resolved: seq<Tenant>, unresolved: seq<Tenant>)

  function AllTenants(v: View): seq<Tenant> { v.resolved + v.unresolved }

  ghost predicate NamesUnique(ts: seq<Tenant>) {
    forall i, j | 0 <= i < j < |ts| :: ts[i].name != ts[j].name
  }

  predicate OlderClaim(a: Tenant, b: Tenant) { Earlier(a.created, a.name, b.created, b.name) }

  // The one tenant that holds a database name: the oldest that asks for it.
  ghost predicate HoldsName(ts: seq<Tenant>, t: Tenant) {
    t in ts && t.database != "" && forall u | u in ts && u.database == t.database :: !OlderClaim(u, t)
  }

  lemma SameNameSame(ts: seq<Tenant>, a: Tenant, b: Tenant)
    requires NamesUnique(ts) && a in ts && b in ts && a.name == b.name
    ensures a == b
  {
    var i :| 0 <= i < |ts| && ts[i] == a;
    var j :| 0 <= j < |ts| && ts[j] == b;
    assert !(i < j) && !(j < i);
  }

  // One database, one holder.
  lemma HolderUnique(ts: seq<Tenant>, a: Tenant, b: Tenant)
    requires NamesUnique(ts) && HoldsName(ts, a) && HoldsName(ts, b) && a.database == b.database
    ensures a == b
  {
    EarlierIsStrictTotalOrder(a.created, a.name, b.created, b.name, a.created, a.name);
    if a.name == b.name { SameNameSame(ts, a, b); }
  }

  // ------------------------------------------------------------------ who holds what

  ghost predicate IsHolders(ts: seq<Tenant>, holder: map<string, Tenant>) {
    && (forall d | d in holder :: holder[d].database == d && HoldsName(ts, holder[d]))
    && (forall t | t in ts && t.database != "" :: t.database in holder)
  }

  method DatabaseHolders(ts: seq<Tenant>) returns (holder: map<string, Tenant>)
    ensures IsHolders(ts, holder)
  {
    holder := map[];
    for i := 0 to |ts|
      invariant IsHolders(ts[..i], holder)
    {
      var t := ts[i];
      assert ts[..i + 1] == ts[..i] + [t];
      ghost var was := holder;
      if t.database == "" { continue; }
      if t.database !in holder || OlderClaim(t, holder[t.database]) {
        if t.database in holder { Displaces(ts[..i], holder[t.database], t); }
        BeforeIrreflexive(t.name);
        holder := holder[t.database := t];
      }
      forall d | d in holder ensures holder[d].database == d && HoldsName(ts[..i + 1], holder[d]) {}
    }
    assert ts[..|ts|] == ts;
  }

  lemma Displaces(seen: seq<Tenant>, held: Tenant, t: Tenant)
    requires HoldsName(seen, held) && OlderClaim(t, held) && t.database == held.database
    ensures forall u | u in seen && u.database == t.database :: !OlderClaim(u, t)
  {
    forall u | u in seen && u.database == t.database ensures !OlderClaim(u, t) {
      EarlierIsStrictTotalOrder(u.created, u.name, t.created, t.name, held.created, held.name);
    }
  }

  predicate Holds(holder: map<string, Tenant>, t: Tenant) {
    t.database != "" && t.database in holder && holder[t.database].name == t.name
  }

  lemma HoldsExactly(ts: seq<Tenant>, holder: map<string, Tenant>, t: Tenant)
    requires NamesUnique(ts) && IsHolders(ts, holder) && t in ts
    ensures Holds(holder, t) <==> HoldsName(ts, t)
  {
    if Holds(holder, t) {
      SameNameSame(ts, holder[t.database], t);
    } else if HoldsName(ts, t) {
      HolderUnique(ts, holder[t.database], t);
    }
  }

  // ------------------------------------------------------------------ the routing table

  // To its instance, if that is known; with its capacity, if its class resolved.
  function RouteOf(v: View, t: Tenant, known: set<string>): Route {
    var resolved := t in v.resolved;
    Route(t.database, if t.bound in known then t.bound else "",
      if resolved then t.guaranteed else 0, if resolved then t.burstable else 0)
  }

  // A route for each holder and for nobody else, no database twice.
  ghost predicate RoutesOf(v: View, known: set<string>, routes: seq<Route>) {
    var ts := AllTenants(v);
    && (forall r | r in routes :: exists t :: HoldsName(ts, t) && r == RouteOf(v, t, known))
    && (forall t | HoldsName(ts, t) :: RouteOf(v, t, known) in routes)
    && (forall i, j | 0 <= i < j < |routes| :: routes[i].database != routes[j].database)
  }

  // The tenants of a list that hold their names, in order.
  function Winners(ts: seq<Tenant>, holder: map<string, Tenant>): seq<Tenant> {
    if ts == [] then []
    else Winners(ts[..|ts| - 1], holder) + if Holds(holder, ts[|ts| - 1]) then [ts[|ts| - 1]] else []
  }

  lemma {:induction false} WinnersExactly(ts: seq<Tenant>, holder: map<string, Tenant>)
    ensures forall t :: t in Winners(ts, holder) <==> t in ts && Holds(holder, t)
    ensures NamesUnique(ts) ==> NamesUnique(Winners(ts, holder))
  {
    if ts != [] {
      var last, front := ts[|ts| - 1], ts[..|ts| - 1];
      assert ts == front + [last];
      WinnersExactly(front, holder);
      assert NamesUnique(ts) ==> NamesUnique(front) && forall t | t in front :: t.name != last.name;
    }
  }

  // The capacity of every tenant whose class resolved, by name.
  method Capacities(ts: seq<Tenant>) returns (resolved: map<string, Tenant>)
    requires NamesUnique(ts)
    ensures forall n :: n in resolved ==> resolved[n] in ts && resolved[n].name == n
    ensures forall t | t in ts :: t.name in resolved && resolved[t.name] == t
  {
    resolved := map[];
    for i := 0 to |ts|
      invariant forall n :: n in resolved ==> resolved[n] in ts[..i] && resolved[n].name == n
      invariant forall t | t in ts[..i] :: t.name in resolved && resolved[t.name] == t
    {
      assert ts[..i + 1] == ts[..i] + [ts[i]];
      forall t | t in ts[..i] ensures t.name != ts[i].name {
        var j :| 0 <= j < i && ts[j] == t;
      }
      resolved := resolved[ts[i].name := ts[i]];
    }
    assert ts[..|ts|] == ts;
  }

  method RenderRoutes(v: View, holder: map<string, Tenant>, known: set<string>) returns (routing: Routing)
    requires NamesUnique(AllTenants(v))
    ensures var held := Winners(AllTenants(v), holder);
            && (routing.Unrendered? <==> exists t :: t in held && !t.credential)
            && (routing.Routing? ==>
                  && |routing.routes| == |held|
                  && forall j | 0 <= j < |held| :: routing.routes[j] == RouteOf(v, held[j], known))
  {
    var ts := AllTenants(v);
    ResolvedUnique(v);
    var resolved := Capacities(v.resolved);
    var held := Winners(ts, holder);
    WinnersExactly(ts, holder);
    var routes := [];
    for i := 0 to |held|
      invariant |routes| == i && forall j | 0 <= j < i :: held[j].credential && routes[j] == RouteOf(v, held[j], known)
    {
      var t := held[i];
      assert t in held && t in ts;
      if !t.credential { return Unrendered; }
      var bound := if t.bound in known then t.bound else "";
      SameName(v, t, resolved);
      var effective := if t.name in resolved then (t.guaranteed, t.burstable) else (0, 0);
      routes := routes + [Route(t.database, bound, effective.0, effective.1)];
    }
    return Routing(routes);
  }

  lemma ResolvedUnique(v: View)
    requires NamesUnique(AllTenants(v))
    ensures NamesUnique(v.resolved)
  {
    forall i, j | 0 <= i < j < |v.resolved| ensures v.resolved[i].name != v.resolved[j].name {
      assert AllTenants(v)[i] == v.resolved[i] && AllTenants(v)[j] == v.resolved[j];
    }
  }

  lemma SameName(v: View, t: Tenant, resolved: map<string, Tenant>)
    requires NamesUnique(AllTenants(v)) && t in AllTenants(v)
    requires forall n :: n in resolved ==> resolved[n] in v.resolved && resolved[n].name == n
    requires forall u | u in v.resolved :: u.name in resolved
    ensures t.name in resolved <==> t in v.resolved
  {
    if t.name in resolved { SameNameSame(AllTenants(v), resolved[t.name], t); }
  }

  // The routing table, unless a holder's backend credential cannot be looked up: one route for each
  // tenant that holds its name, to the instance it is bound to if that is known and to none otherwise,
  // with its own capacity if its class resolved and none otherwise.
  method ProxyTenants(v: View, known: set<string>) returns (routing: Routing, ghost held: seq<Tenant>)
    requires NamesUnique(AllTenants(v))
    ensures routing.Unrendered? <==> exists t :: HoldsName(AllTenants(v), t) && !t.credential
    ensures routing.Routing? ==> RoutesOf(v, known, routing.routes)
    ensures forall t :: t in held <==> HoldsName(AllTenants(v), t)
    ensures routing.Routing? ==> |routing.routes| == |held|
    ensures routing.Routing? ==> forall i | 0 <= i < |held| ::
              && routing.routes[i].database == held[i].database
              && (held[i].bound in known ==> routing.routes[i].instance == held[i].bound)
              && (held[i].bound !in known ==> routing.routes[i].instance == "")
              && (held[i] in v.resolved ==>
                    && routing.routes[i].guaranteed == held[i].guaranteed
                    && routing.routes[i].burstable == held[i].burstable)
              && (held[i] !in v.resolved ==> routing.routes[i].guaranteed == 0 && routing.routes[i].burstable == 0)
  {
    var ts := AllTenants(v);
    var holder := DatabaseHolders(ts);
    routing := RenderRoutes(v, holder, known);
    HeldExactly(ts, holder);
    held := Winners(ts, holder);
    if routing.Routing? { HoldersAreRoutes(v, known, held, routing.routes); }
  }

  lemma HeldExactly(ts: seq<Tenant>, holder: map<string, Tenant>)
    requires NamesUnique(ts) && IsHolders(ts, holder)
    ensures forall t :: t in Winners(ts, holder) <==> HoldsName(ts, t)
    ensures NamesUnique(Winners(ts, holder))
  {
    WinnersExactly(ts, holder);
    forall t | t in ts ensures t in Winners(ts, holder) <==> HoldsName(ts, t) { HoldsExactly(ts, holder, t); }
  }

  lemma HoldersAreRoutes(v: View, known: set<string>, held: seq<Tenant>, routes: seq<Route>)
    requires NamesUnique(AllTenants(v)) && NamesUnique(held) && forall t :: t in held <==> HoldsName(AllTenants(v), t)
    requires |held| == |routes| && forall j | 0 <= j < |held| :: routes[j] == RouteOf(v, held[j], known)
    ensures RoutesOf(v, known, routes)
  {
    var ts := AllTenants(v);
    forall r | r in routes ensures exists t :: HoldsName(ts, t) && r == RouteOf(v, t, known) {
      var j :| 0 <= j < |routes| && routes[j] == r;
      assert held[j] in held;
    }
    forall t | HoldsName(ts, t) ensures RouteOf(v, t, known) in routes {
      var j :| 0 <= j < |held| && held[j] == t;
      assert routes[j] in routes;
    }
    forall i, j | 0 <= i < j < |routes| ensures routes[i].database != routes[j].database {
      assert held[i] in held && held[j] in held && held[i] != held[j];
      if held[i].database == held[j].database {
        HolderUnique(ts, held[i], held[j]);
        assert false;
      }
    }
  }

  // ------------------------------------------------------------------ the login table

  predicate Challengeable(s: Secret) { s.Holding? && s.password != "" }

  // Whether reading this Secret fails the document.
  predicate Breaks(s: Secret) { s.Unreadable? }

  function OwnerName(t: Tenant): string { if t.owner != "" then t.owner else t.database }

  // The entry for this Secret's password, if it holds one.
  predicate LogsIn(s: Secret, t: Tenant, name: string, contained: bool, u: User) {
    s == Holding(u.password) && u.password != "" && u.name == name && u.tenant == t.database && u.contained == contained
  }

  // The owner of a tenant that holds its name, under its own name or else the database's.
  ghost predicate IsOwnerEntry(ts: seq<Tenant>, t: Tenant, u: User) {
    HoldsName(ts, t) && OwnerLogsIn(t, u)
  }

  predicate OwnerLogsIn(t: Tenant, u: User) {
    LogsIn(t.secret, t, if t.owner != "" then t.owner else t.database, false, u)
  }

  // A login of a resolved tenant that holds its name.
  ghost predicate IsContainedEntry(v: View, logins: seq<Login>, t: Tenant, l: Login, u: User) {
    && t in v.resolved && HoldsName(AllTenants(v), t)
    && l in logins && l.tenant == t.name && l.canLogin && LogsIn(l.secret, t, l.userName, true, u)
  }

  method OwnerUsers(ts: seq<Tenant>, holder: map<string, Tenant>) returns (table: Table)
    requires NamesUnique(ts) && IsHolders(ts, holder)
    ensures table.Failed? <==> exists t :: HoldsName(ts, t) && Breaks(t.secret)
    ensures table.Rendered? ==> forall u :: u in table.users <==> exists t :: IsOwnerEntry(ts, t, u)
  {
    var held := Winners(ts, holder);
    HeldExactly(ts, holder);
    var users := [];
    for i := 0 to |held|
      invariant forall j | 0 <= j < i :: !Breaks(held[j].secret)
      invariant forall u :: u in users <==>
                exists j :: 0 <= j < i && OwnerLogsIn(held[j], u)
    {
      var t := held[i];
      if t.secret.Unreferenced? { continue; }
      if t.secret.Unreadable? {
        assert t in held;
        return Failed;
      }
      if t.secret.Absent? || t.secret.password == "" { continue; }
      users := users + [User(OwnerName(t), t.database, t.secret.password, false)];
    }
    OwnersAre(ts, held, users);
    return Rendered(users);
  }

  lemma OwnersAre(ts: seq<Tenant>, held: seq<Tenant>, users: seq<User>)
    requires forall t :: t in held <==> HoldsName(ts, t)
    requires forall u :: u in users <==>
              exists j :: 0 <= j < |held| && OwnerLogsIn(held[j], u)
    ensures forall u :: u in users <==> exists t :: IsOwnerEntry(ts, t, u)
  {
    forall u | u in users ensures exists t :: IsOwnerEntry(ts, t, u) {
      var j :| 0 <= j < |held| && OwnerLogsIn(held[j], u);
      assert held[j] in held && IsOwnerEntry(ts, held[j], u);
    }
    forall t, u | IsOwnerEntry(ts, t, u) ensures u in users {
      assert t in held;
      var j :| 0 <= j < |held| && held[j] == t;
    }
  }

  method TenantDatabases(v: View, holder: map<string, Tenant>) returns (databases: map<string, string>)
    requires NamesUnique(AllTenants(v)) && IsHolders(AllTenants(v), holder)
    ensures DatabasesOf(v, databases)
  {
    databases := map[];
    for i := 0 to |v.resolved|
      invariant forall n | n in databases :: exists t :: IsOurs(v, t) && t.name == n && databases[n] == t.database
      invariant forall t | t in v.resolved[..i] && IsOurs(v, t) :: t.name in databases
                  && databases[t.name] == t.database
    {
      var t := v.resolved[i];
      assert v.resolved[..i + 1] == v.resolved[..i] + [t];
      assert AllTenants(v)[i] == t;
      HoldsExactly(AllTenants(v), holder, t);
      if !Holds(holder, t) { continue; }
      forall u | u in v.resolved[..i] ensures u.name != t.name {
        var j :| 0 <= j < i && v.resolved[j] == u;
        assert AllTenants(v)[j] == u;
      }
      assert IsOurs(v, t);
      databases := databases[t.name := t.database];
    }
    assert v.resolved[..|v.resolved|] == v.resolved;
  }

  ghost predicate IsOurs(v: View, t: Tenant) { t in v.resolved && HoldsName(AllTenants(v), t) }

  // The login is of a tenant of ours and may authenticate.
  ghost predicate Applies(v: View, l: Login) { l.canLogin && exists t :: IsOurs(v, t) && t.name == l.tenant }

  // The entry of one login, if it renders one; and whether its Secret fails the document.
  function EntryFrom(databases: map<string, string>, l: Login): Option<User> {
    if l.tenant !in databases || !l.canLogin || !Challengeable(l.secret) then None
    else Some(User(l.userName, databases[l.tenant], l.secret.password, true))
  }

  predicate FailsOn(databases: map<string, string>, l: Login) {
    l.tenant in databases && l.canLogin && Breaks(l.secret)
  }

  ghost predicate Enters(databases: map<string, string>, logins: seq<Login>, u: User) {
    exists l :: l in logins && EntryFrom(databases, l) == Some(u)
  }

  lemma OneLoginMore(databases: map<string, string>, logins: seq<Login>, i: nat)
    requires i < |logins|
    ensures forall u :: Enters(databases, logins[..i + 1], u) <==>
              Enters(databases, logins[..i], u) || EntryFrom(databases, logins[i]) == Some(u)
  {
    assert logins[..i + 1] == logins[..i] + [logins[i]];
    assert logins[i] in logins[..i + 1];
  }

  method LoginUsers(databases: map<string, string>, logins: seq<Login>) returns (table: Table)
    ensures table.Failed? <==> exists l :: l in logins && FailsOn(databases, l)
    ensures table.Rendered? ==> forall u :: u in table.users <==> Enters(databases, logins, u)
  {
    var users := [];
    for i := 0 to |logins|
      invariant forall j | 0 <= j < i :: !FailsOn(databases, logins[j])
      invariant forall u :: u in users <==> Enters(databases, logins[..i], u)
    {
      var l := logins[i];
      OneLoginMore(databases, logins, i);
      if l.tenant !in databases || l.secret.Unreferenced? { continue; }
      if !l.canLogin { continue; }
      if l.secret.Unreadable? {
        assert l in logins && FailsOn(databases, l);
        return Failed;
      }
      if l.secret.Absent? || l.secret.password == "" { continue; }
      var entry := User(l.userName, databases[l.tenant], l.secret.password, true);
      assert EntryFrom(databases, l) == Some(entry);
      assert forall u :: u in users + [entry] <==> u in users || u == entry;
      users := users + [entry];
    }
    assert logins[..|logins|] == logins;
    return Rendered(users);
  }

  ghost predicate DatabasesOf(v: View, databases: map<string, string>) {
    && (forall n | n in databases :: exists t :: IsOurs(v, t) && t.name == n && databases[n] == t.database)
    && (forall t | IsOurs(v, t) :: t.name in databases && databases[t.name] == t.database)
  }

  lemma EntryExactly(v: View, logins: seq<Login>, databases: map<string, string>, l: Login, u: User)
    requires DatabasesOf(v, databases) && l in logins
    ensures EntryFrom(databases, l) == Some(u) <==> exists t :: IsContainedEntry(v, logins, t, l, u)
    ensures FailsOn(databases, l) <==> Applies(v, l) && Breaks(l.secret)
  {
    if l.tenant in databases {
      var t :| IsOurs(v, t) && t.name == l.tenant && databases[l.tenant] == t.database;
      assert EntryFrom(databases, l) == Some(u) ==> IsContainedEntry(v, logins, t, l, u);
    }
  }

  method ContainedUsers(v: View, logins: seq<Login>, holder: map<string, Tenant>) returns (table: Table)
    requires NamesUnique(AllTenants(v)) && IsHolders(AllTenants(v), holder)
    ensures table.Failed? <==> exists l :: l in logins && Applies(v, l) && Breaks(l.secret)
    ensures table.Rendered? ==> forall u :: u in table.users <==> exists t, l :: IsContainedEntry(v, logins, t, l, u)
  {
    var databases := TenantDatabases(v, holder);
    table := LoginUsers(databases, logins);
    forall l, u | l in logins
      ensures EntryFrom(databases, l) == Some(u) <==> exists t :: IsContainedEntry(v, logins, t, l, u)
      ensures FailsOn(databases, l) <==> Applies(v, l) && Breaks(l.secret)
    {
      EntryExactly(v, logins, databases, l, u);
    }
  }

  // The whole table: every owner entry, and the contained ones that shadow none of them.
  ghost predicate UsersOf(v: View, logins: seq<Login>, users: seq<User>) {
    forall u :: u in users <==>
      || (exists t :: IsOwnerEntry(AllTenants(v), t, u))
      || (exists t, l :: IsContainedEntry(v, logins, t, l, u) && !Shadows(v, u))
  }

  ghost predicate Shadows(v: View, u: User) {
    exists t, o :: IsOwnerEntry(AllTenants(v), t, o) && o.name == u.name && o.tenant == u.tenant
  }

  method ProxyUsers(v: View, logins: seq<Login>) returns (table: Table)
    requires NamesUnique(AllTenants(v))
    ensures table.Rendered? ==> UsersOf(v, logins, table.users)
    ensures table.Failed? <==>
              || (exists t :: HoldsName(AllTenants(v), t) && Breaks(t.secret))
              || (exists l :: l in logins && Applies(v, l) && Breaks(l.secret))
  {
    var holder := DatabaseHolders(AllTenants(v));
    var owners := OwnerUsers(AllTenants(v), holder);
    if owners.Failed? { return Failed; }
    var contained := ContainedUsers(v, logins, holder);
    if contained.Failed? { return Failed; }
    var taken := Identities(owners.users);
    var users := owners.users;
    for i := 0 to |contained.users|
      invariant forall u :: u in users <==>
                u in owners.users || (u in contained.users[..i] && (u.name, u.tenant) !in taken)
    {
      var u := contained.users[i];
      if (u.name, u.tenant) in taken { continue; }
      users := users + [u];
    }
    assert contained.users[..|contained.users|] == contained.users;
    forall u: User ensures (u.name, u.tenant) in taken <==> Shadows(v, u) {
      if (u.name, u.tenant) in taken {
        var o :| o in owners.users && o.name == u.name && o.tenant == u.tenant;
        var t :| IsOwnerEntry(AllTenants(v), t, o);
      }
    }
    return Rendered(users);
  }

  method Identities(users: seq<User>) returns (taken: set<(string, string)>)
    ensures forall n, d :: (n, d) in taken <==> exists o :: o in users && o.name == n && o.tenant == d
  {
    taken := {};
    for i := 0 to |users|
      invariant forall n, d :: (n, d) in taken <==> exists o :: o in users[..i] && o.name == n && o.tenant == d
    {
      assert users[..i + 1] == users[..i] + [users[i]];
      taken := taken + {(users[i].name, users[i].tenant)};
      forall n, d ensures (n, d) in taken <==> exists o :: o in users[..i + 1] && o.name == n && o.tenant == d {
        assert users[i] in users[..i + 1];
      }
    }
    assert users[..|users|] == users;
  }

  // ------------------------------------------------------------------ the tables agree

  // Whose entry this is.
  ghost predicate Belongs(v: View, logins: seq<Login>, t: Tenant, u: User) {
    IsOwnerEntry(AllTenants(v), t, u) || exists l :: IsContainedEntry(v, logins, t, l, u)
  }

  // Every login that is rendered leads to exactly one route, and that route was rendered from the
  // tenant the login belongs to: it goes to the instance that tenant is bound to wherever that is known,
  // and nowhere otherwise, with that tenant's own capacity.
  lemma TablesAgree(v: View, logins: seq<Login>, known: set<string>, routes: seq<Route>, users: seq<User>, u: User)
    returns (t: Tenant, i: nat)
    requires NamesUnique(AllTenants(v)) && RoutesOf(v, known, routes) && UsersOf(v, logins, users) && u in users
    ensures Belongs(v, logins, t, u) && i < |routes|
    ensures forall j | 0 <= j < |routes| :: routes[j].database == u.tenant <==> j == i
    ensures routes[i].instance == if t.bound in known then t.bound else ""
    ensures t in v.resolved ==> routes[i].guaranteed == t.guaranteed && routes[i].burstable == t.burstable
    ensures t !in v.resolved ==> routes[i].guaranteed == 0 && routes[i].burstable == 0
    ensures forall o | Belongs(v, logins, o, u) :: o == t && HoldsName(AllTenants(v), o) && o.database == u.tenant
  {
    t := OwnerOf(v, logins, users, u);
    assert RouteOf(v, t, known) in routes;
    i :| 0 <= i < |routes| && routes[i] == RouteOf(v, t, known);
    forall o | Belongs(v, logins, o, u) ensures o == t { HolderUnique(AllTenants(v), o, t); }
    forall j | 0 <= j < |routes| && routes[j].database == u.tenant ensures j == i {
      assert !(i < j) && !(j < i);
    }
  }

  lemma OwnerOf(v: View, logins: seq<Login>, users: seq<User>, u: User) returns (t: Tenant)
    requires UsersOf(v, logins, users) && u in users
    ensures Belongs(v, logins, t, u) && HoldsName(AllTenants(v), t) && t.database == u.tenant
  {
    if o: Tenant :| IsOwnerEntry(AllTenants(v), o, u) {
      t := o;
    } else {
      var c, l :| IsContainedEntry(v, logins, c, l, u);
      t := c;
    }
  }

  // An owner's entry is the only one of its name and tenant.
  lemma OwnerIdentityIsUnique(v: View, logins: seq<Login>, users: seq<User>, a: User, b: User)
    requires NamesUnique(AllTenants(v)) && UsersOf(v, logins, users)
    requires a in users && b in users && !b.contained && a.name == b.name && a.tenant == b.tenant
    ensures a == b
  {
    var t :| IsOwnerEntry(AllTenants(v), t, b);
    assert Shadows(v, a);
    var u :| IsOwnerEntry(AllTenants(v), u, a);
    HolderUnique(AllTenants(v), t, u);
  }

  // A login goes by its tenant's owner name exactly when the owner has no entry, for want of a password.
  lemma LoginTakesOwnerNameExactly(v: View, logins: seq<Login>, users: seq<User>, t: Tenant, l: Login, u: User)
    requires NamesUnique(AllTenants(v)) && UsersOf(v, logins, users)
    requires IsContainedEntry(v, logins, t, l, u) && u.name == OwnerName(t)
    ensures u in users <==> !Challengeable(t.secret)
  {
    if Challengeable(t.secret) {
      assert IsOwnerEntry(AllTenants(v), t, User(OwnerName(t), t.database, t.secret.password, false));
      assert Shadows(v, u);
    } else if Shadows(v, u) {
      var o, e :| IsOwnerEntry(AllTenants(v), o, e) && e.name == u.name && e.tenant == u.tenant;
      HolderUnique(AllTenants(v), o, t);
      assert false;
    }
  }

  // Two logins that render the same name for the same tenant with different passwords.
  ghost predicate Collide(v: View, logins: seq<Login>, t: Tenant, l: Login, m: Login, a: User, b: User) {
    && IsContainedEntry(v, logins, t, l, a) && IsContainedEntry(v, logins, t, m, b)
    && a.name == b.name && a != b && !Shadows(v, a)
  }

  ghost predicate IdentitiesUnique(users: seq<User>) {
    forall a, b | a in users && b in users && a.name == b.name && a.tenant == b.tenant :: a == b
  }

  // A name and tenant stand for one entry of the table if and only if no two logins collide.
  lemma IdentitiesUniqueExactly(v: View, logins: seq<Login>, users: seq<User>)
    requires NamesUnique(AllTenants(v)) && UsersOf(v, logins, users)
    ensures IdentitiesUnique(users) <==> !exists t, l, m, a, b :: Collide(v, logins, t, l, m, a, b)
  {
    if t, l, m, a, b :| Collide(v, logins, t, l, m, a, b) {
      assert Shadows(v, b) ==> Shadows(v, a);
      assert a in users && b in users;
    } else {
      forall a, b | a in users && b in users && a.name == b.name && a.tenant == b.tenant ensures a == b {
        if !a.contained {
          OwnerIdentityIsUnique(v, logins, users, b, a);
        } else if !b.contained {
          OwnerIdentityIsUnique(v, logins, users, a, b);
        } else {
          var t, l :| IsContainedEntry(v, logins, t, l, a) && !Shadows(v, a);
          var u, m :| IsContainedEntry(v, logins, u, m, b) && !Shadows(v, b);
          HolderUnique(AllTenants(v), t, u);
          assert !Collide(v, logins, t, l, m, a, b);
        }
      }
    }
  }

  // One tenant whose owner's Secret is missing, with a login that goes by the owner's name and another
  // name given to two logins.
  const ALONE := Tenant("t", 0, "p", false, "db", "own", "", 0, 0, true, Absent)

  const CLAIMANT := Login("t", "own", true, Holding("x"))
  const TWIN_A := Login("t", "app", true, Holding("y"))
  const TWIN_B := Login("t", "app", true, Holding("z"))

  const SHARED := [CLAIMANT, TWIN_A, TWIN_B]

  const SHARED_TABLE := [User("own", "db", "x", true), User("app", "db", "y", true), User("app", "db", "z", true)]

  // The table that is rendered: the login answers for the owner, and one name stands for two passwords.
  lemma TableWithSharedNames()
    ensures var v := View([ALONE], []);
            && NamesUnique(AllTenants(v)) && UsersOf(v, SHARED, SHARED_TABLE)
            && SHARED_TABLE[0].name == OwnerName(ALONE) && !Challengeable(ALONE.secret)
            && Collide(v, SHARED, ALONE, TWIN_A, TWIN_B, SHARED_TABLE[1], SHARED_TABLE[2])
            && !IdentitiesUnique(SHARED_TABLE)
  {
    var v := View([ALONE], []);
    var ts := AllTenants(v);
    assert ts == [ALONE];
    BeforeIrreflexive("t");
    assert HoldsName(ts, ALONE);
    assert forall t, u :: !IsOwnerEntry(ts, t, u);
    forall u ensures u in SHARED_TABLE <==> exists t, l :: IsContainedEntry(v, SHARED, t, l, u) {
      SharedEntries(v, u);
    }
    assert IsContainedEntry(v, SHARED, ALONE, TWIN_A, SHARED_TABLE[1]);
    assert IsContainedEntry(v, SHARED, ALONE, TWIN_B, SHARED_TABLE[2]);
    assert SHARED_TABLE[1] in SHARED_TABLE && SHARED_TABLE[2] in SHARED_TABLE;
  }

  lemma SharedEntries(v: View, u: User)
    requires v == View([ALONE], []) && HoldsName(AllTenants(v), ALONE)
    ensures u in SHARED_TABLE <==> exists t, l :: IsContainedEntry(v, SHARED, t, l, u)
  {
    if t, l :| IsContainedEntry(v, SHARED, t, l, u) {
      assert t == ALONE;
    }
    assert SHARED[0] in SHARED && SHARED[1] in SHARED && SHARED[2] in SHARED;
    assert IsContainedEntry(v, SHARED, ALONE, CLAIMANT, SHARED_TABLE[0]);
    assert IsContainedEntry(v, SHARED, ALONE, TWIN_A, SHARED_TABLE[1]);
    assert IsContainedEntry(v, SHARED, ALONE, TWIN_B, SHARED_TABLE[2]);
  }

  // ------------------------------------------------------------------ and with the provisioner

  // What reading a tenant's workload class comes to.
  datatype ClassRead = Resolved | Missing | Broken

  predicate ByTenant(a: Tenant, b: Tenant) { a.name == b.name || Before(a.name, b.name) }

  lemma ByTenantTotal()
    ensures TotalOrder(ByTenant)
  {
    forall a, b ensures ByTenant(a, b) || ByTenant(b, a) { BeforeTotal(a.name, b.name); }
    forall a, b, c | ByTenant(a, b) && ByTenant(b, c) ensures ByTenant(a, c) {
      if Before(a.name, b.name) && Before(b.name, c.name) { BeforeTransitive(a.name, b.name, c.name); }
    }
  }

  predicate Ours(t: Tenant, pool: string) { t.pool == pool && !t.deleting }

  // The pool's own tenants, out of all in the namespace: those whose class resolves, by name, and the
  // rest.  A class that cannot be read fails the pass.
  method TenantsOf(namespace: seq<Tenant>, pool: string, read: Tenant -> ClassRead) returns (view: Option<View>)
    requires NamesUnique(namespace)
    ensures view.None? <==> exists t :: t in namespace && Ours(t, pool) && read(t) == Broken
    ensures view.Some? ==> IsViewOf(namespace, pool, view.value) && NamesUnique(AllTenants(view.value))
    ensures view.Some? ==> Sorted(view.value.resolved, ByTenant)
    ensures view.Some? ==> forall t :: t in view.value.resolved ==> read(t) == Resolved
    ensures view.Some? ==> forall t :: t in view.value.unresolved ==> read(t) == Missing
  {
    var resolved, unresolved := [], [];
    for i := 0 to |namespace|
      invariant forall j | 0 <= j < i && Ours(namespace[j], pool) :: read(namespace[j]) != Broken
      invariant forall t :: t in resolved <==> t in namespace[..i] && Ours(t, pool) && read(t) == Resolved
      invariant forall t :: t in unresolved <==> t in namespace[..i] && Ours(t, pool) && read(t) == Missing
      invariant NamesUnique(resolved) && NamesUnique(unresolved)
    {
      var t := namespace[i];
      assert namespace[..i + 1] == namespace[..i] + [t];
      assert forall u | u in namespace[..i] :: u.name != t.name;
      if !Ours(t, pool) { continue; }
      match read(t)
      case Broken =>
        assert t in namespace;
        return None;
      case Missing => unresolved := unresolved + [t];
      case Resolved => resolved := resolved + [t];
    }
    assert namespace[..|namespace|] == namespace;
    ByTenantTotal();
    var sorted := SortBy(resolved, ByTenant);
    SameMembers(sorted, resolved);
    SortedUnique(sorted, resolved);
    view := Some(View(sorted, unresolved));
    ApartUnique(namespace, sorted, unresolved, read);
  }

  lemma SortedUnique(sorted: seq<Tenant>, ts: seq<Tenant>)
    requires NamesUnique(ts) && multiset(sorted) == multiset(ts)
    ensures NamesUnique(sorted)
  {
    assert Distinct(ts);
    PermutationDistinct(sorted, ts);
    SameMembers(sorted, ts);
    forall i, j | 0 <= i < j < |sorted| ensures sorted[i].name != sorted[j].name {
      assert sorted[i] in ts && sorted[j] in ts && sorted[i] != sorted[j];
      if sorted[i].name == sorted[j].name { SameNameSame(ts, sorted[i], sorted[j]); }
    }
  }

  lemma ApartUnique(namespace: seq<Tenant>, a: seq<Tenant>, b: seq<Tenant>, read: Tenant -> ClassRead)
    requires NamesUnique(namespace) && NamesUnique(a) && NamesUnique(b)
    requires forall t | t in a :: t in namespace && read(t) == Resolved
    requires forall t | t in b :: t in namespace && read(t) == Missing
    ensures NamesUnique(a + b)
  {
    forall i, j | 0 <= i < |a| && 0 <= j < |b| ensures a[i].name != b[j].name {
      assert a[i] in a && b[j] in b;
      if a[i].name == b[j].name { SameNameSame(namespace, a[i], b[j]); }
    }
  }

  ghost predicate IsViewOf(namespace: seq<Tenant>, pool: string, v: View) {
    forall t :: t in AllTenants(v) <==> t in namespace && Ours(t, pool)
  }

  // The tenant controller's own answer: the sibling that holds this tenant's database, if any.
  method DatabaseClaimedElsewhere(namespace: seq<Tenant>, t: Tenant) returns (rival: Option<string>)
    ensures rival.None? <==> Rightful(namespace, t)
    ensures rival.Some? ==>
              exists u :: u in namespace && u.name == rival.value && u.database == t.database && OlderClaim(u, t)
  {
    for i := 0 to |namespace|
      invariant forall j | 0 <= j < i :: !Rival(namespace[j], t)
    {
      var u := namespace[i];
      if u.name == t.name || u.deleting || u.pool != t.pool || u.database != t.database { continue; }
      if OlderClaim(u, t) {
        assert u in namespace && Rival(u, t);
        return Some(u.name);
      }
    }
    return None;
  }

  predicate Rival(u: Tenant, t: Tenant) {
    u.name != t.name && !u.deleting && u.pool == t.pool && u.database == t.database && OlderClaim(u, t)
  }

  ghost predicate Rightful(namespace: seq<Tenant>, t: Tenant) { forall u | u in namespace :: !Rival(u, t) }

  // The tenant that is provisioned is the tenant that is routed, both ways.
  lemma ProvisionedIsRouted(namespace: seq<Tenant>, pool: string, v: View, t: Tenant)
    requires NamesUnique(namespace) && IsViewOf(namespace, pool, v) && t in AllTenants(v) && t.database != ""
    ensures HoldsName(AllTenants(v), t) <==> Rightful(namespace, t)
  {
    forall u | u in AllTenants(v) && u.database == t.database && OlderClaim(u, t) ensures Rival(u, t) {
      BeforeIrreflexive(t.name);
      if u.name == t.name { SameNameSame(namespace, u, t); }
    }
  }
}
