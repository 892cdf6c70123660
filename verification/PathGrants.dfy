/** The grant operations: reconciliation of one user, and the changes that trigger it. */
module PathGrants {
  import opened Common
  import opened PathGraph
  import opened PathChains
  import opened PathAccess
  import Names = PublishedNames

  // ----- Collecting the proxies of a chain -----

  /** Every dialer of a seen path is seen too, but for `next`, which is about to be. */
  predicate ClosedBut(g: Graph, seen: set<PathId>, next: Option<PathId>) {
    forall q <- seen :: q in g && (g[q].dialer.Some? ==> g[q].dialer.value in seen || g[q].dialer == next)
  }

  lemma {:induction false} ClosedHasChain(g: Graph, seen: set<PathId>, p: PathId, n: nat)
    requires ClosedBut(g, seen, None) && p in seen && EndsWithin(g, p, n)
    ensures Chain(g, p, n) <= seen
    decreases n
  {
    if g[p].dialer.Some? {
      ClosedHasChain(g, seen, g[p].dialer.value, n - 1);
    }
  }

  /** The visit closure with its map of seen paths and its map of proxies. */
  class Collector {
    const tables: Tables
    var seen: set<PathId>
    var proxies: set<ProxyId>

    ghost predicate Valid()
      reads this
    {
      && WellFormed(tables) && seen <= tables.paths.Keys
      && proxies == set q | q in seen :: ProxyOf(tables, q)
    }

    constructor (tables: Tables)
      requires WellFormed(tables)
      ensures Valid() && this.tables == tables && seen == {}
    {
      this.tables := tables;
      seen, proxies := {}, {};
    }

    method Visit(p: PathId, ghost n: nat)
      requires Valid() && EndsWithin(tables.paths, p, n) && ClosedBut(tables.paths, seen, Some(p))
      modifies this
      ensures Valid() && ClosedBut(tables.paths, seen, None) && seen == old(seen) + Chain(tables.paths, p, n)
      decreases n
    {
      if p in seen {
        ClosedHasChain(tables.paths, seen, p, n);
        return;
      }
      seen, proxies := seen + {p}, proxies + {ProxyOf(tables, p)};
      if tables.paths[p].dialer.Some? {
        Visit(tables.paths[p].dialer.value, n - 1);
      }
    }

    method Add(p: PathId, ghost roots: set<PathId>)
      requires Valid() && p in tables.paths && roots <= tables.paths.Keys
      requires ClosedBut(tables.paths, seen, None) && seen == Closure(tables.paths, roots)
      modifies this
      ensures Valid() && ClosedBut(tables.paths, seen, None) && seen == Closure(tables.paths, roots + {p})
    {
      assert Ends(tables.paths, p);
      ghost var n: nat :| EndsWithin(tables.paths, p, n) && ChainOf(tables.paths, p) == Chain(tables.paths, p, n);
      ClosureAdd(tables.paths, roots, p);
      Visit(p, n);
    }
  }

  method CollectHops(t: Tables, roots: set<PathId>) returns (proxies: set<ProxyId>)
    requires WellFormed(t) && roots <= t.paths.Keys
    ensures proxies == Hops(t, roots)
  {
    var collector := new Collector(t);
    var left := roots;
    assert Closure(t.paths, {}) == {};
    assert roots - left == {};
    while left != {}
      invariant left <= roots && fresh(collector) && collector.tables == t
      invariant collector.Valid() && ClosedBut(t.paths, collector.seen, None)
      invariant collector.seen == Closure(t.paths, roots - left)
      decreases left
    {
      var p :| p in left;
      collector.Add(p, roots - left);
      assert roots - left + {p} == roots - (left - {p});
      left := left - {p};
    }
    assert roots - left == roots;
    proxies := collector.proxies;
  }

  // ----- Granting one path -----

  /** The credentials after `granted` proxies were issued one each. */
  predicate Issued(before: map<ProxyId, Credential>, granted: set<ProxyId>, after: map<ProxyId, Credential>) {
    && after.Keys == before.Keys + granted
    && forall p <- after :: after[p] == if p in granted then Enabled else before[p]
  }

  ghost predicate AllResolvable(t: Tables, roots: set<PathId>)
    requires WellFormed(t) && roots <= t.paths.Keys
  {
    forall q <- Closure(t.paths, roots) :: t.endpoints[t.paths[q].endpoint].resolvable
  }

  lemma AllResolvableUnfold(t: Tables, p: PathId)
    requires WellFormed(t) && p in t.paths
    ensures t.paths[p].dialer.Some? ==> t.paths[p].dialer.value in t.paths
    ensures AllResolvable(t, {p}) <==>
      (t.endpoints[t.paths[p].endpoint].resolvable
       && (t.paths[p].dialer.Some? ==> AllResolvable(t, {t.paths[p].dialer.value})))
  {
    hide Closure, Ends;
    ClosureOfOne(t.paths, p);
    ChainOfUnfold(t.paths, p);
    if t.paths[p].dialer.Some? {
      EndsMeansKnown(t.paths, t.paths[p].dialer.value);
      ClosureOfOne(t.paths, t.paths[p].dialer.value);
    }
  }

  /** Binds the user to every node of the chain and issues a credential for every hop. */
  method EnsureChain(t: Tables, rows: Rows, p: PathId, ghost n: nat) returns (r: Option<Rows>)
    requires WellFormed(t) && EndsWithin(t.paths, p, n)
    ensures r.Some? ==>
      && r.value == rows.(credentials := r.value.credentials, bindings := r.value.bindings)
      && Issued(rows.credentials, Hops(t, {p}), r.value.credentials)
      && AllResolvable(t, {p})
    decreases n
  {
    hide Hops, AllResolvable, WellFormed;
    HopsUnfold(t, p);
    AllResolvableUnfold(t, p);
    FitsTables(t, p);
    var path := t.paths[p];
    if !t.endpoints[path.endpoint].resolvable {
      return None;
    }
    var proxy := ProxyOf(t, p);
    var node := t.proxies[proxy].node;
    if node in rows.bindings && !rows.bindings[node] {
      return None;
    }
    if * {
      return None; // the binding or the credential could not be written
    }
    var issued := rows.(bindings := rows.bindings[node := true], credentials := rows.credentials[proxy := Enabled]);
    if path.dialer.None? {
      return Some(issued);
    }
    r := EnsureChain(t, issued, path.dialer.value, n - 1);
  }

  lemma FitsTables(t: Tables, p: PathId)
    requires WellFormed(t) && p in t.paths
    ensures HasProxy(t, p)
  {
  }

  // ----- Published names -----

  /** No two paths emitted for the user carry the same name. */
  ghost predicate NamesDistinct(t: Tables, roots: set<PathId>) {
    var names := NameTables(t);
    forall p, q :: Emits(t, roots, p) && Emits(t, roots, q) && p != q ==>
      && p in t.paths && q in t.paths && t.paths[p].endpoint in names.proxies && t.paths[q].endpoint in names.proxies
      && Names.PublishedName(names, p) != Names.PublishedName(names, q)
  }

  ghost predicate Emits(t: Tables, roots: set<PathId>, p: PathId) {
    exists root <- roots :: Names.Publishes(t.paths, root, p)
  }

  method Listed(s: set<PathId>) returns (list: seq<PathId>)
    ensures forall p :: p in list <==> p in s
  {
    list := [];
    var left := s;
    while left != {}
      invariant left <= s && forall p :: p in list <==> p in s - left
    {
      var p :| p in left;
      list, left := list + [p], left - {p};
    }
  }

  lemma EmitsIsEmitted(t: Tables, roots: set<PathId>, list: seq<PathId>, p: PathId)
    requires WellFormed(t) && roots <= t.paths.Keys && forall p :: p in list <==> p in roots
    ensures Emits(t, roots, p) ==> p in Names.EmittedBy(t.paths, list)
  {
    Names.EmittedByIsEmittedSet(t.paths, list);
    hide Names.Publishes, Names.EmittedBy;
  }

  lemma SamePaths(t: Tables)
    ensures NameTables(t).paths == t.paths
  {
  }

  lemma AcceptedNamesDiffer(t: Tables, roots: set<PathId>, list: seq<PathId>)
    requires WellFormed(t) && roots <= t.paths.Keys && forall p :: p in list <==> p in roots
    requires Names.Readable(NameTables(t), Names.EmittedBy(t.paths, list))
    requires Names.NoClash(NameTables(t), None, Names.EmittedBy(t.paths, list))
    ensures NamesDistinct(t, roots)
  {
    assert Sound(t.paths) && forall root <- list :: root in t.paths;
    hide Names.EmittedBy, Names.PublishedName, Names.NoClash, NameTables, Emits, WellFormed, Sound;
    var all := Names.EmittedBy(t.paths, list);
    SamePaths(t);
    forall p, q | Emits(t, roots, p) && Emits(t, roots, q) && p != q
      ensures p in t.paths && q in t.paths
      ensures t.paths[p].endpoint in NameTables(t).proxies && t.paths[q].endpoint in NameTables(t).proxies
      ensures Names.PublishedName(NameTables(t), p) != Names.PublishedName(NameTables(t), q)
    {
      EmitsIsEmitted(t, roots, list, p);
      EmitsIsEmitted(t, roots, list, q);
      Names.AcceptedNamesAreDistinct(NameTables(t), None, all, p, q);
    }
  }

  method CheckNames(t: Tables, roots: set<PathId>) returns (ok: bool)
    requires WellFormed(t) && roots <= t.paths.Keys
    ensures ok ==> NamesDistinct(t, roots)
  {
    hide NamesDistinct;
    var list := Listed(roots);
    var verdict := Names.ValidatePublishedNames(NameTables(t), list, None);
    ok := verdict == Names.Distinct;
    if ok {
      AcceptedNamesDiffer(t, roots, list);
    }
  }

  method LiveRoots(t: Tables, paths: set<PathId>) returns (live: set<PathId>)
    requires WellFormed(t) && paths <= t.paths.Keys
    ensures live == LiveAmong(t, paths)
  {
    live := set p | p in paths && HasProxy(t, p) && Live(t, p);
  }

  // ----- Reconciling one user -----

  lemma IssuedMore(before: map<ProxyId, Credential>, a: set<ProxyId>, mid: map<ProxyId, Credential>, b: set<ProxyId>,
                   after: map<ProxyId, Credential>)
    requires Issued(before, a, mid) && Issued(mid, b, after)
    ensures Issued(before, a + b, after)
  {
  }

  lemma NothingGranted(t: Tables, credentials: map<ProxyId, Credential>)
    requires WellFormed(t)
    ensures Hops(t, {}) == {} && AllResolvable(t, {}) && Issued(credentials, {}, credentials)
  {
    assert Closure(t.paths, {}) == {};
  }

  lemma ResolvableMore(t: Tables, roots: set<PathId>, p: PathId)
    requires WellFormed(t) && roots <= t.paths.Keys && p in t.paths && AllResolvable(t, roots) && AllResolvable(t, {p})
    ensures AllResolvable(t, roots + {p})
  {
    ClosureAdd(t.paths, roots, p);
    ClosureOfOne(t.paths, p);
  }

  /** Issues the credentials of every hop, then activates the access of the root only. */
  method GrantPathToUser(t: Tables, rows: Rows, p: PathId) returns (r: Option<Rows>)
    requires WellFormed(t) && rows.accesses.Keys <= t.paths.Keys && p in t.paths
    ensures r.Some? ==>
      && r.value == rows.(accesses := rows.accesses[p := true], credentials := r.value.credentials, bindings := r.value.bindings)
      && Issued(rows.credentials, Hops(t, {p}), r.value.credentials)
      && AllResolvable(t, {p}) && t.paths[p].selectable
  {
    hide Hops, AllResolvable, NamesDistinct;
    if !t.paths[p].selectable {
      return None;
    }
    var live := LiveRoots(t, Active(rows.accesses));
    var distinct := CheckNames(t, live + {p});
    if !distinct {
      return None;
    }
    assert Ends(t.paths, p);
    ghost var n: nat :| EndsWithin(t.paths, p, n);
    r := EnsureChain(t, rows, p, n);
    if r.Some? {
      r := Some(r.value.(accesses := r.value.accesses[p := true]));
    }
  }

  method RevokeUndesired(accesses: map<PathId, bool>, desired: set<PathId>) returns (after: map<PathId, bool>)
    ensures after.Keys == accesses.Keys && Active(after) == Active(accesses) * desired
  {
    after := accesses;
    var left := accesses.Keys;
    while left != {}
      invariant left <= accesses.Keys == after.Keys
      invariant forall p <- accesses :: after[p] == if p in left then accesses[p] else accesses[p] && p in desired
    {
      var p :| p in left;
      if after[p] && p !in desired {
        after := after[p := false];
      }
      left := left - {p};
    }
  }

  /** Among the credentials looked at, the unneeded ones of proxies in service are disabled. */
  predicate Retired(t: Tables, before: map<ProxyId, Credential>, needed: set<ProxyId>, looked: set<ProxyId>,
                    after: map<ProxyId, Credential>)
  {
    && after.Keys == before.Keys <= t.proxies.Keys
    && forall p <- after ::
         after[p] ==
         if p in looked && before[p] == Enabled && !t.proxies[p].retired && p !in needed then Disabled else before[p]
  }

  /** Credentials off the chains of all live active accesses are disabled. */
  method DisableUnusedCredentials(t: Tables, rows: Rows) returns (after: Rows)
    requires WellFormed(t) && Active(rows.accesses) <= t.paths.Keys && rows.credentials.Keys <= t.proxies.Keys
    ensures after == rows.(credentials := after.credentials)
    ensures Retired(t, rows.credentials, Hops(t, LiveAmong(t, Active(rows.accesses))), rows.credentials.Keys, after.credentials)
  {
    hide Hops;
    var live := LiveRoots(t, Active(rows.accesses));
    var needed := CollectHops(t, live);
    var credentials := rows.credentials;
    var left := credentials.Keys;
    while left != {}
      invariant left <= credentials.Keys == rows.credentials.Keys
      invariant Retired(t, rows.credentials, needed, rows.credentials.Keys - left, credentials)
    {
      var p :| p in left;
      if credentials[p] == Enabled && !t.proxies[p].retired && p !in needed {
        credentials := credentials[p := Disabled];
      }
      left := left - {p};
    }
    after := rows.(credentials := credentials);
  }

  /** Grants what is desired and not active; refuses a path over a blocked proxy. */
  method GrantDesired(t: Tables, rows: Rows, todo: set<PathId>, blocked: set<ProxyId>) returns (r: Option<Rows>)
    requires WellFormed(t) && rows.accesses.Keys <= t.paths.Keys && todo <= t.paths.Keys
    ensures r.Some? ==>
      && r.value == rows.(accesses := r.value.accesses, credentials := r.value.credentials, bindings := r.value.bindings)
      && r.value.accesses.Keys <= t.paths.Keys && Active(r.value.accesses) == Active(rows.accesses) + todo
      && Issued(rows.credentials, Hops(t, todo), r.value.credentials)
      && AllResolvable(t, todo) && blocked !! Hops(t, todo)
  {
    hide Hops, AllResolvable, Issued;
    var now, left := rows, todo;
    NothingGranted(t, rows.credentials);
    assert todo - left == {};
    while left != {}
      invariant left <= todo
      invariant now == rows.(accesses := now.accesses, credentials := now.credentials, bindings := now.bindings)
      invariant now.accesses.Keys <= t.paths.Keys && Active(now.accesses) == Active(rows.accesses) + (todo - left)
      invariant Issued(rows.credentials, Hops(t, todo - left), now.credentials)
      invariant AllResolvable(t, todo - left) && blocked !! Hops(t, todo - left)
    {
      var p :| p in left;
      var required := CollectHops(t, {p});
      if required * blocked != {} {
        return None;
      }
      r := GrantPathToUser(t, now, p);
      if r.None? {
        return;
      }
      HopsAdd(t, todo - left, p);
      ResolvableMore(t, todo - left, p);
      IssuedMore(rows.credentials, Hops(t, todo - left), now.credentials, Hops(t, {p}), r.value.credentials);
      assert todo - left + {p} == todo - (left - {p});
      assert Active(r.value.accesses) == Active(now.accesses) + {p};
      now, left := r.value, left - {p};
    }
    assert todo - left == todo;
    return Some(now);
  }

  /** All or nothing: `None` stands for the error that rolls the transaction back. */
  method ReconcilePathGrants(t: Tables, groups: map<string, Group>, rows: Rows) returns (r: Option<Rows>)
    requires WellFormed(t) && RowsFit(t, groups, rows)
    ensures r.Some? ==>
      && Desired(groups, rows) <= t.paths.Keys && Active(rows.accesses) <= t.paths.Keys
      && Reconciled(t, Desired(groups, rows), rows, r.value)
      && NamesDistinct(t, LiveAmong(t, Desired(groups, rows))) && RowsFit(t, groups, r.value)
    ensures r.Some? ==> forall p: PathId ::
      (p in r.value.accesses && r.value.accesses[p]) <==>
      (p in rows.direct || exists g <- rows.groups :: g in groups && groups[g].enabled && p in groups[g].members)
  {
    hide Hops, AllResolvable, NamesDistinct, Reconciled;
    var desired := Desired(groups, rows);
    var previouslyRequired := CollectHops(t, Active(rows.accesses));
    var accesses := RevokeUndesired(rows.accesses, desired);
    var blocked := set p | p in previouslyRequired && p in rows.credentials && rows.credentials[p] != Enabled;
    r := GrantDesired(t, rows.(accesses := accesses), desired - Active(rows.accesses), blocked);
    if r.None? {
      return;
    }
    var granted := r.value;
    assert Active(granted.accesses) == desired;
    var live := LiveRoots(t, desired);
    var distinct := CheckNames(t, live);
    if !distinct {
      return None;
    }
    HopsAreProxies(t, desired - Active(rows.accesses));
    var after := DisableUnusedCredentials(t, granted);
    ReconciledBySteps(t, desired, rows, granted, after);
    ActiveIffGranted(groups, rows, after);
    return Some(after);
  }

  lemma HopsAreProxies(t: Tables, roots: set<PathId>)
    requires WellFormed(t) && roots <= t.paths.Keys
    ensures Hops(t, roots) <= t.proxies.Keys
  {
  }

  lemma ReconciledBySteps(t: Tables, desired: set<PathId>, before: Rows, granted: Rows, after: Rows)
    requires WellFormed(t) && desired <= t.paths.Keys && Active(before.accesses) <= t.paths.Keys
    requires before.credentials.Keys <= t.proxies.Keys
    requires granted == before.(accesses := granted.accesses, credentials := granted.credentials, bindings := granted.bindings)
    requires Active(granted.accesses) == desired && after == granted.(credentials := after.credentials)
    requires var added := desired - Active(before.accesses);
      Issued(before.credentials, Hops(t, added), granted.credentials) && AllResolvable(t, added)
      && Blocked(t, before) !! Hops(t, added)
    requires granted.credentials.Keys <= t.proxies.Keys
    requires Retired(t, granted.credentials, Hops(t, LiveAmong(t, desired)), granted.credentials.Keys, after.credentials)
    ensures Reconciled(t, desired, before, after)
  {
    hide Hops, Live;
  }
}
