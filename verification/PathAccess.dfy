/**
 A user's path grants: which accesses are active, which credentials they need, and
 the reconciliation that follows every change of a selection or of a group.
 */
module PathAccess {
  import opened Common
  import opened PathGraph
  import opened PathChains
  import Names = PublishedNames

  type ProxyId = string

  /** `resolvable`: the proxy and its node exist and the host is selected. */
  datatype Endpoint = Endpoint(proxy: ProxyId, enabled: bool, resolvable: bool)

  /** `retired`: the proxy or its node is deleted. */
  datatype Proxy = Proxy(name: string, node: string, retired: bool)

  datatype Tables = Tables(paths: Graph, endpoints: map<string, Endpoint>, proxies: map<ProxyId, Proxy>)

  datatype Credential = Enabled | Disabled | Revoked

  datatype Group = Group(enabled: bool, members: set<PathId>)

  /** The rows of one user. An access row is active or not; a missing row is inactive. */
  datatype Rows = Rows(
    direct: set<PathId>,
    groups: set<string>,
    accesses: map<PathId, bool>,
    credentials: map<ProxyId, Credential>,
    bindings: map<string, bool>)

  ghost predicate WellFormed(t: Tables) {
    && Sound(t.paths)
    && (forall p <- t.paths :: t.paths[p].endpoint in t.endpoints)
    && (forall e <- t.endpoints :: t.endpoints[e].proxy in t.proxies &&
          (t.endpoints[e].resolvable ==> !t.proxies[t.endpoints[e].proxy].retired))
  }

  predicate RowsFit(t: Tables, groups: map<string, Group>, r: Rows) {
    && r.accesses.Keys <= t.paths.Keys && r.credentials.Keys <= t.proxies.Keys && r.direct <= t.paths.Keys
    && forall g <- groups :: groups[g].members <= t.paths.Keys
  }

  predicate HasProxy(t: Tables, p: PathId) {
    p in t.paths && t.paths[p].endpoint in t.endpoints && t.endpoints[t.paths[p].endpoint].proxy in t.proxies
  }

  function ProxyOf(t: Tables, p: PathId): ProxyId
    requires HasProxy(t, p)
  {
    t.endpoints[t.paths[p].endpoint].proxy
  }

  /** An access counts only while its path, endpoint, proxy and node are all in service. */
  predicate Live(t: Tables, p: PathId)
    requires HasProxy(t, p)
  {
    t.paths[p].enabled && t.endpoints[t.paths[p].endpoint].enabled && !t.proxies[ProxyOf(t, p)].retired
  }

  /** Endpoints whose proxy can still be read. */
  function NameTables(t: Tables): Names.Tables {
    Names.Tables(t.paths, map e | e in t.endpoints && t.endpoints[e].proxy in t.proxies &&
      !t.proxies[t.endpoints[e].proxy].retired :: t.proxies[t.endpoints[e].proxy].name)
  }

  function Active(accesses: map<PathId, bool>): set<PathId> {
    set p | p in accesses && accesses[p]
  }

  /** Direct grants, and the members of enabled groups granted to the user. */
  function Desired(groups: map<string, Group>, r: Rows): set<PathId> {
    r.direct + set g, p | g in r.groups && g in groups && groups[g].enabled && p in groups[g].members :: p
  }

  /** What makes a path active: a direct grant, or membership in a group that exists, is
      enabled and is granted to the user. */
  lemma ActiveIffGranted(groups: map<string, Group>, r: Rows, after: Rows)
    requires Active(after.accesses) == Desired(groups, r)
    ensures forall p: PathId ::
      (p in after.accesses && after.accesses[p]) <==>
      (p in r.direct || exists g <- r.groups :: g in groups && groups[g].enabled && p in groups[g].members)
  {
    forall p: PathId
      ensures (p in after.accesses && after.accesses[p]) <==> p in Desired(groups, r)
    {
      assert (p in after.accesses && after.accesses[p]) <==> p in Active(after.accesses);
    }
  }

  /** The proxies the given paths dial through. */
  ghost function Hops(t: Tables, roots: set<PathId>): set<ProxyId>
    requires WellFormed(t) && roots <= t.paths.Keys
  {
    set q | q in Closure(t.paths, roots) :: ProxyOf(t, q)
  }

  ghost function LiveAmong(t: Tables, paths: set<PathId>): set<PathId>
    requires WellFormed(t) && paths <= t.paths.Keys
  {
    set p | p in paths && Live(t, p)
  }

  // ----- What reconciling must do -----

  /** Proxies the user already needed, whose credential an operator has disabled. */
  ghost function Blocked(t: Tables, r: Rows): set<ProxyId>
    requires WellFormed(t) && Active(r.accesses) <= t.paths.Keys
  {
    set p | p in Hops(t, Active(r.accesses)) && p in r.credentials && r.credentials[p] != Enabled
  }

  ghost predicate Reconciled(t: Tables, desired: set<PathId>, before: Rows, after: Rows)
    requires WellFormed(t) && desired <= t.paths.Keys && Active(before.accesses) <= t.paths.Keys
    requires before.credentials.Keys <= t.proxies.Keys
  {
    var granted := Hops(t, desired - Active(before.accesses));
    var needed := Hops(t, LiveAmong(t, desired));
    && after == before.(accesses := after.accesses, credentials := after.credentials, bindings := after.bindings)
    && Active(after.accesses) == desired
    && Blocked(t, before) !! granted
    && (forall q <- Closure(t.paths, desired - Active(before.accesses)) :: t.endpoints[t.paths[q].endpoint].resolvable)
    && after.credentials.Keys == before.credentials.Keys + granted
    && (forall p <- after.credentials :: p in t.proxies &&
          var issued := if p in granted then Enabled else before.credentials[p];
          after.credentials[p] == if issued == Enabled && !t.proxies[p].retired && p !in needed then Disabled else issued)
  }

  /** Hops are in service when they can be resolved. */
  lemma HopsOfResolvable(t: Tables, roots: set<PathId>, p: ProxyId)
    requires WellFormed(t) && roots <= t.paths.Keys && p in Hops(t, roots)
    requires forall q <- Closure(t.paths, roots) :: t.endpoints[t.paths[q].endpoint].resolvable
    ensures p in t.proxies && !t.proxies[p].retired
  {
  }

  /** Which credentials are enabled afterwards: those issued now or enabled before whose
      proxy a live active access needs, and those of retired proxies, which reconciling
      leaves alone. */
  lemma EnabledIff(t: Tables, desired: set<PathId>, before: Rows, after: Rows, p: ProxyId)
    requires WellFormed(t) && desired <= t.paths.Keys && Active(before.accesses) <= t.paths.Keys
    requires before.credentials.Keys <= t.proxies.Keys && Reconciled(t, desired, before, after)
    requires p in t.proxies
    ensures (p in after.credentials && after.credentials[p] == Enabled) <==>
      var enabled := p in before.credentials && before.credentials[p] == Enabled;
      if t.proxies[p].retired then enabled
      else
        && (enabled || p in Hops(t, desired - Active(before.accesses)))
        && p in Hops(t, LiveAmong(t, Active(after.accesses)))
  {
    var granted := desired - Active(before.accesses);
    if p in Hops(t, granted) {
      HopsOfResolvable(t, granted, p);
    }
  }

  /** Dialing from `root` comes by a path on the proxy. */
  ghost predicate DialsOver(t: Tables, root: PathId, p: ProxyId) {
    exists q: PathId :: Reached(t.paths, root, q) && q in t.paths && t.paths[q].endpoint in t.endpoints
      && t.endpoints[t.paths[q].endpoint].proxy == p
  }

  lemma InChainIffReached(g: Graph, root: PathId, q: PathId)
    requires Ends(g, root)
    ensures q in ChainOf(g, root) <==> Reached(g, root, q)
  {
    var n: nat :| EndsWithin(g, root, n) && ChainOf(g, root) == Chain(g, root, n);
    ChainIsReached(g, root, n, q);
  }

  lemma InHopsIff(t: Tables, roots: set<PathId>, p: ProxyId)
    requires WellFormed(t) && roots <= t.paths.Keys
    ensures p in Hops(t, roots) <==> exists root <- roots :: DialsOver(t, root, p)
  {
    if p in Hops(t, roots) {
      var q :| q in Closure(t.paths, roots) && ProxyOf(t, q) == p;
      var root :| root in roots && q in ChainOf(t.paths, root);
      InChainIffReached(t.paths, root, q);
      assert DialsOver(t, root, p);
    }
    if exists root <- roots :: DialsOver(t, root, p) {
      var root :| root in roots && DialsOver(t, root, p);
      var q: PathId :| Reached(t.paths, root, q) && q in t.paths && t.endpoints[t.paths[q].endpoint].proxy == p;
      InChainIffReached(t.paths, root, q);
      assert q in Closure(t.paths, roots) && ProxyOf(t, q) == p;
    }
  }

  /** The same told from the rows and the graph: of a proxy in service, an enabled
      credential is one enabled before, or of a proxy some newly active path dials over,
      that some active path dials over whose row, endpoint and proxy are in service. */
  lemma EnabledMeans(t: Tables, desired: set<PathId>, before: Rows, after: Rows, p: ProxyId)
    requires WellFormed(t) && desired <= t.paths.Keys && Active(before.accesses) <= t.paths.Keys
    requires before.credentials.Keys <= t.proxies.Keys && Reconciled(t, desired, before, after)
    requires p in t.proxies && !t.proxies[p].retired
    ensures (p in after.credentials && after.credentials[p] == Enabled) <==>
      && ((p in before.credentials && before.credentials[p] == Enabled)
          || exists root: PathId :: DialsOver(t, root, p) && root in after.accesses && after.accesses[root]
               && !(root in before.accesses && before.accesses[root]))
      && exists root: PathId :: DialsOver(t, root, p) && root in after.accesses && after.accesses[root]
           && t.paths[root].enabled && t.endpoints[t.paths[root].endpoint].enabled
           && !t.proxies[t.endpoints[t.paths[root].endpoint].proxy].retired
  {
    hide Hops, DialsOver;
    EnabledIff(t, desired, before, after, p);
    assert forall root: PathId :: root in Active(after.accesses) <==> root in after.accesses && after.accesses[root];
    assert forall root: PathId :: root in Active(before.accesses) <==> root in before.accesses && before.accesses[root];
    InHopsIff(t, desired - Active(before.accesses), p);
    InHopsIff(t, LiveAmong(t, Active(after.accesses)), p);
  }

  /** A newly granted path gets an enabled credential on a hop exactly when that hop also
      serves some live active access. */
  lemma GrantedHopEnabledIff(t: Tables, desired: set<PathId>, before: Rows, after: Rows, path: PathId, p: ProxyId)
    requires WellFormed(t) && desired <= t.paths.Keys && Active(before.accesses) <= t.paths.Keys
    requires before.credentials.Keys <= t.proxies.Keys && Reconciled(t, desired, before, after)
    requires path in desired && path !in Active(before.accesses) && p in Hops(t, {path})
    ensures p in after.credentials
    ensures after.credentials[p] == Enabled <==> p in Hops(t, LiveAmong(t, Active(after.accesses)))
  {
    var granted := desired - Active(before.accesses);
    HopsGrow(t, {path}, granted);
    HopsOfResolvable(t, granted, p);
  }

  /** In particular on every hop of a newly granted path that is itself live. */
  lemma LiveGrantIsUsable(t: Tables, desired: set<PathId>, before: Rows, after: Rows, path: PathId, p: ProxyId)
    requires WellFormed(t) && desired <= t.paths.Keys && Active(before.accesses) <= t.paths.Keys
    requires before.credentials.Keys <= t.proxies.Keys && Reconciled(t, desired, before, after)
    requires path in desired && path !in Active(before.accesses) && Live(t, path) && p in Hops(t, {path})
    ensures p in after.credentials && after.credentials[p] == Enabled
  {
    GrantedHopEnabledIff(t, desired, before, after, path, p);
    HopsGrow(t, {path}, LiveAmong(t, desired));
  }

  /** One user's rows through any number of reconciliations, the tables changing between
      them; whatever else happens to the rows in between, credentials and accesses stay. */
  ghost predicate Reconciliations(ts: seq<Tables>, before: seq<Rows>, after: seq<Rows>) {
    && |ts| == |before| == |after|
    && (forall i :: 0 <= i < |ts| ==> Reconciles(ts[i], before[i], after[i]))
    && forall i :: 0 < i < |ts| ==> SameGrants(after[i - 1], before[i])
  }

  predicate SameGrants(a: Rows, b: Rows) {
    a.accesses == b.accesses && a.credentials == b.credentials
  }

  ghost predicate Reconciles(t: Tables, before: Rows, after: Rows) {
    && WellFormed(t) && Active(after.accesses) <= t.paths.Keys && Active(before.accesses) <= t.paths.Keys
    && before.credentials.Keys <= t.proxies.Keys && Reconciled(t, Active(after.accesses), before, after)
  }

  /** What an operator disabled stays disabled through any changes of grants and tables, as
      long as the hop is in use whenever grants are reconciled. */
  lemma {:induction false} DisabledStaysDisabled(ts: seq<Tables>, before: seq<Rows>, after: seq<Rows>, p: ProxyId, n: nat)
    requires Reconciliations(ts, before, after) && n < |ts|
    requires p in before[0].credentials && before[0].credentials[p] != Enabled
    requires forall i :: 0 <= i <= n ==> p in Hops(ts[i], Active(before[i].accesses))
    ensures p in after[n].credentials && after[n].credentials[p] == before[0].credentials[p]
  {
    hide WellFormed, Hops;
    assert Reconciles(ts[n], before[n], after[n]);
    if n > 0 {
      DisabledStaysDisabled(ts, before, after, p, n - 1);
      assert SameGrants(after[n - 1], before[n]);
    }
    assert p in Blocked(ts[n], before[n]);
  }

  lemma HopsGrow(t: Tables, a: set<PathId>, b: set<PathId>)
    requires WellFormed(t) && a <= b <= t.paths.Keys
    ensures Hops(t, a) <= Hops(t, b)
  {
    assert Closure(t.paths, a) <= Closure(t.paths, b);
  }

  lemma HopsAdd(t: Tables, roots: set<PathId>, p: PathId)
    requires WellFormed(t) && roots <= t.paths.Keys && p in t.paths
    ensures Hops(t, roots + {p}) == Hops(t, roots) + Hops(t, {p})
  {
    ClosureAdd(t.paths, roots, p);
    ClosureAdd(t.paths, {}, p);
    assert {} + {p} == {p};
    assert Closure(t.paths, {}) == {};
  }

  lemma EndsMeansKnown(g: Graph, p: PathId)
    requires Ends(g, p)
    ensures p in g
  {
    var n: nat :| EndsWithin(g, p, n);
  }

  lemma HopsUnfold(t: Tables, p: PathId)
    requires WellFormed(t) && p in t.paths
    ensures t.paths[p].dialer.Some? ==> t.paths[p].dialer.value in t.paths
    ensures Hops(t, {p}) == {ProxyOf(t, p)} + if t.paths[p].dialer.Some? then Hops(t, {t.paths[p].dialer.value}) else {}
  {
    hide Closure, Ends;
    ClosureOfOne(t.paths, p);
    ChainOfUnfold(t.paths, p);
    if t.paths[p].dialer.Some? {
      var d := t.paths[p].dialer.value;
      EndsMeansKnown(t.paths, d);
      ClosureOfOne(t.paths, d);
    }
  }
}
